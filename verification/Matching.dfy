/**
Reconciliation matching: the three closing levels over shrinking leftovers, and the two
suggestion levels over what is left.
*/
module Matching {
  import opened Ordering
  import opened StableSort
  import opened MergeJoin
  import Canonical

  datatype MatchLevel = PointId | EmbeddingId | ChunkId | SourceVersion | ContentHash

  const CLOSING_LEVELS: seq<MatchLevel> := [PointId, EmbeddingId, ChunkId]
  const SUGGESTION_LEVELS: seq<MatchLevel> := [SourceVersion, ContentHash]

  datatype Confidence = High | Medium | Low

  function ConfidenceForLevel(level: MatchLevel): Confidence {
    if level in CLOSING_LEVELS then High
    else if level == SourceVersion then Medium
    else Low
  }

  datatype EmbeddingModel = EmbeddingModel(provider: string, name: string, revision: string)

  /** A manifest binding joined with its lineage. `pointId` is the id's canonical JSON text. */
  datatype ExpectedPoint = ExpectedPoint(
    bindingId: string,
    target: string,
    scope: string,
    pointId: string,
    embeddingId: string,
    embeddingModel: Option<EmbeddingModel>,
    embeddingDimension: Option<int>,
    embeddingVectorHash: Option<string>,
    chunkId: Option<string>,
    parseRunId: Option<string>,
    parserName: Option<string>,
    parserVersion: Option<string>,
    parserConfigHash: Option<string>,
    sourceId: Option<string>,
    sourceVersionId: Option<string>,
    sourceStatus: Option<string>,
    expectedPayloadHash: string,
    expectedPayloadProjection: Option<seq<Canonical.Entry<Canonical.Json>>>,
    tenantProjection: Option<string>,
    aclProjection: Option<seq<string>>,
    writeStatus: Option<string>,
    piiAssertionIds: seq<string>,
    licenseAssertionIds: seq<string>)

  /** An observed index point. */
  datatype NormalizedPoint = NormalizedPoint(
    targetId: string,
    scope: string,
    pointId: string,
    payloadHash: string,
    sourceId: Option<string>,
    sourceVersionId: Option<string>,
    chunkId: Option<string>,
    embeddingId: Option<string>)

  function ExpectedKey(level: MatchLevel): ExpectedPoint -> Key {
    (item: ExpectedPoint) =>
      match level
      case PointId => Some(item.pointId)
      case EmbeddingId => Some(item.embeddingId)
      case ChunkId => item.chunkId
      case SourceVersion => item.sourceVersionId
      case ContentHash => Some(item.expectedPayloadHash)
  }

  function ObservedKey(level: MatchLevel): NormalizedPoint -> Key {
    (item: NormalizedPoint) =>
      match level
      case PointId => Some(item.pointId)
      case EmbeddingId => item.embeddingId
      case ChunkId => item.chunkId
      case SourceVersion => item.sourceVersionId
      case ContentHash => Some(item.payloadHash)
  }

  function ExpectedSortKey(level: MatchLevel): ExpectedPoint -> Rank {
    RankBy(ExpectedKey(level))
  }

  function ObservedSortKey(level: MatchLevel): NormalizedPoint -> Rank {
    RankBy(ObservedKey(level))
  }

  /** Both points hold the same key at `level`. */
  ghost predicate ShareKey(level: MatchLevel, e: ExpectedPoint, o: NormalizedPoint) {
    ExpectedKey(level)(e).Some? && ExpectedKey(level)(e) == ObservedKey(level)(o)
  }

  datatype MatchedPair = MatchedPair(expected: ExpectedPoint, observed: NormalizedPoint, level: MatchLevel,
    confidence: Confidence)

  datatype DuplicateGroup<T> = DuplicateGroup(level: MatchLevel, key: string, items: seq<T>)

  datatype MatchOutcome = MatchOutcome(
    matched: seq<MatchedPair>,
    missing: seq<ExpectedPoint>,
    orphan: seq<NormalizedPoint>,
    duplicateExpected: seq<DuplicateGroup<ExpectedPoint>>,
    duplicateObserved: seq<DuplicateGroup<NormalizedPoint>>)
  {
    function After(level: MatchLevel, j: Joined<ExpectedPoint, NormalizedPoint>): MatchOutcome {
      MatchOutcome(Pairs(level, j.pairs) + matched, missing, orphan,
                   Groups(level, j.duplicateExpected) + duplicateExpected,
                   Groups(level, j.duplicateObserved) + duplicateObserved)
    }
  }

  function Pairs(level: MatchLevel, pairs: seq<(ExpectedPoint, NormalizedPoint)>): (r: seq<MatchedPair>)
    ensures |r| == |pairs|
    ensures forall i :: 0 <= i < |r| ==> r[i] == MatchedPair(pairs[i].0, pairs[i].1, level, ConfidenceForLevel(level))
  {
    seq(|pairs|, i requires 0 <= i < |pairs| => MatchedPair(pairs[i].0, pairs[i].1, level, ConfidenceForLevel(level)))
  }

  function Groups<T>(level: MatchLevel, groups: seq<(string, seq<T>)>): (r: seq<DuplicateGroup<T>>)
    ensures |r| == |groups|
    ensures forall i :: 0 <= i < |r| ==> r[i] == DuplicateGroup(level, groups[i].0, groups[i].1)
  {
    seq(|groups|, i requires 0 <= i < |groups| => DuplicateGroup(level, groups[i].0, groups[i].1))
  }

  /** One matching round over unsorted pools. */
  function Round(level: MatchLevel, es: seq<ExpectedPoint>,
                 os: seq<NormalizedPoint>): Joined<ExpectedPoint, NormalizedPoint> {
    Join(Sort(es, ExpectedSortKey(level)), Sort(os, ObservedSortKey(level)), ExpectedKey(level), ObservedKey(level))
  }

  /** The rounds of `levels` in turn, each over the previous one's leftovers. */
  function RunLevels(levels: seq<MatchLevel>, es: seq<ExpectedPoint>, os: seq<NormalizedPoint>): MatchOutcome {
    if levels == [] then MatchOutcome([], es, os, [], [])
    else
      var j := Round(levels[0], es, os);
      RunLevels(levels[1..], j.leftExpected, j.leftObserved).After(levels[0], j)
  }

  /** `match_all_levels`, without its suggestions. */
  method MatchAllLevels(expected: seq<ExpectedPoint>, observed: seq<NormalizedPoint>) returns (outcome: MatchOutcome)
    ensures outcome == RunLevels(CLOSING_LEVELS, expected, observed)
  {
    var acc := MatchOutcome([], expected, observed, [], []);
    AppendNothing(RunLevels(CLOSING_LEVELS, expected, observed));
    for i := 0 to |CLOSING_LEVELS|
      invariant RunLevels(CLOSING_LEVELS, expected, observed) ==
                Append(acc, RunLevels(CLOSING_LEVELS[i..], acc.missing, acc.orphan))
    {
      var level := CLOSING_LEVELS[i];
      var sortedExpected := Sort(acc.missing, ExpectedSortKey(level));
      var sortedObserved := Sort(acc.orphan, ObservedSortKey(level));
      var j := StreamMergeJoin(sortedExpected, sortedObserved, ExpectedKey(level), ObservedKey(level));
      AppendRound(acc, CLOSING_LEVELS[i..], j);
      assert CLOSING_LEVELS[i..][1..] == CLOSING_LEVELS[i + 1..];
      acc := Record(acc, level, j);
    }
    assert CLOSING_LEVELS[|CLOSING_LEVELS|..] == [];
    AppendNothingAfter(acc);
    outcome := acc;
  }

  /** What the callbacks of one round do to the lists collected so far. */
  function Record(acc: MatchOutcome, level: MatchLevel, j: Joined<ExpectedPoint, NormalizedPoint>): MatchOutcome {
    MatchOutcome(acc.matched + Pairs(level, j.pairs), j.leftExpected, j.leftObserved,
                 acc.duplicateExpected + Groups(level, j.duplicateExpected),
                 acc.duplicateObserved + Groups(level, j.duplicateObserved))
  }

  function Append(acc: MatchOutcome, rest: MatchOutcome): MatchOutcome {
    MatchOutcome(acc.matched + rest.matched, rest.missing, rest.orphan,
                 acc.duplicateExpected + rest.duplicateExpected, acc.duplicateObserved + rest.duplicateObserved)
  }

  lemma AppendNothing(rest: MatchOutcome)
    ensures forall es, os :: Append(MatchOutcome([], es, os, [], []), rest) == rest
  {
  }

  lemma AppendNothingAfter(acc: MatchOutcome)
    ensures Append(acc, RunLevels([], acc.missing, acc.orphan)) == acc
  {
  }

  lemma AppendRound(acc: MatchOutcome, levels: seq<MatchLevel>, j: Joined<ExpectedPoint, NormalizedPoint>)
    requires levels != [] && j == Round(levels[0], acc.missing, acc.orphan)
    ensures Append(acc, RunLevels(levels, acc.missing, acc.orphan)) ==
            Append(Record(acc, levels[0], j), RunLevels(levels[1..], j.leftExpected, j.leftObserved))
  {
    var rest := RunLevels(levels[1..], j.leftExpected, j.leftObserved);
    assert RunLevels(levels, acc.missing, acc.orphan) == rest.After(levels[0], j);
    AppendAfter(acc, levels[0], j, rest);
  }

  lemma AppendAfter(acc: MatchOutcome, level: MatchLevel, j: Joined<ExpectedPoint, NormalizedPoint>, rest: MatchOutcome)
    ensures Append(acc, rest.After(level, j)) == Append(Record(acc, level, j), rest)
  {
  }

  // ----- one round, in terms of the unsorted pools

  lemma SortKeepsGroup<T>(s: seq<T>, key: T -> Key, k: Key)
    ensures Group(Sort(s, RankBy(key)), key, k) == Group(s, key, k)
  {
    SortGroup(s, RankBy(key), KeyRank(k));
    GroupByRank(s, key, k);
    GroupByRank(Sort(s, RankBy(key)), key, k);
  }

  /** Pairing, leftovers and duplicate groups of a round, per key and in the pools' own order. */
  lemma RoundAtKey(level: MatchLevel, es: seq<ExpectedPoint>, os: seq<NormalizedPoint>, k: string)
    ensures JoinedAt(Round(level, es, os), es, os, ExpectedKey(level), ObservedKey(level), k)
  {
    var ek, ok := ExpectedKey(level), ObservedKey(level);
    SortSorted(es, ExpectedSortKey(level));
    SortSorted(os, ObservedSortKey(level));
    JoinAtKey(Sort(es, RankBy(ek)), Sort(os, RankBy(ok)), ek, ok, k);
    SortKeepsGroup(es, ek, Some(k));
    SortKeepsGroup(os, ok, Some(k));
  }

  lemma RoundConserves(level: MatchLevel, es: seq<ExpectedPoint>, os: seq<NormalizedPoint>)
    ensures Conserves(Round(level, es, os), es, os)
  {
    SortMembers(es, ExpectedSortKey(level));
    SortMembers(os, ObservedSortKey(level));
    JoinConserves(Sort(es, ExpectedSortKey(level)), Sort(os, ObservedSortKey(level)), ExpectedKey(level),
      ObservedKey(level));
  }

  /** A round's leftovers share no key: one side of every key's group is used up. */
  lemma RoundCloses(level: MatchLevel, es: seq<ExpectedPoint>, os: seq<NormalizedPoint>, e: ExpectedPoint,
                    o: NormalizedPoint)
    requires e in Round(level, es, os).leftExpected && o in Round(level, es, os).leftObserved
    ensures !ShareKey(level, e, o)
  {
    if ShareKey(level, e, o) {
      var j, key := Round(level, es, os), ExpectedKey(level)(e);
      RoundAtKey(level, es, os, key.value);
      GroupMember(j.leftExpected, ExpectedKey(level), key, e);
      GroupMember(j.leftObserved, ObservedKey(level), key, o);
      assert false;
    }
  }

  // ----- the whole run

  function ExpectedOf(pairs: seq<MatchedPair>): (r: seq<ExpectedPoint>)
    ensures |r| == |pairs| && forall i :: 0 <= i < |r| ==> r[i] == pairs[i].expected
  {
    seq(|pairs|, i requires 0 <= i < |pairs| => pairs[i].expected)
  }

  function ObservedOf(pairs: seq<MatchedPair>): (r: seq<NormalizedPoint>)
    ensures |r| == |pairs| && forall i :: 0 <= i < |r| ==> r[i] == pairs[i].observed
  {
    seq(|pairs|, i requires 0 <= i < |pairs| => pairs[i].observed)
  }

  /** Every expected point is matched or missing, every observed one matched or orphaned, with multiplicity. */
  ghost predicate Accounts(r: MatchOutcome, es: seq<ExpectedPoint>, os: seq<NormalizedPoint>) {
    && multiset(es) == multiset(ExpectedOf(r.matched)) + multiset(r.missing)
    && multiset(os) == multiset(ObservedOf(r.matched)) + multiset(r.orphan)
  }

  lemma AfterAccounts(rest: MatchOutcome, level: MatchLevel, j: Joined<ExpectedPoint, NormalizedPoint>,
                      es: seq<ExpectedPoint>, os: seq<NormalizedPoint>)
    requires Conserves(j, es, os) && Accounts(rest, j.leftExpected, j.leftObserved)
    ensures Accounts(rest.After(level, j), es, os)
  {
    SidesOf(level, j.pairs, rest.matched);
    hide ExpectedOf, ObservedOf, Firsts, Seconds, Pairs;
  }

  lemma SidesOf(level: MatchLevel, pairs: seq<(ExpectedPoint, NormalizedPoint)>, rest: seq<MatchedPair>)
    ensures ExpectedOf(Pairs(level, pairs) + rest) == Firsts(pairs) + ExpectedOf(rest)
    ensures ObservedOf(Pairs(level, pairs) + rest) == Seconds(pairs) + ObservedOf(rest)
  {
  }

  lemma {:induction false} RunConserves(levels: seq<MatchLevel>, es: seq<ExpectedPoint>, os: seq<NormalizedPoint>)
    ensures Accounts(RunLevels(levels, es, os), es, os)
  {
    if levels == [] {
      var r := RunLevels(levels, es, os);
      assert ExpectedOf(r.matched) == [] && ObservedOf(r.matched) == [];
    } else {
      hide Round, Accounts, Conserves;
      var j := Round(levels[0], es, os);
      RoundConserves(levels[0], es, os);
      RunConserves(levels[1..], j.leftExpected, j.leftObserved);
      AfterAccounts(RunLevels(levels[1..], j.leftExpected, j.leftObserved), levels[0], j, es, os);
    }
  }

  lemma RunMembers(levels: seq<MatchLevel>, es: seq<ExpectedPoint>, os: seq<NormalizedPoint>)
    ensures var r := RunLevels(levels, es, os);
      && (forall e :: e in r.missing ==> e in es)
      && (forall o :: o in r.orphan ==> o in os)
      && (forall i :: 0 <= i < |r.matched| ==> r.matched[i].expected in es && r.matched[i].observed in os)
  {
    var r := RunLevels(levels, es, os);
    RunConserves(levels, es, os);
    forall e | e in r.missing ensures e in es { assert e in multiset(es); }
    forall o | o in r.orphan ensures o in os { assert o in multiset(os); }
    forall i | 0 <= i < |r.matched| ensures r.matched[i].expected in es && r.matched[i].observed in os {
      assert ExpectedOf(r.matched)[i] in multiset(es) && ObservedOf(r.matched)[i] in multiset(os);
    }
  }

  /** After the run, no missing point and orphan point share a key of any level run. */
  lemma {:induction false} RunCloses(levels: seq<MatchLevel>, es: seq<ExpectedPoint>, os: seq<NormalizedPoint>,
                                     level: MatchLevel, e: ExpectedPoint, o: NormalizedPoint)
    requires level in levels
    requires e in RunLevels(levels, es, os).missing && o in RunLevels(levels, es, os).orphan
    ensures !ShareKey(level, e, o)
  {
    var j := Round(levels[0], es, os);
    RunMembers(levels[1..], j.leftExpected, j.leftObserved);
    if level == levels[0] {
      RoundCloses(level, es, os, e, o);
    } else {
      RunCloses(levels[1..], j.leftExpected, j.leftObserved, level, e, o);
    }
  }

  lemma RoundPairs(level: MatchLevel, es: seq<ExpectedPoint>, os: seq<NormalizedPoint>, i: nat)
    requires i < |Round(level, es, os).pairs|
    ensures var p := Round(level, es, os).pairs[i]; ShareKey(level, p.0, p.1)
  {
    JoinPairsAgree(Sort(es, ExpectedSortKey(level)), Sort(os, ObservedSortKey(level)), ExpectedKey(level),
      ObservedKey(level));
  }

  /** A matched pair shares the key of its own level, the `n`th, and of no earlier one. */
  ghost predicate SettledAt(p: MatchedPair, levels: seq<MatchLevel>, n: nat) {
    && n < |levels| && p.level == levels[n] && ShareKey(p.level, p.expected, p.observed)
    && p.confidence == ConfidenceForLevel(p.level)
    && forall m :: 0 <= m < n ==> !ShareKey(levels[m], p.expected, p.observed)
  }

  lemma SettledLater(p: MatchedPair, levels: seq<MatchLevel>, n: nat)
    requires levels != [] && SettledAt(p, levels[1..], n) && !ShareKey(levels[0], p.expected, p.observed)
    ensures SettledAt(p, levels, n + 1)
  {
    forall m | 0 <= m < n + 1 ensures !ShareKey(levels[m], p.expected, p.observed) {
      if m > 0 { assert levels[m] == levels[1..][m - 1]; }
    }
  }

  lemma {:induction false} RunPairs(levels: seq<MatchLevel>, es: seq<ExpectedPoint>, os: seq<NormalizedPoint>, i: nat)
    returns (n: nat)
    requires i < |RunLevels(levels, es, os).matched|
    ensures SettledAt(RunLevels(levels, es, os).matched[i], levels, n)
  {
    hide Round, ShareKey, ConfidenceForLevel;
    var j := Round(levels[0], es, os);
    if i < |j.pairs| {
      n := 0;
      RoundPairs(levels[0], es, os, i);
    } else {
      var r := RunPairs(levels[1..], j.leftExpected, j.leftObserved, i - |j.pairs|);
      var p := RunLevels(levels[1..], j.leftExpected, j.leftObserved).matched[i - |j.pairs|];
      assert RunLevels(levels, es, os).matched[i] == p;
      RunMembers(levels[1..], j.leftExpected, j.leftObserved);
      RoundCloses(levels[0], es, os, p.expected, p.observed);
      SettledLater(p, levels, r);
      n := r + 1;
    }
  }
}
