/**
What reconciliation reports from a match outcome: relocation suggestions for the
unresolved points, and the five ratios.
*/
module Report {
  import opened Ordering
  import opened StableSort
  import opened MergeJoin
  import opened Matching
  import opened Spill
  import opened Engine

  // ----- relocation suggestions

  type PointPair = (ExpectedPoint, NormalizedPoint)

  /** The pairs the two suggestion levels form, both over the same pools. */
  function SuggestionPairs(es: seq<ExpectedPoint>, os: seq<NormalizedPoint>): seq<PointPair> {
    Round(SourceVersion, es, os).pairs + Round(ContentHash, es, os).pairs
  }

  function BindingOf(p: PointPair): string { p.0.bindingId }

  function PointOf(p: PointPair): string { p.1.pointId }

  /** `m.setdefault(k, []).append(v)`. */
  function AddTo(m: map<string, seq<string>>, k: string, v: string): map<string, seq<string>> {
    m[k := (if k in m then m[k] else []) + [v]]
  }

  /** `m` lists, under each key, the values of that key's pairs in order, and holds no other key. */
  ghost predicate Indexes(m: map<string, seq<string>>, pairs: seq<PointPair>, key: PointPair -> string,
                          value: PointPair -> string) {
    forall k: string ::
      && (k in m <==> Group(pairs, key, k) != [])
      && (k in m ==> m[k] == Map(value, Group(pairs, key, k)))
  }

  lemma IndexesOneMore(m: map<string, seq<string>>, pairs: seq<PointPair>, p: PointPair, key: PointPair -> string,
                       value: PointPair -> string)
    requires Indexes(m, pairs, key, value)
    ensures Indexes(AddTo(m, key(p), value(p)), pairs + [p], key, value)
  {
    var m' := AddTo(m, key(p), value(p));
    forall k: string
      ensures (k in m' <==> Group(pairs + [p], key, k) != [])
      ensures k in m' ==> m'[k] == Map(value, Group(pairs + [p], key, k))
    {
      GroupConcat(pairs, [p], key, k);
      assert [p][1..] == [];
      var g := Group(pairs, key, k);
      assert k in m <==> g != [];
      if key(p) == k {
        assert Group([p], key, k) == [p];
        assert Map(value, g + [p]) == Map(value, g) + [value(p)];
        assert Map(value, []) == [];
      } else {
        assert Group([p], key, k) == [];
        assert g + [] == g;
      }
    }
  }

  method RelocationSuggestions(es: seq<ExpectedPoint>, os: seq<NormalizedPoint>)
    returns (relocation: map<string, seq<string>>, orphan: map<string, seq<string>>)
    ensures Indexes(relocation, SuggestionPairs(es, os), BindingOf, PointOf)
    ensures Indexes(orphan, SuggestionPairs(es, os), PointOf, BindingOf)
  {
    relocation, orphan := map[], map[];
    ghost var seen: seq<PointPair> := [];
    for i := 0 to |SUGGESTION_LEVELS|
      invariant seen == (if i == 0 then [] else if i == 1 then Round(SourceVersion, es, os).pairs
        else SuggestionPairs(es, os))
      invariant Indexes(relocation, seen, BindingOf, PointOf) && Indexes(orphan, seen, PointOf, BindingOf)
    {
      var level := SUGGESTION_LEVELS[i];
      var sortedExpected := Sort(es, ExpectedSortKey(level));
      var sortedObserved := Sort(os, ObservedSortKey(level));
      var j := StreamMergeJoin(sortedExpected, sortedObserved, ExpectedKey(level), ObservedKey(level));
      relocation, orphan := IndexPairs(j.pairs, relocation, orphan, seen);
      seen := seen + j.pairs;
    }
  }

  /** `match_all_levels`: the outcome of the closing levels, and suggestions for what it leaves. */
  method MatchWithSuggestions(expected: seq<ExpectedPoint>, observed: seq<NormalizedPoint>)
    returns (outcome: MatchOutcome, relocation: map<string, seq<string>>, orphan: map<string, seq<string>>)
    ensures outcome == RunLevels(CLOSING_LEVELS, expected, observed)
    ensures Indexes(relocation, SuggestionPairs(outcome.missing, outcome.orphan), BindingOf, PointOf)
    ensures Indexes(orphan, SuggestionPairs(outcome.missing, outcome.orphan), PointOf, BindingOf)
  {
    hide RunLevels, Indexes, SuggestionPairs;
    outcome := MatchAllLevels(expected, observed);
    relocation, orphan := RelocationSuggestions(outcome.missing, outcome.orphan);
  }

  /** The outcome `reconcile_big_data` finalizes. */
  method ReconcileWithSuggestions(expected: seq<ExpectedPoint>, observed: seq<NormalizedPoint>, chunkSize: int)
    returns (outcome: MatchOutcome, relocation: map<string, seq<string>>, orphan: map<string, seq<string>>)
    ensures outcome == RunLevels(CLOSING_LEVELS, Map(Respill, expected), observed)
    ensures Indexes(relocation, SuggestionPairs(outcome.missing, outcome.orphan), BindingOf, PointOf)
    ensures Indexes(orphan, SuggestionPairs(outcome.missing, outcome.orphan), PointOf, BindingOf)
  {
    hide RunLevels, Indexes, SuggestionPairs;
    outcome := ReconcileBigData(expected, observed, chunkSize);
    relocation, orphan := RelocationSuggestions(outcome.missing, outcome.orphan);
  }

  /** The matched callback, over one level's pairs. */
  method IndexPairs(pairs: seq<PointPair>, r0: map<string, seq<string>>, o0: map<string, seq<string>>,
                    ghost seen: seq<PointPair>)
    returns (relocation: map<string, seq<string>>, orphan: map<string, seq<string>>)
    requires Indexes(r0, seen, BindingOf, PointOf) && Indexes(o0, seen, PointOf, BindingOf)
    ensures Indexes(relocation, seen + pairs, BindingOf, PointOf) && Indexes(orphan, seen + pairs, PointOf, BindingOf)
  {
    relocation, orphan := r0, o0;
    assert seen + pairs[..0] == seen;
    for n := 0 to |pairs|
      invariant Indexes(relocation, seen + pairs[..n], BindingOf, PointOf)
      invariant Indexes(orphan, seen + pairs[..n], PointOf, BindingOf)
    {
      IndexesOneMore(relocation, seen + pairs[..n], pairs[n], BindingOf, PointOf);
      IndexesOneMore(orphan, seen + pairs[..n], pairs[n], PointOf, BindingOf);
      relocation := AddTo(relocation, pairs[n].0.bindingId, pairs[n].1.pointId);
      orphan := AddTo(orphan, pairs[n].1.pointId, pairs[n].0.bindingId);
      assert seen + pairs[..n] + [pairs[n]] == seen + pairs[..n + 1];
    }
    assert pairs[..|pairs|] == pairs;
  }

  lemma {:induction false} GroupCount(pairs: seq<PointPair>, key: PointPair -> string, value: PointPair -> string,
                                      k: string, v: string)
    ensures multiset(Map(value, Group(pairs, key, k)))[v] == multiset(Map(key, Group(pairs, value, v)))[k]
  {
    if pairs == [] {
      assert Map(value, []) == [] && Map(key, []) == [];
    } else {
      GroupCount(pairs[1..], key, value, k, v);
      var g, h := Group(pairs[1..], key, k), Group(pairs[1..], value, v);
      assert Map(value, [pairs[0]] + g) == [value(pairs[0])] + Map(value, g);
      assert Map(key, [pairs[0]] + h) == [key(pairs[0])] + Map(key, h);
    }
  }

  /** The two suggestion maps are transposes: a candidate is listed as often from either side. */
  lemma SuggestionsMirror(relocation: map<string, seq<string>>, orphan: map<string, seq<string>>, pairs: seq<PointPair>,
                          binding: string, point: string)
    requires Indexes(relocation, pairs, BindingOf, PointOf) && Indexes(orphan, pairs, PointOf, BindingOf)
    ensures (if binding in relocation then multiset(relocation[binding])[point] else 0) ==
            (if point in orphan then multiset(orphan[point])[binding] else 0)
  {
    GroupCount(pairs, BindingOf, PointOf, binding, point);
    assert Map(PointOf, []) == [] && Map(BindingOf, []) == [];
    assert binding !in relocation ==> Group(pairs, BindingOf, binding) == [];
    assert point !in orphan ==> Group(pairs, PointOf, point) == [];
  }

  lemma RoundPairMembers(level: MatchLevel, es: seq<ExpectedPoint>, os: seq<NormalizedPoint>, i: nat)
    requires i < |Round(level, es, os).pairs|
    ensures Round(level, es, os).pairs[i].0 in es && Round(level, es, os).pairs[i].1 in os
  {
    var pairs := Round(level, es, os).pairs;
    RoundConserves(level, es, os);
    assert Firsts(pairs)[i] in multiset(es) && Seconds(pairs)[i] in multiset(os);
  }

  /** A suggestion joins a missing and an orphan point that share lineage but no identity. */
  lemma SuggestionsUnresolved(expected: seq<ExpectedPoint>, observed: seq<NormalizedPoint>, p: PointPair)
    requires var r := RunLevels(CLOSING_LEVELS, expected, observed); p in SuggestionPairs(r.missing, r.orphan)
    ensures var r := RunLevels(CLOSING_LEVELS, expected, observed); p.0 in r.missing && p.1 in r.orphan
    ensures exists level :: level in SUGGESTION_LEVELS && ShareKey(level, p.0, p.1)
    ensures forall level :: level in CLOSING_LEVELS ==> !ShareKey(level, p.0, p.1)
  {
    hide RunLevels, Round, ShareKey;
    var r := RunLevels(CLOSING_LEVELS, expected, observed);
    var level := if p in Round(SourceVersion, r.missing, r.orphan).pairs then SourceVersion else ContentHash;
    assert level in SUGGESTION_LEVELS;
    var i :| 0 <= i < |Round(level, r.missing, r.orphan).pairs| && Round(level, r.missing, r.orphan).pairs[i] == p;
    RoundPairs(level, r.missing, r.orphan, i);
    RoundPairMembers(level, r.missing, r.orphan, i);
    forall level | level in CLOSING_LEVELS ensures !ShareKey(level, p.0, p.1) {
      RunCloses(CLOSING_LEVELS, expected, observed, level, p.0, p.1);
    }
  }

  // ----- counters and ratios

  datatype FindingCode =
    | StaleSource | StaleParse | StaleChunking
    | AclMissing | AclBroaderThanSource | AclMismatch
    | UnverifiablePoint
    | OtherFinding(name: string)

  const STALE_CODES := {StaleSource, StaleParse, StaleChunking}
  const ACL_VIOLATION_CODES := {AclMissing, AclBroaderThanSource, AclMismatch}

  datatype Ratios = Ratios(
    lineageCoverage: Option<real>,
    missingRatio: Option<real>,
    orphanRatio: Option<real>,
    staleRatio: Option<real>,
    aclCompliance: Option<real>)

  function Ratio(numerator: int, denominator: int): Option<real> {
    if denominator == 0 then None else Some(numerator as real / denominator as real)
  }

  predicate WithinUnit(r: Option<real>) {
    r.Some? ==> 0.0 <= r.value <= 1.0
  }

  lemma RatioWithinUnit(n: int, d: int)
    requires 0 <= n <= d
    ensures WithinUnit(Ratio(n, d))
  {
    if d != 0 {
      assert n as real <= d as real;
      assert 0.0 <= n as real / d as real <= d as real / d as real == 1.0;
    }
  }

  /** Matched plus missing is everything expected; matched plus orphans is everything observed. */
  lemma OutcomeCounts(expected: seq<ExpectedPoint>, observed: seq<NormalizedPoint>)
    ensures var r := RunLevels(CLOSING_LEVELS, expected, observed);
      |expected| == |r.matched| + |r.missing| && |observed| == |r.matched| + |r.orphan|
  {
    hide RunLevels;
    var r := RunLevels(CLOSING_LEVELS, expected, observed);
    RunConserves(CLOSING_LEVELS, expected, observed);
    assert |multiset(expected)| == |multiset(ExpectedOf(r.matched))| + |multiset(r.missing)|;
    assert |multiset(observed)| == |multiset(ObservedOf(r.matched))| + |multiset(r.orphan)|;
  }

  /** How many items satisfy `p`. */
  function Count<T>(s: seq<T>, p: T -> bool): nat {
    |Group(s, p, true)|
  }

  lemma CountSnoc<T>(s: seq<T>, x: T, p: T -> bool)
    ensures Count(s + [x], p) == Count(s, p) + if p(x) then 1 else 0
  {
    GroupConcat(s, [x], p, true);
    assert [x][1..] == [];
  }

  lemma {:induction false} CountBound<T>(s: seq<T>, p: T -> bool, q: T -> bool)
    requires forall x :: x in s && p(x) ==> q(x)
    ensures Count(s, p) <= Count(s, q) <= |s|
  {
    if s != [] {
      CountBound(s[1..], p, q);
    }
  }

  function Stale(compare: MatchedPair -> set<FindingCode>): MatchedPair -> bool {
    p => compare(p) * STALE_CODES != {}
  }

  function AclRequired(): MatchedPair -> bool {
    (p: MatchedPair) => p.expected.aclProjection.Some? && |p.expected.aclProjection.value| > 0
  }

  function AclCompliant(compare: MatchedPair -> set<FindingCode>): MatchedPair -> bool {
    p => AclRequired()(p) && compare(p) * ACL_VIOLATION_CODES == {}
  }

  function Unverifiable(classifyOrphan: NormalizedPoint -> FindingCode): NormalizedPoint -> bool {
    o => classifyOrphan(o) == UnverifiablePoint
  }

  method CountMatched(matched: seq<MatchedPair>, compare: MatchedPair -> set<FindingCode>)
    returns (stale: nat, required: nat, compliant: nat)
    ensures stale == Count(matched, Stale(compare))
    ensures required == Count(matched, AclRequired())
    ensures compliant == Count(matched, AclCompliant(compare))
  {
    stale, required, compliant := 0, 0, 0;
    for i := 0 to |matched|
      invariant stale == Count(matched[..i], Stale(compare))
      invariant required == Count(matched[..i], AclRequired())
      invariant compliant == Count(matched[..i], AclCompliant(compare))
    {
      var pair := matched[i];
      var codes := compare(pair);
      if codes * STALE_CODES != {} {
        stale := stale + 1;
      }
      if pair.expected.aclProjection.Some? && |pair.expected.aclProjection.value| > 0 {
        required := required + 1;
        if codes * ACL_VIOLATION_CODES == {} {
          compliant := compliant + 1;
        }
      }
      assert matched[..i + 1] == matched[..i] + [pair];
      CountSnoc(matched[..i], pair, Stale(compare));
      CountSnoc(matched[..i], pair, AclRequired());
      CountSnoc(matched[..i], pair, AclCompliant(compare));
    }
    assert matched[..|matched|] == matched;
  }

  method CountUnverifiable(orphan: seq<NormalizedPoint>,
                           classifyOrphan: NormalizedPoint -> FindingCode) returns (n: nat)
    ensures n == Count(orphan, Unverifiable(classifyOrphan))
  {
    n := 0;
    for i := 0 to |orphan|
      invariant n == Count(orphan[..i], Unverifiable(classifyOrphan))
    {
      if classifyOrphan(orphan[i]) == UnverifiablePoint {
        n := n + 1;
      }
      assert orphan[..i + 1] == orphan[..i] + [orphan[i]];
      CountSnoc(orphan[..i], orphan[i], Unverifiable(classifyOrphan));
    }
    assert orphan[..|orphan|] == orphan;
  }

  /** `_finalize`'s ratios, with the finding classifiers as parameters. */
  method FinalizeRatios(expectedCount: nat, observedCount: nat, outcome: MatchOutcome,
                        compare: MatchedPair -> set<FindingCode>, classifyOrphan: NormalizedPoint -> FindingCode)
    returns (ratios: Ratios)
    ensures ratios == RatiosOf(expectedCount, observedCount, outcome, compare, classifyOrphan)
  {
    var stale, required, compliant := CountMatched(outcome.matched, compare);
    var unverifiable := CountUnverifiable(outcome.orphan, classifyOrphan);
    ratios := Ratios(Ratio(observedCount - unverifiable, observedCount),
                     Ratio(|outcome.missing|, expectedCount),
                     Ratio(|outcome.orphan|, observedCount),
                     Ratio(stale, |outcome.matched|),
                     Ratio(compliant, required));
  }

  function RatiosOf(expectedCount: nat, observedCount: nat, outcome: MatchOutcome,
                    compare: MatchedPair -> set<FindingCode>, classifyOrphan: NormalizedPoint -> FindingCode): Ratios {
    Ratios(Ratio(observedCount - Count(outcome.orphan, Unverifiable(classifyOrphan)), observedCount),
           Ratio(|outcome.missing|, expectedCount),
           Ratio(|outcome.orphan|, observedCount),
           Ratio(Count(outcome.matched, Stale(compare)), |outcome.matched|),
           Ratio(Count(outcome.matched, AclCompliant(compare)), Count(outcome.matched, AclRequired())))
  }

  /**
  Every ratio of a reconciliation is absent or between zero and one, and missing and orphan ratios complement the match.
  */
  lemma RatiosWithinUnit(expected: seq<ExpectedPoint>, observed: seq<NormalizedPoint>,
                         compare: MatchedPair -> set<FindingCode>, classifyOrphan: NormalizedPoint -> FindingCode)
    ensures var r := RunLevels(CLOSING_LEVELS, expected, observed);
      var ratios := RatiosOf(|expected|, |observed|, r, compare, classifyOrphan);
      && WithinUnit(ratios.lineageCoverage) && WithinUnit(ratios.missingRatio) && WithinUnit(ratios.orphanRatio)
      && WithinUnit(ratios.staleRatio) && WithinUnit(ratios.aclCompliance)
      && ratios.missingRatio == Ratio(|expected| - |r.matched|, |expected|)
      && ratios.orphanRatio == Ratio(|observed| - |r.matched|, |observed|)
  {
    OutcomeCounts(expected, observed);
    hide RunLevels, Count;
    var r := RunLevels(CLOSING_LEVELS, expected, observed);
    var unverifiable := Count(r.orphan, Unverifiable(classifyOrphan));
    CountBound(r.orphan, Unverifiable(classifyOrphan), Unverifiable(classifyOrphan));
    CountBound(r.matched, Stale(compare), Stale(compare));
    CountBound(r.matched, AclCompliant(compare), AclRequired());
    RatioWithinUnit(|observed| - unverifiable, |observed|);
    RatioWithinUnit(|r.missing|, |expected|);
    RatioWithinUnit(|r.orphan|, |observed|);
    RatioWithinUnit(Count(r.matched, Stale(compare)), |r.matched|);
    RatioWithinUnit(Count(r.matched, AclCompliant(compare)), Count(r.matched, AclRequired()));
  }

  // ----- the ratios, by the positions they count

  /** The positions of `s` at which `p` holds. */
  ghost function Where<T>(s: seq<T>, p: T -> bool): set<nat> {
    set i: nat | i < |s| && p(s[i])
  }

  lemma {:induction false} CountIsWhere<T>(s: seq<T>, p: T -> bool)
    ensures Count(s, p) == |Where(s, p)|
  {
    if s == [] {
      assert Where(s, p) == {};
    } else {
      var last := |s| - 1;
      CountIsWhere(s[..last], p);
      CountSnoc(s[..last], s[last], p);
      assert s == s[..last] + [s[last]];
      assert Where(s, p) == if p(s[last]) then Where(s[..last], p) + {last} else Where(s[..last], p);
    }
  }

  /** `r` is `n` of `d`, and absent where there is nothing to divide by. */
  ghost predicate IsRatio(r: Option<real>, n: int, d: int) {
    if d == 0 then r == None else r.Some? && r.value * d as real == n as real
  }

  lemma RatioIs(n: int, d: int)
    ensures IsRatio(Ratio(n, d), n, d)
  {
  }

  /**
  The observed points not found unverifiable, the expected ones missing, the observed ones orphaned, the matched
  ones found stale, and, of the matched ones with an access list, those without a violation.
  */
  lemma RatiosCount(expectedCount: nat, observedCount: nat, outcome: MatchOutcome,
                    compare: MatchedPair -> set<FindingCode>, classifyOrphan: NormalizedPoint -> FindingCode)
    ensures var ratios := RatiosOf(expectedCount, observedCount, outcome, compare, classifyOrphan);
      var matched, orphan := outcome.matched, outcome.orphan;
      var unverifiable := set i: nat | i < |orphan| && classifyOrphan(orphan[i]) == UnverifiablePoint;
      var stale := set i: nat | i < |matched| && (StaleSource in compare(matched[i]) ||
        StaleParse in compare(matched[i]) || StaleChunking in compare(matched[i]));
      var listed := set i: nat | i < |matched| && matched[i].expected.aclProjection.Some? &&
        matched[i].expected.aclProjection.value != [];
      var compliant := set i: nat | i in listed && AclMissing !in compare(matched[i]) &&
        AclBroaderThanSource !in compare(matched[i]) && AclMismatch !in compare(matched[i]);
      && IsRatio(ratios.lineageCoverage, observedCount - |unverifiable|, observedCount)
      && IsRatio(ratios.missingRatio, |outcome.missing|, expectedCount)
      && IsRatio(ratios.orphanRatio, |orphan|, observedCount)
      && IsRatio(ratios.staleRatio, |stale|, |matched|)
      && IsRatio(ratios.aclCompliance, |compliant|, |listed|)
  {
    hide Count, Ratio, IsRatio;
    var matched, orphan := outcome.matched, outcome.orphan;
    UnverifiableWhere(orphan, classifyOrphan);
    StaleWhere(matched, compare);
    AclWhere(matched, compare);
    RatioIs(observedCount - Count(orphan, Unverifiable(classifyOrphan)), observedCount);
    RatioIs(|outcome.missing|, expectedCount);
    RatioIs(|orphan|, observedCount);
    RatioIs(Count(matched, Stale(compare)), |matched|);
    RatioIs(Count(matched, AclCompliant(compare)), Count(matched, AclRequired()));
  }

  lemma UnverifiableWhere(orphan: seq<NormalizedPoint>, classifyOrphan: NormalizedPoint -> FindingCode)
    ensures Count(orphan, Unverifiable(classifyOrphan)) ==
            |set i: nat | i < |orphan| && classifyOrphan(orphan[i]) == UnverifiablePoint|
  {
    CountIsWhere(orphan, Unverifiable(classifyOrphan));
    assert Where(orphan, Unverifiable(classifyOrphan)) ==
           set i: nat | i < |orphan| && classifyOrphan(orphan[i]) == UnverifiablePoint;
  }

  lemma StaleWhere(matched: seq<MatchedPair>, compare: MatchedPair -> set<FindingCode>)
    ensures Count(matched, Stale(compare)) ==
            |set i: nat | i < |matched| && (StaleSource in compare(matched[i]) ||
             StaleParse in compare(matched[i]) || StaleChunking in compare(matched[i]))|
  {
    CountIsWhere(matched, Stale(compare));
    var stale := set i: nat | i < |matched| && (StaleSource in compare(matched[i]) ||
      StaleParse in compare(matched[i]) || StaleChunking in compare(matched[i]));
    forall i: nat | i < |matched| ensures i in Where(matched, Stale(compare)) <==> i in stale {
      IsStale(compare(matched[i]));
    }
    assert Where(matched, Stale(compare)) == stale;
  }

  lemma IsStale(codes: set<FindingCode>)
    ensures codes * STALE_CODES != {} <==> StaleSource in codes || StaleParse in codes || StaleChunking in codes
  {
    if codes * STALE_CODES != {} {
      var c :| c in codes * STALE_CODES;
      assert c in codes;
    } else {
      assert forall c :: c in STALE_CODES ==> c !in codes * STALE_CODES;
    }
  }

  lemma IsViolation(codes: set<FindingCode>)
    ensures codes * ACL_VIOLATION_CODES == {} <==>
            AclMissing !in codes && AclBroaderThanSource !in codes && AclMismatch !in codes
  {
    if codes * ACL_VIOLATION_CODES != {} {
      var c :| c in codes * ACL_VIOLATION_CODES;
      assert c in codes;
    } else {
      assert forall c :: c in ACL_VIOLATION_CODES ==> c !in codes * ACL_VIOLATION_CODES;
    }
  }

  lemma AclWhere(matched: seq<MatchedPair>, compare: MatchedPair -> set<FindingCode>)
    ensures var listed := set i: nat | i < |matched| && matched[i].expected.aclProjection.Some? &&
        matched[i].expected.aclProjection.value != [];
      var compliant := set i: nat | i in listed && AclMissing !in compare(matched[i]) &&
        AclBroaderThanSource !in compare(matched[i]) && AclMismatch !in compare(matched[i]);
      Count(matched, AclRequired()) == |listed| && Count(matched, AclCompliant(compare)) == |compliant|
  {
    CountIsWhere(matched, AclRequired());
    CountIsWhere(matched, AclCompliant(compare));
    var listed := set i: nat | i < |matched| && matched[i].expected.aclProjection.Some? &&
      matched[i].expected.aclProjection.value != [];
    var compliant := set i: nat | i in listed && AclMissing !in compare(matched[i]) &&
      AclBroaderThanSource !in compare(matched[i]) && AclMismatch !in compare(matched[i]);
    forall i: nat | i < |matched|
      ensures i in Where(matched, AclRequired()) <==> i in listed
      ensures i in Where(matched, AclCompliant(compare)) <==> i in compliant
    {
      IsViolation(compare(matched[i]));
    }
    assert Where(matched, AclRequired()) == listed;
    assert Where(matched, AclCompliant(compare)) == compliant;
  }
}
