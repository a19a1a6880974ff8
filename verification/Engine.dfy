/**
The reconciliation engine's two matching paths: in-memory sorting, and spilling sorted runs
of bounded size that are merged back for every round.
*/
module Engine {
  import opened Ordering
  import opened StableSort
  import opened MergeJoin
  import opened Matching
  import opened Spill

  function Max(a: int, b: int): int {
    if a < b then b else a
  }

  // ----- external sorting

  /** `runs` hold the spilled, sorted chunks of `items`, none larger than `bound`. */
  ghost predicate SpillOf<T(!new)>(runs: seq<seq<T>>, items: seq<T>, rank: T -> Rank, spill: T -> T, bound: int) {
    exists chunks: seq<seq<T>> :: Spills(runs, chunks, rank, spill, bound) && Flatten(chunks) == items
  }

  ghost predicate Spills<T>(runs: seq<seq<T>>, chunks: seq<seq<T>>, rank: T -> Rank, spill: T -> T, bound: int) {
    && |runs| == |chunks|
    && forall i :: 0 <= i < |runs| ==> 0 < |chunks[i]| <= bound && runs[i] == Map(spill, Sort(chunks[i], rank))
  }

  /** `_ChunkedRunWriter`. A run file is the sequence of points its lines read back as, `spill` of those written. */
  class RunWriter<T(!new)> {
    const chunkSize: int
    const rank: T -> Rank
    const spill: T -> T
    var buffer: seq<T>
    var runs: seq<seq<T>>
    ghost var chunks: seq<seq<T>>

    constructor (chunkSize: int, rank: T -> Rank, spill: T -> T)
      ensures Valid() && Added() == []
      ensures this.chunkSize == chunkSize && this.rank == rank && this.spill == spill
    {
      this.chunkSize, this.rank, this.spill := chunkSize, rank, spill;
      buffer, runs, chunks := [], [], [];
    }

    /** The most items one buffer may hold; a chunk size below one spills every item at once. */
    ghost function Bound(): int {
      Max(chunkSize, 1)
    }

    ghost predicate Valid()
      reads this
    {
      Spills(runs, chunks, rank, spill, Bound()) && |buffer| < Bound()
    }

    /** Every item added so far, in order. */
    ghost function Added(): seq<T>
      reads this
    {
      Flatten(chunks) + buffer
    }

    method Add(item: T)
      requires Valid()
      modifies this
      ensures Valid() && Added() == old(Added()) + [item]
    {
      buffer := buffer + [item];
      assert |buffer| <= Bound();
      assert Added() == old(Added()) + [item];
      if |buffer| >= chunkSize {
        Flush();
      }
    }

    method Flush()
      requires Spills(runs, chunks, rank, spill, Bound()) && |buffer| <= Bound()
      modifies this
      ensures Valid() && buffer == [] && Added() == old(Added())
    {
      if |buffer| == 0 {
        return;
      }
      FlattenConcat(chunks, [buffer]);
      assert Flatten([buffer]) == buffer + Flatten<T>([]);
      runs := runs + [Map(spill, Sort(buffer, rank))];
      chunks := chunks + [buffer];
      buffer := [];
    }

    method Finish() returns (spilled: seq<seq<T>>)
      requires Valid()
      modifies this
      ensures Valid() && Added() == old(Added())
      ensures SpillOf(spilled, Added(), rank, spill, Bound())
    {
      Flush();
      spilled := runs;
      assert Flatten(chunks) == Added();
    }
  }

  /** Feeds a whole stream through a fresh writer. */
  method SpillAll<T(!new)>(items: seq<T>, chunkSize: int, rank: T -> Rank, spill: T -> T) returns (runs: seq<seq<T>>)
    ensures SpillOf(runs, items, rank, spill, Max(chunkSize, 1))
  {
    var writer := new RunWriter<T>(chunkSize, rank, spill);
    for i := 0 to |items|
      invariant writer.Valid() && writer.Added() == items[..i]
    {
      writer.Add(items[i]);
      assert items[..i + 1] == items[..i] + [items[i]];
    }
    assert items[..|items|] == items;
    runs := writer.Finish();
  }

  lemma {:induction false} FlattenMap<T>(spill: T -> T, chunks: seq<seq<T>>)
    ensures Flatten(Map(c => Map(spill, c), chunks)) == Map(spill, Flatten(chunks))
  {
    if chunks != [] {
      var spilled := Map((c: seq<T>) => Map(spill, c), chunks);
      assert spilled[1..] == Map((c: seq<T>) => Map(spill, c), chunks[1..]);
      FlattenMap(spill, chunks[1..]);
      assert Map(spill, chunks[0] + Flatten(chunks[1..])) == Map(spill, chunks[0]) + Map(spill, Flatten(chunks[1..]));
    }
  }

  /** Merging spilled runs back is sorting what was spilled, whatever the chunk size. */
  lemma MergeSpilled<T(!new)>(runs: seq<seq<T>>, items: seq<T>, rank: T -> Rank, spill: T -> T, bound: int)
    requires SpillOf(runs, items, rank, spill, bound)
    requires forall x :: rank(spill(x)) == rank(x)
    ensures MergeRuns(runs, rank) == Sort(Map(spill, items), rank)
  {
    var chunks: seq<seq<T>> :| Spills(runs, chunks, rank, spill, bound) && Flatten(chunks) == items;
    var spilled := Map((c: seq<T>) => Map(spill, c), chunks);
    var sorted := Map(c => Sort(c, rank), spilled);
    forall i | 0 <= i < |runs| ensures runs[i] == sorted[i] {
      SortMap(spill, chunks[i], rank, rank);
    }
    assert runs == sorted;
    ExternalSort(spilled, rank);
    FlattenMap(spill, chunks);
  }

  // ----- what spilling does to a point

  function Same<T>(item: T): T {
    item
  }

  lemma RespillKeepsKeys(level: MatchLevel, item: ExpectedPoint)
    ensures ExpectedKey(level)(Respill(item)) == ExpectedKey(level)(item)
    ensures Respill(Respill(item)) == Respill(item)
  {
  }

  lemma {:induction false} MapSame<T>(items: seq<T>)
    ensures Map(Same<T>, items) == items
  {
  }

  // ----- the big-data path

  /** `reconcile_big_data`'s rounds: spill, merge, join, and spill the leftovers for the next level. */
  method ReconcileBigData(expected: seq<ExpectedPoint>, observed: seq<NormalizedPoint>, chunkSize: int)
    returns (outcome: MatchOutcome)
    ensures outcome == RunLevels(CLOSING_LEVELS, Map(Respill, expected), observed)
  {
    hide RunLevels, MergeRuns, SpillOf, Join, Sort, Record, Append, Fixed, Map;
    var acc := MatchOutcome([], Map(Respill, expected), observed, [], []);
    AppendNothing(RunLevels(CLOSING_LEVELS, Map(Respill, expected), observed));
    var expectedRuns := SpillAll(expected, chunkSize, ExpectedSortKey(CLOSING_LEVELS[0]), Respill);
    var observedRuns := SpillAll(observed, chunkSize, ObservedSortKey(CLOSING_LEVELS[0]), Same);
    ghost var spilled := expected;
    SpilledFixed(expected);
    for i := 0 to |CLOSING_LEVELS|
      invariant RunLevels(CLOSING_LEVELS, Map(Respill, expected), observed) ==
                Append(acc, RunLevels(CLOSING_LEVELS[i..], acc.missing, acc.orphan))
      invariant i < |CLOSING_LEVELS| ==>
                SpillOf(expectedRuns, spilled, ExpectedSortKey(CLOSING_LEVELS[i]), Respill, Max(chunkSize, 1))
      invariant i < |CLOSING_LEVELS| ==>
                SpillOf(observedRuns, acc.orphan, ObservedSortKey(CLOSING_LEVELS[i]), Same, Max(chunkSize, 1))
      invariant Map(Respill, spilled) == acc.missing && Fixed(acc.missing)
    {
      var level := CLOSING_LEVELS[i];
      var expectedStream := MergeRuns(expectedRuns, ExpectedSortKey(level));
      var observedStream := MergeRuns(observedRuns, ObservedSortKey(level));
      var j := StreamMergeJoin(expectedStream, observedStream, ExpectedKey(level), ObservedKey(level));
      SpilledRound(CLOSING_LEVELS, i, acc, expectedRuns, spilled, observedRuns, Max(chunkSize, 1), j);
      if i + 1 < |CLOSING_LEVELS| {
        var next := CLOSING_LEVELS[i + 1];
        expectedRuns := SpillAll(j.leftExpected, chunkSize, ExpectedSortKey(next), Respill);
        observedRuns := SpillAll(j.leftObserved, chunkSize, ObservedSortKey(next), Same);
      }
      spilled := j.leftExpected;
      acc := Record(acc, level, j);
    }
    assert CLOSING_LEVELS[|CLOSING_LEVELS|..] == [];
    AppendNothingAfter(acc);
    outcome := acc;
  }

  lemma SpilledFixed(expected: seq<ExpectedPoint>)
    ensures Fixed(Map(Respill, expected))
  {
  }

  /**
  One round: joining the merged runs continues the in-memory rounds, and what it leaves is ready to be spilled again.
  */
  lemma SpilledRound(levels: seq<MatchLevel>, i: nat, acc: MatchOutcome, expectedRuns: seq<seq<ExpectedPoint>>,
                     spilled: seq<ExpectedPoint>, observedRuns: seq<seq<NormalizedPoint>>, bound: int,
                     j: Joined<ExpectedPoint, NormalizedPoint>)
    requires i < |levels| && Map(Respill, spilled) == acc.missing && Fixed(acc.missing)
    requires SpillOf(expectedRuns, spilled, ExpectedSortKey(levels[i]), Respill, bound)
    requires SpillOf(observedRuns, acc.orphan, ObservedSortKey(levels[i]), Same, bound)
    requires j == Join(MergeRuns(expectedRuns, ExpectedSortKey(levels[i])),
      MergeRuns(observedRuns, ObservedSortKey(levels[i])),
                       ExpectedKey(levels[i]), ObservedKey(levels[i]))
    ensures var next := Record(acc, levels[i], j);
      && Append(acc, RunLevels(levels[i..], acc.missing, acc.orphan)) ==
        Append(next, RunLevels(levels[i + 1..], next.missing, next.orphan))
      && next.missing == j.leftExpected && next.orphan == j.leftObserved
      && Map(Respill, j.leftExpected) == next.missing && Fixed(next.missing)
  {
    MergedStreams(levels[i], expectedRuns, spilled, observedRuns, acc.orphan, bound);
    LeftoversFixed(levels[i], acc.missing, acc.orphan);
    hide MergeRuns, SpillOf, Join, Sort, ExpectedKey, ObservedKey, ExpectedSortKey, ObservedSortKey;
    assert levels[i..][1..] == levels[i + 1..] && levels[i..][0] == levels[i];
    AppendRound(acc, levels[i..], j);
  }

  /** Every point is one that spilling leaves alone. */
  ghost predicate Fixed(es: seq<ExpectedPoint>) {
    Map(Respill, es) == es
  }

  lemma MergedStreams(level: MatchLevel, expectedRuns: seq<seq<ExpectedPoint>>, spilled: seq<ExpectedPoint>,
                      observedRuns: seq<seq<NormalizedPoint>>, observed: seq<NormalizedPoint>, bound: int)
    requires SpillOf(expectedRuns, spilled, ExpectedSortKey(level), Respill, bound)
    requires SpillOf(observedRuns, observed, ObservedSortKey(level), Same, bound)
    ensures MergeRuns(expectedRuns, ExpectedSortKey(level)) == Sort(Map(Respill, spilled), ExpectedSortKey(level))
    ensures MergeRuns(observedRuns, ObservedSortKey(level)) == Sort(observed, ObservedSortKey(level))
  {
    MergeSpilled(expectedRuns, spilled, ExpectedSortKey(level), Respill, bound);
    MergeSpilled(observedRuns, observed, ObservedSortKey(level), Same, bound);
    MapSame(observed);
  }

  lemma LeftoversFixed(level: MatchLevel, es: seq<ExpectedPoint>, os: seq<NormalizedPoint>)
    requires Fixed(es)
    ensures Fixed(Round(level, es, os).leftExpected)
  {
    var left := Round(level, es, os).leftExpected;
    RoundConserves(level, es, os);
    forall i | 0 <= i < |left| ensures Respill(left[i]) == left[i] {
      assert left[i] in multiset(es);
      var n :| 0 <= n < |es| && es[n] == left[i];
      assert Map(Respill, es)[n] == es[n];
    }
  }

  // ----- agreement of the two paths

  function MapMatched(f: ExpectedPoint -> ExpectedPoint, pairs: seq<MatchedPair>): (r: seq<MatchedPair>)
    ensures |r| == |pairs| && forall i :: 0 <= i < |r| ==> r[i] == pairs[i].(expected := f(pairs[i].expected))
  {
    seq(|pairs|, i requires 0 <= i < |pairs| => pairs[i].(expected := f(pairs[i].expected)))
  }

  function MapDuplicates(f: ExpectedPoint -> ExpectedPoint,
                         groups: seq<DuplicateGroup<ExpectedPoint>>): (r: seq<DuplicateGroup<ExpectedPoint>>)
    ensures |r| == |groups| && forall i :: 0 <= i < |r| ==> r[i] == groups[i].(items := Map(f, groups[i].items))
  {
    seq(|groups|, i requires 0 <= i < |groups| => groups[i].(items := Map(f, groups[i].items)))
  }

  function MapOutcome(f: ExpectedPoint -> ExpectedPoint, r: MatchOutcome): MatchOutcome {
    MatchOutcome(MapMatched(f, r.matched), Map(f, r.missing), r.orphan,
                 MapDuplicates(f, r.duplicateExpected), r.duplicateObserved)
  }

  lemma MapAfter(f: ExpectedPoint -> ExpectedPoint, rest: MatchOutcome, level: MatchLevel, j: Joined<ExpectedPoint,
                 NormalizedPoint>)
    ensures MapOutcome(f, rest.After(level, j)) == MapOutcome(f, rest).After(level, MapJoined(f, j))
  {
    assert MapMatched(f, Pairs(level, j.pairs) + rest.matched) ==
      Pairs(level, MapPairs(f, j.pairs)) + MapMatched(f, rest.matched);
    assert MapDuplicates(f, Groups(level, j.duplicateExpected) + rest.duplicateExpected)
        == Groups(level, MapGroups(f, j.duplicateExpected)) + MapDuplicates(f, rest.duplicateExpected);
  }

  lemma RoundRespilled(level: MatchLevel, es: seq<ExpectedPoint>, os: seq<NormalizedPoint>)
    ensures Round(level, Map(Respill, es), os) == MapJoined(Respill, Round(level, es, os))
  {
    SortMap(Respill, es, ExpectedSortKey(level), ExpectedSortKey(level));
    JoinMap(Respill, Sort(es, ExpectedSortKey(level)), Sort(os, ObservedSortKey(level)), ExpectedKey(level),
      ObservedKey(level));
  }

  /** Spilling changes no match: the outcome of the spilled points is the spilled outcome. */
  lemma {:induction false} RunRespilled(levels: seq<MatchLevel>, es: seq<ExpectedPoint>, os: seq<NormalizedPoint>)
    ensures RunLevels(levels, Map(Respill, es), os) == MapOutcome(Respill, RunLevels(levels, es, os))
  {
    if levels != [] {
      var j := Round(levels[0], es, os);
      RoundRespilled(levels[0], es, os);
      RunRespilled(levels[1..], j.leftExpected, j.leftObserved);
      MapAfter(Respill, RunLevels(levels[1..], j.leftExpected, j.leftObserved), levels[0], j);
    }
  }

  /** The two paths agree exactly when no expected point carries an empty payload projection. */
  lemma PathsAgree(levels: seq<MatchLevel>, es: seq<ExpectedPoint>, os: seq<NormalizedPoint>)
    ensures RunLevels(levels, Map(Respill, es), os) == RunLevels(levels, es, os)
       <==> forall i :: 0 <= i < |es| ==> es[i].expectedPayloadProjection != Some([])
  {
    if forall i :: 0 <= i < |es| ==> es[i].expectedPayloadProjection != Some([]) {
      assert Map(Respill, es) == es;
    }
    if RunLevels(levels, Map(Respill, es), os) == RunLevels(levels, es, os) {
      RunConserves(levels, es, os);
      RunConserves(levels, Map(Respill, es), os);
      forall i | 0 <= i < |es| ensures es[i].expectedPayloadProjection != Some([]) {
        assert es[i] in multiset(Map(Respill, es));
      }
    }
  }
}
