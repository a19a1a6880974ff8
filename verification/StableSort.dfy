/**
Stable sorting by a rank. A sorted sequence is determined by the subsequence each rank
selects, which is what lets an external merge sort be compared with an in-memory one.
*/
module StableSort {
  import opened Ordering

  /** A sort key: compared lexicographically, as Python compares tuples. */
  type Rank = seq<int>

  ghost predicate Sorted<T>(s: seq<T>, rank: T -> Rank) {
    forall i, j :: 0 <= i < j < |s| ==> LexLe(rank(s[i]), rank(s[j]))
  }

  /** The items of `s` whose key is `k`, in order. */
  function Group<T, K(==)>(s: seq<T>, key: T -> K, k: K): seq<T> {
    if s == [] then []
    else if key(s[0]) == k then [s[0]] + Group(s[1..], key, k)
    else Group(s[1..], key, k)
  }

  function Map<S, T>(f: S -> T, s: seq<S>): (r: seq<T>)
    ensures |r| == |s| && forall i :: 0 <= i < |s| ==> r[i] == f(s[i])
  {
    seq(|s|, i requires 0 <= i < |s| => f(s[i]))
  }

  function Flatten<T>(runs: seq<seq<T>>): seq<T> {
    if runs == [] then [] else runs[0] + Flatten(runs[1..])
  }

  // ----- grouping laws

  lemma {:induction false} GroupMember<T, K>(s: seq<T>, key: T -> K, k: K, x: T)
    ensures x in Group(s, key, k) <==> x in s && key(x) == k
  {
    if s != [] {
      GroupMember(s[1..], key, k, x);
      assert s == [s[0]] + s[1..];
    }
  }

  lemma {:induction false} GroupConcat<T, K>(a: seq<T>, b: seq<T>, key: T -> K, k: K)
    ensures Group(a + b, key, k) == Group(a, key, k) + Group(b, key, k)
  {
    if a == [] {
      assert a + b == b;
    } else {
      assert (a + b)[1..] == a[1..] + b;
      GroupConcat(a[1..], b, key, k);
    }
  }

  lemma {:induction false} GroupAll<T, K>(s: seq<T>, key: T -> K, k: K)
    requires forall x :: x in s ==> key(x) == k
    ensures Group(s, key, k) == s
  {
    if s != [] {
      GroupAll(s[1..], key, k);
      assert s == [s[0]] + s[1..];
    }
  }

  lemma {:induction false} GroupNone<T, K>(s: seq<T>, key: T -> K, k: K)
    requires forall x :: x in s ==> key(x) != k
    ensures Group(s, key, k) == []
  {
    if s != [] {
      GroupNone(s[1..], key, k);
    }
  }

  lemma MapCons<S, T>(f: S -> T, x: S, s: seq<S>)
    ensures Map(f, [x] + s) == [f(x)] + Map(f, s)
  {
  }

  lemma MapSnoc<S, T>(f: S -> T, s: seq<S>, x: S)
    ensures Map(f, s + [x]) == Map(f, s) + [f(x)]
  {
  }

  // ----- sorting

  /** Places `x` before every item whose rank is not smaller. */
  function Insert<T>(x: T, s: seq<T>, rank: T -> Rank): seq<T> {
    if s == [] || LexLe(rank(x), rank(s[0])) then [x] + s
    else [s[0]] + Insert(x, s[1..], rank)
  }

  /** Python's `sorted(s, key=rank)`. */
  function Sort<T>(s: seq<T>, rank: T -> Rank): seq<T> {
    if s == [] then [] else Insert(s[0], Sort(s[1..], rank), rank)
  }

  lemma {:induction false} InsertGroup<T>(x: T, s: seq<T>, rank: T -> Rank, k: Rank)
    ensures Group(Insert(x, s, rank), rank, k) == Group([x] + s, rank, k)
  {
    if s == [] || LexLe(rank(x), rank(s[0])) {
    } else {
      InsertGroup(x, s[1..], rank, k);
      LexReflexive(rank(x));
      assert rank(x) != rank(s[0]);
      assert ([x] + s)[1..] == s && ([x] + s[1..])[1..] == s[1..];
      var t := [s[0]] + Insert(x, s[1..], rank);
      assert t[1..] == Insert(x, s[1..], rank);
    }
  }

  lemma {:induction false} SortGroup<T>(s: seq<T>, rank: T -> Rank, k: Rank)
    ensures Group(Sort(s, rank), rank, k) == Group(s, rank, k)
  {
    if s != [] {
      var t := Sort(s[1..], rank);
      SortGroup(s[1..], rank, k);
      InsertGroup(s[0], t, rank, k);
      assert ([s[0]] + t)[1..] == t;
    }
  }

  lemma {:induction false} InsertMembers<T>(x: T, s: seq<T>, rank: T -> Rank)
    ensures multiset(Insert(x, s, rank)) == multiset([x] + s)
  {
    if s == [] || LexLe(rank(x), rank(s[0])) {
    } else {
      InsertMembers(x, s[1..], rank);
      assert s == [s[0]] + s[1..];
    }
  }

  lemma {:induction false} SortMembers<T>(s: seq<T>, rank: T -> Rank)
    ensures multiset(Sort(s, rank)) == multiset(s)
    ensures |Sort(s, rank)| == |s|
    ensures forall x :: x in Sort(s, rank) ==> x in s
    ensures forall x :: x in s ==> x in Sort(s, rank)
  {
    if s != [] {
      SortMembers(s[1..], rank);
      InsertMembers(s[0], Sort(s[1..], rank), rank);
      assert s == [s[0]] + s[1..];
    }
    assert |multiset(Sort(s, rank))| == |multiset(s)|;
    assert forall x :: x in Sort(s, rank) ==> x in multiset(Sort(s, rank));
    assert forall x :: x in s ==> x in multiset(s);
  }

  lemma SortedCons<T>(x: T, s: seq<T>, rank: T -> Rank)
    requires Sorted(s, rank)
    requires forall y :: y in s ==> LexLe(rank(x), rank(y))
    ensures Sorted([x] + s, rank)
  {
  }

  lemma {:induction false} InsertSorted<T>(x: T, s: seq<T>, rank: T -> Rank)
    requires Sorted(s, rank)
    ensures Sorted(Insert(x, s, rank), rank)
  {
    if s == [] || LexLe(rank(x), rank(s[0])) {
      forall y | y in s ensures LexLe(rank(x), rank(y)) {
        var i :| 0 <= i < |s| && s[i] == y;
        if i > 0 {
          LexTransitive(rank(x), rank(s[0]), rank(s[i]));
        }
      }
      SortedCons(x, s, rank);
    } else {
      InsertSorted(x, s[1..], rank);
      InsertMembers(x, s[1..], rank);
      LexTotal(rank(x), rank(s[0]));
      forall y | y in Insert(x, s[1..], rank) ensures LexLe(rank(s[0]), rank(y)) {
        assert y in multiset([x] + s[1..]);
        if y != x {
          assert y in s[1..];
        }
      }
      SortedCons(s[0], Insert(x, s[1..], rank), rank);
    }
  }

  lemma {:induction false} SortSorted<T>(s: seq<T>, rank: T -> Rank)
    ensures Sorted(Sort(s, rank), rank)
  {
    if s != [] {
      SortSorted(s[1..], rank);
      InsertSorted(s[0], Sort(s[1..], rank), rank);
    }
  }

  // ----- a sorted sequence is determined by its groups

  ghost predicate SameGroups<T(!new)>(a: seq<T>, b: seq<T>, rank: T -> Rank) {
    forall k: Rank :: Group(a, rank, k) == Group(b, rank, k)
  }

  lemma HeadBelow<T(!new)>(a: seq<T>, b: seq<T>, rank: T -> Rank)
    requires Sorted(a, rank) && SameGroups(a, b, rank) && b != []
    ensures a != [] && LexLe(rank(a[0]), rank(b[0]))
  {
    var k := rank(b[0]);
    GroupMember(b, rank, k, b[0]);
    GroupMember(a, rank, k, b[0]);
    var i :| 0 <= i < |a| && a[i] == b[0];
    LexReflexive(k);
  }

  lemma {:induction false} SortedUnique<T(!new)>(a: seq<T>, b: seq<T>, rank: T -> Rank)
    requires Sorted(a, rank) && Sorted(b, rank) && SameGroups(a, b, rank)
    ensures a == b
  {
    if a == [] || b == [] {
      if a != [] { HeadBelow(b, a, rank); }
      if b != [] { HeadBelow(a, b, rank); }
    } else {
      HeadBelow(a, b, rank);
      HeadBelow(b, a, rank);
      LexAntisymmetric(rank(a[0]), rank(b[0]));
      var k := rank(a[0]);
      assert Group(a, rank, k)[0] == a[0] && Group(b, rank, k)[0] == b[0];
      forall k: Rank ensures Group(a[1..], rank, k) == Group(b[1..], rank, k) {
        assert Group(a, rank, k) == Group(b, rank, k);
        if k == rank(a[0]) {
          assert Group(a, rank, k)[1..] == Group(a[1..], rank, k);
          assert Group(b, rank, k)[1..] == Group(b[1..], rank, k);
        }
      }
      SortedUnique(a[1..], b[1..], rank);
      assert a == [a[0]] + a[1..] && b == [b[0]] + b[1..];
    }
  }

  /** Sorting is the only stable rearrangement into order. */
  lemma SortCharacterized<T(!new)>(s: seq<T>, t: seq<T>, rank: T -> Rank)
    ensures Sorted(t, rank) && SameGroups(t, s, rank) <==> t == Sort(s, rank)
  {
    SortSorted(s, rank);
    forall k: Rank ensures Group(Sort(s, rank), rank, k) == Group(s, rank, k) {
      SortGroup(s, rank, k);
    }
    if Sorted(t, rank) && SameGroups(t, s, rank) {
      forall k: Rank ensures Group(t, rank, k) == Group(Sort(s, rank), rank, k) {
        assert Group(t, rank, k) == Group(s, rank, k);
      }
      SortedUnique(t, Sort(s, rank), rank);
    }
  }

  /** A rank-preserving map may be applied before or after sorting. */
  lemma {:induction false} SortMap<S, T>(f: S -> T, s: seq<S>, rank: S -> Rank, rank': T -> Rank)
    requires forall x :: x in s ==> rank'(f(x)) == rank(x)
    ensures Sort(Map(f, s), rank') == Map(f, Sort(s, rank))
  {
    if s != [] {
      assert Map(f, s)[1..] == Map(f, s[1..]);
      assert s[0] in s && forall x :: x in s[1..] ==> x in s;
      SortMap(f, s[1..], rank, rank');
      SortMembers(s[1..], rank);
      InsertMap(f, s[0], Sort(s[1..], rank), rank, rank');
    }
  }

  lemma {:induction false} InsertMap<S, T>(f: S -> T, x: S, s: seq<S>, rank: S -> Rank, rank': T -> Rank)
    requires rank'(f(x)) == rank(x) && forall y :: y in s ==> rank'(f(y)) == rank(y)
    ensures Insert(f(x), Map(f, s), rank') == Map(f, Insert(x, s, rank))
  {
    if s == [] || LexLe(rank(x), rank(s[0])) {
    } else {
      assert Map(f, s)[1..] == Map(f, s[1..]);
      assert s[0] in s && forall y :: y in s[1..] ==> y in s;
      InsertMap(f, x, s[1..], rank, rank');
    }
  }

  // ----- merging sorted runs

  predicate NoneEmpty<T>(runs: seq<seq<T>>) {
    forall i :: 0 <= i < |runs| ==> |runs[i]| > 0
  }

  /** Index of the run `heapq.merge` takes from next: the smallest head, the earliest run on ties. */
  function NextRun<T>(runs: seq<seq<T>>, rank: T -> Rank): (i: nat)
    requires runs != [] && NoneEmpty(runs)
    ensures i < |runs|
  {
    if |runs| == 1 then 0
    else
      var j := 1 + NextRun(runs[1..], rank);
      if LexLe(rank(runs[0][0]), rank(runs[j][0])) then 0 else j
  }

  lemma {:induction false} NextRunLeast<T>(runs: seq<seq<T>>, rank: T -> Rank)
    requires runs != [] && NoneEmpty(runs)
    ensures var i := NextRun(runs, rank);
      && (forall j :: 0 <= j < |runs| ==> LexLe(rank(runs[i][0]), rank(runs[j][0])))
      && (forall j :: 0 <= j < i ==> rank(runs[j][0]) != rank(runs[i][0]))
  {
    LexReflexive(rank(runs[0][0]));
    if |runs| > 1 {
      NextRunLeast(runs[1..], rank);
      var j := 1 + NextRun(runs[1..], rank);
      LexTotal(rank(runs[0][0]), rank(runs[j][0]));
      var i := NextRun(runs, rank);
      forall m | 0 <= m < |runs| ensures LexLe(rank(runs[i][0]), rank(runs[m][0])) {
        if m > 0 {
          assert runs[m] == runs[1..][m - 1];
          assert LexLe(rank(runs[j][0]), rank(runs[m][0]));
          if i == 0 { LexTransitive(rank(runs[0][0]), rank(runs[j][0]), rank(runs[m][0])); }
        }
      }
      forall m | 0 <= m < i ensures rank(runs[m][0]) != rank(runs[i][0]) {
        if m > 0 {
          assert runs[m] == runs[1..][m - 1];
        }
      }
    }
  }

  function NonEmpty<T>(runs: seq<seq<T>>): (r: seq<seq<T>>)
    ensures NoneEmpty(r)
    ensures forall x :: x in r ==> x in runs
    ensures |Flatten(r)| == |Flatten(runs)|
  {
    if runs == [] then []
    else
      assert forall x :: x in runs[1..] ==> x in runs;
      var rest := NonEmpty(runs[1..]);
      if runs[0] == [] then rest
      else
        assert ([runs[0]] + rest)[1..] == rest;
        [runs[0]] + rest
  }

  lemma {:induction false} NonEmptyFlatten<T>(runs: seq<seq<T>>)
    ensures Flatten(NonEmpty(runs)) == Flatten(runs)
  {
    if runs != [] {
      NonEmptyFlatten(runs[1..]);
      var rest := NonEmpty(runs[1..]);
      assert ([runs[0]] + rest)[1..] == rest;
    }
  }

  /** `heapq.merge(*runs, key=rank)`: exhausted runs drop out, the least head leaves first. */
  function MergeRuns<T>(runs: seq<seq<T>>, rank: T -> Rank): seq<T>
    decreases |Flatten(runs)|
  {
    var live := NonEmpty(runs);
    if live == [] then []
    else
      var i := NextRun(live, rank);
      FlattenPop(live, i);
      [live[i][0]] + MergeRuns(live[i := live[i][1..]], rank)
  }

  lemma {:induction false} FlattenPop<T>(runs: seq<seq<T>>, i: nat)
    requires i < |runs| && |runs[i]| > 0
    ensures |Flatten(runs[i := runs[i][1..]])| == |Flatten(runs)| - 1
  {
    var popped := runs[i := runs[i][1..]];
    if i == 0 {
      assert popped[1..] == runs[1..];
    } else {
      assert popped[1..] == runs[1..][i - 1 := runs[i][1..]];
      FlattenPop(runs[1..], i - 1);
    }
  }

  lemma ConsGroup<T>(x: T, s: seq<T>, rank: T -> Rank, k: Rank)
    ensures Group([x] + s, rank, k) == if rank(x) == k then [x] + Group(s, rank, k) else Group(s, rank, k)
  {
    assert ([x] + s)[1..] == s;
  }

  lemma {:induction false} FlattenConcat<T>(a: seq<seq<T>>, b: seq<seq<T>>)
    ensures Flatten(a + b) == Flatten(a) + Flatten(b)
  {
    if a == [] {
      assert a + b == b;
    } else {
      assert (a + b)[1..] == a[1..] + b;
      FlattenConcat(a[1..], b);
    }
  }

  lemma FlattenSplit<T>(runs: seq<seq<T>>, i: nat)
    requires i < |runs|
    ensures Flatten(runs) == Flatten(runs[..i]) + (runs[i] + Flatten(runs[i + 1..]))
  {
    assert runs == runs[..i] + runs[i..];
    FlattenConcat(runs[..i], runs[i..]);
    assert runs[i..][1..] == runs[i + 1..];
  }

  lemma MoveToFront<T>(pre: seq<T>, x: T, post: seq<T>, rank: T -> Rank, k: Rank)
    requires forall y :: y in pre ==> rank(y) != rank(x)
    ensures Group([x] + (pre + post), rank, k) == Group(pre + ([x] + post), rank, k)
  {
    ConsGroup(x, pre + post, rank, k);
    GroupConcat(pre, post, rank, k);
    GroupConcat(pre, [x] + post, rank, k);
    ConsGroup(x, post, rank, k);
    if k == rank(x) {
      GroupNone(pre, rank, k);
    }
  }

  /** Taking the head of run `i` keeps every group, when no earlier run holds its rank. */
  lemma PopGroup<T>(runs: seq<seq<T>>, i: nat, rank: T -> Rank, k: Rank)
    requires i < |runs| && |runs[i]| > 0
    requires forall j, x :: 0 <= j < i && x in runs[j] ==> rank(x) != rank(runs[i][0])
    ensures Group([runs[i][0]] + Flatten(runs[i := runs[i][1..]]), rank, k) == Group(Flatten(runs), rank, k)
  {
    var x := runs[i][0];
    var popped := runs[i := runs[i][1..]];
    var pre, post := Flatten(runs[..i]), runs[i][1..] + Flatten(runs[i + 1..]);
    forall y | y in pre ensures rank(y) != rank(x) {
      FlattenMember(runs[..i], y);
    }
    FlattenSplit(runs, i);
    FlattenSplit(popped, i);
    assert popped[..i] == runs[..i] && popped[i + 1..] == runs[i + 1..];
    assert runs[i] + Flatten(runs[i + 1..]) == [x] + post;
    MoveToFront(pre, x, post, rank, k);
  }

  ghost predicate AllSorted<T>(runs: seq<seq<T>>, rank: T -> Rank) {
    forall r :: r in runs ==> Sorted(r, rank)
  }

  lemma HeadLeast<T>(r: seq<T>, rank: T -> Rank, x: T)
    requires Sorted(r, rank) && x in r
    ensures LexLe(rank(r[0]), rank(x))
  {
    LexReflexive(rank(r[0]));
    var i :| 0 <= i < |r| && r[i] == x;
  }

  lemma {:induction false} FlattenMember<T>(runs: seq<seq<T>>, x: T)
    ensures x in Flatten(runs) <==> exists i :: 0 <= i < |runs| && x in runs[i]
  {
    if runs != [] {
      FlattenMember(runs[1..], x);
      assert forall i :: 0 <= i < |runs[1..]| ==> runs[1..][i] == runs[i + 1];
      if i :| 0 < i < |runs| && x in runs[i] {
        assert x in runs[1..][i - 1];
      }
      if i :| 0 <= i < |runs[1..]| && x in runs[1..][i] {
        assert x in runs[i + 1];
      }
    }
  }

  lemma MergeStep<T>(live: seq<seq<T>>, rank: T -> Rank, i: nat, k: Rank)
    requires live != [] && NoneEmpty(live) && AllSorted(live, rank)
    requires i == NextRun(live, rank)
    ensures AllSorted(live[i := live[i][1..]], rank)
    ensures forall x :: x in Flatten(live) ==> LexLe(rank(live[i][0]), rank(x))
    ensures Group([live[i][0]] + Flatten(live[i := live[i][1..]]), rank, k) == Group(Flatten(live), rank, k)
  {
    NextRunLeast(live, rank);
    var popped := live[i := live[i][1..]];
    forall r | r in popped ensures Sorted(r, rank) {
      if r !in live { assert r == live[i][1..] && live[i] in live; }
    }
    forall x | x in Flatten(live) ensures LexLe(rank(live[i][0]), rank(x)) {
      FlattenMember(live, x);
      var j :| 0 <= j < |live| && x in live[j];
      HeadLeast(live[j], rank, x);
      LexTransitive(rank(live[i][0]), rank(live[j][0]), rank(x));
    }
    forall j, x | 0 <= j < i && x in live[j] ensures rank(x) != rank(live[i][0]) {
      HeadLeast(live[j], rank, x);
      if rank(x) == rank(live[i][0]) {
        LexAntisymmetric(rank(live[j][0]), rank(live[i][0]));
      }
    }
    PopGroup(live, i, rank, k);
  }

  lemma {:induction false} MergeGroup<T>(runs: seq<seq<T>>, rank: T -> Rank, k: Rank)
    requires AllSorted(runs, rank)
    ensures Group(MergeRuns(runs, rank), rank, k) == Group(Flatten(runs), rank, k)
    decreases |Flatten(runs)|
  {
    var live := NonEmpty(runs);
    NonEmptyFlatten(runs);
    if live != [] {
      var i := NextRun(live, rank);
      var popped := live[i := live[i][1..]];
      FlattenPop(live, i);
      MergeStep(live, rank, i, k);
      MergeGroup(popped, rank, k);
      GroupConcat([live[i][0]], MergeRuns(popped, rank), rank, k);
      GroupConcat([live[i][0]], Flatten(popped), rank, k);
    }
  }

  lemma MergeMember<T>(runs: seq<seq<T>>, rank: T -> Rank, x: T)
    requires AllSorted(runs, rank) && x in MergeRuns(runs, rank)
    ensures x in Flatten(runs)
  {
    MergeGroup(runs, rank, rank(x));
    GroupMember(MergeRuns(runs, rank), rank, rank(x), x);
    GroupMember(Flatten(runs), rank, rank(x), x);
  }

  lemma {:induction false} MergeSorted<T>(runs: seq<seq<T>>, rank: T -> Rank)
    requires AllSorted(runs, rank)
    ensures Sorted(MergeRuns(runs, rank), rank)
    decreases |Flatten(runs)|
  {
    var live := NonEmpty(runs);
    NonEmptyFlatten(runs);
    if live != [] {
      var i := NextRun(live, rank);
      var popped := live[i := live[i][1..]];
      FlattenPop(live, i);
      MergeStep(live, rank, i, rank(live[i][0]));
      MergeSorted(popped, rank);
      forall y | y in MergeRuns(popped, rank) ensures LexLe(rank(live[i][0]), rank(y)) {
        MergeMember(popped, rank, y);
        MergeStep(live, rank, i, rank(y));
        GroupMember([live[i][0]] + Flatten(popped), rank, rank(y), y);
        GroupMember(Flatten(live), rank, rank(y), y);
      }
      SortedCons(live[i][0], MergeRuns(popped, rank), rank);
    }
  }

  /** Merging sorted runs is sorting their concatenation, stably. */
  lemma MergeIsSort<T(!new)>(runs: seq<seq<T>>, rank: T -> Rank)
    requires AllSorted(runs, rank)
    ensures MergeRuns(runs, rank) == Sort(Flatten(runs), rank)
  {
    MergeSorted(runs, rank);
    forall k: Rank ensures Group(MergeRuns(runs, rank), rank, k) == Group(Flatten(runs), rank, k) {
      MergeGroup(runs, rank, k);
    }
    SortCharacterized(Flatten(runs), MergeRuns(runs, rank), rank);
  }

  /** Sorting the chunks of a sequence one by one and merging them is sorting the sequence. */
  lemma {:induction false} ExternalSort<T(!new)>(chunks: seq<seq<T>>, rank: T -> Rank)
    ensures MergeRuns(Map(c => Sort(c, rank), chunks), rank) == Sort(Flatten(chunks), rank)
  {
    var runs := Map(c => Sort(c, rank), chunks);
    forall r | r in runs ensures Sorted(r, rank) {
      var i :| 0 <= i < |runs| && runs[i] == r;
      SortSorted(chunks[i], rank);
    }
    MergeIsSort(runs, rank);
    forall k: Rank ensures Group(Sort(Flatten(runs), rank), rank, k) == Group(Flatten(chunks), rank, k) {
      SortGroup(Flatten(runs), rank, k);
      FlattenSortedGroup(chunks, rank, k);
    }
    SortSorted(Flatten(runs), rank);
    SortCharacterized(Flatten(chunks), Sort(Flatten(runs), rank), rank);
  }

  lemma {:induction false} FlattenSortedGroup<T>(chunks: seq<seq<T>>, rank: T -> Rank, k: Rank)
    ensures Group(Flatten(Map(c => Sort(c, rank), chunks)), rank, k) == Group(Flatten(chunks), rank, k)
  {
    if chunks != [] {
      var runs := Map(c => Sort(c, rank), chunks);
      assert runs[1..] == Map(c => Sort(c, rank), chunks[1..]);
      FlattenSortedGroup(chunks[1..], rank, k);
      GroupConcat(runs[0], Flatten(runs[1..]), rank, k);
      GroupConcat(chunks[0], Flatten(chunks[1..]), rank, k);
      SortGroup(chunks[0], rank, k);
    }
  }
}
