/**
The sort-merge join behind every matching round: two key-sorted streams, `None` keys last,
equal-key groups paired first with first.
*/
module MergeJoin {
  import opened Ordering
  import opened StableSort

  type Key = Option<string>

  /** `(value is None, value or "")` as one lexicographic rank: present keys by code point, then `None`. */
  function KeyRank(k: Key): Rank {
    match k
    case None => [1]
    case Some(s) => [0] + CodePoints(s)
  }

  function RankBy<T>(key: T -> Key): T -> Rank {
    x => KeyRank(key(x))
  }

  lemma KeyRankInjective(a: Key, b: Key)
    requires KeyRank(a) == KeyRank(b)
    ensures a == b
  {
    assert KeyRank(a)[0] == KeyRank(b)[0];
    if a.Some? {
      assert KeyRank(a)[1..] == KeyRank(b)[1..];
      CodePointsInjective(a.value, b.value);
    }
  }

  ghost predicate KeySorted<T>(s: seq<T>, key: T -> Key) {
    Sorted(s, RankBy(key))
  }

  lemma {:induction false} GroupByRank<T>(s: seq<T>, key: T -> Key, k: Key)
    ensures Group(s, RankBy(key), KeyRank(k)) == Group(s, key, k)
  {
    if s != [] {
      GroupByRank(s[1..], key, k);
      if KeyRank(key(s[0])) == KeyRank(k) {
        KeyRankInjective(key(s[0]), k);
      }
    }
  }

  /** What one round reports, in the order its callbacks fire on each channel. */
  datatype Joined<E, O> = Joined(
    pairs: seq<(E, O)>,
    leftExpected: seq<E>,
    leftObserved: seq<O>,
    duplicateExpected: seq<(string, seq<E>)>,
    duplicateObserved: seq<(string, seq<O>)>)
  {
    function Then(next: Joined<E, O>): Joined<E, O> {
      Joined(pairs + next.pairs, leftExpected + next.leftExpected, leftObserved + next.leftObserved,
             duplicateExpected + next.duplicateExpected, duplicateObserved + next.duplicateObserved)
    }
  }

  function Min(a: nat, b: nat): nat {
    if a <= b then a else b
  }

  function Zip<E, O>(es: seq<E>, os: seq<O>): (r: seq<(E, O)>)
    requires |es| == |os|
    ensures |r| == |es| && forall i :: 0 <= i < |es| ==> r[i] == (es[i], os[i])
  {
    seq(|es|, i requires 0 <= i < |es| => (es[i], os[i]))
  }

  /** End of the run of key `k` that starts at `i`. */
  function RunEnd<T>(s: seq<T>, i: nat, key: T -> Key, k: Key): (n: nat)
    requires i <= |s|
    ensures i <= n <= |s|
    decreases |s| - i
  {
    if i < |s| && key(s[i]) == k then RunEnd(s, i + 1, key, k) else i
  }

  /** How many leading items carry key `k`. */
  function Leading<T>(s: seq<T>, key: T -> Key, k: Key): (n: nat)
    ensures n <= |s|
  {
    RunEnd(s, 0, key, k)
  }

  /** The group of key `k` that starts at `from` has exactly `n` items. */
  ghost predicate GroupSpan<T>(s: seq<T>, from: nat, key: T -> Key, k: Key, n: nat) {
    && 0 < n <= |s| - from
    && (forall i :: from <= i < from + n ==> key(s[i]) == k)
    && (from + n < |s| ==> key(s[from + n]) != k)
  }

  lemma {:induction false} RunEndBound<T>(s: seq<T>, i: nat, key: T -> Key, k: Key)
    requires i <= |s|
    ensures var n := RunEnd(s, i, key, k);
      (forall x :: i <= x < n ==> key(s[x]) == k) && (n < |s| ==> key(s[n]) != k)
    decreases |s| - i
  {
    if i < |s| && key(s[i]) == k {
      RunEndBound(s, i + 1, key, k);
    }
  }

  lemma LeadingBound<T>(s: seq<T>, key: T -> Key, k: Key, n: nat)
    requires n <= |s|
    ensures n == Leading(s, key, k) <==>
            (forall i :: 0 <= i < n ==> key(s[i]) == k) && (n < |s| ==> key(s[n]) != k)
  {
    RunEndBound(s, 0, key, k);
  }

  /** What an equal-key group contributes. */
  function Matched<E, O>(k: string, es: seq<E>, os: seq<O>): Joined<E, O> {
    var p := Min(|es|, |os|);
    Joined(Zip(es[..p], os[..p]), es[p..], os[p..],
           if |es| > 1 then [(k, es)] else [], if |os| > 1 then [(k, os)] else [])
  }

  /** An item with key `a` cannot match a stream whose head has key `b`. */
  predicate LeaveFirst(a: Key, b: Key) {
    a.None? || (b.Some? && StringLt(a.value, b.value))
  }

  lemma NeitherLeaves(a: Key, b: Key)
    ensures !LeaveFirst(a, b) && !LeaveFirst(b, a) <==> a.Some? && a == b
  {
    if a.Some? && b.Some? {
      StringTrichotomy(a.value, b.value);
    }
  }

  /** The join, as a recursion over the two streams. */
  function Join<E, O>(es: seq<E>, os: seq<O>, ek: E -> Key, ok: O -> Key): Joined<E, O>
    decreases |es| + |os|
  {
    if es == [] || os == [] then Joined([], es, os, [], [])
    else
      var a, b := ek(es[0]), ok(os[0]);
      if LeaveFirst(a, b) then
        LeaveExpected(es[0]).Then(Join(es[1..], os, ek, ok))
      else if LeaveFirst(b, a) then
        LeaveObserved(os[0]).Then(Join(es, os[1..], ek, ok))
      else
        NeitherLeaves(a, b);
        var m, n := Leading(es, ek, a), Leading(os, ok, a);
        Matched(a.value, es[..m], os[..n]).Then(Join(es[m..], os[n..], ek, ok))
  }

  function LeaveExpected<E, O>(e: E): Joined<E, O> {
    Joined([], [e], [], [], [])
  }

  function LeaveObserved<E, O>(o: O): Joined<E, O> {
    Joined([], [], [o], [], [])
  }

  lemma StringTrichotomy(a: string, b: string)
    ensures StringLt(a, b) || StringLt(b, a) || a == b
  {
    LexTotal(CodePoints(a), CodePoints(b));
    if CodePoints(a) == CodePoints(b) {
      CodePointsInjective(a, b);
    }
  }

  /** `stream_merge_join`: the loop over the two iterators computes `Join`. */
  method StreamMergeJoin<E, O>(es: seq<E>, os: seq<O>, ek: E -> Key, ok: O -> Key) returns (j: Joined<E, O>)
    ensures j == Join(es, os, ek, ok)
  {
    var x, y := 0, 0;
    j := Joined([], [], [], [], []);
    JoinStart(es, os, ek, ok);
    while x < |es| && y < |os|
      invariant x <= |es| && y <= |os|
      invariant Join(es, os, ek, ok) == j.Then(Join(es[x..], os[y..], ek, ok))
      decreases |es| - x + |os| - y
    {
      j, x, y := JoinStep(j, es, os, ek, ok, x, y);
    }
    JoinEnd(es[x..], os[y..], ek, ok);
    j := j.Then(Joined([], es[x..], os[y..], [], []));
  }

  /** One pass of the loop body: leave one item, or consume a whole equal-key group on both sides. */
  method JoinStep<E, O>(acc: Joined<E, O>, es: seq<E>, os: seq<O>, ek: E -> Key, ok: O -> Key, x: nat, y: nat)
    returns (j: Joined<E, O>, x': nat, y': nat)
    requires x < |es| && y < |os|
    ensures x <= x' <= |es| && y <= y' <= |os| && x + y < x' + y'
    ensures j.Then(Join(es[x'..], os[y'..], ek, ok)) == acc.Then(Join(es[x..], os[y..], ek, ok))
  {
    var a, b := ek(es[x]), ok(os[y]);
    if LeaveFirst(a, b) {
      LeaveExpectedStep(acc, es, os, ek, ok, x, y);
      return acc.Then(LeaveExpected(es[x])), x + 1, y;
    }
    if LeaveFirst(b, a) {
      LeaveObservedStep(acc, es, os, ek, ok, x, y);
      return acc.Then(LeaveObserved(os[y])), x, y + 1;
    }
    NeitherLeaves(a, b);
    j, x', y' := TakeGroups(acc, es, os, ek, ok, x, y);
  }

  /** The equal-key branch: collect both groups, then pair them first with first. */
  method TakeGroups<E, O>(acc: Joined<E, O>, es: seq<E>, os: seq<O>, ek: E -> Key, ok: O -> Key, x: nat, y: nat)
    returns (j: Joined<E, O>, x': nat, y': nat)
    requires x < |es| && y < |os| && ek(es[x]).Some? && ok(os[y]) == ek(es[x])
    ensures x < x' <= |es| && y < y' <= |os|
    ensures j.Then(Join(es[x'..], os[y'..], ek, ok)) == acc.Then(Join(es[x..], os[y..], ek, ok))
  {
    hide Join;
    var k := ek(es[x]);
    var m := Scan(es, x, ek, k);
    var n := Scan(os, y, ok, k);
    MatchedStep(acc, es, os, ek, ok, x, y, m, n);
    return acc.Then(Matched(k.value, es[x..x + m], os[y..y + n])), x + m, y + n;
  }

  lemma JoinEnd<E, O>(es: seq<E>, os: seq<O>, ek: E -> Key, ok: O -> Key)
    requires es == [] || os == []
    ensures Join(es, os, ek, ok) == Joined([], es, os, [], [])
  {
  }

  lemma JoinStart<E, O>(es: seq<E>, os: seq<O>, ek: E -> Key, ok: O -> Key)
    ensures Join(es, os, ek, ok) == Joined([], [], [], [], []).Then(Join(es[0..], os[0..], ek, ok))
  {
    assert es[0..] == es && os[0..] == os;
  }

  lemma JoinLeaveExpected<E, O>(e: E, es: seq<E>, os: seq<O>, ek: E -> Key, ok: O -> Key)
    requires os != [] && LeaveFirst(ek(e), ok(os[0]))
    ensures Join([e] + es, os, ek, ok) == LeaveExpected(e).Then(Join(es, os, ek, ok))
  {
    assert ([e] + es)[1..] == es;
  }

  lemma JoinLeaveObserved<E, O>(o: O, es: seq<E>, os: seq<O>, ek: E -> Key, ok: O -> Key)
    requires es != [] && !LeaveFirst(ek(es[0]), ok(o)) && LeaveFirst(ok(o), ek(es[0]))
    ensures Join(es, [o] + os, ek, ok) == LeaveObserved(o).Then(Join(es, os, ek, ok))
  {
    assert ([o] + os)[1..] == os;
  }

  lemma LeaveExpectedStep<E, O>(acc: Joined<E, O>, es: seq<E>, os: seq<O>, ek: E -> Key, ok: O -> Key, x: nat, y: nat)
    requires x < |es| && y < |os|
    requires LeaveFirst(ek(es[x]), ok(os[y]))
    ensures acc.Then(Join(es[x..], os[y..], ek, ok)) ==
      acc.Then(LeaveExpected(es[x])).Then(Join(es[x + 1..], os[y..], ek, ok))
  {
    assert es[x..][1..] == es[x + 1..];
    ThenAssociative(acc, LeaveExpected(es[x]), Join(es[x + 1..], os[y..], ek, ok));
  }

  lemma LeaveObservedStep<E, O>(acc: Joined<E, O>, es: seq<E>, os: seq<O>, ek: E -> Key, ok: O -> Key, x: nat, y: nat)
    requires x < |es| && y < |os|
    requires !LeaveFirst(ek(es[x]), ok(os[y])) && LeaveFirst(ok(os[y]), ek(es[x]))
    ensures acc.Then(Join(es[x..], os[y..], ek, ok)) ==
      acc.Then(LeaveObserved(os[y])).Then(Join(es[x..], os[y + 1..], ek, ok))
  {
    assert os[y..][1..] == os[y + 1..];
    ThenAssociative(acc, LeaveObserved(os[y]), Join(es[x..], os[y + 1..], ek, ok));
  }

  lemma MatchedStep<E, O>(acc: Joined<E, O>, es: seq<E>, os: seq<O>, ek: E -> Key, ok: O -> Key,
                          x: nat, y: nat, m: nat, n: nat)
    requires x < |es| && y < |os| && ek(es[x]).Some? && ok(os[y]) == ek(es[x])
    requires GroupSpan(es, x, ek, ek(es[x]), m) && GroupSpan(os, y, ok, ek(es[x]), n)
    ensures acc.Then(Join(es[x..], os[y..], ek, ok)) ==
            acc.Then(Matched(ek(es[x]).value, es[x..x + m], os[y..y + n])).Then(Join(es[x + m..], os[y + n..], ek, ok))
  {
    LeadingBound(es[x..], ek, ek(es[x]), m);
    LeadingBound(os[y..], ok, ek(es[x]), n);
    JoinEqualStep(es, os, ek, ok, x, y, m, n);
    ThenAssociative(acc, Matched(ek(es[x]).value, es[x..x + m], os[y..y + n]), Join(es[x + m..], os[y + n..], ek, ok));
  }

  lemma JoinEqualStep<E, O>(es: seq<E>, os: seq<O>, ek: E -> Key, ok: O -> Key, x: nat, y: nat, m: nat, n: nat)
    requires x < |es| && y < |os| && ek(es[x]).Some? && ok(os[y]) == ek(es[x])
    requires m == Leading(es[x..], ek, ek(es[x])) && n == Leading(os[y..], ok, ek(es[x]))
    ensures x + m <= |es| && y + n <= |os|
    ensures Join(es[x..], os[y..], ek, ok) ==
            Matched(ek(es[x]).value, es[x..x + m], os[y..y + n]).Then(Join(es[x + m..], os[y + n..], ek, ok))
  {
    NeitherLeaves(ek(es[x]), ok(os[y]));
    assert es[x..][..m] == es[x..x + m] && os[y..][..n] == os[y..y + n];
    assert es[x..][m..] == es[x + m..] && os[y..][n..] == os[y + n..];
  }

  /** The inner loop that collects one key's group. */
  method Scan<T>(s: seq<T>, from: nat, key: T -> Key, k: Key) returns (n: nat)
    requires from < |s| && key(s[from]) == k
    ensures GroupSpan(s, from, key, k, n)
  {
    n := 1;
    while from + n < |s| && key(s[from + n]) == k
      invariant 0 < n <= |s| - from
      invariant forall i :: from <= i < from + n ==> key(s[i]) == k
    {
      n := n + 1;
    }
  }

  lemma ThenAssociative<E, O>(a: Joined<E, O>, b: Joined<E, O>, c: Joined<E, O>)
    ensures a.Then(b).Then(c) == a.Then(b.Then(c))
  {
    assert (a.pairs + b.pairs) + c.pairs == a.pairs + (b.pairs + c.pairs);
  }

  // ----- what one round guarantees, key by key

  function PairKey<E, O>(ek: E -> Key): ((E, O)) -> Key {
    (p: (E, O)) => ek(p.0)
  }

  function DuplicateKey<T>(): ((string, seq<T>)) -> string {
    (d: (string, seq<T>)) => d.0
  }

  /** What becomes of the `ge` expected and `go` observed items that hold key `k`. */
  ghost predicate Settled<E, O>(k: string, ge: seq<E>, go: seq<O>, pairs: seq<(E, O)>, leftE: seq<E>, leftO: seq<O>,
                                dupE: seq<(string, seq<E>)>, dupO: seq<(string, seq<O>)>) {
    var p := Min(|ge|, |go|);
    && pairs == Zip(ge[..p], go[..p])
    && leftE == ge[p..]
    && leftO == go[p..]
    && dupE == (if |ge| > 1 && |go| > 0 then [(k, ge)] else [])
    && dupO == (if |go| > 1 && |ge| > 0 then [(k, go)] else [])
  }

  /** Everything `j` says about the present key `k`. */
  ghost predicate JoinedAt<E, O>(j: Joined<E, O>, es: seq<E>, os: seq<O>, ek: E -> Key, ok: O -> Key, k: string) {
    Settled(k, Group(es, ek, Some(k)), Group(os, ok, Some(k)),
            Group(j.pairs, PairKey(ek), Some(k)),
            Group(j.leftExpected, ek, Some(k)), Group(j.leftObserved, ok, Some(k)),
            Group(j.duplicateExpected, DuplicateKey(), k), Group(j.duplicateObserved, DuplicateKey(), k))
  }

  lemma SettledConcat<E, O>(k: string, ge: seq<E>, go: seq<O>, pairs: seq<(E, O)>, leftE: seq<E>, leftO: seq<O>,
                            dupE: seq<(string, seq<E>)>, dupO: seq<(string, seq<O>)>,
                            ge': seq<E>, go': seq<O>, pairs': seq<(E, O)>, leftE': seq<E>, leftO': seq<O>,
                            dupE': seq<(string, seq<E>)>, dupO': seq<(string, seq<O>)>)
    requires Settled(k, ge, go, pairs, leftE, leftO, dupE, dupO)
    requires Settled(k, ge', go', pairs', leftE', leftO', dupE', dupO')
    requires (ge == [] && go == []) || (ge' == [] && go' == []) || (ge == [] && ge' == []) || (go == [] && go' == [])
    ensures Settled(k, ge + ge', go + go', pairs + pairs', leftE + leftE', leftO + leftO', dupE + dupE', dupO + dupO')
  {
    if ge == [] && go == [] {
      assert ge + ge' == ge' && go + go' == go';
    } else if ge' == [] && go' == [] {
      assert ge + ge' == ge && go + go' == go;
    }
  }

  /** No item of `s` holds key `k`. */
  ghost predicate Absent<T>(s: seq<T>, key: T -> Key, k: string) {
    Group(s, key, Some(k)) == []
  }

  lemma ThenGroups<E, O>(a: Joined<E, O>, b: Joined<E, O>, ek: E -> Key, ok: O -> Key, k: Key)
    ensures var c := a.Then(b);
      && Group(c.pairs, PairKey(ek), k) == Group(a.pairs, PairKey(ek), k) + Group(b.pairs, PairKey(ek), k)
      && Group(c.leftExpected, ek, k) == Group(a.leftExpected, ek, k) + Group(b.leftExpected, ek, k)
      && Group(c.leftObserved, ok, k) == Group(a.leftObserved, ok, k) + Group(b.leftObserved, ok, k)
  {
    GroupConcat(a.pairs, b.pairs, PairKey(ek), k);
    GroupConcat(a.leftExpected, b.leftExpected, ek, k);
    GroupConcat(a.leftObserved, b.leftObserved, ok, k);
  }

  lemma ThenDuplicates<E, O>(a: Joined<E, O>, b: Joined<E, O>, k: string)
    ensures var c := a.Then(b);
      && Group(c.duplicateExpected, DuplicateKey(), k) ==
        Group(a.duplicateExpected, DuplicateKey(), k) + Group(b.duplicateExpected, DuplicateKey(), k)
      && Group(c.duplicateObserved, DuplicateKey(), k) ==
        Group(a.duplicateObserved, DuplicateKey(), k) + Group(b.duplicateObserved, DuplicateKey(), k)
  {
    GroupConcat(a.duplicateExpected, b.duplicateExpected, DuplicateKey(), k);
    GroupConcat(a.duplicateObserved, b.duplicateObserved, DuplicateKey(), k);
  }

  /** A key below the head of a sorted stream does not occur in the stream. */
  lemma AbsentBelowHead<T>(s: seq<T>, key: T -> Key, k: string)
    requires KeySorted(s, key) && s != [] && LexLt(KeyRank(Some(k)), KeyRank(key(s[0])))
    ensures Absent(s, key, k)
  {
    forall x | x in s ensures key(x) != Some(k) {
      HeadLeast(s, RankBy(key), x);
      if key(x) == Some(k) {
        LexAntisymmetric(KeyRank(Some(k)), KeyRank(key(s[0])));
      }
    }
    GroupNone(s, key, Some(k));
  }

  /** In a sorted stream no item after the head's leading run carries the head's key. */
  lemma LeadingTail<T>(s: seq<T>, key: T -> Key, i: nat)
    requires KeySorted(s, key) && s != [] && Leading(s, key, key(s[0])) <= i < |s|
    ensures key(s[i]) != key(s[0])
  {
    var k := key(s[0]);
    var n := Leading(s, key, k);
    LeadingBound(s, key, k, n);
    if key(s[i]) == k {
      assert LexLe(RankBy(key)(s[0]), RankBy(key)(s[n]));
      LexReflexive(KeyRank(k));
      assert LexLe(RankBy(key)(s[n]), RankBy(key)(s[i]));
      LexAntisymmetric(KeyRank(key(s[n])), KeyRank(k));
      KeyRankInjective(key(s[n]), k);
      assert false;
    }
  }

  /** In a sorted stream the leading run of the head's key is that key's whole group. */
  lemma LeadingIsGroup<T>(s: seq<T>, key: T -> Key)
    requires KeySorted(s, key) && s != []
    ensures var n := Leading(s, key, key(s[0]));
      && n > 0 && KeySorted(s[n..], key)
      && (forall x :: x in s[..n] ==> key(x) == key(s[0]))
      && Group(s[n..], key, key(s[0])) == []
  {
    var n := Leading(s, key, key(s[0]));
    LeadingBound(s, key, key(s[0]), n);
    forall x | x in s[n..] ensures key(x) != key(s[0]) {
      var i :| n <= i < |s| && s[i] == x;
      LeadingTail(s, key, i);
    }
    GroupNone(s[n..], key, key(s[0]));
  }

  lemma RankPrecedes(a: string, b: string)
    requires StringLt(a, b)
    ensures LexLt(KeyRank(Some(a)), KeyRank(Some(b)))
  {
    assert KeyRank(Some(a))[1..] == CodePoints(a) && KeyRank(Some(b))[1..] == CodePoints(b);
  }

  /** Two results over consecutive stretches of the streams combine, when key `k` is not split across them. */
  lemma ThenAt<E, O>(j: Joined<E, O>, es: seq<E>, os: seq<O>, j': Joined<E, O>, es': seq<E>, os': seq<O>,
                     ek: E -> Key, ok: O -> Key, k: string)
    requires JoinedAt(j, es, os, ek, ok, k) && JoinedAt(j', es', os', ek, ok, k)
    requires
      || (Absent(es, ek, k) && Absent(os, ok, k))
      || (Absent(es', ek, k) && Absent(os', ok, k))
      || (Absent(es, ek, k) && Absent(es', ek, k))
      || (Absent(os, ok, k) && Absent(os', ok, k))
    ensures JoinedAt(j.Then(j'), es + es', os + os', ek, ok, k)
  {
    ThenGroups(j, j', ek, ok, Some(k));
    ThenDuplicates(j, j', k);
    GroupConcat(es, es', ek, Some(k));
    GroupConcat(os, os', ok, Some(k));
    SettledConcat(k, Group(es, ek, Some(k)), Group(os, ok, Some(k)), Group(j.pairs, PairKey(ek), Some(k)),
                  Group(j.leftExpected, ek, Some(k)), Group(j.leftObserved, ok, Some(k)),
                  Group(j.duplicateExpected, DuplicateKey(), k), Group(j.duplicateObserved, DuplicateKey(), k),
                  Group(es', ek, Some(k)), Group(os', ok, Some(k)), Group(j'.pairs, PairKey(ek), Some(k)),
                  Group(j'.leftExpected, ek, Some(k)), Group(j'.leftObserved, ok, Some(k)),
                  Group(j'.duplicateExpected, DuplicateKey(), k), Group(j'.duplicateObserved, DuplicateKey(), k));
  }

  /** Pairing, leftovers and duplicate groups at every present key. */
  lemma {:induction false} JoinAtKey<E, O>(es: seq<E>, os: seq<O>, ek: E -> Key, ok: O -> Key, k: string)
    requires KeySorted(es, ek) && KeySorted(os, ok)
    ensures JoinedAt(Join(es, os, ek, ok), es, os, ek, ok, k)
    decreases |es| + |os|
  {
    if es != [] && os != [] {
      var a, b := ek(es[0]), ok(os[0]);
      NeitherLeaves(a, b);
      if LeaveFirst(a, b) {
        JoinAtKey(es[1..], os, ek, ok, k);
        JoinLeaveExpectedAtKey(es[0], es[1..], os, ek, ok, k);
        SplitHead(es);
      } else if LeaveFirst(b, a) {
        JoinAtKey(es, os[1..], ek, ok, k);
        JoinLeaveObservedAtKey(os[0], es, os[1..], ek, ok, k);
        SplitHead(os);
      } else {
        LeadingIsGroup(es, ek);
        LeadingIsGroup(os, ok);
        JoinAtKey(es[Leading(es, ek, a)..], os[Leading(os, ok, a)..], ek, ok, k);
        JoinEqualAtKey(es, os, ek, ok, k);
      }
    }
  }

  lemma LeaveAt<E, O>(e: E, ek: E -> Key, ok: O -> Key, k: string)
    ensures JoinedAt(LeaveExpected<E, O>(e), [e], [], ek, ok, k)
    ensures Absent<O>([], ok, k) && (ek(e) != Some(k) ==> Absent([e], ek, k))
  {
    assert [e][1..] == [];
  }

  lemma LeaveObservedAt<E, O>(o: O, ek: E -> Key, ok: O -> Key, k: string)
    ensures JoinedAt(LeaveObserved<E, O>(o), [], [o], ek, ok, k)
    ensures Absent<E>([], ek, k) && (ok(o) != Some(k) ==> Absent([o], ok, k))
  {
    assert [o][1..] == [];
  }

  lemma JoinLeaveExpectedAtKey<E, O>(e: E, es: seq<E>, os: seq<O>, ek: E -> Key, ok: O -> Key, k: string)
    requires KeySorted(os, ok) && os != [] && LeaveFirst(ek(e), ok(os[0]))
    requires JoinedAt(Join(es, os, ek, ok), es, os, ek, ok, k)
    ensures JoinedAt(Join([e] + es, os, ek, ok), [e] + es, os, ek, ok, k)
  {
    JoinLeaveExpected(e, es, os, ek, ok);
    hide Join, Group, JoinedAt, Absent, KeySorted, LexLe;
    if ek(e) == Some(k) {
      RankPrecedes(k, ok(os[0]).value);
      AbsentBelowHead(os, ok, k);
    }
    LeaveAt<E, O>(e, ek, ok, k);
    ThenAt(LeaveExpected(e), [e], [], Join(es, os, ek, ok), es, os, ek, ok, k);
    assert [] + os == os;
  }

  lemma JoinLeaveObservedAtKey<E, O>(o: O, es: seq<E>, os: seq<O>, ek: E -> Key, ok: O -> Key, k: string)
    requires KeySorted(es, ek) && es != [] && !LeaveFirst(ek(es[0]), ok(o)) && LeaveFirst(ok(o), ek(es[0]))
    requires JoinedAt(Join(es, os, ek, ok), es, os, ek, ok, k)
    ensures JoinedAt(Join(es, [o] + os, ek, ok), es, [o] + os, ek, ok, k)
  {
    JoinLeaveObserved(o, es, os, ek, ok);
    hide Join, Group, JoinedAt, Absent, KeySorted, LexLe;
    if ok(o) == Some(k) {
      RankPrecedes(k, ek(es[0]).value);
      AbsentBelowHead(es, ek, k);
    }
    LeaveObservedAt<E, O>(o, ek, ok, k);
    ThenAt(LeaveObserved(o), [], [o], Join(es, os, ek, ok), es, os, ek, ok, k);
    assert [] + es == es;
  }

  lemma JoinEqualAtKey<E, O>(es: seq<E>, os: seq<O>, ek: E -> Key, ok: O -> Key, k: string)
    requires KeySorted(es, ek) && KeySorted(os, ok)
    requires es != [] && os != [] && ek(es[0]).Some? && ok(os[0]) == ek(es[0])
    requires var m, n := Leading(es, ek, ek(es[0])), Leading(os, ok, ek(es[0]));
             JoinedAt(Join(es[m..], os[n..], ek, ok), es[m..], os[n..], ek, ok, k)
    ensures JoinedAt(Join(es, os, ek, ok), es, os, ek, ok, k)
  {
    var a := ek(es[0]);
    NeitherLeaves(a, a);
    var m, n := Leading(es, ek, a), Leading(os, ok, a);
    LeadingIsGroup(es, ek);
    LeadingIsGroup(os, ok);
    MatchedAt(a.value, es[..m], os[..n], ek, ok, k);
    if k == a.value {
      assert Some(k) == a;
      assert Absent(es[m..], ek, k) && Absent(os[n..], ok, k);
    }
    SplitAt(es, m);
    SplitAt(os, n);
    ThenAt(Matched(a.value, es[..m], os[..n]), es[..m], os[..n],
           Join(es[m..], os[n..], ek, ok), es[m..], os[n..], ek, ok, k);
  }

  lemma SplitHead<T>(s: seq<T>)
    requires s != []
    ensures s == [s[0]] + s[1..]
  {
  }

  lemma SplitAt<T>(s: seq<T>, n: nat)
    requires n <= |s|
    ensures s == s[..n] + s[n..]
  {
  }

  /** A single-key group, seen from its own key and from any other. */
  lemma MatchedAt<E, O>(a: string, eg: seq<E>, og: seq<O>, ek: E -> Key, ok: O -> Key, k: string)
    requires eg != [] && og != []
    requires forall e :: e in eg ==> ek(e) == Some(a)
    requires forall o :: o in og ==> ok(o) == Some(a)
    ensures JoinedAt(Matched(a, eg, og), eg, og, ek, ok, k)
    ensures k != a ==> Absent(eg, ek, k) && Absent(og, ok, k)
  {
    if k == a {
      MatchedAtOwn(a, eg, og, ek, ok);
    } else {
      MatchedAtOther(a, eg, og, ek, ok, k);
    }
  }

  lemma MatchedAtOwn<E, O>(a: string, eg: seq<E>, og: seq<O>, ek: E -> Key, ok: O -> Key)
    requires eg != [] && og != []
    requires forall e :: e in eg ==> ek(e) == Some(a)
    requires forall o :: o in og ==> ok(o) == Some(a)
    ensures JoinedAt(Matched(a, eg, og), eg, og, ek, ok, a)
  {
    var p := Min(|eg|, |og|);
    GroupAll(eg, ek, Some(a));
    GroupAll(og, ok, Some(a));
    GroupAll(Zip(eg[..p], og[..p]), PairKey(ek), Some(a));
    GroupAll(eg[p..], ek, Some(a));
    GroupAll(og[p..], ok, Some(a));
  }

  lemma MatchedAtOther<E, O>(a: string, eg: seq<E>, og: seq<O>, ek: E -> Key, ok: O -> Key, k: string)
    requires k != a
    requires forall e :: e in eg ==> ek(e) == Some(a)
    requires forall o :: o in og ==> ok(o) == Some(a)
    ensures JoinedAt(Matched(a, eg, og), eg, og, ek, ok, k)
    ensures Absent(eg, ek, k) && Absent(og, ok, k)
  {
    var p := Min(|eg|, |og|);
    GroupNone(eg, ek, Some(k));
    GroupNone(og, ok, Some(k));
    GroupNone(Zip(eg[..p], og[..p]), PairKey(ek), Some(k));
    GroupNone(eg[p..], ek, Some(k));
    GroupNone(og[p..], ok, Some(k));
  }

  // ----- conservation, agreement and naturality: no sortedness needed

  function Firsts<E, O>(pairs: seq<(E, O)>): (r: seq<E>)
    ensures |r| == |pairs| && forall i :: 0 <= i < |r| ==> r[i] == pairs[i].0
  {
    seq(|pairs|, i requires 0 <= i < |pairs| => pairs[i].0)
  }

  function Seconds<E, O>(pairs: seq<(E, O)>): (r: seq<O>)
    ensures |r| == |pairs| && forall i :: 0 <= i < |r| ==> r[i] == pairs[i].1
  {
    seq(|pairs|, i requires 0 <= i < |pairs| => pairs[i].1)
  }

  /** Each side's items are the matched ones and the leftovers, with multiplicity. */
  ghost predicate Conserves<E, O>(j: Joined<E, O>, es: seq<E>, os: seq<O>) {
    && multiset(es) == multiset(Firsts(j.pairs)) + multiset(j.leftExpected)
    && multiset(os) == multiset(Seconds(j.pairs)) + multiset(j.leftObserved)
  }

  lemma ThenConserves<E, O>(j: Joined<E, O>, es: seq<E>, os: seq<O>, j': Joined<E, O>, es': seq<E>, os': seq<O>)
    requires Conserves(j, es, os) && Conserves(j', es', os')
    ensures Conserves(j.Then(j'), es + es', os + os')
  {
    assert Firsts(j.pairs + j'.pairs) == Firsts(j.pairs) + Firsts(j'.pairs);
    assert Seconds(j.pairs + j'.pairs) == Seconds(j.pairs) + Seconds(j'.pairs);
  }

  lemma MatchedConserves<E, O>(a: string, eg: seq<E>, og: seq<O>)
    ensures Conserves(Matched(a, eg, og), eg, og)
  {
    var p := Min(|eg|, |og|);
    var pairs := Zip(eg[..p], og[..p]);
    assert Firsts(pairs) == eg[..p] && Seconds(pairs) == og[..p];
    assert eg == eg[..p] + eg[p..] && og == og[..p] + og[p..];
  }

  lemma {:induction false} JoinConserves<E, O>(es: seq<E>, os: seq<O>, ek: E -> Key, ok: O -> Key)
    ensures Conserves(Join(es, os, ek, ok), es, os)
    decreases |es| + |os|
  {
    hide LexLe;
    if es != [] && os != [] {
      var a, b := ek(es[0]), ok(os[0]);
      if LeaveFirst(a, b) {
        JoinConserves(es[1..], os, ek, ok);
        ThenConserves(LeaveExpected(es[0]), [es[0]], [], Join(es[1..], os, ek, ok), es[1..], os);
        SplitHead(es);
        assert [] + os == os;
      } else if LeaveFirst(b, a) {
        JoinConserves(es, os[1..], ek, ok);
        ThenConserves(LeaveObserved(os[0]), [], [os[0]], Join(es, os[1..], ek, ok), es, os[1..]);
        SplitHead(os);
        assert [] + es == es;
      } else {
        NeitherLeaves(a, b);
        var m, n := Leading(es, ek, a), Leading(os, ok, a);
        JoinConserves(es[m..], os[n..], ek, ok);
        MatchedConserves(a.value, es[..m], os[..n]);
        ThenConserves(Matched(a.value, es[..m], os[..n]), es[..m], os[..n], Join(es[m..], os[n..], ek, ok), es[m..],
          os[n..]);
        SplitAt(es, m);
        SplitAt(os, n);
      }
    }
  }

  /** Both members of a pair hold the same present key. */
  ghost predicate PairsAgree<E, O>(pairs: seq<(E, O)>, ek: E -> Key, ok: O -> Key) {
    forall i :: 0 <= i < |pairs| ==> ek(pairs[i].0).Some? && ek(pairs[i].0) == ok(pairs[i].1)
  }

  lemma {:induction false} JoinPairsAgree<E, O>(es: seq<E>, os: seq<O>, ek: E -> Key, ok: O -> Key)
    ensures PairsAgree(Join(es, os, ek, ok).pairs, ek, ok)
    decreases |es| + |os|
  {
    if es != [] && os != [] {
      var a, b := ek(es[0]), ok(os[0]);
      if LeaveFirst(a, b) {
        JoinPairsAgree(es[1..], os, ek, ok);
      } else if LeaveFirst(b, a) {
        JoinPairsAgree(es, os[1..], ek, ok);
      } else {
        NeitherLeaves(a, b);
        var m, n := Leading(es, ek, a), Leading(os, ok, a);
        LeadingBound(es, ek, a, m);
        LeadingBound(os, ok, a, n);
        JoinPairsAgree(es[m..], os[n..], ek, ok);
      }
    }
  }

  function MapPairs<E, O>(f: E -> E, pairs: seq<(E, O)>): (r: seq<(E, O)>)
    ensures |r| == |pairs| && forall i :: 0 <= i < |r| ==> r[i] == (f(pairs[i].0), pairs[i].1)
  {
    seq(|pairs|, i requires 0 <= i < |pairs| => (f(pairs[i].0), pairs[i].1))
  }

  function MapGroups<E>(f: E -> E, groups: seq<(string, seq<E>)>): (r: seq<(string, seq<E>)>)
    ensures |r| == |groups| && forall i :: 0 <= i < |r| ==> r[i] == (groups[i].0, Map(f, groups[i].1))
  {
    seq(|groups|, i requires 0 <= i < |groups| => (groups[i].0, Map(f, groups[i].1)))
  }

  /** Replaces every expected item of a result by its image. */
  function MapJoined<E, O>(f: E -> E, j: Joined<E, O>): Joined<E, O> {
    Joined(MapPairs(f, j.pairs), Map(f, j.leftExpected), j.leftObserved,
           MapGroups(f, j.duplicateExpected), j.duplicateObserved)
  }

  lemma ThenMap<E, O>(f: E -> E, a: Joined<E, O>, b: Joined<E, O>)
    ensures MapJoined(f, a.Then(b)) == MapJoined(f, a).Then(MapJoined(f, b))
  {
    assert MapPairs(f, a.pairs + b.pairs) == MapPairs(f, a.pairs) + MapPairs(f, b.pairs);
    assert Map(f, a.leftExpected + b.leftExpected) == Map(f, a.leftExpected) + Map(f, b.leftExpected);
    assert MapGroups(f, a.duplicateExpected + b.duplicateExpected) ==
      MapGroups(f, a.duplicateExpected) + MapGroups(f, b.duplicateExpected);
  }

  lemma MatchedMap<E, O>(f: E -> E, k: string, es: seq<E>, os: seq<O>)
    ensures Matched(k, Map(f, es), os) == MapJoined(f, Matched(k, es, os))
  {
    var p := Min(|es|, |os|);
    assert Map(f, es)[..p] == Map(f, es[..p]) && Map(f, es)[p..] == Map(f, es[p..]);
    assert Zip(Map(f, es[..p]), os[..p]) == MapPairs(f, Zip(es[..p], os[..p]));
  }

  ghost predicate Preserves<E>(f: E -> E, es: seq<E>, ek: E -> Key) {
    forall i :: 0 <= i < |es| ==> ek(f(es[i])) == ek(es[i])
  }

  lemma {:induction false} RunEndMap<E>(f: E -> E, es: seq<E>, i: nat, ek: E -> Key, k: Key)
    requires i <= |es| && Preserves(f, es, ek)
    ensures RunEnd(Map(f, es), i, ek, k) == RunEnd(es, i, ek, k)
    decreases |es| - i
  {
    if i < |es| && ek(es[i]) == k {
      RunEndMap(f, es, i + 1, ek, k);
    }
  }

  /** The join only looks at keys, so it commutes with any key-preserving change of the expected items. */
  lemma {:induction false} JoinMap<E, O>(f: E -> E, es: seq<E>, os: seq<O>, ek: E -> Key, ok: O -> Key)
    requires Preserves(f, es, ek)
    ensures Join(Map(f, es), os, ek, ok) == MapJoined(f, Join(es, os, ek, ok))
    decreases |es| + |os|
  {
    if es != [] && os != [] {
      var a, b := ek(es[0]), ok(os[0]);
      if LeaveFirst(a, b) {
        assert Map(f, es)[1..] == Map(f, es[1..]);
        JoinMap(f, es[1..], os, ek, ok);
        ThenMap(f, LeaveExpected(es[0]), Join(es[1..], os, ek, ok));
        assert MapJoined<E, O>(f, LeaveExpected(es[0])) == LeaveExpected(f(es[0]));
      } else if LeaveFirst(b, a) {
        JoinMap(f, es, os[1..], ek, ok);
        ThenMap(f, LeaveObserved(os[0]), Join(es, os[1..], ek, ok));
        assert MapJoined<E, O>(f, LeaveObserved(os[0])) == LeaveObserved(os[0]);
      } else {
        NeitherLeaves(a, b);
        var m, n := Leading(es, ek, a), Leading(os, ok, a);
        RunEndMap(f, es, 0, ek, a);
        assert Map(f, es)[m..] == Map(f, es[m..]) && Map(f, es)[..m] == Map(f, es[..m]);
        JoinMap(f, es[m..], os[n..], ek, ok);
        MatchedMap(f, a.value, es[..m], os[..n]);
        ThenMap(f, Matched(a.value, es[..m], os[..n]), Join(es[m..], os[n..], ek, ok));
      }
    }
  }

  /** Items without a key pass to the leftovers, all of them and in order. */
  lemma {:induction false} JoinNoKey<E, O>(es: seq<E>, os: seq<O>, ek: E -> Key, ok: O -> Key)
    ensures Group(Join(es, os, ek, ok).leftExpected, ek, None) == Group(es, ek, None)
    ensures Group(Join(es, os, ek, ok).leftObserved, ok, None) == Group(os, ok, None)
    decreases |es| + |os|
  {
    if es != [] && os != [] {
      var a, b := ek(es[0]), ok(os[0]);
      if LeaveFirst(a, b) {
        JoinNoKey(es[1..], os, ek, ok);
        ThenGroups(LeaveExpected(es[0]), Join(es[1..], os, ek, ok), ek, ok, None);
        assert [es[0]][1..] == [];
      } else if LeaveFirst(b, a) {
        JoinNoKey(es, os[1..], ek, ok);
        ThenGroups(LeaveObserved(os[0]), Join(es, os[1..], ek, ok), ek, ok, None);
        assert [os[0]][1..] == [];
      } else {
        NeitherLeaves(a, b);
        var m, n := Leading(es, ek, a), Leading(os, ok, a);
        JoinNoKey(es[m..], os[n..], ek, ok);
        ThenGroups(Matched(a.value, es[..m], os[..n]), Join(es[m..], os[n..], ek, ok), ek, ok, None);
        LeadingNoKey(es, ek, a, Min(m, n));
        LeadingNoKey(os, ok, a, Min(m, n));
      }
    }
  }

  lemma LeadingNoKey<T>(s: seq<T>, key: T -> Key, a: Key, p: nat)
    requires a.Some? && p <= Leading(s, key, a)
    ensures var n := Leading(s, key, a);
      Group(s[..n][p..], key, None) == [] && Group(s, key, None) == Group(s[n..], key, None)
  {
    var n := Leading(s, key, a);
    LeadingBound(s, key, a, n);
    SplitAt(s, n);
    GroupConcat(s[..n], s[n..], key, None);
    GroupNone(s[..n], key, None);
    GroupNone(s[..n][p..], key, None);
  }
}
