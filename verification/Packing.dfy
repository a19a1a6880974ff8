/** Greedy packing of a section's elements into chunks, with overlap, and what it guarantees. */
module Packing {
  import opened Ordering
  import opened Tokenizer
  import opened Chunks

  /**
  A chunk: a piece of a split element, or whole elements of which the first `repeated` come from the previous chunk.
  */
  datatype Chunk = Chunk(piece: bool, repeated: nat, parts: seq<Positioned>)

  const EMPTY := Chunk(false, 0, [])

  // ----- the overlap

  /** Where the longest suffix of `group[..n]` that costs at most `budget` starts. */
  function TailStart(group: seq<Positioned>, n: nat, budget: int): (s: nat)
    requires n <= |group|
    ensures s <= n
  {
    if n == 0 || Count(group[n - 1].element.text) > budget then n
    else TailStart(group, n - 1, budget - Count(group[n - 1].element.text))
  }

  /** `_overlap_tail` */
  function OverlapTail(group: seq<Positioned>, overlap: int): seq<Positioned> {
    if overlap <= 0 then [] else group[TailStart(group, |group|, overlap)..]
  }

  lemma CostSnoc(group: seq<Positioned>, k: nat, n: nat)
    requires k < n <= |group|
    ensures Cost(group[k..n]) == Cost(group[k..n - 1]) + Count(group[n - 1].element.text)
  {
    hide Count;
    assert group[k..n] == group[k..n - 1] + [group[n - 1]];
    CostConcat(group[k..n - 1], [group[n - 1]]);
    CostOne(group[n - 1]);
  }

  lemma {:induction false} TailStartCost(group: seq<Positioned>, n: nat, budget: nat)
    requires n <= |group|
    ensures Cost(group[TailStart(group, n, budget)..n]) <= budget
  {
    hide Count;
    if n > 0 && Count(group[n - 1].element.text) <= budget {
      TailStartCost(group, n - 1, budget - Count(group[n - 1].element.text));
      CostSnoc(group, TailStart(group, n, budget), n);
    }
  }

  lemma TailCost(group: seq<Positioned>, overlap: nat)
    ensures Cost(OverlapTail(group, overlap)) <= overlap
  {
    TailStartCost(group, |group|, overlap);
    var s := TailStart(group, |group|, overlap);
    assert group[s..|group|] == group[s..];
  }

  lemma {:induction false} TailStartLeast(group: seq<Positioned>, n: nat, budget: nat, k: nat)
    requires k <= n <= |group| && Cost(group[k..n]) <= budget
    ensures TailStart(group, n, budget) <= k
  {
    hide Count;
    if k < n {
      CostSnoc(group, k, n);
      TailStartLeast(group, n - 1, budget - Count(group[n - 1].element.text), k);
    }
  }

  /** What is repeated is the end of the group, and nothing without a positive overlap. */
  lemma TailIsSuffix(group: seq<Positioned>, overlap: int)
    ensures var tail := OverlapTail(group, overlap);
      |tail| <= |group| && tail == group[|group| - |tail|..] && (overlap <= 0 ==> tail == [])
  {
  }

  /** A positive overlap repeats the longest suffix that fits. */
  lemma TailLongest(group: seq<Positioned>, overlap: nat, k: nat)
    requires overlap > 0 && k <= |group| && Cost(group[k..]) <= overlap
    ensures |group[k..]| <= |OverlapTail(group, overlap)|
  {
    assert group[k..|group|] == group[k..];
    TailStartLeast(group, |group|, overlap, k);
  }

  // ----- packing one section

  function Open(group: Chunk): seq<Chunk> {
    if group.parts == [] then [] else [group]
  }

  function Singles(pieces: seq<Positioned>): (r: seq<Chunk>)
    ensures |r| == |pieces| && forall i :: 0 <= i < |r| ==> r[i] == Chunk(true, 0, [pieces[i]])
  {
    seq(|pieces|, i requires 0 <= i < |pieces| => Chunk(true, 0, [pieces[i]]))
  }

  function With(group: Chunk, item: Positioned): Chunk {
    group.(parts := group.parts + [item])
  }

  function AfterOverflow(group: Chunk, overlap: int): Chunk {
    var tail := OverlapTail(group.parts, overlap);
    Chunk(false, |tail|, tail)
  }

  /** One item, under the split policy: the chunks it closes, and the group it leaves open. */
  function PackOne(item: Positioned, group: Chunk, maxTokens: nat, overlap: int): (seq<Chunk>, Chunk)
    requires maxTokens > 0
  {
    var cost := Count(item.element.text);
    if cost > maxTokens then (Open(group) + Singles(SplitPieces(item, maxTokens)), EMPTY)
    else if group.parts != [] && Cost(group.parts) + cost > maxTokens
      then ([group], With(AfterOverflow(group, overlap), item))
    else ([], With(group, item))
  }

  function Pack(items: seq<Positioned>, group: Chunk, maxTokens: nat, overlap: int): seq<Chunk>
    requires maxTokens > 0
    decreases |items|
  {
    if items == [] then Open(group)
    else
      var (closed, next) := PackOne(items[0], group, maxTokens, overlap);
      closed + Pack(items[1..], next, maxTokens, overlap)
  }

  // ----- nothing lost, nothing reordered

  /** The whole elements and pieces a section is made of. */
  function Units(items: seq<Positioned>, maxTokens: nat): seq<Positioned>
    requires maxTokens > 0
  {
    if items == [] then []
    else (if Count(items[0].element.text) > maxTokens then SplitPieces(items[0], maxTokens)
      else [items[0]]) + Units(items[1..], maxTokens)
  }

  function Fresh(c: Chunk): seq<Positioned> {
    if c.repeated <= |c.parts| then c.parts[c.repeated..] else []
  }

  function FreshParts(chunks: seq<Chunk>): seq<Positioned> {
    if chunks == [] then [] else Fresh(chunks[0]) + FreshParts(chunks[1..])
  }

  lemma {:induction false} FreshConcat(a: seq<Chunk>, b: seq<Chunk>)
    ensures FreshParts(a + b) == FreshParts(a) + FreshParts(b)
  {
    if a == [] {
      assert a + b == b;
    } else {
      assert (a + b)[1..] == a[1..] + b;
      FreshConcat(a[1..], b);
    }
  }

  lemma {:induction false} FreshSingles(pieces: seq<Positioned>)
    ensures FreshParts(Singles(pieces)) == pieces
  {
    if pieces != [] {
      assert Singles(pieces)[1..] == Singles(pieces[1..]);
      FreshSingles(pieces[1..]);
      assert Fresh(Singles(pieces)[0]) == [pieces[0]];
      assert [pieces[0]] + pieces[1..] == pieces;
    }
  }

  lemma FreshOpen(group: Chunk)
    requires group.repeated <= |group.parts|
    ensures FreshParts(Open(group)) == Fresh(group)
  {
    assert FreshParts([]) == [];
    assert [group][1..] == [];
  }

  lemma FreshWith(group: Chunk, item: Positioned)
    requires group.repeated <= |group.parts|
    ensures Fresh(With(group, item)) == Fresh(group) + [item]
  {
  }

  lemma UnitsOne(item: Positioned, maxTokens: nat)
    requires maxTokens > 0
    ensures Units([item], maxTokens) == if Count(item.element.text) > maxTokens then SplitPieces(item, maxTokens)
      else [item]
  {
    hide Count, SplitPieces;
    assert [item][1..] == [] && Units([], maxTokens) == [];
  }

  lemma SplitFresh(pieces: seq<Positioned>, group: Chunk)
    requires group.repeated <= |group.parts|
    ensures FreshParts(Open(group) + Singles(pieces)) + Fresh(EMPTY) == Fresh(group) + pieces
  {
    FreshOpen(group);
    FreshSingles(pieces);
    hide FreshParts, Singles;
    FreshConcat(Open(group), Singles(pieces));
    assert Fresh(EMPTY) == [];
  }

  lemma OverflowFresh(item: Positioned, group: Chunk, overlap: int)
    requires group.repeated <= |group.parts| && group.parts != []
    ensures var next := With(AfterOverflow(group, overlap), item);
      next.repeated <= |next.parts| && FreshParts([group]) + Fresh(next) == Fresh(group) + [item]
  {
    hide OverlapTail;
    FreshOpen(group);
    FreshWith(AfterOverflow(group, overlap), item);
    assert Fresh(AfterOverflow(group, overlap)) == [];
  }

  lemma GrowFresh(item: Positioned, group: Chunk)
    requires group.repeated <= |group.parts|
    ensures var next := With(group, item);
      next.repeated <= |next.parts| && FreshParts([]) + Fresh(next) == Fresh(group) + [item]
  {
    FreshWith(group, item);
  }

  lemma PackOneFresh(item: Positioned, group: Chunk, maxTokens: nat, overlap: int)
    requires maxTokens > 0 && group.repeated <= |group.parts|
    ensures var (closed, next) := PackOne(item, group, maxTokens, overlap);
      && next.repeated <= |next.parts|
      && FreshParts(closed) + Fresh(next) == Fresh(group) + Units([item], maxTokens)
  {
    hide Count, SplitPieces, AfterOverflow, With, Cost, FreshParts, Fresh, Units, Singles;
    UnitsOne(item, maxTokens);
    if Count(item.element.text) > maxTokens {
      SplitFresh(SplitPieces(item, maxTokens), group);
    } else if group.parts != [] && Cost(group.parts) + Count(item.element.text) > maxTokens {
      OverflowFresh(item, group, overlap);
    } else {
      GrowFresh(item, group);
    }
  }

  /** Dropping the repeated parts recovers the section's elements and pieces, in order. */
  lemma {:induction false} PackFresh(items: seq<Positioned>, group: Chunk, maxTokens: nat, overlap: int)
    requires maxTokens > 0 && group.repeated <= |group.parts|
    ensures FreshParts(Pack(items, group, maxTokens, overlap)) == Fresh(group) + Units(items, maxTokens)
    decreases |items|
  {
    if items == [] {
      FreshOpen(group);
    } else {
      hide Count, PackOne, Fresh;
      var (closed, next) := PackOne(items[0], group, maxTokens, overlap);
      PackOneFresh(items[0], group, maxTokens, overlap);
      PackFresh(items[1..], next, maxTokens, overlap);
      FreshConcat(closed, Pack(items[1..], next, maxTokens, overlap));
      UnitsCons(items[0], items[1..], maxTokens);
      assert [items[0]] + items[1..] == items;
      Reassociate(FreshParts(closed), Fresh(next), Fresh(group), Units([items[0]], maxTokens),
        Units(items[1..], maxTokens));
    }
  }

  lemma UnitsCons(item: Positioned, items: seq<Positioned>, maxTokens: nat)
    requires maxTokens > 0
    ensures Units([item] + items, maxTokens) == Units([item], maxTokens) + Units(items, maxTokens)
  {
    assert ([item] + items)[1..] == items && [item][1..] == [];
    assert Units([], maxTokens) == [];
  }

  lemma Reassociate<T>(a: seq<T>, b: seq<T>, c: seq<T>, d: seq<T>, e: seq<T>)
    requires a + b == c + d
    ensures a + (b + e) == c + (d + e)
  {
    assert a + (b + e) == (a + b) + e;
    assert c + (d + e) == (c + d) + e;
  }

  // ----- sizes

  /** A chunk has something of its own, and exceeds `maxTokens` by at most what it repeats. */
  ghost predicate SizeOk(c: Chunk, maxTokens: nat, overlap: int) {
    && c.repeated < |c.parts|
    && Cost(c.parts) <= maxTokens + Cost(c.parts[..c.repeated])
    && Cost(c.parts[..c.repeated]) <= (if overlap > 0 then overlap else 0)
    && (c.piece ==> |c.parts| == 1 && c.repeated == 0)
  }

  ghost predicate GroupOk(c: Chunk, maxTokens: nat, overlap: int) {
    c == EMPTY || (SizeOk(c, maxTokens, overlap) && !c.piece)
  }

  lemma PieceSizes(doc: string, item: Positioned, maxTokens: nat, overlap: int)
    requires maxTokens > 0 && Count(item.element.text) > maxTokens && PartAt(doc, item)
    ensures forall c :: c in Singles(SplitPieces(item, maxTokens)) ==> SizeOk(c, maxTokens, overlap)
  {
    PiecesOk(doc, item, maxTokens, 0);
    var pieces := SplitPieces(item, maxTokens);
    hide Count, PiecesFrom;
    forall c | c in Singles(pieces) ensures SizeOk(c, maxTokens, overlap) {
      var i :| 0 <= i < |pieces| && c == Chunk(true, 0, [pieces[i]]);
      assert pieces[i] in pieces;
      CostOne(pieces[i]);
      assert c.parts[..0] == [];
    }
  }

  lemma OverflowSize(group: Chunk, item: Positioned, maxTokens: nat, overlap: int)
    requires Count(item.element.text) <= maxTokens
    ensures SizeOk(With(AfterOverflow(group, overlap), item), maxTokens, overlap)
  {
    var tail := OverlapTail(group.parts, overlap);
    if overlap > 0 { TailCost(group.parts, overlap); }
    hide Count, OverlapTail;
    CostConcat(tail, [item]);
    CostOne(item);
    assert (tail + [item])[..|tail|] == tail;
  }

  lemma GrowSize(group: Chunk, item: Positioned, maxTokens: nat, overlap: int)
    requires GroupOk(group, maxTokens, overlap) && Cost(group.parts) + Count(item.element.text) <= maxTokens
    ensures SizeOk(With(group, item), maxTokens, overlap) && !With(group, item).piece
  {
    hide Count;
    CostConcat(group.parts, [item]);
    CostOne(item);
    assert (group.parts + [item])[..group.repeated] == group.parts[..group.repeated];
  }

  lemma PackOneSizes(doc: string, item: Positioned, group: Chunk, maxTokens: nat, overlap: int)
    requires maxTokens > 0 && PartAt(doc, item) && GroupOk(group, maxTokens, overlap)
    ensures var (closed, next) := PackOne(item, group, maxTokens, overlap);
      GroupOk(next, maxTokens, overlap) && forall c :: c in closed ==> SizeOk(c, maxTokens, overlap)
  {
    hide Count, SizeOk, SplitPieces, PartAt;
    if Count(item.element.text) > maxTokens {
      PieceSizes(doc, item, maxTokens, overlap);
    } else if group.parts != [] && Cost(group.parts) + Count(item.element.text) > maxTokens {
      OverflowSize(group, item, maxTokens, overlap);
    } else {
      GrowSize(group, item, maxTokens, overlap);
    }
  }

  /** Every chunk of a section is within its size bound. */
  lemma {:induction false} PackSizes(doc: string, items: seq<Positioned>, group: Chunk, maxTokens: nat, overlap: int)
    requires maxTokens > 0 && (forall i :: 0 <= i < |items| ==> PartAt(doc, items[i]))
      && GroupOk(group, maxTokens, overlap)
    ensures forall c :: c in Pack(items, group, maxTokens, overlap) ==> SizeOk(c, maxTokens, overlap)
    decreases |items|
  {
    hide Count, SizeOk, PartAt, PackOne;
    if items != [] {
      PackOneSizes(doc, items[0], group, maxTokens, overlap);
      var (closed, next) := PackOne(items[0], group, maxTokens, overlap);
      PackSizes(doc, items[1..], next, maxTokens, overlap);
    }
  }

  // ----- the overlap chain

  /**
  How a chunk may follow the previous one of its section: it repeats the overlap, and its first new element no longer
  fitted.
  */
  ghost predicate Follows(prev: Option<Chunk>, c: Chunk, maxTokens: nat, overlap: int) {
    if prev.None? || prev.value.piece || c.piece then c.repeated == 0
    else
      && c.repeated < |c.parts| && c.parts[..c.repeated] == OverlapTail(prev.value.parts, overlap)
      && Cost(prev.value.parts) + Count(c.parts[c.repeated].element.text) > maxTokens
  }

  ghost predicate Chained(prev: Option<Chunk>, chunks: seq<Chunk>, maxTokens: nat, overlap: int)
    decreases |chunks|
  {
    chunks == [] || (Follows(prev, chunks[0], maxTokens, overlap)
      && Chained(Some(chunks[0]), chunks[1..], maxTokens, overlap))
  }

  function Last(prev: Option<Chunk>, chunks: seq<Chunk>): Option<Chunk> {
    if chunks == [] then prev else Some(chunks[|chunks| - 1])
  }

  lemma {:induction false} ChainedConcat(prev: Option<Chunk>, a: seq<Chunk>, b: seq<Chunk>, maxTokens: nat,
                                         overlap: int)
    requires Chained(prev, a, maxTokens, overlap) && Chained(Last(prev, a), b, maxTokens, overlap)
    ensures Chained(prev, a + b, maxTokens, overlap)
    decreases |a|
  {
    hide Follows;
    if a == [] {
      assert a + b == b;
    } else {
      assert (a + b)[1..] == a[1..] + b;
      ChainedConcat(Some(a[0]), a[1..], b, maxTokens, overlap);
    }
  }

  lemma {:induction false} SinglesChained(prev: Option<Chunk>, pieces: seq<Positioned>, maxTokens: nat, overlap: int)
    ensures Chained(prev, Singles(pieces), maxTokens, overlap)
    decreases |pieces|
  {
    if pieces != [] {
      assert Singles(pieces)[1..] == Singles(pieces[1..]);
      SinglesChained(Some(Singles(pieces)[0]), pieces[1..], maxTokens, overlap);
    }
  }

  /** An open group that may follow `prev`: empty only where nothing can be repeated. */
  ghost predicate MayFollow(prev: Option<Chunk>, group: Chunk, maxTokens: nat, overlap: int) {
    && !group.piece
    && if group.parts == [] then group.repeated == 0 && (prev.None? || prev.value.piece)
      else Follows(prev, group, maxTokens, overlap)
  }

  lemma SplitNotEmpty(item: Positioned, maxTokens: nat)
    requires maxTokens > 0
    ensures SplitPieces(item, maxTokens) != []
  {
  }

  lemma PackOneChained(prev: Option<Chunk>, item: Positioned, group: Chunk, maxTokens: nat, overlap: int)
    requires maxTokens > 0 && MayFollow(prev, group, maxTokens, overlap)
    ensures var (closed, next) := PackOne(item, group, maxTokens, overlap);
      Chained(prev, closed, maxTokens, overlap) && MayFollow(Last(prev, closed), next, maxTokens, overlap)
  {
    hide Count, OverlapTail;
    if Count(item.element.text) > maxTokens {
      var pieces := SplitPieces(item, maxTokens);
      SplitNotEmpty(item, maxTokens);
      assert [group][1..] == [];
      assert Chained(prev, Open(group), maxTokens, overlap);
      SinglesChained(Last(prev, Open(group)), pieces, maxTokens, overlap);
      ChainedConcat(prev, Open(group), Singles(pieces), maxTokens, overlap);
    } else if group.parts != [] && Cost(group.parts) + Count(item.element.text) > maxTokens {
      assert [group][1..] == [];
      var tail := OverlapTail(group.parts, overlap);
      assert (tail + [item])[..|tail|] == tail;
    } else if group.repeated <= |group.parts| {
      assert (group.parts + [item])[..group.repeated] == group.parts[..group.repeated];
      assert group.repeated < |group.parts| ==> (group.parts + [item])[group.repeated] == group.parts[group.repeated];
    }
  }

  /** Within a section each chunk repeats exactly the overlap of the one before, unless one of them is a split piece. */
  lemma {:induction false} PackChained(prev: Option<Chunk>, items: seq<Positioned>, group: Chunk, maxTokens: nat,
                                       overlap: int)
    requires maxTokens > 0 && MayFollow(prev, group, maxTokens, overlap)
    ensures Chained(prev, Pack(items, group, maxTokens, overlap), maxTokens, overlap)
    decreases |items|
  {
    hide Count, PackOne, Follows;
    if items == [] {
      assert [group][1..] == [];
    } else {
      PackOneChained(prev, items[0], group, maxTokens, overlap);
      var (closed, next) := PackOne(items[0], group, maxTokens, overlap);
      PackChained(Last(prev, closed), items[1..], next, maxTokens, overlap);
      ChainedConcat(prev, closed, Pack(items[1..], next, maxTokens, overlap), maxTokens, overlap);
    }
  }

  // ----- place in the document

  lemma LinkedSuffix(doc: string, parts: seq<Positioned>, k: nat)
    requires Linked(doc, parts) && k <= |parts|
    ensures Linked(doc, parts[k..])
  {
    hide PartAt, SeparatedAt;
    var s := parts[k..];
    assert forall i :: 0 <= i < |s| ==> s[i] == parts[k + i];
  }

  lemma LinkedPrefix(doc: string, a: seq<Positioned>, b: seq<Positioned>)
    requires Linked(doc, a + b)
    ensures Linked(doc, a) && Linked(doc, b)
  {
    LinkedSuffix(doc, a + b, |a|);
    assert (a + b)[|a|..] == b;
    hide PartAt, SeparatedAt;
    assert forall i :: 0 <= i < |a| ==> (a + b)[i] == a[i];
  }

  lemma SuffixLinked(doc: string, group: seq<Positioned>, k: nat, rest: seq<Positioned>)
    requires k <= |group| && Linked(doc, group + rest)
    ensures Linked(doc, group[k..] + rest)
  {
    LinkedSuffix(doc, group + rest, k);
    hide Linked;
    assert (group + rest)[k..] == group[k..] + rest;
  }

  lemma OverlapLinked(doc: string, group: Chunk, overlap: int, item: Positioned, items: seq<Positioned>)
    requires Linked(doc, group.parts + ([item] + items))
    ensures Linked(doc, With(AfterOverflow(group, overlap), item).parts + items)
  {
    var tail := OverlapTail(group.parts, overlap);
    var k := if overlap <= 0 then |group.parts| else TailStart(group.parts, |group.parts|, overlap);
    SuffixLinked(doc, group.parts, k, [item] + items);
    hide Linked, TailStart;
    assert tail == group.parts[k..];
    Regroup(tail, item, items);
  }

  lemma Regroup(a: seq<Positioned>, item: Positioned, b: seq<Positioned>)
    ensures a + ([item] + b) == (a + [item]) + b
  {
  }

  lemma PackOneLinked(doc: string, item: Positioned, items: seq<Positioned>, group: Chunk, maxTokens: nat, overlap: int)
    requires maxTokens > 0 && Linked(doc, group.parts + ([item] + items))
    ensures var (closed, next) := PackOne(item, group, maxTokens, overlap);
      && (forall c :: c in closed ==> Linked(doc, c.parts))
      && Linked(doc, next.parts + items)
  {
    LinkedPrefix(doc, group.parts, [item] + items);
    LinkedPrefix(doc, [item], items);
    assert PartAt(doc, [item][0]);
    OverlapLinked(doc, group, overlap, item, items);
    Regroup(group.parts, item, items);
    hide Count, Linked, PartAt, AfterOverflow;
    if Count(item.element.text) > maxTokens {
      PiecesOk(doc, item, maxTokens, 0);
      PiecesLinked(doc, item, maxTokens);
      assert [] + items == items;
    }
  }

  lemma PiecesLinked(doc: string, item: Positioned, maxTokens: nat)
    requires maxTokens > 0 && Count(item.element.text) > maxTokens
    requires forall q :: q in PiecesFrom(item, maxTokens, 0) ==> PieceOk(doc, item, maxTokens, q)
    ensures forall c :: c in Singles(SplitPieces(item, maxTokens)) ==> Linked(doc, c.parts)
  {
    var pieces := SplitPieces(item, maxTokens);
    hide Count, PiecesFrom, PartAt;
    forall c | c in Singles(pieces) ensures Linked(doc, c.parts) {
      var i :| 0 <= i < |pieces| && c == Chunk(true, 0, [pieces[i]]);
      assert pieces[i] in pieces;
    }
  }

  /** Every chunk is a contiguous stretch of the document at its offsets. */
  lemma {:induction false} PackLinked(doc: string, items: seq<Positioned>, group: Chunk, maxTokens: nat, overlap: int)
    requires maxTokens > 0 && Linked(doc, group.parts + items)
    ensures forall c :: c in Pack(items, group, maxTokens, overlap) ==> Linked(doc, c.parts)
    decreases |items|
  {
    hide Count, Linked, PackOne;
    if items == [] {
      assert group.parts + items == group.parts;
    } else {
      assert items == [items[0]] + items[1..];
      PackOneLinked(doc, items[0], items[1..], group, maxTokens, overlap);
      var (closed, next) := PackOne(items[0], group, maxTokens, overlap);
      PackLinked(doc, items[1..], next, maxTokens, overlap);
    }
  }

  // ----- what a chunk's parts have in common

  /** Every part passes the test. */
  ghost predicate AllPass(parts: seq<Positioned>, test: Element -> bool) {
    forall i :: 0 <= i < |parts| ==> test(parts[i].element)
  }

  /** Splitting an element, which changes its text only, does not change what the test says. */
  ghost predicate IgnoresText(test: Element -> bool) {
    forall e: Element, text: string :: test(e.(text := text)) == test(e)
  }

  lemma {:induction false} PiecesPass(p: Positioned, maxTokens: nat, from: nat, test: Element -> bool)
    requires maxTokens > 0 && IgnoresText(test) && test(p.element)
    ensures AllPass(PiecesFrom(p, maxTokens, from), test)
    decreases Count(p.element.text) - from
  {
    hide Count;
    if from < Count(p.element.text) {
      PiecesPass(p, maxTokens, from + maxTokens, test);
    }
  }

  lemma SinglesPass(item: Positioned, maxTokens: nat, test: Element -> bool)
    requires maxTokens > 0 && IgnoresText(test) && test(item.element)
    ensures forall c :: c in Singles(SplitPieces(item, maxTokens)) ==> AllPass(c.parts, test)
  {
    PiecesPass(item, maxTokens, 0, test);
    hide Count;
  }

  lemma TailPasses(group: Chunk, overlap: int, item: Positioned, test: Element -> bool)
    requires test(item.element) && AllPass(group.parts, test)
    ensures AllPass(With(AfterOverflow(group, overlap), item).parts, test)
  {
    hide TailStart;
  }

  lemma PackOnePasses(item: Positioned, group: Chunk, maxTokens: nat, overlap: int, test: Element -> bool)
    requires maxTokens > 0 && IgnoresText(test) && test(item.element) && AllPass(group.parts, test)
    ensures var (closed, next) := PackOne(item, group, maxTokens, overlap);
      AllPass(next.parts, test) && forall c :: c in closed ==> AllPass(c.parts, test)
  {
    SinglesPass(item, maxTokens, test);
    TailPasses(group, overlap, item, test);
    hide Count, AfterOverflow, SplitPieces, IgnoresText;
  }

  /** What holds of all elements of a section, whatever their text, holds of all parts of its chunks. */
  lemma {:induction false} PackPasses(items: seq<Positioned>, group: Chunk, maxTokens: nat, overlap: int,
                                      test: Element -> bool)
    requires maxTokens > 0 && IgnoresText(test) && AllPass(items, test) && AllPass(group.parts, test)
    ensures forall c :: c in Pack(items, group, maxTokens, overlap) ==> AllPass(c.parts, test)
    decreases |items|
  {
    hide Count, PackOne, IgnoresText;
    if items != [] {
      PackOnePasses(items[0], group, maxTokens, overlap, test);
      var (closed, next) := PackOne(items[0], group, maxTokens, overlap);
      PackPasses(items[1..], next, maxTokens, overlap, test);
    }
  }

  ghost predicate UnderHeading(parts: seq<Positioned>, path: seq<string>) {
    forall i :: 0 <= i < |parts| ==> parts[i].element.headingPath == path
  }

  lemma PackUnderHeading(items: seq<Positioned>, group: Chunk, maxTokens: nat, overlap: int, path: seq<string>)
    requires maxTokens > 0 && UnderHeading(items, path) && UnderHeading(group.parts, path)
    ensures forall c :: c in Pack(items, group, maxTokens, overlap) ==> UnderHeading(c.parts, path)
  {
    hide Pack;
    var test := (e: Element) => e.headingPath == path;
    PackPasses(items, group, maxTokens, overlap, test);
    forall c | c in Pack(items, group, maxTokens, overlap) ensures UnderHeading(c.parts, path) {
      assert AllPass(c.parts, test);
    }
  }
}
