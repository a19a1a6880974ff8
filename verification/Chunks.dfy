/** Elements placed in the document text, and how the structure-aware chunkers pack them. */
module Chunks {
  import opened Ordering
  import opened Tokenizer

  datatype ElementKind = Table | OtherKind(name: string)

  datatype Element = Element(
    id: string,
    kind: ElementKind,
    text: string,
    page: Option<nat>,
    headingPath: seq<string>,
    tableCaption: Option<string>,
    tableHeader: Option<string>)

  /** An element and where its text lies in the document text. */
  datatype Positioned = Positioned(element: Element, start: nat, end: nat)

  // ----- placement

  /** The elements from offset `at` on, two separator characters apart. */
  function Place(elements: seq<Element>, at: nat): (r: seq<Positioned>)
    ensures |r| == |elements| && forall i :: 0 <= i < |r| ==> r[i].element == elements[i]
  {
    if elements == [] then []
    else
      var end := at + |elements[0].text|;
      [Positioned(elements[0], at, end)] + Place(elements[1..], end + 2)
  }

  lemma {:induction false} PlaceSnoc(elements: seq<Element>, e: Element, at: nat)
    ensures Place(elements + [e], at) ==
      Place(elements, at) + [Positioned(e, NextOffset(elements, at), NextOffset(elements, at) + |e.text|)]
    ensures NextOffset(elements + [e], at) == NextOffset(elements, at) + |e.text| + 2
  {
    if elements == [] {
      assert elements + [e] == [e] && [e][1..] == [];
    } else {
      assert (elements + [e])[1..] == elements[1..] + [e];
      PlaceSnoc(elements[1..], e, at + |elements[0].text| + 2);
    }
  }

  function NextOffset(elements: seq<Element>, at: nat): nat {
    if elements == [] then at else NextOffset(elements[1..], at + |elements[0].text| + 2)
  }

  /** `"\n\n".join(...)` over the parts' texts. */
  function JoinTexts(parts: seq<Positioned>): string {
    if parts == [] then ""
    else if |parts| == 1 then parts[0].element.text
    else parts[0].element.text + SEPARATOR + JoinTexts(parts[1..])
  }

  ghost predicate PartAt(doc: string, p: Positioned) {
    p.start <= p.end <= |doc| && doc[p.start..p.end] == p.element.text
  }

  /** The parts lie in the document at their offsets, each right after its predecessor and the separator. */
  ghost predicate Linked(doc: string, parts: seq<Positioned>) {
    && (forall i :: 0 <= i < |parts| ==> PartAt(doc, parts[i]))
    && (forall i :: 0 < i < |parts| ==> SeparatedAt(doc, parts[i - 1].end, parts[i].start))
  }

  ghost predicate SeparatedAt(doc: string, end: nat, start: nat) {
    start == end + 2 <= |doc| && doc[end..start] == "\n\n"
  }

  lemma {:induction false} PlaceLinked(pre: string, elements: seq<Element>)
    ensures Linked(pre + JoinTexts(Place(elements, |pre|)), Place(elements, |pre|))
    decreases |elements|
  {
    if elements != [] {
      var t := elements[0].text;
      var placed := Place(elements, |pre|);
      var doc := pre + JoinTexts(placed);
      if |elements| == 1 {
        assert doc[|pre|..|pre| + |t|] == t;
      } else {
        var pre' := pre + t + SEPARATOR;
        var rest := Place(elements[1..], |pre'|);
        PlaceLinked(pre', elements[1..]);
        assert placed[1..] == rest;
        assert doc == pre' + JoinTexts(rest);
        assert doc[|pre|..|pre| + |t|] == t;
        assert doc[|pre| + |t|..|pre'|] == SEPARATOR;
        LinkedCons(doc, placed[0], rest);
        assert placed == [placed[0]] + rest;
      }
    }
  }

  lemma LinkedCons(doc: string, p: Positioned, parts: seq<Positioned>)
    requires PartAt(doc, p) && Linked(doc, parts) && (parts != [] ==> SeparatedAt(doc, p.end, parts[0].start))
    ensures Linked(doc, [p] + parts)
  {
    hide PartAt, SeparatedAt;
  }

  /** Slicing the document at the first part's start and the last part's end gives the joined texts. */
  lemma {:induction false} LinkedSlice(doc: string, parts: seq<Positioned>)
    requires Linked(doc, parts) && parts != []
    ensures parts[0].start <= parts[|parts| - 1].end <= |doc|
    ensures doc[parts[0].start..parts[|parts| - 1].end] == JoinTexts(parts)
  {
    if |parts| > 1 {
      assert parts[1..][|parts| - 2] == parts[|parts| - 1];
      LinkedTail(doc, parts);
      LinkedSlice(doc, parts[1..]);
      assert SeparatedAt(doc, parts[0].end, parts[1].start) && PartAt(doc, parts[0]);
      ThreeSlices(doc, parts[0].start, parts[0].end, parts[1].start, parts[|parts| - 1].end);
    } else {
      assert PartAt(doc, parts[0]);
    }
  }

  lemma ThreeSlices(doc: string, a: nat, b: nat, c: nat, d: nat)
    requires a <= b <= c <= d <= |doc|
    ensures doc[a..d] == doc[a..b] + doc[b..c] + doc[c..d]
  {
  }

  lemma LinkedTail(doc: string, parts: seq<Positioned>)
    requires Linked(doc, parts) && parts != []
    ensures Linked(doc, parts[1..])
  {
    hide PartAt, SeparatedAt;
    assert forall i :: 0 < i < |parts[1..]| ==> parts[1..][i - 1] == parts[i] && parts[1..][i] == parts[i + 1];
  }

  // ----- token cost

  function Cost(parts: seq<Positioned>): nat {
    if parts == [] then 0 else Count(parts[0].element.text) + Cost(parts[1..])
  }

  lemma {:induction false} CostConcat(a: seq<Positioned>, b: seq<Positioned>)
    ensures Cost(a + b) == Cost(a) + Cost(b)
  {
    hide Count;
    if a == [] {
      assert a + b == b;
    } else {
      assert (a + b)[1..] == a[1..] + b;
      CostConcat(a[1..], b);
    }
  }

  lemma CostOne(p: Positioned)
    ensures Cost([p]) == Count(p.element.text)
  {
    assert [p][1..] == [];
  }

  /** The joined text has as many tokens as its parts. */
  lemma {:induction false} JoinCost(parts: seq<Positioned>)
    ensures Count(JoinTexts(parts)) == Cost(parts)
  {
    if |parts| > 1 {
      hide Count;
      JoinCost(parts[1..]);
      CountJoin(parts[0].element.text, JoinTexts(parts[1..]));
    }
  }

  // ----- splitting an oversized element

  /** The stretch of an element from token `a` to token `b`. */
  function Piece(p: Positioned, a: nat, b: nat): Positioned
    requires a < b <= Count(p.element.text)
  {
    var text := p.element.text;
    TokenGroup(text, a, b);
    var lo, hi := Matches(text)[a].start, Matches(text)[b - 1].end;
    Positioned(p.element.(text := text[lo..hi]), p.start + lo, p.start + hi)
  }

  function PiecesFrom(p: Positioned, maxTokens: nat, from: nat): seq<Positioned>
    requires maxTokens > 0
    decreases Count(p.element.text) - from
  {
    var n := Count(p.element.text);
    if from >= n then []
    else
      [Piece(p, from, if from + maxTokens <= n then from + maxTokens else n)]
      + PiecesFrom(p, maxTokens, from + maxTokens)
  }

  function SplitPieces(p: Positioned, maxTokens: nat): seq<Positioned>
    requires maxTokens > 0
  {
    if Count(p.element.text) == 0 then [p] else PiecesFrom(p, maxTokens, 0)
  }

  /** What a piece of `p` keeps: its place in the document, its heading, and at most `maxTokens` tokens. */
  ghost predicate PieceOk(doc: string, p: Positioned, maxTokens: nat, q: Positioned) {
    && PartAt(doc, q) && p.start <= q.start <= q.end <= p.end
    && q.element == p.element.(text := q.element.text)
    && 0 < Count(q.element.text) <= maxTokens
  }

  lemma PieceIsOk(doc: string, p: Positioned, maxTokens: nat, a: nat, b: nat)
    requires PartAt(doc, p) && a < b <= Count(p.element.text) && b - a <= maxTokens
    ensures PieceOk(doc, p, maxTokens, Piece(p, a, b))
  {
    var text := p.element.text;
    TokenGroup(text, a, b);
    hide Tokens, Count;
    var lo, hi := Matches(text)[a].start, Matches(text)[b - 1].end;
    assert doc[p.start + lo..p.start + hi] == doc[p.start..p.end][lo..hi];
  }

  lemma {:induction false} PiecesOk(doc: string, p: Positioned, maxTokens: nat, from: nat)
    requires PartAt(doc, p) && maxTokens > 0
    ensures forall q :: q in PiecesFrom(p, maxTokens, from) ==> PieceOk(doc, p, maxTokens, q)
    decreases Count(p.element.text) - from
  {
    hide Count, PartAt, PieceOk, Piece;
    var n := Count(p.element.text);
    if from < n {
      PieceIsOk(doc, p, maxTokens, from, if from + maxTokens <= n then from + maxTokens else n);
      PiecesOk(doc, p, maxTokens, from + maxTokens);
    }
  }

  /** The tokens of an element, as offsets in the document. */
  function TokensOf(p: Positioned): (r: seq<Span>) {
    Shift(Matches(p.element.text), p.start)
  }

  function TokensOfAll(parts: seq<Positioned>): seq<Span> {
    if parts == [] then [] else TokensOf(parts[0]) + TokensOfAll(parts[1..])
  }

  lemma PieceTokens(p: Positioned, a: nat, b: nat)
    requires a < b <= Count(p.element.text)
    ensures |TokensOf(p)| == Count(p.element.text) && TokensOf(Piece(p, a, b)) == TokensOf(p)[a..b]
  {
    var text := p.element.text;
    TokenGroup(text, a, b);
    var ts := Matches(text);
    var lo, hi := ts[a].start, ts[b - 1].end;
    SliceTokens(text, lo, hi);
    hide Tokens;
    var inner := Matches(text[lo..hi]);
    forall k | 0 <= k < b - a ensures TokensOf(Piece(p, a, b))[k] == TokensOf(p)[a..b][k] {
      assert Tokens(text, lo, hi)[k] == ts[a + k];
    }
  }

  /** Splitting keeps every token, at its place, exactly once. */
  lemma {:induction false} PiecesTokens(p: Positioned, maxTokens: nat, from: nat)
    requires maxTokens > 0 && from <= Count(p.element.text)
    ensures |TokensOf(p)| == Count(p.element.text) && TokensOfAll(PiecesFrom(p, maxTokens, from)) == TokensOf(p)[from..]
    decreases Count(p.element.text) - from
  {
    var n := Count(p.element.text);
    assert |TokensOf(p)| == n;
    hide Count, TokensOf, Piece;
    if from < n {
      var b := if from + maxTokens <= n then from + maxTokens else n;
      PieceTokens(p, from, b);
      if from + maxTokens <= n {
        PiecesTokens(p, maxTokens, from + maxTokens);
      } else {
        assert PiecesFrom(p, maxTokens, from + maxTokens) == [];
      }
      TakeThenDrop(TokensOf(p), from, b);
    }
  }

  lemma TakeThenDrop<T>(s: seq<T>, a: nat, b: nat)
    requires a <= b <= |s|
    ensures s[a..b] + s[b..] == s[a..]
  {
  }
}
