/** The token limit against what is yielded: overlap and repeated table headers both go beyond it. */
module TokenLimit {
  import opened Ordering
  import opened StableSort
  import opened Tokenizer
  import opened Chunks
  import opened Packing
  import opened Chunkers
  import opened Candidates
  import opened ChunkGuarantees

  // ----- the tokens of a candidate

  /** A candidate's text has the tokens of its parts and those of the header it repeats. */
  lemma CandidateTokens(parts: seq<Positioned>, ordinal: nat)
    requires parts != []
    ensures Count(BuildCandidate(parts, ordinal).rawText) == Count(RepeatedHeader(parts[0].element)) + Cost(parts)
  {
    var own, header := JoinTexts(parts), RepeatedHeader(parts[0].element);
    JoinCost(parts);
    NoTokens();
    hide Count, JoinTexts, Cost;
    if header == "" {
      assert header + own == own;
    } else {
      var line := parts[0].element.tableHeader.value;
      CountSpaced(line, "\n", own);
      CountSpaced(line, "\n", "");
      assert line + "\n" + "" == header;
    }
  }

  lemma NoTokens()
    ensures Count("") == 0
  {
  }

  /** What the split policy yields stays within the limit. */
  ghost predicate WithinLimit(elements: seq<Element>, maxTokens: nat, overlap: int)
    requires maxTokens > 0
  {
    var chunks := DocumentYield(elements, maxTokens, overlap, Split);
    && NonEmptyChunks(chunks)
    && forall k :: 0 <= k < |chunks| ==> Count(Numbered(chunks)[k].rawText) <= maxTokens
  }

  /** Every candidate stays within the limit, the overlap and the header it repeats. */
  lemma YieldedTokens(elements: seq<Element>, maxTokens: nat, overlap: int, policy: Policy, k: nat)
    requires maxTokens > 0 && k < |DocumentYield(elements, maxTokens, overlap, policy)|
    ensures
      var chunks := DocumentYield(elements, maxTokens, overlap, policy);
      && NonEmptyChunks(chunks) && chunks[k] in chunks
      && Count(Numbered(chunks)[k].rawText) == Count(RepeatedHeader(chunks[k].parts[0].element)) + Cost(chunks[k].parts)
      && Cost(chunks[k].parts) <= maxTokens + (if overlap > 0 then overlap else 0)
  {
    YieldNonEmpty(elements, maxTokens, overlap, policy);
    YieldOk(elements, maxTokens, overlap, policy);
    hide DocumentYield, Numbered, BuildCandidate, Count, Cost, RepeatedHeader, Linked;
    var chunks := DocumentYield(elements, maxTokens, overlap, policy);
    assert chunks[k] in chunks;
    assert ChunkOk(JoinTexts(Place(elements, 0)), chunks[k], maxTokens, overlap);
    NumberedAt(chunks, k);
    CandidateTokens(chunks[k].parts, k);
  }

  // ----- without headers, the limit is hard exactly without overlap

  /** No table header to repeat. */
  predicate Headless(e: Element) {
    !e.kind.Table? || e.tableHeader.None? || e.tableHeader.value == ""
  }

  ghost predicate AllHeadless(elements: seq<Element>) {
    forall i :: 0 <= i < |elements| ==> Headless(elements[i])
  }

  lemma {:induction false} SectionsPass(sections: seq<seq<Positioned>>, maxTokens: nat, overlap: int,
                                        test: Element -> bool)
    requires maxTokens > 0 && IgnoresText(test) && AllPass(Flatten(sections), test)
    ensures forall c :: c in SectionChunks(sections, maxTokens, overlap) ==> AllPass(c.parts, test)
  {
    hide Pack, IgnoresText;
    if sections != [] {
      PassSplit(sections[0], Flatten(sections[1..]), test);
      PackPasses(sections[0], EMPTY, maxTokens, overlap, test);
      SectionsPass(sections[1..], maxTokens, overlap, test);
    }
  }

  lemma PassSplit(a: seq<Positioned>, b: seq<Positioned>, test: Element -> bool)
    requires AllPass(a + b, test)
    ensures AllPass(a, test) && AllPass(b, test)
  {
    assert forall i :: 0 <= i < |a| ==> (a + b)[i] == a[i];
    assert forall i :: 0 <= i < |b| ==> (a + b)[|a| + i] == b[i];
  }

  lemma HeadlessChunks(elements: seq<Element>, maxTokens: nat, overlap: int)
    requires maxTokens > 0 && AllHeadless(elements)
    ensures forall c :: c in DocumentChunks(elements, maxTokens, overlap) ==> AllPass(c.parts, Headless)
  {
    SectionsPartition(Place(elements, 0));
    hide Place, Sections, Flatten, SectionChunks, SectionsOk;
    assert IgnoresText(Headless);
    SectionsPass(Sections(Place(elements, 0)), maxTokens, overlap, Headless);
  }

  lemma WholeDocument(elements: seq<Element>, maxTokens: nat, overlap: int)
    requires maxTokens > 0
    ensures DocumentYield(elements, maxTokens, overlap, Split) == DocumentChunks(elements, maxTokens, overlap)
  {
    hide DocumentChunks;
    assert elements[..|elements|] == elements;
  }

  lemma HeadlessWithin(elements: seq<Element>, maxTokens: nat, overlap: int)
    requires maxTokens > 0 && AllHeadless(elements) && overlap <= 0
    ensures WithinLimit(elements, maxTokens, overlap)
  {
    YieldNonEmpty(elements, maxTokens, overlap, Split);
    HeadlessChunks(elements, maxTokens, overlap);
    WholeDocument(elements, maxTokens, overlap);
    NoTokens();
    hide DocumentYield, DocumentChunks, Numbered, Count, Cost, Strip;
    var chunks := DocumentYield(elements, maxTokens, overlap, Split);
    forall k | 0 <= k < |chunks| ensures Count(Numbered(chunks)[k].rawText) <= maxTokens {
      YieldedTokens(elements, maxTokens, overlap, Split, k);
      assert AllPass(chunks[k].parts, Headless);
      assert Headless(chunks[k].parts[0].element);
    }
  }

  // ----- how far beyond the limit

  /** `n` words of one letter. */
  function Words(c: char, n: nat): string
    requires n > 0
  {
    if n == 1 then [c] else [c] + SEPARATOR + Words(c, n - 1)
  }

  lemma {:induction false} WordsAre(c: char, n: nat)
    requires n > 0 && !IsSpace(c)
    ensures var w := Words(c, n); Count(w) == n && w != "" && w[0] == c && w[|w| - 1] == c
  {
    OneWord(c);
    hide Count;
    if n > 1 {
      WordsAre(c, n - 1);
      CountJoin([c], Words(c, n - 1));
    }
  }

  lemma OneWord(c: char)
    requires !IsSpace(c)
    ensures Count([c]) == 1
  {
    assert RunEnd([c], 1, 1) == 1;
    assert Tokens([c], 1, 1) == [];
  }

  /** A table of `n` words whose header has `h` words; a plain paragraph if `h` is zero. */
  function Block(n: nat, h: nat): Element
    requires n > 0
  {
    if h == 0 then Element("p", OtherKind("paragraph"), Words('a', n), None, [], None, None)
    else Element("t", Table, Words('a', n), None, [], None, Some(Words('b', h)))
  }

  lemma BlockIs(n: nat, h: nat)
    requires n > 0
    ensures Count(Block(n, h).text) == n && Count(RepeatedHeader(Block(n, h))) == h && Block(n, h).headingPath == []
    ensures h == 0 ==> Headless(Block(n, h))
  {
    WordsAre('a', n);
    NoTokens();
    if h > 0 {
      WordsAre('b', h);
      hide Count, Words;
      var header := Words('b', h);
      assert Strip(header) == header && Strip(Words('a', n)) == Words('a', n);
      CountSpaced(header, "\n", "");
      assert header + "\n" + "" == header + "\n";
    }
  }

  lemma PlaceOne(e: Element)
    ensures Place([e], 0) == [Positioned(e, 0, |e.text|)]
  {
    assert [e][1..] == [] && Place([], |e.text| + 2) == [];
  }

  lemma SectionOne(p: Positioned)
    ensures Sections([p]) == [[p]]
  {
    assert [p][..0] == [] && Sections([]) == [];
  }

  lemma PackSingle(p: Positioned, maxTokens: nat, overlap: int)
    requires maxTokens > 0 && Count(p.element.text) <= maxTokens
    ensures Pack([p], EMPTY, maxTokens, overlap) == [Chunk(false, 0, [p])]
  {
    hide Count;
    var g := Chunk(false, 0, [p]);
    assert [p][1..] == [] && [] + [p] == [p];
    assert PackOne(p, EMPTY, maxTokens, overlap) == ([], g);
    assert Pack([], g, maxTokens, overlap) == [g];
  }

  lemma OneChunk(e: Element, maxTokens: nat, overlap: int)
    requires maxTokens > 0 && Count(e.text) <= maxTokens
    ensures DocumentChunks([e], maxTokens, overlap) == [Chunk(false, 0, [Positioned(e, 0, |e.text|)])]
  {
    hide Count, Place, Sections, Pack;
    var p := Positioned(e, 0, |e.text|);
    PlaceOne(e);
    SectionOne(p);
    PackSingle(p, maxTokens, overlap);
    assert [[p]][1..] == [] && SectionChunks([], maxTokens, overlap) == [];
  }

  lemma TwoChunks(e: Element, f: Element, p: Positioned, q: Positioned, maxTokens: nat, overlap: int)
    requires maxTokens > 0 && Place([e, f], 0) == [p, q] && Sections([p, q]) == [[p, q]]
    requires Pack([p, q], EMPTY, maxTokens, overlap) == [Chunk(false, 0, [p]), Chunk(false, 1, [p, q])]
    ensures Chunk(false, 1, [p, q]) in DocumentChunks([e, f], maxTokens, overlap)
  {
    hide Place, Sections, Pack;
    assert [[p, q]][1..] == [] && SectionChunks([], maxTokens, overlap) == [];
  }

  lemma CostTwo(p: Positioned, q: Positioned)
    ensures Cost([p, q]) == Count(p.element.text) + Count(q.element.text)
  {
    hide Count;
    CostConcat([p], [q]);
    CostOne(p);
    CostOne(q);
    assert [p] + [q] == [p, q];
  }

  lemma PlaceTwo(e: Element, f: Element)
    ensures Place([e, f], 0) == [Positioned(e, 0, |e.text|), Positioned(f, |e.text| + 2, |e.text| + 2 + |f.text|)]
  {
    assert [e, f][1..] == [f] && [f][1..] == [];
  }

  lemma SectionTwo(p: Positioned, q: Positioned)
    requires p.element.headingPath == q.element.headingPath
    ensures Sections([p, q]) == [[p, q]]
  {
    assert [p, q][..1] == [p] && [p][..0] == [];
    assert Sections([p]) == [[p]];
    assert [p] + [q] == [p, q];
  }

  lemma PackTwo(p: Positioned, q: Positioned, maxTokens: nat, overlap: int)
    requires 0 < Count(p.element.text) <= maxTokens && Count(p.element.text) <= overlap && Count(q.element.text) ==
      maxTokens
    ensures Pack([p, q], EMPTY, maxTokens, overlap) == [Chunk(false, 0, [p]), Chunk(false, 1, [p, q])]
  {
    hide Count;
    assert [p, q][1..] == [q] && [q][1..] == [];
    CostOne(p);
    assert [] + [p] == [p];
    assert TailStart([p], 1, overlap) == 0;
    assert OverlapTail([p], overlap) == [p];
    assert [p] + [q] == [p, q];
    var g, h := Chunk(false, 0, [p]), Chunk(false, 1, [p, q]);
    assert PackOne(p, EMPTY, maxTokens, overlap) == ([], g);
    assert PackOne(q, g, maxTokens, overlap) == ([g], h);
    assert Pack([], h, maxTokens, overlap) == [h];
    assert Pack([q], g, maxTokens, overlap) == [g] + [h];
  }

  /** A document that exceeds the limit by `m` repeated tokens and `h` header tokens. */
  function Excess(maxTokens: nat, m: nat, h: nat): seq<Element>
    requires maxTokens > 0
  {
    if m == 0 then [Block(maxTokens, h)] else [Block(m, h), Block(maxTokens, 0)]
  }

  lemma ExcessChunk(maxTokens: nat, overlap: int, m: nat, h: nat) returns (c: Chunk)
    requires maxTokens > 0 && m <= maxTokens && (m > 0 ==> m <= overlap)
    ensures c in DocumentChunks(Excess(maxTokens, m, h), maxTokens, overlap) && c.parts != []
    ensures Cost(c.parts) == maxTokens + m && Count(RepeatedHeader(c.parts[0].element)) == h
  {
    BlockIs(maxTokens, h);
    BlockIs(maxTokens, 0);
    hide Block, Count, DocumentChunks, RepeatedHeader;
    if m == 0 {
      var e := Block(maxTokens, h);
      OneChunk(e, maxTokens, overlap);
      c := Chunk(false, 0, [Positioned(e, 0, |e.text|)]);
      CostOne(c.parts[0]);
    } else {
      BlockIs(m, h);
      c := PairChunk(Block(m, h), Block(maxTokens, 0), maxTokens, overlap);
    }
  }

  /** Two blocks that do not fit together, the first small enough to be repeated: a chunk holds both. */
  lemma PairChunk(e: Element, f: Element, maxTokens: nat, overlap: int) returns (c: Chunk)
    requires maxTokens > 0 && e.headingPath == f.headingPath
    requires 0 < Count(e.text) <= maxTokens && Count(e.text) <= overlap && Count(f.text) == maxTokens
    ensures c in DocumentChunks([e, f], maxTokens, overlap) && c.parts != [] && c.parts[0].element == e
    ensures Cost(c.parts) == Count(e.text) + maxTokens
  {
    hide Count, Cost, DocumentChunks, Place, Sections, Pack;
    var p := Positioned(e, 0, |e.text|);
    var q := Positioned(f, p.end + 2, p.end + 2 + |f.text|);
    PlaceTwo(e, f);
    SectionTwo(p, q);
    PackTwo(p, q, maxTokens, overlap);
    TwoChunks(e, f, p, q, maxTokens, overlap);
    CostTwo(p, q);
    c := Chunk(false, 1, [p, q]);
  }

  /** The bound is attained: some candidate of that document has the limit, `m` and `h` tokens together. */
  lemma LimitExceeded(maxTokens: nat, overlap: int, m: nat, h: nat)
    requires maxTokens > 0 && m <= maxTokens && (m > 0 ==> m <= overlap)
    ensures
      var chunks := DocumentYield(Excess(maxTokens, m, h), maxTokens, overlap, Split);
      && NonEmptyChunks(chunks)
      && exists k :: 0 <= k < |chunks| && Count(Numbered(chunks)[k].rawText) == maxTokens + m + h
    ensures h == 0 ==> AllHeadless(Excess(maxTokens, m, h))
  {
    var elements := Excess(maxTokens, m, h);
    if h == 0 {
      BlockIs(maxTokens, 0);
      if m > 0 { BlockIs(m, 0); }
    }
    hide Block, DocumentChunks, DocumentYield, RepeatedHeader, Numbered, Count, Cost;
    var c := ExcessChunk(maxTokens, overlap, m, h);
    WholeDocument(elements, maxTokens, overlap);
    YieldNonEmpty(elements, maxTokens, overlap, Split);
    var chunks := DocumentYield(elements, maxTokens, overlap, Split);
    var k :| 0 <= k < |chunks| && chunks[k] == c;
    YieldedTokens(elements, maxTokens, overlap, Split, k);
  }

  /** With table headers no limit is hard: for every limit and overlap, zero included, some document exceeds it. */
  lemma HeadersExceedLimit(maxTokens: nat, overlap: int)
    requires maxTokens > 0
    ensures exists elements :: !WithinLimit(elements, maxTokens, overlap)
  {
    LimitExceeded(maxTokens, overlap, 0, 1);
    assert !WithinLimit(Excess(maxTokens, 0, 1), maxTokens, overlap);
  }

  /** Over documents without table headers the limit is hard exactly when no overlap is configured. */
  lemma LimitHardIff(maxTokens: nat, overlap: int)
    requires maxTokens > 0
    ensures (forall elements :: AllHeadless(elements) ==> WithinLimit(elements, maxTokens, overlap)) <==> overlap <= 0
  {
    if overlap <= 0 {
      hide WithinLimit;
      forall elements | AllHeadless(elements) ensures WithinLimit(elements, maxTokens, overlap) {
        HeadlessWithin(elements, maxTokens, overlap);
      }
    } else {
      LimitExceeded(maxTokens, overlap, 1, 0);
      assert !WithinLimit(Excess(maxTokens, 1, 0), maxTokens, overlap);
    }
  }
}
