/** What the yielded chunks guarantee over a whole document. */
module ChunkGuarantees {
  import opened Ordering
  import opened StableSort
  import opened Tokenizer
  import opened Chunks
  import opened Packing
  import opened Chunkers
  import opened Candidates

  // ----- text, size and place of each chunk

  lemma DocumentLinked(elements: seq<Element>)
    ensures Linked(JoinTexts(Place(elements, 0)), Place(elements, 0))
  {
    PlaceLinked("", elements);
    hide Linked, Place, JoinTexts;
    assert "" + JoinTexts(Place(elements, 0)) == JoinTexts(Place(elements, 0));
  }

  lemma PrefixLinked(elements: seq<Element>, j: nat)
    requires j <= |elements|
    ensures Linked(JoinTexts(Place(elements, 0)), Place(elements[..j], 0))
  {
    hide Linked, Place, JoinTexts;
    var doc, placed := JoinTexts(Place(elements, 0)), Place(elements, 0);
    DocumentLinked(elements);
    PlacePrefix(elements, 0, j);
    assert placed[..j] + placed[j..] == placed;
    LinkedPrefix(doc, placed[..j], placed[j..]);
  }

  lemma YieldOk(elements: seq<Element>, maxTokens: nat, overlap: int, policy: Policy)
    requires maxTokens > 0
    ensures forall c :: c in DocumentYield(elements, maxTokens, overlap, policy) ==>
      ChunkOk(JoinTexts(Place(elements, 0)), c, maxTokens, overlap)
  {
    hide Linked, Place, Sections, Flatten, ChunkOk, SectionsOk, StopIndex, SectionChunks, JoinTexts;
    var doc, j := JoinTexts(Place(elements, 0)), StopIndex(elements, maxTokens, policy);
    PrefixLinked(elements, j);
    SectionsPartition(Place(elements[..j], 0));
    SectionChunksOk(doc, Sections(Place(elements[..j], 0)), maxTokens, overlap);
  }

  /** What a candidate says of the document text and of its parts. */
  ghost predicate CandidateOk(doc: string, candidate: Candidate, c: Chunk, maxTokens: nat, overlap: int) {
    c.parts != [] && TextOk(doc, candidate, c, maxTokens, overlap) && PartsOk(candidate, c.parts)
  }

  ghost predicate TextOk(doc: string, candidate: Candidate, c: Chunk, maxTokens: nat, overlap: int)
    requires c.parts != []
  {
    var at := candidate.locator;
    && at.characterStart <= at.characterEnd <= |doc|
    && TextWithHeader(candidate.rawText, c.parts[0].element, doc[at.characterStart..at.characterEnd])
    && Count(doc[at.characterStart..at.characterEnd]) <= maxTokens + (if overlap > 0 then overlap else 0)
    && forall p :: p in c.parts ==> p.element.headingPath == candidate.headingPath
  }

  /**
  The text is the cut from the document, after the table header and a line end where the first part is a table with a
  header that is not its own text up to outer white space.
  */
  ghost predicate TextWithHeader(rawText: string, first: Element, cut: string) {
    if first.kind == Table && first.tableHeader.Some? && first.tableHeader.value != "" &&
      !SameTrimmed(first.text, first.tableHeader.value)
    then rawText == first.tableHeader.value + "\n" + cut
    else rawText == cut
  }

  /** `t` is `s` without its outer white space. */
  ghost predicate TrimmedTo(s: string, t: string) {
    && (t != "" ==> !IsSpace(t[0]) && !IsSpace(t[|t| - 1]))
    && exists i: nat, j: nat :: CutOutOfSpace(s, i, j, t)
  }

  /** `t` is the stretch of `s` from `i` to `j`, and what is around it is white space. */
  ghost predicate CutOutOfSpace(s: string, i: nat, j: nat, t: string) {
    i <= j <= |s| && s[i..j] == t && forall k :: 0 <= k < |s| && !(i <= k < j) ==> IsSpace(s[k])
  }

  ghost predicate SameTrimmed(a: string, b: string) {
    exists t :: TrimmedTo(a, t) && TrimmedTo(b, t)
  }

  lemma TrimmedIsStrip(s: string, t: string)
    ensures TrimmedTo(s, t) <==> t == Strip(s)
  {
    hide IsSpace, Strip;
    var i, j := StripTrims(s);
    assert CutOutOfSpace(s, i, j, Strip(s));
    if TrimmedTo(s, t) {
      var k: nat, l: nat :| CutOutOfSpace(s, k, l, t);
      assert t != "" ==> t[0] == s[k] && t[|t| - 1] == s[l - 1];
      if i < j {
        assert k <= i && j <= l;
      }
    }
  }

  lemma SameTrimmedIs(a: string, b: string)
    ensures SameTrimmed(a, b) <==> Strip(a) == Strip(b)
  {
    hide TrimmedTo, Strip;
    TrimmedIsStrip(a, Strip(a));
    TrimmedIsStrip(b, Strip(a));
    forall t | TrimmedTo(a, t) && TrimmedTo(b, t) ensures Strip(a) == Strip(b) {
      TrimmedIsStrip(a, t);
      TrimmedIsStrip(b, t);
    }
  }

  lemma HeaderCases(first: Element, cut: string)
    ensures TextWithHeader(RepeatedHeader(first) + cut, first, cut)
  {
    if first.tableHeader.Some? {
      SameTrimmedIs(first.text, first.tableHeader.value);
    }
    hide SameTrimmed, Strip;
    assert "" + cut == cut;
  }

  /** Elements by id, the least and greatest page any of them has, and the first caption that is not empty. */
  ghost predicate PartsOk(candidate: Candidate, parts: seq<Positioned>) {
    var at := candidate.locator;
    && |at.elementIds| == |parts| && (forall i :: 0 <= i < |parts| ==> at.elementIds[i] == parts[i].element.id)
    && candidate.elementRefs == at.elementIds
    && (at.headingPath.Some? ==> at.headingPath.value == candidate.headingPath)
      && (at.headingPath.None? ==> candidate.headingPath == [])
    && at.pageStart.Some? == at.pageEnd.Some? == (exists p :: p in parts && p.element.page.Some?)
    && (forall p :: p in parts && p.element.page.Some? ==>
      at.pageStart.value <= p.element.page.value <= at.pageEnd.value)
    && (at.pageStart.Some? ==> exists p :: p in parts && p.element.page == at.pageStart)
    && (at.pageEnd.Some? ==> exists p :: p in parts && p.element.page == at.pageEnd)
    && (candidate.tableCaption.None? ==> forall i :: 0 <= i < |parts| ==> !Captioned(parts[i]))
    && (candidate.tableCaption.Some? ==>
      exists i :: 0 <= i < |parts| && FirstCaption(parts, i) && parts[i].element.tableCaption == candidate.tableCaption)
  }

  ghost predicate Captioned(p: Positioned) {
    p.element.tableCaption.Some? && p.element.tableCaption.value != ""
  }

  ghost predicate FirstCaption(parts: seq<Positioned>, i: nat)
    requires i < |parts|
  {
    Captioned(parts[i]) && forall j :: 0 <= j < i ==> !Captioned(parts[j])
  }

  lemma {:induction false} CaptionIsFirst(parts: seq<Positioned>)
    ensures Caption(parts).None? ==> forall i :: 0 <= i < |parts| ==> !Captioned(parts[i])
    ensures Caption(parts).Some? ==>
      exists i :: 0 <= i < |parts| && FirstCaption(parts, i) && parts[i].element.tableCaption == Caption(parts)
  {
    if parts != [] {
      if Captioned(parts[0]) {
        assert FirstCaption(parts, 0);
      } else {
        CaptionIsFirst(parts[1..]);
        if Caption(parts).Some? {
          var rest := parts[1..];
          var i :| 0 <= i < |rest| && FirstCaption(rest, i) && rest[i].element.tableCaption == Caption(rest);
          assert forall j :: 0 < j < i + 1 ==> parts[j] == parts[1..][j - 1];
          assert FirstCaption(parts, i + 1);
        }
      }
    }
  }

  lemma PartsDescribed(parts: seq<Positioned>, k: nat)
    requires parts != []
    ensures PartsOk(BuildCandidate(parts, k), parts)
  {
    CaptionIsFirst(parts);
    PagesCover(parts);
    hide Caption, FirstPage, LastPage, JoinTexts, RepeatedHeader, FirstCaption, Captioned;
  }

  lemma ChunkText(doc: string, c: Chunk, maxTokens: nat, overlap: int, k: nat)
    requires ChunkOk(doc, c, maxTokens, overlap)
    ensures c.parts != [] && CandidateOk(doc, BuildCandidate(c.parts, k), c, maxTokens, overlap)
  {
    LinkedSlice(doc, c.parts);
    JoinCost(c.parts);
    PartsDescribed(c.parts, k);
    HeaderCases(c.parts[0].element, JoinTexts(c.parts));
    hide Linked, TextWithHeader, JoinTexts, Cost, Count, RepeatedHeader, Caption, FirstPage, LastPage, Map, PartsOk;
  }

  lemma YieldNonEmpty(elements: seq<Element>, maxTokens: nat, overlap: int, policy: Policy)
    requires maxTokens > 0
    ensures NonEmptyChunks(DocumentYield(elements, maxTokens, overlap, policy))
  {
    SectionChunksNonEmpty(Sections(Place(elements[..StopIndex(elements, maxTokens, policy)], 0)), maxTokens, overlap);
  }

  /** The locator's offsets cut a candidate's own text out of the document text; the rest is a repeated table header. */
  lemma CandidateText(elements: seq<Element>, maxTokens: nat, overlap: int, policy: Policy, k: nat)
    requires maxTokens > 0 && k < |DocumentYield(elements, maxTokens, overlap, policy)|
    ensures
      var chunks := DocumentYield(elements, maxTokens, overlap, policy);
      && NonEmptyChunks(chunks) && Numbered(chunks)[k].locator.ordinal == k
      && CandidateOk(JoinTexts(Place(elements, 0)), Numbered(chunks)[k], chunks[k], maxTokens, overlap)
  {
    YieldNonEmpty(elements, maxTokens, overlap, policy);
    hide ChunkOk, Place, JoinTexts, DocumentYield, Numbered, CandidateOk;
    var chunks := DocumentYield(elements, maxTokens, overlap, policy);
    YieldOk(elements, maxTokens, overlap, policy);
    assert chunks[k] in chunks;
    NumberedAt(chunks, k);
    ChunkText(JoinTexts(Place(elements, 0)), chunks[k], maxTokens, overlap, k);
  }

  // ----- what a chunk repeats

  ghost predicate FollowsInDocument(prev: Chunk, c: Chunk, maxTokens: nat, overlap: int) {
    && 0 < |prev.parts| && c.repeated < |c.parts|
    && if prev.piece || c.piece || prev.parts[0].element.headingPath != c.parts[0].element.headingPath
      then c.repeated == 0
      else
        && c.parts[..c.repeated] == OverlapTail(prev.parts, overlap)
        && Cost(prev.parts) + Count(c.parts[c.repeated].element.text) > maxTokens
  }

  ghost predicate ChainedDocument(chunks: seq<Chunk>, maxTokens: nat, overlap: int) {
    && (chunks != [] ==> chunks[0].repeated == 0)
    && forall k :: 0 < k < |chunks| ==> FollowsInDocument(chunks[k - 1], chunks[k], maxTokens, overlap)
  }

  lemma {:induction false} ChainedAt(prev: Option<Chunk>, chunks: seq<Chunk>, maxTokens: nat, overlap: int, k: nat)
    requires Chained(prev, chunks, maxTokens, overlap) && k < |chunks|
    ensures Follows(if k == 0 then prev else Some(chunks[k - 1]), chunks[k], maxTokens, overlap)
    decreases k
  {
    hide Follows;
    if k > 0 {
      ChainedAt(Some(chunks[0]), chunks[1..], maxTokens, overlap, k - 1);
    }
  }

  lemma SectionChainedDocument(doc: string, section: seq<Positioned>, maxTokens: nat, overlap: int)
    requires maxTokens > 0 && section != [] && UnderHeading(section, section[0].element.headingPath)
      && Linked(doc, section)
    ensures ChainedDocument(Pack(section, EMPTY, maxTokens, overlap), maxTokens, overlap)
  {
    var chunks := Pack(section, EMPTY, maxTokens, overlap);
    PackChained(None, section, EMPTY, maxTokens, overlap);
    OneSectionOk(doc, section, maxTokens, overlap);
    PackUnderHeading(section, EMPTY, maxTokens, overlap, section[0].element.headingPath);
    hide Pack, Chained, Linked, OverlapTail;
    if chunks != [] {
      ChainedAt(None, chunks, maxTokens, overlap, 0);
    }
    forall k | 0 < k < |chunks| ensures FollowsInDocument(chunks[k - 1], chunks[k], maxTokens, overlap) {
      ChainedAt(None, chunks, maxTokens, overlap, k);
      assert chunks[k] in chunks && chunks[k - 1] in chunks;
      assert UnderHeading(chunks[k].parts, section[0].element.headingPath)
        && UnderHeading(chunks[k - 1].parts, section[0].element.headingPath);
    }
  }

  /** Every chunk of a section is under its heading. */
  ghost predicate AllUnder(chunks: seq<Chunk>, path: seq<string>) {
    forall c :: c in chunks ==> c.parts != [] && c.parts[0].element.headingPath == path && c.repeated < |c.parts|
  }

  lemma ChainedDocumentConcat(a: seq<Chunk>, b: seq<Chunk>, maxTokens: nat, overlap: int, path: seq<string>)
    requires ChainedDocument(a, maxTokens, overlap) && ChainedDocument(b, maxTokens, overlap) && AllUnder(a, path)
    requires b != [] ==> b[0].repeated < |b[0].parts| && b[0].parts[0].element.headingPath != path
    ensures ChainedDocument(a + b, maxTokens, overlap)
  {
    var chunks := a + b;
    forall k | 0 < k < |chunks| ensures FollowsInDocument(chunks[k - 1], chunks[k], maxTokens, overlap) {
      if k < |a| {
        assert chunks[k - 1] == a[k - 1] && chunks[k] == a[k];
      } else if k == |a| {
        assert chunks[k - 1] == a[k - 1] && chunks[k] == b[0] && a[k - 1] in a;
      } else {
        assert chunks[k - 1] == b[k - |a| - 1] && chunks[k] == b[k - |a|];
      }
    }
  }

  lemma PackAllUnder(doc: string, section: seq<Positioned>, maxTokens: nat, overlap: int)
    requires maxTokens > 0 && section != [] && UnderHeading(section, section[0].element.headingPath)
      && Linked(doc, section)
    ensures AllUnder(Pack(section, EMPTY, maxTokens, overlap), section[0].element.headingPath)
    ensures Pack(section, EMPTY, maxTokens, overlap) != []
  {
    OneSectionOk(doc, section, maxTokens, overlap);
    PackUnderHeading(section, EMPTY, maxTokens, overlap, section[0].element.headingPath);
    PackFresh(section, EMPTY, maxTokens, overlap);
    UnitsSome(section, maxTokens);
    hide Pack, Linked;
  }

  lemma UnitsSome(items: seq<Positioned>, maxTokens: nat)
    requires maxTokens > 0 && items != []
    ensures Packing.Units(items, maxTokens) != []
  {
    SplitNotEmpty(items[0], maxTokens);
    hide Count, SplitPieces;
  }

  lemma {:induction false} SectionsChained(doc: string, sections: seq<seq<Positioned>>, maxTokens: nat, overlap: int)
    requires maxTokens > 0 && SectionsOk(sections) && Linked(doc, Flatten(sections))
    ensures ChainedDocument(SectionChunks(sections, maxTokens, overlap), maxTokens, overlap)
    ensures sections != [] ==>
      var chunks := SectionChunks(sections, maxTokens, overlap);
      && chunks != [] && chunks[0].repeated < |chunks[0].parts|
      && chunks[0].parts[0].element.headingPath == sections[0][0].element.headingPath
  {
    if sections != [] {
      LinkedPrefix(doc, sections[0], Flatten(sections[1..]));
      SectionsTail(sections);
      assert |sections| > 1 ==> sections[0][0].element.headingPath != sections[1][0].element.headingPath;
      SectionsChained(doc, sections[1..], maxTokens, overlap);
      SectionChainedDocument(doc, sections[0], maxTokens, overlap);
      PackAllUnder(doc, sections[0], maxTokens, overlap);
      hide Pack, Linked, ChainedDocument;
      var first := Pack(sections[0], EMPTY, maxTokens, overlap);
      assert first[0] in first;
      ChainedDocumentConcat(first, SectionChunks(sections[1..], maxTokens, overlap), maxTokens, overlap,
        sections[0][0].element.headingPath);
    }
  }

  /**
  A chunk repeats the overlap of the one before it under the same heading, nothing after or before a split piece, and
  always adds something, the first of which no longer fitted into the one before.
  */
  lemma DocumentChained(elements: seq<Element>, maxTokens: nat, overlap: int)
    requires maxTokens > 0
    ensures ChainedDocument(DocumentChunks(elements, maxTokens, overlap), maxTokens, overlap)
  {
    DocumentLinked(elements);
    SectionsPartition(Place(elements, 0));
    SectionsChained(JoinTexts(Place(elements, 0)), Sections(Place(elements, 0)), maxTokens, overlap);
  }

  // ----- what is new in a chunk

  /** Parts start one after another, from `lo` on. */
  ghost predicate Ascending(parts: seq<Positioned>, lo: int) {
    && (forall i :: 0 <= i < |parts| ==> lo <= parts[i].start)
    && (forall i, j :: 0 <= i < j < |parts| ==> parts[i].start < parts[j].start)
  }

  lemma AscendingConcat(a: seq<Positioned>, b: seq<Positioned>, lo: int, mid: int)
    requires Ascending(a, lo) && Ascending(b, mid) && lo <= mid
    requires forall i :: 0 <= i < |a| ==> a[i].start < mid
    ensures Ascending(a + b, lo)
  {
  }

  lemma {:induction false} TokensAscend(text: string, i: nat, hi: nat, k: nat, l: nat)
    requires i <= hi <= |text| && k < l < |Tokens(text, i, hi)|
    ensures Tokens(text, i, hi)[k].start < Tokens(text, i, hi)[l].start
    decreases hi - i
  {
    if IsSpace(text[i]) {
      TokensAscend(text, i + 1, hi, k, l);
    } else {
      var e := RunEnd(text, i + 1, hi);
      TokenPlaced(text, e, hi, l - 1);
      if k > 0 {
        TokensAscend(text, e, hi, k - 1, l - 1);
      }
    }
  }

  lemma {:induction false} PiecesAscend(p: Positioned, maxTokens: nat, from: nat)
    requires maxTokens > 0 && from < Count(p.element.text)
    ensures Ascending(PiecesFrom(p, maxTokens, from), p.start + Matches(p.element.text)[from].start)
    decreases Count(p.element.text) - from
  {
    hide Tokens;
    var text, n := p.element.text, Count(p.element.text);
    var b := if from + maxTokens <= n then from + maxTokens else n;
    var piece := Piece(p, from, b);
    if from + maxTokens < n {
      PiecesAscend(p, maxTokens, from + maxTokens);
      TokensAscend(text, 0, |text|, from, from + maxTokens);
      AscendingConcat([piece], PiecesFrom(p, maxTokens, from + maxTokens), piece.start,
        p.start + Matches(text)[from + maxTokens].start);
    } else {
      assert PiecesFrom(p, maxTokens, from + maxTokens) == [];
    }
  }

  lemma UnitsOneIs(p: Positioned, maxTokens: nat)
    requires maxTokens > 0
    ensures Packing.Units([p], maxTokens) == if Count(p.element.text) > maxTokens then PiecesFrom(p, maxTokens, 0)
      else [p]
  {
    hide Count, PiecesFrom;
    assert [p][1..] == [] && Packing.Units([], maxTokens) == [];
  }

  lemma UnitsOfOne(doc: string, p: Positioned, maxTokens: nat)
    requires maxTokens > 0 && PartAt(doc, p)
    ensures Ascending(Packing.Units([p], maxTokens), p.start)
    ensures forall i :: 0 <= i < |Packing.Units([p], maxTokens)| ==> Packing.Units([p], maxTokens)[i].start <= p.end
  {
    UnitsOneIs(p, maxTokens);
    hide Tokens, Packing.Units, PiecesFrom;
    if Count(p.element.text) > maxTokens {
      PiecesAscend(p, maxTokens, 0);
      PiecesOk(doc, p, maxTokens, 0);
      var units := Packing.Units([p], maxTokens);
      forall i | 0 <= i < |units| ensures units[i].start <= p.end {
        assert units[i] in units;
      }
    }
  }

  lemma {:induction false} UnitsAscend(doc: string, items: seq<Positioned>, maxTokens: nat)
    requires maxTokens > 0 && Linked(doc, items)
    ensures Ascending(Packing.Units(items, maxTokens), if items == [] then 0 else items[0].start)
  {
    if items != [] {
      LinkedTail(doc, items);
      UnitsOfOne(doc, items[0], maxTokens);
      UnitsAscend(doc, items[1..], maxTokens);
      UnitsCons(items[0], items[1..], maxTokens);
      assert [items[0]] + items[1..] == items;
      assert |items| > 1 ==> SeparatedAt(doc, items[0].end, items[1].start);
      hide Packing.Units;
      AscendingConcat(Packing.Units([items[0]], maxTokens), Packing.Units(items[1..], maxTokens), items[0].start,
        if |items| > 1 then items[1].start else items[0].end + 1);
    }
  }

  lemma LinkedAscends(doc: string, parts: seq<Positioned>, i: nat)
    requires Linked(doc, parts) && i < |parts|
    ensures parts[i].start <= parts[|parts| - 1].start
    decreases |parts| - i
  {
    if i + 1 < |parts| {
      assert PartAt(doc, parts[i]) && SeparatedAt(doc, parts[i + 1 - 1].end, parts[i + 1].start);
      LinkedAscends(doc, parts, i + 1);
    }
  }

  lemma FreshAround(a: seq<Chunk>, x: Chunk, y: Chunk, b: seq<Chunk>)
    ensures FreshParts(a + [x] + [y] + b) == FreshParts(a) + Fresh(x) + Fresh(y) + FreshParts(b)
  {
    hide Fresh, FreshParts;
    FreshConcat(a + [x] + [y], b);
    FreshConcat(a + [x], [y]);
    FreshConcat(a, [x]);
    FreshOne(x);
    FreshOne(y);
  }

  lemma SplitPair<T>(s: seq<T>, k: nat)
    requires 0 < k < |s|
    ensures s == s[..k - 1] + [s[k - 1]] + [s[k]] + s[k + 1..]
  {
  }

  lemma FreshOne(c: Chunk)
    ensures FreshParts([c]) == Fresh(c)
  {
    assert [c][1..] == [] && FreshParts([]) == [];
  }

  lemma AscendingPair(a: seq<Positioned>, s: seq<Positioned>, t: seq<Positioned>, b: seq<Positioned>, lo: int, j: nat)
    requires Ascending(a + s + t + b, lo) && s != [] && j < |t|
    ensures s[|s| - 1].start < t[j].start
  {
    var all := a + s + t + b;
    assert all[|a| + |s| - 1] == s[|s| - 1] && all[|a| + |s| + j] == t[j];
  }

  /** What a chunk adds starts after everything the chunk before it holds. */
  lemma NewPartsAdvance(elements: seq<Element>, maxTokens: nat, overlap: int, k: nat, i: nat, j: nat)
    requires maxTokens > 0 && 0 < k < |DocumentChunks(elements, maxTokens, overlap)|
    requires i < |DocumentChunks(elements, maxTokens, overlap)[k - 1].parts|
    requires j < |Fresh(DocumentChunks(elements, maxTokens, overlap)[k])|
    ensures var chunks := DocumentChunks(elements, maxTokens, overlap);
      chunks[k - 1].parts[i].start < Fresh(chunks[k])[j].start
  {
    var chunks, placed := DocumentChunks(elements, maxTokens, overlap), Place(elements, 0);
    var doc := JoinTexts(placed);
    DocumentCovered(elements, maxTokens, overlap);
    DocumentChunksOk(elements, maxTokens, overlap);
    DocumentLinked(elements);
    hide Place, DocumentChunks, JoinTexts;
    UnitsAscend(doc, placed, maxTokens);
    Advance(doc, chunks, maxTokens, overlap, if placed == [] then 0 else placed[0].start, k, i, j);
  }

  lemma AdvancePair(doc: string, a: seq<Chunk>, prev: Chunk, c: Chunk, b: seq<Chunk>, lo: int, i: nat, j: nat)
    requires i < |prev.parts| && j < |Fresh(c)| && prev.repeated < |prev.parts| && Linked(doc, prev.parts)
    requires Ascending(FreshParts(a + [prev] + [c] + b), lo)
    ensures prev.parts[i].start < Fresh(c)[j].start
  {
    LinkedAscends(doc, prev.parts, i);
    FreshAround(a, prev, c, b);
    hide FreshParts, Linked, Ascending;
    AscendingPair(FreshParts(a), Fresh(prev), Fresh(c), FreshParts(b), lo, j);
  }

  lemma Advance(doc: string, chunks: seq<Chunk>, maxTokens: nat, overlap: int, lo: int, k: nat, i: nat, j: nat)
    requires 0 < k < |chunks| && i < |chunks[k - 1].parts| && j < |Fresh(chunks[k])|
    requires forall c :: c in chunks ==> ChunkOk(doc, c, maxTokens, overlap)
    requires Ascending(FreshParts(chunks), lo)
    ensures chunks[k - 1].parts[i].start < Fresh(chunks[k])[j].start
  {
    hide FreshParts, Linked, Ascending, Fresh, Cost;
    assert chunks[k - 1] in chunks;
    assert ChunkOk(doc, chunks[k - 1], maxTokens, overlap);
    SplitPair(chunks, k);
    AdvancePair(doc, chunks[..k - 1], chunks[k - 1], chunks[k], chunks[k + 1..], lo, i, j);
  }

  // ----- every token once

  lemma {:induction false} TokensConcat(a: seq<Positioned>, b: seq<Positioned>)
    ensures TokensOfAll(a + b) == TokensOfAll(a) + TokensOfAll(b)
  {
    hide TokensOf;
    if a == [] {
      assert a + b == b;
    } else {
      assert (a + b)[1..] == a[1..] + b;
      TokensConcat(a[1..], b);
    }
  }

  lemma TokensOfOne(p: Positioned, maxTokens: nat)
    requires maxTokens > 0
    ensures TokensOfAll(Packing.Units([p], maxTokens)) == TokensOf(p)
  {
    UnitsOneIs(p, maxTokens);
    PiecesTokens(p, maxTokens, 0);
    hide Packing.Units, TokensOf, Count, PiecesFrom;
    if Count(p.element.text) > maxTokens {
      assert TokensOf(p)[0..] == TokensOf(p);
    } else {
      assert [p][1..] == [] && TokensOfAll([]) == [];
    }
  }

  /** Cutting oversized elements keeps every token of the document, in place, exactly once. */
  lemma {:induction false} UnitsTokens(items: seq<Positioned>, maxTokens: nat)
    requires maxTokens > 0
    ensures TokensOfAll(Packing.Units(items, maxTokens)) == TokensOfAll(items)
  {
    if items != [] {
      UnitsTokens(items[1..], maxTokens);
      UnitsCons(items[0], items[1..], maxTokens);
      TokensConcat(Packing.Units([items[0]], maxTokens), Packing.Units(items[1..], maxTokens));
      TokensOfOne(items[0], maxTokens);
      hide Packing.Units;
      assert [items[0]] + items[1..] == items;
    }
  }

  function PartsOf(c: Chunk): seq<Positioned> {
    c.parts
  }

  lemma {:induction false} FreshIsAll(chunks: seq<Chunk>)
    requires forall k :: 0 <= k < |chunks| ==> chunks[k].repeated == 0
    ensures FreshParts(chunks) == Flatten(Map(PartsOf, chunks))
  {
    if chunks != [] {
      FreshIsAll(chunks[1..]);
      MapCons(PartsOf, chunks[0], chunks[1..]);
      assert [chunks[0]] + chunks[1..] == chunks;
      assert Map(PartsOf, chunks)[1..] == Map(PartsOf, chunks[1..]);
    }
  }

  lemma NothingRepeated(chunks: seq<Chunk>, maxTokens: nat, k: nat)
    requires ChainedDocument(chunks, maxTokens, 0) && k < |chunks|
    ensures chunks[k].repeated == 0
  {
    if k > 0 {
      assert FollowsInDocument(chunks[k - 1], chunks[k], maxTokens, 0);
    }
  }

  /** Hierarchical chunks partition the document's elements and pieces, and their tokens are the document's. */
  lemma HierarchicalPartition(elements: seq<Element>, maxTokens: nat)
    requires maxTokens > 0
    ensures
      var parts := Flatten(Map(PartsOf, DocumentChunks(elements, maxTokens, 0)));
      && parts == Packing.Units(Place(elements, 0), maxTokens)
      && TokensOfAll(parts) == TokensOfAll(Place(elements, 0))
  {
    hide DocumentChunks, Place, Flatten, Packing.Units, ChainedDocument;
    var chunks := DocumentChunks(elements, maxTokens, 0);
    DocumentChained(elements, maxTokens, 0);
    forall k | 0 <= k < |chunks| ensures chunks[k].repeated == 0 {
      NothingRepeated(chunks, maxTokens, k);
    }
    FreshIsAll(chunks);
    DocumentCovered(elements, maxTokens, 0);
    UnitsTokens(Place(elements, 0), maxTokens);
  }
}
