/** The hierarchical and hybrid chunkers over a whole document. */
module Chunkers {
  import opened StableSort
  import opened Tokenizer
  import opened Chunks
  import opened Packing

  // ----- loops over elements

  /** `position_elements` */
  method PositionElements(elements: seq<Element>) returns (positioned: seq<Positioned>)
    ensures positioned == Place(elements, 0)
  {
    hide Place, NextOffset;
    PlaceNone();
    positioned := [];
    var cursor := 0;
    assert elements[..0] == [];
    for i := 0 to |elements|
      invariant positioned == Place(elements[..i], 0)
      invariant NextOffset(elements[..i], 0) == if i > 0 then cursor + 2 else cursor
    {
      PlaceSnoc(elements[..i], elements[i], 0);
      assert elements[..i + 1] == elements[..i] + [elements[i]];
      if i > 0 {
        cursor := cursor + 2;
      }
      var start := cursor;
      cursor := cursor + |elements[i].text|;
      positioned := positioned + [Positioned(elements[i], start, cursor)];
    }
    assert elements[..|elements|] == elements;
  }

  lemma PlaceNone()
    ensures Place([], 0) == [] && NextOffset([], 0) == 0
  {
  }

  /** `split_oversized` */
  method SplitOversized(p: Positioned, maxTokens: nat) returns (pieces: seq<Positioned>)
    requires maxTokens > 0
    ensures pieces == SplitPieces(p, maxTokens)
  {
    hide Tokens;
    var matches := Matches(p.element.text);
    if matches == [] {
      return [p];
    }
    pieces := [];
    var from := 0;
    while from < |matches|
      invariant PiecesFrom(p, maxTokens, 0) == pieces + PiecesFrom(p, maxTokens, from)
      decreases |matches| - from
    {
      var to := if from + maxTokens <= |matches| then from + maxTokens else |matches|;
      TokenGroup(p.element.text, from, to);
      var localStart, localEnd := matches[from].start, matches[to - 1].end;
      var piece := p.element.(text := p.element.text[localStart..localEnd]);
      pieces := pieces + [Positioned(piece, p.start + localStart, p.start + localEnd)];
      from := from + maxTokens;
    }
  }

  /** The loop of `_overlap_tail`. */
  method TakeOverlapTail(group: seq<Positioned>, overlap: int) returns (tail: seq<Positioned>)
    ensures tail == OverlapTail(group, overlap)
  {
    hide Count;
    if overlap <= 0 {
      return [];
    }
    tail := [];
    var total := 0;
    var i: nat := |group|;
    while i > 0
      invariant i <= |group| && tail == group[i..]
      invariant TailStart(group, |group|, overlap) == TailStart(group, i, overlap - total)
    {
      var cost := Count(group[i - 1].element.text);
      if total + cost > overlap {
        return;
      }
      tail := [group[i - 1]] + tail;
      total := total + cost;
      i := i - 1;
    }
  }

  /** The element is under the heading path of the last section's last element. */
  predicate SharesSection(sections: seq<seq<Positioned>>, item: Positioned) {
    && sections != [] && sections[|sections| - 1] != []
    && LastOf(sections[|sections| - 1]).element.headingPath == item.element.headingPath
  }

  /** One more element, into the last section if it shares its heading path, else into a new one. */
  function AddToSections(sections: seq<seq<Positioned>>, item: Positioned): seq<seq<Positioned>> {
    if SharesSection(sections, item) then
      sections[..|sections| - 1] + [sections[|sections| - 1] + [item]]
    else sections + [[item]]
  }

  function LastOf<T>(s: seq<T>): T
    requires s != []
  {
    s[|s| - 1]
  }

  function Sections(items: seq<Positioned>): seq<seq<Positioned>> {
    if items == [] then [] else AddToSections(Sections(items[..|items| - 1]), items[|items| - 1])
  }

  /** `group_by_heading_path` */
  method GroupByHeadingPath(positioned: seq<Positioned>) returns (sections: seq<seq<Positioned>>)
    ensures sections == Sections(positioned)
  {
    sections := [];
    for i := 0 to |positioned|
      invariant sections == Sections(positioned[..i])
    {
      assert positioned[..i + 1][..i] == positioned[..i];
      sections := AddToSections(sections, positioned[i]);
    }
    assert positioned[..|positioned|] == positioned;
  }

  /** Sections are non-empty, have one heading path each, and neighbours differ. */
  ghost predicate SectionsOk(sections: seq<seq<Positioned>>) {
    && (forall k :: 0 <= k < |sections| ==>
      sections[k] != [] && UnderHeading(sections[k], sections[k][0].element.headingPath))
    && (forall k :: 0 < k < |sections| ==> sections[k - 1][0].element.headingPath != sections[k][0].element.headingPath)
  }

  lemma SectionsSnoc(init: seq<Positioned>, item: Positioned)
    ensures Sections(init + [item]) == AddToSections(Sections(init), item)
  {
    hide AddToSections;
    assert (init + [item])[..|init|] == init;
  }

  /** Sections split the elements, in order, into maximal runs under one heading path. */
  lemma {:induction false} SectionsPartition(items: seq<Positioned>)
    ensures Flatten(Sections(items)) == items && SectionsOk(Sections(items))
  {
    if items != [] {
      var init, item := items[..|items| - 1], items[|items| - 1];
      SectionsPartition(init);
      SectionsSnoc(init, item);
      AddFlattens(Sections(init), item);
      AddKeepsSections(Sections(init), item);
      hide Sections, AddToSections, SectionsOk, Flatten;
      assert init + [item] == items;
    }
  }

  lemma FlattenOne<T>(s: seq<T>)
    ensures Flatten([s]) == s
  {
    assert [s][1..] == [];
  }

  lemma AddFlattens(sections: seq<seq<Positioned>>, item: Positioned)
    ensures Flatten(AddToSections(sections, item)) == Flatten(sections) + [item]
  {
    if SharesSection(sections, item) {
      var init, last := sections[..|sections| - 1], sections[|sections| - 1];
      FlattenConcat(init, [last]);
      FlattenConcat(init, [last + [item]]);
      FlattenOne(last);
      FlattenOne(last + [item]);
      hide Flatten;
      assert init + [last] == sections;
      assert Flatten(init) + (last + [item]) == (Flatten(init) + last) + [item];
    } else {
      FlattenConcat(sections, [[item]]);
      FlattenOne([item]);
    }
  }

  lemma AddKeepsSections(sections: seq<seq<Positioned>>, item: Positioned)
    requires SectionsOk(sections)
    ensures SectionsOk(AddToSections(sections, item))
  {
    var added := AddToSections(sections, item);
    var n := |added| - 1;
    if n < |sections| {
      assert LastOf(sections[n]).element.headingPath == sections[n][0].element.headingPath;
      assert added[n] == sections[n] + [item];
    } else if n > 0 {
      assert LastOf(sections[n - 1]).element.headingPath == sections[n - 1][0].element.headingPath;
    }
    assert forall k :: 0 <= k < n ==> added[k] == sections[k];
  }

  // ----- a document's chunks

  function SectionChunks(sections: seq<seq<Positioned>>, maxTokens: nat, overlap: int): seq<Chunk>
    requires maxTokens > 0
  {
    if sections == [] then []
    else Pack(sections[0], EMPTY, maxTokens, overlap) + SectionChunks(sections[1..], maxTokens, overlap)
  }

  /** The chunks of a document under the split policy; overlap zero is the hierarchical chunker. */
  function DocumentChunks(elements: seq<Element>, maxTokens: nat, overlap: int): seq<Chunk>
    requires maxTokens > 0
  {
    SectionChunks(Sections(Place(elements, 0)), maxTokens, overlap)
  }

  lemma {:induction false} UnitsConcat(a: seq<Positioned>, b: seq<Positioned>, maxTokens: nat)
    requires maxTokens > 0
    ensures Packing.Units(a + b, maxTokens) == Packing.Units(a, maxTokens) + Packing.Units(b, maxTokens)
  {
    hide Count, SplitPieces;
    if a == [] {
      assert a + b == b;
    } else {
      assert (a + b)[1..] == a[1..] + b;
      UnitsConcat(a[1..], b, maxTokens);
    }
  }

  lemma FreshNothing(maxTokens: nat)
    requires maxTokens > 0
    ensures FreshParts([]) == [] && Packing.Units([], maxTokens) == [] && Fresh(EMPTY) == []
  {
  }

  lemma {:induction false} SectionChunksFresh(sections: seq<seq<Positioned>>, maxTokens: nat, overlap: int)
    requires maxTokens > 0
    ensures FreshParts(SectionChunks(sections, maxTokens, overlap)) == Packing.Units(Flatten(sections), maxTokens)
  {
    hide Pack, Packing.Units, FreshParts;
    FreshNothing(maxTokens);
    if sections != [] {
      SectionChunksFresh(sections[1..], maxTokens, overlap);
      PackFresh(sections[0], EMPTY, maxTokens, overlap);
      FreshConcat(Pack(sections[0], EMPTY, maxTokens, overlap), SectionChunks(sections[1..], maxTokens, overlap));
      UnitsConcat(sections[0], Flatten(sections[1..]), maxTokens);
    }
  }

  /** Removing what chunks repeat recovers the document's elements, oversized ones in pieces, in order. */
  lemma DocumentCovered(elements: seq<Element>, maxTokens: nat, overlap: int)
    requires maxTokens > 0
    ensures FreshParts(DocumentChunks(elements, maxTokens, overlap)) == Packing.Units(Place(elements, 0), maxTokens)
  {
    SectionsPartition(Place(elements, 0));
    SectionChunksFresh(Sections(Place(elements, 0)), maxTokens, overlap);
  }

  /** What holds of each chunk of a document. */
  ghost predicate ChunkOk(doc: string, c: Chunk, maxTokens: nat, overlap: int) {
    SizeOk(c, maxTokens, overlap) && Linked(doc, c.parts) && UnderHeading(c.parts, c.parts[0].element.headingPath)
  }

  lemma {:induction false} SectionChunksOk(doc: string, sections: seq<seq<Positioned>>, maxTokens: nat, overlap: int)
    requires maxTokens > 0 && SectionsOk(sections) && Linked(doc, Flatten(sections))
    ensures forall c :: c in SectionChunks(sections, maxTokens, overlap) ==> ChunkOk(doc, c, maxTokens, overlap)
  {
    if sections != [] {
      LinkedPrefix(doc, sections[0], Flatten(sections[1..]));
      OneSectionOk(doc, sections[0], maxTokens, overlap);
      SectionsTail(sections);
      SectionChunksOk(doc, sections[1..], maxTokens, overlap);
      hide ChunkOk, Pack, Linked, SectionsOk;
    }
  }

  lemma SectionsTail(sections: seq<seq<Positioned>>)
    requires SectionsOk(sections) && sections != []
    ensures SectionsOk(sections[1..])
  {
    hide UnderHeading;
    var tail := sections[1..];
    assert forall k :: 0 <= k < |tail| ==> tail[k] == sections[k + 1];
    forall k | 0 < k < |tail| ensures tail[k - 1][0].element.headingPath != tail[k][0].element.headingPath {
      assert sections[k + 1 - 1] == tail[k - 1];
    }
  }

  lemma OneSectionOk(doc: string, section: seq<Positioned>, maxTokens: nat, overlap: int)
    requires maxTokens > 0 && section != [] && UnderHeading(section, section[0].element.headingPath)
      && Linked(doc, section)
    ensures forall c :: c in Pack(section, EMPTY, maxTokens, overlap) ==> ChunkOk(doc, c, maxTokens, overlap)
  {
    assert EMPTY.parts + section == section;
    PackLinked(doc, section, EMPTY, maxTokens, overlap);
    PackSizes(doc, section, EMPTY, maxTokens, overlap);
    PackUnderHeading(section, EMPTY, maxTokens, overlap, section[0].element.headingPath);
    hide Pack, Linked;
    forall c | c in Pack(section, EMPTY, maxTokens, overlap) ensures ChunkOk(doc, c, maxTokens, overlap) {
      assert SizeOk(c, maxTokens, overlap) && UnderHeading(c.parts, section[0].element.headingPath);
      assert c.parts[0].element.headingPath == section[0].element.headingPath;
    }
  }

  lemma DocumentChunksOk(elements: seq<Element>, maxTokens: nat, overlap: int)
    requires maxTokens > 0
    ensures forall c :: c in DocumentChunks(elements, maxTokens, overlap) ==>
      ChunkOk(JoinTexts(Place(elements, 0)), c, maxTokens, overlap)
  {
    PlaceLinked("", elements);
    assert "" + JoinTexts(Place(elements, 0)) == JoinTexts(Place(elements, 0));
    SectionsPartition(Place(elements, 0));
    SectionChunksOk(JoinTexts(Place(elements, 0)), Sections(Place(elements, 0)), maxTokens, overlap);
  }
}
