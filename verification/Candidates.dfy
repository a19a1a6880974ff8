/** The candidates the hierarchical and hybrid chunkers yield, and the loops that yield them. */
module Candidates {
  import opened Ordering
  import opened StableSort
  import opened Tokenizer
  import opened Chunks
  import opened Packing
  import opened Chunkers

  datatype Locator = Locator(
    pageStart: Option<nat>,
    pageEnd: Option<nat>,
    headingPath: Option<seq<string>>,
    elementIds: seq<string>,
    characterStart: nat,
    characterEnd: nat,
    ordinal: nat)

  datatype Candidate = Candidate(elementRefs: seq<string>, rawText: string, locator: Locator, headingPath: seq<string>,
    tableCaption: Option<string>)

  datatype Policy = Split | Fail

  /** The error raised for an element that may not be split. */
  datatype Oversized = Oversized(elementId: string, tokens: nat)

  // ----- one candidate

  function Strip(s: string): string {
    if s == "" then ""
    else if IsSpace(s[0]) then Strip(s[1..])
    else if IsSpace(s[|s| - 1]) then Strip(s[..|s| - 1])
    else s
  }

  /** Stripping takes off all white space at either end and nothing else. */
  lemma {:induction false} StripTrims(s: string) returns (i: nat, j: nat)
    ensures i <= j <= |s| && Strip(s) == s[i..j] && (i < j ==> !IsSpace(s[i]) && !IsSpace(s[j - 1]))
    ensures forall k :: 0 <= k < |s| && !(i <= k < j) ==> IsSpace(s[k])
    decreases |s|
  {
    hide IsSpace;
    if s == "" || !(IsSpace(s[0]) || IsSpace(s[|s| - 1])) {
      i, j := 0, |s|;
    } else if IsSpace(s[0]) {
      i, j := StripTrims(s[1..]);
      i, j := i + 1, j + 1;
      assert forall k :: 0 < k < |s| ==> s[k] == s[1..][k - 1];
    } else {
      i, j := StripTrims(s[..|s| - 1]);
    }
  }

  /** What a chunk that continues a table repeats before its own text. */
  function RepeatedHeader(first: Element): string {
    if first.kind.Table? && first.tableHeader.Some? && first.tableHeader.value != ""
      && Strip(first.text) != Strip(first.tableHeader.value)
    then first.tableHeader.value + "\n" else ""
  }

  function Least(pages: Option<nat>, page: Option<nat>): Option<nat> {
    if pages.None? then page else if page.None? || pages.value <= page.value then pages else page
  }

  function Greatest(pages: Option<nat>, page: Option<nat>): Option<nat> {
    if pages.None? then page else if page.None? || pages.value >= page.value then pages else page
  }

  function FirstPage(parts: seq<Positioned>): Option<nat> {
    if parts == [] then None else Least(parts[0].element.page, FirstPage(parts[1..]))
  }

  function LastPage(parts: seq<Positioned>): Option<nat> {
    if parts == [] then None else Greatest(parts[0].element.page, LastPage(parts[1..]))
  }

  function Caption(parts: seq<Positioned>): Option<string> {
    if parts == [] then None
    else if parts[0].element.tableCaption.Some? && parts[0].element.tableCaption.value != ""
      then parts[0].element.tableCaption
    else Caption(parts[1..])
  }

  /** `build_candidate` */
  function BuildCandidate(parts: seq<Positioned>, ordinal: nat): Candidate
    requires parts != []
  {
    var first := parts[0].element;
    Candidate(
      Map((p: Positioned) => p.element.id, parts),
      RepeatedHeader(first) + JoinTexts(parts),
      Locator(
        FirstPage(parts), LastPage(parts),
        if first.headingPath == [] then None else Some(first.headingPath),
        Map((p: Positioned) => p.element.id, parts),
        parts[0].start, parts[|parts| - 1].end, ordinal),
      first.headingPath, Caption(parts))
  }

  /** The page range of a candidate covers exactly the pages its elements carry. */
  lemma {:induction false} PagesCover(parts: seq<Positioned>)
    ensures FirstPage(parts).Some? == LastPage(parts).Some? == (exists p :: p in parts && p.element.page.Some?)
    ensures forall p :: p in parts && p.element.page.Some? ==>
      FirstPage(parts).value <= p.element.page.value <= LastPage(parts).value
    ensures FirstPage(parts).Some? ==>
      && (exists p :: p in parts && p.element.page == FirstPage(parts))
      && (exists p :: p in parts && p.element.page == LastPage(parts))
  {
    if parts != [] {
      PagesCover(parts[1..]);
      assert parts[0] in parts;
      assert forall p :: p in parts[1..] ==> p in parts;
      assert forall p :: p in parts ==> p == parts[0] || p in parts[1..];
    }
  }

  // ----- the yielded candidates

  ghost predicate NonEmptyChunks(chunks: seq<Chunk>) {
    forall c :: c in chunks ==> c.parts != []
  }

  /** The candidates of the chunks, counted from zero. */
  function Numbered(chunks: seq<Chunk>): (r: seq<Candidate>)
    requires NonEmptyChunks(chunks)
    ensures |r| == |chunks|
  {
    if chunks == [] then []
    else Numbered(chunks[..|chunks| - 1]) + [BuildCandidate(chunks[|chunks| - 1].parts, |chunks| - 1)]
  }

  lemma NumberedSnoc(chunks: seq<Chunk>, c: Chunk)
    requires c.parts != [] && NonEmptyChunks(chunks)
    ensures Numbered(chunks + [c]) == Numbered(chunks) + [BuildCandidate(c.parts, |chunks|)]
  {
    hide BuildCandidate;
    assert (chunks + [c])[..|chunks|] == chunks;
  }

  lemma {:induction false} NumberedAt(chunks: seq<Chunk>, k: nat)
    requires k < |chunks| && NonEmptyChunks(chunks)
    ensures Numbered(chunks)[k] == BuildCandidate(chunks[k].parts, k)
  {
    hide BuildCandidate;
    if k < |chunks| - 1 {
      NumberedAt(chunks[..|chunks| - 1], k);
    }
  }

  // ----- packing, from the left

  /** The chunks closed and the group left open after packing `items`. */
  function PackLeft(items: seq<Positioned>, maxTokens: nat, overlap: int): (seq<Chunk>, Chunk)
    requires maxTokens > 0
  {
    if items == [] then ([], EMPTY)
    else
      var (done, group) := PackLeft(items[..|items| - 1], maxTokens, overlap);
      var (closed, next) := PackOne(items[|items| - 1], group, maxTokens, overlap);
      (done + closed, next)
  }

  lemma PackLeftSnoc(items: seq<Positioned>, item: Positioned, maxTokens: nat, overlap: int)
    requires maxTokens > 0
    ensures
      var (done, group) := PackLeft(items, maxTokens, overlap);
      var (closed, next) := PackOne(item, group, maxTokens, overlap);
      PackLeft(items + [item], maxTokens, overlap) == (done + closed, next)
  {
    hide PackOne;
    assert (items + [item])[..|items|] == items;
  }

  lemma {:induction false} PackFromLeft(items: seq<Positioned>, rest: seq<Positioned>, maxTokens: nat, overlap: int)
    requires maxTokens > 0
    ensures
      var (done, group) := PackLeft(items, maxTokens, overlap);
      Pack(items + rest, EMPTY, maxTokens, overlap) == done + Pack(rest, group, maxTokens, overlap)
  {
    hide Pack, PackOne;
    if items == [] {
      assert items + rest == rest;
    } else {
      var init, item := items[..|items| - 1], items[|items| - 1];
      PackFromLeft(init, [item] + rest, maxTokens, overlap);
      assert init + ([item] + rest) == items + rest;
      var (done, group) := PackLeft(init, maxTokens, overlap);
      PackCons(item, rest, group, maxTokens, overlap);
    }
  }

  lemma PackCons(item: Positioned, rest: seq<Positioned>, group: Chunk, maxTokens: nat, overlap: int)
    requires maxTokens > 0
    ensures var (closed, next) := PackOne(item, group, maxTokens, overlap);
      Pack([item] + rest, group, maxTokens, overlap) == closed + Pack(rest, next, maxTokens, overlap)
  {
    hide PackOne;
    assert ([item] + rest)[1..] == rest;
  }

  lemma PackIsLeft(items: seq<Positioned>, maxTokens: nat, overlap: int)
    requires maxTokens > 0
    ensures
      var (done, group) := PackLeft(items, maxTokens, overlap);
      Pack(items, EMPTY, maxTokens, overlap) == done + Open(group)
  {
    PackFromLeft(items, [], maxTokens, overlap);
    hide PackLeft, PackOne;
    assert items + [] == items;
  }

  /** No element of `items` has more than `maxTokens` tokens. */
  ghost predicate AllFit(items: seq<Positioned>, maxTokens: nat) {
    forall p :: p in items ==> Count(p.element.text) <= maxTokens
  }

  lemma PackOneNonEmpty(item: Positioned, group: Chunk, maxTokens: nat, overlap: int)
    requires maxTokens > 0
    ensures NonEmptyChunks(PackOne(item, group, maxTokens, overlap).0)
  {
    hide Count, SplitPieces, AfterOverflow;
  }

  lemma {:induction false} PackNonEmpty(items: seq<Positioned>, group: Chunk, maxTokens: nat, overlap: int)
    requires maxTokens > 0
    ensures NonEmptyChunks(Pack(items, group, maxTokens, overlap))
    decreases |items|
  {
    hide PackOne;
    if items != [] {
      PackOneNonEmpty(items[0], group, maxTokens, overlap);
      var (closed, next) := PackOne(items[0], group, maxTokens, overlap);
      PackNonEmpty(items[1..], next, maxTokens, overlap);
    }
  }

  lemma {:induction false} PackLeftNonEmpty(items: seq<Positioned>, maxTokens: nat, overlap: int)
    requires maxTokens > 0
    ensures NonEmptyChunks(PackLeft(items, maxTokens, overlap).0)
  {
    hide PackOne;
    if items != [] {
      var (done, group) := PackLeft(items[..|items| - 1], maxTokens, overlap);
      PackOneNonEmpty(items[|items| - 1], group, maxTokens, overlap);
      PackLeftNonEmpty(items[..|items| - 1], maxTokens, overlap);
    }
  }

  lemma {:induction false} SectionChunksNonEmpty(sections: seq<seq<Positioned>>, maxTokens: nat, overlap: int)
    requires maxTokens > 0
    ensures NonEmptyChunks(SectionChunks(sections, maxTokens, overlap))
  {
    hide Pack;
    if sections != [] {
      PackNonEmpty(sections[0], EMPTY, maxTokens, overlap);
      SectionChunksNonEmpty(sections[1..], maxTokens, overlap);
    }
  }

  /** The first element of more than `maxTokens` tokens, or the end. */
  function FirstOversized(items: seq<Positioned>, maxTokens: nat): (j: nat)
    ensures j <= |items| && AllFit(items[..j], maxTokens)
    ensures j < |items| ==> Count(items[j].element.text) > maxTokens
  {
    if items == [] || Count(items[0].element.text) > maxTokens then 0
    else
      var j := FirstOversized(items[1..], maxTokens) + 1;
      assert items[..j] == [items[0]] + items[1..][..j - 1];
      j
  }

  // ----- the loops

  /** Yields the pieces of a split element. */
  method YieldPieces(item: Positioned, maxTokens: nat, out: seq<Candidate>, ordinal: nat, ghost chunks: seq<Chunk>)
    returns (yielded: seq<Candidate>, next: nat)
    requires maxTokens > 0 && NonEmptyChunks(chunks) && out == Numbered(chunks) && ordinal == |chunks|
    ensures yielded == Numbered(chunks + Singles(SplitPieces(item, maxTokens)))
    ensures next == |chunks| + |SplitPieces(item, maxTokens)|
  {
    hide BuildCandidate, SplitPieces, Numbered;
    var pieces := SplitOversized(item, maxTokens);
    yielded, next := out, ordinal;
    assert chunks + Singles(pieces)[..0] == chunks;
    for i := 0 to |pieces|
      invariant next == |chunks| + i
      invariant yielded == Numbered(chunks + Singles(pieces)[..i])
    {
      NumberedSnoc(chunks + Singles(pieces)[..i], Singles(pieces)[i]);
      assert chunks + Singles(pieces)[..i + 1] == (chunks + Singles(pieces)[..i]) + [Singles(pieces)[i]];
      yielded := yielded + [BuildCandidate([pieces[i]], next)];
      next := next + 1;
    }
    assert Singles(pieces)[..|pieces|] == Singles(pieces);
  }

  /** What a section adds to `chunks`: all its chunks, or those before the element it stopped at. */
  function SectionYield(section: seq<Positioned>, maxTokens: nat, overlap: int, chunks: seq<Chunk>,
                        stop: Option<nat>): seq<Chunk>
    requires maxTokens > 0
  {
    chunks + Pack(if stop.Some? && stop.value <= |section| then section[..stop.value]
      else section, EMPTY, maxTokens, overlap)
  }

  /** Only the fail policy stops, at the first element that does not fit. */
  ghost predicate StopsAt(items: seq<Positioned>, maxTokens: nat, policy: Policy, stop: Option<nat>) {
    if stop.Some? then policy == Fail && stop.value < |items| && stop.value == FirstOversized(items, maxTokens)
    else policy == Fail ==> AllFit(items, maxTokens)
  }

  /** The loop's variables after packing `items`. */
  ghost predicate Packed(items: seq<Positioned>, maxTokens: nat, overlap: int, chunks: seq<Chunk>,
    group: seq<Positioned>, groupTokens: nat, yielded: seq<Candidate>, next: nat)
    requires maxTokens > 0
  {
    var (done, open) := PackLeft(items, maxTokens, overlap);
    && NonEmptyChunks(chunks + done)
    && yielded == Numbered(chunks + done) && next == |chunks + done|
    && group == open.parts && groupTokens == Cost(group)
  }

  lemma SectionStart(section: seq<Positioned>, chunks: seq<Chunk>, maxTokens: nat, overlap: int, policy: Policy)
    requires maxTokens > 0 && NonEmptyChunks(chunks)
    ensures Packed(section[..0], maxTokens, overlap, chunks, [], 0, Numbered(chunks), |chunks|)
    ensures StopsAt(section[..0], maxTokens, policy, None)
  {
    assert chunks + [] == chunks;
  }

  lemma OpenNumbered(before: seq<Chunk>, group: Chunk)
    requires NonEmptyChunks(before)
    ensures NonEmptyChunks(before + Open(group))
    ensures Numbered(before + Open(group)) == Numbered(before) + if group.parts == [] then []
      else [BuildCandidate(group.parts, |before|)]
  {
    hide BuildCandidate, Numbered;
    if group.parts == [] {
      assert before + [] == before;
    } else {
      NumberedSnoc(before, group);
    }
  }

  lemma CostGrows(group: seq<Positioned>, item: Positioned)
    ensures Cost(group + [item]) == Cost(group) + Count(item.element.text)
  {
    CostConcat(group, [item]);
    CostOne(item);
  }

  /** The three ways an item is packed after `items`. */
  lemma PackStep(items: seq<Positioned>, item: Positioned, maxTokens: nat, overlap: int, chunks: seq<Chunk>)
    requires maxTokens > 0 && NonEmptyChunks(chunks)
    ensures
      var (done, open) := PackLeft(items, maxTokens, overlap);
      var (done', open') := PackLeft(items + [item], maxTokens, overlap);
      var before, cost := chunks + done, Count(item.element.text);
      && NonEmptyChunks(chunks + done')
      && (cost > maxTokens ==>
        chunks + done' == before + Open(open) + Singles(SplitPieces(item, maxTokens)) && open' == EMPTY)
      && (cost <= maxTokens && open.parts != [] && Cost(open.parts) + cost > maxTokens ==>
        chunks + done' == before + Open(open) && open'.parts == OverlapTail(open.parts, overlap) + [item])
      && (cost <= maxTokens && !(open.parts != [] && Cost(open.parts) + cost > maxTokens) ==>
        chunks + done' == before && open'.parts == open.parts + [item])
  {
    PackLeftNonEmpty(items + [item], maxTokens, overlap);
    PackLeftSnoc(items, item, maxTokens, overlap);
    hide PackLeft, Count, Cost, SplitPieces, OverlapTail;
  }

  lemma PackStopped(items: seq<Positioned>, maxTokens: nat, overlap: int, chunks: seq<Chunk>)
    requires maxTokens > 0
    ensures
      var (done, open) := PackLeft(items, maxTokens, overlap);
      chunks + Pack(items, EMPTY, maxTokens, overlap) == chunks + done + Open(open)
  {
    PackIsLeft(items, maxTokens, overlap);
    hide Pack, PackLeft;
  }

  lemma {:induction false} FirstOversizedIs(items: seq<Positioned>, maxTokens: nat, j: nat)
    requires j <= |items| && AllFit(items[..j], maxTokens) && (j < |items| ==> Count(items[j].element.text) > maxTokens)
    ensures FirstOversized(items, maxTokens) == j
  {
    hide Count;
    if j > 0 {
      assert items[..j] == [items[0]] + items[1..][..j - 1];
      FirstOversizedIs(items[1..], maxTokens, j - 1);
    }
  }

  lemma StopsLater(section: seq<Positioned>, i: nat, maxTokens: nat, policy: Policy)
    requires i < |section| && StopsAt(section[..i], maxTokens, policy, None)
    ensures policy == Fail && Count(section[i].element.text) > maxTokens ==>
      StopsAt(section, maxTokens, policy, Some(i))
    ensures (policy == Fail && Count(section[i].element.text) > maxTokens)
      || StopsAt(section[..i + 1], maxTokens, policy, None)
  {
    hide Count, FirstOversized;
    if policy == Fail {
      if Count(section[i].element.text) > maxTokens {
        FirstOversizedIs(section, maxTokens, i);
      } else {
        assert section[..i + 1] == section[..i] + [section[i]];
      }
    }
  }

  /** One section of the hierarchical chunker; `stop` is the element it failed on. */
  method HierarchicalSection(section: seq<Positioned>, maxTokens: nat, policy: Policy, out: seq<Candidate>,
                             ordinal: nat, ghost chunks: seq<Chunk>)
    returns (yielded: seq<Candidate>, next: nat, stop: Option<nat>)
    requires maxTokens > 0 && NonEmptyChunks(chunks) && out == Numbered(chunks) && ordinal == |chunks|
    ensures NonEmptyChunks(SectionYield(section, maxTokens, 0, chunks, stop))
    ensures yielded == Numbered(SectionYield(section, maxTokens, 0, chunks, stop)) && next == |yielded|
    ensures StopsAt(section, maxTokens, policy, stop) && (stop.Some? ==> stop.value < |section|)
  {
    hide BuildCandidate, Numbered, Pack, PackLeft, PackOne, Count, Cost, NonEmptyChunks, StopsAt, SplitPieces,
      TailStart;
    yielded, next, stop := out, ordinal, None;
    var group: seq<Positioned>, groupTokens: nat := [], 0;
    SectionStart(section, chunks, maxTokens, 0, policy);
    for i := 0 to |section|
      invariant Packed(section[..i], maxTokens, 0, chunks, group, groupTokens, yielded, next)
      invariant stop == None && StopsAt(section[..i], maxTokens, policy, None)
    {
      var item := section[i];
      var cost := Count(item.element.text);
      ghost var (done, open) := PackLeft(section[..i], maxTokens, 0);
      ghost var before := chunks + done;
      assert section[..i + 1] == section[..i] + [item];
      PackStep(section[..i], item, maxTokens, 0, chunks);
      OpenNumbered(before, open);
      StopsLater(section, i, maxTokens, policy);
      if cost > maxTokens {
        if group != [] {
          yielded := yielded + [BuildCandidate(group, next)];
          next := next + 1;
          group, groupTokens := [], 0;
        }
        if policy == Fail {
          stop := Some(i);
          PackStopped(section[..i], maxTokens, 0, chunks);
          return;
        }
        yielded, next := YieldPieces(item, maxTokens, yielded, next, before + Open(open));
      } else {
        if group != [] && groupTokens + cost > maxTokens {
          yielded := yielded + [BuildCandidate(group, next)];
          next := next + 1;
          group, groupTokens := [], 0;
        }
        CostGrows(group, item);
        group := group + [item];
        groupTokens := groupTokens + cost;
      }
    }
    assert section[..|section|] == section;
    PackStopped(section, maxTokens, 0, chunks);
    ghost var (done, open) := PackLeft(section, maxTokens, 0);
    OpenNumbered(chunks + done, open);
    if group != [] {
      yielded := yielded + [BuildCandidate(group, next)];
      next := next + 1;
    }
  }

  /** One section of the hybrid chunker; `stop` is the element it failed on. */
  method HybridSection(section: seq<Positioned>, maxTokens: nat, overlap: int, policy: Policy, out: seq<Candidate>,
                       ordinal: nat, ghost chunks: seq<Chunk>)
    returns (yielded: seq<Candidate>, next: nat, stop: Option<nat>)
    requires maxTokens > 0 && NonEmptyChunks(chunks) && out == Numbered(chunks) && ordinal == |chunks|
    ensures NonEmptyChunks(SectionYield(section, maxTokens, overlap, chunks, stop))
    ensures yielded == Numbered(SectionYield(section, maxTokens, overlap, chunks, stop)) && next == |yielded|
    ensures StopsAt(section, maxTokens, policy, stop) && (stop.Some? ==> stop.value < |section|)
  {
    hide BuildCandidate, Numbered, Pack, PackLeft, PackOne, Count, Cost, NonEmptyChunks, StopsAt, SplitPieces,
      TailStart;
    yielded, next, stop := out, ordinal, None;
    var group: seq<Positioned>, groupTokens: nat := [], 0;
    SectionStart(section, chunks, maxTokens, overlap, policy);
    for i := 0 to |section|
      invariant Packed(section[..i], maxTokens, overlap, chunks, group, groupTokens, yielded, next)
      invariant stop == None && StopsAt(section[..i], maxTokens, policy, None)
    {
      var item := section[i];
      var cost := Count(item.element.text);
      ghost var (done, open) := PackLeft(section[..i], maxTokens, overlap);
      ghost var before := chunks + done;
      assert section[..i + 1] == section[..i] + [item];
      PackStep(section[..i], item, maxTokens, overlap, chunks);
      OpenNumbered(before, open);
      StopsLater(section, i, maxTokens, policy);
      if cost > maxTokens {
        if group != [] {
          yielded := yielded + [BuildCandidate(group, next)];
          next := next + 1;
          group, groupTokens := [], 0;
        }
        if policy == Fail {
          stop := Some(i);
          PackStopped(section[..i], maxTokens, overlap, chunks);
          return;
        }
        yielded, next := YieldPieces(item, maxTokens, yielded, next, before + Open(open));
      } else {
        if group != [] && groupTokens + cost > maxTokens {
          yielded := yielded + [BuildCandidate(group, next)];
          next := next + 1;
          group := TakeOverlapTail(group, overlap);
          groupTokens := Cost(group);
        }
        CostGrows(group, item);
        group := group + [item];
        groupTokens := groupTokens + cost;
      }
    }
    assert section[..|section|] == section;
    PackStopped(section, maxTokens, overlap, chunks);
    ghost var (done, open) := PackLeft(section, maxTokens, overlap);
    OpenNumbered(chunks + done, open);
    if group != [] {
      yielded := yielded + [BuildCandidate(group, next)];
      next := next + 1;
    }
  }

  // ----- whole documents

  /** How many elements are chunked before the chunker stops. */
  function StopIndex(elements: seq<Element>, maxTokens: nat, policy: Policy): (j: nat)
    ensures j <= |elements|
  {
    if policy == Fail then FirstOversized(Place(elements, 0), maxTokens) else |elements|
  }

  /** Under the fail policy, the chunks of the elements before the first oversized one; else those of all. */
  function DocumentYield(elements: seq<Element>, maxTokens: nat, overlap: int, policy: Policy): seq<Chunk>
    requires maxTokens > 0
  {
    DocumentChunks(elements[..StopIndex(elements, maxTokens, policy)], maxTokens, overlap)
  }

  function FailureOf(elements: seq<Element>, maxTokens: nat, policy: Policy): Option<Oversized> {
    var j := StopIndex(elements, maxTokens, policy);
    if j < |elements| then Some(Oversized(elements[j].id, Count(elements[j].text))) else None
  }

  /** Sections are the only way to cut the elements into maximal runs under one heading path. */
  lemma {:induction false} SectionsUnique(sections: seq<seq<Positioned>>)
    requires SectionsOk(sections)
    ensures Sections(Flatten(sections)) == sections
    decreases |sections|, if sections == [] then 0 else |LastOf(sections)|
  {
    if sections != [] {
      var init, last := sections[..|sections| - 1], LastOf(sections);
      var front, item := last[..|last| - 1], last[|last| - 1];
      var shorter := init + if front == [] then [] else [front];
      ShorterOk(init, front, item);
      assert front + [item] == last && init + [last] == sections;
      SectionsUnique(shorter);
      SectionsSnoc(Flatten(shorter), item);
      AddFlattens(shorter, item);
      hide SectionsOk, AddToSections, Sections, Flatten;
    }
  }

  /** Sections with fewer elements at the end of the last one are valid. */
  lemma ShortenedOk(sections: seq<seq<Positioned>>, shorter: seq<seq<Positioned>>)
    requires SectionsOk(sections) && |shorter| <= |sections|
    requires forall k :: 0 <= k < |shorter| ==> Starts(shorter[k], sections[k])
    ensures SectionsOk(shorter)
  {
    hide UnderHeading;
    forall k | 0 <= k < |shorter|
      ensures shorter[k] != [] && UnderHeading(shorter[k], shorter[k][0].element.headingPath)
    {
      StartsUnder(shorter[k], sections[k]);
    }
    forall k | 0 < k < |shorter| ensures shorter[k - 1][0].element.headingPath != shorter[k][0].element.headingPath {
      assert Starts(shorter[k], sections[k]) && Starts(shorter[k - 1], sections[k - 1]);
    }
  }

  ghost predicate Starts(a: seq<Positioned>, b: seq<Positioned>) {
    0 < |a| <= |b| && a == b[..|a|]
  }

  lemma StartsUnder(a: seq<Positioned>, b: seq<Positioned>)
    requires Starts(a, b) && UnderHeading(b, b[0].element.headingPath)
    ensures UnderHeading(a, a[0].element.headingPath)
  {
  }

  /** Taking the last element off valid sections leaves valid sections that it goes back into. */
  lemma ShorterOk(init: seq<seq<Positioned>>, front: seq<Positioned>, item: Positioned)
    requires SectionsOk(init + [front + [item]])
    ensures var shorter := init + if front == [] then [] else [front];
      SectionsOk(shorter) && AddToSections(shorter, item) == init + [front + [item]]
  {
    var sections := init + [front + [item]];
    var n := |init|;
    var shorter := init + if front == [] then [] else [front];
    assert sections[n] == front + [item];
    forall k | 0 <= k < |shorter| ensures Starts(shorter[k], sections[k]) {
      assert k < n ==> sections[k] == init[k];
    }
    ShortenedOk(sections, shorter);
    if front == [] {
      assert front + [item] == [item];
      if n > 0 {
        assert sections[n - 1][0].element.headingPath != sections[n][0].element.headingPath;
        assert LastOf(init[n - 1]).element.headingPath == init[n - 1][0].element.headingPath;
      }
    } else {
      assert LastOf(front) == sections[n][|front| - 1] && item == sections[n][|front|];
      assert shorter[..n] == init;
    }
  }

  lemma {:induction false} SectionChunksConcat(a: seq<seq<Positioned>>, b: seq<seq<Positioned>>, maxTokens: nat,
                                               overlap: int)
    requires maxTokens > 0
    ensures SectionChunks(a + b, maxTokens, overlap) ==
      SectionChunks(a, maxTokens, overlap) + SectionChunks(b, maxTokens, overlap)
  {
    hide Pack;
    if a == [] {
      assert a + b == b;
    } else {
      assert (a + b)[1..] == a[1..] + b;
      SectionChunksConcat(a[1..], b, maxTokens, overlap);
    }
  }

  lemma SectionChunksSnoc(sections: seq<seq<Positioned>>, section: seq<Positioned>, maxTokens: nat, overlap: int)
    requires maxTokens > 0
    ensures SectionChunks(sections + [section], maxTokens, overlap) ==
      SectionChunks(sections, maxTokens, overlap) + Pack(section, EMPTY, maxTokens, overlap)
  {
    hide Pack;
    SectionChunksConcat(sections, [section], maxTokens, overlap);
    assert [section][1..] == [] && SectionChunks([], maxTokens, overlap) == [];
  }

  lemma FlattenSnoc(sections: seq<seq<Positioned>>, section: seq<Positioned>)
    ensures Flatten(sections + [section]) == Flatten(sections) + section
  {
    FlattenConcat(sections, [section]);
    FlattenOne(section);
  }

  lemma DocumentStart(sections: seq<seq<Positioned>>, maxTokens: nat, overlap: int, policy: Policy)
    requires maxTokens > 0
    ensures SectionChunks(sections[..0], maxTokens, overlap) == [] && NonEmptyChunks([]) && Numbered([]) == []
    ensures StopsAt(Flatten(sections[..0]), maxTokens, policy, None)
  {
  }

  lemma SectionDone(sections: seq<seq<Positioned>>, s: nat, maxTokens: nat, overlap: int, policy: Policy)
    requires maxTokens > 0 && s < |sections|
    requires StopsAt(Flatten(sections[..s]), maxTokens, policy, None) && StopsAt(sections[s], maxTokens, policy, None)
    ensures StopsAt(Flatten(sections[..s + 1]), maxTokens, policy, None)
    ensures SectionChunks(sections[..s + 1], maxTokens, overlap) ==
      SectionYield(sections[s], maxTokens, overlap, SectionChunks(sections[..s], maxTokens, overlap), None)
  {
    hide Pack, Count, SectionChunks, Flatten;
    FlattenSnoc(sections[..s], sections[s]);
    SectionChunksSnoc(sections[..s], sections[s], maxTokens, overlap);
    assert sections[..s + 1] == sections[..s] + [sections[s]];
  }

  lemma {:induction false} PlacePrefix(elements: seq<Element>, at: nat, j: nat)
    requires j <= |elements|
    ensures Place(elements[..j], at) == Place(elements, at)[..j]
  {
    if 0 < j {
      assert elements[..j][1..] == elements[1..][..j - 1];
      PlacePrefix(elements[1..], at + |elements[0].text| + 2, j - 1);
    }
  }

  lemma RunThrough(elements: seq<Element>, sections: seq<seq<Positioned>>, maxTokens: nat, overlap: int, policy: Policy)
    requires maxTokens > 0 && sections == Sections(Place(elements, 0)) && Flatten(sections) == Place(elements, 0)
    requires StopsAt(Flatten(sections[..|sections|]), maxTokens, policy, None)
    ensures DocumentYield(elements, maxTokens, overlap, policy) ==
      SectionChunks(sections[..|sections|], maxTokens, overlap)
    ensures FailureOf(elements, maxTokens, policy) == None
  {
    hide SectionChunks, Sections, Place, Count, Flatten, FirstOversized;
    assert sections[..|sections|] == sections;
    var placed := Place(elements, 0);
    assert placed[..|placed|] == placed && elements[..|elements|] == elements;
    if policy == Fail {
      FirstOversizedIs(placed, maxTokens, |placed|);
    }
  }

  /** The first sections, and the next one cut short. */
  function Cut(sections: seq<seq<Positioned>>, s: nat, i: nat): seq<seq<Positioned>>
    requires s < |sections| && i < |sections[s]|
  {
    sections[..s] + if i == 0 then [] else [sections[s][..i]]
  }

  lemma FlattenCut(sections: seq<seq<Positioned>>, s: nat, i: nat)
    requires s < |sections| && i < |sections[s]|
    ensures Flatten(Cut(sections, s, i)) == Flatten(sections[..s]) + sections[s][..i]
  {
    hide Flatten;
    if i == 0 {
      assert Cut(sections, s, i) == sections[..s];
    } else {
      FlattenSnoc(sections[..s], sections[s][..i]);
    }
  }

  lemma FlattenAround(sections: seq<seq<Positioned>>, s: nat)
    requires s < |sections|
    ensures Flatten(sections) == Flatten(sections[..s]) + (sections[s] + Flatten(sections[s + 1..]))
  {
    hide Flatten;
    FlattenConcat(sections[..s], sections[s..]);
    FlattenConcat([sections[s]], sections[s + 1..]);
    FlattenOne(sections[s]);
    assert sections[..s] + sections[s..] == sections;
    assert [sections[s]] + sections[s + 1..] == sections[s..];
  }

  /** The elements before the stopping point are cut into the same sections, the last one cut short. */
  lemma PrefixSections(sections: seq<seq<Positioned>>, s: nat, i: nat)
    requires SectionsOk(sections) && s < |sections| && i < |sections[s]|
    ensures
      var j := |Flatten(sections[..s])| + i;
      && j < |Flatten(sections)|
      && Flatten(sections)[..j] == Flatten(sections[..s]) + sections[s][..i]
      && Flatten(sections)[j] == sections[s][i]
      && Sections(Flatten(sections)[..j]) == Cut(sections, s, i)
  {
    CutOk(sections, s, i);
    SectionsUnique(Cut(sections, s, i));
    FlattenCut(sections, s, i);
    FlattenAround(sections, s);
    hide SectionsOk, Sections, Flatten, Cut;
    TakeInto(Flatten(sections[..s]), sections[s], Flatten(sections[s + 1..]), i);
  }

  lemma TakeInto<T>(a: seq<T>, b: seq<T>, c: seq<T>, i: nat)
    requires i < |b|
    ensures (a + (b + c))[..|a| + i] == a + b[..i] && (a + (b + c))[|a| + i] == b[i]
  {
  }

  lemma CutOk(sections: seq<seq<Positioned>>, s: nat, i: nat)
    requires SectionsOk(sections) && s < |sections| && i < |sections[s]|
    ensures SectionsOk(Cut(sections, s, i))
  {
    var cut := Cut(sections, s, i);
    assert forall k :: 0 <= k < |cut| ==>
      |cut[k]| > 0 && cut[k][0] == sections[k][0] && (forall p :: p in cut[k] ==> p in sections[k]);
  }

  lemma CutChunks(sections: seq<seq<Positioned>>, s: nat, maxTokens: nat, overlap: int, i: nat)
    requires maxTokens > 0 && s < |sections| && i < |sections[s]|
    ensures SectionChunks(Cut(sections, s, i), maxTokens, overlap) ==
      SectionYield(sections[s], maxTokens, overlap, SectionChunks(sections[..s], maxTokens, overlap), Some(i))
  {
    hide SectionChunks, Pack;
    if i == 0 {
      assert sections[s][..0] == [];
      assert Cut(sections, s, i) == sections[..s];
      PackNothing(maxTokens, overlap);
    } else {
      SectionChunksSnoc(sections[..s], sections[s][..i], maxTokens, overlap);
    }
  }

  lemma StopIndexIs(elements: seq<Element>, sections: seq<seq<Positioned>>, s: nat, maxTokens: nat, policy: Policy,
                    i: nat)
    requires Flatten(sections) == Place(elements, 0) && SectionsOk(sections)
    requires s < |sections| && StopsAt(Flatten(sections[..s]), maxTokens, policy, None)
    requires StopsAt(sections[s], maxTokens, policy, Some(i))
    ensures StopIndex(elements, maxTokens, policy) == |Flatten(sections[..s])| + i
    ensures i < |sections[s]| && FailureOf(elements, maxTokens, policy) ==
      Some(Oversized(sections[s][i].element.id, Count(sections[s][i].element.text)))
  {
    var j := |Flatten(sections[..s])| + i;
    PrefixSections(sections, s, i);
    hide SectionsOk, Sections, Flatten, Place, Count, Cut;
    assert AllFit(Flatten(sections[..s]) + sections[s][..i], maxTokens);
    FirstOversizedIs(Place(elements, 0), maxTokens, j);
  }

  lemma StoppedAt(elements: seq<Element>, sections: seq<seq<Positioned>>, s: nat, maxTokens: nat, overlap: int,
                  policy: Policy, i: nat)
    requires maxTokens > 0 && Flatten(sections) == Place(elements, 0) && SectionsOk(sections)
    requires s < |sections| && StopsAt(Flatten(sections[..s]), maxTokens, policy, None)
    requires StopsAt(sections[s], maxTokens, policy, Some(i))
    ensures DocumentYield(elements, maxTokens, overlap, policy) ==
      SectionYield(sections[s], maxTokens, overlap, SectionChunks(sections[..s], maxTokens, overlap), Some(i))
    ensures i < |sections[s]| && FailureOf(elements, maxTokens, policy) ==
      Some(Oversized(sections[s][i].element.id, Count(sections[s][i].element.text)))
  {
    hide SectionsOk, Sections, Flatten, Place, SectionChunks, Count, StopsAt, FailureOf, StopIndex, Cut, SectionYield;
    var j := |Flatten(sections[..s])| + i;
    StopIndexIs(elements, sections, s, maxTokens, policy, i);
    PrefixSections(sections, s, i);
    PlacePrefix(elements, 0, j);
    CutChunks(sections, s, maxTokens, overlap, i);
  }

  lemma PackNothing(maxTokens: nat, overlap: int)
    requires maxTokens > 0
    ensures Pack([], EMPTY, maxTokens, overlap) == []
  {
  }

  /** `iterate_chunks` of the hierarchical chunker. */
  method HierarchicalChunks(elements: seq<Element>, maxTokens: nat, policy: Policy)
    returns (yielded: seq<Candidate>, failure: Option<Oversized>)
    requires maxTokens > 0
    ensures NonEmptyChunks(DocumentYield(elements, maxTokens, 0, policy))
    ensures yielded == Numbered(DocumentYield(elements, maxTokens, 0, policy))
    ensures failure == FailureOf(elements, maxTokens, policy)
  {
    hide Numbered, NonEmptyChunks, Pack, SectionChunks, Flatten, Sections, SectionsOk, StopsAt, Count, FirstOversized,
      Place, DocumentYield, FailureOf;
    var positioned := PositionElements(elements);
    var sections := GroupByHeadingPath(positioned);
    SectionsPartition(positioned);
    yielded, failure := [], None;
    var ordinal := 0;
    DocumentStart(sections, maxTokens, 0, policy);
    for s := 0 to |sections|
      invariant NonEmptyChunks(SectionChunks(sections[..s], maxTokens, 0))
      invariant yielded == Numbered(SectionChunks(sections[..s], maxTokens, 0)) && ordinal == |yielded|
      invariant failure == None && StopsAt(Flatten(sections[..s]), maxTokens, policy, None)
    {
      ghost var chunks := SectionChunks(sections[..s], maxTokens, 0);
      var stop;
      yielded, ordinal, stop := HierarchicalSection(sections[s], maxTokens, policy, yielded, ordinal, chunks);
      if stop.Some? {
        StoppedAt(elements, sections, s, maxTokens, 0, policy, stop.value);
        var at := sections[s][stop.value].element;
        failure := Some(Oversized(at.id, Count(at.text)));
        return;
      }
      SectionDone(sections, s, maxTokens, 0, policy);
    }
    RunThrough(elements, sections, maxTokens, 0, policy);
  }

  /** `iterate_chunks` of the hybrid chunker. */
  method HybridChunks(elements: seq<Element>, maxTokens: nat, overlap: int, policy: Policy)
    returns (yielded: seq<Candidate>, failure: Option<Oversized>)
    requires maxTokens > 0
    ensures NonEmptyChunks(DocumentYield(elements, maxTokens, overlap, policy))
    ensures yielded == Numbered(DocumentYield(elements, maxTokens, overlap, policy))
    ensures failure == FailureOf(elements, maxTokens, policy)
  {
    hide Numbered, NonEmptyChunks, Pack, SectionChunks, Flatten, Sections, SectionsOk, StopsAt, Count, FirstOversized,
      Place, DocumentYield, FailureOf;
    var positioned := PositionElements(elements);
    var sections := GroupByHeadingPath(positioned);
    SectionsPartition(positioned);
    yielded, failure := [], None;
    var ordinal := 0;
    DocumentStart(sections, maxTokens, overlap, policy);
    for s := 0 to |sections|
      invariant NonEmptyChunks(SectionChunks(sections[..s], maxTokens, overlap))
      invariant yielded == Numbered(SectionChunks(sections[..s], maxTokens, overlap)) && ordinal == |yielded|
      invariant failure == None && StopsAt(Flatten(sections[..s]), maxTokens, policy, None)
    {
      ghost var chunks := SectionChunks(sections[..s], maxTokens, overlap);
      var stop;
      yielded, ordinal, stop := HybridSection(sections[s], maxTokens, overlap, policy, yielded, ordinal, chunks);
      if stop.Some? {
        StoppedAt(elements, sections, s, maxTokens, overlap, policy, stop.value);
        var at := sections[s][stop.value].element;
        failure := Some(Oversized(at.id, Count(at.text)));
        return;
      }
      SectionDone(sections, s, maxTokens, overlap, policy);
    }
    RunThrough(elements, sections, maxTokens, overlap, policy);
  }
}
