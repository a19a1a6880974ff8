/** What a yielded chunk is made of: whole elements within the limit, or one full piece of an element beyond it. */
module ChunkContents {
  import opened Ordering
  import opened StableSort
  import opened Tokenizer
  import opened Chunks
  import opened Packing
  import opened Chunkers
  import opened Candidates

  /** One of the pieces `item` is split into. */
  ghost predicate IsPieceOf(q: Positioned, item: Positioned, maxTokens: nat)
    requires maxTokens > 0
  {
    Count(item.element.text) > maxTokens && q in SplitPieces(item, maxTokens)
  }

  /** Whole elements of `all` within the limit, or one piece of an element beyond it. */
  ghost predicate MadeOf(c: Chunk, all: seq<Positioned>, maxTokens: nat)
    requires maxTokens > 0
  {
    if c.piece then |c.parts| == 1 && exists item :: item in all && IsPieceOf(c.parts[0], item, maxTokens)
    else forall p :: p in c.parts ==> p in all && Count(p.element.text) <= maxTokens
  }

  lemma PackOneMadeOf(item: Positioned, group: Chunk, all: seq<Positioned>, maxTokens: nat, overlap: int)
    requires maxTokens > 0 && item in all && MadeOf(group, all, maxTokens) && !group.piece
    ensures var (closed, next) := PackOne(item, group, maxTokens, overlap);
      && MadeOf(next, all, maxTokens) && !next.piece && forall c :: c in closed ==> MadeOf(c, all, maxTokens)
  {
    hide Count, SplitPieces, TailStart;
    if Count(item.element.text) > maxTokens {
      var pieces := SplitPieces(item, maxTokens);
      forall c | c in Singles(pieces) ensures MadeOf(c, all, maxTokens) {
        var i :| 0 <= i < |pieces| && c == Chunk(true, 0, [pieces[i]]);
        assert IsPieceOf(c.parts[0], item, maxTokens);
      }
    }
  }

  lemma {:induction false} PackMadeOf(items: seq<Positioned>, group: Chunk, all: seq<Positioned>, maxTokens: nat,
                                      overlap: int)
    requires maxTokens > 0 && (forall p :: p in items ==> p in all) && MadeOf(group, all, maxTokens) && !group.piece
    ensures forall c :: c in Pack(items, group, maxTokens, overlap) ==> MadeOf(c, all, maxTokens)
    decreases |items|
  {
    hide PackOne, MadeOf;
    if items != [] {
      PackOneMadeOf(items[0], group, all, maxTokens, overlap);
      var (closed, next) := PackOne(items[0], group, maxTokens, overlap);
      PackMadeOf(items[1..], next, all, maxTokens, overlap);
    }
  }

  lemma {:induction false} SectionsMadeOf(sections: seq<seq<Positioned>>, all: seq<Positioned>, maxTokens: nat,
                                          overlap: int)
    requires maxTokens > 0 && forall p :: p in Flatten(sections) ==> p in all
    ensures forall c :: c in SectionChunks(sections, maxTokens, overlap) ==> MadeOf(c, all, maxTokens)
  {
    if sections != [] {
      PackMadeOf(sections[0], EMPTY, all, maxTokens, overlap);
      hide Pack, MadeOf;
      SectionsMadeOf(sections[1..], all, maxTokens, overlap);
    }
  }

  /** No element within the limit is ever split, and only one beyond it is. */
  lemma YieldMadeOf(elements: seq<Element>, maxTokens: nat, overlap: int, policy: Policy)
    requires maxTokens > 0
    ensures forall c :: c in DocumentYield(elements, maxTokens, overlap, policy) ==>
      MadeOf(c, Place(elements, 0), maxTokens)
    ensures policy == Fail ==> forall c :: c in DocumentYield(elements, maxTokens, overlap, policy) ==> !c.piece
  {
    var j := StopIndex(elements, maxTokens, policy);
    var placed := Place(elements[..j], 0);
    SectionsPartition(placed);
    PlacePrefix(elements, 0, j);
    hide Place, Sections, Flatten, SectionChunks, SectionsOk, MadeOf;
    SectionsMadeOf(Sections(placed), placed, maxTokens, overlap);
    forall c | c in DocumentYield(elements, maxTokens, overlap, policy)
      ensures MadeOf(c, Place(elements, 0), maxTokens)
      ensures policy == Fail ==> !c.piece
    {
      StillMadeOf(c, placed, Place(elements, 0), maxTokens);
      if policy == Fail {
        WholeWhereAllFit(c, placed, maxTokens);
      }
    }
  }

  lemma StillMadeOf(c: Chunk, some: seq<Positioned>, all: seq<Positioned>, maxTokens: nat)
    requires maxTokens > 0 && MadeOf(c, some, maxTokens) && forall p :: p in some ==> p in all
    ensures MadeOf(c, all, maxTokens)
  {
    hide IsPieceOf;
  }

  lemma WholeWhereAllFit(c: Chunk, all: seq<Positioned>, maxTokens: nat)
    requires maxTokens > 0 && MadeOf(c, all, maxTokens) && AllFit(all, maxTokens)
    ensures !c.piece
  {
    hide Count, SplitPieces;
  }

  /** Every piece but the last of an element holds as many tokens as the limit allows. */
  lemma {:induction false} PiecesFull(item: Positioned, maxTokens: nat, from: nat)
    requires maxTokens > 0 && from <= Count(item.element.text)
    ensures var pieces := PiecesFrom(item, maxTokens, from);
      forall i :: 0 <= i < |pieces| - 1 ==> Count(pieces[i].element.text) == maxTokens
    decreases Count(item.element.text) - from
  {
    hide Count, Piece;
    var n := Count(item.element.text);
    if from + maxTokens < n {
      PieceCount(item, from, from + maxTokens);
      PiecesFull(item, maxTokens, from + maxTokens);
      var rest := PiecesFrom(item, maxTokens, from + maxTokens);
      assert PiecesFrom(item, maxTokens, from) == [Piece(item, from, from + maxTokens)] + rest;
    } else {
      assert PiecesFrom(item, maxTokens, from + maxTokens) == [];
    }
  }

  lemma PieceCount(item: Positioned, a: nat, b: nat)
    requires a < b <= Count(item.element.text)
    ensures Count(Piece(item, a, b).element.text) == b - a
  {
    PieceTokens(item, a, b);
    hide Tokens;
  }

  /** The fail policy reports the first element beyond the limit with its tokens; the split policy never fails. */
  lemma FailureIsFirst(elements: seq<Element>, maxTokens: nat, policy: Policy)
    ensures FailureOf(elements, maxTokens, policy).None? <==>
      policy == Split || forall e :: e in elements ==> Count(e.text) <= maxTokens
    ensures FailureOf(elements, maxTokens, policy).Some? ==>
      exists j :: 0 <= j < |elements| && Count(elements[j].text) > maxTokens &&
        (forall i :: 0 <= i < j ==> Count(elements[i].text) <= maxTokens) &&
        FailureOf(elements, maxTokens, policy) == Some(Oversized(elements[j].id, Count(elements[j].text)))
  {
    hide Count, Place;
    var j, placed := StopIndex(elements, maxTokens, policy), Place(elements, 0);
    if policy == Fail {
      forall i | 0 <= i < j ensures Count(elements[i].text) <= maxTokens {
        assert placed[..j][i] == placed[i];
        assert placed[..j][i] in placed[..j];
      }
    }
  }
}
