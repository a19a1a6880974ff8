/** Cached stages outside normal form: exactly when the cache shows. */
module CacheTransparency {
  import opened Ordering
  import opened Canonical
  import opened CanonicalNormal
  import opened StageKeys
  import opened StageCaching
  import Candidates
  import CanonicalIdentity

  // ----- the chunk stage

  /** Two documents share a chunk key exactly when they denote the same after normalization. */
  lemma ChunkKeyCollidesIff(h: Hashing, a: Adapter, c: Json, v: Json, w: Json)
    requires CollisionFree(h) && NormalAdapter(h, a) && Representable(c) && Representable(v) && Representable(w)
    ensures ChunkKey(h, a, c, v) == ChunkKey(h, a, c, w) <==> Denote(h.nfc, v) == Denote(h.nfc, w)
  {
    CanonicalIdentity.TextIffDenotes(h.nfc, v, w);
    ConfigHashAscii(h, CHUNKER_NAMES, a, c);
    StageNames();
    hide StageCacheKey, ConfigHash, Ascii, Text, Denote, NormalAdapter, Representable;
    if ChunkKey(h, a, c, v) == ChunkKey(h, a, c, w) {
      KeyIdentifies(h, "chunk", HashCanonical(h, v), a, ConfigHash(h, CHUNKER_NAMES, a, c), "chunk",
        HashCanonical(h, w), a, ConfigHash(h, CHUNKER_NAMES, a, c));
    }
  }

  /** What the chunker itself gives. */
  function DirectChunks<C, V>(ad: Adapters<C, V>, a: Adapter, c: Json, v: Json): Option<seq<C>>
    requires Representable(c) && Representable(v)
  {
    var chunked := ad.chunk(a, Content(c), Content(v));
    if chunked.Some? then Some(chunked.value.0) else None
  }

  /** What the cached stage gives for `w` after a first build has run it on `v`. */
  function ChunksAfter<C, V>(h: Hashing, ad: Adapters<C, V>, a: Adapter, c: Json, v: Json, w: Json): Option<seq<C>>
    requires Representable(c) && Representable(v) && Representable(w)
  {
    ChunkStage(h, ad, ChunkStage(h, ad, map[], a, c, v).1, a, c, w).0
  }

  /** The stage on a cache without its key. */
  lemma ChunkMiss<C, V>(h: Hashing, ad: Adapters<C, V>, entries: Entries<V>, a: Adapter, c: Json, v: Json)
    requires Representable(c) && Representable(v) && ChunkKey(h, a, c, v) !in entries
    ensures var (candidates, after) := ChunkStage(h, ad, entries, a, c, v);
      && candidates == DirectChunks(ad, a, c, v)
      && (candidates.None? ==> after == entries)
      && (candidates.Some? ==> exists dropped :: after == entries[ChunkKey(h, a, c, v) :=
        Chunked(DumpAll(ad, candidates.value), dropped)])
  {
    hide ChunkKey, Content, Representable, DumpAll;
    var chunked := ad.chunk(a, Content(c), Content(v));
    if chunked.Some? {
      assert ChunkStage(h, ad, entries, a, c, v).1 == entries[ChunkKey(h, a, c, v) :=
        Chunked(DumpAll(ad, chunked.value.0), chunked.value.1)];
    }
  }

  lemma ChunkHit<C(!new), V(!new)>(h: Hashing, ad: Adapters<C, V>, entries: Entries<V>, a: Adapter, c: Json, v: Json,
      candidates: seq<C>, dropped: nat)
    requires Reloads(ad) && Representable(c) && Representable(v)
    requires ChunkKey(h, a, c, v) in entries && entries[ChunkKey(h, a, c, v)] ==
      Chunked(DumpAll(ad, candidates), dropped)
    ensures ChunkStage(h, ad, entries, a, c, v).0 == Some(candidates)
  {
    LoadsDumped(ad, candidates);
    hide ChunkKey, Content, Representable, DumpAll, LoadAll, Reloads;
  }

  lemma ChunksAfterIs<C(!new), V(!new)>(h: Hashing, ad: Adapters<C, V>, a: Adapter, c: Json, v: Json, w: Json)
    requires Reloads(ad) && Representable(c) && Representable(v) && Representable(w)
    ensures ChunksAfter(h, ad, a, c, v, w) ==
      if ChunkKey(h, a, c, v) == ChunkKey(h, a, c, w) && DirectChunks(ad, a, c, v).Some? then DirectChunks(ad, a, c, v)
        else DirectChunks(ad, a, c, w)
  {
    hide ChunkKey, ChunkStage, DirectChunks, Reloads, Representable, DumpAll;
    ChunkMiss(h, ad, map[], a, c, v);
    var (candidates, after) := ChunkStage(h, ad, map[], a, c, v);
    if candidates.Some? && ChunkKey(h, a, c, v) == ChunkKey(h, a, c, w) {
      var dropped :| after == map[][ChunkKey(h, a, c, v) := Chunked(DumpAll(ad, candidates.value), dropped)];
      ChunkHit(h, ad, after, a, c, w, candidates.value, dropped);
    } else {
      ChunkMiss(h, ad, after, a, c, w);
    }
  }

  /** A chunker that tells one document from all others. */
  function TellChunks(seen: Canon): Adapters<int, int> {
    Adapters(
      (a, c, raw) => Outcome("", None),
      (a, c, doc) => Some(([if doc == seen then 1 else 0], 0)),
      (a, c, n) => Contextualized("", 0),
      n => "",
      n => Candidates.Locator(None, None, None, [], 0, 0, 0),
      n => Int(n),
      (v: Json) => if v.Int? then Some(v.n) else None,
      (p, t, n) => Unavailable,
      n => "",
      n => Int(n))
  }

  /**
  Whatever the chunker, a build that comes second gets its own chunks: exactly when normalization does not merge the
  documents.
  */
  lemma ChunkTransparentIff(h: Hashing, a: Adapter, c: Json, v: Json, w: Json)
    requires CollisionFree(h) && NormalAdapter(h, a) && Representable(c) && Representable(v) && Representable(w)
    ensures (forall ad: Adapters<int, int> :: Reloads(ad) ==>
        ChunksAfter(h, ad, a, c, v, w) == DirectChunks(ad, a, c, w))
      <==> (Denote(h.nfc, v) == Denote(h.nfc, w) ==> Content(v) == Content(w))
  {
    ChunkKeyCollidesIff(h, a, c, v, w);
    if Denote(h.nfc, v) == Denote(h.nfc, w) && Content(v) != Content(w) {
      hide ChunkKey, ChunksAfter, DirectChunks, Denote, Content, Representable;
      ChunksTold(h, a, c, v, w);
    } else {
      hide ChunkKey, ChunksAfter, Denote, Content, Representable, Reloads;
      forall ad: Adapters<int, int> | Reloads(ad) ensures ChunksAfter(h, ad, a, c, v, w) == DirectChunks(ad, a, c, w) {
        ChunksAfterIs(h, ad, a, c, v, w);
      }
    }
  }

  lemma ChunksTold(h: Hashing, a: Adapter, c: Json, v: Json, w: Json)
    requires Representable(c) && Representable(v) && Representable(w)
    requires ChunkKey(h, a, c, v) == ChunkKey(h, a, c, w) && Content(v) != Content(w)
    ensures exists ad: Adapters<int, int> :: Reloads(ad) && ChunksAfter(h, ad, a, c, v, w) != DirectChunks(ad, a, c, w)
  {
    hide *;
    var ad := TellChunks(Content(v));
    TellReloads(Content(v));
    TellGives(a, c, v, Content(v));
    TellGives(a, c, w, Content(v));
    ChunksAfterIs(h, ad, a, c, v, w);
    assert ChunksAfter(h, ad, a, c, v, w) == Some([1]);
    assert [1][0] != [0][0];
  }

  lemma TellReloads(seen: Canon)
    ensures Reloads(TellChunks(seen))
  {
  }

  lemma TellGives(a: Adapter, c: Json, v: Json, seen: Canon)
    requires Representable(c) && Representable(v)
    ensures DirectChunks(TellChunks(seen), a, c, v) == Some([if Content(v) == seen then 1 else 0])
  {
    hide Content, Representable;
  }

  // ----- the embedding stage

  /** Two texts share an embedding key exactly when normalization and line-ending folding make them equal. */
  lemma EmbedKeyCollidesIff(h: Hashing, p: Provider, n: string, t: string, u: string)
    requires CollisionFree(h) && NormalProvider(h, p)
    ensures EmbedKey(h, p, n, t) == EmbedKey(h, p, n, u) <==> FoldLineEndings(h.nfc(t)) == FoldLineEndings(h.nfc(u))
  {
    StageNames();
    EmbeddingHashAscii(h, p, n);
    hide StageCacheKey, Ascii, EmbeddingConfigHash, FoldLineEndings;
    if EmbedKey(h, p, n, t) == EmbedKey(h, p, n, u) {
      KeyIdentifies(h, "embed", HashText(h, t), Adapter(p.provider + ":" + p.name, p.revision),
        EmbeddingConfigHash(h, p, n),
        "embed", HashText(h, u), Adapter(p.provider + ":" + p.name, p.revision), EmbeddingConfigHash(h, p, n));
    }
  }

  /** What the cached stage gives for `u` after a first build has run it on `t`. */
  function EmbeddingAfter<C, V>(h: Hashing, ad: Adapters<C, V>, p: Provider, n: string, t: string,
                                u: string): Embedding<V> {
    EmbedStage(h, ad, EmbedStage(h, ad, map[], p, n, t).1, p, n, u).0
  }

  lemma EmbeddingAfterIs<C, V>(h: Hashing, ad: Adapters<C, V>, p: Provider, n: string, t: string, u: string)
    ensures EmbeddingAfter(h, ad, p, n, t, u) ==
      if EmbedKey(h, p, n, t) == EmbedKey(h, p, n, u) && Embed(ad, p, t).Vector? then Embed(ad, p, t)
        else Embed(ad, p, u)
  {
    hide EmbedKey, Embed;
  }

  /** A provider that tells one text from all others. */
  function TellTexts(seen: string): Adapters<int, int> {
    TellChunks(CNull).(attempt := (p, t, n) => Vector(if t == seen then 1 else 0))
  }

  /**
  Whatever the provider, a build that comes second gets its own embedding: exactly when normalization and folding do not
  merge the texts.
  */
  lemma EmbedTransparentIff(h: Hashing, p: Provider, n: string, t: string, u: string)
    requires CollisionFree(h) && NormalProvider(h, p)
    ensures (forall ad: Adapters<int, int> :: EmbeddingAfter(h, ad, p, n, t, u) == Embed(ad, p, u))
      <==> (FoldLineEndings(h.nfc(t)) == FoldLineEndings(h.nfc(u)) ==> t == u)
  {
    EmbedKeyCollidesIff(h, p, n, t, u);
    if FoldLineEndings(h.nfc(t)) == FoldLineEndings(h.nfc(u)) && t != u {
      var ad := TellTexts(t);
      EmbeddingAfterIs(h, ad, p, n, t, u);
      hide EmbedKey, EmbeddingAfter, FoldLineEndings;
      assert Embed(ad, p, t) == Vector(1) && Embed(ad, p, u) == Vector(0);
      assert EmbeddingAfter(h, ad, p, n, t, u) != Embed(ad, p, u);
    } else {
      forall ad: Adapters<int, int> ensures EmbeddingAfter(h, ad, p, n, t, u) == Embed(ad, p, u) {
        EmbeddingAfterIs(h, ad, p, n, t, u);
        hide EmbedKey, EmbeddingAfter, Embed, FoldLineEndings;
      }
    }
  }
}
