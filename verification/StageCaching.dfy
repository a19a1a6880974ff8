/**
The stage cache and the cached parse, chunk and embed stages of a build.

Adapters are deterministic functions of their identity, the content of their configuration
and their input. A build's records do not depend on what the shared cache already holds.
*/
module StageCaching {
  import opened Ordering
  import opened Canonical
  import opened JsonDict
  import opened CanonicalNormal
  import opened StageKeys
  import Candidates
  import CanonicalIdentity
  import Decimal

  /** A parse outcome; the document is its JSON dump. */
  datatype Outcome = Outcome(status: string, document: Option<Json>)

  const OUTCOME_NAMES := ["status", "document"]

  /** The dump of an outcome, without the document where there is none. */
  function OutcomeJson(outcome: Outcome): Json {
    Obj(Present(OUTCOME_NAMES, [Some(Str(outcome.status)), outcome.document]))
  }

  /** `ParseOutcome.model_validate`; nothing where it raises. */
  function ReadOutcome(v: Json): Option<Outcome> {
    if !v.Obj? then None
    else
      var status := Lookup(v.members, "status");
      if status.Some? && status.value.Str? then Some(Outcome(status.value.s, Lookup(v.members, "document"))) else None
  }

  /** A stored outcome reads back as it was. */
  lemma OutcomeReads(outcome: Outcome)
    ensures ReadOutcome(OutcomeJson(outcome)) == Some(outcome)
  {
    var values := [Some(Str(outcome.status)), outcome.document];
    assert |OUTCOME_NAMES[0]| == 6 && |OUTCOME_NAMES[1]| == 8;
    LookupPresent(OUTCOME_NAMES, values, 0);
    LookupPresent(OUTCOME_NAMES, values, 1);
  }

  /** Whether a dumped document has elements. */
  predicate HasElements(document: Json) {
    && document.Obj?
    && var elements := Lookup(document.members, "elements");
      elements.Some? && elements.value.Arr? && elements.value.items != []
  }

  datatype Contextualized = Contextualized(text: string, tokenCount: nat)

  /** What an embedding provider and the checks on its answer give; a value is a vector and its usage. */
  datatype Embedding<V> = Unavailable | Invalid | Vector(value: V)

  datatype Provider = Provider(provider: string, name: string, revision: string, dimension: int, dtype: string)

  /**
  `dump` and `load` write a candidate to the cache and read it back; `attempt` is the nth call of a provider;
  `vectorHash` and `usageOf` are what is recorded of its answer.
  */
  datatype Adapters<!C, !V> = Adapters(
    parse: (Adapter, Canon, string) -> Outcome,
    chunk: (Adapter, Canon, Canon) -> Option<(seq<C>, nat)>,
    contextualize: (Adapter, Canon, C) -> Contextualized,
    rawText: C -> string,
    locatorOf: C -> Candidates.Locator,
    dump: C -> Json,
    load: Json -> Option<C>,
    attempt: (Provider, string, nat) -> Embedding<V>,
    vectorHash: V -> string,
    usageOf: V -> Json)

  /** The first of two attempts that answers. */
  function Embed<C, V>(ad: Adapters<C, V>, p: Provider, text: string): Embedding<V> {
    if ad.attempt(p, text, 0).Unavailable? then ad.attempt(p, text, 1) else ad.attempt(p, text, 0)
  }

  datatype BuildConfig = BuildConfig(
    parserOf: string -> Option<Adapter>,
    parserConfig: Json,
    chunker: Adapter,
    chunkerConfig: Json,
    provider: Option<Provider>,
    normalization: string,
    blocked: string -> bool)

  datatype Source = Source(versionId: string, mediaType: string, raw: string)

  /** A recorded chunk; its id is a hash of these fields. No text is recorded. */
  datatype ChunkRecord = ChunkRecord(
    versionId: string, parserConfigHash: string, chunkerConfigHash: string, locator: Candidates.Locator,
    rawHash: string, contextualizedHash: string, tokenCount: nat)

  /**
  A recorded embedding, of the vector its hash; its id is a hash of the chunk, the text hash and the configuration.
  */
  datatype EmbeddingRecord = EmbeddingRecord(
    chunk: ChunkRecord, provider: Provider, normalization: string, contextualizedHash: string,
      embeddingConfigHash: string,
    vectorHash: string, usage: Json)

  datatype Records = Records(chunks: seq<ChunkRecord>, embeddings: seq<EmbeddingRecord>)

  /** A cached stage output. */
  datatype Value<V> = Parsed(outcome: Json) | Chunked(candidates: seq<Json>, dropped: nat) | Embedded(vector: V)

  type Entries<V> = map<string, Value<V>>

  // ----- keys

  function ParseKey(h: Hashing, parser: Adapter, config: Json, raw: string): string
    requires Representable(config)
  {
    StageCacheKey(h, "parse", h.hash(raw), parser, ConfigHash(h, PARSER_NAMES, parser, config))
  }

  function ChunkKey(h: Hashing, chunker: Adapter, config: Json, document: Json): string
    requires Representable(config) && Representable(document)
  {
    StageCacheKey(h, "chunk", HashCanonical(h, document), chunker, ConfigHash(h, CHUNKER_NAMES, chunker, config))
  }

  const EMBEDDING_NAMES := ["provider", "name", "revision", "dimension", "dtype", "normalization"]

  function EmbeddingValues(p: Provider, normalization: string): seq<Json> {
    [Str(p.provider), Str(p.name), Str(p.revision), Int(p.dimension), Str(p.dtype), Str(normalization)]
  }

  function EmbeddingConfigHash(h: Hashing, p: Provider, normalization: string): string {
    HashCanonical(h, Obj(Fields(EMBEDDING_NAMES, EmbeddingValues(p, normalization))))
  }

  function EmbedKey(h: Hashing, p: Provider, normalization: string, text: string): string {
    StageCacheKey(h, "embed", HashText(h, text), Adapter(p.provider + ":" + p.name, p.revision),
      EmbeddingConfigHash(h, p, normalization))
  }

  // ----- what equal keys mean

  lemma StageNames()
    ensures Ascii("parse") && Ascii("chunk") && Ascii("embed")
    ensures "parse" != "chunk" && "parse" != "embed" && "chunk" != "embed"
  {
    assert "parse"[0] == 'p' && "chunk"[0] == 'c' && "embed"[0] == 'e';
  }

  /** A configuration a cached stage may run with: representable, and in normal form. */
  ghost predicate NormalJson(h: Hashing, v: Json) {
    Representable(v) && NormalForm(h.nfc, v)
  }

  ghost predicate NormalProvider(h: Hashing, p: Provider) {
    && NormalAdapter(h, Adapter(p.provider + ":" + p.name, p.revision))
    && h.nfc(p.provider) == p.provider && h.nfc(p.name) == p.name && h.nfc(p.dtype) == p.dtype
  }

  lemma SameContent(h: Hashing, v: Json, w: Json)
    requires NormalJson(h, v) && NormalJson(h, w) && Denote(h.nfc, v) == Denote(h.nfc, w)
    ensures Content(v) == Content(w)
  {
    DenoteNormal(h.nfc, v);
    DenoteNormal(h.nfc, w);
  }

  lemma ParseKeyIdentifies(h: Hashing, a: Adapter, c: Json, r: string, b: Adapter, d: Json, s: string)
    requires CollisionFree(h) && NormalAdapter(h, a) && NormalAdapter(h, b) && NormalJson(h, c) && NormalJson(h, d)
    requires ParseKey(h, a, c, r) == ParseKey(h, b, d, s)
    ensures a == b && Content(c) == Content(d) && r == s
  {
    hide StageCacheKey, ConfigHash, PlainNames, Ascii, Content, NormalAdapter;
    StageNames();
    ConfigNamesPlain();
    ConfigHashAscii(h, PARSER_NAMES, a, c);
    ConfigHashAscii(h, PARSER_NAMES, b, d);
    KeyIdentifies(h, "parse", h.hash(r), a, ConfigHash(h, PARSER_NAMES, a, c), "parse", h.hash(s), b,
      ConfigHash(h, PARSER_NAMES, b, d));
    ConfigIdentifies(h, PARSER_NAMES, a, c, b, d);
    SameContent(h, c, d);
  }

  lemma ConfigHashAscii(h: Hashing, names: seq<string>, a: Adapter, c: Json)
    requires CollisionFree(h) && Representable(c) && |names| == 3
    ensures Ascii(ConfigHash(h, names, a, c))
  {
  }

  lemma ChunkKeyIdentifies(h: Hashing, a: Adapter, c: Json, v: Json, b: Adapter, d: Json, w: Json)
    requires CollisionFree(h) && NormalAdapter(h, a) && NormalAdapter(h, b) && NormalJson(h, c) && NormalJson(h, d)
    requires NormalJson(h, v) && NormalJson(h, w) && ChunkKey(h, a, c, v) == ChunkKey(h, b, d, w)
    ensures a == b && Content(c) == Content(d) && Content(v) == Content(w)
  {
    hide StageCacheKey, ConfigHash, PlainNames, Ascii, Content, NormalAdapter, Text;
    StageNames();
    ConfigNamesPlain();
    ConfigHashAscii(h, CHUNKER_NAMES, a, c);
    ConfigHashAscii(h, CHUNKER_NAMES, b, d);
    KeyIdentifies(h, "chunk", HashCanonical(h, v), a, ConfigHash(h, CHUNKER_NAMES, a, c), "chunk", HashCanonical(h, w),
      b, ConfigHash(h, CHUNKER_NAMES, b, d));
    ConfigIdentifies(h, CHUNKER_NAMES, a, c, b, d);
    SameContent(h, c, d);
    HashIdentifies(h, v, w);
    SameContent(h, v, w);
  }

  lemma EmbeddingNamesPlain()
    ensures PlainNames(EMBEDDING_NAMES)
  {
    var k := EMBEDDING_NAMES;
    assert |k[0]| == 8 && |k[1]| == 4 && |k[2]| == 8 && |k[3]| == 9 && |k[4]| == 5 && |k[5]| == 13;
    assert k[0][0] == 'p' && k[2][0] == 'r';
  }

  lemma IntegersIdentified(nfc: string -> string, m: int, n: int)
    requires Denote(nfc, Int(m)) == Denote(nfc, Int(n))
    ensures m == n
  {
    var a, b: nat := if m < 0 then -m else m, if n < 0 then -n else n;
    assert IntegerParts(m) == IntegerParts(a) && IntegerParts(n) == IntegerParts(b);
    CanonicalIdentity.IntegerValue(a);
    CanonicalIdentity.IntegerValue(b);
    Decimal.SignificantValue(IntegerParts(a));
    Decimal.SignificantValue(IntegerParts(b));
  }

  lemma EmbedKeyIdentifies(h: Hashing, p: Provider, n: string, t: string, q: Provider, m: string, u: string)
    requires CollisionFree(h) && NormalProvider(h, p) && NormalProvider(h, q) && NormalText(h, t) && NormalText(h, u)
    requires EmbedKey(h, p, n, t) == EmbedKey(h, q, m, u)
    ensures p == q && t == u
  {
    hide StageCacheKey, Ascii, NormalText, FoldLineEndings, EmbeddingConfigHash;
    StageNames();
    EmbeddingHashAscii(h, p, n);
    EmbeddingHashAscii(h, q, m);
    KeyIdentifies(h, "embed", HashText(h, t), Adapter(p.provider + ":" + p.name, p.revision),
      EmbeddingConfigHash(h, p, n),
      "embed", HashText(h, u), Adapter(q.provider + ":" + q.name, q.revision), EmbeddingConfigHash(h, q, m));
    TextHashIdentifies(h, t, u);
    ProviderIdentified(h, p, n, q, m);
  }

  lemma EmbeddingRepresentable(p: Provider, n: string)
    ensures AllRepresentable(EmbeddingValues(p, n))
      && Representable(Obj(Fields(EMBEDDING_NAMES, EmbeddingValues(p, n))))
  {
    assert AllRepresentable(EmbeddingValues(p, n));
    FieldsRepresentable(EMBEDDING_NAMES, EmbeddingValues(p, n));
  }

  lemma ProviderIdentified(h: Hashing, p: Provider, n: string, q: Provider, m: string)
    requires CollisionFree(h) && NormalProvider(h, p) && NormalProvider(h, q) && p.revision == q.revision
    requires EmbeddingConfigHash(h, p, n) == EmbeddingConfigHash(h, q, m)
    ensures p == q
  {
    EmbeddingNamesPlain();
    EmbeddingRepresentable(p, n);
    EmbeddingRepresentable(q, m);
    hide PlainNames, Ascii, HashCanonical, CollisionFree, Representable, AllRepresentable;
    var v, w := EmbeddingValues(p, n), EmbeddingValues(q, m);
    HashedStrings(h, EMBEDDING_NAMES, v, w, 0);
    HashedStrings(h, EMBEDDING_NAMES, v, w, 1);
    HashedStrings(h, EMBEDDING_NAMES, v, w, 4);
    HashedFields(h, EMBEDDING_NAMES, v, w, 3);
    IntegersIdentified(h.nfc, p.dimension, q.dimension);
  }

  lemma EmbeddingHashAscii(h: Hashing, p: Provider, n: string)
    requires CollisionFree(h)
    ensures Ascii(EmbeddingConfigHash(h, p, n))
  {
  }

  lemma StagesApart(h: Hashing, s: string, i: string, a: Adapter, c: string, t: string, j: string, b: Adapter,
                    d: string)
    requires CollisionFree(h) && Ascii(s) && Ascii(t) && Ascii(i) && Ascii(j) && Ascii(c) && Ascii(d)
      && NormalAdapter(h, a) && NormalAdapter(h, b)
    requires s != t
    ensures StageCacheKey(h, s, i, a, c) != StageCacheKey(h, t, j, b, d)
  {
    if StageCacheKey(h, s, i, a, c) == StageCacheKey(h, t, j, b, d) {
      KeyIdentifies(h, s, i, a, c, t, j, b, d);
    }
  }

  // ----- the cached stages, over any cache

  function DumpAll<C, V>(ad: Adapters<C, V>, candidates: seq<C>): (r: seq<Json>)
    ensures |r| == |candidates| && forall i :: 0 <= i < |r| ==> r[i] == ad.dump(candidates[i])
  {
    seq(|candidates|, i requires 0 <= i < |candidates| => ad.dump(candidates[i]))
  }

  /** The dumped candidates; nothing where one does not read back. */
  function LoadAll<C, V>(ad: Adapters<C, V>, dumped: seq<Json>): Option<seq<C>> {
    if dumped == [] then Some([])
    else
      var init := LoadAll(ad, dumped[..|dumped| - 1]);
      var last := ad.load(dumped[|dumped| - 1]);
      if init.Some? && last.Some? then Some(init.value + [last.value]) else None
  }

  /** Every candidate reads back as it was dumped. */
  ghost predicate Reloads<C(!new), V(!new)>(ad: Adapters<C, V>) {
    forall c :: ad.load(ad.dump(c)) == Some(c)
  }

  lemma {:induction false} LoadsDumped<C(!new), V(!new)>(ad: Adapters<C, V>, candidates: seq<C>)
    requires Reloads(ad)
    ensures LoadAll(ad, DumpAll(ad, candidates)) == Some(candidates)
  {
    if candidates != [] {
      var init := candidates[..|candidates| - 1];
      LoadsDumped(ad, init);
      assert DumpAll(ad, candidates)[..|candidates| - 1] == DumpAll(ad, init);
      assert init + [candidates[|candidates| - 1]] == candidates;
    }
  }

  /** The parse stage: its outcome, or nothing where the entry is not one, and the cache it leaves. */
  function ParseStage<C, V>(h: Hashing, ad: Adapters<C, V>, entries: Entries<V>, parser: Adapter, config: Json,
                            raw: string): (Option<Outcome>, Entries<V>)
    requires Representable(config)
  {
    var key := ParseKey(h, parser, config, raw);
    if key in entries then (if entries[key].Parsed? then ReadOutcome(entries[key].outcome) else None, entries)
    else
      var outcome := ad.parse(parser, Content(config), raw);
      (Some(outcome), entries[key := Parsed(OutcomeJson(outcome))])
  }

  /** The chunk stage: its candidates, or nothing where it raises, and the cache it leaves. */
  function ChunkStage<C, V>(h: Hashing, ad: Adapters<C, V>, entries: Entries<V>, chunker: Adapter, config: Json,
                            document: Json): (Option<seq<C>>, Entries<V>)
    requires Representable(config) && Representable(document)
  {
    var key := ChunkKey(h, chunker, config, document);
    if key in entries then (if entries[key].Chunked? then LoadAll(ad, entries[key].candidates) else None, entries)
    else
      match ad.chunk(chunker, Content(config), Content(document))
      case None => (None, entries)
      case Some((candidates, dropped)) => (Some(candidates), entries[key := Chunked(DumpAll(ad, candidates), dropped)])
  }

  /** The embedding stage; only a vector is stored. */
  function EmbedStage<C, V>(h: Hashing, ad: Adapters<C, V>, entries: Entries<V>, p: Provider, normalization: string,
                            text: string): (Embedding<V>, Entries<V>) {
    var key := EmbedKey(h, p, normalization, text);
    if key in entries then (if entries[key].Embedded? then Vector(entries[key].vector) else Invalid, entries)
    else
      var e := Embed(ad, p, text);
      (e, if e.Vector? then entries[key := Embedded(e.value)] else entries)
  }

  // ----- sound caches

  /** The entry a parse leaves is what the parse gives. */
  ghost predicate ParseSound<C, V>(h: Hashing, ad: Adapters<C, V>, entries: Entries<V>, a: Adapter, c: Json,
                                   raw: string) {
    NormalAdapter(h, a) && NormalJson(h, c) && ParseKey(h, a, c, raw) in entries ==>
      entries[ParseKey(h, a, c, raw)] == Parsed(OutcomeJson(ad.parse(a, Content(c), raw)))
  }

  ghost predicate ChunkSound<C, V>(h: Hashing, ad: Adapters<C, V>, entries: Entries<V>, a: Adapter, c: Json, v: Json) {
    NormalAdapter(h, a) && NormalJson(h, c) && NormalJson(h, v) && ChunkKey(h, a, c, v) in entries ==>
      var chunked := ad.chunk(a, Content(c), Content(v));
      chunked.Some? && entries[ChunkKey(h, a, c, v)] == Chunked(DumpAll(ad, chunked.value.0), chunked.value.1)
  }

  ghost predicate EmbedSound<C, V>(h: Hashing, ad: Adapters<C, V>, entries: Entries<V>, p: Provider, n: string,
                                   t: string) {
    NormalProvider(h, p) && NormalText(h, t) && EmbedKey(h, p, n, t) in entries ==>
      Embed(ad, p, t).Vector? && entries[EmbedKey(h, p, n, t)] == Embedded(Embed(ad, p, t).value)
  }

  /** Every entry that inputs in normal form can reach is what the stage would compute. */
  ghost predicate Sound<C(!new), V(!new)>(h: Hashing, ad: Adapters<C, V>, entries: Entries<V>) {
    && (forall a, c, raw :: ParseSound(h, ad, entries, a, c, raw))
    && (forall a, c, v :: ChunkSound(h, ad, entries, a, c, v))
    && (forall p, n, t :: EmbedSound(h, ad, entries, p, n, t))
  }

  lemma ParseApart(h: Hashing, a: Adapter, c: Json, raw: string, b: Adapter, d: Json, v: Json)
    requires CollisionFree(h) && NormalAdapter(h, a) && NormalAdapter(h, b) && Representable(c) && Representable(d)
      && Representable(v)
    ensures ParseKey(h, a, c, raw) != ChunkKey(h, b, d, v)
  {
    StageNames();
    ConfigHashAscii(h, PARSER_NAMES, a, c);
    ConfigHashAscii(h, CHUNKER_NAMES, b, d);
    hide StageCacheKey, ConfigHash, Ascii, Text, NormalAdapter;
    StagesApart(h, "parse", h.hash(raw), a, ConfigHash(h, PARSER_NAMES, a, c), "chunk", HashCanonical(h, v), b,
      ConfigHash(h, CHUNKER_NAMES, b, d));
  }

  lemma ParseEmbedApart(h: Hashing, a: Adapter, c: Json, raw: string, p: Provider, n: string, t: string)
    requires CollisionFree(h) && NormalAdapter(h, a) && NormalJson(h, c) && NormalProvider(h, p)
    ensures ParseKey(h, a, c, raw) != EmbedKey(h, p, n, t)
  {
    StageNames();
    ConfigHashAscii(h, PARSER_NAMES, a, c);
    EmbeddingHashAscii(h, p, n);
    hide StageCacheKey, ConfigHash, Ascii, EmbeddingConfigHash, NormalAdapter;
    StagesApart(h, "parse", h.hash(raw), a, ConfigHash(h, PARSER_NAMES, a, c),
      "embed", HashText(h, t), Adapter(p.provider + ":" + p.name, p.revision), EmbeddingConfigHash(h, p, n));
  }

  lemma ChunkEmbedApart(h: Hashing, b: Adapter, d: Json, v: Json, p: Provider, n: string, t: string)
    requires CollisionFree(h) && NormalAdapter(h, b) && Representable(d) && Representable(v) && NormalProvider(h, p)
    ensures ChunkKey(h, b, d, v) != EmbedKey(h, p, n, t)
  {
    StageNames();
    ConfigHashAscii(h, CHUNKER_NAMES, b, d);
    EmbeddingHashAscii(h, p, n);
    hide StageCacheKey, ConfigHash, Ascii, EmbeddingConfigHash, NormalAdapter, Text;
    StagesApart(h, "chunk", HashCanonical(h, v), b, ConfigHash(h, CHUNKER_NAMES, b, d),
      "embed", HashText(h, t), Adapter(p.provider + ":" + p.name, p.revision), EmbeddingConfigHash(h, p, n));
  }

  /** Storing a parse keeps the cache sound. */
  lemma PutParsed<C(!new), V(!new)>(h: Hashing, ad: Adapters<C, V>, entries: Entries<V>, a: Adapter, c: Json,
      raw: string)
    requires CollisionFree(h) && Sound(h, ad, entries) && NormalAdapter(h, a) && NormalJson(h, c)
    ensures Sound(h, ad, entries[ParseKey(h, a, c, raw) := Parsed(OutcomeJson(ad.parse(a, Content(c), raw)))])
  {
    hide ParseKey, ChunkKey, EmbedKey, Content, NormalAdapter, NormalProvider, CollisionFree, OutcomeJson;
    var now := entries[ParseKey(h, a, c, raw) := Parsed(OutcomeJson(ad.parse(a, Content(c), raw)))];
    forall b, d, s ensures ParseSound(h, ad, now, b, d, s) {
      assert ParseSound(h, ad, entries, b, d, s);
      if NormalAdapter(h, b) && NormalJson(h, d) && ParseKey(h, b, d, s) == ParseKey(h, a, c, raw) {
        ParseKeyIdentifies(h, b, d, s, a, c, raw);
      }
    }
    forall b, d, v ensures ChunkSound(h, ad, now, b, d, v) {
      assert ChunkSound(h, ad, entries, b, d, v);
      if NormalAdapter(h, b) && NormalJson(h, d) && NormalJson(h, v) {
        ParseApart(h, a, c, raw, b, d, v);
      }
    }
    forall p, n, t ensures EmbedSound(h, ad, now, p, n, t) {
      assert EmbedSound(h, ad, entries, p, n, t);
      if NormalProvider(h, p) {
        ParseEmbedApart(h, a, c, raw, p, n, t);
      }
    }
  }

  lemma PutChunked<C(!new), V(!new)>(h: Hashing, ad: Adapters<C, V>, entries: Entries<V>, a: Adapter, c: Json, v: Json)
    requires CollisionFree(h) && Sound(h, ad, entries) && NormalAdapter(h, a) && NormalJson(h, c) && NormalJson(h, v)
    requires ad.chunk(a, Content(c), Content(v)).Some?
    ensures var chunked := ad.chunk(a, Content(c), Content(v)).value;
      Sound(h, ad, entries[ChunkKey(h, a, c, v) := Chunked(DumpAll(ad, chunked.0), chunked.1)])
  {
    hide ParseKey, ChunkKey, EmbedKey, Content, NormalAdapter, NormalProvider, CollisionFree, OutcomeJson;
    var chunked := ad.chunk(a, Content(c), Content(v)).value;
    var now := entries[ChunkKey(h, a, c, v) := Chunked(DumpAll(ad, chunked.0), chunked.1)];
    forall b, d, s ensures ParseSound(h, ad, now, b, d, s) {
      assert ParseSound(h, ad, entries, b, d, s);
      if NormalAdapter(h, b) && NormalJson(h, d) {
        ParseApart(h, b, d, s, a, c, v);
      }
    }
    forall b, d, w ensures ChunkSound(h, ad, now, b, d, w) {
      assert ChunkSound(h, ad, entries, b, d, w);
      if NormalAdapter(h, b) && NormalJson(h, d) && NormalJson(h, w) && ChunkKey(h, b, d, w) == ChunkKey(h, a, c, v) {
        ChunkKeyIdentifies(h, b, d, w, a, c, v);
      }
    }
    forall p, n, t ensures EmbedSound(h, ad, now, p, n, t) {
      assert EmbedSound(h, ad, entries, p, n, t);
      if NormalProvider(h, p) {
        ChunkEmbedApart(h, a, c, v, p, n, t);
      }
    }
  }

  lemma PutEmbedded<C(!new), V(!new)>(h: Hashing, ad: Adapters<C, V>, entries: Entries<V>, p: Provider, n: string,
      t: string)
    requires CollisionFree(h) && Sound(h, ad, entries) && NormalProvider(h, p) && NormalText(h, t)
      && Embed(ad, p, t).Vector?
    ensures Sound(h, ad, entries[EmbedKey(h, p, n, t) := Embedded(Embed(ad, p, t).value)])
  {
    hide ParseKey, ChunkKey, EmbedKey, Content, NormalAdapter, NormalProvider, CollisionFree, NormalText;
    var now := entries[EmbedKey(h, p, n, t) := Embedded(Embed(ad, p, t).value)];
    forall b, d, s ensures ParseSound(h, ad, now, b, d, s) {
      assert ParseSound(h, ad, entries, b, d, s);
      if NormalAdapter(h, b) && NormalJson(h, d) {
        ParseEmbedApart(h, b, d, s, p, n, t);
      }
    }
    forall b, d, w ensures ChunkSound(h, ad, now, b, d, w) {
      assert ChunkSound(h, ad, entries, b, d, w);
      if NormalAdapter(h, b) && NormalJson(h, d) && NormalJson(h, w) {
        ChunkEmbedApart(h, b, d, w, p, n, t);
      }
    }
    forall q, m, u ensures EmbedSound(h, ad, now, q, m, u) {
      assert EmbedSound(h, ad, entries, q, m, u);
      if NormalProvider(h, q) && NormalText(h, u) && EmbedKey(h, q, m, u) == EmbedKey(h, p, n, t) {
        EmbedKeyIdentifies(h, q, m, u, p, n, t);
      }
    }
  }

  /** On a sound cache and inputs in normal form each stage gives what it computes, and the cache stays sound. */
  lemma ParseStageSound<C(!new), V(!new)>(h: Hashing, ad: Adapters<C, V>, entries: Entries<V>, a: Adapter, c: Json,
      raw: string)
    requires CollisionFree(h) && Sound(h, ad, entries) && NormalAdapter(h, a) && NormalJson(h, c)
    ensures var (outcome, after) := ParseStage(h, ad, entries, a, c, raw);
      outcome == Some(ad.parse(a, Content(c), raw)) && Sound(h, ad, after)
  {
    assert ParseSound(h, ad, entries, a, c, raw);
    PutParsed(h, ad, entries, a, c, raw);
    OutcomeReads(ad.parse(a, Content(c), raw));
    hide ParseKey, Content, CollisionFree, NormalAdapter, Sound, OutcomeJson, ReadOutcome;
  }

  lemma ChunkStageSound<C(!new), V(!new)>(h: Hashing, ad: Adapters<C, V>, entries: Entries<V>, a: Adapter, c: Json,
      v: Json)
    requires CollisionFree(h) && Reloads(ad) && Sound(h, ad, entries) && NormalAdapter(h, a) && NormalJson(h, c)
      && NormalJson(h, v)
    ensures
      var (candidates, after) := ChunkStage(h, ad, entries, a, c, v);
      var chunked := ad.chunk(a, Content(c), Content(v));
      candidates == (if chunked.Some? then Some(chunked.value.0) else None) && Sound(h, ad, after)
  {
    assert ChunkSound(h, ad, entries, a, c, v);
    if ad.chunk(a, Content(c), Content(v)).Some? {
      PutChunked(h, ad, entries, a, c, v);
      LoadsDumped(ad, ad.chunk(a, Content(c), Content(v)).value.0);
    }
    hide ChunkKey, Content, CollisionFree, NormalAdapter, Sound, LoadAll;
  }

  lemma EmbedStageSound<C(!new), V(!new)>(h: Hashing, ad: Adapters<C, V>, entries: Entries<V>, p: Provider, n: string,
      t: string)
    requires CollisionFree(h) && Sound(h, ad, entries) && NormalProvider(h, p) && NormalText(h, t)
    ensures var (e, after) := EmbedStage(h, ad, entries, p, n, t);
      e == Embed(ad, p, t) && Sound(h, ad, after)
  {
    assert EmbedSound(h, ad, entries, p, n, t);
    if Embed(ad, p, t).Vector? {
      PutEmbedded(h, ad, entries, p, n, t);
    }
    hide EmbedKey, CollisionFree, NormalProvider, Sound, NormalText, Embed;
  }
}
