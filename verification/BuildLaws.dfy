/** What the fields of a build's records identify, and that every candidate of a source is recorded. */
module BuildLaws {
  import opened Ordering
  import opened Canonical
  import opened CanonicalNormal
  import opened StageKeys
  import opened StageCaching
  import opened CacheTransparency
  import opened Builds
  import JsonDict

  // ----- the hashed dicts, written out

  /** A parser's configuration hash is of its name, its version and its configuration; a chunker's likewise. */
  lemma ConfigHashesWrittenOut(h: Hashing, a: Adapter, config: Json)
    requires Representable(config)
    ensures var rest := [Entry("version", Str(a.version)), Entry("config", config)];
      && Representable(Obj([Entry("parser", Str(a.name))] + rest))
      && Representable(Obj([Entry("chunker", Str(a.name))] + rest))
      && ConfigHash(h, PARSER_NAMES, a, config) == h.hash(Text(h.nfc, Obj([Entry("parser", Str(a.name))] + rest)))
      && ConfigHash(h, CHUNKER_NAMES, a, config) == h.hash(Text(h.nfc, Obj([Entry("chunker", Str(a.name))] + rest)))
  {
    hide Text;
    var values := [Str(a.name), Str(a.version), config];
    var rest := [Entry("version", Str(a.version)), Entry("config", config)];
    FieldsRepresentable(PARSER_NAMES, values);
    FieldsRepresentable(CHUNKER_NAMES, values);
    assert JsonDict.Fields(PARSER_NAMES, values) == [Entry("parser", Str(a.name))] + rest;
    assert JsonDict.Fields(CHUNKER_NAMES, values) == [Entry("chunker", Str(a.name))] + rest;
  }

  lemma EmbeddingHashWrittenOut(h: Hashing, p: Provider, normalization: string)
    ensures var dict := Obj([Entry("provider", Str(p.provider)), Entry("name", Str(p.name)),
        Entry("revision", Str(p.revision)), Entry("dimension", Int(p.dimension)), Entry("dtype", Str(p.dtype)),
        Entry("normalization", Str(normalization))]);
      Representable(dict) && EmbeddingConfigHash(h, p, normalization) == h.hash(Text(h.nfc, dict))
  {
    hide Text;
    EmbeddingRepresentable(p, normalization);
    assert JsonDict.Fields(EMBEDDING_NAMES, EmbeddingValues(p, normalization)) ==
      [Entry("provider", Str(p.provider)), Entry("name", Str(p.name)), Entry("revision", Str(p.revision)),
       Entry("dimension", Int(p.dimension)), Entry("dtype", Str(p.dtype)), Entry("normalization", Str(normalization))];
  }

  lemma StageKeyWrittenOut(h: Hashing, stage: string, inputHash: string, a: Adapter, configHash: string)
    ensures var dict := Obj([Entry("stage", Str(stage)), Entry("input_hash", Str(inputHash)),
        Entry("adapter_name", Str(a.name)), Entry("adapter_version", Str(a.version)),
        Entry("config_hash", Str(configHash))]);
      Representable(dict) && StageCacheKey(h, stage, inputHash, a, configHash) == h.hash(Text(h.nfc, dict))
  {
    hide Text;
    var values := [Str(stage), Str(inputHash), Str(a.name), Str(a.version), Str(configHash)];
    assert JsonDict.Fields(KEY_NAMES, values) ==
      [Entry("stage", Str(stage)), Entry("input_hash", Str(inputHash)), Entry("adapter_name", Str(a.name)),
       Entry("adapter_version", Str(a.version)), Entry("config_hash", Str(configHash))];
  }

  // ----- what a record says of its candidate

  /** The text embedded for a candidate, and its tokens. */
  function Shown<C, V>(ad: Adapters<C, V>, cfg: BuildConfig, candidate: C): Contextualized
    requires Representable(cfg.chunkerConfig)
  {
    ad.contextualize(cfg.chunker, Content(cfg.chunkerConfig), candidate)
  }

  /**
  The chunk record of a candidate: where it is from, the hashes of what parsed it and what cut it, and the hashes of its
  own text and of the text embedded for it.
  */
  ghost predicate ChunkRecorded<C, V>(h: Hashing, ad: Adapters<C, V>, cfg: BuildConfig, source: Source, candidate: C,
                                      record: ChunkRecord) {
    var parser := cfg.parserOf(source.mediaType);
    && parser.Some? && Representable(cfg.parserConfig) && Representable(cfg.chunkerConfig)
    && record.versionId == source.versionId && record.locator == ad.locatorOf(candidate)
    && record.parserConfigHash == ConfigHash(h, PARSER_NAMES, parser.value, cfg.parserConfig)
    && record.chunkerConfigHash == ConfigHash(h, CHUNKER_NAMES, cfg.chunker, cfg.chunkerConfig)
    && record.rawHash == h.hash(FoldLineEndings(h.nfc(ad.rawText(candidate))))
    && record.contextualizedHash == h.hash(FoldLineEndings(h.nfc(Shown(ad, cfg, candidate).text)))
    && record.tokenCount == Shown(ad, cfg, candidate).tokenCount
  }

  /** The embedding record of a candidate: the provider answered its text with this vector and usage. */
  ghost predicate EmbeddingRecorded<C, V(!new)>(h: Hashing, ad: Adapters<C, V>, cfg: BuildConfig, source: Source,
                                                candidate: C, e: EmbeddingRecord) {
    && ChunkRecorded(h, ad, cfg, source, candidate, e.chunk)
    && cfg.provider == Some(e.provider) && e.normalization == cfg.normalization
    && e.contextualizedHash == e.chunk.contextualizedHash
    && e.embeddingConfigHash == EmbeddingConfigHash(h, e.provider, e.normalization)
    && var text := Shown(ad, cfg, candidate).text;
      && !cfg.blocked(text)
      && exists v :: Answered(ad, e.provider, text, v) && e.vectorHash == ad.vectorHash(v) && e.usage == ad.usageOf(v)
  }

  /** The first attempt gave this vector, or it failed and the second gave it. */
  ghost predicate Answered<C, V>(ad: Adapters<C, V>, p: Provider, text: string, v: V) {
    || ad.attempt(p, text, 0) == Vector(v)
    || (ad.attempt(p, text, 0) == Unavailable && ad.attempt(p, text, 1) == Vector(v))
  }

  /** The candidate's text goes to the provider and is answered with a vector. */
  ghost predicate IsEmbedded<C, V(!new)>(ad: Adapters<C, V>, cfg: BuildConfig, candidate: C)
    requires Representable(cfg.chunkerConfig)
  {
    var text := Shown(ad, cfg, candidate).text;
    cfg.provider.Some? && !cfg.blocked(text) && exists v :: Answered(ad, cfg.provider.value, text, v)
  }

  /** One chunk record, and one embedding record exactly if the candidate is embedded. */
  ghost predicate CandidateRecorded<C, V(!new)>(h: Hashing, ad: Adapters<C, V>, cfg: BuildConfig, source: Source,
                                                candidate: C, records: Records) {
    && |records.chunks| == 1 && ChunkRecorded(h, ad, cfg, source, candidate, records.chunks[0])
    && (if IsEmbedded(ad, cfg, candidate)
        then |records.embeddings| == 1 && records.embeddings[0].chunk == records.chunks[0] &&
          EmbeddingRecorded(h, ad, cfg, source, candidate, records.embeddings[0])
        else records.embeddings == [])
  }

  lemma OneCandidate<C, V(!new)>(h: Hashing, ad: Adapters<C, V>, cfg: BuildConfig, source: Source, parser: Adapter,
                                 candidate: C)
    requires Representable(cfg.parserConfig) && Representable(cfg.chunkerConfig)
    requires cfg.parserOf(source.mediaType) == Some(parser)
    requires CandidateRecords(h, ad, cfg, source, parser, candidate).Some?
    ensures CandidateRecorded(h, ad, cfg, source, candidate,
                              CandidateRecords(h, ad, cfg, source, parser, candidate).value)
  {
    hide ConfigHash, EmbeddingConfigHash, FoldLineEndings, Content, Representable;
    var text := Shown(ad, cfg, candidate).text;
    if cfg.provider.Some? {
      match Embed(ad, cfg.provider.value, text)
      case Vector(v) => assert Answered(ad, cfg.provider.value, text, v);
      case _ =>
    }
  }

  /** The records of these candidates, laid end to end. */
  ghost predicate CandidatesRecorded<C, V(!new)>(h: Hashing, ad: Adapters<C, V>, cfg: BuildConfig, source: Source,
                                                 candidates: seq<C>, parts: seq<Records>, records: Records) {
    && |parts| == |candidates| && records == Joined(parts)
    && forall i :: 0 <= i < |parts| ==> CandidateRecorded(h, ad, cfg, source, candidates[i], parts[i])
  }

  ghost function Joined(parts: seq<Records>): Records {
    if parts == [] then Records([], [])
    else
      var before, last := Joined(parts[..|parts| - 1]), parts[|parts| - 1];
      Records(before.chunks + last.chunks, before.embeddings + last.embeddings)
  }

  lemma {:induction false} CandidatesAre<C, V(!new)>(h: Hashing, ad: Adapters<C, V>, cfg: BuildConfig, source: Source,
                                                     parser: Adapter, candidates: seq<C>) returns (parts: seq<Records>)
    requires Representable(cfg.parserConfig) && Representable(cfg.chunkerConfig)
    requires cfg.parserOf(source.mediaType) == Some(parser)
    requires AllCandidates(h, ad, cfg, source, parser, candidates).Some?
    ensures CandidatesRecorded(h, ad, cfg, source, candidates, parts,
                               AllCandidates(h, ad, cfg, source, parser, candidates).value)
  {
    hide CandidateRecorded, CandidateRecords, Representable;
    if candidates == [] {
      parts := [];
    } else {
      var n := |candidates| - 1;
      var init := CandidatesAre(h, ad, cfg, source, parser, candidates[..n]);
      OneCandidate(h, ad, cfg, source, parser, candidates[n]);
      parts := init + [CandidateRecords(h, ad, cfg, source, parser, candidates[n]).value];
      assert parts[..n] == init;
    }
  }

  /** The candidates of a source: none without a parser, a document or elements. */
  ghost function CandidatesOf<C, V>(ad: Adapters<C, V>, cfg: BuildConfig, source: Source): seq<C>
    requires Representable(cfg.parserConfig) && Representable(cfg.chunkerConfig)
  {
    var parser := cfg.parserOf(source.mediaType);
    if parser.None? then []
    else
      var document := ad.parse(parser.value, Content(cfg.parserConfig), source.raw).document;
      if document.None? || !Representable(document.value) || !HasElements(document.value) then []
      else
        var chunked := ad.chunk(cfg.chunker, Content(cfg.chunkerConfig), Content(document.value));
        if chunked.None? then [] else chunked.value.0
  }

  /** A source's records are those of its candidates, in order: one chunk each, and an embedding where it has one. */
  lemma SourceRecorded<C, V(!new)>(h: Hashing, ad: Adapters<C, V>, cfg: BuildConfig, source: Source)
    returns (parts: seq<Records>)
    requires Representable(cfg.parserConfig) && Representable(cfg.chunkerConfig)
    requires SourceRecords(h, ad, cfg, source).Some?
    ensures CandidatesRecorded(h, ad, cfg, source, CandidatesOf(ad, cfg, source), parts,
                               SourceRecords(h, ad, cfg, source).value)
  {
    hide CandidateRecorded, AllCandidates, Representable, Content, HasElements;
    var parser := cfg.parserOf(source.mediaType);
    parts := [];
    if parser.Some? {
      var document := ad.parse(parser.value, Content(cfg.parserConfig), source.raw).document;
      if document.Some? && Representable(document.value) && HasElements(document.value) {
        parts := CandidatesAre(h, ad, cfg, source, parser.value, CandidatesOf(ad, cfg, source));
      }
    }
  }

  /** A build's records are those of its sources, in order. */
  lemma {:induction false} BuildRecorded<C, V(!new)>(h: Hashing, ad: Adapters<C, V>, cfg: BuildConfig,
                                                     sources: seq<Source>) returns (parts: seq<Records>)
    requires BuildRecords(h, ad, cfg, sources).Some?
    ensures |parts| == |sources| && BuildRecords(h, ad, cfg, sources).value == Joined(parts)
    ensures forall i :: 0 <= i < |sources| ==> SourceRecords(h, ad, cfg, sources[i]) == Some(parts[i])
  {
    hide SourceRecords;
    if sources == [] {
      parts := [];
    } else {
      var n := |sources| - 1;
      var init := BuildRecorded(h, ad, cfg, sources[..n]);
      parts := init + [SourceRecords(h, ad, cfg, sources[n]).value];
      assert parts[..n] == init;
    }
  }

  lemma {:induction false} JoinedMember(parts: seq<Records>, record: ChunkRecord) returns (i: nat)
    requires record in Joined(parts).chunks
    ensures i < |parts| && record in parts[i].chunks
  {
    var n := |parts| - 1;
    if record in parts[n].chunks {
      i := n;
    } else {
      i := JoinedMember(parts[..n], record);
    }
  }

  lemma {:induction false} JoinedEmbedding(parts: seq<Records>, e: EmbeddingRecord) returns (i: nat)
    requires e in Joined(parts).embeddings
    ensures i < |parts| && e in parts[i].embeddings
  {
    var n := |parts| - 1;
    if e in parts[n].embeddings {
      i := n;
    } else {
      i := JoinedEmbedding(parts[..n], e);
    }
  }

  /** A build that records a chunk has representable configurations. */
  lemma SourceConfigs<C, V>(h: Hashing, ad: Adapters<C, V>, cfg: BuildConfig, source: Source)
    requires SourceRecords(h, ad, cfg, source).Some? && SourceRecords(h, ad, cfg, source) != Some(Records([], []))
    ensures Representable(cfg.parserConfig) && Representable(cfg.chunkerConfig)
  {
    hide AllCandidates, Representable, Content, HasElements;
  }

  /** Every recorded chunk is the record of a candidate of one of the sources. */
  lemma RecordedChunk<C, V(!new)>(h: Hashing, ad: Adapters<C, V>, cfg: BuildConfig, sources: seq<Source>,
                                  record: ChunkRecord) returns (source: Source, candidate: C)
    requires BuildRecords(h, ad, cfg, sources).Some? && record in BuildRecords(h, ad, cfg, sources).value.chunks
    ensures source in sources && ChunkRecorded(h, ad, cfg, source, candidate, record)
    ensures candidate in CandidatesOf(ad, cfg, source)
  {
    hide ChunkRecorded, SourceRecords, BuildRecords, CandidatesOf, Representable;
    var parts := BuildRecorded(h, ad, cfg, sources);
    var i := JoinedMember(parts, record);
    source := sources[i];
    SourceConfigs(h, ad, cfg, source);
    var inner := SourceRecorded(h, ad, cfg, source);
    var j := JoinedMember(inner, record);
    candidate := CandidatesOf(ad, cfg, source)[j];
    assert CandidateRecorded(h, ad, cfg, source, candidate, inner[j]);
  }

  /** Every recorded embedding is of a candidate of one of the sources. */
  lemma RecordedEmbedding<C, V(!new)>(h: Hashing, ad: Adapters<C, V>, cfg: BuildConfig, sources: seq<Source>,
                                      e: EmbeddingRecord) returns (source: Source, candidate: C)
    requires BuildRecords(h, ad, cfg, sources).Some? && e in BuildRecords(h, ad, cfg, sources).value.embeddings
    ensures source in sources && EmbeddingRecorded(h, ad, cfg, source, candidate, e)
    ensures candidate in CandidatesOf(ad, cfg, source)
  {
    hide EmbeddingRecorded, ChunkRecorded, SourceRecords, BuildRecords, CandidatesOf, Representable;
    var parts := BuildRecorded(h, ad, cfg, sources);
    var i := JoinedEmbedding(parts, e);
    source := sources[i];
    SourceConfigs(h, ad, cfg, source);
    var inner := SourceRecorded(h, ad, cfg, source);
    var j := JoinedEmbedding(inner, e);
    candidate := CandidatesOf(ad, cfg, source)[j];
    assert CandidateRecorded(h, ad, cfg, source, candidate, inner[j]);
  }

  // ----- what equal fields of two records mean

  lemma PlainFields(h: Hashing, names: seq<string>, values: seq<Json>)
    requires CollisionFree(h) && PlainNames(names) && |names| == |values| && AllRepresentable(values)
    ensures forall m :: m in JsonDict.Fields(names, values) ==> Representable(m.value) && h.nfc(m.key) == m.key
  {
    var fields := JsonDict.Fields(names, values);
    hide Representable;
    forall m | m in fields ensures Representable(m.value) && h.nfc(m.key) == m.key {
      var i :| 0 <= i < |fields| && fields[i] == m;
      assert values[i] in values && Ascii(names[i]);
    }
  }

  lemma NoChunkerName()
    ensures forall j :: 0 <= j < |CHUNKER_NAMES| ==> CHUNKER_NAMES[j] != PARSER_NAMES[0]
  {
    assert |"parser"| == 6 && "config"[0] == 'c' && |"chunker"| == 7 && |"version"| == 7;
  }

  lemma DictsApart(h: Hashing, v: seq<Json>, w: seq<Json>)
    requires CollisionFree(h) && |v| == 3 && |w| == 3 && AllRepresentable(v) && AllRepresentable(w)
    requires Representable(Obj(JsonDict.Fields(PARSER_NAMES, v)))
      && Representable(Obj(JsonDict.Fields(CHUNKER_NAMES, w)))
    ensures HashCanonical(h, Obj(JsonDict.Fields(PARSER_NAMES, v))) !=
            HashCanonical(h, Obj(JsonDict.Fields(CHUNKER_NAMES, w)))
  {
    ConfigNamesPlain();
    NoChunkerName();
    PlainFields(h, PARSER_NAMES, v);
    PlainFields(h, CHUNKER_NAMES, w);
    hide HashCanonical, Representable, Denote, PlainNames, CollisionFree, AllRepresentable;
    var a, b := JsonDict.Fields(PARSER_NAMES, v), JsonDict.Fields(CHUNKER_NAMES, w);
    if HashCanonical(h, Obj(a)) == HashCanonical(h, Obj(b)) {
      HashIdentifies(h, Obj(a), Obj(b));
      NamesIdentified(h.nfc, a, b, 0);
      assert false;
    }
  }

  /** Parser and chunker configurations are hashed apart: no parser's hash is a chunker's. */
  lemma ConfigHashesApart(h: Hashing, a: Adapter, c: Json, b: Adapter, d: Json)
    requires CollisionFree(h) && Representable(c) && Representable(d)
    ensures ConfigHash(h, PARSER_NAMES, a, c) != ConfigHash(h, CHUNKER_NAMES, b, d)
  {
    var v, w := [Str(a.name), Str(a.version), c], [Str(b.name), Str(b.version), d];
    FieldsRepresentable(PARSER_NAMES, v);
    FieldsRepresentable(CHUNKER_NAMES, w);
    hide HashCanonical, CollisionFree;
    DictsApart(h, v, w);
  }

  /**
  In the records of any two builds, equal parser configuration hashes come from parser configurations that denote the
  same, equal chunker configuration hashes from such chunker configurations, and equal raw hashes from equal texts.
  */
  lemma RecordsIdentify<C, V>(h: Hashing, ad1: Adapters<C, V>, cfg1: BuildConfig, s1: Source, c1: C, r1: ChunkRecord,
                              ad2: Adapters<C, V>, cfg2: BuildConfig, s2: Source, c2: C, r2: ChunkRecord)
    requires CollisionFree(h)
    requires ChunkRecorded(h, ad1, cfg1, s1, c1, r1) && ChunkRecorded(h, ad2, cfg2, s2, c2, r2)
    ensures r1.parserConfigHash == r2.parserConfigHash ==>
      && Denote(h.nfc, cfg1.parserConfig) == Denote(h.nfc, cfg2.parserConfig)
      && h.nfc(cfg1.parserOf(s1.mediaType).value.name) == h.nfc(cfg2.parserOf(s2.mediaType).value.name)
      && h.nfc(cfg1.parserOf(s1.mediaType).value.version) == h.nfc(cfg2.parserOf(s2.mediaType).value.version)
    ensures r1.chunkerConfigHash == r2.chunkerConfigHash ==>
      && Denote(h.nfc, cfg1.chunkerConfig) == Denote(h.nfc, cfg2.chunkerConfig)
      && h.nfc(cfg1.chunker.name) == h.nfc(cfg2.chunker.name)
      && h.nfc(cfg1.chunker.version) == h.nfc(cfg2.chunker.version)
    ensures r1.parserConfigHash != r2.chunkerConfigHash
    ensures NormalText(h, ad1.rawText(c1)) && NormalText(h, ad2.rawText(c2)) ==>
      (r1.rawHash == r2.rawHash <==> ad1.rawText(c1) == ad2.rawText(c2))
    ensures NormalText(h, Shown(ad1, cfg1, c1).text) && NormalText(h, Shown(ad2, cfg2, c2).text) ==>
      (r1.contextualizedHash == r2.contextualizedHash <==> Shown(ad1, cfg1, c1).text == Shown(ad2, cfg2, c2).text)
  {
    hide ConfigHash, Denote, Representable, PlainNames, FoldLineEndings;
    ConfigNamesPlain();
    var p1, p2 := cfg1.parserOf(s1.mediaType).value, cfg2.parserOf(s2.mediaType).value;
    if r1.parserConfigHash == r2.parserConfigHash {
      ConfigIdentifies(h, PARSER_NAMES, p1, cfg1.parserConfig, p2, cfg2.parserConfig);
    }
    if r1.chunkerConfigHash == r2.chunkerConfigHash {
      ConfigIdentifies(h, CHUNKER_NAMES, cfg1.chunker, cfg1.chunkerConfig, cfg2.chunker, cfg2.chunkerConfig);
    }
    ConfigHashesApart(h, p1, cfg1.parserConfig, cfg2.chunker, cfg2.chunkerConfig);
    FoldKeeps(ad1.rawText(c1));
    FoldKeeps(ad2.rawText(c2));
    FoldKeeps(Shown(ad1, cfg1, c1).text);
    FoldKeeps(Shown(ad2, cfg2, c2).text);
  }

  /** Changing only the parser configuration changes every parser configuration hash and no chunker's. */
  lemma ParserConfigChanges<C, V(!new)>(h: Hashing, ad: Adapters<C, V>, cfg: BuildConfig, other: Json,
                                        sources: seq<Source>, r1: ChunkRecord, r2: ChunkRecord)
    requires CollisionFree(h) && Representable(cfg.parserConfig) && Representable(other)
    requires Denote(h.nfc, cfg.parserConfig) != Denote(h.nfc, other)
    requires var cfg' := cfg.(parserConfig := other);
      && BuildRecords(h, ad, cfg, sources).Some? && r1 in BuildRecords(h, ad, cfg, sources).value.chunks
      && BuildRecords(h, ad, cfg', sources).Some? && r2 in BuildRecords(h, ad, cfg', sources).value.chunks
    ensures r1.parserConfigHash != r2.parserConfigHash && r1.chunkerConfigHash == r2.chunkerConfigHash
  {
    hide BuildRecords, ConfigHash, Denote, Representable, FoldLineEndings, CandidatesOf;
    var s1, c1 := RecordedChunk(h, ad, cfg, sources, r1);
    var s2, c2 := RecordedChunk(h, ad, cfg.(parserConfig := other), sources, r2);
    RecordsIdentify(h, ad, cfg, s1, c1, r1, ad, cfg.(parserConfig := other), s2, c2, r2);
  }

  /** Two embeddings of one provider record the same text hash exactly when their texts share a cache key. */
  lemma EmbeddedHashIsKeyed<C, V(!new)>(h: Hashing, ad: Adapters<C, V>, cfg: BuildConfig, s1: Source, c1: C,
                                        e1: EmbeddingRecord, s2: Source, c2: C, e2: EmbeddingRecord)
    requires CollisionFree(h) && cfg.provider.Some? && NormalProvider(h, cfg.provider.value)
    requires EmbeddingRecorded(h, ad, cfg, s1, c1, e1) && EmbeddingRecorded(h, ad, cfg, s2, c2, e2)
    ensures e1.contextualizedHash == e2.contextualizedHash <==>
      EmbedKey(h, cfg.provider.value, cfg.normalization, Shown(ad, cfg, c1).text) ==
      EmbedKey(h, cfg.provider.value, cfg.normalization, Shown(ad, cfg, c2).text)
  {
    hide ConfigHash, Representable, FoldLineEndings, EmbedKey, EmbeddingConfigHash;
    EmbedKeyCollidesIff(h, cfg.provider.value, cfg.normalization, Shown(ad, cfg, c1).text, Shown(ad, cfg, c2).text);
  }

  /** Equal embedding configuration hashes come from one provider and one normalization. */
  lemma EmbeddingConfigIdentifies(h: Hashing, p: Provider, n: string, q: Provider, m: string)
    requires CollisionFree(h) && NormalProvider(h, p) && NormalProvider(h, q)
    requires h.nfc(p.revision) == p.revision && h.nfc(q.revision) == q.revision && h.nfc(n) == n && h.nfc(m) == m
    requires EmbeddingConfigHash(h, p, n) == EmbeddingConfigHash(h, q, m)
    ensures p == q && n == m
  {
    EmbeddingNamesPlain();
    EmbeddingRepresentable(p, n);
    EmbeddingRepresentable(q, m);
    hide PlainNames, Ascii, HashCanonical, CollisionFree, Representable, AllRepresentable;
    var v, w := EmbeddingValues(p, n), EmbeddingValues(q, m);
    HashedStrings(h, EMBEDDING_NAMES, v, w, 2);
    HashedStrings(h, EMBEDDING_NAMES, v, w, 5);
    ProviderIdentified(h, p, n, q, m);
  }
}
