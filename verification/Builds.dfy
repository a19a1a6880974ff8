/** Builds that share a stage cache give the records of builds without one. */
module Builds {
  import opened Ordering
  import opened Canonical
  import opened CanonicalNormal
  import opened StageKeys
  import opened StageCaching

  /** `StageCache`: entries that only ever gain keys or are overwritten, and hit and miss counters. */
  class StageCache<V> {
    var entries: Entries<V>
    var hits: nat
    var misses: nat

    constructor ()
      ensures entries == map[] && hits == 0 && misses == 0
    {
      entries, hits, misses := map[], 0, 0;
    }

    method Get(key: string) returns (value: Option<Value<V>>)
      modifies this`hits, this`misses
      ensures value == if key in entries then Some(entries[key]) else None
      ensures hits == old(hits) + (if key in entries then 1 else 0)
      ensures misses == old(misses) + (if key in entries then 0 else 1)
    {
      if key in entries {
        hits := hits + 1;
        value := Some(entries[key]);
      } else {
        misses := misses + 1;
        value := None;
      }
    }

    method Put(key: string, value: Value<V>)
      modifies this`entries
      ensures entries == old(entries)[key := value]
    {
      entries := entries[key := value];
    }
  }

  // ----- the cached stages

  method CachedParse<C, V>(h: Hashing, ad: Adapters<C, V>, cache: StageCache<V>, parser: Adapter, config: Json,
                           raw: string)
    returns (outcome: Option<Outcome>)
    requires Representable(config)
    modifies cache
    ensures (outcome, cache.entries) == old(ParseStage(h, ad, cache.entries, parser, config, raw))
  {
    hide ParseKey, Content, OutcomeJson, ReadOutcome;
    var key := ParseKey(h, parser, config, raw);
    var cached := cache.Get(key);
    if cached.Some? {
      outcome := if cached.value.Parsed? then ReadOutcome(cached.value.outcome) else None;
    } else {
      outcome := Some(ad.parse(parser, Content(config), raw));
      cache.Put(key, Parsed(OutcomeJson(outcome.value)));
    }
  }

  method CachedChunk<C, V>(h: Hashing, ad: Adapters<C, V>, cache: StageCache<V>, chunker: Adapter, config: Json,
                           document: Json)
    returns (candidates: Option<seq<C>>)
    requires Representable(config) && Representable(document)
    modifies cache
    ensures (candidates, cache.entries) == old(ChunkStage(h, ad, cache.entries, chunker, config, document))
  {
    hide ChunkKey, Content, LoadAll;
    var key := ChunkKey(h, chunker, config, document);
    var cached := cache.Get(key);
    if cached.Some? {
      candidates := if cached.value.Chunked? then LoadAll(ad, cached.value.candidates) else None;
    } else {
      var chunked := ad.chunk(chunker, Content(config), Content(document));
      if chunked.None? {
        return None;
      }
      candidates := Some(chunked.value.0);
      cache.Put(key, Chunked(DumpAll(ad, chunked.value.0), chunked.value.1));
    }
  }

  /** `_embed_with_retry`: two attempts, the first that answers. */
  method EmbedWithRetry<C, V>(ad: Adapters<C, V>, provider: Provider, text: string) returns (e: Embedding<V>)
    ensures e == Embed(ad, provider, text)
    ensures !ad.attempt(provider, text, 0).Unavailable? ==> e == ad.attempt(provider, text, 0)
    ensures ad.attempt(provider, text, 0).Unavailable? ==> e == ad.attempt(provider, text, 1)
    ensures e.Unavailable? <==> ad.attempt(provider, text, 0).Unavailable? && ad.attempt(provider, text, 1).Unavailable?
  {
    e := Unavailable;
    for attempt := 0 to 2
      invariant e.Unavailable? && forall i :: 0 <= i < attempt ==> ad.attempt(provider, text, i).Unavailable?
    {
      e := ad.attempt(provider, text, attempt);
      if !e.Unavailable? {
        return;
      }
    }
  }

  /** The lookup of `_embed_chunk`. */
  method CachedEmbed<C, V>(h: Hashing, ad: Adapters<C, V>, cache: StageCache<V>, provider: Provider,
                           normalization: string, text: string)
    returns (e: Embedding<V>)
    modifies cache
    ensures (e, cache.entries) == old(EmbedStage(h, ad, cache.entries, provider, normalization, text))
  {
    hide EmbedKey, Embed;
    var key := EmbedKey(h, provider, normalization, text);
    var cached := cache.Get(key);
    if cached.Some? {
      e := if cached.value.Embedded? then Vector(cached.value.vector) else Invalid;
    } else {
      e := EmbedWithRetry(ad, provider, text);
      if e.Vector? {
        cache.Put(key, Embedded(e.value));
      }
    }
  }

  // ----- what a build records, without a cache

  function Append(a: Records, b: Records): Records {
    Records(a.chunks + b.chunks, a.embeddings + b.embeddings)
  }

  /** The chunk record of a candidate. */
  function ChunkRecordOf<C, V>(h: Hashing, ad: Adapters<C, V>, cfg: BuildConfig, source: Source, parser: Adapter,
                               candidate: C): ChunkRecord
    requires Representable(cfg.parserConfig) && Representable(cfg.chunkerConfig)
  {
    var shown := ad.contextualize(cfg.chunker, Content(cfg.chunkerConfig), candidate);
    ChunkRecord(source.versionId, ConfigHash(h, PARSER_NAMES, parser, cfg.parserConfig),
      ConfigHash(h, CHUNKER_NAMES, cfg.chunker, cfg.chunkerConfig),
      ad.locatorOf(candidate), HashText(h, ad.rawText(candidate)), HashText(h, shown.text), shown.tokenCount)
  }

  /** The record of an embedding of the chunk. */
  function EmbeddingRecordOf<C, V>(h: Hashing, ad: Adapters<C, V>, cfg: BuildConfig, record: ChunkRecord,
                                   v: V): EmbeddingRecord
    requires cfg.provider.Some?
  {
    EmbeddingRecord(record, cfg.provider.value, cfg.normalization, record.contextualizedHash,
      EmbeddingConfigHash(h, cfg.provider.value, cfg.normalization), ad.vectorHash(v), ad.usageOf(v))
  }

  /** A candidate's records; nothing where the build raises. */
  function CandidateRecords<C, V>(h: Hashing, ad: Adapters<C, V>, cfg: BuildConfig, source: Source, parser: Adapter,
                                  candidate: C): Option<Records>
    requires Representable(cfg.parserConfig) && Representable(cfg.chunkerConfig)
  {
    var record := ChunkRecordOf(h, ad, cfg, source, parser, candidate);
    var text := ad.contextualize(cfg.chunker, Content(cfg.chunkerConfig), candidate).text;
    if cfg.provider.None? || cfg.blocked(text) then Some(Records([record], []))
    else
      match Embed(ad, cfg.provider.value, text)
      case Unavailable => Some(Records([record], []))
      case Invalid => None
      case Vector(v) => Some(Records([record], [EmbeddingRecordOf(h, ad, cfg, record, v)]))
  }

  function AllCandidates<C, V>(h: Hashing, ad: Adapters<C, V>, cfg: BuildConfig, source: Source, parser: Adapter,
                               candidates: seq<C>): Option<Records>
    requires Representable(cfg.parserConfig) && Representable(cfg.chunkerConfig)
  {
    if candidates == [] then Some(Records([], []))
    else
      var before := AllCandidates(h, ad, cfg, source, parser, candidates[..|candidates| - 1]);
      if before.None? then None
      else
        var last := CandidateRecords(h, ad, cfg, source, parser, candidates[|candidates| - 1]);
        if last.None? then None else Some(Append(before.value, last.value))
  }

  function SourceRecords<C, V>(h: Hashing, ad: Adapters<C, V>, cfg: BuildConfig, source: Source): Option<Records> {
    var parser := cfg.parserOf(source.mediaType);
    if parser.None? then Some(Records([], []))
    else if !Representable(cfg.parserConfig) then None
    else
      var outcome := ad.parse(parser.value, Content(cfg.parserConfig), source.raw);
      if outcome.document.None? then Some(Records([], []))
      else if !Representable(outcome.document.value) then None
      else if !HasElements(outcome.document.value) then Some(Records([], []))
      else if !Representable(cfg.chunkerConfig) then None
      else
        var chunked := ad.chunk(cfg.chunker, Content(cfg.chunkerConfig), Content(outcome.document.value));
        if chunked.None? then None else AllCandidates(h, ad, cfg, source, parser.value, chunked.value.0)
  }

  function BuildRecords<C, V>(h: Hashing, ad: Adapters<C, V>, cfg: BuildConfig, sources: seq<Source>): Option<Records> {
    if sources == [] then Some(Records([], []))
    else
      var before := BuildRecords(h, ad, cfg, sources[..|sources| - 1]);
      if before.None? then None
      else
        var last := SourceRecords(h, ad, cfg, sources[|sources| - 1]);
        if last.None? then None else Some(Append(before.value, last.value))
  }

  // ----- what a build records over a given cache, and the cache it leaves

  function CandidateWith<C, V>(h: Hashing, ad: Adapters<C, V>, cfg: BuildConfig, source: Source, parser: Adapter,
                               candidate: C, entries: Entries<V>)
    : (Option<Records>, Entries<V>)
    requires Representable(cfg.parserConfig) && Representable(cfg.chunkerConfig)
  {
    var record := ChunkRecordOf(h, ad, cfg, source, parser, candidate);
    var text := ad.contextualize(cfg.chunker, Content(cfg.chunkerConfig), candidate).text;
    if cfg.provider.None? || cfg.blocked(text) then (Some(Records([record], [])), entries)
    else
      var (e, after) := EmbedStage(h, ad, entries, cfg.provider.value, cfg.normalization, text);
      match e
      case Unavailable => (Some(Records([record], [])), after)
      case Invalid => (None, after)
      case Vector(v) =>
        (Some(Records([record], [EmbeddingRecordOf(h, ad, cfg, record, v)])), after)
  }

  function CandidatesWith<C, V>(h: Hashing, ad: Adapters<C, V>, cfg: BuildConfig, source: Source, parser: Adapter,
                                candidates: seq<C>, entries: Entries<V>)
    : (Option<Records>, Entries<V>)
    requires Representable(cfg.parserConfig) && Representable(cfg.chunkerConfig)
  {
    if candidates == [] then (Some(Records([], [])), entries)
    else
      var (before, middle) := CandidatesWith(h, ad, cfg, source, parser, candidates[..|candidates| - 1], entries);
      if before.None? then (None, middle)
      else
        var (last, after) := CandidateWith(h, ad, cfg, source, parser, candidates[|candidates| - 1], middle);
        (if last.None? then None else Some(Append(before.value, last.value)), after)
  }

  function SourceWith<C, V>(h: Hashing, ad: Adapters<C, V>, cfg: BuildConfig, source: Source,
                            entries: Entries<V>): (Option<Records>, Entries<V>) {
    var parser := cfg.parserOf(source.mediaType);
    if parser.None? then (Some(Records([], [])), entries)
    else if !Representable(cfg.parserConfig) then (None, entries)
    else
      var (outcome, parsed) := ParseStage(h, ad, entries, parser.value, cfg.parserConfig, source.raw);
      if outcome.None? then (None, parsed)
      else if outcome.value.document.None? then (Some(Records([], [])), parsed)
      else if !Representable(outcome.value.document.value) then (None, parsed)
      else if !HasElements(outcome.value.document.value) then (Some(Records([], [])), parsed)
      else if !Representable(cfg.chunkerConfig) then (None, parsed)
      else
        var (candidates, chunked) := ChunkStage(h, ad, parsed, cfg.chunker, cfg.chunkerConfig,
          outcome.value.document.value);
        if candidates.None? then (None, chunked)
        else CandidatesWith(h, ad, cfg, source, parser.value, candidates.value, chunked)
  }

  function BuildWith<C, V>(h: Hashing, ad: Adapters<C, V>, cfg: BuildConfig, sources: seq<Source>,
                           entries: Entries<V>): (Option<Records>, Entries<V>) {
    if sources == [] then (Some(Records([], [])), entries)
    else
      var (before, middle) := BuildWith(h, ad, cfg, sources[..|sources| - 1], entries);
      if before.None? then (None, middle)
      else
        var (last, after) := SourceWith(h, ad, cfg, sources[|sources| - 1], middle);
        (if last.None? then None else Some(Append(before.value, last.value)), after)
  }

  // ----- builds

  /** One candidate in the loop of `_process_chunks`, with `_embed_chunk`. */
  method ProcessCandidate<C, V>(h: Hashing, ad: Adapters<C, V>, cfg: BuildConfig, source: Source, parser: Adapter,
                                candidate: C, cache: StageCache<V>)
    returns (records: Option<Records>)
    requires Representable(cfg.parserConfig) && Representable(cfg.chunkerConfig)
    modifies cache
    ensures (records, cache.entries) == old(CandidateWith(h, ad, cfg, source, parser, candidate, cache.entries))
  {
    hide ConfigHash, HashText, EmbeddingConfigHash, Content, EmbedStage;
    var text := ad.contextualize(cfg.chunker, Content(cfg.chunkerConfig), candidate).text;
    var record := ChunkRecordOf(h, ad, cfg, source, parser, candidate);
    if cfg.provider.None? || cfg.blocked(text) {
      return Some(Records([record], []));
    }
    var e := CachedEmbed(h, ad, cache, cfg.provider.value, cfg.normalization, text);
    match e
    case Unavailable => records := Some(Records([record], []));
    case Invalid => records := None;
    case Vector(v) =>
      records := Some(Records([record], [EmbeddingRecordOf(h, ad, cfg, record, v)]));
  }

  method ProcessCandidates<C, V>(h: Hashing, ad: Adapters<C, V>, cfg: BuildConfig, source: Source, parser: Adapter,
                                 candidates: seq<C>, cache: StageCache<V>)
    returns (records: Option<Records>)
    requires Representable(cfg.parserConfig) && Representable(cfg.chunkerConfig)
    modifies cache
    ensures (records, cache.entries) == old(CandidatesWith(h, ad, cfg, source, parser, candidates, cache.entries))
  {
    hide CandidateWith, Representable;
    ghost var entries := cache.entries;
    var done: Records := Records([], []);
    for i := 0 to |candidates|
      invariant CandidatesWith(h, ad, cfg, source, parser, candidates[..i], entries) == (Some(done), cache.entries)
    {
      var one := ProcessCandidate(h, ad, cfg, source, parser, candidates[i], cache);
      assert candidates[..i + 1][..i] == candidates[..i];
      if one.None? {
        CandidatesRaise(h, ad, cfg, source, parser, candidates, entries, i + 1);
        return None;
      }
      done := Append(done, one.value);
    }
    assert candidates[..|candidates|] == candidates;
    records := Some(done);
  }

  /** A raise ends the run where it happens. */
  lemma {:induction false} CandidatesRaise<C, V>(h: Hashing, ad: Adapters<C, V>, cfg: BuildConfig, source: Source,
                                                 parser: Adapter, candidates: seq<C>, entries: Entries<V>, i: nat)
    requires Representable(cfg.parserConfig) && Representable(cfg.chunkerConfig)
    requires i <= |candidates| && CandidatesWith(h, ad, cfg, source, parser, candidates[..i], entries).0.None?
    ensures CandidatesWith(h, ad, cfg, source, parser, candidates, entries) ==
      CandidatesWith(h, ad, cfg, source, parser, candidates[..i], entries)
    decreases |candidates|
  {
    hide CandidateWith, Representable;
    if i == |candidates| {
      assert candidates[..i] == candidates;
    } else {
      assert candidates[..|candidates| - 1][..i] == candidates[..i];
      CandidatesRaise(h, ad, cfg, source, parser, candidates[..|candidates| - 1], entries, i);
    }
  }

  /** The cached stages of `_process_source` and `_process_chunks`. */
  method ProcessSource<C, V>(h: Hashing, ad: Adapters<C, V>, cfg: BuildConfig, source: Source, cache: StageCache<V>)
    returns (records: Option<Records>)
    modifies cache
    ensures (records, cache.entries) == old(SourceWith(h, ad, cfg, source, cache.entries))
  {
    hide ParseStage, ChunkStage, CandidatesWith, Representable;
    var parser := cfg.parserOf(source.mediaType);
    if parser.None? {
      return Some(Records([], []));
    }
    if !Representable(cfg.parserConfig) {
      return None;
    }
    var outcome := CachedParse(h, ad, cache, parser.value, cfg.parserConfig, source.raw);
    if outcome.None? {
      return None;
    }
    if outcome.value.document.None? {
      return Some(Records([], []));
    }
    if !Representable(outcome.value.document.value) {
      return None;
    }
    if !HasElements(outcome.value.document.value) {
      return Some(Records([], []));
    }
    if !Representable(cfg.chunkerConfig) {
      return None;
    }
    var candidates := CachedChunk(h, ad, cache, cfg.chunker, cfg.chunkerConfig, outcome.value.document.value);
    if candidates.None? {
      return None;
    }
    records := ProcessCandidates(h, ad, cfg, source, parser.value, candidates.value, cache);
  }

  /** The loop of `build_pipeline` over sources. */
  method Build<C, V>(h: Hashing, ad: Adapters<C, V>, cfg: BuildConfig, sources: seq<Source>, cache: StageCache<V>)
    returns (records: Option<Records>)
    modifies cache
    ensures (records, cache.entries) == old(BuildWith(h, ad, cfg, sources, cache.entries))
  {
    hide SourceWith;
    ghost var entries := cache.entries;
    var done: Records := Records([], []);
    for i := 0 to |sources|
      invariant BuildWith(h, ad, cfg, sources[..i], entries) == (Some(done), cache.entries)
    {
      var one := ProcessSource(h, ad, cfg, sources[i], cache);
      assert sources[..i + 1][..i] == sources[..i];
      if one.None? {
        BuildRaises(h, ad, cfg, sources, entries, i + 1);
        return None;
      }
      done := Append(done, one.value);
    }
    assert sources[..|sources|] == sources;
    records := Some(done);
  }

  lemma {:induction false} BuildRaises<C, V>(h: Hashing, ad: Adapters<C, V>, cfg: BuildConfig, sources: seq<Source>,
                                             entries: Entries<V>, i: nat)
    requires i <= |sources| && BuildWith(h, ad, cfg, sources[..i], entries).0.None?
    ensures BuildWith(h, ad, cfg, sources, entries) == BuildWith(h, ad, cfg, sources[..i], entries)
    decreases |sources|
  {
    hide SourceWith;
    if i == |sources| {
      assert sources[..i] == sources;
    } else {
      assert sources[..|sources| - 1][..i] == sources[..i];
      BuildRaises(h, ad, cfg, sources[..|sources| - 1], entries, i);
    }
  }

  // ----- inputs in normal form

  /** The text sent to the embedder is in normal form. */
  ghost predicate NormalCandidate<C, V>(h: Hashing, ad: Adapters<C, V>, cfg: BuildConfig, candidate: C)
    requires Representable(cfg.chunkerConfig)
  {
    NormalText(h, ad.contextualize(cfg.chunker, Content(cfg.chunkerConfig), candidate).text)
  }

  /** The parsed document of a source, and the texts of its chunks, are in normal form. */
  ghost predicate NormalSource<C(!new), V(!new)>(h: Hashing, ad: Adapters<C, V>, cfg: BuildConfig, source: Source) {
    var parser := cfg.parserOf(source.mediaType);
    parser.Some? && Representable(cfg.parserConfig) ==>
      var outcome := ad.parse(parser.value, Content(cfg.parserConfig), source.raw);
      && NormalAdapter(h, parser.value)
      && (outcome.document.Some? && Representable(outcome.document.value) && Representable(cfg.chunkerConfig) ==>
        && NormalForm(h.nfc, outcome.document.value)
        && var chunked := ad.chunk(cfg.chunker, Content(cfg.chunkerConfig), Content(outcome.document.value));
          chunked.Some? ==> forall i :: 0 <= i < |chunked.value.0| ==> NormalCandidate(h, ad, cfg, chunked.value.0[i]))
  }

  ghost predicate NormalConfig(h: Hashing, cfg: BuildConfig) {
    && NormalForm(h.nfc, cfg.parserConfig) && NormalForm(h.nfc, cfg.chunkerConfig)
    && NormalAdapter(h, cfg.chunker) && (cfg.provider.Some? ==> NormalProvider(h, cfg.provider.value))
  }

  ghost predicate NormalBuild<C(!new), V(!new)>(h: Hashing, ad: Adapters<C, V>, cfg: BuildConfig,
      sources: seq<Source>) {
    NormalConfig(h, cfg) && forall i :: 0 <= i < |sources| ==> NormalSource(h, ad, cfg, sources[i])
  }

  // ----- the cache does not show

  lemma CandidateSound<C(!new), V(!new)>(h: Hashing, ad: Adapters<C, V>, cfg: BuildConfig, source: Source,
      parser: Adapter, candidate: C, entries: Entries<V>)
    requires CollisionFree(h) && Sound(h, ad, entries) && NormalConfig(h, cfg)
    requires Representable(cfg.parserConfig) && Representable(cfg.chunkerConfig)
      && NormalCandidate(h, ad, cfg, candidate)
    ensures var (records, after) := CandidateWith(h, ad, cfg, source, parser, candidate, entries);
      records == CandidateRecords(h, ad, cfg, source, parser, candidate) && Sound(h, ad, after)
  {
    hide CollisionFree, Sound, ConfigHash, HashText, EmbeddingConfigHash, NormalText, Content, EmbedStage, Embed;
    var text := ad.contextualize(cfg.chunker, Content(cfg.chunkerConfig), candidate).text;
    if cfg.provider.Some? {
      EmbedStageSound(h, ad, entries, cfg.provider.value, cfg.normalization, text);
    }
  }

  lemma {:induction false} CandidatesSound<C(!new), V(!new)>(h: Hashing, ad: Adapters<C, V>, cfg: BuildConfig,
      source: Source, parser: Adapter, candidates: seq<C>, entries: Entries<V>)
    requires CollisionFree(h) && Sound(h, ad, entries) && NormalConfig(h, cfg)
    requires Representable(cfg.parserConfig) && Representable(cfg.chunkerConfig)
    requires forall i :: 0 <= i < |candidates| ==> NormalCandidate(h, ad, cfg, candidates[i])
    ensures var (records, after) := CandidatesWith(h, ad, cfg, source, parser, candidates, entries);
      records == AllCandidates(h, ad, cfg, source, parser, candidates) && Sound(h, ad, after)
    decreases |candidates|
  {
    hide CollisionFree, Sound, NormalCandidate, NormalConfig, CandidateRecords, CandidateWith, Representable;
    if candidates != [] {
      var n := |candidates| - 1;
      CandidatesSound(h, ad, cfg, source, parser, candidates[..n], entries);
      var (before, middle) := CandidatesWith(h, ad, cfg, source, parser, candidates[..n], entries);
      CandidateSound(h, ad, cfg, source, parser, candidates[n], middle);
    }
  }

  lemma SourceSound<C(!new), V(!new)>(h: Hashing, ad: Adapters<C, V>, cfg: BuildConfig, source: Source,
      entries: Entries<V>)
    requires CollisionFree(h) && Reloads(ad) && Sound(h, ad, entries) && NormalConfig(h, cfg)
      && NormalSource(h, ad, cfg, source)
    ensures var (records, after) := SourceWith(h, ad, cfg, source, entries);
      records == SourceRecords(h, ad, cfg, source) && Sound(h, ad, after)
  {
    hide CollisionFree, Reloads, Sound, NormalCandidate, AllCandidates, CandidatesWith, ParseStage, ChunkStage, Content,
      Representable, NormalForm, NormalAdapter;
    var parser := cfg.parserOf(source.mediaType);
    if parser.Some? && Representable(cfg.parserConfig) {
      ParseStageSound(h, ad, entries, parser.value, cfg.parserConfig, source.raw);
      var (outcome, parsed) := ParseStage(h, ad, entries, parser.value, cfg.parserConfig, source.raw);
      var document := outcome.value.document;
      if document.Some? && Representable(document.value) && Representable(cfg.chunkerConfig) {
        ChunkStageSound(h, ad, parsed, cfg.chunker, cfg.chunkerConfig, document.value);
        var (candidates, chunked) := ChunkStage(h, ad, parsed, cfg.chunker, cfg.chunkerConfig, document.value);
        if candidates.Some? {
          CandidatesSound(h, ad, cfg, source, parser.value, candidates.value, chunked);
        }
      }
    }
  }

  /** Over a sound cache a build in normal form records what it records without a cache, and leaves the cache sound. */
  lemma {:induction false} BuildSound<C(!new), V(!new)>(h: Hashing, ad: Adapters<C, V>, cfg: BuildConfig,
      sources: seq<Source>, entries: Entries<V>)
    requires CollisionFree(h) && Reloads(ad) && Sound(h, ad, entries) && NormalBuild(h, ad, cfg, sources)
    ensures var (records, after) := BuildWith(h, ad, cfg, sources, entries);
      records == BuildRecords(h, ad, cfg, sources) && Sound(h, ad, after)
    decreases |sources|
  {
    hide CollisionFree, Reloads, Sound, NormalSource, NormalConfig, SourceRecords, SourceWith;
    if sources != [] {
      var n := |sources| - 1;
      BuildSound(h, ad, cfg, sources[..n], entries);
      var (before, middle) := BuildWith(h, ad, cfg, sources[..n], entries);
      SourceSound(h, ad, cfg, sources[n], middle);
    }
  }

  /** A build: its configuration and its sources. */
  datatype Run = Run(cfg: BuildConfig, sources: seq<Source>)

  /** Any sequence of builds over one cache, started empty: each gives the records it gives without a cache. */
  method BuildAll<C(!new), V(!new)>(h: Hashing, ad: Adapters<C, V>,
      runs: seq<Run>) returns (results: seq<Option<Records>>)
    requires CollisionFree(h) && Reloads(ad) && forall i :: 0 <= i < |runs| ==>
      NormalBuild(h, ad, runs[i].cfg, runs[i].sources)
    ensures |results| == |runs|
    ensures forall i :: 0 <= i < |runs| ==> results[i] == BuildRecords(h, ad, runs[i].cfg, runs[i].sources)
  {
    hide CollisionFree, Reloads, NormalBuild, BuildRecords, BuildWith;
    var cache := new StageCache<V>();
    assert Sound(h, ad, cache.entries);
    hide Sound;
    results := [];
    for i := 0 to |runs|
      invariant Sound(h, ad, cache.entries) && |results| == i
      invariant forall k :: 0 <= k < i ==> results[k] == BuildRecords(h, ad, runs[k].cfg, runs[k].sources)
    {
      BuildSound(h, ad, runs[i].cfg, runs[i].sources, cache.entries);
      var records := Build(h, ad, runs[i].cfg, runs[i].sources, cache);
      results := results + [records];
    }
  }
}
