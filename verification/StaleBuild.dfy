/** Two builds over one cache, and exactly when the second one's records differ from those it makes alone. */
module StaleBuild {
  import opened Ordering
  import opened StableSort
  import opened Canonical
  import opened CanonicalOrder
  import opened JsonDict
  import opened CanonicalNormal
  import opened StageKeys
  import opened StageCaching
  import opened Builds
  import opened CacheTransparency
  import Utf16
  import Tokenizer
  import Chunks
  import Chunkers
  import Candidates
  import CandidateJson
  import TokenLimit

  // ----- documents of one element

  const ELEMENT_NAMES := ["id", "kind", "order", "text", "heading_path"]

  function ElementJson(text: string): Json {
    Obj(Fields(ELEMENT_NAMES, [Str("e1"), Str("paragraph"), Int(0), Str(text), Arr([])]))
  }

  /** The dump of a parsed document with one paragraph. */
  function DocumentJson(text: string): Json {
    Obj(Fields(["elements"], [Arr([ElementJson(text)])]))
  }

  lemma DocumentRepresentable(text: string)
    ensures Representable(ElementJson(text)) && Representable(DocumentJson(text))
  {
  }

  /** The value under a name. */
  function Find(members: seq<Entry<Canon>>, name: string): Option<Canon> {
    if members == [] then None
    else if members[0].key == name then Some(members[0].value)
    else Find(members[1..], name)
  }

  lemma {:induction false} FindMember(members: seq<Entry<Canon>>, e: Entry<Canon>)
    requires DistinctKeys(members) && e in members
    ensures Find(members, e.key) == Some(e.value)
  {
    if members[0] != e {
      var i :| 0 < i < |members| && members[i] == e;
      assert members[0].key != members[i].key;
      FindMember(members[1..], e);
    }
  }

  /** A dict's content holds, under each name, the content of the value. */
  lemma FindContent(members: seq<Entry<Json>>, i: nat)
    requires Representable(Obj(members)) && DistinctKeys(members) && i < |members|
    ensures members[i] in members && Content(Obj(members)).CObj?
    ensures Find(Content(Obj(members)).members, members[i].key) == Some(Content(members[i].value))
  {
    var entries := DenoteEntries(Unchanged, members);
    var sorted := Sort(entries, KeyUnits());
    TextObject(Unchanged, members);
    EntryKeys(Unchanged, members);
    SortMembers(entries, KeyUnits());
    assert DistinctKeys(entries);
    SortedAscending(entries);
    NormalNamesKept(Unchanged, sorted, entries);
    assert entries[i] in sorted;
    AscendingDistinct(sorted);
    hide Denote, Sort, DenoteEntries, Representable;
    FindMember(sorted, entries[i]);
  }

  lemma AscendingDistinct(members: seq<Entry<Canon>>)
    requires Ascending(members)
    ensures DistinctKeys(members)
  {
    hide LexLt;
    forall i, j | 0 <= i < j < |members| ensures members[i].key != members[j].key {
      LexAsymmetric(Utf16.Units(members[i].key), Utf16.Units(members[j].key));
    }
  }

  // ----- a chunker that yields the text of the first element

  function ElementText(doc: Canon): Option<string> {
    if !doc.CObj? then None
    else
      var elements := Find(doc.members, "elements");
      if elements.None? || !elements.value.CArr? || elements.value.items == [] || !elements.value.items[0].CObj?
        then None
      else
        var text := Find(elements.value.items[0].members, "text");
        if text.Some? && text.value.CStr? then Some(text.value.s) else None
  }

  lemma ElementNamesDistinct()
    ensures Distinct(ELEMENT_NAMES)
  {
    var k := ELEMENT_NAMES;
    assert |k[0]| == 2 && |k[1]| == 4 && |k[2]| == 5 && |k[3]| == 4 && |k[4]| == 12 && k[1][0] == 'k' && k[3][0] == 't';
  }

  lemma ElementTextOf(text: string)
    ensures Representable(DocumentJson(text)) && ElementText(Content(DocumentJson(text))) == Some(text)
  {
    DocumentRepresentable(text);
    ElementNamesDistinct();
    var element := Fields(ELEMENT_NAMES, [Str("e1"), Str("paragraph"), Int(0), Str(text), Arr([])]);
    var document := Fields(["elements"], [Arr([ElementJson(text)])]);
    assert DistinctKeys(element) && DistinctKeys(document);
    FindContent(element, 3);
    FindContent(document, 0);
    ArrayContent(ElementJson(text));
  }

  lemma ArrayContent(v: Json)
    requires Representable(v)
    ensures Representable(Arr([v])) && Content(Arr([v])) == CArr([Content(v)])
  {
    assert [v][1..] == [];
    assert DenoteItems(Unchanged, [v]) == [Denote(Unchanged, v)] + DenoteItems(Unchanged, []);
  }

  // ----- the adapters of the sample builds

  function SampleElement(text: string): Chunks.Element {
    Chunks.Element("e1", Chunks.OtherKind("paragraph"), text, None, [], None, None)
  }

  /** The element as one chunk. */
  function SampleCandidate(text: string): Candidates.Candidate {
    Candidates.BuildCandidate([Chunks.Positioned(SampleElement(text), 0, |text|)], 0)
  }

  /** It is what the hierarchical chunker yields, for every limit the element fits. */
  lemma SampleIsHierarchical(text: string, maxTokens: nat)
    requires maxTokens > 0 && Tokenizer.Count(text) <= maxTokens
    ensures
      var chunks := Candidates.DocumentYield([SampleElement(text)], maxTokens, 0, Candidates.Split);
      Candidates.NonEmptyChunks(chunks) && Candidates.Numbered(chunks) == [SampleCandidate(text)]
  {
    hide Tokenizer.Count, Candidates.BuildCandidate, Candidates.DocumentYield, Chunkers.DocumentChunks;
    TokenLimit.OneChunk(SampleElement(text), maxTokens, 0);
    TokenLimit.WholeDocument([SampleElement(text)], maxTokens, 0);
    Candidates.NumberedAt(Candidates.DocumentYield([SampleElement(text)], maxTokens, 0, Candidates.Split), 0);
  }

  lemma SampleCandidateIs(text: string)
    ensures SampleCandidate(text).rawText == text
    ensures SampleCandidate(text).locator == Candidates.Locator(None, None, None, ["e1"], 0, |text|, 0)
  {
    assert "" + text == text;
    var part := Chunks.Positioned(SampleElement(text), 0, |text|);
    assert [part][1..] == [] && Candidates.FirstPage([]) == None && Candidates.LastPage([]) == None;
    assert Candidates.FirstPage([part]) == None && Candidates.LastPage([part]) == None;
    assert Candidates.RepeatedHeader(SampleElement(text)) == "";
    assert Chunks.JoinTexts([part]) == text;
    assert SampleCandidate(text).locator.elementIds == ["e1"];
  }

  /** The project's chunk candidates and their cache format, and a provider that tells one text from all others. */
  function SampleAdapters(seen: string): Adapters<Candidates.Candidate, int> {
    Adapters(
      (a, c, raw) => Outcome("success", Some(DocumentJson(raw))),
      (a, c, doc) => if ElementText(doc).Some? then Some(([SampleCandidate(ElementText(doc).value)], 0)) else None,
      (a, c, candidate: Candidates.Candidate) => Contextualized(candidate.rawText, Tokenizer.Count(candidate.rawText)),
      (candidate: Candidates.Candidate) => candidate.rawText,
      (candidate: Candidates.Candidate) => candidate.locator,
      CandidateJson.Serialize,
      CandidateJson.Deserialize,
      (p, text, n) => Vector(if text == seen then 1 else 0),
      n => if n == 1 then "1" else "0",
      n => Null)
  }

  const PARSER := Adapter("sample.parser", "1")
  const CHUNKER := Adapter("sample.chunker", "1")
  const PROVIDER := Provider("sample", "tell", "1", 1, "float32")
  const NO_CONFIG := Obj([])

  function SampleConfig(): BuildConfig {
    BuildConfig(mediaType => Some(PARSER), NO_CONFIG, CHUNKER, NO_CONFIG, Some(PROVIDER), "l2", text => false)
  }

  function SampleSource(text: string): Source {
    Source("v1", "text/plain", text)
  }

  lemma SampleNormal(h: Hashing)
    requires CollisionFree(h)
    ensures NormalAdapter(h, PARSER) && NormalAdapter(h, CHUNKER) && NormalJson(h, NO_CONFIG)
  {
    assert Ascii("sample.parser") && Ascii("sample.chunker") && Ascii("1");
  }

  lemma SampleProviderNormal(h: Hashing)
    requires CollisionFree(h)
    ensures NormalProvider(h, PROVIDER)
  {
    assert PROVIDER.provider + ":" + PROVIDER.name == "sample:tell";
    assert Ascii("sample:tell") && Ascii("sample") && Ascii("tell") && Ascii("1") && Ascii("float32");
  }

  // ----- when two documents merge

  /** Dicts with the same names whose values denote the same denote the same. */
  lemma FieldsMerge(nfc: string -> string, names: seq<string>, v: seq<Json>, w: seq<Json>)
    requires |names| == |v| == |w| && AllRepresentable(v) && AllRepresentable(w)
    requires forall i :: 0 <= i < |v| ==> (v[i] in v && w[i] in w && Denote(nfc, v[i]) == Denote(nfc, w[i]))
    ensures Representable(Obj(Fields(names, v))) && Representable(Obj(Fields(names, w)))
    ensures Denote(nfc, Obj(Fields(names, v))) == Denote(nfc, Obj(Fields(names, w)))
  {
    var a, b := Fields(names, v), Fields(names, w);
    FieldsRepresentable(names, v);
    FieldsRepresentable(names, w);
    TextObject(nfc, a);
    TextObject(nfc, b);
    EntryKeys(nfc, a);
    EntryKeys(nfc, b);
    hide Denote, DenoteEntries, Sort, Representable;
    assert DenoteEntries(nfc, a) == DenoteEntries(nfc, b);
  }

  lemma ArrayDenotes(nfc: string -> string, v: Json)
    requires Representable(v)
    ensures Representable(Arr([v])) && Denote(nfc, Arr([v])) == CArr([Denote(nfc, v)])
  {
    assert [v][1..] == [];
    assert DenoteItems(nfc, [v]) == [Denote(nfc, v)] + DenoteItems(nfc, []);
  }

  function ElementValues(text: string): (r: seq<Json>)
    ensures |r| == 5
  {
    [Str("e1"), Str("paragraph"), Int(0), Str(text), Arr([])]
  }

  lemma ElementsMergeIff(h: Hashing, t: string, u: string)
    requires CollisionFree(h)
    ensures Representable(ElementJson(t)) && Representable(ElementJson(u))
    ensures Denote(h.nfc, ElementJson(t)) == Denote(h.nfc, ElementJson(u)) <==> h.nfc(t) == h.nfc(u)
  {
    var v, w := ElementValues(t), ElementValues(u);
    assert AllRepresentable(v) && AllRepresentable(w);
    FieldsRepresentable(ELEMENT_NAMES, v);
    FieldsRepresentable(ELEMENT_NAMES, w);
    assert Denote(h.nfc, v[3]) == CStr(h.nfc(t)) && Denote(h.nfc, w[3]) == CStr(h.nfc(u));
    ElementNamesPlain(h);
    assert SameNames(h.nfc, Fields(ELEMENT_NAMES, v), Fields(ELEMENT_NAMES, w));
    hide Denote, SameNames, CollisionFree;
    if h.nfc(t) == h.nfc(u) {
      FieldsMerge(h.nfc, ELEMENT_NAMES, v, w);
    }
    if Denote(h.nfc, ElementJson(t)) == Denote(h.nfc, ElementJson(u)) {
      FieldsIdentified(h.nfc, Fields(ELEMENT_NAMES, v), Fields(ELEMENT_NAMES, w), 3);
    }
  }

  lemma ElementNamesPlain(h: Hashing)
    requires CollisionFree(h)
    ensures Distinct(ELEMENT_NAMES) && forall i :: 0 <= i < 5 ==> h.nfc(ELEMENT_NAMES[i]) == ELEMENT_NAMES[i]
  {
    ElementNamesDistinct();
    assert Ascii("id") && Ascii("kind") && Ascii("order") && Ascii("text") && Ascii("heading_path");
  }

  lemma DocumentsMergeIff(h: Hashing, t: string, u: string)
    requires CollisionFree(h)
    ensures Representable(DocumentJson(t)) && Representable(DocumentJson(u))
    ensures Denote(h.nfc, DocumentJson(t)) == Denote(h.nfc, DocumentJson(u)) <==> h.nfc(t) == h.nfc(u)
  {
    hide Denote, Representable, ElementJson;
    DocumentRepresentable(t);
    DocumentRepresentable(u);
    ElementsMergeIff(h, t, u);
    ArrayDenotes(h.nfc, ElementJson(t));
    ArrayDenotes(h.nfc, ElementJson(u));
    assert Ascii("elements");
    WrappedMergeIff(h, Arr([ElementJson(t)]), Arr([ElementJson(u)]));
  }

  lemma WrappedMergeIff(h: Hashing, v: Json, w: Json)
    requires CollisionFree(h) && Ascii("elements") && Representable(v) && Representable(w)
    ensures Representable(Obj(Fields(["elements"], [v]))) && Representable(Obj(Fields(["elements"], [w])))
    ensures Denote(h.nfc, Obj(Fields(["elements"], [v]))) == Denote(h.nfc, Obj(Fields(["elements"], [w])))
      <==> Denote(h.nfc, v) == Denote(h.nfc, w)
  {
    assert AllRepresentable([v]) && AllRepresentable([w]);
    FieldsRepresentable(["elements"], [v]);
    FieldsRepresentable(["elements"], [w]);
    assert SameNames(h.nfc, Fields(["elements"], [v]), Fields(["elements"], [w]));
    hide Denote, SameNames, Ascii, CollisionFree;
    if Denote(h.nfc, v) == Denote(h.nfc, w) {
      FieldsMerge(h.nfc, ["elements"], [v], [w]);
    }
    if Denote(h.nfc, Obj(Fields(["elements"], [v]))) == Denote(h.nfc, Obj(Fields(["elements"], [w]))) {
      FieldsIdentified(h.nfc, Fields(["elements"], [v]), Fields(["elements"], [w]), 0);
    }
  }

  // ----- the three stages of the sample builds

  lemma SampleChunk(seen: string, text: string)
    ensures Representable(DocumentJson(text)) && Representable(NO_CONFIG) && HasElements(DocumentJson(text))
    ensures SampleAdapters(seen).chunk(CHUNKER, Content(NO_CONFIG), Content(DocumentJson(text))) ==
      Some(([SampleCandidate(text)], 0))
  {
    ElementTextOf(text);
    LookupFields(["elements"], [Arr([ElementJson(text)])], 0);
    hide ElementText, Content, Lookup;
  }

  lemma SampleReloads(seen: string)
    ensures Reloads(SampleAdapters(seen))
  {
    hide CandidateJson.Serialize, CandidateJson.Deserialize;
    CandidateJson.CandidatesReload(SampleAdapters(seen));
  }

  /** What a build of a document with that text stores. */
  function SampleOutcome(text: string): Outcome {
    Outcome("success", Some(DocumentJson(text)))
  }

  function ParseEntry(h: Hashing, text: string): string
    requires Representable(NO_CONFIG)
  {
    ParseKey(h, PARSER, NO_CONFIG, text)
  }

  function ChunkEntry(h: Hashing, text: string): string
    requires Representable(NO_CONFIG) && Representable(DocumentJson(text))
  {
    ChunkKey(h, CHUNKER, NO_CONFIG, DocumentJson(text))
  }

  function EmbedEntry(h: Hashing, text: string): string {
    EmbedKey(h, PROVIDER, "l2", text)
  }

  lemma EntriesApart(h: Hashing, x: string, y: string, z: string)
    requires CollisionFree(h)
    ensures Representable(NO_CONFIG) && Representable(DocumentJson(y))
    ensures ParseEntry(h, x) != ChunkEntry(h, y) && ParseEntry(h, x) != EmbedEntry(h, z)
      && ChunkEntry(h, y) != EmbedEntry(h, z)
  {
    SampleNormal(h);
    SampleProviderNormal(h);
    DocumentRepresentable(y);
    hide ParseKey, ChunkKey, EmbedKey, DocumentJson, CollisionFree, NormalAdapter, NormalProvider;
    ParseApart(h, PARSER, NO_CONFIG, x, CHUNKER, NO_CONFIG, DocumentJson(y));
    ParseEmbedApart(h, PARSER, NO_CONFIG, x, PROVIDER, "l2", z);
    ChunkEmbedApart(h, CHUNKER, NO_CONFIG, DocumentJson(y), PROVIDER, "l2", z);
  }

  /** When the entries of two texts are the same. */
  lemma EntriesSame(h: Hashing, t: string, u: string)
    requires CollisionFree(h)
    ensures Representable(NO_CONFIG) && Representable(DocumentJson(t)) && Representable(DocumentJson(u))
    ensures ParseEntry(h, t) == ParseEntry(h, u) <==> t == u
    ensures ChunkEntry(h, t) == ChunkEntry(h, u) <==> h.nfc(t) == h.nfc(u)
    ensures EmbedEntry(h, t) == EmbedEntry(h, u) <==> FoldLineEndings(h.nfc(t)) == FoldLineEndings(h.nfc(u))
  {
    SampleNormal(h);
    SampleProviderNormal(h);
    DocumentsMergeIff(h, t, u);
    hide ParseKey, ChunkKey, EmbedKey, DocumentJson, CollisionFree, NormalAdapter, NormalProvider, Denote,
      FoldLineEndings;
    ChunkKeyCollidesIff(h, CHUNKER, NO_CONFIG, DocumentJson(t), DocumentJson(u));
    EmbedKeyCollidesIff(h, PROVIDER, "l2", t, u);
    if ParseEntry(h, t) == ParseEntry(h, u) {
      ParseKeyIdentifies(h, PARSER, NO_CONFIG, t, PARSER, NO_CONFIG, u);
    }
  }

  /** The cache after a build of a document with text `t`, whose provider knows that text. */
  function AfterFirst(h: Hashing, t: string): Entries<int>
    requires Representable(NO_CONFIG) && Representable(DocumentJson(t))
  {
    Three(ParseEntry(h, t), Parsed(OutcomeJson(SampleOutcome(t))),
      ChunkEntry(h, t), Chunked([CandidateJson.Serialize(SampleCandidate(t))], 0),
      EmbedEntry(h, t), Embedded(1))
  }

  function Three(a: string, u: Value<int>, b: string, v: Value<int>, c: string, w: Value<int>): Entries<int> {
    map[][a := u][b := v][c := w]
  }

  lemma ThreeHolds(a: string, u: Value<int>, b: string, v: Value<int>, c: string, w: Value<int>, key: string)
    requires a != b && a != c && b != c
    ensures key in Three(a, u, b, v, c, w) <==> key == a || key == b || key == c
    ensures key in Three(a, u, b, v, c, w) ==> Three(a, u, b, v, c, w)[key] == if key == a then u else if key == b
      then v else w
  {
  }

  lemma AfterFirstHolds(h: Hashing, t: string, key: string)
    requires CollisionFree(h) && Representable(NO_CONFIG) && Representable(DocumentJson(t))
    ensures key in AfterFirst(h, t) <==> key == ParseEntry(h, t) || key == ChunkEntry(h, t) || key == EmbedEntry(h, t)
    ensures key == ParseEntry(h, t) ==> AfterFirst(h, t)[key] == Parsed(OutcomeJson(SampleOutcome(t)))
    ensures key == ChunkEntry(h, t) ==>
      AfterFirst(h, t)[key] == Chunked([CandidateJson.Serialize(SampleCandidate(t))], 0)
    ensures key == EmbedEntry(h, t) ==> AfterFirst(h, t)[key] == Embedded(1)
  {
    EntriesApart(h, t, t, t);
    hide Three, ParseEntry, ChunkEntry, EmbedEntry, DocumentJson, SampleCandidate, CandidateJson.Serialize, OutcomeJson,
      CollisionFree;
    ThreeHolds(ParseEntry(h, t), Parsed(OutcomeJson(SampleOutcome(t))),
      ChunkEntry(h, t), Chunked([CandidateJson.Serialize(SampleCandidate(t))], 0), EmbedEntry(h, t), Embedded(1), key);
  }

  /** The parse stage gives the document of the text, stored or not, and adds at most its own entry. */
  lemma SampleParse(h: Hashing, seen: string, entries: Entries<int>, u: string)
    requires Representable(NO_CONFIG)
    requires ParseEntry(h, u) in entries ==> entries[ParseEntry(h, u)] == Parsed(OutcomeJson(SampleOutcome(u)))
    ensures ParseStage(h, SampleAdapters(seen), entries, PARSER, NO_CONFIG, u) ==
      (Some(SampleOutcome(u)), entries[ParseEntry(h, u) := Parsed(OutcomeJson(SampleOutcome(u)))])
  {
    OutcomeReads(SampleOutcome(u));
    hide ParseKey, DocumentJson, OutcomeJson, ReadOutcome, Content;
    if ParseEntry(h, u) in entries {
      assert entries[ParseEntry(h, u) := entries[ParseEntry(h, u)]] == entries;
    }
  }

  /** The chunk stage gives the stored chunk if there is one, else the text's own. */
  lemma SampleChunks(h: Hashing, seen: string, entries: Entries<int>, x: string, u: string)
    requires Representable(NO_CONFIG) && Representable(DocumentJson(u))
    requires if ChunkEntry(h, u) in entries then entries[ChunkEntry(h, u)] ==
      Chunked([CandidateJson.Serialize(SampleCandidate(x))], 0) else x == u
    ensures ChunkStage(h, SampleAdapters(seen), entries, CHUNKER, NO_CONFIG, DocumentJson(u)) ==
      (Some([SampleCandidate(x)]), entries[ChunkEntry(h, u) :=
        Chunked([CandidateJson.Serialize(SampleCandidate(x))], 0)])
  {
    SampleReloads(seen);
    SampleChunk(seen, u);
    hide ChunkKey, DocumentJson, Content, CandidateJson.Serialize, CandidateJson.Deserialize, SampleCandidate,
      ElementText, Reloads;
    var ad := SampleAdapters(seen);
    assert DumpAll(ad, [SampleCandidate(x)]) == [CandidateJson.Serialize(SampleCandidate(x))];
    LoadsDumped(ad, [SampleCandidate(x)]);
    hide LoadAll, DumpAll;
    if ChunkEntry(h, u) in entries {
      assert entries[ChunkEntry(h, u) := entries[ChunkEntry(h, u)]] == entries;
    }
  }

  // ----- the records of the sample builds

  /** The record of a chunk with that text, from a source of another. */
  function SampleChunkRecord(h: Hashing, seen: string, source: string, text: string): ChunkRecord {
    ChunkRecordOf(h, SampleAdapters(seen), SampleConfig(), SampleSource(source), PARSER, SampleCandidate(text))
  }

  /** The records of a source whose chunk has that text and whose vector is `v`. */
  function SampleRecords(h: Hashing, seen: string, source: string, text: string, v: int): Records {
    var record := SampleChunkRecord(h, seen, source, text);
    Records([record], [EmbeddingRecordOf(h, SampleAdapters(seen), SampleConfig(), record, v)])
  }

  function Told(seen: string, text: string): int {
    if text == seen then 1 else 0
  }

  lemma AppendNothing(r: Records)
    ensures Append(Records([], []), r) == r
  {
  }

  lemma OneCandidate(h: Hashing, seen: string, source: string, text: string, entries: Entries<int>, v: int)
    requires if EmbedEntry(h, text) in entries then entries[EmbedEntry(h, text)] == Embedded(v)
      else v == Told(seen, text)
    ensures CandidatesWith(h, SampleAdapters(seen), SampleConfig(), SampleSource(source), PARSER,
      [SampleCandidate(text)], entries) ==
      (Some(SampleRecords(h, seen, source, text, v)), entries[EmbedEntry(h, text) := Embedded(v)])
  {
    SampleCandidateIs(text);
    hide ChunkRecordOf, EmbeddingRecordOf, EmbedKey, SampleCandidate, Content;
    var ad, c := SampleAdapters(seen), SampleCandidate(text);
    assert [c][..0] == [];
    assert CandidatesWith(h, ad, SampleConfig(), SampleSource(source), PARSER, [], entries) ==
      (Some(Records([], [])), entries);
    assert EmbedStage(h, ad, entries, PROVIDER, "l2", text).0 == Vector(v);
    if EmbedEntry(h, text) in entries {
      assert entries[EmbedEntry(h, text) := entries[EmbedEntry(h, text)]] == entries;
    }
    AppendNothing(SampleRecords(h, seen, source, text, v));
  }

  /** A sample build over a cache: `x` is the text of the chunk it comes to, `v` the vector. */
  lemma OneSource(h: Hashing, seen: string, entries: Entries<int>, u: string, x: string, v: int)
    requires CollisionFree(h) && Representable(NO_CONFIG) && Representable(DocumentJson(u))
    requires ParseEntry(h, u) in entries ==> entries[ParseEntry(h, u)] == Parsed(OutcomeJson(SampleOutcome(u)))
    requires if ChunkEntry(h, u) in entries then entries[ChunkEntry(h, u)] ==
      Chunked([CandidateJson.Serialize(SampleCandidate(x))], 0)
      else x == u
    requires if EmbedEntry(h, x) in entries then entries[EmbedEntry(h, x)] == Embedded(v) else v == Told(seen, x)
    ensures SourceWith(h, SampleAdapters(seen), SampleConfig(), SampleSource(u), entries) ==
      (Some(SampleRecords(h, seen, u, x, v)),
       entries[ParseEntry(h, u) := Parsed(OutcomeJson(SampleOutcome(u)))]
              [ChunkEntry(h, u) := Chunked([CandidateJson.Serialize(SampleCandidate(x))], 0)]
              [EmbedEntry(h, x) := Embedded(v)])
  {
    EntriesApart(h, u, u, x);
    SampleChunk(seen, u);
    hide ParseEntry, ChunkEntry, EmbedEntry, ParseStage, ChunkStage, CandidatesWith, SampleRecords, DocumentJson,
      SampleCandidate,
      CandidateJson.Serialize, OutcomeJson, CollisionFree, HasElements, Content, ElementText;
    var parsed := entries[ParseEntry(h, u) := Parsed(OutcomeJson(SampleOutcome(u)))];
    SampleParse(h, seen, entries, u);
    SampleChunks(h, seen, parsed, x, u);
    var chunked := parsed[ChunkEntry(h, u) := Chunked([CandidateJson.Serialize(SampleCandidate(x))], 0)];
    OneCandidate(h, seen, u, x, chunked, v);
  }

  lemma OneBuild(h: Hashing, seen: string, source: Source, entries: Entries<int>)
    ensures BuildRecords(h, SampleAdapters(seen), SampleConfig(), [source]) ==
      SourceRecords(h, SampleAdapters(seen), SampleConfig(), source)
    ensures BuildWith(h, SampleAdapters(seen), SampleConfig(), [source], entries)
      == SourceWith(h, SampleAdapters(seen), SampleConfig(), source, entries)
  {
    hide SourceRecords, SourceWith, SampleAdapters, SampleConfig;
    var ad, cfg := SampleAdapters(seen), SampleConfig();
    assert [source][..0] == [];
    assert BuildRecords(h, ad, cfg, []) == Some(Records([], []));
    assert BuildWith(h, ad, cfg, [], entries) == (Some(Records([], [])), entries);
    var alone, cached := SourceRecords(h, ad, cfg, source), SourceWith(h, ad, cfg, source, entries).0;
    if alone.Some? { AppendNothing(alone.value); }
    if cached.Some? { AppendNothing(cached.value); }
  }

  lemma FirstBuild(h: Hashing, t: string)
    requires CollisionFree(h)
    ensures Representable(NO_CONFIG) && Representable(DocumentJson(t))
    ensures BuildWith(h, SampleAdapters(t), SampleConfig(), [SampleSource(t)], map[]).1 == AfterFirst(h, t)
  {
    DocumentRepresentable(t);
    hide ParseEntry, ChunkEntry, EmbedEntry, SourceWith, SampleRecords, DocumentJson, SampleCandidate,
      CandidateJson.Serialize, OutcomeJson,
      CollisionFree, BuildWith;
    EntriesApart(h, t, t, t);
    OneSource(h, t, map[], t, t, 1);
    OneBuild(h, t, SampleSource(t), map[]);
  }

  /** Normalization and folding merge the texts. */
  predicate Merged(h: Hashing, t: string, u: string) {
    FoldLineEndings(h.nfc(t)) == FoldLineEndings(h.nfc(u))
  }

  /**
  Over the first build's cache: the first one's chunk if the documents merge, the first one's vector if the texts do.
  */
  lemma SecondBuild(h: Hashing, t: string, u: string)
    requires CollisionFree(h) && Representable(NO_CONFIG) && Representable(DocumentJson(t))
    ensures BuildWith(h, SampleAdapters(t), SampleConfig(), [SampleSource(u)], AfterFirst(h, t)).0 ==
      Some(SampleRecords(h, t, u, if h.nfc(t) == h.nfc(u) then t else u, if Merged(h, t, u) then 1 else 0))
  {
    hide ParseEntry, ChunkEntry, EmbedEntry, SourceWith, SampleRecords, DocumentJson, SampleCandidate,
      CandidateJson.Serialize, OutcomeJson,
      CollisionFree, BuildWith, FoldLineEndings, AfterFirst;
    DocumentRepresentable(u);
    var x, v := if h.nfc(t) == h.nfc(u) then t else u, if Merged(h, t, u) then 1 else 0;
    StoredParse(h, t, u);
    StoredChunk(h, t, u);
    StoredVector(h, t, x);
    OneSource(h, t, AfterFirst(h, t), u, x, v);
    OneBuild(h, t, SampleSource(u), AfterFirst(h, t));
  }

  lemma StoredParse(h: Hashing, t: string, u: string)
    requires CollisionFree(h) && Representable(NO_CONFIG) && Representable(DocumentJson(t))
    ensures ParseEntry(h, u) in AfterFirst(h, t) ==>
      AfterFirst(h, t)[ParseEntry(h, u)] == Parsed(OutcomeJson(SampleOutcome(u)))
  {
    EntriesSame(h, t, u);
    EntriesApart(h, u, t, t);
    hide AfterFirst, ParseEntry, ChunkEntry, EmbedEntry, DocumentJson, SampleCandidate, CandidateJson.Serialize,
      OutcomeJson, SampleOutcome,
      CollisionFree, FoldLineEndings;
    AfterFirstHolds(h, t, ParseEntry(h, u));
  }

  lemma StoredChunk(h: Hashing, t: string, u: string)
    requires CollisionFree(h) && Representable(NO_CONFIG) && Representable(DocumentJson(t))
      && Representable(DocumentJson(u))
    ensures ChunkEntry(h, u) in AfterFirst(h, t) <==> h.nfc(t) == h.nfc(u)
    ensures h.nfc(t) == h.nfc(u) ==>
      AfterFirst(h, t)[ChunkEntry(h, u)] == Chunked([CandidateJson.Serialize(SampleCandidate(t))], 0)
  {
    EntriesSame(h, t, u);
    EntriesApart(h, t, u, t);
    hide AfterFirst, ParseEntry, ChunkEntry, EmbedEntry, DocumentJson, SampleCandidate, CandidateJson.Serialize,
      OutcomeJson, SampleOutcome,
      CollisionFree, FoldLineEndings;
    AfterFirstHolds(h, t, ChunkEntry(h, u));
  }

  lemma StoredVector(h: Hashing, t: string, x: string)
    requires CollisionFree(h) && Representable(NO_CONFIG) && Representable(DocumentJson(t))
    ensures EmbedEntry(h, x) in AfterFirst(h, t) <==> Merged(h, t, x)
    ensures Merged(h, t, x) ==> AfterFirst(h, t)[EmbedEntry(h, x)] == Embedded(1)
  {
    EntriesSame(h, t, x);
    EntriesApart(h, t, t, x);
    hide AfterFirst, ParseEntry, ChunkEntry, EmbedEntry, DocumentJson, SampleCandidate, CandidateJson.Serialize,
      OutcomeJson, SampleOutcome,
      CollisionFree, FoldLineEndings;
    AfterFirstHolds(h, t, EmbedEntry(h, x));
  }

  lemma BuildAlone(h: Hashing, seen: string, u: string)
    ensures BuildRecords(h, SampleAdapters(seen), SampleConfig(), [SampleSource(u)]) ==
      Some(SampleRecords(h, seen, u, u, Told(seen, u)))
  {
    SampleChunk(seen, u);
    CandidateAlone(h, seen, u);
    OneBuild(h, seen, SampleSource(u), map[]);
    hide AllCandidates, Content, DocumentJson, ElementText, SampleRecords, SampleCandidate, BuildRecords, BuildWith,
      SourceWith, HasElements;
  }

  lemma CandidateAlone(h: Hashing, seen: string, u: string)
    ensures AllCandidates(h, SampleAdapters(seen), SampleConfig(), SampleSource(u), PARSER, [SampleCandidate(u)])
      == Some(SampleRecords(h, seen, u, u, Told(seen, u)))
  {
    SampleCandidateIs(u);
    hide ChunkRecordOf, EmbeddingRecordOf, SampleCandidate, Content;
    var ad, c := SampleAdapters(seen), SampleCandidate(u);
    assert [c][..0] == [];
    assert AllCandidates(h, ad, SampleConfig(), SampleSource(u), PARSER, []) == Some(Records([], []));
    AppendNothing(SampleRecords(h, seen, u, u, Told(seen, u)));
  }

  // ----- what the cache changes

  /** What a build of a document with text `u` records after one with text `t` over the same cache. */
  function Second(h: Hashing, t: string, u: string): Option<Records> {
    var first := BuildWith(h, SampleAdapters(t), SampleConfig(), [SampleSource(t)], map[]);
    BuildWith(h, SampleAdapters(t), SampleConfig(), [SampleSource(u)], first.1).0
  }

  /** What it records without a cache. */
  function Alone(h: Hashing, t: string, u: string): Option<Records> {
    BuildRecords(h, SampleAdapters(t), SampleConfig(), [SampleSource(u)])
  }

  lemma BothBuilds(h: Hashing, t: string, u: string)
    requires CollisionFree(h)
    ensures Second(h, t, u) ==
      Some(SampleRecords(h, t, u, if h.nfc(t) == h.nfc(u) then t else u, if Merged(h, t, u) then 1 else 0))
    ensures Alone(h, t, u) == Some(SampleRecords(h, t, u, u, Told(t, u)))
  {
    hide SampleRecords, CollisionFree, BuildWith, BuildRecords, AfterFirst, DocumentJson, Merged;
    FirstBuild(h, t);
    SecondBuild(h, t, u);
    BuildAlone(h, t, u);
  }

  /**
  After a build of another text, with a provider that tells the two apart, the cache changes what a build records:
  exactly when normalization and folding merge two different texts. Then it records the other text's vector.
  */
  lemma CacheShowsIff(h: Hashing, t: string, u: string)
    requires CollisionFree(h)
    ensures Second(h, t, u).Some? && Alone(h, t, u).Some?
    ensures |Second(h, t, u).value.embeddings| == |Alone(h, t, u).value.embeddings| == 1
    ensures Second(h, t, u) != Alone(h, t, u) <==> t != u && Merged(h, t, u)
    ensures t != u && Merged(h, t, u) ==>
      && Second(h, t, u).value.embeddings[0].vectorHash == SampleAdapters(t).vectorHash(Told(t, t))
      && Alone(h, t, u).value.embeddings[0].vectorHash == SampleAdapters(t).vectorHash(Told(t, u))
      && SampleAdapters(t).vectorHash(Told(t, t)) != SampleAdapters(t).vectorHash(Told(t, u))
  {
    BothBuilds(h, t, u);
    hide Second, Alone, SampleChunkRecord, EmbeddingConfigHash, FoldLineEndings, CollisionFree;
    assert "1"[0] != "0"[0];
  }

  /**
  The chunk records of two merged documents agree exactly when length and token count, the locator's and the record's
  own, do.
  */
  lemma ChunkRecordsAgreeIff(h: Hashing, t: string, u: string)
    requires CollisionFree(h) && h.nfc(t) == h.nfc(u)
    ensures Second(h, t, u).Some? && Alone(h, t, u).Some?
    ensures Second(h, t, u).value.chunks == Alone(h, t, u).value.chunks
      <==> |t| == |u| && Tokenizer.Count(t) == Tokenizer.Count(u)
  {
    BothBuilds(h, t, u);
    RecordsAgreeIff(h, t, u, t, u);
    hide Second, Alone, SampleChunkRecord, EmbeddingRecordOf, FoldLineEndings, CollisionFree, Tokenizer.Count;
  }

  lemma RecordsAgreeIff(h: Hashing, seen: string, source: string, t: string, u: string)
    requires h.nfc(t) == h.nfc(u)
    ensures SampleChunkRecord(h, seen, source, t) == SampleChunkRecord(h, seen, source, u)
      <==> |t| == |u| && Tokenizer.Count(t) == Tokenizer.Count(u)
    ensures SampleChunkRecord(h, seen, source, t).locator.characterEnd == |t|
  {
    SampleCandidateIs(t);
    SampleCandidateIs(u);
    hide SampleCandidate, Tokenizer.Count, ConfigHash, Content, FoldLineEndings;
  }

  /**
  A letter written decomposed and composed: the recorded chunk ends where the other text's does, and the vector is its
  vector.
  */
  lemma ComposedLetterShows(h: Hashing)
    requires CollisionFree(h) && h.nfc("e\U{301}") == h.nfc("\U{e9}")
    ensures var t, u := "e\U{301}", "\U{e9}";
      && Second(h, t, u).Some? && Alone(h, t, u).Some? && Second(h, t, u) != Alone(h, t, u)
      && Second(h, t, u).value.chunks != Alone(h, t, u).value.chunks
  {
    hide Second, Alone, CollisionFree, FoldLineEndings;
    var t, u := "e\U{301}", "\U{e9}";
    assert |t| == 2 && |u| == 1;
    CacheShowsIff(h, t, u);
    ChunkRecordsAgreeIff(h, t, u);
  }

  /**
  The Angstrom sign and the letter it normalizes to: the recorded chunks agree, and the vector is the other text's.
  */
  lemma AngstromShows(h: Hashing)
    requires CollisionFree(h) && h.nfc("\U{212B}") == h.nfc("\U{C5}")
    ensures var t, u := "\U{212B}", "\U{C5}";
      && Second(h, t, u).Some? && Alone(h, t, u).Some? && Second(h, t, u) != Alone(h, t, u)
      && Second(h, t, u).value.chunks == Alone(h, t, u).value.chunks
  {
    hide Second, Alone, CollisionFree, FoldLineEndings;
    var t, u := "\U{212B}", "\U{C5}";
    assert t[0] != u[0];
    TokenLimit.OneWord(t[0]);
    TokenLimit.OneWord(u[0]);
    assert t == [t[0]] && u == [u[0]];
    CacheShowsIff(h, t, u);
    ChunkRecordsAgreeIff(h, t, u);
  }
}
