/** A candidate as the stage cache stores it: its dump, and reading the dump back. */
module CandidateJson {
  import opened Ordering
  import opened Canonical
  import opened JsonDict
  import opened Candidates
  import StageCaching

  const LOCATOR_NAMES := ["kind", "page_start", "page_end", "heading_path", "element_ids", "character_start",
    "character_end", "ordinal"]
  const CANDIDATE_NAMES := ["element_refs", "raw_text", "locator", "heading_path", "table_caption"]

  function OptionalNat(n: Option<nat>): Option<Json> {
    if n.Some? then Some(Int(n.value)) else None
  }

  function OptionalStrings(items: Option<seq<string>>): Option<Json> {
    if items.Some? then Some(Arr(Strings(items.value))) else None
  }

  function LocatorValues(at: Locator): (r: seq<Option<Json>>)
    ensures |r| == 8
  {
    [Some(Str("document_span")), OptionalNat(at.pageStart), OptionalNat(at.pageEnd), OptionalStrings(at.headingPath),
     Some(Arr(Strings(at.elementIds))), Some(Int(at.characterStart)), Some(Int(at.characterEnd)), Some(Int(at.ordinal))]
  }

  /** `model_dump` of a locator, absent fields left out. */
  function LocatorJson(at: Locator): Json {
    Obj(Present(LOCATOR_NAMES, LocatorValues(at)))
  }

  function CandidateValues(c: Candidate): (r: seq<Json>)
    ensures |r| == 5
  {
    [Arr(Strings(c.elementRefs)), Str(c.rawText), LocatorJson(c.locator), Arr(Strings(c.headingPath)),
     if c.tableCaption.Some? then Str(c.tableCaption.value) else Null]
  }

  /** `_serialize_candidate` */
  function Serialize(c: Candidate): Json {
    Obj(Fields(CANDIDATE_NAMES, CandidateValues(c)))
  }

  // ----- reading back; nothing where a lookup or validation raises

  function ReadNat(v: Option<Json>): Option<Option<nat>> {
    if v.None? then Some(None) else if v.value.Int? && v.value.n >= 0 then Some(Some(v.value.n)) else None
  }

  function ReadOptionalStrings(v: Option<Json>): Option<Option<seq<string>>> {
    if v.None? then Some(None)
    else if ReadStrings(v.value).Some? then Some(Some(ReadStrings(v.value).value))
    else None
  }

  predicate Has<T>(v: Option<Option<T>>) {
    v.Some? && v.value.Some?
  }

  /** `StructuralLocator.model_validate` */
  function ReadLocator(v: Json): Option<Locator> {
    if !v.Obj? then None
    else
      var pageStart, pageEnd := ReadNat(Lookup(v.members, "page_start")), ReadNat(Lookup(v.members, "page_end"));
      var headingPath, ids := ReadOptionalStrings(Lookup(v.members, "heading_path")),
        ReadOptionalStrings(Lookup(v.members, "element_ids"));
      var start, end := ReadNat(Lookup(v.members, "character_start")), ReadNat(Lookup(v.members, "character_end"));
      var ordinal := ReadNat(Lookup(v.members, "ordinal"));
      if pageStart.Some? && pageEnd.Some? && headingPath.Some? && Has(ids) && Has(start) && Has(end)
        && Has(ordinal) then
        Some(Locator(pageStart.value, pageEnd.value, headingPath.value, ids.value.value, start.value.value,
          end.value.value, ordinal.value.value))
      else None
  }

  function ReadCaption(v: Option<Json>): Option<Option<string>> {
    if v == Some(Null) then Some(None) else if v.Some? && v.value.Str? then Some(Some(v.value.s)) else None
  }

  /** `_deserialize_candidate` */
  function Deserialize(v: Json): Option<Candidate> {
    if !v.Obj? then None
    else
      var refs, path := ReadOptionalStrings(Lookup(v.members, "element_refs")),
        ReadOptionalStrings(Lookup(v.members, "heading_path"));
      var raw, locator := Lookup(v.members, "raw_text"), Lookup(v.members, "locator");
      var caption := ReadCaption(Lookup(v.members, "table_caption"));
      if Has(refs) && Has(path) && raw.Some? && raw.value.Str? && locator.Some? && ReadLocator(locator.value).Some?
        && caption.Some? then
        Some(Candidate(refs.value.value, raw.value.s, ReadLocator(locator.value).value, path.value.value,
          caption.value))
      else None
  }

  // ----- nothing is lost

  lemma LocatorNames()
    ensures Distinct(LOCATOR_NAMES)
  {
    var k := LOCATOR_NAMES;
    assert |k[0]| == 4 && |k[1]| == 10 && |k[2]| == 8 && |k[3]| == 12 && |k[4]| == 11 && |k[5]| == 15 && |k[6]| == 13
      && |k[7]| == 7;
  }

  lemma CandidateNames()
    ensures Distinct(CANDIDATE_NAMES)
  {
    var k := CANDIDATE_NAMES;
    assert |k[0]| == 12 && |k[1]| == 8 && |k[2]| == 7 && |k[3]| == 12 && |k[4]| == 13;
    assert k[0][0] == 'e' && k[3][0] == 'h';
  }

  lemma LocatorReads(at: Locator)
    ensures ReadLocator(LocatorJson(at)) == Some(at)
  {
    LocatorNames();
    hide Present, Lookup, ReadStrings, Distinct;
    var values := LocatorValues(at);
    LookupPresent(LOCATOR_NAMES, values, 1);
    LookupPresent(LOCATOR_NAMES, values, 2);
    LookupPresent(LOCATOR_NAMES, values, 3);
    LookupPresent(LOCATOR_NAMES, values, 4);
    LookupPresent(LOCATOR_NAMES, values, 5);
    LookupPresent(LOCATOR_NAMES, values, 6);
    LookupPresent(LOCATOR_NAMES, values, 7);
    StringsRead(at.elementIds);
    if at.headingPath.Some? {
      StringsRead(at.headingPath.value);
    }
  }

  /** A cached candidate reads back as it was stored. */
  lemma CandidateReads(c: Candidate)
    ensures Deserialize(Serialize(c)) == Some(c)
  {
    CandidateNames();
    LocatorReads(c.locator);
    hide Lookup, ReadStrings, Distinct, LocatorJson, ReadLocator, Fields;
    var values := CandidateValues(c);
    LookupFields(CANDIDATE_NAMES, values, 0);
    LookupFields(CANDIDATE_NAMES, values, 1);
    LookupFields(CANDIDATE_NAMES, values, 2);
    LookupFields(CANDIDATE_NAMES, values, 3);
    LookupFields(CANDIDATE_NAMES, values, 4);
    StringsRead(c.elementRefs);
    StringsRead(c.headingPath);
  }

  /** So adapters that store candidates this way lose none. */
  lemma CandidatesReload<V(!new)>(ad: StageCaching.Adapters<Candidate, V>)
    requires forall c :: ad.dump(c) == Serialize(c)
    requires forall v :: ad.load(v) == Deserialize(v)
    ensures StageCaching.Reloads(ad)
  {
    hide Serialize, Deserialize;
    forall c ensures ad.load(ad.dump(c)) == Some(c) {
      CandidateReads(c);
    }
  }
}
