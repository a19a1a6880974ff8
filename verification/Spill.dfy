/** An expected point as a run file stores it: its dict, and reading the dict back. */
module Spill {
  import opened Ordering
  import opened Canonical
  import opened JsonDict
  import opened Matching

  const SPILL_NAMES: seq<string> := [
    "binding_id", "target", "scope", "point_id", "embedding_id", "embedding_model", "embedding_dimension",
    "embedding_vector_hash", "chunk_id", "parse_run_id", "parser_name", "parser_version", "parser_config_hash",
    "source_id", "source_version_id", "source_status", "expected_payload_hash", "expected_payload_projection",
    "tenant_projection", "acl_projection", "write_status", "pii_assertion_ids", "license_assertion_ids"]

  // ----- values

  function OptionalText(s: Option<string>): Json {
    if s.Some? then Str(s.value) else Null
  }

  function OptionalInt(n: Option<int>): Json {
    if n.Some? then Int(n.value) else Null
  }

  function OptionalList(items: Option<seq<string>>): Json {
    if items.Some? then Arr(Strings(items.value)) else Null
  }

  const MODEL_NAMES: seq<string> := ["provider", "name", "revision"]

  function ModelJson(model: Option<EmbeddingModel>): Json {
    if model.Some?
      then Obj(Fields(MODEL_NAMES, [Str(model.value.provider), Str(model.value.name), Str(model.value.revision)]))
      else Null
  }

  /** A projection is kept only if it is truthy: an empty dict is not. */
  function ProjectionJson(projection: Option<seq<Entry<Json>>>): Json {
    if projection.Some? && projection.value != [] then Obj(projection.value) else Null
  }

  function ReadText(v: Option<Json>): Option<string> {
    if v.Some? && v.value.Str? then Some(v.value.s) else None
  }

  function ReadOptionalText(v: Option<Json>): Option<Option<string>> {
    if v.None? || v.value.Null? then Some(None) else if v.value.Str? then Some(Some(v.value.s)) else None
  }

  function ReadInt(v: Option<Json>): Option<Option<int>> {
    if v.None? || v.value.Null? then Some(None) else if v.value.Int? then Some(Some(v.value.n)) else None
  }

  function ReadOptionalList(v: Option<Json>): Option<Option<seq<string>>> {
    if v.None? || v.value.Null? then Some(None)
    else if ReadStrings(v.value).Some? then Some(Some(ReadStrings(v.value).value))
    else None
  }

  function ReadList(v: Option<Json>): Option<seq<string>> {
    if v.None? then Some([]) else ReadStrings(v.value)
  }

  function ReadProjection(v: Option<Json>): Option<Option<seq<Entry<Json>>>> {
    if v.None? || v.value.Null? then Some(None) else if v.value.Obj? then Some(Some(v.value.members)) else None
  }

  /** A falsy dict, empty or absent, is no model. */
  function ReadModel(v: Option<Json>): Option<Option<EmbeddingModel>> {
    if v.None? || v.value.Null? || v.value == Obj([]) then Some(None)
    else if !v.value.Obj? then None
    else
      var provider, name, revision := ReadText(Lookup(v.value.members, "provider")),
        ReadText(Lookup(v.value.members, "name")), ReadText(Lookup(v.value.members, "revision"));
      if provider.Some? && name.Some? && revision.Some?
        then Some(Some(EmbeddingModel(provider.value, name.value, revision.value))) else None
  }

  // ----- the dict

  function SpillValues(item: ExpectedPoint): (r: seq<Json>)
    ensures |r| == 23
  {
    [Str(item.bindingId), Str(item.target), Str(item.scope), Str(item.pointId), Str(item.embeddingId),
     ModelJson(item.embeddingModel), OptionalInt(item.embeddingDimension), OptionalText(item.embeddingVectorHash),
     OptionalText(item.chunkId), OptionalText(item.parseRunId), OptionalText(item.parserName),
     OptionalText(item.parserVersion), OptionalText(item.parserConfigHash), OptionalText(item.sourceId),
     OptionalText(item.sourceVersionId), OptionalText(item.sourceStatus), Str(item.expectedPayloadHash),
     ProjectionJson(item.expectedPayloadProjection), OptionalText(item.tenantProjection),
       OptionalList(item.aclProjection),
     OptionalText(item.writeStatus), Arr(Strings(item.piiAssertionIds)), Arr(Strings(item.licenseAssertionIds))]
  }

  /** `expected_point_to_dict` */
  function ToDict(item: ExpectedPoint): seq<Entry<Json>> {
    Fields(SPILL_NAMES, SpillValues(item))
  }

  /** `expected_point_from_dict`; nothing where a lookup or validation raises. */
  function FromDict(data: seq<Entry<Json>>): Option<ExpectedPoint> {
    var bindingId := ReadText(Lookup(data, "binding_id"));
    var target := ReadText(Lookup(data, "target"));
    var scope := ReadText(Lookup(data, "scope"));
    var pointId := ReadText(Lookup(data, "point_id"));
    var embeddingId := ReadText(Lookup(data, "embedding_id"));
    var embeddingModel := ReadModel(Lookup(data, "embedding_model"));
    var embeddingDimension := ReadInt(Lookup(data, "embedding_dimension"));
    var embeddingVectorHash := ReadOptionalText(Lookup(data, "embedding_vector_hash"));
    var chunkId := ReadOptionalText(Lookup(data, "chunk_id"));
    var parseRunId := ReadOptionalText(Lookup(data, "parse_run_id"));
    var parserName := ReadOptionalText(Lookup(data, "parser_name"));
    var parserVersion := ReadOptionalText(Lookup(data, "parser_version"));
    var parserConfigHash := ReadOptionalText(Lookup(data, "parser_config_hash"));
    var sourceId := ReadOptionalText(Lookup(data, "source_id"));
    var sourceVersionId := ReadOptionalText(Lookup(data, "source_version_id"));
    var sourceStatus := ReadOptionalText(Lookup(data, "source_status"));
    var expectedPayloadHash := ReadText(Lookup(data, "expected_payload_hash"));
    var expectedPayloadProjection := ReadProjection(Lookup(data, "expected_payload_projection"));
    var tenantProjection := ReadOptionalText(Lookup(data, "tenant_projection"));
    var aclProjection := ReadOptionalList(Lookup(data, "acl_projection"));
    var writeStatus := ReadOptionalText(Lookup(data, "write_status"));
    var piiAssertionIds := ReadList(Lookup(data, "pii_assertion_ids"));
    var licenseAssertionIds := ReadList(Lookup(data, "license_assertion_ids"));
    if bindingId.Some? && target.Some? && scope.Some? && pointId.Some? && embeddingId.Some? && embeddingModel.Some?
        && embeddingDimension.Some? && embeddingVectorHash.Some? && chunkId.Some? && parseRunId.Some?
          && parserName.Some? && parserVersion.Some?
        && parserConfigHash.Some? && sourceId.Some? && sourceVersionId.Some? && sourceStatus.Some?
          && expectedPayloadHash.Some? && expectedPayloadProjection.Some?
        && tenantProjection.Some? && aclProjection.Some? && writeStatus.Some? && piiAssertionIds.Some?
          && licenseAssertionIds.Some?
    then
      Some(ExpectedPoint(
          bindingId.value, target.value, scope.value, pointId.value, embeddingId.value, embeddingModel.value,
          embeddingDimension.value, embeddingVectorHash.value, chunkId.value, parseRunId.value, parserName.value,
          parserVersion.value, parserConfigHash.value, sourceId.value, sourceVersionId.value, sourceStatus.value,
          expectedPayloadHash.value, expectedPayloadProjection.value, tenantProjection.value, aclProjection.value,
          writeStatus.value, piiAssertionIds.value, licenseAssertionIds.value))
    else None
  }

  /** What a spilled point reads back as: an empty projection becomes none. */
  function Respill(item: ExpectedPoint): ExpectedPoint {
    item.(expectedPayloadProjection :=
      if item.expectedPayloadProjection == Some([]) then None else item.expectedPayloadProjection)
  }

  // ----- reading back

  lemma SpillNames()
    ensures Distinct(SPILL_NAMES)
  {
    var k := SPILL_NAMES;
    assert |k[0]| == 10 && |k[1]| == 6 && |k[2]| == 5 && |k[3]| == 8 && |k[4]| == 12 && |k[5]| == 15 && |k[6]| == 19
      && |k[7]| == 21;
    assert |k[8]| == 8 && |k[9]| == 12 && |k[10]| == 11 && |k[11]| == 14 && |k[12]| == 18 && |k[13]| == 9 && |k[14]| ==
      17 && |k[15]| == 13;
    assert |k[16]| == 21 && |k[17]| == 27 && |k[18]| == 17 && |k[19]| == 14 && |k[20]| == 12 && |k[21]| == 17
      && |k[22]| == 21;
    assert k[3][0] == 'p' && k[8][0] == 'c';
    assert k[4][0] == 'e' && k[9][0] == 'p' && k[20][0] == 'w';
    assert k[11][0] == 'p' && k[19][0] == 'a';
    assert k[14][0] == 's' && k[18][0] == 't' && k[21][0] == 'p';
    assert k[7][1] == 'm' && k[16][1] == 'x' && k[22][1] == 'i';
  }

  lemma ModelReads(model: Option<EmbeddingModel>)
    ensures ReadModel(Some(ModelJson(model))) == Some(model)
  {
    if model.Some? {
      var k := MODEL_NAMES;
      assert |k[0]| == 8 && |k[1]| == 4 && |k[2]| == 8 && k[0][0] == 'p' && k[2][0] == 'r';
      var values := [Str(model.value.provider), Str(model.value.name), Str(model.value.revision)];
      LookupFields(k, values, 0);
      LookupFields(k, values, 1);
      LookupFields(k, values, 2);
      hide Lookup;
      assert Fields(k, values) != [];
    }
  }

  /** The dict gives back the value dumped under each name. */
  lemma SpillLookup(item: ExpectedPoint, i: nat)
    requires i < 23
    ensures Lookup(ToDict(item), SPILL_NAMES[i]) == Some(SpillValues(item)[i])
  {
    SpillNames();
    hide Distinct, SpillValues, Lookup;
    LookupFields(SPILL_NAMES, SpillValues(item), i);
  }

  /** The required strings read back. */
  lemma SpilledTexts(item: ExpectedPoint)
    ensures var data := ToDict(item);
      && ReadText(Lookup(data, "binding_id")) == Some(item.bindingId)
      && ReadText(Lookup(data, "target")) == Some(item.target)
      && ReadText(Lookup(data, "scope")) == Some(item.scope)
      && ReadText(Lookup(data, "point_id")) == Some(item.pointId)
      && ReadText(Lookup(data, "embedding_id")) == Some(item.embeddingId)
      && ReadText(Lookup(data, "expected_payload_hash")) == Some(item.expectedPayloadHash)
  {
    hide Lookup, ToDict, ModelJson, ReadModel, ReadStrings, Strings;
    SpillLookup(item, 0);
    SpillLookup(item, 1);
    SpillLookup(item, 2);
    SpillLookup(item, 3);
    SpillLookup(item, 4);
    SpillLookup(item, 16);
  }

  /** The optional strings read back. */
  lemma SpilledOptionalTexts(item: ExpectedPoint)
    ensures var data := ToDict(item);
      && ReadOptionalText(Lookup(data, "embedding_vector_hash")) == Some(item.embeddingVectorHash)
      && ReadOptionalText(Lookup(data, "chunk_id")) == Some(item.chunkId)
      && ReadOptionalText(Lookup(data, "parse_run_id")) == Some(item.parseRunId)
      && ReadOptionalText(Lookup(data, "parser_name")) == Some(item.parserName)
      && ReadOptionalText(Lookup(data, "parser_version")) == Some(item.parserVersion)
      && ReadOptionalText(Lookup(data, "parser_config_hash")) == Some(item.parserConfigHash)
      && ReadOptionalText(Lookup(data, "source_id")) == Some(item.sourceId)
      && ReadOptionalText(Lookup(data, "source_version_id")) == Some(item.sourceVersionId)
      && ReadOptionalText(Lookup(data, "source_status")) == Some(item.sourceStatus)
      && ReadOptionalText(Lookup(data, "tenant_projection")) == Some(item.tenantProjection)
      && ReadOptionalText(Lookup(data, "write_status")) == Some(item.writeStatus)
  {
    hide Lookup, ToDict, ModelJson, ReadModel, ReadStrings, Strings;
    SpillLookup(item, 7);
    SpillLookup(item, 8);
    SpillLookup(item, 9);
    SpillLookup(item, 10);
    SpillLookup(item, 11);
    SpillLookup(item, 12);
    SpillLookup(item, 13);
    SpillLookup(item, 14);
    SpillLookup(item, 15);
    SpillLookup(item, 18);
    SpillLookup(item, 20);
  }

  /** The model, the number, the lists and the projection read back. */
  lemma SpilledRest(item: ExpectedPoint)
    ensures var data := ToDict(item);
      && ReadModel(Lookup(data, "embedding_model")) == Some(item.embeddingModel)
      && ReadInt(Lookup(data, "embedding_dimension")) == Some(item.embeddingDimension)
      && ReadProjection(Lookup(data, "expected_payload_projection")) == Some(Respill(item).expectedPayloadProjection)
      && ReadOptionalList(Lookup(data, "acl_projection")) == Some(item.aclProjection)
      && ReadList(Lookup(data, "pii_assertion_ids")) == Some(item.piiAssertionIds)
      && ReadList(Lookup(data, "license_assertion_ids")) == Some(item.licenseAssertionIds)
  {
    hide Lookup, ToDict, ModelJson, ReadModel, ReadStrings, Strings;
    SpillLookup(item, 5);
    SpillLookup(item, 6);
    SpillLookup(item, 17);
    SpillLookup(item, 19);
    SpillLookup(item, 21);
    SpillLookup(item, 22);
    ModelReads(item.embeddingModel);
    StringsRead(item.piiAssertionIds);
    StringsRead(item.licenseAssertionIds);
    if item.aclProjection.Some? {
      StringsRead(item.aclProjection.value);
    }
  }

  /** Writing an expected point to a run file and reading it back loses nothing but an empty projection. */
  lemma SpillReads(item: ExpectedPoint)
    ensures FromDict(ToDict(item)) == Some(Respill(item))
  {
    hide Lookup, ToDict, ReadText, ReadOptionalText, ReadInt, ReadOptionalList, ReadList, ReadProjection, ReadModel;
    SpilledTexts(item);
    SpilledOptionalTexts(item);
    SpilledRest(item);
  }
}
