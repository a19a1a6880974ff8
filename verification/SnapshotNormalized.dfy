/** Points that a snapshot changes: those of a single id string, which comes back normalized. */
module SnapshotNormalized {
  import opened Ordering
  import opened StableSort
  import opened Canonical
  import opened CanonicalNormal
  import opened Snapshot
  import opened SnapshotProofs

  /** The dump of a point that is its id. */
  function IdJson(id: string): Json {
    Obj([Entry("point_id", Str(id))])
  }

  function ValidateId(c: Canon): Option<string> {
    if c.CObj? && |c.members| == 1 && c.members[0].key == "point_id" && c.members[0].value.CStr?
      then Some(c.members[0].value.s) else None
  }

  /** A format of such points. */
  ghost predicate OfIds<H>(fmt: Format<H, string>) {
    && (forall id :: fmt.pointJson(id) == IdJson(id))
    && (forall line :: fmt.readPoint(line) == ReadThrough(ValidateId, line))
    && fmt.nfc("point_id") == "point_id"
  }

  lemma IdDenotes(nfc: string -> string, id: string)
    requires nfc("point_id") == "point_id"
    ensures Representable(IdJson(id)) && Denote(nfc, IdJson(id)) == CObj([Entry("point_id", CStr(nfc(id)))])
  {
    var members := [Entry("point_id", Str(id))];
    TextObject(nfc, members);
    OneEntry(nfc, members[0]);
    hide Sort, DenoteEntries, Denote, Map, KeyUnits;
    SortOne(Entry("point_id", CStr(nfc(id))));
    NameOne(nfc, Entry("point_id", CStr(nfc(id))));
  }

  lemma OneEntry(nfc: string -> string, m: Entry<Json>)
    requires Representable(m.value)
    ensures DenoteEntries(nfc, [m]) == [Entry(m.key, Denote(nfc, m.value))]
  {
    hide Denote;
    assert [m][1..] == [] && DenoteEntries(nfc, []) == [];
  }

  lemma SortOne(e: Entry<Canon>)
    ensures Sort([e], KeyUnits()) == [e]
  {
    assert [e][1..] == [] && Sort([], KeyUnits<Canon>()) == [];
  }

  lemma NameOne(nfc: string -> string, e: Entry<Canon>)
    requires nfc(e.key) == e.key
    ensures Map(Normalized(nfc), [e]) == [e]
  {
  }

  lemma IdsValidate<H>(fmt: Format<H, string>)
    requires OfIds(fmt)
    ensures Validates(fmt, ValidateId)
  {
    forall id ensures ValidateId(Content(fmt.pointJson(id))) == Some(id) {
      IdDenotes(Unchanged, id);
    }
    forall id ensures DumpsTo(fmt, ValidateId(Denote(fmt.nfc, fmt.pointJson(id))), Denote(fmt.nfc, fmt.pointJson(id))) {
      IdDenotes(fmt.nfc, id);
      IdDenotes(Unchanged, fmt.nfc(id));
    }
  }

  /** Every id comes back normalized. */
  lemma IdRereads<H>(fmt: Format<H, string>, id: string)
    requires OfIds(fmt)
    ensures Representable(fmt.pointJson(id)) && Reread(fmt, id) == Some(fmt.nfc(id))
  {
    IdsValidate(fmt);
    IdDenotes(fmt.nfc, id);
    RereadValidates(fmt, ValidateId, id);
  }

  lemma {:induction false} IdsReplay<H>(fmt: Format<H, string>, ids: seq<string>)
    requires OfIds(fmt)
    ensures Writable(fmt, ids) && Replay(fmt, ids, None) == (Map(fmt.nfc, ids), None)
  {
    forall i | 0 <= i < |ids| ensures Representable(fmt.pointJson(ids[i])) {
      IdRereads(fmt, ids[i]);
    }
    hide Reread, OfIds, Representable;
    if ids != [] {
      IdRereads(fmt, ids[0]);
      IdsReplay(fmt, ids[1..]);
      MapCons(fmt.nfc, ids[0], ids[1..]);
      assert [ids[0]] + ids[1..] == ids;
    }
  }

  /** A written snapshot of ids yields the normalized ids, and is accepted. */
  lemma IdsComeBackNormalized<H>(fmt: Format<H, string>, header: H, ids: seq<string>, finishedAt: string,
                                 consistency: Option<Consistency>)
    requires OfIds(fmt) && Writable(fmt, ids) && Framed(fmt, header, TrailerOf(fmt, ids, finishedAt, consistency))
    ensures var t := TrailerOf(fmt, ids, finishedAt, consistency);
      ReadFile(fmt, Written(fmt, header, ids, t), false) == Pass(Map(fmt.nfc, ids), Success(t))
  {
    IdsReplay(fmt, ids);
    hide OfIds, Replay, Reread, Representable, Framed, ReadFile, Written, TrailerOf, TrailerJson;
    RoundTrip(fmt, header, ids, finishedAt, consistency, false);
  }

  /** The Angstrom sign comes back as the letter it normalizes to. */
  lemma AngstromChanges<H>(fmt: Format<H, string>, header: H, finishedAt: string, consistency: Option<Consistency>)
    requires OfIds(fmt) && fmt.nfc("\U{212B}") == "\U{C5}"
    requires Writable(fmt, ["\U{212B}"]) && Framed(fmt, header, TrailerOf(fmt, ["\U{212B}"], finishedAt, consistency))
    ensures var t := TrailerOf(fmt, ["\U{212B}"], finishedAt, consistency);
      ReadFile(fmt, Written(fmt, header, ["\U{212B}"], t), false).yielded == ["\U{C5}"] != ["\U{212B}"]
  {
    hide OfIds, Framed, ReadFile, Written, TrailerOf, Writable;
    IdsComeBackNormalized(fmt, header, ["\U{212B}"], finishedAt, consistency);
    assert Map(fmt.nfc, ["\U{212B}"]) == ["\U{C5}"];
    assert "\U{C5}"[0] != "\U{212B}"[0];
  }

  /** Two different points, the sign and the letter, that a reader checking for duplicates refuses. */
  lemma AngstromCollides<H>(fmt: Format<H, string>, header: H, finishedAt: string, consistency: Option<Consistency>)
    requires OfIds(fmt) && fmt.nfc("\U{212B}") == "\U{C5}" == fmt.nfc("\U{C5}")
    requires Writable(fmt, ["\U{212B}", "\U{C5}"])
    requires Framed(fmt, header, TrailerOf(fmt, ["\U{212B}", "\U{C5}"], finishedAt, consistency))
    ensures var ids := ["\U{212B}", "\U{C5}"];
      ReadFile(fmt, Written(fmt, header, ids, TrailerOf(fmt, ids, finishedAt, consistency)), true).result ==
        Failure(DuplicatePoint)
  {
    var ids := ["\U{212B}", "\U{C5}"];
    IdRereads(fmt, ids[0]);
    IdRereads(fmt, ids[1]);
    hide Reread, Representable, Framed, ReadFile, Written, TrailerOf, TrailerJson;
    RoundTrip(fmt, header, ids, finishedAt, consistency, true);
    assert ids[1..] == [ids[1]];
    assert IsDuplicate(fmt, Seen(fmt, Some({}), "\U{C5}"), "\U{C5}");
    assert Replay(fmt, [ids[1]], Seen(fmt, Some({}), "\U{C5}")) == ([], Some(DuplicatePoint));
    assert Replay(fmt, ids, Some({})).1 == Some(DuplicatePoint);
  }
}
