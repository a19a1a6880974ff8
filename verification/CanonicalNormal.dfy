/** Documents in normal form: exactly those whose denoted document is their own content. */
module CanonicalNormal {
  import opened StableSort
  import opened Canonical
  import opened CanonicalOrder

  function Unchanged(s: string): string {
    s
  }

  /** What a document holds, before any normalization. */
  function Content(v: Json): Canon
    requires Representable(v)
  {
    Denote(Unchanged, v)
  }

  /** Every string and every member name is in normal form. */
  ghost predicate NormalForm(nfc: string -> string, v: Json) {
    match v
    case Str(s) => nfc(s) == s
    case Arr(items) => forall x :: x in items ==> NormalForm(nfc, x)
    case Obj(members) => forall m :: m in members ==> nfc(m.key) == m.key && NormalForm(nfc, m.value)
    case _ => true
  }

  // ----- documents in normal form

  lemma {:induction false} DenoteNormal(nfc: string -> string, v: Json)
    requires Representable(v) && NormalForm(nfc, v)
    ensures Denote(nfc, v) == Content(v)
    decreases v, 1
  {
    match v
    case Arr(items) => DenoteNormalItems(nfc, items);
    case Obj(members) =>
      DenoteNormalEntries(nfc, members);
      TextObject(nfc, members);
      TextObject(Unchanged, members);
      EntryKeys(nfc, members);
      hide Denote, DenoteEntries;
      NormalNamesKept(nfc, Sort(DenoteEntries(nfc, members), KeyUnits()), DenoteEntries(nfc, members));
    case _ =>
  }

  lemma {:induction false} DenoteNormalItems(nfc: string -> string, items: seq<Json>)
    requires forall x :: x in items ==> Representable(x) && NormalForm(nfc, x)
    ensures DenoteItems(nfc, items) == DenoteItems(Unchanged, items)
    decreases items, 0
  {
    if items != [] {
      DenoteNormal(nfc, items[0]);
      DenoteNormalItems(nfc, items[1..]);
    }
  }

  lemma {:induction false} DenoteNormalEntries(nfc: string -> string, members: seq<Entry<Json>>)
    requires forall m :: m in members ==> Representable(m.value) && NormalForm(nfc, m.value)
    ensures DenoteEntries(nfc, members) == DenoteEntries(Unchanged, members)
    decreases members, 0
  {
    if members != [] {
      DenoteNormal(nfc, members[0].value);
      DenoteNormalEntries(nfc, members[1..]);
    }
  }

  lemma NormalNamesKept(nfc: string -> string, sorted: seq<Entry<Canon>>, entries: seq<Entry<Canon>>)
    requires sorted == Sort(entries, KeyUnits())
    requires forall i :: 0 <= i < |entries| ==> nfc(entries[i].key) == entries[i].key
    ensures Map(Normalized(nfc), sorted) == sorted && Map(Normalized(Unchanged), sorted) == sorted
  {
    SortMembers(entries, KeyUnits());
    hide Sort;
    assert forall e :: e in entries ==> nfc(e.key) == e.key;
    forall i | 0 <= i < |sorted| ensures nfc(sorted[i].key) == sorted[i].key {
      assert sorted[i] in sorted;
    }
    MapKept(nfc, sorted);
    MapKept(Unchanged, sorted);
  }

  lemma MapKept(nfc: string -> string, entries: seq<Entry<Canon>>)
    requires forall i :: 0 <= i < |entries| ==> nfc(entries[i].key) == entries[i].key
    ensures Map(Normalized(nfc), entries) == entries
  {
  }

  // ----- and no others

  /** The members with what their values denote and what they hold. */
  function Both(nfc: string -> string, members: seq<Entry<Json>>): (r: seq<Entry<(Canon, Canon)>>)
    requires forall m :: m in members ==> Representable(m.value)
    ensures |r| == |members|
    ensures forall i :: 0 <= i < |r| ==>
      members[i] in members && r[i] == Entry(members[i].key, (Denote(nfc, members[i].value), Content(members[i].value)))
  {
    seq(|members|, i requires 0 <= i < |members| =>
      (assert members[i] in members; Entry(members[i].key, (Denote(nfc, members[i].value), Content(members[i].value)))))
  }

  function Denoted(e: Entry<(Canon, Canon)>): Entry<Canon> {
    Entry(e.key, e.value.0)
  }

  function Held(e: Entry<(Canon, Canon)>): Entry<Canon> {
    Entry(e.key, e.value.1)
  }

  lemma BothSorted(nfc: string -> string, members: seq<Entry<Json>>)
    requires forall m :: m in members ==> Representable(m.value)
    ensures Sort(DenoteEntries(nfc, members), KeyUnits()) == Map(Denoted, Sort(Both(nfc, members), KeyUnits()))
    ensures Sort(DenoteEntries(Unchanged, members), KeyUnits()) == Map(Held, Sort(Both(nfc, members), KeyUnits()))
  {
    EntryKeys(nfc, members);
    EntryKeys(Unchanged, members);
    hide Denote, Content, Sort, Representable;
    assert DenoteEntries(nfc, members) == Map(Denoted, Both(nfc, members));
    assert DenoteEntries(Unchanged, members) == Map(Held, Both(nfc, members)) by {
      ContentIs(members);
    }
    SortMap(Denoted, Both(nfc, members), KeyUnits(), KeyUnits());
    SortMap(Held, Both(nfc, members), KeyUnits(), KeyUnits());
  }

  lemma ContentIs(members: seq<Entry<Json>>)
    requires forall m :: m in members ==> Representable(m.value)
    ensures forall i :: 0 <= i < |members| ==>
      members[i] in members && Content(members[i].value) == Denote(Unchanged, members[i].value)
  {
    hide Denote;
  }

  /** If an object denotes its own content, so do all its members. */
  lemma MembersAgree(nfc: string -> string, members: seq<Entry<Json>>, i: nat)
    requires Representable(Obj(members)) && Denote(nfc, Obj(members)) == Content(Obj(members)) && i < |members|
    ensures members[i] in members && nfc(members[i].key) == members[i].key
    ensures Denote(nfc, members[i].value) == Content(members[i].value)
  {
    var both := Both(nfc, members);
    var sorted := Sort(both, KeyUnits());
    TextObject(nfc, members);
    TextObject(Unchanged, members);
    BothSorted(nfc, members);
    SortMembers(both, KeyUnits());
    hide Denote, DenoteEntries, Sort, Representable, Content, Both, Map;
    assert both[i] in sorted;
    var j :| 0 <= j < |sorted| && sorted[j] == both[i];
    SortedAgree(nfc, sorted, j);
  }

  lemma SortedAgree(nfc: string -> string, sorted: seq<Entry<(Canon, Canon)>>, j: nat)
    requires Map(Normalized(nfc), Map(Denoted, sorted)) == Map(Normalized(Unchanged), Map(Held, sorted)) && j < |sorted|
    ensures nfc(sorted[j].key) == sorted[j].key && sorted[j].value.0 == sorted[j].value.1
  {
    assert Map(Normalized(nfc), Map(Denoted, sorted))[j] == Map(Normalized(Unchanged), Map(Held, sorted))[j];
  }

  /** A document denotes its own content exactly when every string and every name in it is in normal form. */
  lemma {:induction false} NormalIffOwnContent(nfc: string -> string, v: Json)
    requires Representable(v)
    ensures Denote(nfc, v) == Content(v) <==> NormalForm(nfc, v)
    decreases v
  {
    if NormalForm(nfc, v) {
      DenoteNormal(nfc, v);
    } else {
      match v
      case Arr(items) =>
        var x :| x in items && !NormalForm(nfc, x);
        var i :| 0 <= i < |items| && items[i] == x;
        NormalIffOwnContent(nfc, x);
        ItemsAt(nfc, items, i);
        ItemsAt(Unchanged, items, i);
      case Obj(members) =>
        if Denote(nfc, v) == Content(v) {
          var m :| m in members && !(nfc(m.key) == m.key && NormalForm(nfc, m.value));
          var i :| 0 <= i < |members| && members[i] == m;
          MembersAgree(nfc, members, i);
          NormalIffOwnContent(nfc, m.value);
        }
      case _ =>
    }
  }

  lemma {:induction false} ItemsAt(nfc: string -> string, items: seq<Json>, i: nat)
    requires (forall x :: x in items ==> Representable(x)) && i < |items|
    ensures items[i] in items && DenoteItems(nfc, items)[i] == Denote(nfc, items[i])
  {
    hide Denote, Representable;
    if i > 0 {
      ItemsAt(nfc, items[1..], i - 1);
    }
  }
}
