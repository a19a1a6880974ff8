/** Stage cache keys: what two equal keys have in common, and when that is everything a stage sees. */
module StageKeys {
  import opened StableSort
  import opened Canonical
  import opened CanonicalOrder
  import opened CanonicalNormal
  import opened JsonDict
  import CanonicalRoundTrip

  /** SHA-256 of the UTF-8 encoding, and Unicode normalization to NFC. */
  datatype Hashing = Hashing(nfc: string -> string, hash: string -> string)

  predicate Ascii(s: string) {
    forall i :: 0 <= i < |s| ==> s[i] as int < 128
  }

  /** The hash has no collisions and hexadecimal output, and ASCII text is in normal form. */
  ghost predicate CollisionFree(h: Hashing) {
    && (forall a, b :: h.hash(a) == h.hash(b) ==> a == b)
    && (forall a :: Ascii(h.hash(a)))
    && (forall s :: Ascii(s) ==> h.nfc(s) == s)
  }

  // ----- objects with fixed member names

  ghost predicate AllRepresentable(values: seq<Json>) {
    forall v :: v in values ==> Representable(v)
  }

  ghost predicate SameNames(nfc: string -> string, a: seq<Entry<Json>>, b: seq<Entry<Json>>) {
    && |a| == |b| && DistinctKeys(a)
    && (forall i :: 0 <= i < |a| ==> a[i].key == b[i].key && nfc(a[i].key) == a[i].key)
    && (forall m :: m in a ==> Representable(m.value)) && (forall m :: m in b ==> Representable(m.value))
  }

  lemma SameSortedEntries(nfc: string -> string, a: seq<Entry<Json>>, b: seq<Entry<Json>>)
    requires SameNames(nfc, a, b) && Denote(nfc, Obj(a)) == Denote(nfc, Obj(b))
    ensures Sort(DenoteEntries(nfc, a), KeyUnits()) == Sort(DenoteEntries(nfc, b), KeyUnits())
  {
    TextObject(nfc, a);
    TextObject(nfc, b);
    EntryKeys(nfc, a);
    EntryKeys(nfc, b);
    hide Denote, DenoteEntries, Sort, Representable, DistinctKeys;
    NormalNamesKept(nfc, Sort(DenoteEntries(nfc, a), KeyUnits()), DenoteEntries(nfc, a));
    NormalNamesKept(nfc, Sort(DenoteEntries(nfc, b), KeyUnits()), DenoteEntries(nfc, b));
  }

  /** Objects with the same distinct names that denote the same have values that denote the same. */
  lemma FieldsIdentified(nfc: string -> string, a: seq<Entry<Json>>, b: seq<Entry<Json>>, i: nat)
    requires SameNames(nfc, a, b) && Denote(nfc, Obj(a)) == Denote(nfc, Obj(b)) && i < |a|
    ensures a[i] in a && b[i] in b && Denote(nfc, a[i].value) == Denote(nfc, b[i].value)
  {
    SameSortedEntries(nfc, a, b);
    EntryKeys(nfc, a);
    EntryKeys(nfc, b);
    var e, f := DenoteEntries(nfc, a), DenoteEntries(nfc, b);
    SortMembers(e, KeyUnits());
    SortMembers(f, KeyUnits());
    hide Denote, DenoteEntries, Sort, Representable;
    assert e[i] in f;
    var j :| 0 <= j < |f| && f[j] == e[i];
    assert a[j].key == a[i].key;
    assert j == i;
  }

  /** Objects of plain names that denote the same have the same names. */
  lemma NamesIdentified(nfc: string -> string, a: seq<Entry<Json>>, b: seq<Entry<Json>>, i: nat)
    requires (forall m :: m in a ==> Representable(m.value) && nfc(m.key) == m.key)
      && (forall m :: m in b ==> Representable(m.value) && nfc(m.key) == m.key)
    requires Denote(nfc, Obj(a)) == Denote(nfc, Obj(b)) && i < |a|
    ensures exists j :: 0 <= j < |b| && b[j].key == a[i].key
  {
    TextObject(nfc, a);
    TextObject(nfc, b);
    EntryKeys(nfc, a);
    EntryKeys(nfc, b);
    var e, f := DenoteEntries(nfc, a), DenoteEntries(nfc, b);
    SortMembers(e, KeyUnits());
    SortMembers(f, KeyUnits());
    hide Denote, DenoteEntries, Sort, Representable;
    forall k | 0 <= k < |a| ensures nfc(e[k].key) == e[k].key { assert a[k] in a; }
    forall k | 0 <= k < |b| ensures nfc(f[k].key) == f[k].key { assert b[k] in b; }
    NormalNamesKept(nfc, Sort(e, KeyUnits()), e);
    NormalNamesKept(nfc, Sort(f, KeyUnits()), f);
    assert e[i] in f;
    var j :| 0 <= j < |f| && f[j] == e[i];
    assert b[j].key == a[i].key;
  }

  // ----- keys

  datatype Adapter = Adapter(name: string, version: string)

  function HashCanonical(h: Hashing, v: Json): string
    requires Representable(v)
  {
    h.hash(Text(h.nfc, v))
  }

  /** Distinct ASCII names. */
  ghost predicate PlainNames(names: seq<string>) {
    Distinct(names) && forall i :: 0 <= i < |names| ==> Ascii(names[i])
  }

  const KEY_NAMES := ["stage", "input_hash", "adapter_name", "adapter_version", "config_hash"]

  lemma KeyNamesPlain()
    ensures PlainNames(KEY_NAMES)
  {
    var k := KEY_NAMES;
    assert |k[0]| == 5 && |k[1]| == 10 && |k[2]| == 12 && |k[3]| == 15 && |k[4]| == 11;
  }

  /** `stage_cache_key` */
  function StageCacheKey(h: Hashing, stage: string, inputHash: string, adapter: Adapter, configHash: string): string {
    HashCanonical(h,
      Obj(Fields(KEY_NAMES, [Str(stage), Str(inputHash), Str(adapter.name), Str(adapter.version), Str(configHash)])))
  }

  /** Adapter names and versions in normal form. */
  ghost predicate NormalAdapter(h: Hashing, a: Adapter) {
    h.nfc(a.name) == a.name && h.nfc(a.version) == a.version
  }

  /** Equal hashes of canonical text: the documents denote the same. */
  lemma HashIdentifies(h: Hashing, v: Json, w: Json)
    requires CollisionFree(h) && Representable(v) && Representable(w) && HashCanonical(h, v) == HashCanonical(h, w)
    ensures Denote(h.nfc, v) == Denote(h.nfc, w)
  {
    hide Text, Denote, Representable;
    CanonicalRoundTrip.TextIdentifies(h.nfc, v, w);
  }

  lemma FieldsRepresentable(names: seq<string>, values: seq<Json>)
    requires |names| == |values| && AllRepresentable(values)
    ensures Representable(Obj(Fields(names, values)))
  {
    var fields := Fields(names, values);
    forall m | m in fields ensures Representable(m.value) {
      var i :| 0 <= i < |fields| && fields[i] == m;
      assert values[i] in values;
    }
  }

  /** Equal hashes of dicts with the same names: each pair of values denotes the same. */
  lemma HashedFields(h: Hashing, names: seq<string>, v: seq<Json>, w: seq<Json>, i: nat)
    requires CollisionFree(h) && PlainNames(names) && |names| == |v| == |w| && AllRepresentable(v)
      && AllRepresentable(w)
    requires Representable(Obj(Fields(names, v))) && Representable(Obj(Fields(names, w)))
    requires HashCanonical(h, Obj(Fields(names, v))) == HashCanonical(h, Obj(Fields(names, w)))
    requires i < |names|
    ensures v[i] in v && w[i] in w && Denote(h.nfc, v[i]) == Denote(h.nfc, w[i])
  {
    var a, b := Fields(names, v), Fields(names, w);
    HashIdentifies(h, Obj(a), Obj(b));
    assert SameNames(h.nfc, a, b);
    hide Denote, HashCanonical, SameNames;
    FieldsIdentified(h.nfc, a, b, i);
  }

  lemma HashedStrings(h: Hashing, names: seq<string>, v: seq<Json>, w: seq<Json>, i: nat)
    requires CollisionFree(h) && PlainNames(names) && |names| == |v| == |w| && AllRepresentable(v)
      && AllRepresentable(w)
    requires Representable(Obj(Fields(names, v))) && Representable(Obj(Fields(names, w)))
    requires HashCanonical(h, Obj(Fields(names, v))) == HashCanonical(h, Obj(Fields(names, w)))
    requires i < |names| && v[i].Str? && w[i].Str? && h.nfc(v[i].s) == v[i].s && h.nfc(w[i].s) == w[i].s
    ensures v[i].s == w[i].s
  {
    HashedFields(h, names, v, w, i);
    hide HashCanonical, CollisionFree, PlainNames;
  }

  /** Equal stage keys have equal parts. */
  lemma KeyIdentifies(h: Hashing, s1: string, i1: string, a1: Adapter, c1: string, s2: string, i2: string, a2: Adapter,
                      c2: string)
    requires CollisionFree(h) && Ascii(s1) && Ascii(s2) && Ascii(i1) && Ascii(i2) && Ascii(c1) && Ascii(c2)
    requires NormalAdapter(h, a1) && NormalAdapter(h, a2)
    requires StageCacheKey(h, s1, i1, a1, c1) == StageCacheKey(h, s2, i2, a2, c2)
    ensures s1 == s2 && i1 == i2 && a1 == a2 && c1 == c2
  {
    hide HashCanonical, PlainNames, Ascii;
    KeyNamesPlain();
    var v := [Str(s1), Str(i1), Str(a1.name), Str(a1.version), Str(c1)];
    var w := [Str(s2), Str(i2), Str(a2.name), Str(a2.version), Str(c2)];
    assert NormalStrings(h, v) && NormalStrings(h, w);
    HashedLists(h, KEY_NAMES, v, w);
    assert v[0] == w[0] && v[1] == w[1] && v[2] == w[2] && v[3] == w[3] && v[4] == w[4];
  }

  /** Strings in normal form. */
  ghost predicate NormalStrings(h: Hashing, v: seq<Json>) {
    forall i :: 0 <= i < |v| ==> v[i].Str? && h.nfc(v[i].s) == v[i].s
  }

  lemma StringsRepresentable(h: Hashing, names: seq<string>, v: seq<Json>)
    requires NormalStrings(h, v) && |names| == |v|
    ensures AllRepresentable(v) && Representable(Obj(Fields(names, v)))
  {
    assert AllRepresentable(v);
    FieldsRepresentable(names, v);
  }

  lemma HashedLists(h: Hashing, names: seq<string>, v: seq<Json>, w: seq<Json>)
    requires CollisionFree(h) && PlainNames(names) && |names| == |v| == |w| && NormalStrings(h, v)
      && NormalStrings(h, w)
    requires Representable(Obj(Fields(names, v))) && Representable(Obj(Fields(names, w)))
    requires HashCanonical(h, Obj(Fields(names, v))) == HashCanonical(h, Obj(Fields(names, w)))
    ensures v == w
  {
    StringsRepresentable(h, names, v);
    StringsRepresentable(h, names, w);
    hide HashCanonical, CollisionFree, PlainNames, Representable, AllRepresentable;
    forall i | 0 <= i < |v| ensures v[i] == w[i] {
      HashedStrings(h, names, v, w, i);
    }
  }

  // ----- configuration hashes

  const PARSER_NAMES := ["parser", "version", "config"]
  const CHUNKER_NAMES := ["chunker", "version", "config"]

  /** The configuration hash of a parser or chunker. */
  function ConfigHash(h: Hashing, names: seq<string>, adapter: Adapter, config: Json): string
    requires |names| == 3 && Representable(config)
  {
    FieldsRepresentable(names, [Str(adapter.name), Str(adapter.version), config]);
    HashCanonical(h, Obj(Fields(names, [Str(adapter.name), Str(adapter.version), config])))
  }

  lemma ConfigNamesPlain()
    ensures PlainNames(PARSER_NAMES) && PlainNames(CHUNKER_NAMES)
  {
    assert "parser"[0] == 'p' && "config"[0] == 'c';
    assert |"chunker"| == |"version"| && "chunker"[0] == 'c' && "version"[0] == 'v';
  }

  lemma ConfigIdentifies(h: Hashing, names: seq<string>, a: Adapter, c: Json, b: Adapter, d: Json)
    requires CollisionFree(h) && Representable(c) && Representable(d) && |names| == 3 && PlainNames(names)
    requires ConfigHash(h, names, a, c) == ConfigHash(h, names, b, d)
    ensures Denote(h.nfc, c) == Denote(h.nfc, d)
    ensures h.nfc(a.name) == h.nfc(b.name) && h.nfc(a.version) == h.nfc(b.version)
  {
    var v, w := [Str(a.name), Str(a.version), c], [Str(b.name), Str(b.version), d];
    FieldsRepresentable(names, v);
    FieldsRepresentable(names, w);
    hide HashCanonical, PlainNames, Ascii, Denote, CollisionFree, Representable, AllRepresentable;
    HashedFields(h, names, v, w, 0);
    HashedFields(h, names, v, w, 1);
    HashedFields(h, names, v, w, 2);
    SameStrings(h.nfc, a.name, b.name);
    SameStrings(h.nfc, a.version, b.version);
  }

  lemma SameStrings(nfc: string -> string, s: string, t: string)
    requires Denote(nfc, Str(s)) == Denote(nfc, Str(t))
    ensures nfc(s) == nfc(t)
  {
  }

  // ----- text hashes

  /** Line endings folded to a line feed. */
  function FoldLineEndings(s: string): string {
    if s == "" then ""
    else if s[0] != '\r' then [s[0]] + FoldLineEndings(s[1..])
    else if |s| > 1 && s[1] == '\n' then FoldLineEndings(s[1..])
    else "\n" + FoldLineEndings(s[1..])
  }

  /** `hash_text` */
  function HashText(h: Hashing, text: string): string {
    h.hash(FoldLineEndings(h.nfc(text)))
  }

  /** Text that normalization leaves as it is. */
  ghost predicate NormalText(h: Hashing, text: string) {
    h.nfc(text) == text && '\r' !in text
  }

  lemma {:induction false} FoldKeeps(s: string)
    ensures FoldLineEndings(s) == s <==> '\r' !in s
    ensures '\r' !in FoldLineEndings(s)
  {
    if s != "" {
      FoldKeeps(s[1..]);
      assert s == [s[0]] + s[1..];
    }
  }

  /** A carriage return, with the line feed after it if there is one, becomes one line feed; nothing else changes. */
  lemma FoldEndings(s: string, c: char)
    ensures FoldLineEndings("\r\n" + s) == "\n" + FoldLineEndings(s)
    ensures s == "" || s[0] != '\n' ==> FoldLineEndings("\r" + s) == "\n" + FoldLineEndings(s)
    ensures c != '\r' ==> FoldLineEndings([c] + s) == [c] + FoldLineEndings(s)
  {
    assert ("\r\n" + s)[1..] == "\n" + s && ("\n" + s)[1..] == s;
    assert ("\r" + s)[1..] == s && ([c] + s)[1..] == s;
  }

  lemma TextHashIdentifies(h: Hashing, s: string, t: string)
    requires CollisionFree(h) && NormalText(h, s) && NormalText(h, t) && HashText(h, s) == HashText(h, t)
    ensures s == t
  {
    FoldKeeps(s);
    FoldKeeps(t);
  }
}
