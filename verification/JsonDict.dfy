/** Dicts with fixed member names: dumping values under the names and looking them up again. */
module JsonDict {
  import opened Ordering
  import opened Canonical

  ghost predicate Distinct(names: seq<string>) {
    forall i, j :: 0 <= i < j < |names| ==> names[i] != names[j]
  }

  /** A dict with the given member names and values. */
  function Fields(names: seq<string>, values: seq<Json>): (r: seq<Entry<Json>>)
    requires |names| == |values|
    ensures |r| == |names| && forall i :: 0 <= i < |r| ==> r[i] == Entry(names[i], values[i])
  {
    seq(|names|, i requires 0 <= i < |names| => Entry(names[i], values[i]))
  }

  /** `data.get(name)`, of a dict whose names are distinct. */
  function Lookup(members: seq<Entry<Json>>, name: string): Option<Json> {
    if members == [] then None
    else if members[0].key == name then Some(members[0].value)
    else Lookup(members[1..], name)
  }

  /** A dump that leaves out what is absent. */
  function Present(names: seq<string>, values: seq<Option<Json>>): seq<Entry<Json>>
    requires |names| == |values|
  {
    if names == [] then []
    else (if values[0].Some? then [Entry(names[0], values[0].value)] else []) + Present(names[1..], values[1..])
  }

  lemma {:induction false} LookupOther(names: seq<string>, values: seq<Option<Json>>, name: string)
    requires |names| == |values| && forall i :: 0 <= i < |names| ==> names[i] != name
    ensures Lookup(Present(names, values), name) == None
  {
    if names != [] {
      var rest := Present(names[1..], values[1..]);
      LookupOther(names[1..], values[1..], name);
      assert [] + rest == rest;
      assert values[0].Some? ==> ([Entry(names[0], values[0].value)] + rest)[1..] == rest;
    }
  }

  /** Looking a name up gives back what was dumped under it, present or absent. */
  lemma {:induction false} LookupPresent(names: seq<string>, values: seq<Option<Json>>, i: nat)
    requires |names| == |values| && Distinct(names) && i < |names|
    ensures Lookup(Present(names, values), names[i]) == values[i]
  {
    var rest := Present(names[1..], values[1..]);
    assert [] + rest == rest;
    assert values[0].Some? ==> ([Entry(names[0], values[0].value)] + rest)[1..] == rest;
    if i == 0 {
      LookupOther(names[1..], values[1..], names[0]);
    } else {
      assert names[0] != names[i];
      LookupPresent(names[1..], values[1..], i - 1);
    }
  }

  lemma {:induction false} LookupFields(names: seq<string>, values: seq<Json>, i: nat)
    requires |names| == |values| && Distinct(names) && i < |names|
    ensures Lookup(Fields(names, values), names[i]) == Some(values[i])
  {
    assert Fields(names, values)[1..] == Fields(names[1..], values[1..]);
    if i > 0 {
      assert names[0] != names[i];
      LookupFields(names[1..], values[1..], i - 1);
    }
  }

  // ----- values

  function Strings(items: seq<string>): (r: seq<Json>)
    ensures |r| == |items| && forall i :: 0 <= i < |r| ==> r[i] == Str(items[i])
  {
    seq(|items|, i requires 0 <= i < |items| => Str(items[i]))
  }

  /** The strings of a list of strings; nothing where validation raises. */
  function ReadStrings(v: Json): Option<seq<string>> {
    if v.Arr? && forall x :: x in v.items ==> x.Str? then
      Some(seq(|v.items|, i requires 0 <= i < |v.items| => (assert v.items[i] in v.items; v.items[i].s)))
    else None
  }

  lemma StringsRead(items: seq<string>)
    ensures ReadStrings(Arr(Strings(items))) == Some(items)
  {
    assert ReadStrings(Arr(Strings(items))).value == items;
  }
}
