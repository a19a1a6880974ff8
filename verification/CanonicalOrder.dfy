/** Member order: what the encoder's sort guarantees, and when normalization keeps it. */
module CanonicalOrder {
  import opened Ordering
  import opened StableSort
  import opened Utf16
  import opened Canonical

  ghost predicate DistinctKeys<T>(members: seq<Entry<T>>) {
    forall i, j :: 0 <= i < j < |members| ==> members[i].key != members[j].key
  }

  /** Names in strictly ascending UTF-16 code unit order. */
  ghost predicate Ascending<T>(members: seq<Entry<T>>) {
    forall i, j :: 0 <= i < j < |members| ==> LexLt(Units(members[i].key), Units(members[j].key))
  }

  // ----- insertion order does not matter

  lemma {:induction false} GroupAtMostOne<T>(members: seq<Entry<T>>, k: Rank)
    requires DistinctKeys(members)
    ensures |Group(members, KeyUnits(), k)| <= 1
  {
    if members != [] {
      GroupAtMostOne(members[1..], k);
      if Units(members[0].key) == k {
        forall m | m in members[1..] ensures Units(m.key) != k {
          var i :| 1 <= i < |members| && members[i] == m;
          if Units(m.key) == k { UnitsInjective(m.key, members[0].key); }
        }
        GroupNone(members[1..], KeyUnits(), k);
      }
    }
  }

  lemma GroupWithin<T>(a: seq<Entry<T>>, b: seq<Entry<T>>, k: Rank)
    requires DistinctKeys(b) && (forall m :: m in a ==> m in b) && |Group(a, KeyUnits(), k)| == 1
    ensures Group(a, KeyUnits(), k) == Group(b, KeyUnits(), k)
  {
    var g := Group(a, KeyUnits(), k);
    GroupMember(a, KeyUnits(), k, g[0]);
    GroupMember(b, KeyUnits(), k, g[0]);
    GroupAtMostOne(b, k);
  }

  lemma SameMembersSameGroups<T>(a: seq<Entry<T>>, b: seq<Entry<T>>, k: Rank)
    requires DistinctKeys(a) && DistinctKeys(b) && (forall m :: m in a <==> m in b)
    ensures Group(a, KeyUnits(), k) == Group(b, KeyUnits(), k)
  {
    GroupAtMostOne(a, k);
    GroupAtMostOne(b, k);
    hide Group, DistinctKeys;
    if |Group(a, KeyUnits(), k)| == 1 {
      GroupWithin(a, b, k);
    } else if |Group(b, KeyUnits(), k)| == 1 {
      GroupWithin(b, a, k);
    }
  }

  lemma SortIgnoresOrder<T(!new)>(a: seq<Entry<T>>, b: seq<Entry<T>>)
    requires DistinctKeys(a) && DistinctKeys(b) && (forall m :: m in a <==> m in b)
    ensures Sort(a, KeyUnits()) == Sort(b, KeyUnits())
  {
    forall k: Rank ensures Group(Sort(a, KeyUnits()), KeyUnits(), k) == Group(b, KeyUnits(), k) {
      SortGroup(a, KeyUnits(), k);
      SameMembersSameGroups(a, b, k);
    }
    SortSorted(a, KeyUnits());
    SortCharacterized(b, Sort(a, KeyUnits()), KeyUnits());
  }

  /** A member's encoding, for members the encoder accepts. */
  function TextEntry(nfc: string -> string): Entry<Json> -> Entry<string> {
    (m: Entry<Json>) => Entry(m.key, if Representable(m.value) then Text(nfc, m.value) else "")
  }

  lemma {:induction false} TextEntriesMap(nfc: string -> string, members: seq<Entry<Json>>)
    requires forall m :: m in members ==> Representable(m.value)
    ensures TextEntries(nfc, members) == Map(TextEntry(nfc), members)
  {
    hide Text, Representable;
    if members != [] {
      TextEntriesMap(nfc, members[1..]);
      assert members[0] in members;
      assert Map(TextEntry(nfc), members) == [TextEntry(nfc)(members[0])] + Map(TextEntry(nfc), members[1..]);
    }
  }

  lemma SortedTextEntries(nfc: string -> string, members: seq<Entry<Json>>)
    requires forall m :: m in members ==> Representable(m.value)
    ensures Sort(TextEntries(nfc, members), KeyUnits()) == Map(TextEntry(nfc), Sort(members, KeyUnits()))
  {
    hide Text, Representable;
    TextEntriesMap(nfc, members);
    SortMap(TextEntry(nfc), members, KeyUnits(), KeyUnits());
  }

  /** Two dicts with the same members have the same canonical text, whatever their insertion order. */
  lemma InsertionOrderIrrelevant(nfc: string -> string, a: seq<Entry<Json>>, b: seq<Entry<Json>>)
    requires DistinctKeys(a) && DistinctKeys(b) && (forall m :: m in a <==> m in b)
    requires Representable(Obj(a)) && Representable(Obj(b))
    ensures Text(nfc, Obj(a)) == Text(nfc, Obj(b))
  {
    SortedTextEntries(nfc, a);
    SortedTextEntries(nfc, b);
    SortIgnoresOrder(a, b);
  }

  // ----- the order of the names

  lemma SortedAscending<T>(members: seq<Entry<T>>)
    requires DistinctKeys(members)
    ensures Ascending(Sort(members, KeyUnits()))
  {
    var sorted := Sort(members, KeyUnits());
    SortSorted(members, KeyUnits());
    forall i, j | 0 <= i < j < |sorted| ensures LexLt(Units(sorted[i].key), Units(sorted[j].key)) {
      assert LexLe(KeyUnits<T>()(sorted[i]), KeyUnits<T>()(sorted[j]));
      if Units(sorted[i].key) == Units(sorted[j].key) {
        DistinctAfterSort(members, i, j);
      }
    }
  }

  lemma DistinctAfterSort<T>(members: seq<Entry<T>>, i: nat, j: nat)
    requires DistinctKeys(members) && i < j < |Sort(members, KeyUnits())|
    ensures Units(Sort(members, KeyUnits())[i].key) != Units(Sort(members, KeyUnits())[j].key)
  {
    var sorted := Sort(members, KeyUnits());
    var k := Units(sorted[i].key);
    SortGroup(members, KeyUnits(), k);
    GroupAtMostOne(members, k);
    if Units(sorted[j].key) == k {
      TwoInGroup(sorted, k, i, j);
      assert false;
    }
  }

  lemma TwoInGroup<T>(s: seq<Entry<T>>, k: Rank, i: nat, j: nat)
    requires i < j < |s| && Units(s[i].key) == k && Units(s[j].key) == k
    ensures |Group(s, KeyUnits(), k)| >= 2
  {
    assert s == s[..i + 1] + s[i + 1..];
    GroupConcat(s[..i + 1], s[i + 1..], KeyUnits(), k);
    GroupMember(s[..i + 1], KeyUnits(), k, s[i]);
    GroupMember(s[i + 1..], KeyUnits(), k, s[j]);
    assert s[i + 1..][j - i - 1] == s[j];
  }

  lemma {:induction false} EntryKeys(nfc: string -> string, members: seq<Entry<Json>>)
    requires forall m :: m in members ==> Representable(m.value)
    ensures forall i :: 0 <= i < |members| ==>
      DenoteEntries(nfc, members)[i] == Entry(members[i].key, Denote(nfc, members[i].value))
  {
    hide Denote, Representable;
    if members != [] {
      EntryKeys(nfc, members[1..]);
    }
  }

  /** Normalization keeps the raw order of these keys. */
  ghost predicate NormalizesInOrder<T>(nfc: string -> string, members: seq<Entry<T>>) {
    forall i, j :: 0 <= i < |members| && 0 <= j < |members| && LexLt(Units(members[i].key), Units(members[j].key)) ==>
      LexLt(Units(nfc(members[i].key)), Units(nfc(members[j].key)))
  }

  function Names<T>(nfc: string -> string, members: seq<Entry<T>>): (r: seq<Entry<T>>)
    ensures |r| == |members| && forall i :: 0 <= i < |r| ==> r[i] == Entry(nfc(members[i].key), members[i].value)
  {
    seq(|members|, i requires 0 <= i < |members| => Entry(nfc(members[i].key), members[i].value))
  }

  lemma InOrderAscends<T>(nfc: string -> string, members: seq<Entry<T>>, sorted: seq<Entry<T>>)
    requires Ascending(sorted) && (forall m :: m in sorted ==> m in members) && NormalizesInOrder(nfc, members)
    ensures Ascending(Names(nfc, sorted))
  {
    var names := Names(nfc, sorted);
    hide LexLt, Units;
    forall a, b | 0 <= a < b < |names| ensures LexLt(Units(names[a].key), Units(names[b].key)) {
      assert sorted[a] in members && sorted[b] in members;
      var i :| 0 <= i < |members| && members[i] == sorted[a];
      var j :| 0 <= j < |members| && members[j] == sorted[b];
      assert LexLt(Units(members[i].key), Units(members[j].key));
    }
  }

  lemma AscendsInOrder<T>(nfc: string -> string, members: seq<Entry<T>>, sorted: seq<Entry<T>>)
    requires Ascending(sorted) && (forall m :: m in members ==> m in sorted) && Ascending(Names(nfc, sorted))
    ensures NormalizesInOrder(nfc, members)
  {
    var names := Names(nfc, sorted);
    forall i, j | 0 <= i < |members| && 0 <= j < |members| && LexLt(Units(members[i].key), Units(members[j].key))
      ensures LexLt(Units(nfc(members[i].key)), Units(nfc(members[j].key)))
    {
      LexAsymmetric(Units(members[i].key), Units(members[j].key));
      hide LexLt, Units;
      assert members[i] in sorted && members[j] in sorted;
      var a :| 0 <= a < |sorted| && sorted[a] == members[i];
      var b :| 0 <= b < |sorted| && sorted[b] == members[j];
      assert a < b;
      assert names[a].key == nfc(members[i].key) && names[b].key == nfc(members[j].key);
    }
  }

  /** Sorting raw keys and then normalizing yields ascending names exactly when normalization keeps the keys' order. */
  lemma NamesAscend<T>(nfc: string -> string, members: seq<Entry<T>>)
    requires DistinctKeys(members)
    ensures Ascending(Names(nfc, Sort(members, KeyUnits()))) <==> NormalizesInOrder(nfc, members)
  {
    var sorted := Sort(members, KeyUnits());
    SortedAscending(members);
    SortMembers(members, KeyUnits());
    hide Ascending, NormalizesInOrder, Names, Sort;
    if NormalizesInOrder(nfc, members) {
      InOrderAscends(nfc, members, sorted);
    }
    if Ascending(Names(nfc, sorted)) {
      AscendsInOrder(nfc, members, sorted);
    }
  }

  lemma LexAsymmetric(a: seq<int>, b: seq<int>)
    requires LexLt(a, b)
    ensures !LexLt(b, a) && a != b
  {
    if LexLt(b, a) {
      LexAntisymmetric(a, b);
    }
  }
}
