/** Canonical text as an identity: equal exactly for documents that denote the same. */
module CanonicalIdentity {
  import opened Ordering
  import opened StableSort
  import opened Decimal
  import opened Utf16
  import opened Canonical
  import opened CanonicalRoundTrip
  import opened CanonicalOrder

  // ----- integers against floats

  /** A digit text that does not start with a zero is its significant digits and zeros. */
  lemma StrippedDigits(t: string)
    requires IsDigits(t) && t != "" && t[0] != '0'
    ensures var digits := StripTrailing(t);
      && IsDigits(digits) && digits != "" && digits[0] != '0' && digits[|digits| - 1] != '0'
      && t == digits + Zeros(TrailingZeros(t))
  {
    var digits, zeros := StripTrailing(t), TrailingZeros(t);
    hide TrailingZeros;
    assert t == digits + Zeros(zeros);
    assert digits != "";
    assert digits[0] == t[0];
  }

  lemma IntegerDigits(n: nat)
    requires n > 0
    ensures var s := Significant(IntegerParts(n));
      Normal(s) && s.point == |DecText(n)| && DecText(n) == s.digits + Zeros(s.point - |s.digits|)
        && |s.digits| <= s.point
  {
    hide DecText, TrailingZeros, StripTrailing, Significant, Zeros, NatOf;
    var t := DecText(n);
    DecTextValue(n);
    StrippedDigits(t);
    var digits, zeros := StripTrailing(t), TrailingZeros(t);
    PaddedText(t, digits, zeros);
    SignificantPadded(IntegerParts(n), 0, digits, zeros);
  }

  lemma PaddedText(t: string, digits: string, zeros: nat)
    requires t == digits + Zeros(zeros)
    ensures zeros == |t| - |digits| && t + "" == Zeros(0) + digits + Zeros(zeros)
  {
    assert Zeros(0) + digits == digits;
  }

  lemma PositiveInteger(n: nat)
    requires n > 0
    ensures TextValue(IntegerParts(n)) != 0.0
  {
    IntegerValue(n);
  }

  lemma ExponentHasLetter(n: Scientific)
    requires Normal(n) && n.point > 21
    ensures !IsDigits(FormatDigits(n))
  {
    hide DecText;
    var k := if |n.digits| == 1 then 1 else |n.digits| + 1;
    assert FormatDigits(n)[k] == 'e';
  }

  /** A positive integer prints as the float of the same value exactly up to twenty-one digits. */
  lemma IntegerPrintsAsFloat(n: nat)
    requires n > 0
    ensures Normal(Significant(IntegerParts(n)))
    ensures DecText(n) == FormatDigits(Significant(IntegerParts(n))) <==> |DecText(n)| <= 21
  {
    IntegerDigits(n);
    if |DecText(n)| > 21 {
      ExponentHasLetter(Significant(IntegerParts(n)));
    }
  }

  // ----- text as a function of the denoted document

  function Render(c: Canon): string {
    match c
    case CNull => "null"
    case CBool(b) => if b then "true" else "false"
    case CNumber(n, wide) => RenderNumber(n, wide)
    case CStr(s) => "\"" + Escape(s) + "\""
    case CArr(items) => "[" + Comma(RenderItems(items)) + "]"
    case CObj(members) => "{" + Comma(RenderMembers(members)) + "}"
  }

  function RenderNumber(n: Number, wide: bool): string {
    if n == NUMBER_ZERO || n.magnitude.digits == "" then "0"
    else (if n.negative then "-" else "") + if wide then Padded(n.magnitude) else FormatDigits(n.magnitude)
  }

  /** The digits, with zeros up to the point. */
  function Padded(n: Scientific): string {
    n.digits + if |n.digits| <= n.point then Zeros(n.point - |n.digits|) else ""
  }

  function RenderItems(items: seq<Canon>): (r: seq<string>)
    ensures |r| == |items|
  {
    if items == [] then [] else [Render(items[0])] + RenderItems(items[1..])
  }

  function RenderMembers(members: seq<Entry<Canon>>): (r: seq<string>)
    ensures |r| == |members|
  {
    if members == [] then []
    else ["\"" + Escape(members[0].key) + "\":" + Render(members[0].value)] + RenderMembers(members[1..])
  }

  lemma {:induction false} RenderMembersAt(members: seq<Entry<Canon>>, i: nat)
    requires i < |members|
    ensures RenderMembers(members)[i] == "\"" + Escape(members[i].key) + "\":" + Render(members[i].value)
  {
    if i > 0 {
      RenderMembersAt(members[1..], i - 1);
    }
  }

  lemma RenderInteger(n: int)
    ensures EncodeInt(n) == RenderNumber(NumberOf(n < 0, IntegerParts(n)), IsWide(IntegerParts(n).integer))
  {
    if n == 0 {
      DecTextValue(0);
      SignificantZeroText();
    } else {
      var m: nat := if n < 0 then -n else n;
      IntegerDigits(m);
      IntegerPrintsAsFloat(m);
      PositiveInteger(m);
      NormalNotZero(n < 0, Significant(IntegerParts(m)));
      assert IntegerParts(n) == IntegerParts(m);
      assert "" + DecText(m) == DecText(m);
    }
  }

  lemma NormalNotZero(negative: bool, s: Scientific)
    requires Normal(s)
    ensures Number(negative, s) != NUMBER_ZERO
  {
    assert ZERO.digits[0] == '0';
  }

  lemma RenderFloat(negative: bool, text: DecimalText)
    ensures EncodeFloat(negative, text) == RenderNumber(NumberOf(negative, ParseNumber(text).value), false)
  {
    var p := ParseNumber(text).value;
    hide ParseNumber, FormatDigits, TextValue, Significant;
    if TextValue(p) != 0.0 {
      SignificantValue(p);
      NormalNotZero(negative, Significant(p));
    }
  }

  lemma {:induction false} RenderDenoted(nfc: string -> string, v: Json)
    requires Representable(v)
    ensures Text(nfc, v) == Render(Denote(nfc, v))
    decreases v, 1
  {
    hide EncodeFloat, EncodeInt, NumberOf, RenderNumber, Escape, IsWide;
    match v
    case Null =>
    case Bool(b) =>
    case Int(n) => RenderInteger(n);
    case Float(f) => RenderFloat(f.negative, f.text);
    case Str(s) =>
    case Arr(items) => RenderDenotedItems(nfc, items);
    case Obj(members) =>
      MembersRender(nfc, members);
      RenderSortedObject(nfc, members);
  }

  lemma {:induction false} RenderDenotedItems(nfc: string -> string, items: seq<Json>)
    requires forall x :: x in items ==> Representable(x)
    ensures Texts(nfc, items) == RenderItems(DenoteItems(nfc, items))
    decreases items, 0
  {
    if items != [] {
      RenderDenoted(nfc, items[0]);
      RenderDenotedItems(nfc, items[1..]);
    }
  }

  ghost predicate AllRender(readings: seq<Entry<Reading>>) {
    forall e :: e in readings ==> e.value.text == Render(e.value.canon)
  }

  lemma {:induction false} MembersRender(nfc: string -> string, members: seq<Entry<Json>>)
    requires forall m :: m in members ==> Representable(m.value)
    ensures AllRender(Readings(nfc, members))
    decreases members, 0
  {
    if members != [] {
      RenderDenoted(nfc, members[0].value);
      MembersRender(nfc, members[1..]);
    }
  }

  lemma RenderSortedObject(nfc: string -> string, members: seq<Entry<Json>>)
    requires forall m :: m in members ==> Representable(m.value)
    requires AllRender(Readings(nfc, members))
    ensures Text(nfc, Obj(members)) == Render(Denote(nfc, Obj(members)))
  {
    TextObject(nfc, members);
    hide Text, Denote, TextEntries, DenoteEntries, Readings, Sort, Representable, Escape;
    var sorted := Sort(Readings(nfc, members), KeyUnits());
    SortedReadings(nfc, members);
    SortMembers(Readings(nfc, members), KeyUnits());
    var texts := Map(Member(nfc), Map(TextOf, sorted));
    var canons := Map(Normalized(nfc), Map(CanonOf, sorted));
    forall i | 0 <= i < |texts| ensures texts[i] == RenderMembers(canons)[i] {
      assert sorted[i] in Readings(nfc, members);
      RenderMembersAt(canons, i);
      QuotedColon(Escape(nfc(sorted[i].key)), sorted[i].value.text);
    }
    assert texts == RenderMembers(canons);
  }

  lemma QuotedColon(s: string, t: string)
    ensures "\"" + s + "\"" + ":" + t == "\"" + s + "\":" + t
  {
  }

  /** Canonical text is a faithful identity: equal exactly for documents that denote the same. */
  lemma TextIffDenotes(nfc: string -> string, v: Json, w: Json)
    requires Representable(v) && Representable(w)
    ensures Text(nfc, v) == Text(nfc, w) <==> Denote(nfc, v) == Denote(nfc, w)
  {
    hide Text, Denote, Render;
    RenderDenoted(nfc, v);
    RenderDenoted(nfc, w);
    if Text(nfc, v) == Text(nfc, w) {
      TextIdentifies(nfc, v, w);
    }
  }

  /** Re-encoding what was read gives the text back. */
  lemma PrintAfterRead(nfc: string -> string, v: Json)
    requires Representable(v)
    ensures Read(Text(nfc, v)).Some? && Render(Read(Text(nfc, v)).value) == Text(nfc, v)
  {
    hide Text, Denote, Render;
    RoundTrip(nfc, v);
    RenderDenoted(nfc, v);
  }

  lemma IntegerValue(n: nat)
    ensures TextValue(IntegerParts(n)) == n as real
  {
    DecTextValue(n);
    assert DecText(n) + "" == DecText(n);
    assert TenTo(0) == 1.0;
  }

  lemma SameNumber(n: nat, p: Parts)
    requires n > 0 && IsParts(p) && TextValue(p) == n as real
    ensures Significant(p) == Significant(IntegerParts(n))
    ensures Normal(Significant(p))
  {
    hide TextValue, Significant, ScientificValue;
    IntegerValue(n);
    SignificantValue(IntegerParts(n));
    SignificantValue(p);
    NormalUnique(Significant(p), Significant(IntegerParts(n)));
  }

  lemma EncodePositive(text: DecimalText)
    requires TextValue(ParseNumber(text).value) != 0.0 && Normal(Significant(ParseNumber(text).value))
    ensures EncodeFloat(false, text) == FormatDigits(Significant(ParseNumber(text).value))
  {
    var f := FormatDigits(Significant(ParseNumber(text).value));
    hide FormatDigits, TextValue, ParseNumber, Significant;
    assert EncodeFloat(false, text) == "" + f;
    assert "" + f == f;
  }

  lemma WideIntegerNumber(n: nat, text: DecimalText)
    requires n > 0 && TextValue(ParseNumber(text).value) == n as real
    ensures NumberOf(false, IntegerParts(n)) == NumberOf(false, ParseNumber(text).value)
    ensures EncodeInt(n) == EncodeFloat(false, text) <==> |DecText(n)| <= 21
  {
    hide ParseNumber, TextValue, Significant, FormatDigits, DecText, EncodeFloat, Normal;
    SameNumber(n, ParseNumber(text).value);
    IntegerValue(n);
    IntegerPrintsAsFloat(n);
    EncodePositive(text);
  }

  /**
  An integer and a float of the same value are the same number; they denote and print the same exactly up to twenty-one
  digits.
  */
  lemma WideIntegerSplits(nfc: string -> string, n: nat, text: DecimalText)
    requires n > 0 && TextValue(ParseNumber(text).value) == n as real
    ensures Denote(nfc, Int(n)).n == Denote(nfc, Float(Finite(false, text))).n
    ensures Denote(nfc, Int(n)) == Denote(nfc, Float(Finite(false, text))) <==> |DecText(n)| <= 21
    ensures Text(nfc, Int(n)) == Text(nfc, Float(Finite(false, text))) <==> |DecText(n)| <= 21
  {
    WideIntegerNumber(n, text);
    hide EncodeInt, EncodeFloat, NumberOf, DecText, TextValue;
  }

  // ----- the order of the names in the text

  lemma DenotedMembers(nfc: string -> string, members: seq<Entry<Json>>)
    requires Representable(Obj(members))
    ensures Denote(nfc, Obj(members)) == CObj(Names(nfc, Sort(DenoteEntries(nfc, members), KeyUnits())))
  {
    var sorted := Sort(DenoteEntries(nfc, members), KeyUnits());
    assert Map(Normalized(nfc), sorted) == Names(nfc, sorted);
  }

  /** The members read from the text of an object. */
  function PrintedMembers(nfc: string -> string, members: seq<Entry<Json>>): (r: seq<Entry<Canon>>)
    requires Representable(Obj(members))
    ensures Read(Text(nfc, Obj(members))) == Some(CObj(r)) && |r| == |members|
  {
    RoundTrip(nfc, Obj(members));
    SortMembers(DenoteEntries(nfc, members), KeyUnits());
    Read(Text(nfc, Obj(members))).value.members
  }

  /**
  The names in an object's text ascend by UTF-16 code units exactly when normalization keeps the order of the raw keys.
  */
  lemma PrintedNamesAscend(nfc: string -> string, members: seq<Entry<Json>>)
    requires Representable(Obj(members)) && DistinctKeys(members)
    ensures Ascending(PrintedMembers(nfc, members)) <==> NormalizesInOrder(nfc, members)
  {
    hide Text, Denote, Sort, DenoteEntries, Names, Ascending, Read;
    var entries := DenoteEntries(nfc, members);
    RoundTrip(nfc, Obj(members));
    DenotedMembers(nfc, members);
    EntryKeys(nfc, members);
    assert DistinctKeys(entries);
    NamesAscend(nfc, entries);
    hide Units;
    assert forall i :: 0 <= i < |members| ==> entries[i].key == members[i].key;
    assert NormalizesInOrder(nfc, entries) <==> NormalizesInOrder(nfc, members);
  }

  /** Keys in normal form are printed in the order of RFC 8785. */
  lemma PrintedNormalNamesAscend(nfc: string -> string, members: seq<Entry<Json>>)
    requires Representable(Obj(members)) && DistinctKeys(members) && forall i :: 0 <= i < |members| ==>
      nfc(members[i].key) == members[i].key
    ensures Ascending(PrintedMembers(nfc, members))
  {
    PrintedNamesAscend(nfc, members);
  }

  /** NFC on two sample characters: the Angstrom sign composes to Latin capital A with ring. */
  function SampleNfc(s: string): string {
    if s == "\U{212B}" then "\U{00C5}" else s
  }

  /** Printed out of order: the raw keys sort as AE before the Angstrom sign, the names as A-ring before AE. */
  lemma NormalizationCanDisorder()
    ensures var members := [Entry("\U{00C6}", Null), Entry("\U{212B}", Null)];
      && DistinctKeys(members) && SampleNfc(SampleNfc("\U{212B}")) == SampleNfc("\U{212B}")
      && !Ascending(PrintedMembers(SampleNfc, members))
  {
    var members := [Entry("\U{00C6}", Null), Entry("\U{212B}", Null)];
    OutOfOrder(members[0], members[1]);
    PrintedNamesAscend(SampleNfc, members);
  }

  lemma OutOfOrder(x: Entry<Json>, y: Entry<Json>)
    requires x.key == "\U{00C6}" && y.key == "\U{212B}"
    ensures DistinctKeys([x, y]) && !NormalizesInOrder(SampleNfc, [x, y])
  {
    var a, b := x.key, y.key;
    assert a[1..] == "" && b[1..] == "" && SampleNfc(b)[1..] == "";
    assert Units(a) == [0xC6] && Units(b) == [0x212B];
    assert Units(SampleNfc(a)) == [0xC6] && Units(SampleNfc(b)) == [0xC5];
    assert [0xC6][1..] == [] && [0x212B][1..] == [];
    assert LexLt(Units(a), Units(b)) && !LexLt(Units(SampleNfc(a)), Units(SampleNfc(b)));
    assert [x, y][0].key == a && [x, y][1].key == b;
  }
}
