/**
The forms RFC 8785 prescribes where a reader would accept others: which numbers take an exponent and how it is
written, which characters are escaped and how, and which of two member names is printed first.
*/
module CanonicalLaws {
  import opened Ordering
  import opened StableSort
  import opened Decimal
  import opened Utf16
  import opened Canonical
  import opened CanonicalOrder
  import opened CanonicalIdentity

  // ----- numbers

  lemma {:induction false} NatBounds(s: string)
    requires IsDigits(s) && s != "" && s[0] != '0'
    ensures Pow10(|s| - 1) <= NatOf(s) < Pow10(|s|)
  {
    var s' := s[..|s| - 1];
    if s' == "" {
      assert NatOf(s) == DigitValue(s[0]);
    } else {
      NatBounds(s');
    }
  }

  lemma {:induction false} TenToMonotone(a: int, b: int)
    requires a <= b
    ensures TenTo(a) <= TenTo(b)
    decreases b - a
  {
    if a < b {
      TenToMonotone(a, b - 1);
      assert TenTo(b) == 10.0 * TenTo(b - 1);
    }
  }

  lemma PowerValue(k: nat, e: int)
    ensures Value(Pow10(k), e) == TenTo(e + k)
  {
    ShiftValue(1, k, e);
    assert 1 * Pow10(k) == Pow10(k);
  }

  lemma ValueMonotone(m: nat, n: nat, e: int)
    ensures m <= n ==> Value(m, e) <= Value(n, e)
    ensures m < n ==> Value(m, e) < Value(n, e)
  {
    var t := TenTo(e);
    if m < n {
      assert (n as real - m as real) * t > 0.0;
    }
  }

  /** The point position is the number's order of magnitude. */
  lemma ValueBounds(n: Scientific)
    requires Normal(n)
    ensures TenTo(n.point - 1) <= ScientificValue(n) < TenTo(n.point)
  {
    var k := |n.digits|;
    NatBounds(n.digits);
    PowerValue(k - 1, n.point - k);
    PowerValue(k, n.point - k);
    ValueMonotone(Pow10(k - 1), NatOf(n.digits), n.point - k);
    ValueMonotone(NatOf(n.digits), Pow10(k), n.point - k);
  }

  lemma Powers()
    ensures TenTo(-6) == 0.000001 && TenTo(0) == 1.0 && TenTo(21) == 1000000000000000000000.0
  {
    assert TenTo(-3) == 0.001 && TenTo(-4) == 0.0001 && TenTo(-5) == 0.00001;
    assert TenTo(5) == 100000.0;
    assert TenTo(10) == 10000000000.0;
    assert TenTo(15) == 1000000000000000.0;
    assert TenTo(20) == 100000000000000000000.0;
  }

  lemma PointIs(n: Scientific)
    requires Normal(n)
    ensures -6 < n.point <= 21 <==> 0.000001 <= ScientificValue(n) < 1000000000000000000000.0
    ensures n.point >= 1 <==> ScientificValue(n) >= 1.0
  {
    hide TenTo, Value, NatOf;
    ValueBounds(n);
    Powers();
    if n.point > -6 { TenToMonotone(-6, n.point - 1); } else { TenToMonotone(n.point, -6); }
    if n.point > 21 { TenToMonotone(21, n.point - 1); } else { TenToMonotone(n.point, 21); }
    if n.point >= 1 { TenToMonotone(0, n.point - 1); } else { TenToMonotone(n.point, 0); }
  }

  /** A number takes an exponent exactly below 0.000001 and from 1e21 on. */
  lemma ExponentIffOutside(n: Scientific)
    requires Normal(n)
    ensures 'e' in FormatDigits(n) <==>
            !(0.000001 <= ScientificValue(n) < 1000000000000000000000.0)
  {
    hide ScientificValue;
    PointIs(n);
    var point, k := n.point, |n.digits|;
    assert forall i :: 0 <= i < k ==> n.digits[i] != 'e';
    if -6 < point <= 21 {
      if k <= point {
        assert FormatDigits(n) == n.digits + Zeros(point - k);
      } else if 0 < point {
        assert FormatDigits(n) == n.digits[..point] + "." + n.digits[point..];
      } else {
        assert FormatDigits(n) == "0." + Zeros(-point) + n.digits;
      }
    } else {
      assert ExponentTail(point - 1)[0] == 'e';
    }
  }

  /** The exponent always has a sign and no leading zero; before it is one digit, and a point only if more follow. */
  lemma ExponentShape(n: Scientific)
    requires Normal(n) && 'e' in FormatDigits(n)
    ensures var t, k := FormatDigits(n), if |n.digits| == 1 then 1 else |n.digits| + 1;
      && |t| > k + 2 && t[0] == n.digits[0] && t[k] == 'e'
      && (k > 1 ==> t[1] == '.' && t[2..k] == n.digits[1..])
      && t[k + 1] == (if ScientificValue(n) >= 1.0 then '+' else '-') && t[k + 2] != '0'
  {
    hide ScientificValue;
    PointIs(n);
    ExponentIffOutside(n);
    var e := n.point - 1;
    DecTextValue(if e >= 0 then e else -e);
    var tail := ExponentTail(e);
    assert tail[0] == 'e' && tail[2..] == DecText(if e >= 0 then e else -e);
    assert FormatDigits(n) == (if |n.digits| == 1 then n.digits else [n.digits[0]] + "." + n.digits[1..]) + tail;
  }

  /** Without an exponent: a leading zero only before the point, a point only before digits, no zero after those. */
  lemma PlainShape(n: Scientific)
    requires Normal(n) && 'e' !in FormatDigits(n)
    ensures var t := FormatDigits(n);
      && t != "" && (t[0] == '0' <==> ScientificValue(n) < 1.0)
      && (t[0] == '0' ==> |t| > 2 && t[1] == '.')
      && ('.' in t ==> t[|t| - 1] != '0' && t[|t| - 1] != '.')
  {
    hide ScientificValue;
    PointIs(n);
    ExponentIffOutside(n);
    var point, k := n.point, |n.digits|;
    if k <= point {
      assert FormatDigits(n) == n.digits + Zeros(point - k);
      assert forall i :: 0 <= i < k ==> n.digits[i] != '.';
    } else if 0 < point {
      assert FormatDigits(n) == n.digits[..point] + "." + n.digits[point..];
    } else {
      assert FormatDigits(n) == "0." + Zeros(-point) + n.digits;
    }
  }

  lemma NumberSamples()
    ensures FormatDigits(Scientific("1", -6)) == "1e-7" && FormatDigits(Scientific("1", -5)) == "0.000001"
    ensures FormatDigits(Scientific("1", 22)) == "1e+21"
    ensures FormatDigits(Scientific("1", 21)) == "100000000000000000000"
    ensures FormatDigits(Scientific("15", 24)) == "1.5e+23"
  {
    Exponents();
    assert Zeros(5) == "00000" && Zeros(20) == "00000000000000000000";
    hide DecText;
    assert "0." + "00000" + "1" == "0.000001";
    assert "1" + "00000000000000000000" == "100000000000000000000";
  }

  lemma Exponents()
    ensures ExponentTail(-7) == "e-7" && ExponentTail(21) == "e+21" && ExponentTail(23) == "e+23"
  {
    assert DecText(7) == "7";
    assert DecText(21) == DecText(2) + "1" && DecText(23) == DecText(2) + "3" && DecText(2) == "2";
  }

  // ----- strings

  /**
  A quote, a backslash and five control characters take two characters, the other control characters six, and every
  other character stands for itself.
  */
  lemma EscapeLength(c: char)
    ensures var named := c == '\"' || c == '\\' || c as int == 8 || c as int == 9 || c as int == 10 || c as int == 12 ||
        c as int == 13;
      && (|Escape([c])| == 2 <==> named)
      && (|Escape([c])| == 6 <==> c < ' ' && !named)
      && (Escape([c]) == [c] <==> c >= ' ' && !named)
      && (|Escape([c])| == 6 ==> Escape([c])[..4] == "\\u00")
      && (named ==> Escape([c])[0] == '\\')
  {
    EscapeOne(c);
  }

  lemma EscapeOne(c: char)
    ensures Escape([c]) == EscapeChar(c)
  {
    assert [c][1..] == "";
    assert Escape([c]) == EscapeChar(c) + Escape("");
  }

  // ----- punctuation

  /** Literals, arrays and objects, without any white space; arrays keep their order. */
  lemma TextForms(nfc: string -> string, x: Json, y: Json, k: string)
    requires Representable(x) && Representable(y)
    ensures Text(nfc, Null) == "null" && Text(nfc, Bool(true)) == "true" && Text(nfc, Bool(false)) == "false"
    ensures Text(nfc, Str(k)) == "\"" + Escape(nfc(k)) + "\""
    ensures Representable(Arr([x, y])) && Representable(Obj([Entry(k, x)]))
    ensures Text(nfc, Arr([])) == "[]" && Text(nfc, Obj([])) == "{}"
    ensures Text(nfc, Arr([x, y])) == "[" + Text(nfc, x) + "," + Text(nfc, y) + "]"
    ensures Text(nfc, Obj([Entry(k, x)])) == "{" + Text(nfc, Str(k)) + ":" + Text(nfc, x) + "}"
  {
    EmptyTexts(nfc);
    TwoItems(nfc, x, y);
    OneMember(nfc, Entry(k, x));
  }

  lemma EmptyTexts(nfc: string -> string)
    ensures Text(nfc, Arr([])) == "[]" && Text(nfc, Obj([])) == "{}"
  {
    assert Map(Member(nfc), []) == [] && Comma([]) == "";
  }

  lemma TwoItems(nfc: string -> string, x: Json, y: Json)
    requires Representable(x) && Representable(y)
    ensures Representable(Arr([x, y]))
    ensures Text(nfc, Arr([x, y])) == "[" + Text(nfc, x) + "," + Text(nfc, y) + "]"
  {
    TextsTwo(nfc, x, y);
    CommaTwo(Text(nfc, x), Text(nfc, y));
    hide Comma, Texts;
  }

  lemma CommaTwo(a: string, b: string)
    ensures Comma([a, b]) == a + "," + b
  {
    assert [a, b][1..] == [b];
  }

  lemma TextsTwo(nfc: string -> string, x: Json, y: Json)
    requires Representable(x) && Representable(y)
    ensures Texts(nfc, [x, y]) == [Text(nfc, x), Text(nfc, y)]
  {
    hide Text;
    assert [x, y][1..] == [y] && [y][1..] == [];
    assert Texts(nfc, [y]) == [Text(nfc, y)] + Texts(nfc, []);
  }

  lemma OneMember(nfc: string -> string, m: Entry<Json>)
    requires Representable(m.value)
    ensures Representable(Obj([m]))
    ensures Text(nfc, Obj([m])) == "{" + EncodeString(nfc, m.key) + ":" + Text(nfc, m.value) + "}"
  {
    var e := Entry(m.key, Text(nfc, m.value));
    assert [m][1..] == [] && [e][1..] == [];
    assert TextEntries(nfc, [m]) == [e] + TextEntries(nfc, []) == [e];
    assert Sort([e], KeyUnits()) == [e];
    assert Map(Member(nfc), [e]) == [Member(nfc)(e)];
    TextObject(nfc, [m]);
  }

  // ----- the order of names

  /** Printed names ascend by code units, for keys in normal form; the first difference decides. */
  lemma PrintedInUnitOrder(nfc: string -> string, members: seq<Entry<Json>>, i: nat, j: nat)
    requires Representable(Obj(members)) && DistinctKeys(members)
    requires forall i :: 0 <= i < |members| ==> nfc(members[i].key) == members[i].key
    requires i < j < |members|
    ensures UnitsBefore(PrintedMembers(nfc, members)[i].key, PrintedMembers(nfc, members)[j].key)
  {
    PrintedNormalNamesAscend(nfc, members);
    UnitOrder(PrintedMembers(nfc, members)[i].key, PrintedMembers(nfc, members)[j].key);
  }

  /** A halfwidth letter and an emoji: the emoji, whose code point is the greater, is printed first. */
  lemma EmojiPrintedFirst(nfc: string -> string)
    requires nfc("\U{FF71}") == "\U{FF71}" && nfc("\U{1F600}") == "\U{1F600}"
    ensures Text(nfc, Obj([Entry("\U{FF71}", Null), Entry("\U{1F600}", Null)])) ==
            "{\"\U{1F600}\":null,\"\U{FF71}\":null}"
  {
    hide Units, Text, Comma, Map, Sort, EncodeString, TextEntries, LexLt;
    var kana, emoji := Entry("\U{FF71}", "null"), Entry("\U{1F600}", "null");
    SurrogatesSortFirst('\U{1F600}', '\U{FF71}', "", "");
    assert ['\U{1F600}'] + "" == emoji.key && ['\U{FF71}'] + "" == kana.key;
    SortTwo(kana, emoji);
    TwoTexts(nfc);
    TextObject(nfc, [Entry("\U{FF71}", Null), Entry("\U{1F600}", Null)]);
    EncodePlain(nfc, '\U{1F600}');
    EncodePlain(nfc, '\U{FF71}');
    PrintTwo(nfc, emoji, kana);
    assert ['\U{1F600}'] == emoji.key && ['\U{FF71}'] == kana.key;
  }

  lemma EncodePlain(nfc: string -> string, c: char)
    requires nfc([c]) == [c] && c > '\\'
    ensures EncodeString(nfc, [c]) == "\"" + [c] + "\""
  {
    EscapeOne(c);
  }

  lemma TwoTexts(nfc: string -> string)
    ensures TextEntries(nfc, [Entry("\U{FF71}", Null), Entry("\U{1F600}", Null)]) ==
            [Entry("\U{FF71}", "null"), Entry("\U{1F600}", "null")]
  {
    var members: seq<Entry<Json>> := [Entry("\U{FF71}", Null), Entry("\U{1F600}", Null)];
    assert members[1..] == [Entry("\U{1F600}", Null)] && members[1..][1..] == [];
  }

  lemma SortTwo(x: Entry<string>, y: Entry<string>)
    requires LexLt(Units(y.key), Units(x.key))
    ensures Sort([x, y], KeyUnits()) == [y, x]
  {
    assert [x, y][1..] == [y] && [y][1..] == [];
    assert Sort([y], KeyUnits()) == [y];
    if LexLe(Units(x.key), Units(y.key)) {
      LexAntisymmetric(Units(x.key), Units(y.key));
      assert false;
    }
    assert Insert(x, [y], KeyUnits()) == [y] + Insert(x, [], KeyUnits());
  }

  lemma PrintTwo(nfc: string -> string, x: Entry<string>, y: Entry<string>)
    ensures "{" + Comma(Map(Member(nfc), [x, y])) + "}" ==
            "{" + EncodeString(nfc, x.key) + ":" + x.value + "," + EncodeString(nfc, y.key) + ":" + y.value + "}"
  {
    hide EncodeString;
    CommaTwo(Member(nfc)(x), Member(nfc)(y));
    assert Map(Member(nfc), [x, y]) == [Member(nfc)(x), Member(nfc)(y)];
  }
}
