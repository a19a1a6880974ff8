/** Reading canonical text back yields what the document denotes. */
module CanonicalRoundTrip {
  import opened Ordering
  import opened StableSort
  import opened Decimal
  import opened Canonical

  // ----- strings

  lemma ReadPlainChar(c: char, tail: string)
    requires c >= ' ' && c != '\"' && c != '\\'
    ensures ReadChars([c] + tail) == Prepend(c, ReadChars(tail))
  {
    assert ([c] + tail)[1..] == tail;
  }

  lemma ReadBackslash(escape: string, c: char, tail: string)
    requires ReadEscape(escape + tail) == Ok(c, tail)
    ensures ReadChars("\\" + escape + tail) == Prepend(c, ReadChars(tail))
  {
    hide ReadEscape;
    var s := "\\" + escape + tail;
    assert s[1..] == escape + tail;
  }

  lemma ReadLetter(letter: char, tail: string)
    ensures ReadEscape([letter] + tail) ==
      if letter == '\"' || letter == '\\' then Ok(letter, tail)
      else if letter == 'b' then Ok(8 as char, tail)
      else if letter == 'f' then Ok(12 as char, tail)
      else if letter == 'n' then Ok('\n', tail)
      else if letter == 'r' then Ok('\r', tail)
      else if letter == 't' then Ok('\t', tail)
      else ReadEscape([letter] + tail)
  {
    assert ([letter] + tail)[1..] == tail;
  }

  lemma ReadEscapedChar(c: char, tail: string)
    ensures ReadChars(EscapeChar(c) + tail) == Prepend(c, ReadChars(tail))
  {
    hide ReadChars, ReadEscape;
    var e := EscapeChar(c);
    if |e| == 1 {
      ReadPlainChar(c, tail);
    } else if |e| == 2 {
      ReadLetter(e[1], tail);
      ReadBackslash([e[1]], c, tail);
      assert e == "\\" + [e[1]];
    } else {
      ReadControl(c, tail);
    }
  }

  lemma ReadControl(c: char, tail: string)
    requires |EscapeChar(c)| > 2
    ensures ReadChars(EscapeChar(c) + tail) == Prepend(c, ReadChars(tail))
  {
    var hi, lo := Hex(c as int / 16), Hex(c as int % 16);
    assert EscapeChar(c) == ['\\', 'u', '0', '0', hi, lo];
    var s := EscapeChar(c) + tail;
    assert s[1..] == ['u', '0', '0', hi, lo] + tail;
    assert s[1..][5..] == tail;
    assert HexValue(hi) == Some(c as int / 16) && HexValue(lo) == Some(c as int % 16);
  }

  lemma {:induction false} ReadEscaped(t: string, rest: string)
    ensures ReadChars(Escape(t) + "\"" + rest) == Ok(t, rest)
  {
    if t == "" {
      var s := "\"" + rest;
      assert Escape(t) + "\"" + rest == s && s[1..] == rest;
    } else {
      ReadEscaped(t[1..], rest);
      EscapeCons(t[0], t[1..], rest);
      assert [t[0]] + t[1..] == t;
    }
  }

  lemma EscapeCons(c: char, t: string, rest: string)
    requires ReadChars(Escape(t) + "\"" + rest) == Ok(t, rest)
    ensures ReadChars(Escape([c] + t) + "\"" + rest) == Ok([c] + t, rest)
  {
    hide ReadChars, EscapeChar;
    assert ([c] + t)[1..] == t;
    var tail := Escape(t) + "\"" + rest;
    assert Escape([c] + t) + "\"" + rest == EscapeChar(c) + tail;
    ReadEscapedChar(c, tail);
  }

  // ----- numbers

  predicate NoDelimiter(s: string) {
    forall i :: 0 <= i < |s| ==> !Delimiter(s[i])
  }

  predicate Terminated(rest: string) {
    rest == "" || Delimiter(rest[0])
  }

  lemma {:induction false} NumberRunConcat(t: string, rest: string)
    requires NoDelimiter(t) && Terminated(rest)
    ensures NumberRun(t + rest) == |t|
  {
    if t == "" {
      assert t + rest == rest;
    } else {
      assert (t + rest)[1..] == t[1..] + rest;
      NumberRunConcat(t[1..], rest);
    }
  }

  lemma ExponentChars(s: string)
    requires ParseExponent(s).Some?
    ensures NoDelimiter(s)
  {
    var signed := s != "" && (s[0] == '+' || s[0] == '-');
    var digits := if signed then s[1..] else s;
    assert digits[..|digits|] == digits;
    assert forall i :: 0 <= i < |digits| ==> IsDigit(digits[i]);
    assert signed ==> forall i :: 1 <= i < |s| ==> s[i] == digits[i - 1];
  }

  lemma TailChars(integer: string, fraction: string, rest: string)
    requires integer != "" && IsDigits(integer) && IsDigits(fraction)
    requires ParseTail(integer, fraction, rest).Some?
    ensures NoDelimiter(rest)
  {
    if rest != "" {
      ExponentChars(rest[1..]);
      assert forall i :: 1 <= i < |rest| ==> rest[i] == rest[1..][i - 1];
    }
  }

  lemma NoDelimiterConcat(a: string, b: string)
    requires NoDelimiter(a) && NoDelimiter(b)
    ensures NoDelimiter(a + b)
  {
  }

  lemma NumberChars(t: string)
    requires ParseNumber(t).Some?
    ensures t != "" && IsDigit(t[0]) && NoDelimiter(t)
  {
    var i := DigitRun(t);
    var rest := t[i..];
    assert t == t[..i] + rest;
    assert t[0] == t[..i][0];
    if rest != "" && rest[0] == '.' {
      var j := DigitRun(rest[1..]);
      TailChars(t[..i], rest[1..][..j], rest[1..][j..]);
      NoDelimiterConcat(rest[1..][..j], rest[1..][j..]);
      assert rest[1..] == rest[1..][..j] + rest[1..][j..];
      NoDelimiterConcat(".", rest[1..]);
      assert rest == "." + rest[1..];
    } else {
      TailChars(t[..i], "", rest);
    }
    NoDelimiterConcat(t[..i], rest);
  }

  lemma ReadMagnitudeText(negative: bool, t: string, rest: string)
    requires ParseNumber(t).Some? && Terminated(rest)
    ensures ReadMagnitude(negative, t + rest) == Ok(CNumber(NumberOf(negative, ParseNumber(t).value), IsWide(t)), rest)
  {
    NumberChars(t);
    NumberRunConcat(t, rest);
    hide ParseNumber, NumberRun, NumberOf, IsWide;
    assert (t + rest)[..|t|] == t && (t + rest)[|t|..] == rest;
  }

  lemma ReadNumberText(negative: bool, t: string, rest: string)
    requires ParseNumber(t).Some? && Terminated(rest)
    ensures ReadValue((if negative then "-" else "") + t + rest) ==
      Ok(CNumber(NumberOf(negative, ParseNumber(t).value), IsWide(t)), rest)
  {
    hide ReadValue, ReadMagnitude, ParseNumber, NumberOf, IsWide;
    NumberChars(t);
    ReadMagnitudeText(negative, t, rest);
    if negative {
      NegativeStart(t + rest);
    } else {
      DigitStart(t + rest);
    }
    SignedConcat(negative, t, rest);
  }

  lemma SignedConcat(negative: bool, t: string, rest: string)
    ensures (if negative then "-" else "") + t + rest == if negative then "-" + (t + rest) else t + rest
  {
  }

  lemma DigitStart(s: string)
    requires s != "" && IsDigit(s[0])
    ensures ReadValue(s) == ReadMagnitude(false, s)
  {
    hide ReadMagnitude;
    OtherStart(s);
  }

  lemma NegativeStart(s: string)
    ensures ReadValue("-" + s) == ReadMagnitude(true, s)
  {
    hide ReadMagnitude;
    OtherStart("-" + s);
    assert ("-" + s)[1..] == s;
  }

  lemma OtherStart(s: string)
    requires s != "" && s[0] != 'n' && s[0] != 't' && s[0] != 'f'
    ensures !StartsWith(s, "null") && !StartsWith(s, "true") && !StartsWith(s, "false")
  {
    assert |s| >= 4 ==> s[..4][0] == s[0];
    assert |s| >= 5 ==> s[..5][0] == s[0];
  }

  // ----- values

  /** `text` reads as `c` wherever it stands in a document. */
  ghost predicate Reads(text: string, c: Canon) {
    forall rest: string :: Terminated(rest) ==> ReadValue(text + rest) == Ok(c, rest)
  }

  lemma ReadsStart(text: string, c: Canon)
    requires Reads(text, c)
    ensures text != "" && text[0] != ']' && text[0] != '}'
  {
    assert Terminated("") && text + "" == text;
    assert ReadValue(text) == Ok(c, "");
    if text[0] == ']' || text[0] == '}' {
      NumberRunStop(text);
    }
  }

  lemma NumberRunStop(text: string)
    requires text != "" && Delimiter(text[0])
    ensures ReadValue(text) == Fail
  {
    assert text[..0] == "";
    OtherStart(text);
  }

  lemma ReadLastItem(text: string, c: Canon, rest: string)
    requires Reads(text, c)
    ensures ReadItems(text + ("]" + rest)) == Ok([c], rest)
  {
    hide ReadValue;
    var tail := "]" + rest;
    assert Terminated(tail);
    assert ReadValue(text + tail) == Ok(c, tail);
    assert tail[1..] == rest;
  }

  lemma ReadItemThen(text: string, c: Canon, more: string, items: seq<Canon>, rest: string)
    requires Reads(text, c) && ReadItems(more) == Ok(items, rest)
    ensures ReadItems(text + ("," + more)) == Ok([c] + items, rest)
  {
    hide ReadValue;
    var tail := "," + more;
    assert Terminated(tail);
    assert ReadValue(text + tail) == Ok(c, tail);
    assert tail[1..] == more;
  }

  lemma {:induction false} ReadJoined(texts: seq<string>, items: seq<Canon>, rest: string)
    requires |texts| == |items| > 0
    requires forall i :: 0 <= i < |texts| ==> Reads(texts[i], items[i])
    ensures ReadItems(Comma(texts) + "]" + rest) == Ok(items, rest)
  {
    hide ReadItems, Reads;
    if |texts| == 1 {
      ReadLastItem(texts[0], items[0], rest);
      assert Comma(texts) + "]" + rest == texts[0] + ("]" + rest);
      assert items == [items[0]];
    } else {
      ReadJoined(texts[1..], items[1..], rest);
      var more := Comma(texts[1..]) + "]" + rest;
      ReadItemThen(texts[0], items[0], more, items[1..], rest);
      assert Comma(texts) + "]" + rest == texts[0] + ("," + more);
      assert items == [items[0]] + items[1..];
    }
  }

  ghost predicate ReadsMember(text: string, m: Entry<Canon>) {
    forall rest: string :: Terminated(rest) ==> ReadMember(text + rest) == Ok(m, rest)
  }

  lemma ReadMemberParts(chars: string, key: string, body: string, c: Canon, rest: string)
    requires ReadChars(chars) == Ok(key, ":" + body) && ReadValue(body) == Ok(c, rest)
    ensures ReadMember("\"" + chars) == Ok(Entry(key, c), rest)
  {
    hide ReadChars, ReadValue;
    assert ("\"" + chars)[1..] == chars && (":" + body)[1..] == body;
  }

  lemma MemberReadsBefore(nfc: string -> string, key: string, text: string, c: Canon, rest: string)
    requires Reads(text, c) && Terminated(rest)
    ensures ReadMember(EncodeString(nfc, key) + ":" + text + rest) == Ok(Entry(nfc(key), c), rest)
  {
    hide ReadChars, ReadValue, ReadMember, Escape;
    var body := text + rest;
    var chars := Escape(nfc(key)) + "\"" + (":" + body);
    ReadEscaped(nfc(key), ":" + body);
    assert ReadValue(body) == Ok(c, rest);
    ReadMemberParts(chars, nfc(key), body, c, rest);
    assert EncodeString(nfc, key) + ":" + text + rest == "\"" + chars;
  }

  lemma MemberReads(nfc: string -> string, key: string, text: string, c: Canon)
    requires Reads(text, c)
    ensures ReadsMember(EncodeString(nfc, key) + ":" + text, Entry(nfc(key), c))
  {
    forall rest: string | Terminated(rest)
      ensures ReadMember(EncodeString(nfc, key) + ":" + text + rest) == Ok(Entry(nfc(key), c), rest)
    {
      MemberReadsBefore(nfc, key, text, c, rest);
    }
  }

  lemma ReadLastMember(text: string, m: Entry<Canon>, rest: string)
    requires ReadsMember(text, m)
    ensures ReadMembers(text + ("}" + rest)) == Ok([m], rest)
  {
    hide ReadMember;
    var tail := "}" + rest;
    assert Terminated(tail);
    assert ReadMember(text + tail) == Ok(m, tail);
    assert tail[1..] == rest;
  }

  lemma ReadMemberThen(text: string, m: Entry<Canon>, more: string, members: seq<Entry<Canon>>, rest: string)
    requires ReadsMember(text, m) && ReadMembers(more) == Ok(members, rest)
    ensures ReadMembers(text + ("," + more)) == Ok([m] + members, rest)
  {
    hide ReadMember;
    var tail := "," + more;
    assert Terminated(tail);
    assert ReadMember(text + tail) == Ok(m, tail);
    assert tail[1..] == more;
  }

  lemma {:induction false} ReadJoinedMembers(texts: seq<string>, members: seq<Entry<Canon>>, rest: string)
    requires |texts| == |members| > 0
    requires forall i :: 0 <= i < |texts| ==> ReadsMember(texts[i], members[i])
    ensures ReadMembers(Comma(texts) + "}" + rest) == Ok(members, rest)
  {
    hide ReadMembers, ReadsMember;
    if |texts| == 1 {
      ReadLastMember(texts[0], members[0], rest);
      assert Comma(texts) + "}" + rest == texts[0] + ("}" + rest);
      assert members == [members[0]];
    } else {
      ReadJoinedMembers(texts[1..], members[1..], rest);
      var more := Comma(texts[1..]) + "}" + rest;
      ReadMemberThen(texts[0], members[0], more, members[1..], rest);
      assert Comma(texts) + "}" + rest == texts[0] + ("," + more);
      assert members == [members[0]] + members[1..];
    }
  }

  /** The text of one member, what it denotes, and the two together. */
  datatype Reading = Reading(text: string, canon: Canon)

  function Readings(nfc: string -> string, members: seq<Entry<Json>>): (r: seq<Entry<Reading>>)
    requires forall m :: m in members ==> Representable(m.value)
    ensures |r| == |members|
  {
    if members == [] then []
    else
      [Entry(members[0].key, Reading(Text(nfc, members[0].value), Denote(nfc, members[0].value)))]
      + Readings(nfc, members[1..])
  }

  function TextOf(e: Entry<Reading>): Entry<string> {
    Entry(e.key, e.value.text)
  }

  function CanonOf(e: Entry<Reading>): Entry<Canon> {
    Entry(e.key, e.value.canon)
  }

  lemma {:induction false} ReadingsProject(nfc: string -> string, members: seq<Entry<Json>>)
    requires forall m :: m in members ==> Representable(m.value)
    ensures Map(TextOf, Readings(nfc, members)) == TextEntries(nfc, members)
    ensures Map(CanonOf, Readings(nfc, members)) == DenoteEntries(nfc, members)
  {
    hide Text, Denote, Representable;
    if members != [] {
      ReadingsProject(nfc, members[1..]);
      MapCons(TextOf, Entry(members[0].key, Reading(Text(nfc, members[0].value), Denote(nfc, members[0].value))),
        Readings(nfc, members[1..]));
      MapCons(CanonOf, Entry(members[0].key, Reading(Text(nfc, members[0].value), Denote(nfc, members[0].value))),
        Readings(nfc, members[1..]));
    }
  }

  /** The encoder's member texts and the denoted members are two views of one sorted sequence. */
  lemma SortedReadings(nfc: string -> string, members: seq<Entry<Json>>)
    requires forall m :: m in members ==> Representable(m.value)
    ensures var sorted := Sort(Readings(nfc, members), KeyUnits());
      && Sort(TextEntries(nfc, members), KeyUnits()) == Map(TextOf, sorted)
      && Sort(DenoteEntries(nfc, members), KeyUnits()) == Map(CanonOf, sorted)
  {
    ReadingsProject(nfc, members);
    SortMap(TextOf, Readings(nfc, members), KeyUnits(), KeyUnits());
    SortMap(CanonOf, Readings(nfc, members), KeyUnits(), KeyUnits());
  }

  ghost predicate AllRead(readings: seq<Entry<Reading>>) {
    forall e :: e in readings ==> Reads(e.value.text, e.value.canon)
  }

  lemma WordReads(word: string, c: Canon)
    requires (word == "null" && c == CNull) || (word == "true" && c == CBool(true))
      || (word == "false" && c == CBool(false))
    ensures Reads(word, c)
  {
    forall rest: string | Terminated(rest) ensures ReadValue(word + rest) == Ok(c, rest) {
      var s := word + rest;
      assert s[..|word|] == word && s[|word|..] == rest;
      assert word != "null" ==> s[..4][0] != 'n';
      assert word == "false" ==> s[..4][0] != 't';
    }
  }

  lemma StringReads(nfc: string -> string, t: string)
    ensures Reads(EncodeString(nfc, t), CStr(nfc(t)))
  {
    forall rest: string | Terminated(rest) ensures ReadValue(EncodeString(nfc, t) + rest) == Ok(CStr(nfc(t)), rest) {
      var chars := Escape(nfc(t)) + "\"" + rest;
      assert EncodeString(nfc, t) + rest == "\"" + chars;
      ReadEscaped(nfc(t), rest);
      QuoteStart(chars, nfc(t), rest);
    }
  }

  lemma QuoteStart(chars: string, t: string, rest: string)
    requires ReadChars(chars) == Ok(t, rest)
    ensures ReadValue("\"" + chars) == Ok(CStr(t), rest)
  {
    hide ReadChars;
    OtherStart("\"" + chars);
    assert ("\"" + chars)[1..] == chars;
  }

  lemma NumberReads(negative: bool, t: string)
    requires ParseNumber(t).Some?
    ensures Reads((if negative then "-" else "") + t, CNumber(NumberOf(negative, ParseNumber(t).value), IsWide(t)))
  {
    hide ReadValue, ParseNumber, NumberOf, IsWide;
    forall rest: string | Terminated(rest)
      ensures ReadValue((if negative then "-" else "") + t + rest) ==
        Ok(CNumber(NumberOf(negative, ParseNumber(t).value), IsWide(t)), rest)
    {
      ReadNumberText(negative, t, rest);
    }
  }

  lemma IntegerReads(n: int)
    ensures Reads(EncodeInt(n), CNumber(NumberOf(n < 0, IntegerParts(n)), IsWide(IntegerParts(n).integer)))
  {
    var t := DecText(if n < 0 then -n else n);
    ParseInteger(t, "");
    assert t + "" == t;
    NumberReads(n < 0, t);
    assert (if n < 0 then "-" else "") + t == EncodeInt(n);
  }

  lemma ZeroReads()
    ensures Reads("0", CNumber(NUMBER_ZERO, false))
  {
    IntegerReads(0);
    DecTextValue(0);
    SignificantZeroText();
  }

  lemma SignificantZeroText()
    ensures TextValue(Parts("0", "", 0)) == 0.0
  {
    assert "0" + "" == "0" && "0"[..0] == "";
    assert NatOf("0") == 0;
  }

  lemma FloatReads(negative: bool, text: DecimalText)
    ensures Reads(EncodeFloat(negative, text), CNumber(NumberOf(negative, ParseNumber(text).value), false))
  {
    var p := ParseNumber(text).value;
    if TextValue(p) == 0.0 {
      ZeroReads();
    } else {
      SignificantValue(p);
      var n := Significant(p);
      FormatRoundTrip(n);
      NumberReads(negative, FormatDigits(n));
      FormattedNumber(negative, n);
      FormattedNarrow(n);
    }
  }

  /** The formatter never writes more than twenty-one digits and nothing else. */
  lemma FormattedNarrow(n: Scientific)
    requires Normal(n)
    ensures !IsWide(FormatDigits(n))
  {
    hide DecText;
    var k, point := |n.digits|, n.point;
    if k <= point <= 21 {
    } else if 0 < point <= 21 {
      assert FormatDigits(n)[point] == '.';
    } else if -6 < point <= 0 {
      assert FormatDigits(n)[1] == '.';
    } else {
      assert FormatDigits(n)[1] == if k == 1 then 'e' else '.';
    }
  }

  lemma FormattedNumber(negative: bool, n: Scientific)
    requires Normal(n) && ParseNumber(FormatDigits(n)).Some?
    requires ShortestDigitsAndPoint(FormatDigits(n)) == n
    ensures NumberOf(negative, ParseNumber(FormatDigits(n)).value) == Number(negative, n)
  {
    var q := ParseNumber(FormatDigits(n)).value;
    SignificantValue(q);
    NatOfPositive(n.digits);
    PositiveValue(NatOf(n.digits), n.point - |n.digits|);
  }

  lemma BracketStart(body: string, items: seq<Canon>, rest: string)
    requires body != "" && body[0] != ']' && ReadItems(body) == Ok(items, rest)
    ensures ReadValue("[" + body) == Ok(CArr(items), rest)
  {
    hide ReadItems;
    OtherStart("[" + body);
    assert ("[" + body)[1..] == body;
  }

  lemma EmptyArray(rest: string)
    ensures ReadValue("[]" + rest) == Ok(CArr([]), rest)
  {
    OtherStart("[]" + rest);
    assert ("[]" + rest)[2..] == rest;
  }

  lemma ArrayReads(texts: seq<string>, items: seq<Canon>)
    requires |texts| == |items|
    requires forall i :: 0 <= i < |texts| ==> Reads(texts[i], items[i])
    ensures Reads("[" + Comma(texts) + "]", CArr(items))
  {
    hide ReadItems, ReadValue;
    if texts != [] {
      ReadsStart(texts[0], items[0]);
    }
    forall rest: string | Terminated(rest) ensures ReadValue("[" + Comma(texts) + "]" + rest) == Ok(CArr(items), rest) {
      var body := Comma(texts) + "]" + rest;
      assert "[" + Comma(texts) + "]" + rest == "[" + body;
      if texts == [] {
        EmptyArray(rest);
        assert "[" + body == "[]" + rest;
      } else {
        ReadJoined(texts, items, rest);
        assert body[0] == texts[0][0];
        BracketStart(body, items, rest);
      }
    }
  }

  lemma BraceStart(body: string, members: seq<Entry<Canon>>, rest: string)
    requires body != "" && body[0] != '}' && ReadMembers(body) == Ok(members, rest)
    ensures ReadValue("{" + body) == Ok(CObj(members), rest)
  {
    hide ReadMembers;
    OtherStart("{" + body);
    assert ("{" + body)[1..] == body;
  }

  lemma EmptyObject(rest: string)
    ensures ReadValue("{}" + rest) == Ok(CObj([]), rest)
  {
    OtherStart("{}" + rest);
    assert ("{}" + rest)[2..] == rest;
  }

  lemma ObjectReads(texts: seq<string>, members: seq<Entry<Canon>>)
    requires |texts| == |members|
    requires forall i :: 0 <= i < |texts| ==> ReadsMember(texts[i], members[i])
    ensures Reads("{" + Comma(texts) + "}", CObj(members))
  {
    hide ReadMembers, ReadValue, ReadsMember;
    if texts != [] {
      MemberStart(texts[0], members[0]);
    }
    forall rest: string | Terminated(rest) ensures ReadValue("{" + Comma(texts) + "}" + rest) ==
      Ok(CObj(members), rest) {
      var body := Comma(texts) + "}" + rest;
      assert "{" + Comma(texts) + "}" + rest == "{" + body;
      if texts == [] {
        EmptyObject(rest);
        assert "{" + body == "{}" + rest;
      } else {
        ReadJoinedMembers(texts, members, rest);
        assert body[0] == texts[0][0];
        BraceStart(body, members, rest);
      }
    }
  }

  lemma MemberStart(text: string, m: Entry<Canon>)
    requires ReadsMember(text, m)
    ensures text != "" && text[0] == '\"'
  {
    assert Terminated("") && text + "" == text;
    assert ReadMember(text) == Ok(m, "");
  }

  // ----- the round trip

  lemma {:induction false} TextReads(nfc: string -> string, v: Json)
    requires Representable(v)
    ensures Reads(Text(nfc, v), Denote(nfc, v))
    decreases v, 1
  {
    hide Reads, EncodeString, EncodeFloat, EncodeInt, NumberOf, IsWide;
    match v
    case Null => WordReads("null", CNull);
    case Bool(b) => WordReads(if b then "true" else "false", CBool(b));
    case Int(n) => IntegerReads(n);
    case Float(f) => FloatReads(f.negative, f.text);
    case Str(s) => StringReads(nfc, s);
    case Arr(items) =>
      ItemsRead(nfc, items);
      ArrayReads(Texts(nfc, items), DenoteItems(nfc, items));
    case Obj(members) =>
      MembersRead(nfc, members);
      SortedObjectReads(nfc, members);
  }

  lemma {:induction false} ItemsRead(nfc: string -> string, items: seq<Json>)
    requires forall x :: x in items ==> Representable(x)
    ensures forall i :: 0 <= i < |items| ==> Reads(Texts(nfc, items)[i], DenoteItems(nfc, items)[i])
    decreases items, 0
  {
    hide Reads;
    if items != [] {
      TextReads(nfc, items[0]);
      ItemsRead(nfc, items[1..]);
    }
  }

  lemma {:induction false} MembersRead(nfc: string -> string, members: seq<Entry<Json>>)
    requires forall m :: m in members ==> Representable(m.value)
    ensures AllRead(Readings(nfc, members))
    decreases members, 0
  {
    hide Reads;
    if members != [] {
      TextReads(nfc, members[0].value);
      MembersRead(nfc, members[1..]);
    }
  }

  lemma SortedObjectReads(nfc: string -> string, members: seq<Entry<Json>>)
    requires forall m :: m in members ==> Representable(m.value)
    requires AllRead(Readings(nfc, members))
    ensures Reads(Text(nfc, Obj(members)), Denote(nfc, Obj(members)))
  {
    TextObject(nfc, members);
    hide Reads, ReadsMember, EncodeString, Text, Denote, TextEntries, DenoteEntries, Readings, Sort, Representable;
    var sorted := Sort(Readings(nfc, members), KeyUnits());
    SortedReadings(nfc, members);
    SortMembers(Readings(nfc, members), KeyUnits());
    var texts := Map(Member(nfc), Map(TextOf, sorted));
    var canons := Map(Normalized(nfc), Map(CanonOf, sorted));
    forall i | 0 <= i < |texts| ensures ReadsMember(texts[i], canons[i]) {
      assert sorted[i] in Readings(nfc, members);
      MemberReads(nfc, sorted[i].key, sorted[i].value.text, sorted[i].value.canon);
    }
    ObjectReads(texts, canons);
  }

  /** Reading the canonical text of a value returns what the value denotes. */
  lemma RoundTrip(nfc: string -> string, v: Json)
    requires Representable(v)
    ensures Read(Text(nfc, v)) == Some(Denote(nfc, v))
  {
    TextReads(nfc, v);
    var t := Text(nfc, v);
    assert Terminated("") && t + "" == t;
  }

  /** Equal canonical texts denote the same document. */
  lemma TextIdentifies(nfc: string -> string, v: Json, w: Json)
    requires Representable(v) && Representable(w) && Text(nfc, v) == Text(nfc, w)
    ensures Denote(nfc, v) == Denote(nfc, w)
  {
    RoundTrip(nfc, v);
    RoundTrip(nfc, w);
  }
}
