/** The encoder's string and object loops, and the characters canonical text is made of. */
module CanonicalEncoder {
  import opened Ordering
  import opened StableSort
  import opened Decimal
  import opened Canonical
  import opened CanonicalOrder

  lemma {:induction false} EscapeSnoc(s: string, c: char)
    ensures Escape(s + [c]) == Escape(s) + EscapeChar(c)
  {
    hide EscapeChar;
    if s == "" {
      assert s + [c] == [c] && [c][1..] == "";
    } else {
      assert (s + [c])[1..] == s[1..] + [c];
      EscapeSnoc(s[1..], c);
    }
  }

  const CONTROL_ESCAPES: map<char, string> := map[
    '\"' := "\\\"", '\\' := "\\\\",
    8 as char := "\\b", 12 as char := "\\f", '\n' := "\\n", '\r' := "\\r", '\t' := "\\t"]

  /** How one character of a string is written. */
  method EncodeChar(c: char) returns (part: string)
    ensures part == EscapeChar(c)
  {
    if c in CONTROL_ESCAPES {
      part := CONTROL_ESCAPES[c];
    } else if c < ' ' {
      part := "\\u00" + [Hex(c as int / 16), Hex(c as int % 16)];
    } else {
      part := [c];
    }
  }

  /** `_encode_string` */
  method EncodeStringParts(nfc: string -> string, value: string) returns (text: string)
    ensures text == EncodeString(nfc, value)
  {
    hide EscapeChar;
    var normalized := nfc(value);
    text := "\"";
    for i := 0 to |normalized|
      invariant text == "\"" + Escape(normalized[..i])
    {
      var part := EncodeChar(normalized[i]);
      EscapeSnoc(normalized[..i], normalized[i]);
      assert normalized[..i + 1] == normalized[..i] + [normalized[i]];
      text := text + part;
    }
    assert normalized[..|normalized|] == normalized;
    text := text + "\"";
  }

  /** `_encode_object`: sort the keys, encode member by member, join; nothing where a member's encoding raises. */
  method EncodeObject(nfc: string -> string, members: seq<Entry<Json>>) returns (text: Option<string>)
    ensures text == Canonicalize(nfc, Obj(members))
  {
    var sorted := Sort(members, KeyUnits());
    SortMembers(members, KeyUnits());
    var parts := EncodeMembers(nfc, sorted);
    hide Text, Sort;
    if parts.None? {
      return None;
    }
    SortedTextEntries(nfc, members);
    TextObject(nfc, members);
    text := Some("{" + Comma(parts.value) + "}");
  }

  /** The loop of `_encode_object`. */
  method EncodeMembers(nfc: string -> string, members: seq<Entry<Json>>) returns (parts: Option<seq<string>>)
    ensures parts.Some? <==> forall m :: m in members ==> Representable(m.value)
    ensures parts.Some? ==> parts.value == Map(Member(nfc), Map(TextEntry(nfc), members))
  {
    hide Text, Representable, EncodeString;
    var done: seq<string> := [];
    for i := 0 to |members|
      invariant forall m :: m in members[..i] ==> Representable(m.value)
      invariant done == Map(Member(nfc), Map(TextEntry(nfc), members[..i]))
    {
      var name := EncodeStringParts(nfc, members[i].key);
      var value := Canonicalize(nfc, members[i].value);
      assert members[i] in members;
      if value.None? {
        return None;
      }
      assert members[..i + 1] == members[..i] + [members[i]];
      MapSnoc(TextEntry(nfc), members[..i], members[i]);
      MapSnoc(Member(nfc), Map(TextEntry(nfc), members[..i]), TextEntry(nfc)(members[i]));
      done := done + [name + ":" + value.value];
    }
    assert members[..|members|] == members;
    parts := Some(done);
  }

  // ----- no control characters

  predicate Printable(s: string) {
    forall i :: 0 <= i < |s| ==> s[i] >= ' '
  }

  lemma PrintableConcat(a: string, b: string)
    requires Printable(a) && Printable(b)
    ensures Printable(a + b)
  {
  }

  lemma {:induction false} EscapePrintable(s: string)
    ensures Printable(Escape(s))
  {
    if s != "" {
      EscapePrintable(s[1..]);
      PrintableConcat(EscapeChar(s[0]), Escape(s[1..]));
    }
  }

  lemma EncodeStringPrintable(nfc: string -> string, s: string)
    ensures Printable(EncodeString(nfc, s))
  {
    EscapePrintable(nfc(s));
  }

  lemma FormatPrintable(n: Scientific)
    requires Normal(n)
    ensures Printable(FormatDigits(n))
  {
    hide DecText;
    if -6 < n.point <= 21 {
    } else {
      PrintableConcat(if |n.digits| == 1 then n.digits else [n.digits[0]] + "." + n.digits[1..],
        ExponentTail(n.point - 1));
    }
  }

  lemma NumberPrintable(v: Json)
    requires Representable(v) && (v.Int? || v.Float?)
    ensures forall nfc: string -> string :: Printable(Text(nfc, v))
  {
    if v.Float? && TextValue(ParseNumber(v.f.text).value) != 0.0 {
      SignificantValue(ParseNumber(v.f.text).value);
      FormatPrintable(ShortestDigitsAndPoint(v.f.text));
    }
  }

  lemma {:induction false} CommaPrintable(parts: seq<string>)
    requires forall i :: 0 <= i < |parts| ==> Printable(parts[i])
    ensures Printable(Comma(parts))
  {
    if |parts| > 1 {
      CommaPrintable(parts[1..]);
      PrintableConcat(parts[0] + ",", Comma(parts[1..]));
    }
  }

  /** Canonical text holds no control character, so in particular no raw line break. */
  lemma {:induction false} TextPrintable(nfc: string -> string, v: Json)
    requires Representable(v)
    ensures Printable(Text(nfc, v))
    decreases v, 1
  {
    match v
    case Null =>
    case Bool(b) =>
    case Int(n) => NumberPrintable(v);
    case Float(f) => NumberPrintable(v);
    case Str(s) => EncodeStringPrintable(nfc, s);
    case Arr(items) =>
      TextsPrintable(nfc, items);
      CommaPrintable(Texts(nfc, items));
    case Obj(members) =>
      EntriesPrintable(nfc, members);
      ObjectPrintable(nfc, members);
  }

  lemma {:induction false} TextsPrintable(nfc: string -> string, items: seq<Json>)
    requires forall x :: x in items ==> Representable(x)
    ensures forall i :: 0 <= i < |items| ==> Printable(Texts(nfc, items)[i])
    decreases items, 0
  {
    if items != [] {
      TextPrintable(nfc, items[0]);
      TextsPrintable(nfc, items[1..]);
    }
  }

  lemma {:induction false} EntriesPrintable(nfc: string -> string, members: seq<Entry<Json>>)
    requires forall m :: m in members ==> Representable(m.value)
    ensures forall e :: e in TextEntries(nfc, members) ==> Printable(e.value)
    decreases members, 0
  {
    if members != [] {
      TextPrintable(nfc, members[0].value);
      EntriesPrintable(nfc, members[1..]);
    }
  }

  lemma MemberPrintable(nfc: string -> string, e: Entry<string>)
    requires Printable(e.value)
    ensures Printable(Member(nfc)(e))
  {
    hide EncodeString;
    EncodeStringPrintable(nfc, e.key);
    PrintableConcat(EncodeString(nfc, e.key), ":");
    PrintableConcat(EncodeString(nfc, e.key) + ":", e.value);
  }

  lemma ObjectPrintable(nfc: string -> string, members: seq<Entry<Json>>)
    requires forall m :: m in members ==> Representable(m.value)
    requires forall e :: e in TextEntries(nfc, members) ==> Printable(e.value)
    ensures Printable(Text(nfc, Obj(members)))
  {
    TextObject(nfc, members);
    hide Text, Denote, TextEntries, Sort, Representable, Printable, Comma, Member;
    var sorted := Sort(TextEntries(nfc, members), KeyUnits());
    SortMembers(TextEntries(nfc, members), KeyUnits());
    var parts := Map(Member(nfc), sorted);
    forall i | 0 <= i < |parts| ensures Printable(parts[i]) {
      assert sorted[i] in TextEntries(nfc, members);
      MemberPrintable(nfc, sorted[i]);
    }
    CommaPrintable(parts);
    BracedPrintable(Comma(parts));
  }

  lemma BracedPrintable(s: string)
    requires Printable(s)
    ensures Printable("{" + s + "}")
  {
  }
}
