/**
RFC 8785 canonical JSON: the encoder, the value a document denotes up to numeric equality
and Unicode normalization, and a reader.

Unicode normalization to NFC enters as the parameter `nfc`.
*/
module Canonical {
  import opened Ordering
  import opened StableSort
  import opened Decimal
  import opened Utf16

  /** The shape of `repr` of a non-negative finite float. */
  type DecimalText = t: string | ParseNumber(t).Some? witness "0"

  /** A float: its sign and Python's `repr` of its magnitude. */
  datatype PyFloat = NaN | Infinity(negative: bool) | Finite(negative: bool, text: DecimalText)

  datatype Entry<T> = Entry(key: string, value: T)

  datatype Json =
    | Null
    | Bool(b: bool)
    | Int(n: int)
    | Float(f: PyFloat)
    | Str(s: string)
    | Arr(items: seq<Json>)
    | Obj(members: seq<Entry<Json>>)

  /** No NaN or infinity anywhere; the encoder raises otherwise. */
  predicate Representable(v: Json) {
    match v
    case Float(f) => f.Finite?
    case Arr(items) => forall x :: x in items ==> Representable(x)
    case Obj(members) => forall m :: m in members ==> Representable(m.value)
    case _ => true
  }

  // ----- encoding

  function Hex(d: nat): char
    requires d < 16
  {
    if d < 10 then '0' + d as char else 'a' + (d - 10) as char
  }

  function EscapeChar(c: char): string {
    if c == '\"' then "\\\""
    else if c == '\\' then "\\\\"
    else if c as int == 8 then "\\b"
    else if c as int == 12 then "\\f"
    else if c == '\n' then "\\n"
    else if c == '\r' then "\\r"
    else if c == '\t' then "\\t"
    else if c < ' ' then "\\u00" + [Hex(c as int / 16), Hex(c as int % 16)]
    else [c]
  }

  function Escape(s: string): string {
    if s == "" then "" else EscapeChar(s[0]) + Escape(s[1..])
  }

  function EncodeString(nfc: string -> string, s: string): string {
    "\"" + Escape(nfc(s)) + "\""
  }

  function EncodeInt(n: int): string {
    if n < 0 then "-" + DecText(-n) else DecText(n)
  }

  /** `_encode_float` on a finite float. */
  function EncodeFloat(negative: bool, text: DecimalText): string {
    if TextValue(ParseNumber(text).value) == 0.0 then "0"
    else
      SignificantValue(ParseNumber(text).value);
      (if negative then "-" else "") + FormatDigits(ShortestDigitsAndPoint(text))
  }

  function Comma(parts: seq<string>): string {
    if parts == [] then "" else if |parts| == 1 then parts[0] else parts[0] + "," + Comma(parts[1..])
  }

  function KeyUnits<T>(): Entry<T> -> Rank {
    (e: Entry<T>) => Units(e.key)
  }

  function Member(nfc: string -> string): Entry<string> -> string {
    (e: Entry<string>) => EncodeString(nfc, e.key) + ":" + e.value
  }

  /** `_encode`, on values without NaN or infinity. */
  function Text(nfc: string -> string, v: Json): string
    requires Representable(v)
  {
    match v
    case Null => "null"
    case Bool(b) => if b then "true" else "false"
    case Int(n) => EncodeInt(n)
    case Float(f) => EncodeFloat(f.negative, f.text)
    case Str(s) => EncodeString(nfc, s)
    case Arr(items) => "[" + Comma(Texts(nfc, items)) + "]"
    case Obj(members) => "{" + Comma(Map(Member(nfc), Sort(TextEntries(nfc, members), KeyUnits()))) + "}"
  }

  function Texts(nfc: string -> string, items: seq<Json>): (r: seq<string>)
    requires forall x :: x in items ==> Representable(x)
    ensures |r| == |items|
  {
    if items == [] then [] else [Text(nfc, items[0])] + Texts(nfc, items[1..])
  }

  function TextEntries(nfc: string -> string, members: seq<Entry<Json>>): (r: seq<Entry<string>>)
    requires forall m :: m in members ==> Representable(m.value)
    ensures |r| == |members|
  {
    if members == [] then []
    else [Entry(members[0].key, Text(nfc, members[0].value))] + TextEntries(nfc, members[1..])
  }

  /** `canonicalize`: the canonical text, or nothing where the encoder raises. */
  function Canonicalize(nfc: string -> string, v: Json): Option<string> {
    if Representable(v) then Some(Text(nfc, v)) else None
  }

  // ----- what a document denotes

  /** An exact decimal number; zero has no sign. */
  datatype Number = Number(negative: bool, magnitude: Scientific)

  const NUMBER_ZERO := Number(false, ZERO)

  /** More than twenty-one digits and nothing else: only integers are written so. */
  predicate IsWide(text: string) {
    |text| > 21 && IsDigits(text)
  }

  /**
  A document up to numeric equality of ints and floats and up to `nfc`, members in encoding order.
  An integer too wide to be written like the float of the same value is marked.
  */
  datatype Canon =
    | CNull
    | CBool(b: bool)
    | CNumber(n: Number, wide: bool)
    | CStr(s: string)
    | CArr(items: seq<Canon>)
    | CObj(members: seq<Entry<Canon>>)

  function NumberOf(negative: bool, p: Parts): Number
    requires IsParts(p)
  {
    if TextValue(p) == 0.0 then NUMBER_ZERO else Number(negative, Significant(p))
  }

  function IntegerParts(n: int): (p: Parts)
    ensures IsParts(p)
  {
    Parts(DecText(if n < 0 then -n else n), "", 0)
  }

  function Normalized(nfc: string -> string): Entry<Canon> -> Entry<Canon> {
    (e: Entry<Canon>) => Entry(nfc(e.key), e.value)
  }

  function Denote(nfc: string -> string, v: Json): Canon
    requires Representable(v)
  {
    match v
    case Null => CNull
    case Bool(b) => CBool(b)
    case Int(n) => CNumber(NumberOf(n < 0, IntegerParts(n)), IsWide(IntegerParts(n).integer))
    case Float(f) => CNumber(NumberOf(f.negative, ParseNumber(f.text).value), false)
    case Str(s) => CStr(nfc(s))
    case Arr(items) => CArr(DenoteItems(nfc, items))
    case Obj(members) => CObj(Map(Normalized(nfc), Sort(DenoteEntries(nfc, members), KeyUnits())))
  }

  function DenoteItems(nfc: string -> string, items: seq<Json>): (r: seq<Canon>)
    requires forall x :: x in items ==> Representable(x)
    ensures |r| == |items|
  {
    if items == [] then [] else [Denote(nfc, items[0])] + DenoteItems(nfc, items[1..])
  }

  function DenoteEntries(nfc: string -> string, members: seq<Entry<Json>>): (r: seq<Entry<Canon>>)
    requires forall m :: m in members ==> Representable(m.value)
    ensures |r| == |members|
  {
    if members == [] then []
    else [Entry(members[0].key, Denote(nfc, members[0].value))] + DenoteEntries(nfc, members[1..])
  }

  lemma TextObject(nfc: string -> string, members: seq<Entry<Json>>)
    requires forall m :: m in members ==> Representable(m.value)
    ensures Representable(Obj(members))
    ensures Text(nfc, Obj(members)) == "{" + Comma(Map(Member(nfc), Sort(TextEntries(nfc, members), KeyUnits()))) + "}"
    ensures Denote(nfc, Obj(members)) == CObj(Map(Normalized(nfc), Sort(DenoteEntries(nfc, members), KeyUnits())))
  {
  }

  // ----- reading

  datatype Parsed<T> = Fail | Ok(value: T, rest: string)

  function HexValue(c: char): Option<nat> {
    if '0' <= c <= '9' then Some(c as int - '0' as int)
    else if 'a' <= c <= 'f' then Some(c as int - 'a' as int + 10)
    else None
  }

  /** The character an escape names, and what follows it; `s` starts after the backslash. */
  function ReadEscape(s: string): (r: Parsed<char>)
    ensures r.Ok? ==> |r.rest| < |s|
  {
    if s == "" then Fail
    else if s[0] == '\"' then Ok('\"', s[1..])
    else if s[0] == '\\' then Ok('\\', s[1..])
    else if s[0] == 'b' then Ok(8 as char, s[1..])
    else if s[0] == 'f' then Ok(12 as char, s[1..])
    else if s[0] == 'n' then Ok('\n', s[1..])
    else if s[0] == 'r' then Ok('\r', s[1..])
    else if s[0] == 't' then Ok('\t', s[1..])
    else if s[0] == 'u' && |s| >= 5 && s[1] == '0' && s[2] == '0' && HexValue(s[3]).Some? && HexValue(s[4]).Some? then
      Ok((16 * HexValue(s[3]).value + HexValue(s[4]).value) as char, s[5..])
    else Fail
  }

  /** Characters up to the closing quote. */
  function ReadChars(s: string): (r: Parsed<string>)
    ensures r.Ok? ==> |r.rest| < |s|
    decreases |s|
  {
    if s == "" || (s[0] < ' ') then Fail
    else if s[0] == '\"' then Ok("", s[1..])
    else if s[0] == '\\' then
      match ReadEscape(s[1..])
      case Fail => Fail
      case Ok(c, rest) => Prepend(c, ReadChars(rest))
    else Prepend(s[0], ReadChars(s[1..]))
  }

  function Prepend(c: char, r: Parsed<string>): Parsed<string> {
    match r
    case Fail => Fail
    case Ok(t, rest) => Ok([c] + t, rest)
  }

  predicate Delimiter(c: char) {
    c == ',' || c == ']' || c == '}'
  }

  function NumberRun(s: string): (n: nat)
    ensures n <= |s|
  {
    if s == "" || Delimiter(s[0]) then 0 else 1 + NumberRun(s[1..])
  }

  function ReadMagnitude(negative: bool, s: string): (r: Parsed<Canon>)
    ensures r.Ok? ==> |r.rest| < |s|
  {
    var n := NumberRun(s);
    match ParseNumber(s[..n])
    case None => Fail
    case Some(p) => if n == 0 then Fail else Ok(CNumber(NumberOf(negative, p), IsWide(s[..n])), s[n..])
  }

  predicate StartsWith(s: string, word: string) {
    |word| <= |s| && s[..|word|] == word
  }

  function ReadValue(s: string): (r: Parsed<Canon>)
    ensures r.Ok? ==> |r.rest| < |s|
    decreases |s|, 0
  {
    if s == "" then Fail
    else if StartsWith(s, "null") then Ok(CNull, s[4..])
    else if StartsWith(s, "true") then Ok(CBool(true), s[4..])
    else if StartsWith(s, "false") then Ok(CBool(false), s[5..])
    else if s[0] == '\"' then
      match ReadChars(s[1..])
      case Fail => Fail
      case Ok(t, rest) => Ok(CStr(t), rest)
    else if s[0] == '[' then
      if |s| > 1 && s[1] == ']' then Ok(CArr([]), s[2..])
      else
        match ReadItems(s[1..])
        case Fail => Fail
        case Ok(items, rest) => Ok(CArr(items), rest)
    else if s[0] == '{' then
      if |s| > 1 && s[1] == '}' then Ok(CObj([]), s[2..])
      else
        match ReadMembers(s[1..])
        case Fail => Fail
        case Ok(members, rest) => Ok(CObj(members), rest)
    else if s[0] == '-' then ReadMagnitude(true, s[1..])
    else ReadMagnitude(false, s)
  }

  /** One value, then either a comma and more or the closing bracket. */
  function ReadItems(s: string): (r: Parsed<seq<Canon>>)
    ensures r.Ok? ==> |r.rest| < |s|
    decreases |s|, 1
  {
    match ReadValue(s)
    case Fail => Fail
    case Ok(c, rest) =>
      if rest != "" && rest[0] == ']' then Ok([c], rest[1..])
      else if rest != "" && rest[0] == ',' then
        match ReadItems(rest[1..])
        case Fail => Fail
        case Ok(more, rest') => Ok([c] + more, rest')
      else Fail
  }

  function ReadMember(s: string): (r: Parsed<Entry<Canon>>)
    ensures r.Ok? ==> |r.rest| < |s|
    decreases |s|, 0
  {
    if s == "" || s[0] != '\"' then Fail
    else
      match ReadChars(s[1..])
      case Fail => Fail
      case Ok(key, rest) =>
        if rest == "" || rest[0] != ':' then Fail
        else
          match ReadValue(rest[1..])
          case Fail => Fail
          case Ok(c, rest') => Ok(Entry(key, c), rest')
  }

  function ReadMembers(s: string): (r: Parsed<seq<Entry<Canon>>>)
    ensures r.Ok? ==> |r.rest| < |s|
    decreases |s|, 1
  {
    match ReadMember(s)
    case Fail => Fail
    case Ok(m, rest) =>
      if rest != "" && rest[0] == '}' then Ok([m], rest[1..])
      else if rest != "" && rest[0] == ',' then
        match ReadMembers(rest[1..])
        case Fail => Fail
        case Ok(more, rest') => Ok([m] + more, rest')
      else Fail
  }

  /** A complete document. */
  function Read(t: string): Option<Canon> {
    match ReadValue(t)
    case Fail => None
    case Ok(c, rest) => if rest == "" then Some(c) else None
  }
}
