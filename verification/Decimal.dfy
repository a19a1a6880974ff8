/**
Decimal texts: their exact value, the significant digits and point position extracted from
them, and the ECMAScript rendering of digits and point.
*/
module Decimal {
  import opened Ordering

  predicate IsDigit(c: char) {
    '0' <= c <= '9'
  }

  predicate IsDigits(s: string) {
    forall i :: 0 <= i < |s| ==> IsDigit(s[i])
  }

  function DigitValue(c: char): nat
    requires IsDigit(c)
  {
    c as int - '0' as int
  }

  function DigitChar(d: nat): (c: char)
    requires d < 10
    ensures IsDigit(c) && DigitValue(c) == d
  {
    '0' + d as char
  }

  function Pow10(n: nat): (p: nat)
    ensures p > 0
  {
    if n == 0 then 1 else 10 * Pow10(n - 1)
  }

  /** The number a digit string denotes. */
  function NatOf(s: string): nat
    requires IsDigits(s)
  {
    if s == "" then 0 else 10 * NatOf(s[..|s| - 1]) + DigitValue(s[|s| - 1])
  }

  /** Python's `str(n)`. */
  function DecText(n: nat): (s: string)
    ensures IsDigits(s) && s != ""
  {
    if n < 10 then [DigitChar(n)] else DecText(n / 10) + [DigitChar(n % 10)]
  }

  function Zeros(n: nat): (s: string)
    ensures |s| == n && IsDigits(s) && forall i :: 0 <= i < n ==> s[i] == '0'
  {
    seq(n, _ => '0')
  }

  lemma {:induction false} DecTextValue(n: nat)
    ensures NatOf(DecText(n)) == n
    ensures n > 0 ==> DecText(n)[0] != '0'
    ensures n == 0 ==> DecText(n) == "0"
  {
    if n < 10 {
      assert [DigitChar(n)][..0] == "";
    } else {
      DecTextValue(n / 10);
      var t := DecText(n);
      assert t[..|t| - 1] == DecText(n / 10);
    }
  }

  lemma {:induction false} NatOfConcat(a: string, b: string)
    requires IsDigits(a) && IsDigits(b)
    ensures IsDigits(a + b)
    ensures NatOf(a + b) == NatOf(a) * Pow10(|b|) + NatOf(b)
  {
    if b == "" {
      assert a + b == a;
    } else {
      var b' := b[..|b| - 1];
      assert (a + b)[..|a + b| - 1] == a + b';
      NatOfConcat(a, b');
      TimesTen(NatOf(a), Pow10(|b'|));
    }
  }

  lemma TimesTen(n: nat, p: nat)
    ensures n * (10 * p) == 10 * (n * p)
  {
  }

  lemma {:induction false} NatOfZeros(n: nat)
    ensures NatOf(Zeros(n)) == 0
  {
    if n > 0 {
      assert Zeros(n)[..n - 1] == Zeros(n - 1);
      NatOfZeros(n - 1);
    }
  }

  lemma {:induction false} NatOfPositive(s: string)
    requires IsDigits(s) && s != "" && s[0] != '0'
    ensures NatOf(s) > 0
  {
    if |s| > 1 {
      NatOfPositive(s[..|s| - 1]);
    } else {
      assert s[..0] == "";
    }
  }

  /** Without leading zeros, the digits are determined by the number. */
  lemma {:induction false} NatOfInjective(a: string, b: string)
    requires IsDigits(a) && IsDigits(b) && a != "" && b != ""
    requires a[0] != '0' && b[0] != '0' && NatOf(a) == NatOf(b)
    ensures a == b
  {
    var a', b' := a[..|a| - 1], b[..|b| - 1];
    assert a == a' + [a[|a| - 1]] && b == b' + [b[|b| - 1]];
    assert NatOf(a) % 10 == DigitValue(a[|a| - 1]) && NatOf(b) % 10 == DigitValue(b[|b| - 1]);
    assert NatOf(a) / 10 == NatOf(a') && NatOf(b) / 10 == NatOf(b');
    if a' == "" || b' == "" {
      if a' != "" { NatOfPositive(a'); }
      if b' != "" { NatOfPositive(b'); }
    } else {
      NatOfInjective(a', b');
    }
  }

  // ----- number texts

  /** Integer part, fraction part and exponent of a decimal text. */
  datatype Parts = Parts(integer: string, fraction: string, exponent: int)

  predicate IsParts(p: Parts) {
    p.integer != "" && IsDigits(p.integer) && IsDigits(p.fraction)
  }

  function DigitRun(s: string): (n: nat)
    ensures n <= |s| && IsDigits(s[..n])
    ensures n < |s| ==> !IsDigit(s[n])
  {
    if s == "" || !IsDigit(s[0]) then 0
    else
      var n := 1 + DigitRun(s[1..]);
      assert s[..n] == [s[0]] + s[1..][..n - 1];
      n
  }

  /** `[+-]?\d+`, to the end of the text. */
  function ParseExponent(s: string): Option<int> {
    var signed := s != "" && (s[0] == '+' || s[0] == '-');
    var digits := if signed then s[1..] else s;
    if digits == "" || DigitRun(digits) != |digits| then None
    else
      assert digits[..|digits|] == digits;
      var n: int := NatOf(digits);
      Some(if signed && s[0] == '-' then -n else n)
  }

  /** `\d+(\.\d+)?([eE][+-]?\d+)?`, the shape of `repr` of a non-negative float and of a canonical number. */
  function ParseNumber(t: string): (r: Option<Parts>)
    ensures r.Some? ==> IsParts(r.value)
  {
    var i := DigitRun(t);
    if i == 0 then None
    else
      var rest := t[i..];
      if rest != "" && rest[0] == '.' then
        var j := DigitRun(rest[1..]);
        if j == 0 then None else ParseTail(t[..i], rest[1..][..j], rest[1..][j..])
      else ParseTail(t[..i], "", rest)
  }

  function ParseTail(integer: string, fraction: string, rest: string): (r: Option<Parts>)
    requires integer != "" && IsDigits(integer) && IsDigits(fraction)
    ensures r.Some? ==> IsParts(r.value)
  {
    if rest == "" then Some(Parts(integer, fraction, 0))
    else if rest[0] == 'e' || rest[0] == 'E' then
      match ParseExponent(rest[1..])
      case None => None
      case Some(e) => Some(Parts(integer, fraction, e))
    else None
  }

  lemma {:induction false} DigitRunConcat(a: string, b: string)
    requires IsDigits(a) && (b == "" || !IsDigit(b[0]))
    ensures DigitRun(a + b) == |a|
  {
    if a == "" {
      assert a + b == b;
    } else {
      assert (a + b)[1..] == a[1..] + b;
      DigitRunConcat(a[1..], b);
    }
  }

  lemma ParseInteger(a: string, b: string)
    requires a != "" && IsDigits(a) && (b == "" || b[0] == 'e')
    ensures ParseNumber(a + b) == ParseTail(a, "", b)
  {
    DigitRunConcat(a, b);
    assert (a + b)[..|a|] == a && (a + b)[|a|..] == b;
  }

  lemma ParsePoint(a: string, rest: string)
    requires a != "" && IsDigits(a) && rest != "" && rest[0] == '.'
    ensures ParseNumber(a + rest) ==
      var j := DigitRun(rest[1..]); if j == 0 then None else ParseTail(a, rest[1..][..j], rest[1..][j..])
  {
    DigitRunConcat(a, rest);
    assert (a + rest)[..|a|] == a && (a + rest)[|a|..] == rest;
  }

  lemma ParseFraction(a: string, f: string, b: string)
    requires a != "" && IsDigits(a) && f != "" && IsDigits(f) && (b == "" || b[0] == 'e')
    ensures ParseNumber(a + "." + f + b) == ParseTail(a, f, b)
  {
    hide ParseNumber;
    var rest := "." + f + b;
    assert a + "." + f + b == a + rest;
    assert rest[1..] == f + b;
    ParsePoint(a, rest);
    DigitRunConcat(f, b);
    assert (f + b)[..|f|] == f && (f + b)[|f|..] == b;
  }

  lemma ParseSigned(e: int)
    ensures ParseExponent((if e >= 0 then "+" else "-") + DecText(if e >= 0 then e else -e)) == Some(e)
  {
    var n := if e >= 0 then e else -e;
    var sign := if e >= 0 then "+" else "-";
    DecTextValue(n);
    DigitRunConcat(DecText(n), "");
    assert DecText(n) + "" == DecText(n);
    assert (sign + DecText(n))[1..] == DecText(n);
  }

  // ----- significant digits and point

  function LeadingZeros(s: string): (n: nat)
    ensures n <= |s| && (forall i :: 0 <= i < n ==> s[i] == '0')
    ensures n < |s| ==> s[n] != '0'
  {
    if s == "" || s[0] != '0' then 0 else 1 + LeadingZeros(s[1..])
  }

  function TrailingZeros(s: string): (n: nat)
    ensures n <= |s| && (forall i :: |s| - n <= i < |s| ==> s[i] == '0')
    ensures n < |s| ==> s[|s| - 1 - n] != '0'
  {
    if s == "" || s[|s| - 1] != '0' then 0 else 1 + TrailingZeros(s[..|s| - 1])
  }

  /** `s.lstrip("0")` */
  function StripLeading(s: string): string {
    s[LeadingZeros(s)..]
  }

  /** `s.rstrip("0")` */
  function StripTrailing(s: string): string {
    s[..|s| - TrailingZeros(s)]
  }

  /** Significant digits and the position of the decimal point after them. */
  datatype Scientific = Scientific(digits: string, point: int)

  function Significant(p: Parts): Scientific {
    var full := p.integer + p.fraction;
    var stripped := StripLeading(full);
    var significant := StripTrailing(stripped);
    Scientific(if significant == "" then "0" else significant,
               |p.integer| + p.exponent - (|full| - |stripped|))
  }

  /** `_shortest_digits_and_point`, from the decimal text of a non-negative number. */
  function ShortestDigitsAndPoint(text: string): Scientific
    requires ParseNumber(text).Some?
  {
    Significant(ParseNumber(text).value)
  }

  /** No zero at either end. */
  predicate Normal(n: Scientific) {
    IsDigits(n.digits) && n.digits != "" && n.digits[0] != '0' && n.digits[|n.digits| - 1] != '0'
  }

  const ZERO := Scientific("0", 0)

  function ExponentTail(e: int): string {
    "e" + (if e >= 0 then "+" else "-") + DecText(if e >= 0 then e else -e)
  }

  /** `_format_digits` */
  function FormatDigits(n: Scientific): string
    requires n.digits != ""
  {
    var k, digits, point := |n.digits|, n.digits, n.point;
    if k <= point <= 21 then digits + Zeros(point - k)
    else if 0 < point <= 21 then digits[..point] + "." + digits[point..]
    else if -6 < point <= 0 then "0." + Zeros(-point) + digits
    else
      (if k == 1 then digits else [digits[0]] + "." + digits[1..]) + ExponentTail(point - 1)
  }

  lemma LeadingZerosAre(s: string, n: nat)
    requires n < |s| && (forall i :: 0 <= i < n ==> s[i] == '0') && s[n] != '0'
    ensures LeadingZeros(s) == n
  {
  }

  lemma TrailingZerosAre(s: string, n: nat)
    requires n < |s| && (forall i :: |s| - n <= i < |s| ==> s[i] == '0') && s[|s| - 1 - n] != '0'
    ensures TrailingZeros(s) == n
  {
  }

  lemma StripPadded(zeros: nat, digits: string, more: nat)
    requires IsDigits(digits) && digits != "" && digits[0] != '0' && digits[|digits| - 1] != '0'
    ensures StripLeading(Zeros(zeros) + digits + Zeros(more)) == digits + Zeros(more)
    ensures StripTrailing(digits + Zeros(more)) == digits
  {
    var s, t := Zeros(zeros) + digits + Zeros(more), digits + Zeros(more);
    LeadingZerosAre(s, zeros);
    TrailingZerosAre(t, more);
    assert s[zeros..] == t && t[..|digits|] == digits;
  }

  lemma SignificantPadded(p: Parts, zeros: nat, digits: string, more: nat)
    requires p.integer + p.fraction == Zeros(zeros) + digits + Zeros(more)
    requires IsDigits(digits) && digits != "" && digits[0] != '0' && digits[|digits| - 1] != '0'
    ensures Significant(p) == Scientific(digits, |p.integer| + p.exponent - zeros)
  {
    StripPadded(zeros, digits, more);
  }

  /** All four rendering cases read back to the digits and point they came from. */
  lemma FormatRoundTrip(n: Scientific)
    requires Normal(n)
    ensures ParseNumber(FormatDigits(n)).Some?
    ensures ShortestDigitsAndPoint(FormatDigits(n)) == n
  {
    hide ParseNumber, Significant;
    var k, point := |n.digits|, n.point;
    if k <= point <= 21 {
      FormatPlain(n);
    } else if 0 < point <= 21 {
      FormatFraction(n);
    } else if -6 < point <= 0 {
      FormatSmall(n);
    } else {
      FormatExponent(n);
    }
  }

  lemma FormatFraction(n: Scientific)
    requires Normal(n) && 0 < n.point < |n.digits|
    ensures var integer, fraction := n.digits[..n.point], n.digits[n.point..];
      && ParseNumber(integer + "." + fraction) == Some(Parts(integer, fraction, 0))
      && Significant(Parts(integer, fraction, 0)) == n
  {
    hide ParseNumber;
    var integer, fraction := n.digits[..n.point], n.digits[n.point..];
    ParseFraction(integer, fraction, "");
    assert integer + "." + fraction + "" == integer + "." + fraction;
    assert integer + fraction == Zeros(0) + n.digits + Zeros(0);
    SignificantPadded(Parts(integer, fraction, 0), 0, n.digits, 0);
  }

  lemma FormatSmall(n: Scientific)
    requires Normal(n) && n.point <= 0
    ensures var fraction := Zeros(-n.point) + n.digits;
      && ParseNumber("0." + Zeros(-n.point) + n.digits) == Some(Parts("0", fraction, 0))
      && Significant(Parts("0", fraction, 0)) == n
  {
    hide ParseNumber;
    var fraction := Zeros(-n.point) + n.digits;
    ParseFraction("0", fraction, "");
    assert "0" + "." + fraction + "" == "0." + Zeros(-n.point) + n.digits;
    assert "0" + fraction == Zeros(1 - n.point) + n.digits + Zeros(0);
    SignificantPadded(Parts("0", fraction, 0), 1 - n.point, n.digits, 0);
  }

  lemma FormatPlain(n: Scientific)
    requires Normal(n) && |n.digits| <= n.point
    ensures ParseNumber(n.digits + Zeros(n.point - |n.digits|)) ==
      Some(Parts(n.digits + Zeros(n.point - |n.digits|), "", 0))
    ensures Significant(Parts(n.digits + Zeros(n.point - |n.digits|), "", 0)) == n
  {
    var t := n.digits + Zeros(n.point - |n.digits|);
    ParseInteger(t, "");
    assert t + "" == t;
    assert t == Zeros(0) + n.digits + Zeros(n.point - |n.digits|);
    SignificantPadded(Parts(t, "", 0), 0, n.digits, n.point - |n.digits|);
  }

  lemma FormatExponent(n: Scientific)
    requires Normal(n) && !(-6 < n.point <= 21)
    ensures ParseNumber(FormatDigits(n)) == Some(Parts([n.digits[0]], n.digits[1..], n.point - 1))
    ensures Significant(Parts([n.digits[0]], n.digits[1..], n.point - 1)) == n
  {
    hide ParseNumber, ParseExponent;
    var e := n.point - 1;
    var tail := ExponentTail(e);
    ExponentTailParses([n.digits[0]], n.digits[1..], e);
    if |n.digits| == 1 {
      ParseInteger(n.digits, tail);
      assert FormatDigits(n) == n.digits + tail;
      assert n.digits == [n.digits[0]] && n.digits[1..] == "";
    } else {
      ParseFraction([n.digits[0]], n.digits[1..], tail);
      assert FormatDigits(n) == [n.digits[0]] + "." + n.digits[1..] + tail;
    }
    assert [n.digits[0]] + n.digits[1..] == Zeros(0) + n.digits + Zeros(0);
    SignificantPadded(Parts([n.digits[0]], n.digits[1..], e), 0, n.digits, 0);
  }

  lemma ExponentTailParses(integer: string, fraction: string, e: int)
    requires integer != "" && IsDigits(integer) && IsDigits(fraction)
    ensures ParseTail(integer, fraction, ExponentTail(e)) == Some(Parts(integer, fraction, e))
  {
    ParseSigned(e);
    assert ExponentTail(e)[1..] == (if e >= 0 then "+" else "-") + DecText(if e >= 0 then e else -e);
  }

  // ----- exact values

  function TenTo(e: int): (r: real)
    ensures r > 0.0
    decreases if e >= 0 then e else -e
  {
    if e == 0 then 1.0
    else if e > 0 then 10.0 * TenTo(e - 1)
    else TenTo(e + 1) / 10.0
  }

  /** `n` times ten to the `e`. */
  function Value(n: nat, e: int): real {
    n as real * TenTo(e)
  }

  /** The exact value a decimal text denotes. */
  function TextValue(p: Parts): real
    requires IsParts(p)
  {
    assert IsDigits(p.integer + p.fraction);
    Value(NatOf(p.integer + p.fraction), p.exponent - |p.fraction|)
  }

  function ScientificValue(n: Scientific): real
    requires IsDigits(n.digits)
  {
    Value(NatOf(n.digits), n.point - |n.digits|)
  }

  lemma ShiftOne(m: nat, e: int)
    ensures Value(10 * m, e) == Value(m, e + 1)
  {
    var t := TenTo(e);
    assert TenTo(e + 1) == 10.0 * t;
    assert (10 * m) as real == 10.0 * m as real;
  }

  lemma {:induction false} ShiftValue(n: nat, k: nat, e: int)
    ensures Value(n * Pow10(k), e) == Value(n, e + k)
  {
    hide Value;
    if k > 0 {
      ShiftValue(n, k - 1, e + 1);
      TimesTen(n, Pow10(k - 1));
      ShiftOne(n * Pow10(k - 1), e);
    }
  }

  lemma StripLeadingValue(s: string)
    requires IsDigits(s)
    ensures IsDigits(StripLeading(s)) && NatOf(StripLeading(s)) == NatOf(s)
  {
    hide NatOf;
    var a := LeadingZeros(s);
    assert s == Zeros(a) + StripLeading(s);
    NatOfConcat(Zeros(a), StripLeading(s));
    NatOfZeros(a);
  }

  lemma StripTrailingValue(s: string)
    requires IsDigits(s)
    ensures IsDigits(StripTrailing(s)) && NatOf(s) == NatOf(StripTrailing(s)) * Pow10(|s| - |StripTrailing(s)|)
  {
    hide NatOf;
    var b := TrailingZeros(s);
    assert s == StripTrailing(s) + Zeros(b);
    NatOfConcat(StripTrailing(s), Zeros(b));
    NatOfZeros(b);
  }

  /** Extracting digits and point keeps the exact value, and leaves no zero at either end. */
  lemma SignificantValue(p: Parts)
    requires IsParts(p)
    ensures IsDigits(Significant(p).digits) && ScientificValue(Significant(p)) == TextValue(p)
    ensures if TextValue(p) == 0.0 then Significant(p).digits == "0" else Normal(Significant(p))
  {
    if StripTrailing(StripLeading(p.integer + p.fraction)) == "" {
      SignificantZero(p);
    } else {
      SignificantNonZero(p);
    }
  }

  lemma SignificantZero(p: Parts)
    requires IsParts(p) && StripTrailing(StripLeading(p.integer + p.fraction)) == ""
    ensures Significant(p).digits == "0" && ScientificValue(Significant(p)) == TextValue(p) == 0.0
  {
    var full := p.integer + p.fraction;
    var stripped := StripLeading(full);
    StripLeadingValue(full);
    StripTrailingValue(stripped);
    ZeroValue(|stripped|, p.exponent - |p.fraction|, Significant(p).point - 1);
  }

  lemma SignificantShape(p: Parts) returns (significant: string, k: nat)
    requires IsParts(p) && StripTrailing(StripLeading(p.integer + p.fraction)) != ""
    ensures Significant(p) == Scientific(significant, p.exponent - |p.fraction| + k + |significant|)
    ensures Normal(Significant(p))
    ensures NatOf(p.integer + p.fraction) == NatOf(significant) * Pow10(k)
  {
    var full := p.integer + p.fraction;
    var stripped := StripLeading(full);
    significant := StripTrailing(stripped);
    k := |stripped| - |significant|;
    StripLeadingValue(full);
    StripTrailingValue(stripped);
    hide NatOf, Pow10;
    assert significant[0] == stripped[0];
  }

  lemma SignificantNonZero(p: Parts)
    requires IsParts(p) && StripTrailing(StripLeading(p.integer + p.fraction)) != ""
    ensures Normal(Significant(p)) && ScientificValue(Significant(p)) == TextValue(p) != 0.0
  {
    hide *;
    var significant, k := SignificantShape(p);
    SignificantNonZeroValue(p, significant, k);
  }

  lemma SignificantNonZeroValue(p: Parts, significant: string, k: nat)
    requires IsParts(p) && Normal(Significant(p))
    requires Significant(p) == Scientific(significant, p.exponent - |p.fraction| + k + |significant|)
    requires NatOf(p.integer + p.fraction) == NatOf(significant) * Pow10(k)
    ensures ScientificValue(Significant(p)) == TextValue(p) != 0.0
  {
    hide NatOf, Pow10, Value, Significant;
    NatOfPositive(significant);
    ShiftValue(NatOf(significant), k, p.exponent - |p.fraction|);
    PositiveValue(NatOf(significant), p.exponent - |p.fraction| + k);
  }

  lemma PositiveValue(n: nat, e: int)
    requires n > 0
    ensures Value(n, e) > 0.0
  {
  }

  lemma ZeroValue(k: nat, e: int, e': int)
    ensures IsDigits("") && NatOf("") * Pow10(k) == 0 && NatOf("0") == 0
    ensures Value(0, e) == 0.0 && Value(0, e') == 0.0
  {
    assert "0"[..0] == "";
  }

  lemma CancelPower(m: nat, n: nat, e: int)
    requires Value(m, e) == Value(n, e)
    ensures m == n
  {
    var t := TenTo(e);
    assert (m as real - n as real) * t == 0.0;
  }

  lemma MultipleOfTen(n: nat, k: nat)
    requires k > 0
    ensures (n * Pow10(k)) % 10 == 0
  {
    TimesTen(n, Pow10(k - 1));
  }

  lemma NormalLastDigit(s: string)
    requires IsDigits(s) && s != "" && s[|s| - 1] != '0'
    ensures NatOf(s) % 10 != 0
  {
  }

  lemma NormalAligned(a: Scientific, b: Scientific)
    requires Normal(a) && Normal(b) && ScientificValue(a) == ScientificValue(b)
    requires a.point - |a.digits| >= b.point - |b.digits|
    ensures a == b
  {
    var k, eb := a.point - |a.digits| - (b.point - |b.digits|), b.point - |b.digits|;
    var m, n := NatOf(a.digits), NatOf(b.digits);
    hide Value, NatOf, Pow10;
    ShiftValue(m, k, eb);
    CancelPower(m * Pow10(k), n, eb);
    NormalLastDigit(b.digits);
    if k > 0 {
      MultipleOfTen(m, k);
      assert false;
    }
    PowZero(m);
    NatOfInjective(a.digits, b.digits);
  }

  lemma PowZero(m: nat)
    ensures m * Pow10(0) == m
  {
  }

  /** Normalized digits and point are determined by the value they denote. */
  lemma NormalUnique(a: Scientific, b: Scientific)
    requires Normal(a) && Normal(b) && ScientificValue(a) == ScientificValue(b)
    ensures a == b
  {
    if a.point - |a.digits| >= b.point - |b.digits| {
      NormalAligned(a, b);
    } else {
      NormalAligned(b, a);
    }
  }

  /** Two decimal texts render to the same canonical text exactly when they denote the same number. */
  lemma RenderingIdentifiesValue(s: string, t: string)
    requires ParseNumber(s).Some? && ParseNumber(t).Some?
    requires TextValue(ParseNumber(s).value) != 0.0 && TextValue(ParseNumber(t).value) != 0.0
    ensures FormatDigits(ShortestDigitsAndPoint(s)) == FormatDigits(ShortestDigitsAndPoint(t))
       <==> TextValue(ParseNumber(s).value) == TextValue(ParseNumber(t).value)
  {
    hide ParseNumber, FormatDigits, Significant, ScientificValue, TextValue;
    var p, q := ParseNumber(s).value, ParseNumber(t).value;
    SignificantValue(p);
    SignificantValue(q);
    FormatRoundTrip(Significant(p));
    FormatRoundTrip(Significant(q));
    if TextValue(p) == TextValue(q) {
      NormalUnique(Significant(p), Significant(q));
    }
  }
}
