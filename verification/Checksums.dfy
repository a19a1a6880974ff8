/** The Luhn and MOD 97 checks: which single errors they catch, exactly. */
module Checksums {
  import opened Ordering
  import opened Decimal

  // ----- Luhn

  type Digit = d: int | 0 <= d < 10

  /** A digit's contribution, counted from the right: every second one doubled, with nine cast out. */
  function Contribution(d: Digit, index: nat): nat {
    if index % 2 == 0 then d else if 2 * d > 9 then 2 * d - 9 else 2 * d
  }

  /** The contributions of the digits when the last one has the given index. */
  function LuhnTotal(digits: seq<Digit>, index: nat): nat {
    if digits == [] then 0
    else Contribution(digits[|digits| - 1], index) + LuhnTotal(digits[..|digits| - 1], index + 1)
  }

  /** `_luhn_valid` */
  method LuhnValid(digits: seq<Digit>) returns (valid: bool)
    ensures valid <==> LuhnTotal(digits, 0) % 10 == 0
  {
    var total := 0;
    assert digits[..|digits|] == digits;
    for index := 0 to |digits|
      invariant LuhnTotal(digits, 0) == total + LuhnTotal(digits[..|digits| - index], index)
    {
      var value: int := digits[|digits| - 1 - index];
      assert digits[..|digits| - index][..|digits| - index - 1] == digits[..|digits| - index - 1];
      if index % 2 == 1 {
        value := value * 2;
        if value > 9 {
          value := value - 9;
        }
      }
      total := total + value;
    }
    return total % 10 == 0;
  }

  lemma {:induction false} LuhnSplit(a: seq<Digit>, b: seq<Digit>, index: nat)
    ensures LuhnTotal(a + b, index) == LuhnTotal(b, index) + LuhnTotal(a, index + |b|)
    decreases |b|
  {
    if b == [] {
      assert a + b == a;
    } else {
      var init := b[..|b| - 1];
      assert (a + b)[..|a + b| - 1] == a + init;
      LuhnSplit(a, init, index + 1);
    }
  }

  lemma LuhnOne(d: Digit, index: nat)
    ensures LuhnTotal([d], index) == Contribution(d, index)
  {
    assert [d][..0] == [] && LuhnTotal([], index + 1) == 0;
  }

  lemma LuhnAround(a: seq<Digit>, d: Digit, b: seq<Digit>)
    ensures LuhnTotal(a + [d] + b, 0) == LuhnTotal(b, 0) + Contribution(d, |b|) + LuhnTotal(a, |b| + 1)
  {
    hide LuhnTotal, Contribution;
    LuhnSplit(a + [d], b, 0);
    LuhnSplit(a, [d], |b|);
    LuhnOne(d, |b|);
  }

  /** Changing one digit always changes the check: a valid string becomes invalid. */
  lemma LuhnCatchesChange(a: seq<Digit>, d: Digit, e: Digit, b: seq<Digit>)
    ensures LuhnTotal(a + [d] + b, 0) % 10 == LuhnTotal(a + [e] + b, 0) % 10 <==> d == e
  {
    LuhnAround(a, d, b);
    LuhnAround(a, e, b);
    hide LuhnTotal;
    ContributionsDiffer(d, e, |b|, LuhnTotal(b, 0) + LuhnTotal(a, |b| + 1));
  }

  lemma ContributionsDiffer(d: Digit, e: Digit, index: nat, rest: nat)
    ensures (rest + Contribution(d, index)) % 10 == (rest + Contribution(e, index)) % 10 <==> d == e
  {
  }

  /** Swapping two neighbours changes the check unless they are equal or are 0 and 9. */
  lemma LuhnCatchesSwap(a: seq<Digit>, d: Digit, e: Digit, b: seq<Digit>)
    ensures LuhnTotal(a + [d] + ([e] + b), 0) % 10 == LuhnTotal(a + [e] + ([d] + b), 0) % 10
      <==> d == e || (d == 0 && e == 9) || (d == 9 && e == 0)
  {
    LuhnPair(a, d, e, b);
    LuhnPair(a, e, d, b);
    hide LuhnTotal;
    SwapDiffers(d, e, |b|, LuhnTotal(b, 0) + LuhnTotal(a, |b| + 2));
  }

  lemma LuhnPair(a: seq<Digit>, d: Digit, e: Digit, b: seq<Digit>)
    ensures LuhnTotal(a + [d] + ([e] + b), 0) ==
      LuhnTotal(b, 0) + LuhnTotal(a, |b| + 2) + Contribution(e, |b|) + Contribution(d, |b| + 1)
  {
    hide LuhnTotal, Contribution;
    LuhnAround(a, d, [e] + b);
    LuhnSplit([e], b, 0);
    LuhnOne(e, |b|);
  }

  /** How much doubling adds to a digit's contribution. */
  function Gain(d: Digit): int {
    if d < 5 then d else d - 9
  }

  lemma CloseMod(x: int, y: int)
    requires -10 < x - y < 10
    ensures x % 10 == y % 10 <==> x == y
  {
  }

  lemma SwapDiffers(d: Digit, e: Digit, index: nat, rest: nat)
    ensures (rest + Contribution(e, index) + Contribution(d, index + 1)) % 10 ==
      (rest + Contribution(d, index) + Contribution(e, index + 1)) % 10
      <==> d == e || (d == 0 && e == 9) || (d == 9 && e == 0)
  {
    var x := rest + Contribution(e, index) + Contribution(d, index + 1);
    var y := rest + Contribution(d, index) + Contribution(e, index + 1);
    assert (index + 1) % 2 == 1 - index % 2;
    assert x - y == if index % 2 == 0 then Gain(d) - Gain(e) else Gain(e) - Gain(d);
    CloseMod(x, y);
  }

  /** The digits of a payload summed from the right, the last one doubled and then every second, by their digit sums. */
  function PayloadSum(payload: seq<Digit>, doubled: bool): nat {
    if payload == [] then 0
    else
      var last := payload[|payload| - 1];
      (if doubled then 2 * last / 10 + 2 * last % 10 else last) + PayloadSum(payload[..|payload| - 1], !doubled)
  }

  lemma {:induction false} TotalIsPayloadSum(payload: seq<Digit>, index: nat)
    ensures LuhnTotal(payload, index) == PayloadSum(payload, index % 2 == 1)
    decreases |payload|
  {
    if payload != [] {
      TotalIsPayloadSum(payload[..|payload| - 1], index + 1);
    }
  }

  /** Exactly one last digit makes a payload valid: what its sum lacks to a multiple of ten, its last digit doubled. */
  lemma LuhnCheckDigit(payload: seq<Digit>, d: Digit)
    ensures LuhnTotal(payload + [d], 0) % 10 == 0 <==> d == (10 - PayloadSum(payload, true) % 10) % 10
  {
    hide LuhnTotal, PayloadSum;
    LuhnSplit(payload, [d], 0);
    LuhnOne(d, 0);
    TotalIsPayloadSum(payload, 1);
    Lacking(PayloadSum(payload, true), d);
  }

  lemma Lacking(sum: nat, d: Digit)
    ensures (sum + d) % 10 == 0 <==> d == (10 - sum % 10) % 10
  {
  }

  // ----- MOD 97

  /** `int(char, 36)` for an upper-case letter or a digit. */
  function Base36(c: char): Option<nat> {
    if '0' <= c <= '9' then Some(c as int - '0' as int)
    else if 'A' <= c <= 'Z' then Some(c as int - 'A' as int + 10)
    else None
  }

  predicate AllBase36(s: string) {
    forall i :: 0 <= i < |s| ==> Base36(s[i]).Some?
  }

  /** The characters' values written in decimal, one after another. */
  function Numeric(s: string): (r: string)
    requires AllBase36(s)
    ensures IsDigits(r)
  {
    if s == "" then "" else Numeric(s[..|s| - 1]) + DecText(Base36(s[|s| - 1]).value)
  }

  function Rearranged(value: string): string
    requires |value| >= 4
  {
    value[4..] + value[..4]
  }

  ghost predicate Mod97Valid(s: string) {
    AllBase36(s) && NatOf(Numeric(s)) % 97 == 1
  }

  function Upper(c: char): char {
    if 'a' <= c <= 'z' then (c as int - 32) as char else c
  }

  /** Without spaces, and in upper case. */
  function Cleaned(raw: string): string {
    if raw == "" then ""
    else if raw[0] == ' ' then Cleaned(raw[1..])
    else [Upper(raw[0])] + Cleaned(raw[1..])
  }

  /** `_validate_iban` */
  method ValidateIban(raw: string) returns (valid: bool)
    ensures var value := Cleaned(raw); valid <==> 15 <= |value| <= 34 && Mod97Valid(Rearranged(value))
  {
    hide NatOf, DecText, Base36, Cleaned;
    var value := Cleaned(raw);
    if !(15 <= |value| <= 34) {
      return false;
    }
    var rearranged := Rearranged(value);
    var numeric := "";
    for i := 0 to |rearranged|
      invariant AllBase36(rearranged[..i]) && numeric == Numeric(rearranged[..i])
    {
      assert rearranged[..i + 1][..i] == rearranged[..i];
      var v := Base36(rearranged[i]);
      if v.None? {
        return false;
      }
      numeric := numeric + DecText(v.value);
    }
    assert rearranged[..|rearranged|] == rearranged;
    return NatOf(numeric) % 97 == 1;
  }

  /** Digits count as themselves and letters from ten for A to thirty-five for Z; nothing else counts. */
  lemma Base36Counts(c: char)
    ensures Base36('0') == Some(0) && Base36('9') == Some(9) && Base36('A') == Some(10) && Base36('Z') == Some(35)
    ensures '0' <= c < '9' || 'A' <= c < 'Z' ==>
      Base36(c).Some? && Base36((c as int + 1) as char) == Some(Base36(c).value + 1)
    ensures !('0' <= c <= '9') && !('A' <= c <= 'Z') ==> Base36(c).None?
  {
  }

  /** Cleaning drops spaces, puts letters into upper case and keeps everything else, character by character. */
  lemma CleanedBy(c: char, rest: string)
    ensures c == ' ' ==> Cleaned([c] + rest) == Cleaned(rest)
    ensures 'a' <= c <= 'z' ==>
      var v := c as int - 'a' as int; Cleaned([c] + rest) == ["ABCDEFGHIJKLMNOPQRSTUVWXYZ"[v]] + Cleaned(rest)
    ensures c != ' ' && !('a' <= c <= 'z') ==> Cleaned([c] + rest) == [c] + Cleaned(rest)
  {
    assert ([c] + rest)[1..] == rest;
    if 'a' <= c <= 'z' {
      var v := c as int - 'a' as int;
      UpperLetters(v);
    }
  }

  lemma UpperLetters(v: nat)
    requires v < 26
    ensures "ABCDEFGHIJKLMNOPQRSTUVWXYZ"[v] == ('A' as int + v) as char
  {
  }

  /** How many decimal digits a character's value takes. */
  function Width(c: char): nat {
    if '0' <= c <= '9' then 1 else 2
  }

  lemma ValueText(c: char)
    requires Base36(c).Some?
    ensures |DecText(Base36(c).value)| == Width(c) && NatOf(DecText(Base36(c).value)) == Base36(c).value
  {
    var n := Base36(c).value;
    DecTextValue(n);
    if n >= 10 {
      assert |DecText(n / 10)| == 1;
    }
  }

  lemma NumericSnoc(s: string, c: char)
    requires AllBase36(s) && Base36(c).Some?
    ensures AllBase36(s + [c]) && Numeric(s + [c]) == Numeric(s) + DecText(Base36(c).value)
  {
    hide Base36, DecText;
    assert (s + [c])[..|s|] == s;
  }

  lemma LastBase36(s: string)
    requires AllBase36(s) && s != ""
    ensures AllBase36(s[..|s| - 1]) && Base36(s[|s| - 1]).Some?
  {
  }

  lemma {:induction false} NumericConcat(a: string, b: string)
    requires AllBase36(a) && AllBase36(b)
    ensures AllBase36(a + b) && Numeric(a + b) == Numeric(a) + Numeric(b)
    decreases |b|
  {
    hide Base36, DecText, AllBase36, Numeric;
    if b == "" {
      assert a + b == a;
      NumericNone();
    } else {
      var init, c := b[..|b| - 1], b[|b| - 1];
      LastBase36(b);
      NumericConcat(a, init);
      NumericSnoc(init, c);
      NumericSnoc(a + init, c);
      assert init + [c] == b;
      assert a + b == (a + init) + [c];
    }
  }

  lemma NumericNone()
    ensures AllBase36("") && Numeric("") == ""
  {
  }

  lemma NumericOne(c: char)
    requires Base36(c).Some?
    ensures AllBase36([c]) && Numeric([c]) == DecText(Base36(c).value)
  {
    hide DecText;
    assert [c][..0] == "" && Numeric("") == "";
  }

  /** A number of `head`, then `width` digits `x`, then `k` digits `tail`. */
  function Composite(head: nat, width: nat, x: nat, k: nat, tail: nat): nat {
    (head * Pow10(width) + x) * Pow10(k) + tail
  }

  /** The number a text denotes when one stretch of it is singled out. */
  lemma NumericAround(a: string, m: string, b: string)
    requires AllBase36(a) && AllBase36(m) && AllBase36(b)
    ensures AllBase36(a + m + b)
    ensures NatOf(Numeric(a + m + b)) ==
      Composite(NatOf(Numeric(a)), |Numeric(m)|, NatOf(Numeric(m)), |Numeric(b)|, NatOf(Numeric(b)))
  {
    hide NatOf, Numeric, Pow10, Base36, AllBase36;
    NumericConcat(a, m);
    NumericConcat(a + m, b);
    NatOfConcat(Numeric(a), Numeric(m));
    NatOfConcat(Numeric(a) + Numeric(m), Numeric(b));
  }

  /** Ten has an inverse modulo 97, so a power of ten hides no difference. */
  lemma {:induction false} PowerHidesNothing(x: int, k: nat)
    ensures x * Pow10(k) % 97 == 0 <==> x % 97 == 0
  {
    if k > 0 {
      PowerHidesNothing(x, k - 1);
      var y := x * Pow10(k - 1);
      assert x * Pow10(k) == 10 * y by { Regroup(x, Pow10(k - 1)); }
      TenInvertible(y);
    }
  }

  lemma Regroup(x: int, p: int)
    ensures x * (10 * p) == 10 * (x * p)
  {
  }

  lemma TenInvertible(y: int)
    ensures 10 * y % 97 == 0 <==> y % 97 == 0
  {
    if 10 * y % 97 == 0 {
      var m := 10 * y / 97;
      assert y == 97 * (68 * m - 7 * y);
    } else {
      assert y == 97 * (y / 97) + y % 97;
    }
  }

  lemma SameRemainder(x: int, y: int)
    ensures x % 97 == y % 97 <==> (x - y) % 97 == 0
  {
  }

  lemma Difference(base: int, x: int, y: int, p: int, tail: int)
    ensures ((base + x) * p + tail) - ((base + y) * p + tail) == (x - y) * p
  {
  }

  lemma CompositesAgree(head: nat, width: nat, x: nat, y: nat, k: nat, tail: nat)
    ensures Composite(head, width, x, k, tail) % 97 == Composite(head, width, y, k, tail) % 97 <==> (x - y) % 97 == 0
  {
    hide Pow10;
    var base := head * Pow10(width);
    Difference(base, x, y, Pow10(k), tail);
    SameRemainder((base + x) * Pow10(k) + tail, (base + y) * Pow10(k) + tail);
    PowerHidesNothing(x - y, k);
  }

  /**
  Two texts that agree around stretches of the same decimal width: the check tells them apart as it does the stretches.
  */
  lemma Mod97Around(a: string, m: string, n: string, b: string)
    requires AllBase36(a) && AllBase36(m) && AllBase36(n) && AllBase36(b) && |Numeric(m)| == |Numeric(n)|
    ensures AllBase36(a + m + b) && AllBase36(a + n + b)
    ensures NatOf(Numeric(a + m + b)) % 97 == NatOf(Numeric(a + n + b)) % 97
      <==> (NatOf(Numeric(m)) - NatOf(Numeric(n))) % 97 == 0
  {
    hide *;
    NumericAround(a, m, b);
    NumericAround(a, n, b);
    var head, width, x, y, k, tail := NatOf(Numeric(a)), |Numeric(m)|, NatOf(Numeric(m)), NatOf(Numeric(n)),
      |Numeric(b)|, NatOf(Numeric(b));
    CompositesAgree(head, width, x, y, k, tail);
    assert NatOf(Numeric(a + m + b)) == Composite(head, width, x, k, tail);
    assert NatOf(Numeric(a + n + b)) == Composite(head, width, y, k, tail);
  }

  lemma OneValue(c: char)
    requires Base36(c).Some?
    ensures AllBase36([c]) && |Numeric([c])| == Width(c) && NatOf(Numeric([c])) == Base36(c).value
  {
    hide NatOf, DecText;
    NumericOne(c);
    ValueText(c);
  }

  /** Changing one character to another of the same kind always changes the check. */
  lemma Mod97CatchesChange(a: string, c: char, d: char, b: string)
    requires AllBase36(a) && AllBase36(b) && Base36(c).Some? && Base36(d).Some? && Width(c) == Width(d)
    ensures AllBase36(a + [c] + b) && AllBase36(a + [d] + b)
    ensures NatOf(Numeric(a + [c] + b)) % 97 == NatOf(Numeric(a + [d] + b)) % 97 <==> c == d
  {
    hide NatOf, Numeric, AllBase36;
    OneValue(c);
    OneValue(d);
    Mod97Around(a, [c], [d], b);
  }

  /** The rearranged string around the character between `x` and `y`. */
  function Around(x: string, y: string): (string, string)
    requires |x| + 1 + |y| >= 4
  {
    if |x| < 4 then (y[3 - |x|..] + x, y[..3 - |x|]) else (x[4..], y + x[..4])
  }

  lemma RearrangedAround(x: string, c: char, y: string)
    requires |x| + 1 + |y| >= 4
    ensures Rearranged(x + [c] + y) == Around(x, y).0 + [c] + Around(x, y).1
  {
    var value := x + [c] + y;
    if |x| < 4 {
      assert value[4..] == y[3 - |x|..];
      assert value[..4] == x + [c] + y[..3 - |x|];
    } else {
      assert value[4..] == x[4..] + [c] + y;
      assert value[..4] == x[..4];
    }
  }

  /** Of two numbers that differ in one character of the same kind, at most one passes. */
  lemma IbanCatchesChange(x: string, c: char, d: char, y: string)
    requires |x| + 1 + |y| >= 4 && c != d && Width(c) == Width(d)
    ensures !(Mod97Valid(Rearranged(x + [c] + y)) && Mod97Valid(Rearranged(x + [d] + y)))
  {
    hide NatOf, Numeric, Base36, Around, Rearranged;
    RearrangedAround(x, c, y);
    RearrangedAround(x, d, y);
    var (a, b) := Around(x, y);
    if AllBase36(a + [c] + b) && AllBase36(a + [d] + b) {
      ParsedParts(a, c, b);
      ParsedParts(a, d, b);
      Mod97CatchesChange(a, c, d, b);
    }
  }

  lemma {:induction false} NumericDigits(s: string)
    requires IsDigits(s)
    ensures AllBase36(s) && Numeric(s) == s
  {
    if s != "" {
      NumericDigits(s[..|s| - 1]);
      var c := s[|s| - 1];
      assert Base36(c) == Some(DigitValue(c)) && DecText(DigitValue(c)) == [c];
      assert s == s[..|s| - 1] + [c];
    }
  }

  /** After a country and before the account, the check digits are valid exactly when they complete 98 modulo 97. */
  lemma IbanCheckDigits(country: string, check: string, account: string)
    requires |country| == 2 && |check| == 2 && IsDigits(check) && AllBase36(country) && AllBase36(account)
    ensures AllBase36(account + country + "00")
    ensures Mod97Valid(Rearranged(country + check + account)) <==>
      NatOf(check) % 97 == (98 - NatOf(Numeric(account + country + "00")) % 97) % 97
  {
    hide NatOf, Numeric, AllBase36, Base36;
    var front := account + country;
    IbanRearranged(country, check, account);
    NumericConcat(account, country);
    AppendedDigits(front, check);
    AppendedDigits(front, Zeros(2));
    NatOfZeros(2);
    assert Zeros(2) == "00";
    Completes(NatOf(Numeric(front)) * 100, NatOf(check));
  }

  lemma IbanRearranged(country: string, check: string, account: string)
    requires |country| == 2 && |check| == 2
    ensures Rearranged(country + check + account) == account + country + check
  {
    var value := country + check + account;
    assert value[4..] == account && value[..4] == country + check;
  }

  lemma AppendedDigits(front: string, digits: string)
    requires AllBase36(front) && IsDigits(digits) && |digits| == 2
    ensures AllBase36(front + digits) && NatOf(Numeric(front + digits)) == NatOf(Numeric(front)) * 100 + NatOf(digits)
  {
    hide NatOf, Numeric, AllBase36;
    NumericDigits(digits);
    NumericConcat(front, digits);
    NatOfConcat(Numeric(front), digits);
    assert Pow10(2) == 100;
  }

  lemma Completes(n: nat, c: nat)
    ensures (n + c) % 97 == 1 <==> c % 97 == (98 - n % 97) % 97
  {
  }

  lemma ParsedParts(a: string, c: char, b: string)
    requires AllBase36(a + [c] + b)
    ensures AllBase36(a) && Base36(c).Some? && AllBase36(b)
  {
    hide Base36;
    var s := a + [c] + b;
    assert s[|a|] == c;
    assert forall i :: 0 <= i < |a| ==> a[i] == s[i];
    assert forall i :: 0 <= i < |b| ==> b[i] == s[|a| + 1 + i];
  }

  lemma PairValue(c: char, d: char)
    requires Base36(c).Some? && Base36(d).Some?
    ensures AllBase36([c, d]) && |Numeric([c, d])| == Width(c) + Width(d)
    ensures NatOf(Numeric([c, d])) == Base36(c).value * (if Width(d) == 1 then 10 else 100) + Base36(d).value
  {
    OneValue(c);
    OneValue(d);
    hide NatOf, Numeric, Base36, AllBase36;
    NumericConcat([c], [d]);
    assert [c] + [d] == [c, d];
    NatOfConcat(Numeric([c]), Numeric([d]));
    assert Pow10(1) == 10 && Pow10(2) == 100;
  }

  /** A digit and the letter whose value is the digit written twice: the two orders spell the same number. */
  predicate SpellAlike(c: char, d: char) {
    (c == '1' && d == 'B') || (c == '2' && d == 'M') || (c == '3' && d == 'X')
  }

  /** Swapping two neighbours changes the check unless they are equal or spell the same number either way. */
  lemma Mod97CatchesSwap(a: string, c: char, d: char, b: string)
    requires AllBase36(a) && AllBase36(b) && Base36(c).Some? && Base36(d).Some?
    ensures AllBase36(a + [c, d] + b) && AllBase36(a + [d, c] + b)
    ensures NatOf(Numeric(a + [c, d] + b)) % 97 == NatOf(Numeric(a + [d, c] + b)) % 97
      <==> c == d || SpellAlike(c, d) || SpellAlike(d, c)
  {
    hide NatOf, Numeric, AllBase36;
    PairValue(c, d);
    PairValue(d, c);
    Mod97Around(a, [c, d], [d, c], b);
    SwapValues(c, d);
  }

  lemma SwapValues(c: char, d: char)
    requires Base36(c).Some? && Base36(d).Some?
    ensures
      var x := Base36(c).value * (if Width(d) == 1 then 10 else 100) + Base36(d).value;
      var y := Base36(d).value * (if Width(c) == 1 then 10 else 100) + Base36(c).value;
      (x - y) % 97 == 0 <==> c == d || SpellAlike(c, d) || SpellAlike(d, c)
  {
    var u: int, v: int := Base36(c).value, Base36(d).value;
    if Width(c) == Width(d) == 1 {
      Small(9 * (u - v));
    } else if Width(c) == Width(d) == 2 {
      Small(2 * (u - v));
      SameRemainder(99 * (u - v), 2 * (u - v));
    } else if Width(c) == 1 {
      NineTimes(11 * u - v);
    } else {
      NineTimes(u - 11 * v);
    }
  }

  lemma Small(x: int)
    requires -97 < x < 97
    ensures x % 97 == 0 <==> x == 0
  {
  }

  lemma NineTimes(x: int)
    requires -97 < x < 97
    ensures 9 * x % 97 == 0 <==> x == 0
  {
    if 9 * x % 97 == 0 {
      var m := 9 * x / 97;
      assert x == 97 * (54 * m - 5 * x);
    }
  }

  // ----- swaps in the number as given

  /** 97 is prime, as far as the differences of two letters or two digits go. */
  lemma NotDivisor(x: nat)
    requires 2 <= x <= 25
    ensures 97 % x != 0
  {
    assert x == 2 || x == 3 || x == 4 || x == 5 || x == 6 || x == 7 || x == 8 || x == 9 || x == 10 || x == 11
      || x == 12 || x == 13 || x == 14 || x == 15 || x == 16 || x == 17 || x == 18 || x == 19 || x == 20
      || x == 21 || x == 22 || x == 23 || x == 24 || x == 25;
  }

  /** A small factor of a multiple of 97 can be dropped, by the steps of Euclid's algorithm. */
  lemma {:induction false} DropFactor(x: nat, y: int)
    requires 0 < x <= 25 && x * y % 97 == 0
    ensures y % 97 == 0
  {
    if x > 1 {
      var a, r := 97 / x, 97 % x;
      NotDivisor(x);
      EuclidStep(x, y, a, r);
      DropFactor(r, y);
    }
  }

  lemma EuclidStep(x: nat, y: int, a: nat, r: nat)
    requires 97 == x * a + r && x * y % 97 == 0
    ensures r * y % 97 == 0
  {
    var m := x * y / 97;
    assert x * y == 97 * m;
    calc {
      r * y;
      (97 - x * a) * y;
      97 * y - a * (x * y);
      97 * y - a * (97 * m);
      97 * (y - a * m);
    }
  }

  /** A small difference times a number not divisible by 97 is not divisible by 97. */
  lemma SmallFactor(x: int, y: int)
    requires -25 <= x <= 25 && x != 0 && y % 97 != 0
    ensures x * y % 97 != 0
  {
    if x * y % 97 == 0 {
      NegatedMultiple(x, y);
      DropFactor(if x < 0 then -x else x, y);
    }
  }

  lemma NegatedMultiple(x: int, y: int)
    requires x * y % 97 == 0
    ensures (-x) * y % 97 == 0
  {
    assert (-x) * y == -(x * y);
    assert -(x * y) == 97 * -(x * y / 97);
  }

  /** What a power of a hundred leaves: 100 is 3 more than 97, so the remainders of the powers of three. */
  function HundredsRemainder(j: nat): nat {
    match j
    case 0 => 1 case 1 => 3 case 2 => 9 case 3 => 27 case 4 => 81 case 5 => 49
    case 6 => 50 case 7 => 53 case 8 => 62 case 9 => 89 case 10 => 73 case 11 => 25
    case 12 => 75 case 13 => 31 case 14 => 93 case 15 => 85 case 16 => 61 case 17 => 86
    case 18 => 64 case 19 => 95 case 20 => 91 case 21 => 79 case 22 => 43 case 23 => 32
    case 24 => 96 case 25 => 94 case 26 => 88 case 27 => 70 case 28 => 16 case 29 => 48
    case 30 => 47 case 31 => 44 case 32 => 35 case 33 => 8
    case _ => 0
  }

  lemma NextHundred(j: nat)
    requires j < 33
    ensures HundredsRemainder(j + 1) == 3 * HundredsRemainder(j) % 97 && HundredsRemainder(j + 1) !in {1, 68}
  {
  }

  lemma {:induction false} HundredsLeave(j: nat)
    requires j <= 33
    ensures Pow10(2 * j) % 97 == HundredsRemainder(j)
    ensures j > 0 ==> HundredsRemainder(j) !in {1, 68}
  {
    if j > 0 {
      hide HundredsRemainder;
      NextHundred(j - 1);
      HundredsLeave(j - 1);
      assert Pow10(2 * j) == 10 * Pow10(2 * j - 1) && Pow10(2 * j - 1) == 10 * Pow10(2 * j - 2);
      hide Pow10;
      HundredTimes(Pow10(2 * j - 2), HundredsRemainder(j - 1));
    }
  }

  lemma HundredTimes(x: nat, r: nat)
    requires x % 97 == r
    ensures 10 * (10 * x) % 97 == 3 * r % 97
  {
    var q := x / 97;
    assert 10 * (10 * x) == 97 * (100 * q + r) + 3 * r;
    AddMultiple(100 * q + r, 3 * r);
  }

  lemma TenTimes(x: nat, r: nat)
    requires x % 97 == r
    ensures 10 * x % 97 == 10 * r % 97
  {
    var q := x / 97;
    assert 10 * x == 97 * (10 * q) + 10 * r;
    AddMultiple(10 * q, 10 * r);
  }

  lemma AddMultiple(q: nat, z: nat)
    ensures (97 * q + z) % 97 == z % 97
  {
    SameRemainder(97 * q + z, z);
  }

  /** No power of ten up to the sixty-sixth leaves remainder 1. */
  lemma PowerNotUnit(n: nat)
    requires 0 < n <= 66
    ensures (Pow10(n) - 1) % 97 != 0
  {
    var j := n / 2;
    HundredsLeave(j);
    assert HundredsRemainder(0) == 1;
    if n % 2 == 1 {
      assert Pow10(n) == 10 * Pow10(2 * j);
      hide Pow10, HundredsRemainder;
      TenTimes(Pow10(2 * j), HundredsRemainder(j));
      OnlyOneInverse(HundredsRemainder(j));
    }
    hide Pow10, HundredsRemainder;
    SameRemainder(Pow10(n), 1);
  }

  lemma OnlyOneInverse(r: nat)
    requires r < 97
    ensures 10 * r % 97 == 1 <==> r == 68
  {
    var q := 10 * r / 97;
    assert 10 * r == 97 * q + 10 * r % 97 && q <= 9;
  }

  lemma {:induction false} NumericWidth(s: string)
    requires AllBase36(s)
    ensures |s| <= |Numeric(s)| <= 2 * |s|
  {
    if s != "" {
      LastBase36(s);
      NumericWidth(s[..|s| - 1]);
      ValueText(s[|s| - 1]);
    }
  }

  /** The number of a text with one character at each end. */
  lemma EndsValue(d: char, m: string, c: char)
    requires Base36(d).Some? && AllBase36(m) && Base36(c).Some?
    ensures AllBase36([d] + m + [c])
    ensures NatOf(Numeric([d] + m + [c])) == Composite(Base36(d).value, |Numeric(m)|, NatOf(Numeric(m)), Width(c),
      Base36(c).value)
  {
    OneValue(d);
    OneValue(c);
    hide NatOf, Numeric, Base36, AllBase36, Composite;
    NumericAround([d], m, [c]);
  }

  /** Exchanging the two ends, of the same kind, changes the remainder unless they are equal. */
  lemma EndsCaught(d: char, m: string, c: char)
    requires Base36(d).Some? && AllBase36(m) && Base36(c).Some? && Width(c) == Width(d) && 0 < |m| <= 32
    ensures AllBase36([d] + m + [c]) && AllBase36([c] + m + [d])
    ensures NatOf(Numeric([d] + m + [c])) % 97 == NatOf(Numeric([c] + m + [d])) % 97 <==> c == d
  {
    hide NatOf, Numeric, AllBase36, Composite, Pow10;
    var k, w, n := |Numeric(m)|, Width(c), NatOf(Numeric(m));
    var u: nat, v: nat := Base36(d).value, Base36(c).value;
    EndsValue(d, m, c);
    EndsValue(c, m, d);
    NumericWidth(m);
    assert NatOf(Numeric([d] + m + [c])) == Composite(u, k, n, w, v);
    assert NatOf(Numeric([c] + m + [d])) == Composite(v, k, n, w, u);
    EndsApart(u, v, k, n, w);
  }

  lemma EndsApart(u: nat, v: nat, k: nat, m: nat, w: nat)
    requires -25 <= u - v <= 25 && 0 < k + w <= 66
    ensures Composite(u, k, m, w, v) % 97 == Composite(v, k, m, w, u) % 97 <==> u == v
  {
    hide Composite, Pow10;
    EndsDifference(u, v, k, m, w);
    PowerNotUnit(k + w);
    if u != v {
      SmallFactor(u - v, Pow10(k + w) - 1);
    }
  }

  lemma EndsDifference(u: nat, v: nat, k: nat, m: nat, w: nat)
    ensures Composite(u, k, m, w, v) % 97 == Composite(v, k, m, w, u) % 97 <==> (u - v) * (Pow10(k + w) - 1) % 97 == 0
  {
    PowerSum(k, w);
    hide Pow10;
    var p, q := Pow10(k), Pow10(w);
    assert (u * p + m) * q + v - ((v * p + m) * q + u) == (u - v) * (p * q - 1);
    SameRemainder((u * p + m) * q + v, (v * p + m) * q + u);
  }

  lemma {:induction false} PowerSum(k: nat, w: nat)
    ensures Pow10(k + w) == Pow10(k) * Pow10(w)
  {
    if w > 0 {
      PowerSum(k, w - 1);
      Regroup(Pow10(k), Pow10(w - 1));
    }
  }

  /** A digit and a letter at the two ends: the orders leave the same remainder exactly when this holds. */
  ghost predicate EndsAgree(c: char, m: string, d: char)
    requires Base36(c).Some? && AllBase36(m) && Base36(d).Some?
  {
    var u := if Width(c) == 1 then Base36(c).value else Base36(d).value;
    var w := if Width(c) == 1 then Base36(d).value else Base36(c).value;
    (90 * NatOf(Numeric(m)) + (10 * u - w) * Pow10(|Numeric(m)| + 1) + w - u) % 97 == 0
  }

  lemma MixedEnds(u: nat, w: nat, k: nat, m: nat)
    ensures Composite(u, k, m, 2, w) % 97 == Composite(w, k, m, 1, u) % 97 <==>
      (90 * m + (10 * u - w) * Pow10(k + 1) + w - u) % 97 == 0
  {
    assert Pow10(1) == 10 && Pow10(2) == 100 && Pow10(k + 1) == 10 * Pow10(k);
    hide Pow10;
    var p := Pow10(k);
    assert (u * p + m) * 100 + w - ((w * p + m) * 10 + u) == 90 * m + (10 * u - w) * (10 * p) + w - u;
    SameRemainder((u * p + m) * 100 + w, (w * p + m) * 10 + u);
  }

  lemma MixedEndsCaught(c: char, m: string, d: char)
    requires Base36(c).Some? && AllBase36(m) && Base36(d).Some? && Width(c) != Width(d)
    ensures AllBase36([d] + m + [c]) && AllBase36([c] + m + [d])
    ensures NatOf(Numeric([d] + m + [c])) % 97 == NatOf(Numeric([c] + m + [d])) % 97 <==> EndsAgree(c, m, d)
  {
    hide NatOf, Numeric, AllBase36, Composite, Pow10, Base36;
    var k, n := |Numeric(m)|, NatOf(Numeric(m));
    var u: nat, v: nat := Base36(d).value, Base36(c).value;
    EndsValue(d, m, c);
    EndsValue(c, m, d);
    assert NatOf(Numeric([d] + m + [c])) == Composite(u, k, n, Width(c), v);
    assert NatOf(Numeric([c] + m + [d])) == Composite(v, k, n, Width(d), u);
    if Width(c) == 1 {
      MixedEnds(v, u, k, n);
    } else {
      MixedEnds(u, v, k, n);
    }
  }

  /** The rearranged string around two neighbours that stay neighbours. */
  function AroundPair(x: string, y: string): (string, string)
    requires |x| + 2 + |y| >= 4 && |x| != 3
  {
    if |x| < 3 then (y[2 - |x|..] + x, y[..2 - |x|]) else (x[4..], y + x[..4])
  }

  lemma RearrangedPair(x: string, c: char, d: char, y: string)
    requires |x| + 2 + |y| >= 4 && |x| != 3
    ensures Rearranged(x + [c, d] + y) == AroundPair(x, y).0 + [c, d] + AroundPair(x, y).1
  {
    var value := x + [c, d] + y;
    if |x| < 3 {
      assert value[4..] == y[2 - |x|..];
      assert value[..4] == x + [c, d] + y[..2 - |x|];
    } else {
      assert value[4..] == x[4..] + [c, d] + y;
      assert value[..4] == x[..4];
    }
  }

  lemma RearrangedEnds(x: string, c: char, d: char, y: string)
    requires |x| == 3
    ensures Rearranged(x + [c, d] + y) == [d] + (y + x) + [c]
  {
    var value := x + [c, d] + y;
    assert value[4..] == [d] + y && value[..4] == x + [c];
  }

  lemma PairParses(x: string, y: string)
    requires |x| + 2 + |y| >= 4 && |x| != 3 && AllBase36(x) && AllBase36(y)
    ensures AllBase36(AroundPair(x, y).0) && AllBase36(AroundPair(x, y).1)
  {
    hide Base36;
  }

  /** When swapping two neighbours of a number leaves the remainder as it was. */
  ghost predicate SwapUnnoticed(x: string, c: char, d: char, y: string)
    requires AllBase36(x) && Base36(c).Some? && Base36(d).Some? && AllBase36(y)
  {
    || c == d
    || (|x| != 3 && (SpellAlike(c, d) || SpellAlike(d, c)))
    || (|x| == 3 && Width(c) != Width(d) && AllBase36(y + x) && EndsAgree(c, y + x, d))
  }

  /**
  Swapping two neighbours of a number of valid length goes unnoticed exactly then. The fourth and fifth
  character become the two ends of the rearranged string; of the same kind, their swap is always caught.
  */
  lemma IbanCatchesSwap(x: string, c: char, d: char, y: string)
    requires 15 <= |x| + 2 + |y| <= 34 && AllBase36(x) && AllBase36(y) && Base36(c).Some? && Base36(d).Some?
    ensures AllBase36(Rearranged(x + [c, d] + y)) && AllBase36(Rearranged(x + [d, c] + y))
    ensures NatOf(Numeric(Rearranged(x + [c, d] + y))) % 97 == NatOf(Numeric(Rearranged(x + [d, c] + y))) % 97
      <==> SwapUnnoticed(x, c, d, y)
  {
    hide NatOf, Numeric, Base36, AllBase36, AroundPair, Rearranged, EndsAgree;
    if |x| != 3 {
      RearrangedPair(x, c, d, y);
      RearrangedPair(x, d, c, y);
      PairParses(x, y);
      Mod97CatchesSwap(AroundPair(x, y).0, c, d, AroundPair(x, y).1);
    } else {
      RearrangedEnds(x, c, d, y);
      RearrangedEnds(x, d, c, y);
      NumericConcat(y, x);
      if Width(c) == Width(d) {
        EndsCaught(d, y + x, c);
      } else {
        MixedEndsCaught(c, y + x, d);
      }
    }
  }
}
