/** UTF-16 code units, the order RFC 8785 sorts member names by. */
module Utf16 {
  import opened Ordering

  /** The units of one character: itself, or a surrogate pair above the Basic Multilingual Plane. */
  function CharUnits(c: char): seq<int> {
    var p := c as int;
    if p > 0xFFFF then [0xD800 + (p - 0x10000) / 0x400, 0xDC00 + (p - 0x10000) % 0x400] else [p]
  }

  function Units(s: string): seq<int> {
    if s == "" then [] else CharUnits(s[0]) + Units(s[1..])
  }

  lemma {:induction false} UnitsSnoc(s: string, c: char)
    ensures Units(s + [c]) == Units(s) + CharUnits(c)
  {
    if s == "" {
      assert s + [c] == [c] && [c][1..] == "";
    } else {
      assert (s + [c])[1..] == s[1..] + [c];
      UnitsSnoc(s[1..], c);
    }
  }

  /** `_utf16_code_units`; the shift and the mask are division and remainder by 0x400. */
  method Utf16CodeUnits(text: string) returns (units: seq<int>)
    ensures units == Units(text)
  {
    units := [];
    for i := 0 to |text|
      invariant units == Units(text[..i])
    {
      var codePoint := text[i] as int;
      if codePoint > 0xFFFF {
        codePoint := codePoint - 0x10000;
        units := units + [0xD800 + codePoint / 0x400];
        units := units + [0xDC00 + codePoint % 0x400];
      } else {
        units := units + [codePoint];
      }
      UnitsSnoc(text[..i], text[i]);
      assert text[..i + 1] == text[..i] + [text[i]];
    }
    assert text[..|text|] == text;
  }

  predicate IsHighSurrogate(u: int) {
    0xD800 <= u < 0xDC00
  }

  /** The first unit tells how many units the first character takes, since no character is a surrogate. */
  lemma CharUnitsDecode(a: char, x: seq<int>, b: char, y: seq<int>)
    requires CharUnits(a) + x == CharUnits(b) + y
    ensures a == b && x == y
  {
    var s, t := CharUnits(a) + x, CharUnits(b) + y;
    assert s[0] == t[0];
    assert IsHighSurrogate(s[0]) <==> |CharUnits(a)| == 2;
    assert IsHighSurrogate(t[0]) <==> |CharUnits(b)| == 2;
    assert |CharUnits(a)| == 2 ==> s[1] == t[1];
    assert a as int == b as int;
    assert x == s[|CharUnits(a)|..] && y == t[|CharUnits(b)|..];
  }

  lemma {:induction false} UnitsInjective(a: string, b: string)
    requires Units(a) == Units(b)
    ensures a == b
  {
    if a != "" && b != "" {
      CharUnitsDecode(a[0], Units(a[1..]), b[0], Units(b[1..]));
      UnitsInjective(a[1..], b[1..]);
      assert a == [a[0]] + a[1..] && b == [b[0]] + b[1..];
    } else {
      assert a == "" ==> Units(a) == [];
      assert b == "" ==> Units(b) == [];
    }
  }

  // ----- that these are the units of UTF-16, and the order they give

  lemma UnitsCons(c: char, s: string)
    ensures Units([c] + s) == Units([c]) + Units(s)
  {
    assert ([c] + s)[1..] == s && [c][1..] == "";
    assert Units([c]) == CharUnits(c) + Units("");
  }

  /**
  A character up to U+FFFF is its own unit; any other is a high and then a low surrogate, which hold ten bits each of
  its distance from U+10000.
  */
  lemma UnitsOfCharacter(c: char)
    ensures c as int <= 0xFFFF ==> Units([c]) == [c as int]
    ensures c as int > 0xFFFF ==>
      var u := Units([c]);
      && |u| == 2 && 0xD800 <= u[0] <= 0xDBFF && 0xDC00 <= u[1] <= 0xDFFF
      && c as int == 0x10000 + (u[0] - 0xD800) * 0x400 + (u[1] - 0xDC00)
  {
    UnitsCons(c, "");
    assert Units([c]) == CharUnits(c);
  }

  lemma {:induction false} UnitsBelow(s: string)
    ensures forall u :: u in Units(s) ==> 0 <= u < 0x10000
  {
    if s != "" {
      UnitsBelow(s[1..]);
    }
  }

  /** `a` is before `b` by code units: by code point, except that U+E000 to U+FFFF come after all above. */
  predicate UnitBefore(a: char, b: char) {
    if (a as int <= 0xFFFF) == (b as int <= 0xFFFF) then a < b
    else if a as int > 0xFFFF then b as int >= 0xE000
    else a as int < 0xE000
  }

  /** `a` begins `b`, or is before it where they first differ. */
  ghost predicate UnitsBefore(a: string, b: string) {
    exists n: nat :: n <= |a| && n < |b| && a[..n] == b[..n] && (n == |a| || UnitBefore(a[n], b[n]))
  }

  lemma CharUnitsOrder(a: char, x: seq<int>, b: char, y: seq<int>)
    requires a != b
    ensures LexLt(CharUnits(a) + x, CharUnits(b) + y) <==> UnitBefore(a, b)
  {
    var s, t := CharUnits(a) + x, CharUnits(b) + y;
    assert s[0] == CharUnits(a)[0] && t[0] == CharUnits(b)[0];
    if a as int > 0xFFFF && b as int > 0xFFFF {
      assert s[1] == CharUnits(a)[1] && t[1] == CharUnits(b)[1];
      assert s[0] == t[0] ==> s[1] != t[1];
      assert LexLe(s[1..], t[1..]) <==> s[1] < t[1] || (s[1] == t[1] && LexLe(s[1..][1..], t[1..][1..]));
    } else {
      assert s[0] != t[0];
    }
  }

  lemma {:induction false} LexCommonPrefix(p: seq<int>, x: seq<int>, y: seq<int>)
    ensures LexLt(p + x, p + y) <==> LexLt(x, y)
  {
    if p == [] {
      assert p + x == x && p + y == y;
    } else {
      assert (p + x)[1..] == p[1..] + x && (p + y)[1..] == p[1..] + y;
      assert p + x == [p[0]] + (p[1..] + x) && p + y == [p[0]] + (p[1..] + y);
      LexCommonPrefix(p[1..], x, y);
      assert x == y <==> p + x == p + y by {
        assert (p + x)[|p|..] == x && (p + y)[|p|..] == y;
      }
    }
  }

  /** Strings compare by code units as their first different characters do, and a proper beginning comes first. */
  lemma {:induction false} UnitOrder(a: string, b: string)
    ensures LexLt(Units(a), Units(b)) <==> UnitsBefore(a, b)
  {
    if a != "" && b != "" {
      assert a == [a[0]] + a[1..] && b == [b[0]] + b[1..];
      if a[0] == b[0] {
        LexCommonPrefix(CharUnits(a[0]), Units(a[1..]), Units(b[1..]));
        UnitOrder(a[1..], b[1..]);
        FirstDifferenceTail(a, b);
      } else {
        CharUnitsOrder(a[0], Units(a[1..]), b[0], Units(b[1..]));
        FirstDifferenceHead(a, b);
      }
    } else {
      assert a[..0] == b[..0];
      assert a != "" ==> Units(a) != [];
      assert b != "" ==> Units(b) != [];
    }
  }

  lemma FirstDifferenceHead(a: string, b: string)
    requires a != "" && b != "" && a[0] != b[0]
    ensures UnitBefore(a[0], b[0]) <==> UnitsBefore(a, b)
  {
    assert a[..0] == b[..0];
    if n: nat :| n <= |a| && n < |b| && a[..n] == b[..n] && (n == |a| || UnitBefore(a[n], b[n])) {
      assert forall m :: 0 <= m < n ==> a[m] == a[..n][m] == b[m];
    }
  }

  lemma FirstDifferenceTail(a: string, b: string)
    requires a != "" && b != "" && a[0] == b[0]
    ensures UnitsBefore(a[1..], b[1..]) <==> UnitsBefore(a, b)
  {
    var c, d := a[1..], b[1..];
    if n: nat :| n <= |c| && n < |d| && c[..n] == d[..n] && (n == |c| || UnitBefore(c[n], d[n])) {
      assert a[..n + 1] == [a[0]] + a[1..][..n] && b[..n + 1] == [b[0]] + b[1..][..n];
      assert n + 1 <= |a| && n + 1 < |b| && (n + 1 == |a| || UnitBefore(a[n + 1], b[n + 1]));
    }
    if n: nat :| n <= |a| && n < |b| && a[..n] == b[..n] && (n == |a| || UnitBefore(a[n], b[n])) {
      assert n > 0;
      assert a[1..][..n - 1] == a[..n][1..] && b[1..][..n - 1] == b[..n][1..];
      assert n - 1 <= |a[1..]| && n - 1 < |b[1..]|;
      assert n - 1 == |a[1..]| || UnitBefore(a[1..][n - 1], b[1..][n - 1]);
    }
  }

  /** A name above U+FFFF sorts before one in U+E000 to U+FFFF, against the order of code points. */
  lemma SurrogatesSortFirst(a: char, b: char, x: string, y: string)
    requires a as int > 0xFFFF && 0xE000 <= b as int <= 0xFFFF
    ensures LexLt(Units([a] + x), Units([b] + y)) && b < a
  {
    UnitsCons(a, x);
    UnitsCons(b, y);
    UnitsOfCharacter(a);
    UnitsOfCharacter(b);
  }
}
