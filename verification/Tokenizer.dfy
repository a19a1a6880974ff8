/** The reference tokenizer: maximal runs of non-whitespace characters. */
module Tokenizer {

  /** Python's whitespace characters, the complement of the regular expression class `\S`. */
  predicate IsSpace(c: char) {
    var p := c as int;
    || 0x09 <= p <= 0x0D || 0x1C <= p <= 0x20 || p == 0x85 || p == 0xA0 || p == 0x1680
    || 0x2000 <= p <= 0x200A || p == 0x2028 || p == 0x2029 || p == 0x202F || p == 0x205F || p == 0x3000
  }

  /** The twenty-nine characters `str.isspace` accepts. */
  lemma SpaceCharacters(c: char)
    ensures IsSpace(c) <==> c in "\t\n\U{000B}\U{000C}\r\U{001C}\U{001D}\U{001E}\U{001F} \U{0085}\U{00A0}\U{1680}" ||
                             c in "\U{2000}\U{2001}\U{2002}\U{2003}\U{2004}\U{2005}\U{2006}\U{2007}\U{2008}\U{2009}" ||
                             c in "\U{200A}\U{2028}\U{2029}\U{202F}\U{205F}\U{3000}"
  {
  }

  datatype Span = Span(start: nat, end: nat)

  /** Where the run of non-whitespace characters that contains `i` ends, looking no further than `hi`. */
  function RunEnd(text: string, i: nat, hi: nat): (e: nat)
    requires i <= hi <= |text|
    ensures i <= e <= hi
    decreases hi - i
  {
    if i < hi && !IsSpace(text[i]) then RunEnd(text, i + 1, hi) else i
  }

  /** The tokens of `text[i..hi]`, as positions in `text`. */
  function Tokens(text: string, i: nat, hi: nat): seq<Span>
    requires i <= hi <= |text|
    decreases hi - i
  {
    if i == hi then []
    else if IsSpace(text[i]) then Tokens(text, i + 1, hi)
    else
      var e := RunEnd(text, i + 1, hi);
      [Span(i, e)] + Tokens(text, e, hi)
  }

  function Matches(text: string): seq<Span> {
    Tokens(text, 0, |text|)
  }

  function Count(text: string): nat {
    |Matches(text)|
  }

  lemma {:induction false} RunEndIs(text: string, i: nat, hi: nat)
    requires i <= hi <= |text|
    ensures var e := RunEnd(text, i, hi);
      (forall k :: i <= k < e ==> !IsSpace(text[k])) && (e < hi ==> IsSpace(text[e]))
    decreases hi - i
  {
    if i < hi && !IsSpace(text[i]) {
      RunEndIs(text, i + 1, hi);
    }
  }

  /** Each token is a non-empty stretch of the range that ends at whitespace or at the range's end. */
  lemma {:induction false} TokenPlaced(text: string, i: nat, hi: nat, k: nat)
    requires i <= hi <= |text| && k < |Tokens(text, i, hi)|
    ensures var t := Tokens(text, i, hi)[k]; i <= t.start < t.end <= hi && (t.end < hi ==> IsSpace(text[t.end]))
    decreases hi - i
  {
    if IsSpace(text[i]) {
      TokenPlaced(text, i + 1, hi, k);
    } else {
      RunEndIs(text, i + 1, hi);
      if k > 0 {
        TokenPlaced(text, RunEnd(text, i + 1, hi), hi, k - 1);
      }
    }
  }

  /** Each token is a longest run of characters that are not white space. */
  lemma {:induction false} TokenIsRun(text: string, i: nat, hi: nat, k: nat)
    requires i <= hi <= |text| && k < |Tokens(text, i, hi)|
    requires i == 0 || IsSpace(text[i - 1]) || (i < hi ==> IsSpace(text[i]))
    ensures var t := Tokens(text, i, hi)[k];
      && i <= t.start < t.end <= hi && (forall c :: t.start <= c < t.end ==> !IsSpace(text[c]))
      && (t.start > 0 ==> IsSpace(text[t.start - 1])) && (t.end < hi ==> IsSpace(text[t.end]))
    decreases hi - i
  {
    hide IsSpace;
    if IsSpace(text[i]) {
      TokenIsRun(text, i + 1, hi, k);
    } else {
      RunEndIs(text, i + 1, hi);
      if k > 0 {
        TokenIsRun(text, RunEnd(text, i + 1, hi), hi, k - 1);
      }
    }
  }

  /** Every character that is not white space is in a token. */
  lemma {:induction false} TokenAround(text: string, i: nat, hi: nat, c: nat) returns (k: nat)
    requires i <= c < hi <= |text| && !IsSpace(text[c])
    ensures k < |Tokens(text, i, hi)| && Tokens(text, i, hi)[k].start <= c < Tokens(text, i, hi)[k].end
    decreases hi - i
  {
    hide IsSpace;
    if IsSpace(text[i]) {
      k := TokenAround(text, i + 1, hi, c);
    } else {
      RunEndIs(text, i + 1, hi);
      var e := RunEnd(text, i + 1, hi);
      if c < e {
        k := 0;
      } else {
        k := TokenAround(text, e, hi, c);
        k := k + 1;
      }
    }
  }

  // ----- splitting a text between tokens

  /** No token crosses `m`. */
  predicate Boundary(text: string, lo: nat, m: nat, hi: nat)
    requires lo <= m <= hi <= |text|
  {
    m == lo || m == hi || IsSpace(text[m - 1]) || IsSpace(text[m])
  }

  lemma {:induction false} RunEndBounded(text: string, i: nat, m: nat, hi: nat)
    requires i <= m <= hi <= |text| && (m == hi || IsSpace(text[m]) || (i < m && IsSpace(text[m - 1])))
    ensures RunEnd(text, i, hi) == RunEnd(text, i, m)
    decreases hi - i
  {
    if i < m && !IsSpace(text[i]) {
      RunEndBounded(text, i + 1, m, hi);
    }
  }

  lemma {:induction false} TokensSplit(text: string, i: nat, m: nat, hi: nat)
    requires i <= m <= hi <= |text| && Boundary(text, i, m, hi)
    ensures |Tokens(text, i, hi)| == |Tokens(text, i, m)| + |Tokens(text, m, hi)|
    decreases m - i
  {
    if i < m {
      if IsSpace(text[i]) {
        TokensSplit(text, i + 1, m, hi);
      } else {
        RunEndBounded(text, i + 1, m, hi);
        RunEndIs(text, i + 1, m);
        TokensSplit(text, RunEnd(text, i + 1, m), m, hi);
      }
    }
  }

  function Shift(spans: seq<Span>, offset: nat): (r: seq<Span>)
    ensures |r| == |spans| && forall k :: 0 <= k < |r| ==> r[k] == Span(spans[k].start + offset, spans[k].end + offset)
  {
    seq(|spans|, k requires 0 <= k < |spans| => Span(spans[k].start + offset, spans[k].end + offset))
  }

  lemma {:induction false} RunEndShift(text: string, lo: nat, i: nat, hi: nat)
    requires lo <= i <= hi <= |text|
    ensures RunEnd(text[lo..hi], i - lo, hi - lo) == RunEnd(text, i, hi) - lo
    decreases hi - i
  {
    if i < hi && !IsSpace(text[i]) {
      RunEndShift(text, lo, i + 1, hi);
    }
  }

  lemma ShiftCons(t: Span, ts: seq<Span>, offset: nat)
    ensures Shift([t] + ts, offset) == [Span(t.start + offset, t.end + offset)] + Shift(ts, offset)
  {
  }

  lemma {:induction false} TokensShift(text: string, lo: nat, i: nat, hi: nat)
    requires lo <= i <= hi <= |text|
    ensures Tokens(text, i, hi) == Shift(Tokens(text[lo..hi], i - lo, hi - lo), lo)
    decreases hi - i
  {
    if i < hi {
      assert text[lo..hi][i - lo] == text[i];
      if IsSpace(text[i]) {
        TokensShift(text, lo, i + 1, hi);
      } else {
        RunEndShift(text, lo, i + 1, hi);
        var e := RunEnd(text, i + 1, hi);
        TokensShift(text, lo, e, hi);
        hide Shift;
        ShiftCons(Span(i - lo, e - lo), Tokens(text[lo..hi], e - lo, hi - lo), lo);
      }
    }
  }

  /** The tokens of a slice are the tokens of that range. */
  lemma SliceTokens(text: string, lo: nat, hi: nat)
    requires lo <= hi <= |text|
    ensures Tokens(text, lo, hi) == Shift(Matches(text[lo..hi]), lo)
    ensures Count(text[lo..hi]) == |Tokens(text, lo, hi)|
  {
    TokensShift(text, lo, lo, hi);
  }

  // ----- tokens of joined texts

  const SEPARATOR := "\n\n"

  lemma {:induction false} SkipSpaces(text: string, i: nat, j: nat, hi: nat)
    requires i <= j <= hi <= |text| && forall k :: i <= k < j ==> IsSpace(text[k])
    ensures Tokens(text, i, hi) == Tokens(text, j, hi)
    decreases j - i
  {
    if i < j {
      SkipSpaces(text, i + 1, j, hi);
    }
  }

  /** White space between two texts keeps their tokens apart. */
  lemma CountSpaced(a: string, spaces: string, b: string)
    requires spaces != "" && forall k :: 0 <= k < |spaces| ==> IsSpace(spaces[k])
    ensures Count(a + spaces + b) == Count(a) + Count(b)
  {
    hide IsSpace;
    var t := a + spaces + b;
    var m, n := |a|, |a| + |spaces|;
    assert forall k :: m <= k < n ==> t[k] == spaces[k - m];
    TokensSplit(t, 0, m, |t|);
    SkipSpaces(t, m, n, |t|);
    SliceTokens(t, 0, m);
    SliceTokens(t, n, |t|);
    assert t[0..m] == a && t[n..|t|] == b;
  }

  /** The joined text of two elements has the tokens of both. */
  lemma CountJoin(a: string, b: string)
    ensures Count(a + SEPARATOR + b) == Count(a) + Count(b)
  {
    hide Count;
    CountSpaced(a, SEPARATOR, b);
  }

  // ----- a run of consecutive tokens

  /** `part` is the stretch of `whole` that starts at index `a`. */
  ghost predicate StretchOf<T>(part: seq<T>, whole: seq<T>, a: nat) {
    a + |part| <= |whole| && forall k :: 0 <= k < |part| ==> part[k] == whole[a + k]
  }

  /** Dropping tokens leaves the tokens from the next one's start on. */
  lemma {:induction false} TokensDrop(text: string, i: nat, hi: nat, a: nat)
    requires i <= hi <= |text| && a < |Tokens(text, i, hi)|
    ensures var s := Tokens(text, i, hi)[a].start;
      && i <= s <= hi
      && |Tokens(text, s, hi)| == |Tokens(text, i, hi)| - a && StretchOf(Tokens(text, s, hi), Tokens(text, i, hi), a)
    decreases hi - i
  {
    if IsSpace(text[i]) {
      TokensDrop(text, i + 1, hi, a);
    } else if a > 0 {
      TokensDrop(text, RunEnd(text, i + 1, hi), hi, a - 1);
    }
  }

  /** The first `b` tokens are the tokens up to the last one's end. */
  lemma {:induction false} TokensTake(text: string, i: nat, hi: nat, b: nat)
    requires i <= hi <= |text| && 0 < b <= |Tokens(text, i, hi)|
    ensures var e := Tokens(text, i, hi)[b - 1].end;
      && i <= e <= hi
      && |Tokens(text, i, e)| == b && StretchOf(Tokens(text, i, e), Tokens(text, i, hi), 0)
    decreases hi - i
  {
    var e := Tokens(text, i, hi)[b - 1].end;
    TokenPlaced(text, i, hi, b - 1);
    if IsSpace(text[i]) {
      TokensTake(text, i + 1, hi, b);
    } else {
      RunEndBounded(text, i + 1, e, hi);
      var e1 := RunEnd(text, i + 1, hi);
      if b > 1 {
        TokensTake(text, e1, hi, b - 1);
      }
    }
  }

  /** Tokens `a` to `b` are exactly the tokens of the text from the first one's start to the last one's end. */
  lemma TokenGroup(text: string, a: nat, b: nat)
    requires a < b <= Count(text)
    ensures var ts := Matches(text); var lo, hi := ts[a].start, ts[b - 1].end;
      && lo <= hi <= |text|
      && |Tokens(text, lo, hi)| == b - a == Count(text[lo..hi]) && StretchOf(Tokens(text, lo, hi), ts, a)
  {
    hide Tokens;
    var ts := Matches(text);
    var lo := ts[a].start;
    TokensDrop(text, 0, |text|, a);
    var rest := Tokens(text, lo, |text|);
    assert rest[b - a - 1] == ts[b - 1];
    TokensTake(text, lo, |text|, b - a);
    SliceTokens(text, lo, ts[b - 1].end);
  }
}
