/**
NDJSON snapshots: the streaming writer, the reader with one line of lookahead, and resuming.

A snapshot file is its decompressed, decoded text. Pydantic's record readers and the hash
enter through `Format`; the text of a record is the canonical text of its JSON dump.
*/
module Snapshot {
  import opened Ordering
  import opened Canonical

  datatype Trailer = Trailer(
    finishedAt: string,
    pointCount: int,
    completeness: string,
    startCount: Option<int>,
    endCount: Option<int>,
    contentHash: string)

  /** How records are dumped to JSON and read back from a line, how points are keyed, and the hash. */
  datatype Format<!H, !P> = Format(
    nfc: string -> string,
    hash: string -> string,
    headerJson: H -> Json,
    pointJson: P -> Json,
    readHeader: string -> Option<H>,
    readPoint: string -> Option<P>,
    readTrailer: string -> Option<Trailer>,
    scopeOf: P -> string,
    idKey: P -> string)

  datatype Error = EmptySnapshot | InvalidHeader | InvalidPoint | InvalidTrailer | DuplicatePoint
    | MissingTrailer | CountMismatch | HashMismatch | AlreadyConsumed

  datatype Result<T> = Success(value: T) | Failure(error: Error)

  /** What a pass over the points yields before it ends or raises. */
  datatype Pass<P> = Pass(yielded: seq<P>, result: Result<Trailer>)

  datatype Consistency = Consistency(completeness: string, startCount: Option<int>, endCount: Option<int>)

  // ----- writing

  function OptionalCount(key: string, n: Option<int>): seq<Entry<Json>> {
    if n.Some? then [Entry(key, Int(n.value))] else []
  }

  function TrailerJson(t: Trailer): (r: Json)
    ensures Representable(r)
  {
    Obj([Entry("record_type", Str("trailer")), Entry("finished_at", Str(t.finishedAt)),
      Entry("point_count", Int(t.pointCount)),
         Entry("consistency_completeness", Str(t.completeness))]
        + OptionalCount("consistency_start_count", t.startCount) + OptionalCount("consistency_end_count", t.endCount)
        + [Entry("content_hash", Str(t.contentHash))])
  }

  function Line(nfc: string -> string, v: Json): string
    requires Representable(v)
  {
    Text(nfc, v) + "\n"
  }

  ghost predicate Writable<H, P(!new)>(fmt: Format<H, P>, points: seq<P>) {
    forall i :: 0 <= i < |points| ==> Representable(fmt.pointJson(points[i]))
  }

  /** The lines of the points, as they are written and hashed. */
  function PointText<H, P(!new)>(fmt: Format<H, P>, points: seq<P>): string
    requires Writable(fmt, points)
  {
    if points == [] then ""
    else
      assert Representable(fmt.pointJson(points[|points| - 1]));
      PointText(fmt, points[..|points| - 1]) + Line(fmt.nfc, fmt.pointJson(points[|points| - 1]))
  }

  function TrailerOf<H, P(!new)>(fmt: Format<H, P>, points: seq<P>, finishedAt: string,
      consistency: Option<Consistency>): Trailer
    requires Writable(fmt, points)
  {
    Trailer(finishedAt, |points|,
      if consistency.Some? then consistency.value.completeness else "complete",
      if consistency.Some? then consistency.value.startCount else None,
      if consistency.Some? then consistency.value.endCount else None,
      fmt.hash(PointText(fmt, points)))
  }

  function Written<H, P(!new)>(fmt: Format<H, P>, header: H, points: seq<P>, trailer: Trailer): string
    requires Representable(fmt.headerJson(header)) && Writable(fmt, points)
  {
    Line(fmt.nfc, fmt.headerJson(header)) + PointText(fmt, points) + Line(fmt.nfc, TrailerJson(trailer))
  }

  /** `write_snapshot`; nothing where the canonical encoder raises. */
  method WriteSnapshot<H, P(!new)>(fmt: Format<H, P>, header: H, points: seq<P>, finishedAt: string,
      consistency: Option<Consistency>)
    returns (text: string, trailer: Option<Trailer>)
    ensures trailer.Some? <==> Representable(fmt.headerJson(header)) && Writable(fmt, points)
    ensures trailer.Some? ==>
      && trailer.value == TrailerOf(fmt, points, finishedAt, consistency)
      && text == Written(fmt, header, points, trailer.value)
  {
    hide Text, Representable;
    text, trailer := "", None;
    var headerText := Canonicalize(fmt.nfc, fmt.headerJson(header));
    if headerText.None? {
      return;
    }
    text := headerText.value + "\n";
    var hashed, count := "", 0;
    assert points[..0] == [];
    for i := 0 to |points|
      invariant Writable(fmt, points[..i]) && count == i && hashed == PointText(fmt, points[..i])
      invariant text == Line(fmt.nfc, fmt.headerJson(header)) + hashed
    {
      assert points[..i + 1][..i] == points[..i];
      var line := Canonicalize(fmt.nfc, fmt.pointJson(points[i]));
      if line.None? {
        return;
      }
      hashed := hashed + (line.value + "\n");
      text := text + (line.value + "\n");
      count := count + 1;
    }
    assert points[..|points|] == points;
    var completeness, startCount, endCount := "complete", None, None;
    if consistency.Some? {
      completeness, startCount, endCount := consistency.value.completeness, consistency.value.startCount,
        consistency.value.endCount;
    }
    var t := Trailer(finishedAt, count, completeness, startCount, endCount, fmt.hash(hashed));
    text := text + (Text(fmt.nfc, TrailerJson(t)) + "\n");
    trailer := Some(t);
  }

  // ----- lines

  /** How much of the text `readline` takes: through the first newline, or all of it. */
  function LineEnd(text: string): (e: nat)
    ensures e <= |text| && (text != "" ==> e > 0)
  {
    if text == "" then 0 else if text[0] == '\n' then 1 else 1 + LineEnd(text[1..])
  }

  function Lines(text: string): seq<string> {
    if text == "" then [] else [text[..LineEnd(text)]] + Lines(text[LineEnd(text)..])
  }

  /** A line and the newline that ends it, with no other newline. */
  ghost predicate WholeLine(line: string) {
    line != "" && line[|line| - 1] == '\n' && forall i :: 0 <= i < |line| - 1 ==> line[i] != '\n'
  }

  lemma {:induction false} LineEndWhole(line: string, rest: string)
    requires WholeLine(line)
    ensures LineEnd(line + rest) == |line|
    decreases |line|
  {
    if |line| > 1 {
      assert (line + rest)[1..] == line[1..] + rest;
      LineEndWhole(line[1..], rest);
    }
  }

  lemma LinesCons(line: string, rest: string)
    requires WholeLine(line)
    ensures Lines(line + rest) == [line] + Lines(rest)
  {
    LineEndWhole(line, rest);
    assert (line + rest)[..|line|] == line && (line + rest)[|line|..] == rest;
  }

  function Joined(lines: seq<string>): string {
    if lines == [] then "" else lines[0] + Joined(lines[1..])
  }

  ghost predicate AllWhole(lines: seq<string>) {
    forall i :: 0 <= i < |lines| ==> WholeLine(lines[i])
  }

  /** Whole lines come apart as they were put together. */
  lemma {:induction false} LinesJoined(lines: seq<string>, rest: string)
    requires AllWhole(lines)
    ensures Lines(Joined(lines) + rest) == lines + Lines(rest)
  {
    hide WholeLine, Lines;
    if lines == [] {
      assert "" + rest == rest;
    } else {
      LinesJoined(lines[1..], rest);
      LinesCons(lines[0], Joined(lines[1..]) + rest);
      assert Joined(lines) + rest == lines[0] + (Joined(lines[1..]) + rest);
    }
  }

  /** Framing by newlines is injective. */
  lemma FramingInjective(a: seq<string>, b: seq<string>)
    requires AllWhole(a) && AllWhole(b) && Joined(a) == Joined(b)
    ensures a == b
  {
    LinesJoined(a, "");
    LinesJoined(b, "");
    assert Joined(a) + "" == Joined(a) && Joined(b) + "" == Joined(b) && Lines("") == [];
    assert a + [] == a && b + [] == b;
  }

  lemma {:induction false} LineEndIs(text: string)
    requires text != ""
    ensures LineEnd(text) < |text| ==> WholeLine(text[..LineEnd(text)])
  {
    if text[0] != '\n' && |text| > 1 {
      LineEndIs(text[1..]);
      var e := LineEnd(text);
      assert text[..e] == [text[0]] + text[1..][..e - 1];
    }
  }

  /** Every line but the last is whole. */
  lemma {:induction false} LinesWhole(text: string)
    ensures forall i :: 0 <= i < |Lines(text)| - 1 ==> WholeLine(Lines(text)[i])
    decreases |text|
  {
    hide WholeLine;
    if text != "" {
      LineEndIs(text);
      LinesWhole(text[LineEnd(text)..]);
    }
  }

  // ----- reading

  function WithoutNewlines(line: string): string {
    if line != "" && line[|line| - 1] == '\n' then WithoutNewlines(line[..|line| - 1]) else line
  }

  /** What a point line adds to the hash. */
  function Fed(line: string): string {
    WithoutNewlines(line) + "\n"
  }

  /** `_finalize` */
  function Finalize<H, P>(fmt: Format<H, P>, line: string, hashed: string, count: nat): Result<Trailer> {
    match fmt.readTrailer(line)
    case None => Failure(InvalidTrailer)
    case Some(t) =>
      if t.pointCount != count then Failure(CountMismatch)
      else if t.contentHash != fmt.hash(hashed) then Failure(HashMismatch)
      else Success(t)
  }

  /** A pass over the lines after the header, the last of which is the trailer. */
  function ReadPoints<H, P>(fmt: Format<H, P>, lines: seq<string>, hashed: string, count: nat,
                            seen: Option<set<(string, string)>>): Pass<P>
    decreases |lines|
  {
    if lines == [] then Pass([], Failure(MissingTrailer))
    else if |lines| == 1 then Pass([], Finalize(fmt, lines[0], hashed, count))
    else
      match fmt.readPoint(lines[0])
      case None => Pass([], Failure(InvalidPoint))
      case Some(p) =>
        var key := (fmt.scopeOf(p), fmt.idKey(p));
        if seen.Some? && key in seen.value then Pass([], Failure(DuplicatePoint))
        else
          var later := ReadPoints(fmt, lines[1..], hashed + Fed(lines[0]), count + 1,
                                  if seen.Some? then Some(seen.value + {key}) else None);
          Pass([p] + later.yielded, later.result)
  }

  /** A pass after points already yielded. */
  function Then<P>(yielded: seq<P>, later: Pass<P>): Pass<P> {
    Pass(yielded + later.yielded, later.result)
  }

  lemma ThenCons<P>(yielded: seq<P>, p: P, later: Pass<P>)
    ensures Then(yielded, Then([p], later)) == Then(yielded + [p], later)
  {
  }

  lemma ThenEnds<P>(yielded: seq<P>, result: Result<Trailer>, whole: Pass<P>)
    ensures Then(yielded, Pass([], result)) == Pass(yielded, result) && Then([], whole) == whole
  {
  }

  /** The key sets after a point, if duplicates are checked. */
  function Seen<H, P>(fmt: Format<H, P>, seen: Option<set<(string, string)>>, p: P): Option<set<(string, string)>> {
    if seen.Some? then Some(seen.value + {(fmt.scopeOf(p), fmt.idKey(p))}) else None
  }

  predicate IsDuplicate<H, P>(fmt: Format<H, P>, seen: Option<set<(string, string)>>, p: P) {
    seen.Some? && (fmt.scopeOf(p), fmt.idKey(p)) in seen.value
  }

  lemma ReadPointsCons<H, P>(fmt: Format<H, P>, line: string, more: seq<string>, hashed: string, count: nat,
                             seen: Option<set<(string, string)>>)
    ensures ReadPoints(fmt, [line] + more, hashed, count, seen) ==
      if more == [] then Pass([], Finalize(fmt, line, hashed, count))
      else if fmt.readPoint(line).None? then Pass([], Failure(InvalidPoint))
      else if IsDuplicate(fmt, seen, fmt.readPoint(line).value) then Pass([], Failure(DuplicatePoint))
      else Then([fmt.readPoint(line).value],
        ReadPoints(fmt, more, hashed + Fed(line), count + 1, Seen(fmt, seen, fmt.readPoint(line).value)))
  {
    hide Finalize, Fed;
    assert ([line] + more)[1..] == more;
  }

  lemma NoLines<H, P>(fmt: Format<H, P>, hashed: string, count: nat, seen: Option<set<(string, string)>>)
    ensures ReadPoints(fmt, [], hashed, count, seen) == Pass([], Failure(MissingTrailer)) && Lines("") == []
  {
  }

  lemma LinesNone(text: string)
    ensures Lines(text) == [] <==> text == ""
  {
  }

  /** `SnapshotReader`: the unread text, one line of lookahead, and what was hashed and counted. */
  class SnapshotReader<H, P> {
    const fmt: Format<H, P>
    var rest: string
    var pending: Option<string>
    var hashed: string
    var pointCount: nat
    var consumed: bool
    var trailer: Option<Trailer>

    constructor (fmt: Format<H, P>, text: string)
      ensures this.fmt == fmt && rest == text && pending == None && hashed == "" && pointCount == 0 && !consumed
        && trailer == None
    {
      this.fmt := fmt;
      rest, pending, hashed, pointCount, consumed, trailer := text, None, "", 0, false, None;
    }

    /** The lines still to be looked at. */
    function Ahead(): seq<string>
      reads this
    {
      (if pending.Some? then [pending.value] else []) + Lines(rest)
    }

    method ReadLine() returns (line: Option<string>)
      modifies this`rest
      ensures old(rest) == "" ==> line == None && rest == ""
      ensures old(rest) != "" ==> line.Some? && Lines(old(rest)) == [line.value] + Lines(rest) && |rest| < |old(rest)|
    {
      var e := LineEnd(rest);
      line := if e > 0 then Some(rest[..e]) else None;
      rest := rest[e..];
    }

    /** The rest of `__init__`: the header, and the first line of lookahead. */
    method Open() returns (header: Result<H>)
      requires pending == None
      modifies this`rest, this`pending
      ensures var lines := Lines(old(rest));
        header == if lines == [] then Failure(EmptySnapshot)
                  else if fmt.readHeader(lines[0]).Some? then Success(fmt.readHeader(lines[0]).value)
                    else Failure(InvalidHeader)
      ensures header.Success? ==>
        Lines(old(rest)) != [] && Ahead() == Lines(old(rest))[1..] && (pending == None ==> rest == "")
    {
      var first := ReadLine();
      if first.None? {
        return Failure(EmptySnapshot);
      }
      var h := fmt.readHeader(first.value);
      if h.None? {
        return Failure(InvalidHeader);
      }
      header := Success(h.value);
      pending := ReadLine();
    }

    /** The pending line, after looking ahead; unless it is the last, what follows becomes pending. */
    method TakeLine() returns (line: string, last: bool)
      requires pending.Some?
      modifies this`rest, this`pending
      ensures last ==> old(Ahead()) == [line] + []
      ensures !last ==> old(Ahead()) == [line] + Ahead() && Ahead() != [] && pending.Some? && |rest| < |old(rest)|
    {
      LinesNone(rest);
      hide Lines;
      line := pending.value;
      var following := ReadLine();
      last := following.None?;
      if !last {
        pending := following;
      }
    }

    /** `points`, run to its end; the yielded points and what it raised, if anything. */
    method Points(checkDuplicates: bool) returns (pass: Pass<P>)
      requires pending == None ==> rest == ""
      requires !consumed ==> trailer == None
      modifies this
      ensures consumed
      ensures old(consumed) ==>
        pass == Pass([], Failure(AlreadyConsumed)) && trailer == old(trailer) && Ahead() == old(Ahead())
      ensures !old(consumed) ==>
        && pass == ReadPoints(fmt, old(Ahead()), old(hashed), old(pointCount), if checkDuplicates then Some({})
          else None)
        && (pass.result.Success? ==> trailer == Some(pass.result.value))
        && (pass.result.Failure? ==> trailer == None)
    {
      if consumed {
        return Pass([], Failure(AlreadyConsumed));
      }
      consumed := true;
      pass := Drain(if checkDuplicates then Some({}) else None);
    }

    /** The loop of `points`. */
    method Drain(checked: Option<set<(string, string)>>) returns (pass: Pass<P>)
      requires (pending == None ==> rest == "") && trailer == None
      modifies this`rest, this`pending, this`hashed, this`pointCount, this`trailer
      ensures pass == ReadPoints(fmt, old(Ahead()), old(hashed), old(pointCount), checked)
      ensures trailer == if pass.result.Success? then Some(pass.result.value) else None
    {
      hide ReadPoints, Lines, Finalize, Fed, Then, Seen, IsDuplicate;
      var seen := checked;
      ghost var ahead := Ahead();
      ghost var whole := ReadPoints(fmt, ahead, hashed, pointCount, seen);
      var yielded: seq<P> := [];
      NoLines(fmt, hashed, pointCount, seen);
      ThenEnds(yielded, Failure(MissingTrailer), whole);
      while pending.Some?
        invariant trailer == None && ahead == Ahead() && (pending == None ==> ahead == [])
        invariant whole == Then(yielded, ReadPoints(fmt, ahead, hashed, pointCount, seen))
        decreases |rest|, if pending.Some? then 1 else 0
      {
        var line, last := TakeLine();
        ReadPointsCons(fmt, line, if last then [] else Ahead(), hashed, pointCount, seen);
        if last {
          var end := Finish(line);
          ThenEnds(yielded, end, whole);
          return Pass(yielded, end);
        }
        ahead := Ahead();
        var point := fmt.readPoint(line);
        if point.None? {
          ThenEnds(yielded, Failure(InvalidPoint), whole);
          return Pass(yielded, Failure(InvalidPoint));
        }
        hashed, pointCount := hashed + Fed(line), pointCount + 1;
        if IsDuplicate(fmt, seen, point.value) {
          ThenEnds(yielded, Failure(DuplicatePoint), whole);
          return Pass(yielded, Failure(DuplicatePoint));
        }
        seen := Seen(fmt, seen, point.value);
        ThenCons(yielded, point.value, ReadPoints(fmt, ahead, hashed, pointCount, seen));
        yielded := yielded + [point.value];
      }
      NoLines(fmt, hashed, pointCount, seen);
      ThenEnds(yielded, Failure(MissingTrailer), whole);
      return Pass(yielded, Failure(MissingTrailer));
    }

    /** `_finalize`: the trailer is kept if it matches what was read. */
    method Finish(line: string) returns (end: Result<Trailer>)
      modifies this`trailer
      ensures end == Finalize(fmt, line, hashed, pointCount)
      ensures trailer == if end.Success? then Some(end.value) else old(trailer)
    {
      end := Finalize(fmt, line, hashed, pointCount);
      if end.Success? {
        trailer := Some(end.value);
      }
    }
  }
}
