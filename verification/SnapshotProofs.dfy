/** Snapshots round-trip, an accepted snapshot has the hashed point lines, and resuming misses nothing. */
module SnapshotProofs {
  import opened Ordering
  import opened StableSort
  import opened Canonical
  import opened CanonicalEncoder
  import opened CanonicalNormal
  import opened Snapshot
  import CanonicalRoundTrip

  // ----- the written lines

  lemma LineIsWhole(nfc: string -> string, v: Json)
    requires Representable(v)
    ensures WholeLine(Line(nfc, v))
  {
    TextPrintable(nfc, v);
    hide Text, Representable;
  }

  function PointLines<H, P(!new)>(fmt: Format<H, P>, points: seq<P>): (r: seq<string>)
    requires Writable(fmt, points)
    ensures |r| == |points| && forall i :: 0 <= i < |r| ==> r[i] == Line(fmt.nfc, fmt.pointJson(points[i]))
  {
    seq(|points|, i requires 0 <= i < |points| => Line(fmt.nfc, fmt.pointJson(points[i])))
  }

  lemma {:induction false} JoinedConcat(a: seq<string>, b: seq<string>)
    ensures Joined(a + b) == Joined(a) + Joined(b)
  {
    if a == [] {
      assert a + b == b;
    } else {
      assert (a + b)[1..] == a[1..] + b;
      JoinedConcat(a[1..], b);
    }
  }

  lemma JoinedOne(line: string)
    ensures Joined([line]) == line
  {
    assert [line][1..] == [] && line + "" == line;
  }

  lemma {:induction false} PointTextJoined<H, P(!new)>(fmt: Format<H, P>, points: seq<P>)
    requires Writable(fmt, points)
    ensures PointText(fmt, points) == Joined(PointLines(fmt, points))
  {
    hide Line, Representable;
    if points != [] {
      var init, last := points[..|points| - 1], Line(fmt.nfc, fmt.pointJson(points[|points| - 1]));
      PointTextJoined(fmt, init);
      JoinedConcat(PointLines(fmt, init), [last]);
      JoinedOne(last);
      assert PointLines(fmt, points) == PointLines(fmt, init) + [last];
    }
  }

  lemma FramedLines(h: string, lines: seq<string>, t: string)
    requires WholeLine(h) && AllWhole(lines) && WholeLine(t)
    ensures Lines(h + Joined(lines) + t) == [h] + lines + [t]
  {
    hide WholeLine, Lines, Joined;
    LinesCons(t, "");
    LinesNone("");
    assert t + "" == t;
    LinesJoined(lines, t);
    LinesCons(h, Joined(lines) + t);
    assert h + (Joined(lines) + t) == h + Joined(lines) + t;
  }

  lemma PointLinesWhole<H, P(!new)>(fmt: Format<H, P>, points: seq<P>)
    requires Writable(fmt, points)
    ensures AllWhole(PointLines(fmt, points))
  {
    hide WholeLine, Line, Representable;
    forall i | 0 <= i < |points| ensures WholeLine(PointLines(fmt, points)[i]) {
      LineIsWhole(fmt.nfc, fmt.pointJson(points[i]));
    }
  }

  /** The lines of a written snapshot: header, points, trailer. */
  lemma WrittenLines<H, P(!new)>(fmt: Format<H, P>, header: H, points: seq<P>, trailer: Trailer)
    requires Representable(fmt.headerJson(header)) && Writable(fmt, points)
    ensures Lines(Written(fmt, header, points, trailer)) ==
      [Line(fmt.nfc, fmt.headerJson(header))] + PointLines(fmt, points) + [Line(fmt.nfc, TrailerJson(trailer))]
  {
    hide WholeLine, AllWhole, Lines, Line, Joined, Representable, TrailerJson, PointText, PointLines, Writable;
    PointTextJoined(fmt, points);
    PointLinesWhole(fmt, points);
    LineIsWhole(fmt.nfc, fmt.headerJson(header));
    LineIsWhole(fmt.nfc, TrailerJson(trailer));
    FramedLines(Line(fmt.nfc, fmt.headerJson(header)), PointLines(fmt, points), Line(fmt.nfc, TrailerJson(trailer)));
  }

  // ----- round trip

  /** What the line written for a point is read back as. */
  function Reread<H, P(!new)>(fmt: Format<H, P>, p: P): Option<P>
    requires Representable(fmt.pointJson(p))
  {
    fmt.readPoint(Line(fmt.nfc, fmt.pointJson(p)))
  }

  /** What a pass yields of written points, and what stops it: a point that does not read back, or a repeated key. */
  function Replay<H, P(!new)>(fmt: Format<H, P>, points: seq<P>, seen: Option<set<(string, string)>>)
    : (seq<P>, Option<Error>)
    requires Writable(fmt, points)
    decreases |points|
  {
    if points == [] then ([], None)
    else
      assert Representable(fmt.pointJson(points[0]));
      match Reread(fmt, points[0])
      case None => ([], Some(InvalidPoint))
      case Some(p) =>
        if IsDuplicate(fmt, seen, p) then ([], Some(DuplicatePoint))
        else
          var (yielded, stop) := Replay(fmt, points[1..], Seen(fmt, seen, p));
          ([p] + yielded, stop)
  }

  lemma WholeFed(line: string)
    requires WholeLine(line)
    ensures Fed(line) == line
  {
    var body := line[..|line| - 1];
    assert WithoutNewlines(body) == body;
    assert body + "\n" == line;
  }

  lemma PointLinesCons<H, P(!new)>(fmt: Format<H, P>, points: seq<P>)
    requires Writable(fmt, points) && points != []
    ensures PointLines(fmt, points) == [Line(fmt.nfc, fmt.pointJson(points[0]))] + PointLines(fmt, points[1..])
  {
    hide Line, Representable;
  }

  /** Reading the written point lines: what they replay, and then the trailer. */
  lemma {:induction false} ReadsPoints<H, P(!new)>(fmt: Format<H, P>, points: seq<P>, last: string, hashed: string,
      count: nat, seen: Option<set<(string, string)>>)
    requires Writable(fmt, points)
    ensures
      var (yielded, stop) := Replay(fmt, points, seen);
      ReadPoints(fmt, PointLines(fmt, points) + [last], hashed, count, seen) == Pass(yielded,
        if stop.Some? then Failure(stop.value)
        else Finalize(fmt, last, hashed + Joined(PointLines(fmt, points)), count + |points|))
    decreases |points|
  {
    hide Line, Representable, Finalize, Fed, ReadPoints, Joined;
    if points == [] {
      ReadPointsCons(fmt, last, [], hashed, count, seen);
      assert PointLines(fmt, points) + [last] == [last] + [];
      JoinedNone();
      assert hashed + "" == hashed;
    } else {
      assert Representable(fmt.pointJson(points[0]));
      var line, rest := Line(fmt.nfc, fmt.pointJson(points[0])), PointLines(fmt, points[1..]);
      LineIsWhole(fmt.nfc, fmt.pointJson(points[0]));
      WholeFed(line);
      PointLinesCons(fmt, points);
      assert PointLines(fmt, points) + [last] == [line] + (rest + [last]);
      ReadPointsCons(fmt, line, rest + [last], hashed, count, seen);
      var p := Reread(fmt, points[0]);
      if p.Some? && !IsDuplicate(fmt, seen, p.value) {
        ReadsPoints(fmt, points[1..], last, hashed + line, count + 1, Seen(fmt, seen, p.value));
        JoinedConcat([line], rest);
        JoinedOne(line);
        assert (hashed + line) + Joined(rest) == hashed + (line + Joined(rest));
      }
    }
  }

  lemma JoinedNone()
    ensures Joined([]) == ""
  {
  }

  /** A pass over a whole file: the header line is taken off first. */
  function ReadFile<H, P>(fmt: Format<H, P>, text: string, checkDuplicates: bool): Pass<P> {
    var lines := Lines(text);
    if lines == [] then Pass([], Failure(EmptySnapshot))
    else if fmt.readHeader(lines[0]).None? then Pass([], Failure(InvalidHeader))
    else ReadPoints(fmt, lines[1..], "", 0, if checkDuplicates then Some({}) else None)
  }

  /** The header and the trailer are read back from their lines; of the header it matters only that it is. */
  ghost predicate Framed<H, P(!new)>(fmt: Format<H, P>, header: H, trailer: Trailer) {
    && Representable(fmt.headerJson(header)) && fmt.readHeader(Line(fmt.nfc, fmt.headerJson(header))).Some?
    && fmt.readTrailer(Line(fmt.nfc, TrailerJson(trailer))) == Some(trailer)
  }

  /** The reader yields what the written points replay, and accepts the trailer unless the replay stops. */
  lemma RoundTrip<H, P(!new)>(fmt: Format<H, P>, header: H, points: seq<P>, finishedAt: string,
      consistency: Option<Consistency>, checkDuplicates: bool)
    requires Writable(fmt, points) && Framed(fmt, header, TrailerOf(fmt, points, finishedAt, consistency))
    ensures
      var t := TrailerOf(fmt, points, finishedAt, consistency);
      var (yielded, stop) := Replay(fmt, points, if checkDuplicates then Some({}) else None);
      ReadFile(fmt, Written(fmt, header, points, t), checkDuplicates) ==
        Pass(yielded, if stop.Some? then Failure(stop.value) else Success(t))
  {
    hide Line, Representable, TrailerJson, ReadPoints, Writable, PointLines, PointText, Joined, Lines, Written, Replay;
    var t := TrailerOf(fmt, points, finishedAt, consistency);
    var h, last := Line(fmt.nfc, fmt.headerJson(header)), Line(fmt.nfc, TrailerJson(t));
    WrittenLines(fmt, header, points, t);
    assert ([h] + PointLines(fmt, points) + [last])[1..] == PointLines(fmt, points) + [last];
    PointTextJoined(fmt, points);
    ReadsPoints(fmt, points, last, "", 0, if checkDuplicates then Some({}) else None);
    assert "" + Joined(PointLines(fmt, points)) == Joined(PointLines(fmt, points));
  }

  // ----- which points come back as they were

  ghost predicate Restores<H, P(!new)>(fmt: Format<H, P>, p: P) {
    Representable(fmt.pointJson(p)) && Reread(fmt, p) == Some(p)
  }

  function KeyOf<H, P>(fmt: Format<H, P>, p: P): (string, string) {
    (fmt.scopeOf(p), fmt.idKey(p))
  }

  /** No two points share a key, and none has a key that was seen. */
  ghost predicate FreshKeys<H, P(!new)>(fmt: Format<H, P>, seen: set<(string, string)>, points: seq<P>) {
    && (forall i :: 0 <= i < |points| ==> KeyOf(fmt, points[i]) !in seen)
    && (forall i, j :: 0 <= i < j < |points| ==> KeyOf(fmt, points[i]) != KeyOf(fmt, points[j]))
  }

  /**
  The written points come back, all and in order, exactly when each reads back as it was, and no key repeats where that
  is checked.
  */
  lemma {:induction false} ReplayIsIdentityIff<H, P(!new)>(fmt: Format<H, P>, points: seq<P>,
      seen: Option<set<(string, string)>>)
    requires Writable(fmt, points)
    ensures Replay(fmt, points, seen) == (points, None) <==>
      (forall i :: 0 <= i < |points| ==> Restores(fmt, points[i]))
      && (seen.Some? ==> FreshKeys(fmt, seen.value, points))
    decreases |points|
  {
    hide Line, Representable, Reread;
    if points != [] {
      assert Representable(fmt.pointJson(points[0]));
      var p := Reread(fmt, points[0]);
      if p.Some? && !IsDuplicate(fmt, seen, p.value) {
        ReplayIsIdentityIff(fmt, points[1..], Seen(fmt, seen, p.value));
        IdentityCons(fmt, points, seen, p.value);
        if seen.Some? && p.value == points[0] {
          FreshCons(fmt, seen.value, points);
        }
        RestoresCons(fmt, points);
      } else if seen.Some? && p.Some? && p.value == points[0] {
        assert KeyOf(fmt, points[0]) in seen.value;
      }
    }
  }

  lemma IdentityCons<H, P(!new)>(fmt: Format<H, P>, points: seq<P>, seen: Option<set<(string, string)>>, p: P)
    requires Writable(fmt, points) && points != [] && Representable(fmt.pointJson(points[0]))
    requires Reread(fmt, points[0]) == Some(p) && !IsDuplicate(fmt, seen, p)
    ensures Replay(fmt, points, seen) == (points, None)
      <==> p == points[0] && Replay(fmt, points[1..], Seen(fmt, seen, p)) == (points[1..], None)
  {
    hide Reread, Representable, Seen, IsDuplicate;
    var (yielded, stop) := Replay(fmt, points[1..], Seen(fmt, seen, p));
    assert Replay(fmt, points, seen) == ([p] + yielded, stop);
    assert ([p] + yielded)[0] == p && ([p] + yielded)[1..] == yielded;
    assert [points[0]] + points[1..] == points;
  }

  lemma RestoresCons<H, P(!new)>(fmt: Format<H, P>, points: seq<P>)
    requires points != []
    ensures (forall i :: 0 <= i < |points| ==> Restores(fmt, points[i]))
      <==> Restores(fmt, points[0]) && forall i :: 0 <= i < |points[1..]| ==> Restores(fmt, points[1..][i])
  {
    hide Restores;
    assert forall i :: 0 < i < |points| ==> points[i] == points[1..][i - 1];
  }

  lemma FreshCons<H, P(!new)>(fmt: Format<H, P>, seen: set<(string, string)>, points: seq<P>)
    requires points != [] && KeyOf(fmt, points[0]) !in seen
    ensures FreshKeys(fmt, seen, points) <==> FreshKeys(fmt, seen + {KeyOf(fmt, points[0])}, points[1..])
  {
    assert forall i :: 0 < i < |points| ==> points[i] == points[1..][i - 1];
    assert forall i :: 0 <= i < |points| - 1 ==> points[1..][i] == points[i + 1];
  }

  function ReadThrough<P>(validate: Canon -> Option<P>, line: string): Option<P> {
    if line != "" && Read(line[..|line| - 1]).Some? then validate(Read(line[..|line| - 1]).value) else None
  }

  /**
  Lines are read through the document their text denotes. Validation gives a point back from what its dump holds,
  and whatever it gives from a written line dumps to what that line denotes.
  */
  ghost predicate Validates<H, P(!new)>(fmt: Format<H, P>, validate: Canon -> Option<P>) {
    && (forall line :: fmt.readPoint(line) == ReadThrough(validate, line))
    && (forall p :: Representable(fmt.pointJson(p)) ==> validate(Content(fmt.pointJson(p))) == Some(p))
    && (forall p :: Representable(fmt.pointJson(p)) ==>
      DumpsTo(fmt, validate(Denote(fmt.nfc, fmt.pointJson(p))), Denote(fmt.nfc, fmt.pointJson(p))))
  }

  ghost predicate DumpsTo<H, P(!new)>(fmt: Format<H, P>, p: Option<P>, c: Canon) {
    p.Some? ==> Representable(fmt.pointJson(p.value)) && Content(fmt.pointJson(p.value)) == c
  }

  lemma RereadValidates<H, P(!new)>(fmt: Format<H, P>, validate: Canon -> Option<P>, p: P)
    requires Validates(fmt, validate) && Representable(fmt.pointJson(p))
    ensures Reread(fmt, p) == validate(Denote(fmt.nfc, fmt.pointJson(p)))
  {
    CanonicalRoundTrip.RoundTrip(fmt.nfc, fmt.pointJson(p));
    hide Text, Denote, Read, Representable, Content;
    var t := Text(fmt.nfc, fmt.pointJson(p));
    assert (t + "\n")[..|t|] == t;
    assert fmt.readPoint(t + "\n") == ReadThrough(validate, t + "\n");
  }

  /** What comes back for a point holds what the point denotes: the point with every string normalized. */
  lemma RereadIsNormalized<H, P(!new)>(fmt: Format<H, P>, validate: Canon -> Option<P>, p: P)
    requires Validates(fmt, validate) && Representable(fmt.pointJson(p)) && Reread(fmt, p).Some?
    ensures var q := Reread(fmt, p).value;
      Representable(fmt.pointJson(q)) && Content(fmt.pointJson(q)) == Denote(fmt.nfc, fmt.pointJson(p))
  {
    RereadValidates(fmt, validate, p);
    hide Denote, Content, Representable, Reread;
    assert DumpsTo(fmt, validate(Denote(fmt.nfc, fmt.pointJson(p))), Denote(fmt.nfc, fmt.pointJson(p)));
  }

  /** A written point comes back as it was exactly when every string and name in it is in normal form. */
  lemma RestoresIffNormal<H, P(!new)>(fmt: Format<H, P>, validate: Canon -> Option<P>, p: P)
    requires Validates(fmt, validate) && Representable(fmt.pointJson(p))
    ensures Restores(fmt, p) <==> NormalForm(fmt.nfc, fmt.pointJson(p))
  {
    NormalIffOwnContent(fmt.nfc, fmt.pointJson(p));
    RereadValidates(fmt, validate, p);
    hide Denote, Content, Representable, Reread, NormalForm;
    if Restores(fmt, p) {
      assert DumpsTo(fmt, validate(Denote(fmt.nfc, fmt.pointJson(p))), Denote(fmt.nfc, fmt.pointJson(p)));
    }
  }

  ghost predicate AllNormal<H, P(!new)>(fmt: Format<H, P>, points: seq<P>) {
    forall i :: 0 <= i < |points| ==> NormalForm(fmt.nfc, fmt.pointJson(points[i]))
  }

  /** A whole snapshot comes back as it was written exactly when all its points are in normal form. */
  lemma SnapshotRestoredIff<H, P(!new)>(fmt: Format<H, P>, validate: Canon -> Option<P>, header: H, points: seq<P>,
      finishedAt: string, consistency: Option<Consistency>)
    requires Validates(fmt, validate) && Writable(fmt, points)
    requires Framed(fmt, header, TrailerOf(fmt, points, finishedAt, consistency))
    ensures
      var t := TrailerOf(fmt, points, finishedAt, consistency);
      ReadFile(fmt, Written(fmt, header, points, t), false) == Pass(points, Success(t)) <==> AllNormal(fmt, points)
  {
    RoundTrip(fmt, header, points, finishedAt, consistency, false);
    ReplayIsIdentityIff(fmt, points, None);
    hide Validates, NormalForm, Restores, Replay, ReadFile, Written, TrailerJson, TrailerOf, Representable, Framed;
    forall i | 0 <= i < |points| ensures Restores(fmt, points[i]) <==> NormalForm(fmt.nfc, fmt.pointJson(points[i])) {
      RestoresIffNormal(fmt, validate, points[i]);
    }
  }

  // ----- what an accepted snapshot contains

  function FedAll(lines: seq<string>): string {
    if lines == [] then "" else Fed(lines[0]) + FedAll(lines[1..])
  }

  lemma {:induction false} FedAllWhole(lines: seq<string>)
    requires AllWhole(lines)
    ensures FedAll(lines) == Joined(lines)
  {
    hide Fed, WholeLine;
    if lines != [] {
      WholeFed(lines[0]);
      FedAllWhole(lines[1..]);
    }
  }

  /** What a verified trailer says of the lines before it. */
  ghost predicate Verified<H, P(!new)>(fmt: Format<H, P>, lines: seq<string>, hashed: string, count: nat,
      pass: Pass<P>) {
    && pass.result.Success? && |lines| == |pass.yielded| + 1
    && pass.result.value.pointCount == count + |pass.yielded|
    && pass.result.value.contentHash == fmt.hash(hashed + FedAll(lines[..|lines| - 1]))
    && forall i :: 0 <= i < |pass.yielded| ==> fmt.readPoint(lines[i]) == Some(pass.yielded[i])
  }

  lemma {:induction false} AcceptedLines<H, P(!new)>(fmt: Format<H, P>, lines: seq<string>, hashed: string, count: nat,
      seen: Option<set<(string, string)>>)
    requires ReadPoints(fmt, lines, hashed, count, seen).result.Success?
    ensures Verified(fmt, lines, hashed, count, ReadPoints(fmt, lines, hashed, count, seen))
    decreases |lines|
  {
    hide Fed;
    var pass := ReadPoints(fmt, lines, hashed, count, seen);
    if |lines| == 1 {
      assert lines[..0] == [] && hashed + "" == hashed;
    } else {
      var p := fmt.readPoint(lines[0]).value;
      var later := ReadPoints(fmt, lines[1..], hashed + Fed(lines[0]), count + 1, Seen(fmt, seen, p));
      AcceptedLines(fmt, lines[1..], hashed + Fed(lines[0]), count + 1, Seen(fmt, seen, p));
      assert pass == Pass([p] + later.yielded, later.result);
      var init := lines[..|lines| - 1];
      assert init[1..] == lines[1..][..|lines| - 2];
      assert (hashed + Fed(lines[0])) + FedAll(init[1..]) == hashed + (Fed(lines[0]) + FedAll(init[1..]));
    }
  }

  ghost predicate Injective(hash: string -> string) {
    forall a, b :: hash(a) == hash(b) ==> a == b
  }

  lemma AcceptedFile<H, P(!new)>(fmt: Format<H, P>, text: string, checkDuplicates: bool)
    requires ReadFile(fmt, text, checkDuplicates).result.Success?
    ensures
      var lines, pass := Lines(text), ReadFile(fmt, text, checkDuplicates);
      && |lines| == |pass.yielded| + 2 && AllWhole(lines[1..|lines| - 1])
      && pass.result.value.contentHash == fmt.hash(Joined(lines[1..|lines| - 1]))
      && forall i :: 0 <= i < |pass.yielded| ==> fmt.readPoint(lines[1..|lines| - 1][i]) == Some(pass.yielded[i])
  {
    hide ReadPoints, Lines, Fed, WholeLine, FedAll, Joined;
    var lines := Lines(text);
    AcceptedLines(fmt, lines[1..], "", 0, if checkDuplicates then Some({}) else None);
    LinesWhole(text);
    var middle := lines[1..|lines| - 1];
    assert lines[1..][..|lines| - 2] == middle;
    FedAllWhole(middle);
    assert "" + FedAll(middle) == FedAll(middle);
  }

  /** Two accepted snapshots with the same content hash carry the same point lines and yield the same points. */
  lemma SameHashSamePoints<H, P(!new)>(fmt: Format<H, P>, a: string, b: string, checkA: bool, checkB: bool)
    requires Injective(fmt.hash)
    requires ReadFile(fmt, a, checkA).result.Success? && ReadFile(fmt, b, checkB).result.Success?
    requires ReadFile(fmt, a, checkA).result.value.contentHash == ReadFile(fmt, b, checkB).result.value.contentHash
    ensures |Lines(a)| == |Lines(b)| >= 2 && Lines(a)[1..|Lines(a)| - 1] == Lines(b)[1..|Lines(b)| - 1]
    ensures ReadFile(fmt, a, checkA).yielded == ReadFile(fmt, b, checkB).yielded
  {
    hide ReadFile, Lines, Joined;
    AcceptedFile(fmt, a, checkA);
    AcceptedFile(fmt, b, checkB);
    var la, lb := Lines(a)[1..|Lines(a)| - 1], Lines(b)[1..|Lines(b)| - 1];
    FramingInjective(la, lb);
    var ya, yb := ReadFile(fmt, a, checkA).yielded, ReadFile(fmt, b, checkB).yielded;
    forall i | 0 <= i < |ya| ensures ya[i] == yb[i] {
      assert fmt.readPoint(la[i]) == Some(ya[i]) && fmt.readPoint(lb[i]) == Some(yb[i]);
    }
  }

  // ----- resuming

  /** What `iterate_points` replays: everything, or what follows the first point with the checkpoint's key. */
  function Resume<H, P>(fmt: Format<H, P>, points: seq<P>, checkpoint: Option<string>): seq<P> {
    if checkpoint.None? || points == [] then points
    else if fmt.idKey(points[0]) == checkpoint.value then points[1..]
    else Resume(fmt, points[1..], checkpoint)
  }

  /** The loop of `iterate_points` over what the reader yields. */
  method IteratePoints<H, P(!new)>(fmt: Format<H, P>, text: string, checkpoint: Option<string>, project: P -> P)
    returns (replayed: seq<P>, result: Result<Trailer>, observed: nat)
    ensures
      var pass := ReadFile(fmt, text, false);
      && result == pass.result && observed == |pass.yielded|
      && replayed == Map(project, Resume(fmt, pass.yielded, checkpoint))
  {
    hide ReadPoints, Lines, Resume, Map;
    ResumeNone(fmt, checkpoint, project);
    replayed, observed := [], 0;
    var reader := new SnapshotReader<H, P>(fmt, text);
    var header := reader.Open();
    if header.Failure? {
      return [], Failure(header.error), 0;
    }
    var pass := reader.Points(false);
    result := pass.result;
    var skipping := checkpoint.Some?;
    assert pass.yielded[0..] == pass.yielded;
    while observed < |pass.yielded|
      invariant observed <= |pass.yielded|
      invariant Map(project, Resume(fmt, pass.yielded, checkpoint)) ==
        replayed + Map(project, Resume(fmt, pass.yielded[observed..], if skipping then checkpoint else None))
      invariant skipping ==> checkpoint.Some?
    {
      var point := pass.yielded[observed];
      ResumeStep(fmt, pass.yielded, observed, checkpoint, skipping, project);
      observed := observed + 1;
      if skipping {
        if fmt.idKey(point) == checkpoint.value {
          skipping := false;
        }
      } else {
        replayed := replayed + [project(point)];
      }
    }
    assert pass.yielded[observed..] == [];
  }

  lemma ResumeNone<H, P>(fmt: Format<H, P>, checkpoint: Option<string>, project: P -> P)
    ensures Map(project, Resume(fmt, [], checkpoint)) == [] && Map(project, Resume(fmt, [], None)) == []
  {
  }

  lemma ResumeStep<H, P>(fmt: Format<H, P>, points: seq<P>, i: nat, checkpoint: Option<string>, skipping: bool,
                         project: P -> P)
    requires i < |points| && (skipping ==> checkpoint.Some?)
    ensures
      var now := Map(project, Resume(fmt, points[i..], if skipping then checkpoint else None));
      if skipping then now == Map(project,
        Resume(fmt, points[i + 1..], if fmt.idKey(points[i]) == checkpoint.value then None else checkpoint))
      else now == [project(points[i])] + Map(project, Resume(fmt, points[i + 1..], None))
  {
    assert points[i..][1..] == points[i + 1..];
    assert points[i..] == [points[i]] + points[i + 1..];
    MapCons(project, points[i], points[i + 1..]);
  }

  ghost predicate DistinctIds<H, P(!new)>(fmt: Format<H, P>, points: seq<P>) {
    forall i, j :: 0 <= i < j < |points| ==> fmt.idKey(points[i]) != fmt.idKey(points[j])
  }

  /** With distinct ids, resuming from the key of point `k` replays exactly the points after it. */
  lemma {:induction false} ResumeAfter<H, P(!new)>(fmt: Format<H, P>, points: seq<P>, k: nat)
    requires k < |points| && DistinctIds(fmt, points)
    ensures Resume(fmt, points, Some(fmt.idKey(points[k]))) == points[k + 1..]
    decreases k
  {
    if k > 0 {
      assert fmt.idKey(points[0]) != fmt.idKey(points[k]);
      assert forall i :: 0 <= i < |points| - 1 ==> points[1..][i] == points[i + 1];
      ResumeAfter(fmt, points[1..], k - 1);
    }
  }

  /** Replaying through point `k` and resuming from its key is a full replay. */
  ghost predicate ResumesAt<H, P(!new)>(fmt: Format<H, P>, points: seq<P>, k: nat)
    requires k < |points|
  {
    points[..k + 1] + Resume(fmt, points, Some(fmt.idKey(points[k]))) == points
  }

  lemma DistinctResumes<H, P(!new)>(fmt: Format<H, P>, points: seq<P>, k: nat)
    requires k < |points| && DistinctIds(fmt, points)
    ensures ResumesAt(fmt, points, k)
  {
    ResumeAfter(fmt, points, k);
    hide DistinctIds, Resume;
  }

  lemma SharedIdRepeats<H, P(!new)>(fmt: Format<H, P>, points: seq<P>, i: nat, j: nat)
    requires i < j < |points| && fmt.idKey(points[i]) == fmt.idKey(points[j])
    ensures !ResumesAt(fmt, points, j)
  {
    ResumeEarly(fmt, points, fmt.idKey(points[j]), i);
    hide Resume;
    assert |points[..j + 1] + Resume(fmt, points, Some(fmt.idKey(points[j])))| > |points|;
  }

  /** Resuming is lossless and repeats nothing, from every point, exactly when ids are distinct. */
  lemma ResumeLosslessIff<H, P(!new)>(fmt: Format<H, P>, points: seq<P>)
    ensures (forall k :: 0 <= k < |points| ==> ResumesAt(fmt, points, k)) <==> DistinctIds(fmt, points)
  {
    hide ResumesAt;
    if DistinctIds(fmt, points) {
      forall k | 0 <= k < |points| ensures ResumesAt(fmt, points, k) {
        DistinctResumes(fmt, points, k);
      }
    } else {
      var i, j :| 0 <= i < j < |points| && fmt.idKey(points[i]) == fmt.idKey(points[j]);
      SharedIdRepeats(fmt, points, i, j);
    }
  }

  lemma {:induction false} ResumeEarly<H, P>(fmt: Format<H, P>, points: seq<P>, key: string, i: nat)
    requires i < |points| && fmt.idKey(points[i]) == key
    ensures |Resume(fmt, points, Some(key))| >= |points| - i - 1
    decreases i
  {
    if fmt.idKey(points[0]) != key {
      ResumeEarly(fmt, points[1..], key, i - 1);
    }
  }
}
