/** What a snapshot's trailer says, what makes the reader reject it, and where a resumed replay starts. */
module SnapshotLaws {
  import opened Ordering
  import opened Canonical
  import opened JsonDict
  import opened Snapshot
  import opened SnapshotProofs

  /** The count is of the points, the hash of their lines laid end to end; the rest is what the caller said. */
  lemma TrailerSays<H, P(!new)>(fmt: Format<H, P>, points: seq<P>, finishedAt: string,
                                consistency: Option<Consistency>)
    requires Writable(fmt, points)
    ensures var t := TrailerOf(fmt, points, finishedAt, consistency);
      && t.pointCount == |points| && t.finishedAt == finishedAt
      && t.contentHash == fmt.hash(Joined(PointLines(fmt, points)))
      && (consistency.None? ==> t.completeness == "complete" && t.startCount == None && t.endCount == None)
      && (consistency.Some? ==> consistency == Some(Consistency(t.completeness, t.startCount, t.endCount)))
  {
    PointTextJoined(fmt, points);
    hide PointText, PointLines, Joined;
  }

  const TRAILER_NAMES := ["record_type", "finished_at", "point_count", "consistency_completeness",
                          "consistency_start_count", "consistency_end_count", "content_hash"]

  function Counted(n: Option<int>): Option<Json> {
    if n.Some? then Some(Int(n.value)) else None
  }

  function TrailerValues(t: Trailer): seq<Option<Json>> {
    [Some(Str("trailer")), Some(Str(t.finishedAt)), Some(Int(t.pointCount)), Some(Str(t.completeness)),
     Counted(t.startCount), Counted(t.endCount), Some(Str(t.contentHash))]
  }

  /** The trailer's record carries each field under its own name, and a count only if there is one. */
  lemma TrailerRecord(t: Trailer)
    ensures TrailerJson(t).Obj? && forall i :: 0 <= i < 7 ==>
      Lookup(TrailerJson(t).members, TRAILER_NAMES[i]) == TrailerValues(t)[i]
  {
    TrailerIsPresent(t);
    NamesDistinct();
    hide Lookup, Present, TRAILER_NAMES, TrailerValues, TrailerJson;
    forall i | 0 <= i < 7 ensures Lookup(TrailerJson(t).members, TRAILER_NAMES[i]) == TrailerValues(t)[i] {
      LookupPresent(TRAILER_NAMES, TrailerValues(t), i);
    }
  }

  lemma NamesDistinct()
    ensures |TRAILER_NAMES| == 7 && Distinct(TRAILER_NAMES)
  {
    var k := TRAILER_NAMES;
    assert |k[0]| == 11 && |k[1]| == 11 && |k[2]| == 11 && |k[3]| == 24 && |k[4]| == 23 && |k[5]| == 21 && |k[6]| == 12;
    assert k[0][0] == 'r' && k[1][0] == 'f' && k[2][0] == 'p';
  }

  /** What one name contributes to a dump. */
  function Held(name: string, value: Option<Json>): seq<Entry<Json>> {
    if value.Some? then [Entry(name, value.value)] else []
  }

  lemma {:induction false} PresentSnoc(names: seq<string>, values: seq<Option<Json>>, name: string,
                                       value: Option<Json>)
    requires |names| == |values|
    ensures Present(names + [name], values + [value]) == Present(names, values) + Held(name, value)
  {
    if names == [] {
      assert names + [name] == [name] && values + [value] == [value];
      assert Present([name], [value]) == Held(name, value) + Present([name][1..], [value][1..]);
    } else {
      assert (names + [name])[1..] == names[1..] + [name] && (values + [value])[1..] == values[1..] + [value];
      PresentSnoc(names[1..], values[1..], name, value);
    }
  }

  lemma PresentPrefix(names: seq<string>, values: seq<Option<Json>>, i: nat)
    requires |names| == |values| && i < |names|
    ensures Present(names[..i + 1], values[..i + 1]) == Present(names[..i], values[..i]) + Held(names[i], values[i])
  {
    PresentSnoc(names[..i], values[..i], names[i], values[i]);
    assert names[..i + 1] == names[..i] + [names[i]] && values[..i + 1] == values[..i] + [values[i]];
  }

  lemma PresentSeven(n: seq<string>, v: seq<Option<Json>>)
    requires |n| == |v| == 7
    ensures Present(n, v) == Held(n[0], v[0]) + Held(n[1], v[1]) + Held(n[2], v[2]) + Held(n[3], v[3])
      + Held(n[4], v[4]) + Held(n[5], v[5]) + Held(n[6], v[6])
  {
    hide Present, Held;
    NothingPresent();
    assert n[..0] == [] && v[..0] == [];
    PresentPrefix(n, v, 0);
    PresentPrefix(n, v, 1);
    PresentPrefix(n, v, 2);
    PresentPrefix(n, v, 3);
    PresentPrefix(n, v, 4);
    PresentPrefix(n, v, 5);
    PresentPrefix(n, v, 6);
    assert [] + Held(n[0], v[0]) == Held(n[0], v[0]);
    assert n[..7] == n && v[..7] == v;
  }

  lemma NothingPresent()
    ensures Present([], []) == []
  {
  }

  lemma TrailerIsPresent(t: Trailer)
    ensures |TRAILER_NAMES| == 7 && |TrailerValues(t)| == 7
    ensures TrailerJson(t) == Obj(Present(TRAILER_NAMES, TrailerValues(t)))
  {
    PresentSeven(TRAILER_NAMES, TrailerValues(t));
    hide Present;
    FourHeld(Str("trailer"), Str(t.finishedAt), Int(t.pointCount), Str(t.completeness));
    assert OptionalCount("consistency_start_count", t.startCount) ==
      Held("consistency_start_count", Counted(t.startCount));
    assert OptionalCount("consistency_end_count", t.endCount) == Held("consistency_end_count", Counted(t.endCount));
  }

  lemma FourHeld(a: Json, b: Json, c: Json, d: Json)
    ensures Held("record_type", Some(a)) + Held("finished_at", Some(b)) + Held("point_count", Some(c)) +
      Held("consistency_completeness", Some(d)) ==
      [Entry("record_type", a), Entry("finished_at", b), Entry("point_count", c), Entry("consistency_completeness", d)]
  {
  }

  // ----- rejections

  /** The trailer is accepted exactly if it reads, its count is right and its hash is right, checked in that order. */
  lemma FinalizeSays<H, P>(fmt: Format<H, P>, line: string, hashed: string, count: nat)
    ensures var t, r := fmt.readTrailer(line), Finalize(fmt, line, hashed, count);
      && (r.Success? <==> t.Some? && t.value.pointCount == count && t.value.contentHash == fmt.hash(hashed))
      && (r.Success? ==> t == Some(r.value))
      && (r == Failure(InvalidTrailer) <==> t.None?)
      && (r == Failure(CountMismatch) <==> t.Some? && t.value.pointCount != count)
      && (r == Failure(HashMismatch) <==>
          t.Some? && t.value.pointCount == count && t.value.contentHash != fmt.hash(hashed))
  {
  }

  /** The keys of these points. */
  function SeenAll<H, P>(fmt: Format<H, P>, points: seq<P>): Option<set<(string, string)>> {
    if points == [] then Some({}) else Seen(fmt, SeenAll(fmt, points[..|points| - 1]), points[|points| - 1])
  }

  /** A point is a duplicate exactly of an earlier point with the same scope and the same id. */
  lemma {:induction false} DuplicateIs<H, P(!new)>(fmt: Format<H, P>, points: seq<P>, p: P)
    ensures SeenAll(fmt, points).Some?
    ensures IsDuplicate(fmt, SeenAll(fmt, points), p) <==>
      exists i :: 0 <= i < |points| && fmt.scopeOf(points[i]) == fmt.scopeOf(p) && fmt.idKey(points[i]) == fmt.idKey(p)
  {
    if points != [] {
      var n := |points| - 1;
      DuplicateIs(fmt, points[..n], p);
      assert forall i :: 0 <= i < n ==> points[..n][i] == points[i];
    }
  }

  /** Keys repeat exactly where two points share their scope and their id. */
  lemma FreshIs<H, P(!new)>(fmt: Format<H, P>, points: seq<P>)
    ensures FreshKeys(fmt, {}, points) <==>
      forall i, j :: 0 <= i < j < |points| ==>
        fmt.scopeOf(points[i]) != fmt.scopeOf(points[j]) || fmt.idKey(points[i]) != fmt.idKey(points[j])
  {
    if FreshKeys(fmt, {}, points) {
      forall i, j | 0 <= i < j < |points|
        ensures fmt.scopeOf(points[i]) != fmt.scopeOf(points[j]) || fmt.idKey(points[i]) != fmt.idKey(points[j])
      {
        assert KeyOf(fmt, points[i]) != KeyOf(fmt, points[j]);
      }
    }
  }

  // ----- resuming

  /** A replay resumes after the first point with the checkpoint's id, and replays nothing if no point has it. */
  lemma {:induction false} ResumesAfterFirst<H, P(!new)>(fmt: Format<H, P>, points: seq<P>, key: string, i: nat)
    requires i <= |points| && forall k :: 0 <= k < i ==> fmt.idKey(points[k]) != key
    ensures i < |points| && fmt.idKey(points[i]) == key ==> Resume(fmt, points, Some(key)) == points[i + 1..]
    ensures i == |points| ==> Resume(fmt, points, Some(key)) == []
    ensures Resume(fmt, points, None) == points
    decreases i
  {
    if 0 < i {
      assert forall k :: 0 <= k < i - 1 ==> points[1..][k] == points[k + 1];
      ResumesAfterFirst(fmt, points[1..], key, i - 1);
    }
  }
}
