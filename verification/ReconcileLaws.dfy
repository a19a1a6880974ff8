/**
What reconciliation reports, said of the points' own fields: what closes a pair, what is left,
what counts as a duplicate, what is suggested, and in which order leftovers are kept.
*/
module ReconcileLaws {
  import opened Ordering
  import opened StableSort
  import opened MergeJoin
  import opened Matching
  import opened Report

  // ----- a round by the fields it compares

  lemma {:induction false} GroupCongruent<T, K>(s: seq<T>, f: T -> K, g: T -> K, k: K)
    requires forall x :: x in s ==> f(x) == g(x)
    ensures Group(s, f, k) == Group(s, g, k)
  {
    if s != [] {
      GroupCongruent(s[1..], f, g, k);
    }
  }

  lemma JoinedCongruent<E(!new), O(!new)>(j: Joined<E, O>, es: seq<E>, os: seq<O>, ek: E -> Key, ok: O -> Key,
                                          ek': E -> Key, ok': O -> Key, k: string)
    requires JoinedAt(j, es, os, ek, ok, k)
    requires (forall e :: ek(e) == ek'(e)) && (forall o :: ok(o) == ok'(o))
    ensures JoinedAt(j, es, os, ek', ok', k)
  {
    GroupCongruent(es, ek, ek', Some(k));
    GroupCongruent(os, ok, ok', Some(k));
    forall p: (E, O) | p in j.pairs ensures PairKey<E, O>(ek)(p) == PairKey<E, O>(ek')(p) {
      assert ek(p.0) == ek'(p.0);
    }
    GroupCongruent(j.pairs, PairKey(ek), PairKey(ek'), Some(k));
    GroupCongruent(j.leftExpected, ek, ek', Some(k));
    GroupCongruent(j.leftObserved, ok, ok', Some(k));
  }

  /** Each level's round settles, under every value of the field the level is named after, that value's points. */
  lemma RoundByField(es: seq<ExpectedPoint>, os: seq<NormalizedPoint>, k: string)
    ensures JoinedAt(Round(PointId, es, os), es, os, (e: ExpectedPoint) => Some(e.pointId),
                     (o: NormalizedPoint) => Some(o.pointId), k)
    ensures JoinedAt(Round(EmbeddingId, es, os), es, os, (e: ExpectedPoint) => Some(e.embeddingId),
                     (o: NormalizedPoint) => o.embeddingId, k)
    ensures JoinedAt(Round(ChunkId, es, os), es, os, (e: ExpectedPoint) => e.chunkId,
                     (o: NormalizedPoint) => o.chunkId, k)
    ensures JoinedAt(Round(SourceVersion, es, os), es, os, (e: ExpectedPoint) => e.sourceVersionId,
                     (o: NormalizedPoint) => o.sourceVersionId, k)
    ensures JoinedAt(Round(ContentHash, es, os), es, os, (e: ExpectedPoint) => Some(e.expectedPayloadHash),
                     (o: NormalizedPoint) => Some(o.payloadHash), k)
  {
    hide Round, JoinedAt;
    RoundAs(PointId, es, os, (e: ExpectedPoint) => Some(e.pointId), (o: NormalizedPoint) => Some(o.pointId), k);
    RoundAs(EmbeddingId, es, os, (e: ExpectedPoint) => Some(e.embeddingId), (o: NormalizedPoint) => o.embeddingId, k);
    RoundAs(ChunkId, es, os, (e: ExpectedPoint) => e.chunkId, (o: NormalizedPoint) => o.chunkId, k);
    RoundAs(SourceVersion, es, os, (e: ExpectedPoint) => e.sourceVersionId, (o: NormalizedPoint) => o.sourceVersionId,
      k);
    RoundAs(ContentHash, es, os, (e: ExpectedPoint) => Some(e.expectedPayloadHash),
      (o: NormalizedPoint) => Some(o.payloadHash), k);
  }

  lemma RoundAs(level: MatchLevel, es: seq<ExpectedPoint>, os: seq<NormalizedPoint>, ek: ExpectedPoint -> Key,
                ok: NormalizedPoint -> Key, k: string)
    requires (forall e :: ExpectedKey(level)(e) == ek(e)) && (forall o :: ObservedKey(level)(o) == ok(o))
    ensures JoinedAt(Round(level, es, os), es, os, ek, ok, k)
  {
    RoundAtKey(level, es, os, k);
    JoinedCongruent(Round(level, es, os), es, os, ExpectedKey(level), ObservedKey(level), ek, ok, k);
  }

  lemma FirstRound(level: MatchLevel, levels: seq<MatchLevel>, es: seq<ExpectedPoint>, os: seq<NormalizedPoint>)
    ensures var j := Round(level, es, os);
      RunLevels([level] + levels, es, os) == RunLevels(levels, j.leftExpected, j.leftObserved).After(level, j)
  {
    assert ([level] + levels)[1..] == levels;
  }

  lemma NoRound(es: seq<ExpectedPoint>, os: seq<NormalizedPoint>)
    ensures RunLevels([], es, os) == MatchOutcome([], es, os, [], [])
  {
  }

  /** The outcome is three rounds in the order point id, embedding id, chunk id, each over what the last one left. */
  lemma ThreeRounds(es: seq<ExpectedPoint>, os: seq<NormalizedPoint>)
    ensures var r := RunLevels(CLOSING_LEVELS, es, os);
      var byPoint := Round(PointId, es, os);
      var byEmbedding := Round(EmbeddingId, byPoint.leftExpected, byPoint.leftObserved);
      var byChunk := Round(ChunkId, byEmbedding.leftExpected, byEmbedding.leftObserved);
      && r.matched == Pairs(PointId, byPoint.pairs) + Pairs(EmbeddingId, byEmbedding.pairs) +
        Pairs(ChunkId, byChunk.pairs)
      && r.missing == byChunk.leftExpected && r.orphan == byChunk.leftObserved
      && r.duplicateExpected == Groups(PointId, byPoint.duplicateExpected) +
        Groups(EmbeddingId, byEmbedding.duplicateExpected) + Groups(ChunkId, byChunk.duplicateExpected)
      && r.duplicateObserved == Groups(PointId, byPoint.duplicateObserved) +
        Groups(EmbeddingId, byEmbedding.duplicateObserved) + Groups(ChunkId, byChunk.duplicateObserved)
  {
    hide Round, Pairs, Groups, RunLevels;
    var byPoint := Round(PointId, es, os);
    var byEmbedding := Round(EmbeddingId, byPoint.leftExpected, byPoint.leftObserved);
    var byChunk := Round(ChunkId, byEmbedding.leftExpected, byEmbedding.leftObserved);
    FirstRound(PointId, [EmbeddingId, ChunkId], es, os);
    FirstRound(EmbeddingId, [ChunkId], byPoint.leftExpected, byPoint.leftObserved);
    FirstRound(ChunkId, [], byEmbedding.leftExpected, byEmbedding.leftObserved);
    NoRound(byChunk.leftExpected, byChunk.leftObserved);
    assert CLOSING_LEVELS == [PointId] + [EmbeddingId, ChunkId];
    assert [EmbeddingId, ChunkId] == [EmbeddingId] + [ChunkId] && [ChunkId] == [ChunkId] + [];
  }

  // ----- what closes a pair

  /** No missing point and orphan point have the same point id, embedding id or chunk id. */
  lemma NothingClosable(es: seq<ExpectedPoint>, os: seq<NormalizedPoint>, e: ExpectedPoint, o: NormalizedPoint)
    requires var r := RunLevels(CLOSING_LEVELS, es, os); e in r.missing && o in r.orphan
    ensures e.pointId != o.pointId
    ensures o.embeddingId != Some(e.embeddingId)
    ensures e.chunkId.Some? ==> o.chunkId != e.chunkId
  {
    hide RunLevels;
    RunCloses(CLOSING_LEVELS, es, os, PointId, e, o);
    RunCloses(CLOSING_LEVELS, es, os, EmbeddingId, e, o);
    RunCloses(CLOSING_LEVELS, es, os, ChunkId, e, o);
  }

  /** A pair agrees on the field its level names and on no field of an earlier level, and is always closed as high. */
  lemma PairFields(es: seq<ExpectedPoint>, os: seq<NormalizedPoint>, i: nat)
    requires i < |RunLevels(CLOSING_LEVELS, es, os).matched|
    ensures var p := RunLevels(CLOSING_LEVELS, es, os).matched[i];
      && p.confidence == High
      && (p.level == PointId || p.level == EmbeddingId || p.level == ChunkId)
      && (p.level == PointId <==> p.expected.pointId == p.observed.pointId)
      && (p.level == EmbeddingId ==> p.observed.embeddingId == Some(p.expected.embeddingId))
      && (p.level == ChunkId ==> p.expected.chunkId.Some? && p.observed.chunkId == p.expected.chunkId)
      && (p.level == ChunkId ==> p.observed.embeddingId != Some(p.expected.embeddingId))
  {
    hide RunLevels;
    var p := RunLevels(CLOSING_LEVELS, es, os).matched[i];
    var n := RunPairs(CLOSING_LEVELS, es, os, i);
    assert !ShareKey(CLOSING_LEVELS[0], p.expected, p.observed) || n == 0;
    assert !ShareKey(CLOSING_LEVELS[1], p.expected, p.observed) || n <= 1;
  }

  // ----- duplicates

  /** At least two points, all with `key` as the value of the field the closing level names. */
  ghost predicate ExpectedDuplicate(d: DuplicateGroup<ExpectedPoint>, es: seq<ExpectedPoint>) {
    && |d.items| >= 2
    && (forall e :: e in d.items ==> e in es)
    && match d.level
      case PointId => forall e :: e in d.items ==> e.pointId == d.key
      case EmbeddingId => forall e :: e in d.items ==> e.embeddingId == d.key
      case ChunkId => forall e :: e in d.items ==> e.chunkId == Some(d.key)
      case _ => false
  }

  ghost predicate ObservedDuplicate(d: DuplicateGroup<NormalizedPoint>, os: seq<NormalizedPoint>) {
    && |d.items| >= 2
    && (forall o :: o in d.items ==> o in os)
    && match d.level
      case PointId => forall o :: o in d.items ==> o.pointId == d.key
      case EmbeddingId => forall o :: o in d.items ==> o.embeddingId == Some(d.key)
      case ChunkId => forall o :: o in d.items ==> o.chunkId == Some(d.key)
      case _ => false
  }

  /** A group a round reports is the whole group of its key, of two or more. */
  lemma RoundDuplicates(level: MatchLevel, es: seq<ExpectedPoint>, os: seq<NormalizedPoint>)
    ensures var j := Round(level, es, os);
      && (forall d :: d in j.duplicateExpected ==> |d.1| > 1 && d.1 == Group(es, ExpectedKey(level), Some(d.0)))
      && (forall d :: d in j.duplicateObserved ==> |d.1| > 1 && d.1 == Group(os, ObservedKey(level), Some(d.0)))
  {
    var j := Round(level, es, os);
    forall d | d in j.duplicateExpected
      ensures |d.1| > 1 && d.1 == Group(es, ExpectedKey(level), Some(d.0))
    {
      RoundAtKey(level, es, os, d.0);
      GroupMember(j.duplicateExpected, DuplicateKey<ExpectedPoint>(), d.0, d);
    }
    forall d | d in j.duplicateObserved
      ensures |d.1| > 1 && d.1 == Group(os, ObservedKey(level), Some(d.0))
    {
      RoundAtKey(level, es, os, d.0);
      GroupMember(j.duplicateObserved, DuplicateKey<NormalizedPoint>(), d.0, d);
    }
  }

  lemma RoundDuplicateFields(level: MatchLevel, es: seq<ExpectedPoint>, os: seq<NormalizedPoint>)
    requires level == PointId || level == EmbeddingId || level == ChunkId
    ensures var j := Round(level, es, os);
      && (forall d :: d in Groups(level, j.duplicateExpected) ==> ExpectedDuplicate(d, es))
      && (forall d :: d in Groups(level, j.duplicateObserved) ==> ObservedDuplicate(d, os))
  {
    hide Round, Groups, Group;
    var j := Round(level, es, os);
    RoundDuplicates(level, es, os);
    forall d | d in Groups(level, j.duplicateExpected) ensures ExpectedDuplicate(d, es) {
      assert (d.key, d.items) in j.duplicateExpected && d.level == level;
      forall e | e in d.items ensures e in es && ExpectedKey(level)(e) == Some(d.key) {
        GroupMember(es, ExpectedKey(level), Some(d.key), e);
      }
    }
    forall d | d in Groups(level, j.duplicateObserved) ensures ObservedDuplicate(d, os) {
      assert (d.key, d.items) in j.duplicateObserved && d.level == level;
      forall o | o in d.items ensures o in os && ObservedKey(level)(o) == Some(d.key) {
        GroupMember(os, ObservedKey(level), Some(d.key), o);
      }
    }
  }

  lemma RoundLeaves(level: MatchLevel, es: seq<ExpectedPoint>, os: seq<NormalizedPoint>)
    ensures forall e :: e in Round(level, es, os).leftExpected ==> e in es
    ensures forall o :: o in Round(level, es, os).leftObserved ==> o in os
  {
    hide Round;
    var j := Round(level, es, os);
    RoundConserves(level, es, os);
    forall e | e in j.leftExpected ensures e in es { assert e in multiset(es); }
    forall o | o in j.leftObserved ensures o in os { assert o in multiset(os); }
  }

  /** Every duplicate reported is one. */
  lemma DuplicateFields(es: seq<ExpectedPoint>, os: seq<NormalizedPoint>)
    ensures var r := RunLevels(CLOSING_LEVELS, es, os);
      && (forall d :: d in r.duplicateExpected ==> ExpectedDuplicate(d, es))
      && (forall d :: d in r.duplicateObserved ==> ObservedDuplicate(d, os))
  {
    hide RunLevels, Round, Groups;
    var byPoint := Round(PointId, es, os);
    var byEmbedding := Round(EmbeddingId, byPoint.leftExpected, byPoint.leftObserved);
    ThreeRounds(es, os);
    RoundLeaves(PointId, es, os);
    RoundLeaves(EmbeddingId, byPoint.leftExpected, byPoint.leftObserved);
    RoundDuplicateFields(PointId, es, os);
    RoundDuplicateFields(EmbeddingId, byPoint.leftExpected, byPoint.leftObserved);
    RoundDuplicateFields(ChunkId, byEmbedding.leftExpected, byEmbedding.leftObserved);
  }

  // ----- suggestions

  /** A missing and an orphan point that a suggestion may join: one source version, or one payload. */
  ghost predicate Related(e: ExpectedPoint, o: NormalizedPoint) {
    || (e.sourceVersionId.Some? && o.sourceVersionId == e.sourceVersionId)
    || e.expectedPayloadHash == o.payloadHash
  }

  lemma SuggestionRelates(es: seq<ExpectedPoint>, os: seq<NormalizedPoint>, p: PointPair)
    requires p in SuggestionPairs(es, os)
    ensures p.0 in es && p.1 in os && Related(p.0, p.1)
  {
    hide Round;
    var level := if p in Round(SourceVersion, es, os).pairs then SourceVersion else ContentHash;
    var i :| 0 <= i < |Round(level, es, os).pairs| && Round(level, es, os).pairs[i] == p;
    RoundPairs(level, es, os, i);
    RoundPairMembers(level, es, os, i);
  }

  /** Of two points that share a level's key, the level pairs at least one. */
  lemma RoundPairsOne(level: MatchLevel, es: seq<ExpectedPoint>, os: seq<NormalizedPoint>, e: ExpectedPoint,
                      o: NormalizedPoint) returns (p: PointPair)
    requires e in es && o in os && ShareKey(level, e, o)
    ensures p in Round(level, es, os).pairs && (p.0 == e || p.1 == o)
  {
    hide Round;
    var j := Round(level, es, os);
    RoundConserves(level, es, os);
    assert e in multiset(es) && o in multiset(os);
    if e in j.leftExpected && o in j.leftObserved {
      RoundCloses(level, es, os, e, o);
      assert false;
    } else if e !in j.leftExpected {
      assert e in Firsts(j.pairs);
      var i :| 0 <= i < |j.pairs| && Firsts(j.pairs)[i] == e;
      p := j.pairs[i];
    } else {
      assert o in Seconds(j.pairs);
      var i :| 0 <= i < |j.pairs| && Seconds(j.pairs)[i] == o;
      p := j.pairs[i];
    }
  }

  lemma PairIsIndexed(m: map<string, seq<string>>, pairs: seq<PointPair>, key: PointPair -> string,
                      value: PointPair -> string, p: PointPair)
    requires Indexes(m, pairs, key, value) && p in pairs
    ensures key(p) in m
  {
    GroupMember(pairs, key, key(p), p);
  }

  lemma IndexedIsPair(m: map<string, seq<string>>, pairs: seq<PointPair>, key: PointPair -> string,
                      value: PointPair -> string, k: string, v: string) returns (p: PointPair)
    requires Indexes(m, pairs, key, value) && k in m && v in m[k]
    ensures p in pairs && key(p) == k && value(p) == v
  {
    var g := Group(pairs, key, k);
    var i :| 0 <= i < |m[k]| && m[k][i] == v;
    p := g[i];
    GroupMember(pairs, key, k, p);
  }

  /**
  A point listed as a binding's relocation has the binding's source version or payload; and of two such points
  at least one is listed.
  */
  lemma RelocationsRelated(es: seq<ExpectedPoint>, os: seq<NormalizedPoint>, relocation: map<string, seq<string>>,
                           orphan: map<string, seq<string>>)
    requires Indexes(relocation, SuggestionPairs(es, os), BindingOf, PointOf)
    requires Indexes(orphan, SuggestionPairs(es, os), PointOf, BindingOf)
    ensures forall binding, point :: binding in relocation && point in relocation[binding] ==>
      exists e, o :: e in es && o in os && e.bindingId == binding && o.pointId == point && Related(e, o)
    ensures forall point, binding :: point in orphan && binding in orphan[point] ==>
      exists e, o :: e in es && o in os && e.bindingId == binding && o.pointId == point && Related(e, o)
    ensures forall e, o :: e in es && o in os && Related(e, o) ==> e.bindingId in relocation || o.pointId in orphan
  {
    hide SuggestionPairs, Indexes, Related;
    forall binding, point | binding in relocation && point in relocation[binding]
      ensures exists e, o :: e in es && o in os && e.bindingId == binding && o.pointId == point && Related(e, o)
    {
      var p := IndexedIsPair(relocation, SuggestionPairs(es, os), BindingOf, PointOf, binding, point);
      SuggestionRelates(es, os, p);
    }
    forall point, binding | point in orphan && binding in orphan[point]
      ensures exists e, o :: e in es && o in os && e.bindingId == binding && o.pointId == point && Related(e, o)
    {
      var p := IndexedIsPair(orphan, SuggestionPairs(es, os), PointOf, BindingOf, point, binding);
      SuggestionRelates(es, os, p);
    }
    forall e, o | e in es && o in os && Related(e, o) ensures e.bindingId in relocation || o.pointId in orphan {
      var p := RelatedPair(es, os, e, o);
      PairIsIndexed(relocation, SuggestionPairs(es, os), BindingOf, PointOf, p);
      PairIsIndexed(orphan, SuggestionPairs(es, os), PointOf, BindingOf, p);
    }
  }

  lemma RelatedPair(es: seq<ExpectedPoint>, os: seq<NormalizedPoint>, e: ExpectedPoint, o: NormalizedPoint)
    returns (p: PointPair)
    requires e in es && o in os && Related(e, o)
    ensures p in SuggestionPairs(es, os) && (p.0 == e || p.1 == o)
  {
    hide Round;
    if e.sourceVersionId.Some? && o.sourceVersionId == e.sourceVersionId {
      p := RoundPairsOne(SourceVersion, es, os, e, o);
    } else {
      p := RoundPairsOne(ContentHash, es, os, e, o);
    }
  }

  // ----- the order leftovers are kept in

  /** Keys are in order: present ones ascend by code point, and none follows a missing one. */
  ghost predicate KeysAscend(keys: seq<Key>) {
    forall i, j :: 0 <= i < j < |keys| ==>
      match (keys[i], keys[j])
      case (Some(a), Some(b)) => a == b || StringLt(a, b)
      case (None, Some(_)) => false
      case (_, None) => true
  }

  lemma RankOrder(a: Key, b: Key)
    requires LexLe(KeyRank(a), KeyRank(b))
    ensures match (a, b)
      case (Some(s), Some(t)) => s == t || StringLt(s, t)
      case (None, Some(_)) => false
      case (_, None) => true
  {
    if a.Some? && b.Some? {
      assert KeyRank(a)[1..] == CodePoints(a.value) && KeyRank(b)[1..] == CodePoints(b.value);
      if CodePoints(a.value) == CodePoints(b.value) {
        CodePointsInjective(a.value, b.value);
      }
    }
  }

  lemma JoinLeaves<E, O>(es: seq<E>, os: seq<O>, ek: E -> Key, ok: O -> Key)
    ensures forall e :: e in Join(es, os, ek, ok).leftExpected ==> e in es
    ensures forall o :: o in Join(es, os, ek, ok).leftObserved ==> o in os
    ensures forall p :: p in Join(es, os, ek, ok).pairs ==> p.0 in es
  {
    hide Join;
    var j := Join(es, os, ek, ok);
    JoinConserves(es, os, ek, ok);
    forall e | e in j.leftExpected ensures e in es { assert e in multiset(es); }
    forall o | o in j.leftObserved ensures o in os { assert o in multiset(os); }
    forall p | p in j.pairs ensures p.0 in es {
      var i :| 0 <= i < |j.pairs| && j.pairs[i] == p;
      assert Firsts(j.pairs)[i] in multiset(es);
    }
  }

  lemma SortedConcat<T>(a: seq<T>, b: seq<T>, s: seq<T>, n: nat, rank: T -> Rank)
    requires Sorted(s, rank) && n <= |s|
    requires Sorted(a, rank) && Sorted(b, rank)
    requires (forall x :: x in a ==> x in s[..n]) && (forall x :: x in b ==> x in s[n..])
    ensures Sorted(a + b, rank)
  {
    forall i, j | 0 <= i < j < |a + b| ensures LexLe(rank((a + b)[i]), rank((a + b)[j])) {
      if i < |a| <= j {
        assert a[i] in s[..n] && b[j - |a|] in s[n..];
      }
    }
  }

  /** A join of sorted streams leaves sorted streams. */
  lemma {:induction false} JoinLeavesSorted<E, O>(es: seq<E>, os: seq<O>, ek: E -> Key, ok: O -> Key)
    requires KeySorted(es, ek) && KeySorted(os, ok)
    ensures KeySorted(Join(es, os, ek, ok).leftExpected, ek) && KeySorted(Join(es, os, ek, ok).leftObserved, ok)
    decreases |es| + |os|
  {
    hide LexLe;
    if es != [] && os != [] {
      var a, b := ek(es[0]), ok(os[0]);
      if LeaveFirst(a, b) {
        JoinLeavesSorted(es[1..], os, ek, ok);
        JoinLeaves(es[1..], os, ek, ok);
        SortedConcat([es[0]], Join(es[1..], os, ek, ok).leftExpected, es, 1, RankBy(ek));
      } else if LeaveFirst(b, a) {
        JoinLeavesSorted(es, os[1..], ek, ok);
        JoinLeaves(es, os[1..], ek, ok);
        SortedConcat([os[0]], Join(es, os[1..], ek, ok).leftObserved, os, 1, RankBy(ok));
      } else {
        NeitherLeaves(a, b);
        var m, n := Leading(es, ek, a), Leading(os, ok, a);
        LeadingBound(es, ek, a, m);
        LeadingBound(os, ok, a, n);
        JoinLeavesSorted(es[m..], os[n..], ek, ok);
        JoinLeaves(es[m..], os[n..], ek, ok);
        var p := Min(m, n);
        SortedConcat(es[..m][p..], Join(es[m..], os[n..], ek, ok).leftExpected, es, m, RankBy(ek));
        SortedConcat(os[..n][p..], Join(es[m..], os[n..], ek, ok).leftObserved, os, n, RankBy(ok));
      }
    }
  }

  lemma PairsConcat<E, O>(a: seq<(E, O)>, b: seq<(E, O)>, s: seq<E>, n: nat, ek: E -> Key)
    requires KeySorted(s, ek) && n <= |s|
    requires KeySorted(a, PairKey<E, O>(ek)) && KeySorted(b, PairKey<E, O>(ek))
    requires (forall p :: p in a ==> p.0 in s[..n]) && (forall p :: p in b ==> p.0 in s[n..])
    ensures KeySorted(a + b, PairKey<E, O>(ek))
  {
    hide LexLe, KeyRank;
    forall i, j | 0 <= i < j < |a + b|
      ensures LexLe(RankBy(PairKey<E, O>(ek))((a + b)[i]), RankBy(PairKey<E, O>(ek))((a + b)[j]))
    {
      if i < |a| <= j {
        assert a[i].0 in s[..n] && b[j - |a|].0 in s[n..];
        assert LexLe(RankBy(ek)(a[i].0), RankBy(ek)(b[j - |a|].0));
      }
    }
  }

  lemma ZipSorted<E, O>(es: seq<E>, os: seq<O>, ek: E -> Key, a: Key)
    requires |es| == |os| && forall e :: e in es ==> ek(e) == a
    ensures KeySorted(Zip(es, os), PairKey<E, O>(ek))
  {
    LexReflexive(KeyRank(a));
  }

  /** A join of sorted streams pairs in the order of keys. */
  lemma {:induction false} JoinPairsSorted<E, O>(es: seq<E>, os: seq<O>, ek: E -> Key, ok: O -> Key)
    requires KeySorted(es, ek)
    ensures KeySorted(Join(es, os, ek, ok).pairs, PairKey<E, O>(ek))
    decreases |es| + |os|
  {
    hide LexLe;
    if es != [] && os != [] {
      var a, b := ek(es[0]), ok(os[0]);
      if LeaveFirst(a, b) {
        JoinPairsSorted(es[1..], os, ek, ok);
        assert Join(es, os, ek, ok).pairs == Join(es[1..], os, ek, ok).pairs;
      } else if LeaveFirst(b, a) {
        JoinPairsSorted(es, os[1..], ek, ok);
        assert Join(es, os, ek, ok).pairs == Join(es, os[1..], ek, ok).pairs;
      } else {
        NeitherLeaves(a, b);
        var m, n := Leading(es, ek, a), Leading(os, ok, a);
        var p := Min(m, n);
        LeadingBound(es, ek, a, m);
        JoinPairsSorted(es[m..], os[n..], ek, ok);
        JoinLeaves(es[m..], os[n..], ek, ok);
        ZipSorted(es[..m][..p], os[..n][..p], ek, a);
        PairsConcat(Zip(es[..m][..p], os[..n][..p]), Join(es[m..], os[n..], ek, ok).pairs, es, m, ek);
      }
    }
  }

  /** What is left is in the order of chunk ids, the points without one last. */
  lemma LeftoversOrdered(es: seq<ExpectedPoint>, os: seq<NormalizedPoint>)
    ensures var r := RunLevels(CLOSING_LEVELS, es, os);
      && KeysAscend(Map((e: ExpectedPoint) => e.chunkId, r.missing))
      && KeysAscend(Map((o: NormalizedPoint) => o.chunkId, r.orphan))
  {
    hide RunLevels;
    ThreeRounds(es, os);
    var byPoint := Round(PointId, es, os);
    var byEmbedding := Round(EmbeddingId, byPoint.leftExpected, byPoint.leftObserved);
    RoundOrdered(ChunkId, byEmbedding.leftExpected, byEmbedding.leftObserved);
    AscendCongruent(RunLevels(CLOSING_LEVELS, es, os).missing, ExpectedKey(ChunkId), (e: ExpectedPoint) => e.chunkId);
    AscendCongruent(RunLevels(CLOSING_LEVELS, es, os).orphan, ObservedKey(ChunkId), (o: NormalizedPoint) => o.chunkId);
  }

  lemma AscendCongruent<T(!new)>(s: seq<T>, key: T -> Key, field: T -> Key)
    requires KeysAscend(Map(key, s)) && forall x :: key(x) == field(x)
    ensures KeysAscend(Map(field, s))
  {
    assert Map(key, s) == Map(field, s);
  }

  /** A round pairs, and leaves, in the order of its level's keys. */
  lemma RoundOrdered(level: MatchLevel, es: seq<ExpectedPoint>, os: seq<NormalizedPoint>)
    ensures KeysAscend(Map(ExpectedKey(level), Round(level, es, os).leftExpected))
    ensures KeysAscend(Map(ObservedKey(level), Round(level, es, os).leftObserved))
    ensures KeysAscend(Map(PairKey<ExpectedPoint, NormalizedPoint>(ExpectedKey(level)), Round(level, es, os).pairs))
  {
    SortSorted(es, ExpectedSortKey(level));
    SortSorted(os, ObservedSortKey(level));
    JoinLeavesSorted(Sort(es, ExpectedSortKey(level)), Sort(os, ObservedSortKey(level)), ExpectedKey(level),
      ObservedKey(level));
    SortedAscends(Round(level, es, os).leftExpected, ExpectedKey(level));
    SortedAscends(Round(level, es, os).leftObserved, ObservedKey(level));
    JoinPairsSorted(Sort(es, ExpectedSortKey(level)), Sort(os, ObservedSortKey(level)), ExpectedKey(level),
      ObservedKey(level));
    SortedAscends(Round(level, es, os).pairs, PairKey<ExpectedPoint, NormalizedPoint>(ExpectedKey(level)));
  }

  lemma SortedAscends<T>(s: seq<T>, key: T -> Key)
    requires KeySorted(s, key)
    ensures KeysAscend(Map(key, s))
  {
    hide LexLe, KeyRank, StringLt;
    forall i, j | 0 <= i < j < |s|
      ensures match (key(s[i]), key(s[j]))
        case (Some(a), Some(b)) => a == b || StringLt(a, b)
        case (None, Some(_)) => false
        case (_, None) => true
    {
      assert LexLe(RankBy(key)(s[i]), RankBy(key)(s[j]));
      RankOrder(key(s[i]), key(s[j]));
    }
  }
}
