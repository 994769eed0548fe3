/** What stitching does, said of the rings and the input alone: which segment comes next, and which way round. */
module StitchOrder {
  import opened Basics
  import opened Doubles
  import opened Stitch

  // ---- The specification ----

  /** Positions of the segments of some rings, ring by ring and piece by piece. */
  type Places = seq<seq<nat>>

  ghost function Elems(at: seq<nat>): set<nat> {
    set k | 0 <= k < |at| :: at[k]
  }

  /** The positions used by the first n rings. */
  ghost function UsedBy(ats: Places, n: nat): set<nat>
    requires n <= |ats|
  {
    set m, k | 0 <= m < n && 0 <= k < |ats[m]| :: ats[m][k]
  }

  /** One end of the segment is where `end` is. */
  predicate Touches(end: Point, seg: Segment)
    requires seg != []
  {
    Same(seg[0], end) || Same(Last(seg), end)
  }

  predicate Complete(r: Ring) {
    |r| >= 4 && Same(r[0], r[|r| - 1])
  }

  /** The pieces are the segments at these positions. */
  ghost predicate PiecesAt(segs: seq<Segment>, pieces: seq<Piece>, at: seq<nat>) {
    |at| == |pieces| && forall k | 0 <= k < |at| :: at[k] < |segs| && pieces[k].seg == segs[at[k]]
  }

  /** A ring starts with the first unused segment, forward. */
  ghost predicate FirstPiece(segs: seq<Segment>, used: set<nat>, b: Built, at: seq<nat>) {
    && at != [] && b.pieces != [] && !b.pieces[0].reversed && at[0] !in used
    && forall i | 0 <= i < at[0] :: i in used
  }

  /** Piece k was the first unused segment that touches the end of the ring made so far, which was not complete;
      it is reversed exactly if it does not start there. */
  ghost predicate NextPiece(segs: seq<Segment>, used: set<nat>, b: Built, at: seq<nat>, k: nat)
    requires NonEmpty(segs) && 0 < k
  {
    && k < |at| == |b.pieces| && at[k] < |segs| && (forall p | p in b.pieces :: p.seg != [])
    && var ring := Assemble(b.pieces[..k]);
    && ring != [] && !Complete(ring)
    && at[k] !in used && at[k] !in at[..k] && Touches(Last(ring), segs[at[k]])
    && (forall i | 0 <= i < at[k] :: i in used || i in at[..k] || !Touches(Last(ring), segs[i]))
    && (b.pieces[k].reversed <==> !Same(segs[at[k]][0], Last(ring)))
  }

  /** The ring consists of the segments at these positions, chosen one after the other. */
  ghost predicate Traced(segs: seq<Segment>, used: set<nat>, b: Built, at: seq<nat>)
    requires NonEmpty(segs)
  {
    && MadeOf(b) && PiecesAt(segs, b.pieces, at) && FirstPiece(segs, used, b, at)
    && forall k | 0 < k < |at| :: NextPiece(segs, used, b, at, k)
  }

  /** It ended because it was complete, or no unused segment touched its end. */
  ghost predicate Ended(segs: seq<Segment>, used: set<nat>, b: Built, at: seq<nat>)
    requires NonEmpty(segs)
  {
    && b.ring != []
    && (Complete(b.ring) ||
        forall i | 0 <= i < |segs| :: i in used || i in at || !Touches(Last(b.ring), segs[i]))
  }

  /** All rings, and no segment left over. */
  ghost predicate AllTraced(segs: seq<Segment>, bs: seq<Built>, ats: Places)
    requires NonEmpty(segs)
  {
    && |ats| == |bs|
    && (forall n | 0 <= n < |bs| ::
          && Traced(segs, UsedBy(ats, n), bs[n], ats[n])
          && Ended(segs, UsedBy(ats, n), bs[n], ats[n]))
    && forall i | 0 <= i < |segs| :: i in UsedBy(ats, |ats|)
  }

  /** A ring with its closing edge, if it needs one. */
  ghost predicate ClosedAs(ring: Ring, closed: Ring) {
    ring != [] && closed == if Same(ring[0], Last(ring)) then ring else ring + [ring[0]]
  }

  ghost function LongRings(bs: seq<Built>): set<nat> {
    set n: nat | n < |bs| && exists c :: ClosedAs(bs[n].ring, c) && |c| >= 4
  }

  /** The rings are those of the traced ones that have at least four points once they are closed, in order. */
  ghost predicate Stitched(segs: seq<Segment>, rings: seq<Ring>)
    requires NonEmpty(segs)
  {
    exists bs, ats, idx :: AllTraced(segs, bs, ats) && KeptAt(bs, rings, idx)
  }

  ghost predicate KeptAt(bs: seq<Built>, rings: seq<Ring>, idx: seq<nat>) {
    && InOrder(idx, LongRings(bs)) && |idx| == |rings|
    && forall k | 0 <= k < |idx| :: idx[k] < |bs| && ClosedAs(bs[idx[k]].ring, rings[k])
  }

  // ---- Tracing the construction ----

  /** The segments that are still to be used, and their positions. */
  ghost predicate Remaining(segs: seq<Segment>, gone: set<nat>, rest: seq<Segment>, idx: seq<nat>) {
    && |idx| == |rest|
    && (forall a, b | 0 <= a < b < |idx| :: idx[a] < idx[b])
    && (forall k | 0 <= k < |idx| :: idx[k] < |segs| && idx[k] !in gone && rest[k] == segs[idx[k]])
    && forall i | 0 <= i < |segs| :: i in gone || i in idx
  }

  /** The entry at position k of a sequence from which entry i was taken. */
  lemma WithoutAt<T>(s: seq<T>, i: nat, k: nat)
    requires i < |s| && k < |s| - 1
    ensures |Without(s, i)| == |s| - 1 && Without(s, i)[k] == s[if k < i then k else k + 1]
  {
  }

  lemma RemainingWithout(segs: seq<Segment>, gone: set<nat>, rest: seq<Segment>, idx: seq<nat>, i: nat)
    requires Remaining(segs, gone, rest, idx) && i < |rest|
    ensures Remaining(segs, gone + {idx[i]}, Without(rest, i), Without(idx, i))
  {
    var idx', rest' := Without(idx, i), Without(rest, i);
    assert |idx'| == |rest'| == |idx| - 1;
    hide Without;
    forall k | 0 <= k < |idx'|
      ensures idx'[k] < |segs| && idx'[k] !in gone + {idx[i]} && rest'[k] == segs[idx'[k]]
    {
      WithoutAt(idx, i, k);
      WithoutAt(rest, i, k);
    }
    forall a, b | 0 <= a < b < |idx'| ensures idx'[a] < idx'[b] {
      WithoutAt(idx, i, a);
      WithoutAt(idx, i, b);
    }
    forall j | 0 <= j < |segs| && j !in gone + {idx[i]} ensures j in idx' {
      assert j in idx;
      var k :| 0 <= k < |idx| && idx[k] == j;
      WithoutAt(idx, i, if k < i then k else k - 1);
    }
  }

  /** What comes before a remaining segment is gone or remains before it. */
  lemma Earlier(segs: seq<Segment>, gone: set<nat>, rest: seq<Segment>, idx: seq<nat>, k: nat, i: nat)
    requires Remaining(segs, gone, rest, idx) && k < |rest| && i < idx[k] && i !in gone
    ensures exists m :: 0 <= m < k && idx[m] == i && rest[m] == segs[i]
  {
    var m :| 0 <= m < |idx| && idx[m] == i;
  }

  lemma InElems(at: seq<nat>, x: nat)
    ensures x in at <==> x in Elems(at)
  {
    if x in at {
      var k :| 0 <= k < |at| && at[k] == x;
    }
  }

  lemma NextIsFirst(segs: seq<Segment>, used: set<nat>, b: Built, at: seq<nat>, rest: seq<Segment>, idx: seq<nat>)
    requires NonEmpty(segs) && NonEmpty(rest) && b.ring != []
    requires Remaining(segs, used + Elems(at), rest, idx) && !Stops(b, rest)
    ensures var i := FirstJoin(Last(b.ring), rest);
            && i < |rest| == |idx| && idx[i] < |segs| && rest[i] == segs[idx[i]] && Touches(Last(b.ring), rest[i])
            && idx[i] !in used && idx[i] !in at
            && forall j | 0 <= j < idx[i] :: j in used || j in at || !Touches(Last(b.ring), segs[j])
  {
    var i := FirstJoin(Last(b.ring), rest);
    InElems(at, idx[i]);
    forall j | 0 <= j < idx[i] && j !in used && j !in at ensures !Touches(Last(b.ring), segs[j]) {
      InElems(at, j);
      Earlier(segs, used + Elems(at), rest, idx, i, j);
    }
  }

  /** What is known of a piece depends on the pieces before it only. */
  lemma PieceFrame(segs: seq<Segment>, used: set<nat>, b: Built, at: seq<nat>, b': Built, at': seq<nat>, k: nat)
    requires NonEmpty(segs) && 0 < k && NextPiece(segs, used, b, at, k)
    requires b.pieces <= b'.pieces && at <= at' && |at'| == |b'.pieces| && forall p | p in b'.pieces :: p.seg != []
    ensures NextPiece(segs, used, b', at', k)
  {
    assert b'.pieces[..k] == b.pieces[..k] && at'[..k] == at[..k];
    assert b'.pieces[k] == b.pieces[k] && at'[k] == at[k];
  }

  lemma NewPiece(segs: seq<Segment>, used: set<nat>, b: Built, at: seq<nat>, j: nat)
    requires NonEmpty(segs) && MadeOf(b) && |at| == |b.pieces| && j < |segs| && !Complete(b.ring)
    requires j !in used && j !in at && Touches(Last(b.ring), segs[j])
    requires forall i | 0 <= i < j :: i in used || i in at || !Touches(Last(b.ring), segs[i])
    requires MadeOf(Append(b, segs[j]))
    ensures NextPiece(segs, used, Append(b, segs[j]), at + [j], |at|)
  {
    hide Assemble;
    assert Append(b, segs[j]).pieces[..|at|] == b.pieces && (at + [j])[..|at|] == at;
  }

  lemma AppendTraced(segs: seq<Segment>, used: set<nat>, b: Built, at: seq<nat>, j: nat)
    requires NonEmpty(segs) && Traced(segs, used, b, at) && j < |segs| && !Complete(b.ring)
    requires j !in used && j !in at && Touches(Last(b.ring), segs[j])
    requires forall i | 0 <= i < j :: i in used || i in at || !Touches(Last(b.ring), segs[i])
    ensures Traced(segs, used, Append(b, segs[j]), at + [j])
  {
    hide NextPiece, MadeOf, Touches, Append, Complete, PiecesAt, FirstPiece;
    MadeNonEmpty(b);
    var next, at' := Append(b, segs[j]), at + [j];
    AppendPlaces(segs, used, b, at, j);
    NewPiece(segs, used, b, at, j);
    forall k | 0 < k < |at'| ensures NextPiece(segs, used, next, at', k) {
      if k < |at| {
        PieceFrame(segs, used, b, at, next, at', k);
      }
    }
  }

  lemma AppendPlaces(segs: seq<Segment>, used: set<nat>, b: Built, at: seq<nat>, j: nat)
    requires NonEmpty(segs) && MadeOf(b) && PiecesAt(segs, b.pieces, at) && FirstPiece(segs, used, b, at)
    requires j < |segs| && Touches(Last(b.ring), segs[j])
    ensures var next := Append(b, segs[j]);
            && MadeOf(next) && PiecesAt(segs, next.pieces, at + [j]) && FirstPiece(segs, used, next, at + [j])
            && b.pieces <= next.pieces && |at| == |b.pieces| && |at + [j]| == |next.pieces|
            && forall p | p in next.pieces :: p.seg != []
  {
    AppendMadeOf(b, segs[j]);
    hide Append, Assemble;
    AppendShape(b, segs[j]);
  }

  lemma AppendShape(b: Built, seg: Segment)
    requires b.ring != [] && seg != []
    ensures Append(b, seg).pieces == b.pieces + [Piece(seg, !Same(seg[0], Last(b.ring)))]
  {
  }

  lemma MadeNonEmpty(b: Built)
    requires MadeOf(b)
    ensures b.pieces != [] && b.ring != [] && forall p | p in b.pieces :: p.seg != []
  {
  }

  lemma NothingTouches(segs: seq<Segment>, used: set<nat>, b: Built, at: seq<nat>, rest: seq<Segment>, idx: seq<nat>)
    requires NonEmpty(segs) && NonEmpty(rest) && b.ring != []
    requires Remaining(segs, used + Elems(at), rest, idx) && Stops(b, rest)
    ensures Ended(segs, used, b, at)
  {
    if !Complete(b.ring) {
      forall i | 0 <= i < |segs| && i !in used && i !in at ensures !Touches(Last(b.ring), segs[i]) {
        InElems(at, i);
        assert i !in used + Elems(at);
        assert i in idx;
        var k :| 0 <= k < |idx| && idx[k] == i;
        assert rest[k] == segs[i] && !Joins(Last(b.ring), rest[k]);
      }
    }
  }

  lemma NotComplete(b: Built, rest: seq<Segment>)
    requires b.ring != [] && !Stops(b, rest)
    ensures !Complete(b.ring)
  {
  }

  lemma {:induction false} GrowTraced(segs: seq<Segment>, used: set<nat>, b: Built, at: seq<nat>,
                                      rest: seq<Segment>, idx: seq<nat>)
    returns (at': seq<nat>, idx': seq<nat>)
    requires NonEmpty(segs) && NonEmpty(rest) && Traced(segs, used, b, at) && b.ring != []
    requires Remaining(segs, used + Elems(at), rest, idx)
    ensures var (b', rest') := Grow(b, rest);
            && Traced(segs, used, b', at') && Ended(segs, used, b', at')
            && Remaining(segs, used + Elems(at'), rest', idx')
    decreases |rest|
  {
    hide Traced, Remaining, Ended, Grow, Append, Joins, Stops, Without;
    GrowStep(b, rest);
    at', idx' := at, idx;
    if Stops(b, rest) {
      NothingTouches(segs, used, b, at, rest, idx);
    } else {
      var i := FirstJoin(Last(b.ring), rest);
      NextIsFirst(segs, used, b, at, rest, idx);
      NotComplete(b, rest);
      AppendTraced(segs, used, b, at, idx[i]);
      RemainingWithout(segs, used + Elems(at), rest, idx, i);
      assert used + Elems(at) + {idx[i]} == used + Elems(at + [idx[i]]) by {
        ElemsAppend(at, idx[i]);
      }
      at', idx' := GrowTraced(segs, used, Append(b, rest[i]), at + [idx[i]], Without(rest, i), Without(idx, i));
    }
  }

  lemma ElemsAppend(at: seq<nat>, i: nat)
    ensures Elems(at + [i]) == Elems(at) + {i}
  {
    forall x: nat ensures x in Elems(at + [i]) <==> x in Elems(at) || x == i {
      InElems(at, x);
      InElems(at + [i], x);
    }
  }

  // ---- All rings ----

  /** The positions used before, and by the first n of these rings. */
  ghost function UsedFrom(used: set<nat>, ats: Places, n: nat): set<nat>
    requires n <= |ats|
    decreases n
  {
    if n == 0 then used else UsedFrom(used, ats, n - 1) + Elems(ats[n - 1])
  }

  lemma {:induction false} UsedByIs(ats: Places, n: nat)
    requires n <= |ats|
    ensures UsedFrom({}, ats, n) == UsedBy(ats, n)
  {
    if n > 0 {
      UsedByIs(ats, n - 1);
      forall x: nat ensures x in UsedBy(ats, n) <==> x in UsedBy(ats, n - 1) || x in Elems(ats[n - 1]) {
        if x in UsedBy(ats, n) {
          var m, k :| 0 <= m < n && 0 <= k < |ats[m]| && ats[m][k] == x;
          assert m == n - 1 ==> x in Elems(ats[n - 1]);
        }
      }
    }
  }

  lemma {:induction false} UsedFromTail(used: set<nat>, ats: Places, n: nat)
    requires 0 < n <= |ats|
    ensures UsedFrom(used, ats, n) == UsedFrom(used + Elems(ats[0]), ats[1..], n - 1)
    decreases n
  {
    if n > 1 {
      UsedFromTail(used, ats, n - 1);
      assert ats[1..][n - 2] == ats[n - 1];
    } else {
      assert UsedFrom(used, ats, 0) == used;
    }
  }

  /** Like AllTraced, for the rings that are built after the positions in `used` are gone. */
  ghost predicate TracedFrom(segs: seq<Segment>, used: set<nat>, bs: seq<Built>, ats: Places)
    requires NonEmpty(segs)
  {
    && |ats| == |bs|
    && (forall n | 0 <= n < |bs| ::
          && Traced(segs, UsedFrom(used, ats, n), bs[n], ats[n])
          && Ended(segs, UsedFrom(used, ats, n), bs[n], ats[n]))
    && forall i | 0 <= i < |segs| :: i in UsedFrom(used, ats, |ats|)
  }

  lemma TracedCons(segs: seq<Segment>, used: set<nat>, b: Built, at: seq<nat>, bs: seq<Built>, ats: Places)
    requires NonEmpty(segs) && Traced(segs, used, b, at) && Ended(segs, used, b, at)
    requires TracedFrom(segs, used + Elems(at), bs, ats)
    ensures TracedFrom(segs, used, [b] + bs, [at] + ats)
  {
    hide Traced, Ended, UsedFrom;
    var all, bs' := [at] + ats, [b] + bs;
    assert all[1..] == ats;
    UsedFromNone(used, all);
    forall n | 0 <= n < |bs'|
      ensures Traced(segs, UsedFrom(used, all, n), bs'[n], all[n])
      ensures Ended(segs, UsedFrom(used, all, n), bs'[n], all[n])
    {
      if n > 0 {
        UsedFromTail(used, all, n);
        assert bs'[n] == bs[n - 1] && all[n] == ats[n - 1];
      }
    }
    UsedFromTail(used, all, |all|);
  }

  lemma UsedFromNone(used: set<nat>, ats: Places)
    ensures UsedFrom(used, ats, 0) == used
  {
  }

  lemma StartTraced(segs: seq<Segment>, used: set<nat>, rest: seq<Segment>, idx: seq<nat>)
    requires NonEmpty(segs) && Remaining(segs, used, rest, idx) && rest != []
    ensures rest[0] != [] && Traced(segs, used, Start(rest[0]), [idx[0]])
    ensures Remaining(segs, used + Elems([idx[0]]), rest[1..], idx[1..])
  {
    StartMadeOf(rest[0]);
    RemainingWithout(segs, used, rest, idx, 0);
    ElemsAppend([], idx[0]);
    assert [] + [idx[0]] == [idx[0]] && Elems([]) == {};
    assert Without(rest, 0) == rest[1..] && Without(idx, 0) == idx[1..];
    forall i | 0 <= i < idx[0] ensures i in used {
      if i !in used {
        Earlier(segs, used, rest, idx, 0, i);
      }
    }
  }

  lemma {:induction false} BuildTraced(segs: seq<Segment>, used: set<nat>, rest: seq<Segment>, idx: seq<nat>)
    returns (ats: Places)
    requires NonEmpty(segs) && NonEmpty(rest) && Remaining(segs, used, rest, idx)
    ensures TracedFrom(segs, used, BuildAll(rest), ats)
    decreases |rest|
  {
    if rest == [] {
      ats := [];
      assert UsedFrom(used, [], 0) == used;
    } else {
      hide Traced, Ended, Remaining, TracedFrom, Grow;
      StartTraced(segs, used, rest, idx);
      var at, idx' := GrowTraced(segs, used, Start(rest[0]), [idx[0]], rest[1..], idx[1..]);
      var (b, rest') := Grow(Start(rest[0]), rest[1..]);
      var ats' := BuildTraced(segs, used + Elems(at), rest', idx');
      TracedCons(segs, used, b, at, BuildAll(rest'), ats');
      ats := [at] + ats';
    }
  }

  /** The rings that are built from the segments. */
  lemma BuildAllTraced(segs: seq<Segment>) returns (ats: Places)
    requires NonEmpty(segs)
    ensures AllTraced(segs, BuildAll(segs), ats)
  {
    hide Traced, Ended, BuildAll;
    var idx := seq(|segs|, k requires 0 <= k < |segs| => k);
    forall i | 0 <= i < |segs| ensures i in idx {
      assert idx[i] == i;
    }
    ats := BuildTraced(segs, {}, segs, idx);
    forall n | 0 <= n <= |ats| ensures UsedFrom({}, ats, n) == UsedBy(ats, n) {
      UsedByIs(ats, n);
    }
  }

  lemma KeptFirst(bs: seq<Built>, c: Ring, rest: seq<Ring>, tail: seq<nat>)
    requires bs != [] && ClosedAs(bs[0].ring, c) && KeptAt(bs[1..], rest, tail)
    requires InOrder(Shift(true, tail), LongRings(bs))
    ensures KeptAt(bs, [c] + rest, Shift(true, tail))
  {
    hide ClosedAs, InOrder, LongRings;
    var idx, rings := Shift(true, tail), [c] + rest;
    forall k | 0 <= k < |idx| ensures idx[k] < |bs| && ClosedAs(bs[idx[k]].ring, rings[k]) {
      if k > 0 {
        assert idx[k] == tail[k - 1] + 1 && bs[1..][tail[k - 1]] == bs[idx[k]];
      }
    }
  }

  lemma DroppedFirst(bs: seq<Built>, rest: seq<Ring>, tail: seq<nat>)
    requires bs != [] && KeptAt(bs[1..], rest, tail)
    requires InOrder(Shift(false, tail), LongRings(bs))
    ensures KeptAt(bs, rest, Shift(false, tail))
  {
    hide ClosedAs, InOrder, LongRings;
    var idx := Shift(false, tail);
    forall k | 0 <= k < |idx| ensures idx[k] < |bs| && ClosedAs(bs[idx[k]].ring, rest[k]) {
      assert idx[k] == tail[k] + 1 && bs[1..][tail[k]] == bs[idx[k]];
    }
  }

  lemma {:induction false} KeptTraced(bs: seq<Built>) returns (idx: seq<nat>)
    requires forall b | b in bs :: b.ring != []
    ensures KeptAt(bs, Kept(bs), idx)
  {
    hide InOrder, LongRings, ClosedAs, Shift;
    if bs == [] {
      idx := [];
      NoLongRings();
    } else {
      var tail := KeptTraced(bs[1..]);
      var c := Close(bs[0].ring);
      idx := Shift(|c| >= 4, tail);
      LongFirst(bs);
      ShiftInOrder(|c| >= 4, tail, LongRings(bs[1..]), LongRings(bs));
      CloseCloses(bs[0].ring);
      hide Close;
      if |c| >= 4 {
        KeptFirst(bs, c, Kept(bs[1..]), tail);
      } else {
        DroppedFirst(bs, Kept(bs[1..]), tail);
        assert [] + Kept(bs[1..]) == Kept(bs[1..]);
      }
    }
  }

  lemma NoLongRings()
    ensures InOrder([], LongRings([]))
  {
  }

  lemma CloseCloses(ring: Ring)
    requires ring != []
    ensures ClosedAs(ring, Close(ring))
  {
  }

  lemma LongFirst(bs: seq<Built>)
    requires bs != [] && bs[0].ring != []
    ensures forall n: nat :: n in LongRings(bs) <==>
              if n == 0 then |Close(bs[0].ring)| >= 4 else n - 1 in LongRings(bs[1..])
  {
    assert ClosedAs(bs[0].ring, Close(bs[0].ring));
    assert forall n | 0 < n < |bs| :: bs[1..][n - 1] == bs[n];
  }

  /** stitchRings meets the specification, on every input. */
  lemma KeptStitched(segs: seq<Segment>)
    requires NonEmpty(segs)
    ensures Stitched(segs, Kept(BuildAll(segs)))
  {
    hide AllTraced, KeptAt;
    var ats := BuildAllTraced(segs);
    var idx := KeptTraced(BuildAll(segs));
  }
}
