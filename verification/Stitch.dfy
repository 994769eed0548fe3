/** Stitching the member ways of a multipolygon into rings. */
module Stitch {
  import opened Basics
  import opened Doubles

  type Ring = seq<Point>
  type Segment = seq<Point>

  /** The test of the source: the two ends compare equal. */
  predicate EndsMeet(r: Ring)
    requires r != []
  {
    Same(r[0], Last(r))
  }

  predicate NonEmpty(segs: seq<Segment>) {
    forall i | 0 <= i < |segs| :: segs[i] != []
  }

  function Reverse(s: Segment): (r: Segment)
    ensures |r| == |s| && forall i | 0 <= i < |s| :: r[i] == s[|s| - 1 - i]
  {
    if s == [] then [] else Reverse(s[1..]) + [s[0]]
  }

  // ---- What the loops compute ----

  /** A segment as it is used in a ring. */
  datatype Piece = Piece(seg: Segment, reversed: bool) {
    function Path(): Segment {
      if reversed then Reverse(seg) else seg
    }
  }

  /** A ring before the closing edge is added, with the pieces it was made of. */
  datatype Built = Built(pieces: seq<Piece>, ring: Ring)

  predicate Joins(end: Point, seg: Segment) {
    seg != [] && (Same(seg[0], end) || Same(Last(seg), end))
  }

  /** The first segment that can be appended at `end`, or |segs|. */
  function FirstJoin(end: Point, segs: seq<Segment>): (i: nat)
    ensures i <= |segs| && (i < |segs| ==> Joins(end, segs[i])) && forall k | 0 <= k < i :: !Joins(end, segs[k])
  {
    if segs == [] || Joins(end, segs[0]) then 0 else 1 + FirstJoin(end, segs[1..])
  }

  function Append(b: Built, seg: Segment): Built
    requires b.ring != [] && seg != []
  {
    var p := Piece(seg, !Same(seg[0], Last(b.ring)));
    Built(b.pieces + [p], b.ring + p.Path()[1..])
  }

  function Grow(b: Built, segs: seq<Segment>): (r: (Built, seq<Segment>))
    requires b.ring != [] && NonEmpty(segs)
    ensures r.0.ring != [] && NonEmpty(r.1) && |r.1| <= |segs|
    decreases |segs|
  {
    if |b.ring| >= 4 && EndsMeet(b.ring) then (b, segs)
    else
      var i := FirstJoin(Last(b.ring), segs);
      if i == |segs| then (b, segs) else Grow(Append(b, segs[i]), Without(segs, i))
  }

  /** Whether growing ends: the ring is closed, or no segment fits. */
  predicate Stops(b: Built, segs: seq<Segment>)
    requires b.ring != []
  {
    (|b.ring| >= 4 && EndsMeet(b.ring)) || FirstJoin(Last(b.ring), segs) == |segs|
  }

  lemma GrowStep(b: Built, segs: seq<Segment>)
    requires b.ring != [] && NonEmpty(segs)
    ensures Stops(b, segs) ==> Grow(b, segs) == (b, segs)
    ensures var i := FirstJoin(Last(b.ring), segs);
            !Stops(b, segs) ==>
              && segs[i] != [] && Joins(Last(b.ring), segs[i])
              && Append(b, segs[i]).ring != [] && NonEmpty(Without(segs, i)) && |Without(segs, i)| < |segs|
              && Grow(b, segs) == Grow(Append(b, segs[i]), Without(segs, i))
  {
  }

  function Start(seg: Segment): Built {
    Built([Piece(seg, false)], seg)
  }

  /** Every ring that is built, the dropped ones included. */
  function BuildAll(segs: seq<Segment>): (bs: seq<Built>)
    requires NonEmpty(segs)
    ensures forall b | b in bs :: b.ring != []
    decreases |segs|
  {
    if segs == [] then []
    else var (b, rest) := Grow(Start(segs[0]), segs[1..]); [b] + BuildAll(rest)
  }

  function Close(r: Ring): Ring
    requires r != []
  {
    if EndsMeet(r) then r else r + [r[0]]
  }

  /** The rings that are returned: closed, and of at least four points. */
  function Kept(bs: seq<Built>): seq<Ring>
    requires forall b | b in bs :: b.ring != []
  {
    if bs == [] then []
    else (if |Close(bs[0].ring)| >= 4 then [Close(bs[0].ring)] else []) + Kept(bs[1..])
  }

  // ---- stitchRings ----

  /** The scan for a segment to append: its body from the first matching index on. */
  method TryExtend(ring: Ring, segs: seq<Segment>, ghost b: Built)
    returns (progress: bool, ring': Ring, segs': seq<Segment>)
    requires ring != [] && NonEmpty(segs) && b.ring == ring
    ensures var i := FirstJoin(Last(ring), segs);
            && progress == (i < |segs|)
            && (progress ==> ring' == Append(b, segs[i]).ring && segs' == Without(segs, i))
            && (!progress ==> ring' == ring && segs' == segs)
  {
    var i := 0;
    while i < |segs|
      invariant i <= |segs| && forall k | 0 <= k < i :: !Joins(Last(ring), segs[k])
    {
      var seg := segs[i];
      if Same(seg[0], Last(ring)) {
        FirstJoinIs(Last(ring), segs, i);
        return true, ring + seg[1..], Without(segs, i);
      }
      if Same(Last(seg), Last(ring)) {
        FirstJoinIs(Last(ring), segs, i);
        return true, ring + Reverse(seg)[1..], Without(segs, i);
      }
      i := i + 1;
    }
    FirstJoinIs(Last(ring), segs, |segs|);
    return false, ring, segs;
  }

  /** Extends a ring until it closes or nothing fits. */
  method GrowRing(first: Segment, others: seq<Segment>) returns (ring: Ring, segs: seq<Segment>)
    requires first != [] && NonEmpty(others)
    ensures ring == Grow(Start(first), others).0.ring && segs == Grow(Start(first), others).1
  {
    hide Grow, Append, Joins, Same, Without;
    ring, segs := first, others;
    ghost var b := Start(first);
    var progress := true;
    while progress
      invariant NonEmpty(segs) && ring == b.ring && ring != []
      invariant Grow(b, segs) == Grow(Start(first), others)
      invariant !progress ==> Grow(b, segs) == (b, segs)
      decreases |segs|, progress
    {
      GrowStep(b, segs);
      if |ring| >= 4 && EndsMeet(ring) {
        break;
      }
      ghost var i := FirstJoin(Last(ring), segs);
      ghost var next := if i < |segs| then Append(b, segs[i]) else b;
      progress, ring, segs := TryExtend(ring, segs, b);
      b := next;
    }
  }

  lemma KeepNext(rings: seq<Ring>, segs: seq<Segment>)
    requires NonEmpty(segs) && segs != []
    ensures var (b, rest) := Grow(Start(segs[0]), segs[1..]);
            var kept := if |Close(b.ring)| >= 4 then rings + [Close(b.ring)] else rings;
            rings + Kept(BuildAll(segs)) == kept + Kept(BuildAll(rest))
  {
    hide Grow, Close;
    var (b, rest) := Grow(Start(segs[0]), segs[1..]);
    assert BuildAll(segs) == [b] + BuildAll(rest);
    assert BuildAll(segs)[1..] == BuildAll(rest);
  }

  method StitchRings(segments: seq<Segment>) returns (rings: seq<Ring>)
    requires NonEmpty(segments)
    ensures rings == Kept(BuildAll(segments))
  {
    hide Grow, Same, Last;
    var segs := segments;
    rings := [];
    while segs != []
      invariant NonEmpty(segs)
      invariant rings + Kept(BuildAll(segs)) == Kept(BuildAll(segments))
      decreases |segs|
    {
      ghost var before, rings0 := segs, rings;
      var ring: Ring;
      ring, segs := GrowRing(segs[0], segs[1..]);
      if !EndsMeet(ring) {
        ring := ring + [ring[0]];
      }
      if |ring| >= 4 {
        rings := rings + [ring];
      }
      KeepNext(rings0, before);
    }
  }

  lemma {:induction false} FirstJoinIs(end: Point, segs: seq<Segment>, i: nat)
    requires i <= |segs| && (forall k | 0 <= k < i :: !Joins(end, segs[k])) && (i < |segs| ==> Joins(end, segs[i]))
    ensures FirstJoin(end, segs) == i
  {
    if i > 0 {
      FirstJoinIs(end, segs[1..], i - 1);
    }
  }

  // ---- What every result satisfies ----

  /** Every returned ring has at least four points and ends where it starts. */
  lemma {:induction false} RingsAreClosed(bs: seq<Built>, r: Ring)
    requires (forall b | b in bs :: b.ring != []) && r in Kept(bs)
    ensures |r| >= 4 && (EndsMeet(r) || Last(r) == r[0])
  {
    if r !in Kept(bs[1..]) {
      assert r == Close(bs[0].ring);
    } else {
      RingsAreClosed(bs[1..], r);
    }
  }

  // ---- A ring consists of its pieces ----

  /** The paths of the pieces, one after the other, each without its first point except for the first. */
  function Assemble(pieces: seq<Piece>): Ring
    requires forall p | p in pieces :: p.seg != []
    decreases |pieces|
  {
    if pieces == [] then []
    else if |pieces| == 1 then pieces[0].Path()
    else Assemble(pieces[..|pieces| - 1]) + pieces[|pieces| - 1].Path()[1..]
  }

  /** The ring is made of its pieces, each of which starts where the ring built so far ends. */
  ghost predicate MadeOf(b: Built) {
    && b.pieces != [] && (forall p | p in b.pieces :: p.seg != [])
    && b.ring == Assemble(b.pieces) && b.ring != []
    && forall k | 0 < k < |b.pieces| ::
         Assemble(b.pieces[..k]) != [] && Same(b.pieces[k].Path()[0], Last(Assemble(b.pieces[..k])))
  }

  lemma AppendMadeOf(b: Built, seg: Segment)
    requires MadeOf(b) && Joins(Last(b.ring), seg)
    ensures MadeOf(Append(b, seg))
  {
    var next := Append(b, seg);
    assert next.pieces[..|b.pieces|] == b.pieces;
    assert forall k | 0 < k < |b.pieces| :: next.pieces[..k] == b.pieces[..k];
  }

  lemma {:induction false} GrowMadeOf(b: Built, segs: seq<Segment>)
    requires NonEmpty(segs) && MadeOf(b)
    ensures MadeOf(Grow(b, segs).0)
    decreases |segs|
  {
    hide MadeOf, Grow, EndsMeet, Joins, Append, Without;
    BuiltNonEmpty(b);
    GrowStep(b, segs);
    var i := FirstJoin(Last(b.ring), segs);
    if !Stops(b, segs) {
      AppendMadeOf(b, segs[i]);
      GrowMadeOf(Append(b, segs[i]), Without(segs, i));
    }
  }

  lemma BuiltNonEmpty(b: Built)
    requires MadeOf(b)
    ensures b.ring != []
  {
  }

  /** Every built ring is its pieces, joined end to end, forward or reversed. */
  lemma {:induction false} RingsAreMadeOfPieces(segs: seq<Segment>, b: Built)
    requires NonEmpty(segs) && b in BuildAll(segs)
    ensures MadeOf(b)
    decreases |segs|
  {
    hide MadeOf;
    var (first, rest) := Grow(Start(segs[0]), segs[1..]);
    assert BuildAll(segs) == [first] + BuildAll(rest);
    StartMadeOf(segs[0]);
    GrowMadeOf(Start(segs[0]), segs[1..]);
    if b != first {
      RingsAreMadeOfPieces(rest, b);
    }
  }

  lemma StartMadeOf(seg: Segment)
    requires seg != []
    ensures MadeOf(Start(seg))
  {
  }

  // ---- Each segment is used exactly once ----

  function Used(pieces: seq<Piece>): seq<Segment> {
    seq(|pieces|, i requires 0 <= i < |pieces| => pieces[i].seg)
  }

  function AllUsed(bs: seq<Built>): seq<Segment> {
    if bs == [] then [] else Used(bs[0].pieces) + AllUsed(bs[1..])
  }

  lemma WithoutBag(segs: seq<Segment>, i: nat)
    requires i < |segs|
    ensures multiset(segs) == multiset(Without(segs, i)) + multiset{segs[i]}
  {
    assert segs == segs[..i] + [segs[i]] + segs[i + 1..];
  }

  lemma {:induction false} GrowUses(b: Built, segs: seq<Segment>)
    requires b.ring != [] && NonEmpty(segs)
    ensures var (b', rest) := Grow(b, segs);
            multiset(Used(b'.pieces)) + multiset(rest) == multiset(Used(b.pieces)) + multiset(segs)
    decreases |segs|
  {
    var i := FirstJoin(Last(b.ring), segs);
    if !(|b.ring| >= 4 && EndsMeet(b.ring)) && i < |segs| {
      var next := Append(b, segs[i]);
      assert Used(next.pieces) == Used(b.pieces) + [segs[i]];
      WithoutBag(segs, i);
      GrowUses(next, Without(segs, i));
    }
  }

  /** Each input segment is a piece of exactly one built ring, forward or reversed. */
  lemma {:induction false} EverySegmentUsedOnce(segs: seq<Segment>)
    requires NonEmpty(segs)
    ensures multiset(AllUsed(BuildAll(segs))) == multiset(segs)
    decreases |segs|
  {
    if segs != [] {
      var (b, rest) := Grow(Start(segs[0]), segs[1..]);
      GrowUses(Start(segs[0]), segs[1..]);
      assert Used(Start(segs[0]).pieces) == [segs[0]];
      assert segs == [segs[0]] + segs[1..];
      EverySegmentUsedOnce(rest);
      assert BuildAll(segs) == [b] + BuildAll(rest);
      assert AllUsed(BuildAll(segs)) == Used(b.pieces) + AllUsed(BuildAll(rest));
    }
  }
}
