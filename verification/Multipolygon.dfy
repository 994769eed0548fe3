/** buildMultipolygon: rings from member ways, and inner rings assigned to outer ones. */
module Multipolygon {
  import opened Basics
  import opened Doubles
  import opened Stitch
  import opened StitchOrder
  import opened Wkb
  import opened GeometryBuild

  /** What getWayCoordsMap returned. */
  type CoordsMap = map<int, seq<Point>>

  // ---- The bounding box ----

  datatype Box = Box(x0: Double, x1: Double, y0: Double, y1: Double) {
    function Extend(p: Point): Box {
      Box(Min(x0, p.x), Max(x1, p.x), Min(y0, p.y), Max(y1, p.y))
    }

    predicate Contains(p: Point) {
      Le(x0, p.x) && Le(p.x, x1) && Le(y0, p.y) && Le(p.y, y1)
    }
  }

  function BoxFrom(b: Box, ps: seq<Point>): Box
    decreases |ps|
  {
    if ps == [] then b else BoxFrom(b.Extend(ps[0]), ps[1..])
  }

  function BoxOf(ring: Ring): Box
    requires ring != []
  {
    BoxFrom(Box(ring[0].x, ring[0].x, ring[0].y, ring[0].y), ring)
  }

  /** Reference: some points of the ring bound p on each of the four sides. */
  ghost predicate Bounded(ring: seq<Point>, p: Point) {
    && (exists a :: a in ring && Le(a.x, p.x)) && (exists a :: a in ring && Le(p.x, a.x))
    && (exists a :: a in ring && Le(a.y, p.y)) && (exists a :: a in ring && Le(p.y, a.y))
  }

  predicate Clean(b: Box) {
    !IsNaN(b.x0) && !IsNaN(b.x1) && !IsNaN(b.y0) && !IsNaN(b.y1)
  }

  lemma {:induction false} BoxFromContains(b: Box, ps: seq<Point>, p: Point)
    requires Clean(b) && forall i | 0 <= i < |ps| :: ps[i].NoNaN()
    ensures var r := BoxFrom(b, ps);
            && (Le(r.x0, p.x) <==> Le(b.x0, p.x) || exists a :: a in ps && Le(a.x, p.x))
            && (Le(p.x, r.x1) <==> Le(p.x, b.x1) || exists a :: a in ps && Le(p.x, a.x))
            && (Le(r.y0, p.y) <==> Le(b.y0, p.y) || exists a :: a in ps && Le(a.y, p.y))
            && (Le(p.y, r.y1) <==> Le(p.y, b.y1) || exists a :: a in ps && Le(p.y, a.y))
    decreases |ps|
  {
    if ps != [] {
      assert ps[0].NoNaN();
      BoxFromContains(b.Extend(ps[0]), ps[1..], p);
      assert forall a :: a in ps <==> a == ps[0] || a in ps[1..];
    }
  }

  /** The box is tight: a point is inside exactly if points of the ring bound it on all sides. */
  lemma BoxIsTight(ring: Ring, p: Point)
    requires ring != [] && forall i | 0 <= i < |ring| :: ring[i].NoNaN()
    ensures BoxOf(ring).Contains(p) <==> Bounded(ring, p)
  {
    assert ring[0].NoNaN() && ring[0] in ring;
    BoxFromContains(Box(ring[0].x, ring[0].x, ring[0].y, ring[0].y), ring, p);
  }

  // ---- The geometry ----

  /** The coordinates of the members that are inner (or, otherwise, outer), members without any left out. */
  function Segments(ms: seq<Member>, coords: CoordsMap, inner: bool): (segs: seq<Segment>)
    ensures NonEmpty(segs)
  {
    if ms == [] then []
    else
      var m := ms[0];
      (if (m.role == "inner") == inner && m.id in coords && coords[m.id] != [] then [coords[m.id]] else [])
      + Segments(ms[1..], coords, inner)
  }

  function RingsOf(ms: seq<Member>, coords: CoordsMap, inner: bool): (rings: seq<Ring>)
    ensures forall k | 0 <= k < |rings| :: |rings[k]| >= 4
  {
    KeptAreLong(BuildAll(Segments(ms, coords, inner)));
    Kept(BuildAll(Segments(ms, coords, inner)))
  }

  lemma {:induction false} KeptAreLong(bs: seq<Built>)
    requires forall b | b in bs :: b.ring != []
    ensures forall k | 0 <= k < |Kept(bs)| :: |Kept(bs)[k]| >= 4
  {
    if bs != [] {
      KeptAreLong(bs[1..]);
    }
  }

  /** The inner rings that start in the bounding box of an outer ring, in order. */
  function Matched(outer: Ring, inners: seq<Ring>): seq<Ring>
    requires outer != [] && NonEmpty(inners)
  {
    if inners == [] then []
    else (if BoxOf(outer).Contains(inners[0][0]) then [inners[0]] else []) + Matched(outer, inners[1..])
  }

  function Parts(srid: nat, outers: seq<Ring>, inners: seq<Ring>): (gs: seq<Geom>)
    requires NonEmpty(outers) && NonEmpty(inners)
    ensures |gs| == |outers|
    ensures forall i | 0 <= i < |outers| :: gs[i] == Polygon(srid, [outers[i]] + Matched(outers[i], inners))
  {
    if outers == [] then []
    else [Polygon(srid, [outers[0]] + Matched(outers[0], inners))] + Parts(srid, outers[1..], inners)
  }

  /** The geometry of a multipolygon relation; None if there is no outer ring. */
  function RelationGeom(srid: nat, ms: seq<Member>, coords: CoordsMap): Option<Geom> {
    var outers, inners := RingsOf(ms, coords, false), RingsOf(ms, coords, true);
    if outers == [] then None
    else if |outers| == 1 then Some(Polygon(srid, [outers[0]] + inners))
    else Some(MultiPolygon(srid, Parts(srid, outers, inners)))
  }

  /** A hole belongs to a part exactly if its first point is within the bounds of the part's outer ring. */
  lemma {:induction false} MatchedExactly(outer: Ring, inners: seq<Ring>, r: Ring)
    requires outer != [] && (forall i | 0 <= i < |outer| :: outer[i].NoNaN()) && NonEmpty(inners)
    ensures r in Matched(outer, inners) <==> r in inners && Bounded(outer, r[0])
  {
    if inners != [] {
      BoxIsTight(outer, inners[0][0]);
      MatchedExactly(outer, inners[1..], r);
    }
  }

  // ---- What the geometry is, said of the members alone ----

  /** The coordinates of the members that have some and are inner, or are not, by position. */
  ghost function LinesAt(ms: seq<Member>, coords: CoordsMap, inner: bool): map<nat, Segment> {
    map i: nat | i < |ms| && (ms[i].role == "inner") == inner && ms[i].id in coords && coords[ms[i].id] != [] ::
      coords[ms[i].id]
  }

  /** The rings that are stitched from the coordinates of these members, in their order. */
  ghost predicate MemberRings(ms: seq<Member>, coords: CoordsMap, inner: bool, rings: seq<Ring>) {
    exists segs :: NonEmpty(segs) && Listed(segs, LinesAt(ms, coords, inner)) && Stitched(segs, rings)
  }

  /** The inner rings whose first point the outer ring bounds, by position. */
  ghost function HolesAt(outer: Ring, inners: seq<Ring>): map<nat, Ring>
    requires NonEmpty(inners)
  {
    map i: nat | i < |inners| && Bounded(outer, inners[i][0]) :: inners[i]
  }

  ghost predicate IsPart(srid: nat, outer: Ring, inners: seq<Ring>, g: Geom)
    requires NonEmpty(inners)
  {
    && g.Polygon? && g.srid == srid && g.rings != [] && g.rings[0] == outer
    && ((forall i | 0 <= i < |outer| :: outer[i].NoNaN()) ==> Listed(g.rings[1..], HolesAt(outer, inners)))
  }

  /** No geometry without an outer ring, a polygon with all inner rings as holes for one, and a part for each
      of several. */
  ghost predicate HasShape(srid: nat, outers: seq<Ring>, inners: seq<Ring>, g: Option<Geom>)
    requires NonEmpty(inners)
  {
    if outers == [] then g == None
    else if |outers| == 1 then
      && g.Some? && g.value.Polygon? && g.value.srid == srid && |g.value.rings| == 1 + |inners|
      && g.value.rings[0] == outers[0] && g.value.rings[1..] == inners
    else
      && g.Some? && g.value.MultiPolygon? && g.value.srid == srid && |g.value.parts| == |outers|
      && forall i | 0 <= i < |outers| :: IsPart(srid, outers[i], inners, g.value.parts[i])
  }

  ghost predicate IsRelationGeom(srid: nat, ms: seq<Member>, coords: CoordsMap, g: Option<Geom>) {
    exists outers, inners ::
      MemberRings(ms, coords, false, outers) && MemberRings(ms, coords, true, inners)
      && NonEmpty(inners) && HasShape(srid, outers, inners, g)
  }

  lemma {:induction false} SegmentsListed(ms: seq<Member>, coords: CoordsMap, inner: bool)
    ensures Listed(Segments(ms, coords, inner), LinesAt(ms, coords, inner))
  {
    hide Listed;
    if ms == [] {
      ListedNone(LinesAt(ms, coords, inner));
    } else {
      var m := ms[0];
      var first := if (m.role == "inner") == inner && m.id in coords && coords[m.id] != []
                   then Some(coords[m.id]) else None;
      SegmentsListed(ms[1..], coords, inner);
      ListedCons(first, Segments(ms[1..], coords, inner), LinesAt(ms[1..], coords, inner), LinesAt(ms, coords, inner));
    }
  }

  lemma RingsOfMembers(ms: seq<Member>, coords: CoordsMap, inner: bool)
    ensures MemberRings(ms, coords, inner, RingsOf(ms, coords, inner))
  {
    hide LinesAt, Listed, Stitched;
    SegmentsListed(ms, coords, inner);
    KeptStitched(Segments(ms, coords, inner));
  }

  lemma {:induction false} MatchedListed(outer: Ring, inners: seq<Ring>)
    requires outer != [] && (forall i | 0 <= i < |outer| :: outer[i].NoNaN()) && NonEmpty(inners)
    ensures Listed(Matched(outer, inners), HolesAt(outer, inners))
  {
    hide Listed;
    if inners == [] {
      ListedNone(HolesAt(outer, inners));
    } else {
      BoxIsTight(outer, inners[0][0]);
      hide BoxOf, Bounded;
      var first := if BoxOf(outer).Contains(inners[0][0]) then Some(inners[0]) else None;
      MatchedListed(outer, inners[1..]);
      ListedCons(first, Matched(outer, inners[1..]), HolesAt(outer, inners[1..]), HolesAt(outer, inners));
    }
  }

  lemma PartIs(srid: nat, outer: Ring, inners: seq<Ring>)
    requires outer != [] && NonEmpty(inners)
    ensures IsPart(srid, outer, inners, Polygon(srid, [outer] + Matched(outer, inners)))
  {
    hide HolesAt, Matched, Listed;
    assert ([outer] + Matched(outer, inners))[1..] == Matched(outer, inners);
    if forall i | 0 <= i < |outer| :: outer[i].NoNaN() {
      MatchedListed(outer, inners);
    }
  }

  /** The geometry meets this, for all members and coordinates. */
  lemma RelationGeomIs(srid: nat, ms: seq<Member>, coords: CoordsMap)
    ensures IsRelationGeom(srid, ms, coords, RelationGeom(srid, ms, coords))
  {
    hide IsPart, MemberRings, Matched, RingsOf;
    var outers, inners := RingsOf(ms, coords, false), RingsOf(ms, coords, true);
    RingsOfMembers(ms, coords, false);
    RingsOfMembers(ms, coords, true);
    var g := RelationGeom(srid, ms, coords);
    if |outers| == 1 {
      assert ([outers[0]] + inners)[1..] == inners;
    } else if |outers| > 1 {
      forall i | 0 <= i < |outers| ensures IsPart(srid, outers[i], inners, g.value.parts[i]) {
        PartIs(srid, outers[i], inners);
      }
    }
    assert HasShape(srid, outers, inners, g);
  }

  // ---- The code ----

  lemma SegmentsNext(ms: seq<Member>, coords: CoordsMap, inner: bool, i: nat)
    requires i < |ms|
    ensures var m := ms[i];
            Segments(ms[i..], coords, inner)
            == (if (m.role == "inner") == inner && m.id in coords && coords[m.id] != [] then [coords[m.id]] else [])
               + Segments(ms[i + 1..], coords, inner)
  {
    assert ms[i..][1..] == ms[i + 1..];
  }

  lemma SegmentsEnd(coords: CoordsMap)
    ensures forall inner :: Segments([], coords, inner) == []
  {
  }

  method CollectSegments(ms: seq<Member>, coords: CoordsMap) returns (outers: seq<Segment>, inners: seq<Segment>)
    ensures outers == Segments(ms, coords, false) && inners == Segments(ms, coords, true)
  {
    hide Segments;
    outers, inners := [], [];
    assert ms[0..] == ms;
    for i := 0 to |ms|
      invariant outers + Segments(ms[i..], coords, false) == Segments(ms, coords, false)
      invariant inners + Segments(ms[i..], coords, true) == Segments(ms, coords, true)
    {
      SegmentsNext(ms, coords, false, i);
      SegmentsNext(ms, coords, true, i);
      if ms[i].id in coords && coords[ms[i].id] != [] {
        if ms[i].role == "inner" {
          inners := inners + [coords[ms[i].id]];
        } else {
          outers := outers + [coords[ms[i].id]];
        }
      }
    }
    assert ms[|ms|..] == [];
    SegmentsEnd(coords);
  }

  lemma BoxNext(b: Box, ps: seq<Point>, i: nat)
    requires i < |ps|
    ensures BoxFrom(b, ps[i..]) == BoxFrom(b.Extend(ps[i]), ps[i + 1..])
  {
    assert ps[i..][1..] == ps[i + 1..];
  }

  lemma BoxEnds(ring: Ring)
    requires ring != []
    ensures BoxFrom(Box(ring[0].x, ring[0].x, ring[0].y, ring[0].y), ring[0..]) == BoxOf(ring)
    ensures forall b :: BoxFrom(b, ring[|ring|..]) == b
  {
    assert ring[0..] == ring && ring[|ring|..] == [];
  }

  lemma MatchedNext(outer: Ring, inners: seq<Ring>, i: nat)
    requires outer != [] && NonEmpty(inners) && i < |inners|
    ensures Matched(outer, inners[i..])
            == (if BoxOf(outer).Contains(inners[i][0]) then [inners[i]] else []) + Matched(outer, inners[i + 1..])
  {
    hide BoxOf;
    assert inners[i..][1..] == inners[i + 1..];
  }

  lemma MatchedEnds(outer: Ring, inners: seq<Ring>)
    requires outer != [] && NonEmpty(inners)
    ensures [] + Matched(outer, inners[0..]) == Matched(outer, inners) && Matched(outer, inners[|inners|..]) == []
  {
    assert inners[0..] == inners;
  }

  method MatchInners(outer: Ring, inners: seq<Ring>) returns (matched: seq<Ring>)
    requires outer != [] && NonEmpty(inners)
    ensures matched == Matched(outer, inners)
  {
    var box := Box(outer[0].x, outer[0].x, outer[0].y, outer[0].y);
    BoxEnds(outer);
    hide BoxOf, BoxFrom, Matched;
    for i := 0 to |outer|
      invariant BoxFrom(box, outer[i..]) == BoxOf(outer)
    {
      BoxNext(box, outer, i);
      box := box.Extend(outer[i]);
    }
    matched := [];
    MatchedEnds(outer, inners);
    for i := 0 to |inners|
      invariant matched + Matched(outer, inners[i..]) == Matched(outer, inners)
    {
      MatchedNext(outer, inners, i);
      if box.Contains(inners[i][0]) {
        matched := matched + [inners[i]];
      }
    }
  }

  method WriteParts(buf: Buffer, srid: nat, outers: seq<Ring>, inners: seq<Ring>)
    requires NonEmpty(outers) && NonEmpty(inners)
    modifies buf
    ensures buf.bytes == old(buf.bytes) + EncodeAll(Parts(srid, outers, inners))
  {
    hide Encode, Matched;
    for i := 0 to |outers|
      invariant buf.bytes + EncodeAll(Parts(srid, outers[i..], inners))
                == old(buf.bytes) + EncodeAll(Parts(srid, outers, inners))
    {
      assert outers[i..][1..] == outers[i + 1..];
      var matched := MatchInners(outers[i], inners);
      buf.WriteWkbPolygon(srid, outers[i], matched);
    }
    assert outers[|outers|..] == [];
  }

  lemma NoSegments()
    ensures Kept(BuildAll([])) == []
  {
  }

  method BuildMultipolygon(srid: nat, ms: seq<Member>, coords: CoordsMap) returns (hex: string)
    ensures var g := RelationGeom(srid, ms, coords);
            && (g.None? ==> hex == "")
            && (g.Some? ==> hex == Hex(Encode(g.value), true))
            && (g.Some? && Fits(g.value) ==> DecodeHex(hex) == g)
    ensures exists g :: IsRelationGeom(srid, ms, coords, g) && if g.None? then hex == "" else
              Fits(g.value) ==> DecodeHex(hex) == g
  {
    RelationGeomIs(srid, ms, coords);
    hide IsRelationGeom;
    hide Hex, DecodeHex, Fits, Header, U32, EncodeRings, EncodeAll, Kept, BuildAll, Segments, Parts;
    var outerSegs, innerSegs := CollectSegments(ms, coords);
    if outerSegs == [] {
      NoSegments();
      return "";
    }
    var outers := StitchRings(outerSegs);
    var inners := StitchRings(innerSegs);
    ghost var outers', inners' := RingsOf(ms, coords, false), RingsOf(ms, coords, true);
    if outers == [] {
      return "";
    }
    var buf := new Buffer();
    if |outers| == 1 {
      buf.WriteWkbPolygon(srid, outers[0], inners);
    } else {
      buf.WriteHeader(6, srid);
      buf.WriteU32(|outers|);
      WriteParts(buf, srid, outers, inners);
    }
    ghost var g := RelationGeom(srid, ms, coords).value;
    assert buf.bytes == Encode(g);
    hex := ToHex(buf.bytes, true);
    if Fits(g) {
      HexDecodes(g, true);
    }
  }
}
