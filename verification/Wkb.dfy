/** The binary form of geometries: clause 8 of OGC 06-103r4 with PostGIS's SRID flag. */
module Wkb {
  import opened Basics
  import opened Doubles

  const SRID_FLAG: nat := 0x2000_0000
  const TWO32: nat := 0x1_0000_0000

  datatype Geom =
    | LineString(srid: nat, pts: seq<Point>)
    | Polygon(srid: nat, rings: seq<seq<Point>>)
    | MultiLineString(srid: nat, parts: seq<Geom>)
    | MultiPolygon(srid: nat, parts: seq<Geom>)

  // ---- Encoding ----

  /** static_cast<uint32_t>, written little-endian. */
  function U32(n: nat): (b: seq<Byte>)
    ensures |b| == 4
  {
    LE(n % TWO32, 4)
  }

  function EncodePoints(ps: seq<Point>): (b: seq<Byte>) {
    if ps == [] then [] else LE(ps[0].x, 8) + LE(ps[0].y, 8) + EncodePoints(ps[1..])
  }

  function EncodeRing(r: seq<Point>): seq<Byte> {
    U32(|r|) + EncodePoints(r)
  }

  function EncodeRings(rs: seq<seq<Point>>): seq<Byte> {
    if rs == [] then [] else EncodeRing(rs[0]) + EncodeRings(rs[1..])
  }

  function Code(g: Geom): nat {
    match g
    case LineString(_, _) => 2
    case Polygon(_, _) => 3
    case MultiLineString(_, _) => 5
    case MultiPolygon(_, _) => 6
  }

  function Header(code: nat, srid: nat): seq<Byte> {
    [1] + U32(SRID_FLAG + code) + U32(srid)
  }

  function Encode(g: Geom): seq<Byte> {
    Header(Code(g), g.srid)
    + match g
      case LineString(_, pts) => EncodeRing(pts)
      case Polygon(_, rings) => U32(|rings|) + EncodeRings(rings)
      case MultiLineString(_, parts) => U32(|parts|) + EncodeAll(parts)
      case MultiPolygon(_, parts) => U32(|parts|) + EncodeAll(parts)
  }

  function EncodeAll(gs: seq<Geom>): seq<Byte> {
    if gs == [] then [] else Encode(gs[0]) + EncodeAll(gs[1..])
  }

  // ---- Decoding: an independent reader of the format ----

  function ReadU32(b: seq<Byte>): (r: Option<(nat, seq<Byte>)>)
    ensures r.Some? ==> r.value.0 < TWO32 && |r.value.1| == |b| - 4
  {
    if |b| < 4 then None
    else
      assert Bound(4) == TWO32;
      Some((FromLE(b[..4]), b[4..]))
  }

  function ReadPoints(n: nat, b: seq<Byte>): (r: Option<(seq<Point>, seq<Byte>)>)
    ensures r.Some? ==> |r.value.0| == n && |r.value.1| <= |b|
  {
    if n == 0 then Some(([], b))
    else if |b| < 16 then None
    else
      match ReadPoints(n - 1, b[16..])
      case None => None
      case Some((ps, rest)) => Some(([Point(Word64(b[..8]), Word64(b[8..16]))] + ps, rest))
  }

  function ReadRing(b: seq<Byte>): (r: Option<(seq<Point>, seq<Byte>)>)
    ensures r.Some? ==> |r.value.0| < TWO32 && |r.value.1| < |b|
  {
    match ReadU32(b)
    case None => None
    case Some((n, rest)) => ReadPoints(n, rest)
  }

  function ReadRings(n: nat, b: seq<Byte>): (r: Option<(seq<seq<Point>>, seq<Byte>)>)
    ensures r.Some? ==> |r.value.0| == n && |r.value.1| <= |b|
    ensures r.Some? ==> forall k | 0 <= k < n :: |r.value.0[k]| < TWO32
    decreases n
  {
    if n == 0 then Some(([], b))
    else
      match ReadRing(b)
      case None => None
      case Some((ring, rest)) =>
        match ReadRings(n - 1, rest)
        case None => None
        case Some((rings, end)) => Some(([ring] + rings, end))
  }

  function ReadGeom(b: seq<Byte>): (r: Option<(Geom, seq<Byte>)>)
    ensures r.Some? ==> |r.value.1| < |b|
    decreases |b|, 0
  {
    if b == [] || b[0] != 1 then None
    else
      match ReadU32(b[1..])
      case None => None
      case Some((word, b1)) =>
        match ReadU32(b1)
        case None => None
        case Some((srid, b2)) =>
          if word == SRID_FLAG + 2 then
            match ReadRing(b2)
            case None => None
            case Some((pts, rest)) => Some((LineString(srid, pts), rest))
          else
            match ReadU32(b2)
            case None => None
            case Some((n, b3)) =>
              if word == SRID_FLAG + 3 then
                match ReadRings(n, b3)
                case None => None
                case Some((rings, rest)) => Some((Polygon(srid, rings), rest))
              else if word == SRID_FLAG + 5 || word == SRID_FLAG + 6 then
                match ReadGeoms(n, b3)
                case None => None
                case Some((parts, rest)) =>
                  if word == SRID_FLAG + 5 && (forall k | 0 <= k < n :: parts[k].LineString?) then
                    Some((MultiLineString(srid, parts), rest))
                  else if word == SRID_FLAG + 6 && (forall k | 0 <= k < n :: parts[k].Polygon?) then
                    Some((MultiPolygon(srid, parts), rest))
                  else None
              else None
  }

  function ReadGeoms(n: nat, b: seq<Byte>): (r: Option<(seq<Geom>, seq<Byte>)>)
    ensures r.Some? ==> |r.value.0| == n && |r.value.1| <= |b|
    decreases |b|, 1
  {
    if n == 0 then Some(([], b))
    else
      match ReadGeom(b)
      case None => None
      case Some((g, rest)) =>
        match ReadGeoms(n - 1, rest)
        case None => None
        case Some((gs, end)) => Some(([g] + gs, end))
  }

  /** A whole buffer that is exactly one geometry. */
  function Decode(b: seq<Byte>): Option<Geom> {
    match ReadGeom(b)
    case Some((g, rest)) => if rest == [] then Some(g) else None
    case None => None
  }

  // ---- Round trip ----

  /** Every count and the SRID fit in the 32 bits they are written to. */
  predicate Fits(g: Geom) {
    && g.srid < TWO32
    && match g
       case LineString(_, pts) => |pts| < TWO32
       case Polygon(_, rings) => |rings| < TWO32 && forall k | 0 <= k < |rings| :: |rings[k]| < TWO32
       case MultiLineString(_, parts) =>
         |parts| < TWO32 && forall k | 0 <= k < |parts| :: parts[k].LineString? && Fits(parts[k])
       case MultiPolygon(_, parts) =>
         |parts| < TWO32 && forall k | 0 <= k < |parts| :: parts[k].Polygon? && Fits(parts[k])
  }

  lemma ReadU32Back(n: nat, rest: seq<Byte>)
    requires n < TWO32
    ensures ReadU32(U32(n) + rest) == Some((n, rest))
  {
    assert Bound(4) == TWO32;
    LERoundTrip(n, 4);
    assert (U32(n) + rest)[..4] == U32(n) && (U32(n) + rest)[4..] == rest;
  }

  lemma {:induction false} ReadPointsBack(ps: seq<Point>, rest: seq<Byte>)
    ensures ReadPoints(|ps|, EncodePoints(ps) + rest) == Some((ps, rest))
  {
    hide LE, FromLE;
    if ps != [] {
      var x, y, b := LE(ps[0].x, 8), LE(ps[0].y, 8), EncodePoints(ps) + rest;
      Word64RoundTrip(ps[0].x);
      Word64RoundTrip(ps[0].y);
      assert b[..8] == x && b[8..16] == y && b[16..] == EncodePoints(ps[1..]) + rest;
      ReadPointsBack(ps[1..], rest);
      assert [ps[0]] + ps[1..] == ps;
    } else {
      assert EncodePoints(ps) + rest == rest;
    }
  }

  lemma ReadRingBack(r: seq<Point>, rest: seq<Byte>)
    requires |r| < TWO32
    ensures ReadRing(EncodeRing(r) + rest) == Some((r, rest))
  {
    assert EncodeRing(r) + rest == U32(|r|) + (EncodePoints(r) + rest);
    ReadU32Back(|r|, EncodePoints(r) + rest);
    ReadPointsBack(r, rest);
  }

  lemma {:induction false} ReadRingsBack(rs: seq<seq<Point>>, rest: seq<Byte>)
    requires forall k | 0 <= k < |rs| :: |rs[k]| < TWO32
    ensures ReadRings(|rs|, EncodeRings(rs) + rest) == Some((rs, rest))
  {
    if rs == [] {
      assert EncodeRings(rs) + rest == rest;
    } else {
      assert EncodeRings(rs) + rest == EncodeRing(rs[0]) + (EncodeRings(rs[1..]) + rest);
      ReadRingBack(rs[0], EncodeRings(rs[1..]) + rest);
      ReadRingsBack(rs[1..], rest);
      assert [rs[0]] + rs[1..] == rs;
    }
  }

  lemma ReadHeaderBack(code: nat, srid: nat, rest: seq<Byte>)
    requires srid < TWO32 && code < 8
    ensures var b := Header(code, srid) + rest;
            && b != [] && b[0] == 1
            && ReadU32(b[1..]) == Some((SRID_FLAG + code, U32(srid) + rest))
            && ReadU32(U32(srid) + rest) == Some((srid, rest))
  {
    var b := Header(code, srid) + rest;
    assert b[1..] == U32(SRID_FLAG + code) + (U32(srid) + rest);
    ReadU32Back(SRID_FLAG + code, U32(srid) + rest);
    ReadU32Back(srid, rest);
  }

  lemma ReadLineBack(g: Geom, rest: seq<Byte>)
    requires g.LineString? && Fits(g)
    ensures ReadGeom(Encode(g) + rest) == Some((g, rest))
  {
    hide Header, EncodeRing, ReadU32, ReadRing;
    var body := EncodeRing(g.pts);
    assert Encode(g) + rest == Header(2, g.srid) + (body + rest);
    ReadHeaderBack(2, g.srid, body + rest);
    ReadRingBack(g.pts, rest);
  }

  lemma ReadPolygonBack(g: Geom, rest: seq<Byte>)
    requires g.Polygon? && Fits(g)
    ensures ReadGeom(Encode(g) + rest) == Some((g, rest))
  {
    hide Header, EncodeRings, ReadU32, U32, ReadRings;
    var body := EncodeRings(g.rings) + rest;
    assert Encode(g) + rest == Header(3, g.srid) + (U32(|g.rings|) + body);
    ReadHeaderBack(3, g.srid, U32(|g.rings|) + body);
    ReadU32Back(|g.rings|, body);
    ReadRingsBack(g.rings, rest);
  }

  /** Reading back what was written, whatever follows it. */
  lemma {:induction false} ReadGeomBack(g: Geom, rest: seq<Byte>)
    requires Fits(g)
    ensures ReadGeom(Encode(g) + rest) == Some((g, rest))
    decreases g, 0
  {
    hide Header, EncodeAll, ReadU32, U32, ReadGeoms;
    if g.LineString? {
      ReadLineBack(g, rest);
    } else if g.Polygon? {
      ReadPolygonBack(g, rest);
    } else {
      var body := EncodeAll(g.parts) + rest;
      assert Encode(g) + rest == Header(Code(g), g.srid) + (U32(|g.parts|) + body);
      ReadHeaderBack(Code(g), g.srid, U32(|g.parts|) + body);
      ReadU32Back(|g.parts|, body);
      ReadGeomsBack(g.parts, rest);
    }
  }

  lemma {:induction false} ReadGeomsBack(gs: seq<Geom>, rest: seq<Byte>)
    requires forall k | 0 <= k < |gs| :: Fits(gs[k])
    ensures ReadGeoms(|gs|, EncodeAll(gs) + rest) == Some((gs, rest))
    decreases gs, 1
  {
    hide Encode, ReadGeom, Fits;
    if gs == [] {
      assert EncodeAll(gs) + rest == rest;
    } else {
      assert EncodeAll(gs) + rest == Encode(gs[0]) + (EncodeAll(gs[1..]) + rest);
      ReadGeomBack(gs[0], EncodeAll(gs[1..]) + rest);
      ReadGeomsBack(gs[1..], rest);
      assert [gs[0]] + gs[1..] == gs;
    }
  }

  lemma {:induction false} ReadFits(b: seq<Byte>)
    ensures ReadGeom(b).Some? ==> Fits(ReadGeom(b).value.0)
    decreases |b|, 0
  {
    if ReadGeom(b).Some? {
      var b1 := ReadU32(b[1..]).value.1;
      var b2 := ReadU32(b1).value.1;
      if ReadU32(b2).Some? {
        var (n, b3) := ReadU32(b2).value;
        ReadAllFit(n, b3);
      }
    }
  }

  lemma {:induction false} ReadAllFit(n: nat, b: seq<Byte>)
    ensures ReadGeoms(n, b).Some? ==> forall k | 0 <= k < n :: Fits(ReadGeoms(n, b).value.0[k])
    decreases |b|, 1
  {
    if n > 0 && ReadGeoms(n, b).Some? {
      ReadFits(b);
      ReadAllFit(n - 1, ReadGeom(b).value.1);
    }
  }

  /** Decoding inverts encoding exactly for the geometries whose counts fit in 32 bits. */
  lemma RoundTripIff(g: Geom)
    ensures Decode(Encode(g)) == Some(g) <==> Fits(g)
  {
    if Fits(g) {
      ReadGeomBack(g, []);
      assert Encode(g) + [] == Encode(g);
    } else {
      ReadFits(Encode(g));
    }
  }

  // ---- Hexadecimal text ----

  const UPPER: string := "0123456789ABCDEF"
  const LOWER: string := "0123456789abcdef"

  function Digits(upper: bool): (s: string)
    ensures |s| == 16
  {
    if upper then UPPER else LOWER
  }

  function Hex(b: seq<Byte>, upper: bool): (s: string)
    ensures |s| == 2 * |b|
  {
    if b == [] then "" else [Digits(upper)[b[0] / 16], Digits(upper)[b[0] % 16]] + Hex(b[1..], upper)
  }

  /** Anything that is not a hexadecimal digit counts as zero. */
  function Nibble(c: char): (n: nat)
    ensures n < 16
  {
    if '0' <= c <= '9' then c as int - '0' as int
    else if 'A' <= c <= 'F' then c as int - 'A' as int + 10
    else if 'a' <= c <= 'f' then c as int - 'a' as int + 10
    else 0
  }

  /** An odd last character is ignored. */
  function FromHex(s: string): (b: seq<Byte>)
    ensures |b| == |s| / 2
  {
    if |s| < 2 then [] else [16 * Nibble(s[0]) + Nibble(s[1])] + FromHex(s[2..])
  }

  lemma NibbleBack(n: nat, upper: bool)
    requires n < 16
    ensures Nibble(Digits(upper)[n]) == n
  {
  }

  lemma {:induction false} HexRoundTrip(b: seq<Byte>, upper: bool)
    ensures FromHex(Hex(b, upper)) == b
  {
    hide Nibble, Digits;
    if b != [] {
      NibbleBack(b[0] / 16, upper);
      NibbleBack(b[0] % 16, upper);
      assert Hex(b, upper)[2..] == Hex(b[1..], upper);
      HexRoundTrip(b[1..], upper);
    }
  }

  /** The geometry in a hexadecimal text. */
  function DecodeHex(s: string): Option<Geom> {
    Decode(FromHex(s))
  }
}
