/** The geometry builders of the import and of the delta path. */
module GeometryBuild {
  import opened Basics
  import opened Doubles
  import opened Stitch
  import opened Wkb

  /** The std::vector<uint8_t> that the writers append to. */
  class Buffer {
    var bytes: seq<Byte>

    constructor ()
      ensures bytes == []
    {
      bytes := [];
    }

    method PushBack(b: Byte)
      modifies this
      ensures bytes == old(bytes) + [b]
    {
      bytes := bytes + [b];
    }

    method Insert(bs: seq<Byte>)
      modifies this
      ensures bytes == old(bytes) + bs
    {
      bytes := bytes + bs;
    }

    method WriteU32(n: nat)
      modifies this
      ensures bytes == old(bytes) + U32(n)
    {
      var v := n % TWO32;
      PushBack(v % 256);
      PushBack(v / 256 % 256);
      PushBack(v / 0x1_0000 % 256);
      PushBack(v / 0x100_0000 % 256);
      FourBytes(v);
    }

    method WriteDouble(d: Double)
      modifies this
      ensures bytes == old(bytes) + LE(d, 8)
    {
      var u: nat := d;
      for i := 0 to 8
        invariant bytes + LE(u, 8 - i) == old(bytes) + LE(d, 8)
      {
        LENext(u, 8 - i);
        PushBack(u % 256);
        u := u / 256;
      }
      assert LE(u, 0) == [];
    }

    method WritePoints(ps: seq<Point>)
      modifies this
      ensures bytes == old(bytes) + EncodePoints(ps)
    {
      for i := 0 to |ps|
        invariant bytes + EncodePoints(ps[i..]) == old(bytes) + EncodePoints(ps)
      {
        assert ps[i..][1..] == ps[i + 1..];
        WriteDouble(ps[i].x);
        WriteDouble(ps[i].y);
      }
    }

    method WriteHeader(code: nat, srid: nat)
      modifies this
      ensures bytes == old(bytes) + Header(code, srid)
    {
      PushBack(1);
      WriteU32(SRID_FLAG + code);
      WriteU32(srid);
    }

    method WriteWkbRing(ring: Ring)
      modifies this
      ensures bytes == old(bytes) + EncodeRing(ring)
    {
      WriteU32(|ring|);
      WritePoints(ring);
    }

    method WriteRings(rings: seq<Ring>)
      modifies this
      ensures bytes == old(bytes) + EncodeRings(rings)
    {
      hide EncodeRing, EncodeRings;
      RingsEnd(rings);
      for i := 0 to |rings|
        invariant bytes + EncodeRings(rings[i..]) == old(bytes) + EncodeRings(rings)
      {
        RingsNext(rings, i);
        WriteWkbRing(rings[i]);
      }
    }

    method WriteWkbPolygon(srid: nat, outer: Ring, inners: seq<Ring>)
      modifies this
      ensures bytes == old(bytes) + Encode(Polygon(srid, [outer] + inners))
    {
      hide Header, EncodeRing, U32;
      WriteHeader(3, srid);
      WriteU32(1 + |inners|);
      WriteWkbRing(outer);
      assert ([outer] + inners)[1..] == inners;
      WriteRings(inners);
    }
  }

  lemma RingsNext(rings: seq<Ring>, i: nat)
    requires i < |rings|
    ensures EncodeRings(rings[i..]) == EncodeRing(rings[i]) + EncodeRings(rings[i + 1..])
  {
    hide EncodeRing;
    assert rings[i..][1..] == rings[i + 1..];
  }

  lemma RingsEnd(rings: seq<Ring>)
    ensures EncodeRings(rings[0..]) == EncodeRings(rings) && EncodeRings(rings[|rings|..]) == []
  {
    assert rings[0..] == rings;
  }

  lemma LENext(u: nat, width: nat)
    requires width > 0
    ensures LE(u, width) == [u % 256] + LE(u / 256, width - 1)
  {
  }

  lemma FourBytes(v: nat)
    requires v < TWO32
    ensures LE(v, 4) == [v % 256, v / 256 % 256, v / 0x1_0000 % 256, v / 0x100_0000 % 256]
  {
    hide LE;
    var a, b, c := v / 256, v / 256 / 256, v / 256 / 256 / 256;
    LENext(v, 4);
    LENext(a, 3);
    LENext(b, 2);
    LENext(c, 1);
    assert LE(v, 4) == [v % 256, a % 256, b % 256, c % 256];
    assert b == v / 0x1_0000 && c == v / 0x100_0000;
  }

  method ToHex(bytes: seq<Byte>, upper: bool) returns (s: string)
    ensures s == Hex(bytes, upper)
  {
    hide Digits, Hex;
    s := "";
    HexStart(bytes, upper);
    for i := 0 to |bytes|
      invariant s + Hex(bytes[i..], upper) == Hex(bytes, upper)
    {
      HexNext(bytes, upper, i);
      s := s + [Digits(upper)[bytes[i] / 16]];
      s := s + [Digits(upper)[bytes[i] % 16]];
    }
  }

  lemma HexStart(bytes: seq<Byte>, upper: bool)
    ensures "" + Hex(bytes[0..], upper) == Hex(bytes, upper) && Hex(bytes[|bytes|..], upper) == ""
  {
    assert bytes[0..] == bytes;
  }

  lemma HexNext(bytes: seq<Byte>, upper: bool, i: nat)
    requires i < |bytes|
    ensures Hex(bytes[i..], upper)
            == [Digits(upper)[bytes[i] / 16]] + [Digits(upper)[bytes[i] % 16]] + Hex(bytes[i + 1..], upper)
  {
    hide Digits;
    assert bytes[i..][1..] == bytes[i + 1..];
  }

  method ReadHex(hex: string) returns (b: seq<Byte>)
    ensures b == FromHex(hex)
  {
    b := [];
    var i := 0;
    while i + 1 < |hex|
      invariant i <= |hex| && b + FromHex(hex[i..]) == FromHex(hex)
    {
      assert hex[i..][2..] == hex[i + 2..];
      b := b + [16 * Nibble(hex[i]) + Nibble(hex[i + 1])];
      i := i + 2;
    }
  }

  // ---- Ways ----

  /** The way's points form a closed line of at least four points. */
  predicate ClosedWay(coords: seq<Point>) {
    |coords| >= 4 && Same(coords[0], Last(coords))
  }

  /** A way is a Polygon exactly if it is closed. */
  function WayGeom(srid: nat, coords: seq<Point>): Geom {
    if ClosedWay(coords) then Polygon(srid, [coords]) else LineString(srid, coords)
  }

  /** The text the import stores for a way; empty if there are fewer than two points. */
  function WayText(srid: nat, coords: seq<Point>): string {
    if |coords| < 2 then "" else Hex(Encode(WayGeom(srid, coords)), true)
  }

  lemma EncodeWay(srid: nat, coords: seq<Point>)
    ensures Encode(Polygon(srid, [coords])) == Header(3, srid) + (U32(1) + EncodeRing(coords))
    ensures Encode(LineString(srid, coords)) == Header(2, srid) + EncodeRing(coords)
  {
    hide Header, U32, EncodeRing;
    assert EncodeRings([coords]) == EncodeRing(coords) + EncodeRings([]);
  }

  /** The bytes of a way, as they are appended one after the other. */
  function WayBytes(srid: nat, coords: seq<Point>, polygon: bool): seq<Byte> {
    Header(if polygon then 3 else 2, srid) + (if polygon then U32(1) else []) + U32(|coords|) + EncodePoints(coords)
  }

  lemma WayBytesEncode(srid: nat, coords: seq<Point>, polygon: bool)
    ensures WayBytes(srid, coords, polygon)
            == Encode(if polygon then Polygon(srid, [coords]) else LineString(srid, coords))
  {
    hide Header, U32, EncodePoints, Encode;
    EncodeWay(srid, coords);
    var h, r := Header(if polygon then 3 else 2, srid), if polygon then U32(1) else [];
    var n, ps := U32(|coords|), EncodePoints(coords);
    Associate(h + r, n, ps);
    Associate(h, r, n + ps);
  }

  /** What a buffer holds before the points are counted. */
  lemma WayStart(b: seq<Byte>, srid: nat, coords: seq<Point>, polygon: bool)
    requires b == if polygon then [] + Header(3, srid) + U32(1) else [] + Header(2, srid)
    ensures b + U32(|coords|) + EncodePoints(coords) == WayBytes(srid, coords, polygon)
    ensures ClosedWay(coords) == polygon ==>
              WayGeom(srid, coords) == if polygon then Polygon(srid, [coords]) else LineString(srid, coords)
  {
    hide Header, U32, EncodePoints;
    Associate(Header(if polygon then 3 else 2, srid), [], []);
  }

  lemma Associate(a: seq<Byte>, b: seq<Byte>, c: seq<Byte>)
    ensures a + (b + c) == a + b + c
    ensures [] + a == a + [] == a
  {
  }

  lemma HexDecodes(g: Geom, upper: bool)
    requires Fits(g)
    ensures DecodeHex(Hex(Encode(g), upper)) == Some(g)
  {
    HexRoundTrip(Encode(g), upper);
    RoundTripIff(g);
  }

  /** buildWayGeom of the import. */
  method BuildWayGeom(srid: nat, coords: seq<Point>) returns (hex: string, isClosed: bool)
    ensures hex == WayText(srid, coords) && isClosed == ClosedWay(coords)
    ensures isClosed <==> |coords| >= 4 && Same(coords[0], coords[|coords| - 1])
    ensures |coords| < 2 ==> hex == ""
    ensures 2 <= |coords| < TWO32 && srid < TWO32 ==>
              DecodeHex(hex) == Some(if isClosed then Polygon(srid, [coords]) else LineString(srid, coords))
  {
    if |coords| < 2 {
      return "", false;
    }
    hide Hex, Header, EncodePoints, U32, DecodeHex, Encode, Fits, Same, WayGeom, WayBytes;
    isClosed := |coords| >= 4 && Same(coords[0], coords[|coords| - 1]);
    var buf := new Buffer();
    if isClosed {
      buf.WriteHeader(3, srid);
      buf.WriteU32(1);
    } else {
      buf.WriteHeader(2, srid);
    }
    WayStart(buf.bytes, srid, coords, isClosed);
    buf.WriteU32(|coords|);
    buf.WritePoints(coords);
    WayBytesEncode(srid, coords, isClosed);
    hex := ToHex(buf.bytes, true);
    WayTextDecodes(srid, coords);
  }

  lemma WayTextDecodes(srid: nat, coords: seq<Point>)
    ensures 2 <= |coords| < TWO32 && srid < TWO32 ==> DecodeHex(WayText(srid, coords)) == Some(WayGeom(srid, coords))
  {
    hide DecodeHex, Hex, Encode;
    if 2 <= |coords| < TWO32 && srid < TWO32 {
      WayFits(srid, coords);
      HexDecodes(WayGeom(srid, coords), true);
    }
  }

  lemma WayFits(srid: nat, coords: seq<Point>)
    requires |coords| < TWO32 && srid < TWO32
    ensures Fits(WayGeom(srid, coords))
  {
  }

  /** buildLineWKB of the delta path. */
  method BuildLineWkb(srid: nat, pts: seq<Point>, closed: bool) returns (hex: string)
    ensures 2 <= |pts| < TWO32 && srid < TWO32 ==>
              DecodeHex(hex) == Some(if closed && |pts| >= 4 then Polygon(srid, [pts]) else LineString(srid, pts))
    ensures hex == if |pts| < 2 then ""
                   else Hex(Encode(if closed && |pts| >= 4 then Polygon(srid, [pts]) else LineString(srid, pts)), false)
  {
    if |pts| < 2 {
      return "";
    }
    hide Hex, EncodePoints, U32, Encode, Header, WayBytes;
    var b := new Buffer();
    b.PushBack(1);
    var polygon := closed && |pts| >= 4;
    if polygon {
      b.WriteU32(SRID_FLAG + 3);
      b.WriteU32(srid);
      HeaderBytes(3, srid);
      b.WriteU32(1);
      WayStart(b.bytes, srid, pts, true);
      b.WriteU32(|pts|);
    } else {
      b.WriteU32(SRID_FLAG + 2);
      b.WriteU32(srid);
      HeaderBytes(2, srid);
      WayStart(b.bytes, srid, pts, false);
      b.WriteU32(|pts|);
    }
    b.WritePoints(pts);
    WayBytesEncode(srid, pts, polygon);
    hex := ToHex(b.bytes, false);
    if |pts| < TWO32 && srid < TWO32 {
      LineDecodes(srid, pts, polygon);
    }
  }

  lemma LineDecodes(srid: nat, pts: seq<Point>, polygon: bool)
    requires |pts| < TWO32 && srid < TWO32
    ensures var g := if polygon then Polygon(srid, [pts]) else LineString(srid, pts);
            DecodeHex(Hex(Encode(g), false)) == Some(g)
  {
    HexDecodes(if polygon then Polygon(srid, [pts]) else LineString(srid, pts), false);
  }

  lemma HeaderBytes(code: nat, srid: nat)
    ensures [] + [1] + U32(SRID_FLAG + code) + U32(srid) == [] + Header(code, srid)
  {
    hide U32;
  }

  function LowerChar(c: char): char {
    if 'A' <= c <= 'F' then (c as int - 'A' as int + 'a' as int) as char else c
  }

  function Lower(s: string): string {
    seq(|s|, i requires 0 <= i < |s| => LowerChar(s[i]))
  }

  lemma LowerDigit(n: nat)
    requires n < 16
    ensures LowerChar(Digits(true)[n]) == Digits(false)[n]
  {
  }

  lemma {:induction false} HexCase(b: seq<Byte>)
    ensures Lower(Hex(b, true)) == Hex(b, false)
  {
    hide LowerChar, Digits;
    if b != [] {
      HexCase(b[1..]);
      var hi, lo := b[0] / 16, b[0] % 16;
      LowerDigit(hi);
      LowerDigit(lo);
      assert Hex(b, true) == [Digits(true)[hi], Digits(true)[lo]] + Hex(b[1..], true);
      assert Lower(Hex(b, true)) == [Digits(false)[hi], Digits(false)[lo]] + Lower(Hex(b[1..], true));
    }
  }

  /** buildWayGeom of the delta path, with the SRID of that process: the import's text for this SRID, in
      lower case. */
  method DeltaBuildWayGeom(srid: nat, coords: seq<Point>) returns (hex: string, isClosed: bool)
    ensures hex == Lower(WayText(srid, coords))
    ensures isClosed <==> |coords| >= 4 && Same(coords[0], coords[|coords| - 1])
    ensures 2 <= |coords| < TWO32 && srid < TWO32 ==>
              DecodeHex(hex) == Some(if isClosed then Polygon(srid, [coords]) else LineString(srid, coords))
  {
    if |coords| < 2 {
      return "", false;
    }
    isClosed := Same(coords[0], Last(coords)) && |coords| >= 4;
    hex := BuildLineWkb(srid, coords, isClosed);
    HexCase(Encode(WayGeom(srid, coords)));
    if |coords| < TWO32 && srid < TWO32 {
      LowerDecodes(srid, coords);
    }
  }

  lemma LowerDecodes(srid: nat, coords: seq<Point>)
    requires 2 <= |coords| < TWO32 && srid < TWO32
    ensures DecodeHex(Lower(WayText(srid, coords))) == Some(WayGeom(srid, coords))
  {
    hide DecodeHex, Hex, Encode;
    WayFits(srid, coords);
    HexCase(Encode(WayGeom(srid, coords)));
    HexDecodes(WayGeom(srid, coords), false);
  }

  /** What the delta path writes for a way agrees with what the import wrote, up to the case of the digits, if
      and only if both use the same SRID. The import's is chosen on the command line; the delta path's never is. */
  lemma SameTextIff(importSrid: nat, deltaSrid: nat, coords: seq<Point>)
    requires 2 <= |coords| < TWO32 && importSrid < TWO32 && deltaSrid < TWO32
    ensures Lower(WayText(importSrid, coords)) == Lower(WayText(deltaSrid, coords)) <==> importSrid == deltaSrid
  {
    hide DecodeHex, Hex, Encode, Lower;
    LowerDecodes(importSrid, coords);
    LowerDecodes(deltaSrid, coords);
  }

  // ---- Relations: merging lines ----

  /** The geometry code without the flag bits; LineString and MultiLineString are linear. */
  predicate IsLinear(b: seq<Byte>) {
    |b| >= 5 && b[1] as int + 256 * (b[2] as int) in {2, 5}
  }

  function LinearParts(hexes: seq<string>): seq<seq<Byte>> {
    if hexes == [] then []
    else (if IsLinear(FromHex(hexes[0])) then [FromHex(hexes[0])] else []) + LinearParts(hexes[1..])
  }

  /** What both implementations compute, apart from the case of the digits. */
  function MergedBytes(srid: nat, parts: seq<seq<Byte>>): seq<Byte> {
    if parts == [] then [] else Header(5, srid) + U32(|parts|) + Flatten(parts)
  }

  method WriteMerged(srid: nat, parts: seq<seq<Byte>>, upper: bool) returns (hex: string)
    ensures hex == Hex(MergedBytes(srid, parts), upper)
  {
    if parts == [] {
      return "";
    }
    var buf := new Buffer();
    buf.WriteHeader(5, srid);
    buf.WriteU32(|parts|);
    ghost var start := buf.bytes;
    assert start == Header(5, srid) + U32(|parts|);
    for i := 0 to |parts|
      invariant buf.bytes + Flatten(parts[i..]) == start + Flatten(parts)
    {
      assert parts[i..][1..] == parts[i + 1..];
      buf.Insert(parts[i]);
    }
    assert parts[|parts|..] == [];
    assert buf.bytes == MergedBytes(srid, parts);
    hex := ToHex(buf.bytes, upper);
  }

  lemma LinearStep(parts: seq<seq<Byte>>, hexes: seq<string>, i: nat)
    requires i < |hexes|
    ensures parts + LinearParts(hexes[i..])
            == (if IsLinear(FromHex(hexes[i])) then parts + [FromHex(hexes[i])] else parts)
               + LinearParts(hexes[i + 1..])
    ensures hexes[i] == "" ==> !IsLinear(FromHex(hexes[i]))
  {
    assert hexes[i..][1..] == hexes[i + 1..];
  }

  lemma LinearEnd(parts: seq<seq<Byte>>, hexes: seq<string>)
    ensures parts + LinearParts(hexes[|hexes|..]) == parts
    ensures hexes == [] ==> LinearParts(hexes) == []
  {
  }

  method MergeWayGeoms(srid: nat, hexes: seq<string>) returns (hex: string)
    ensures hex == Hex(MergedBytes(srid, LinearParts(hexes)), true)
  {
    hide Hex, MergedBytes, FromHex, IsLinear, LinearParts;
    var parts: seq<seq<Byte>> := [];
    assert hexes[0..] == hexes && [] + LinearParts(hexes) == LinearParts(hexes);
    for i := 0 to |hexes|
      invariant parts + LinearParts(hexes[i..]) == LinearParts(hexes)
    {
      LinearStep(parts, hexes, i);
      if hexes[i] != "" {
        var b := ReadHex(hexes[i]);
        if IsLinear(b) {
          parts := parts + [b];
        }
      }
    }
    LinearEnd(parts, hexes);
    hex := WriteMerged(srid, parts, true);
  }

  lemma NothingMerged(srid: nat)
    ensures Hex(MergedBytes(srid, []), false) == ""
  {
  }

  /** mergeLinestrings of the delta path: the text of the import for the same SRID, in lower case. */
  method MergeLinestrings(srid: nat, hexes: seq<string>) returns (hex: string)
    ensures hex == Lower(Hex(MergedBytes(srid, LinearParts(hexes)), true))
  {
    HexCase(MergedBytes(srid, LinearParts(hexes)));
    hide Hex, FromHex, Lower, IsLinear, GeomType, LinearParts;
    LinearEnd([], hexes);
    if |hexes| == 0 {
      NothingMerged(srid);
      return "";
    }
    hide MergedBytes;
    var parts: seq<seq<Byte>> := [];
    for i := 0 to |hexes|
      invariant parts + LinearParts(hexes[i..]) == LinearParts(hexes)
    {
      var h := hexes[i];
      LinearStep(parts, hexes, i);
      SameFilter(h);
      if |h| >= 10 {
        var code := GeomType(h);
        if code == 2 || code == 5 {
          var raw := ReadHex(h);
          parts := parts + [raw];
        }
      }
    }
    LinearEnd(parts, hexes);
    hex := WriteMerged(srid, parts, false);
  }

  /** The low half of the type word, read from the digits. */
  function GeomType(h: string): nat
    requires |h| >= 10
  {
    16 * Nibble(h[2]) + Nibble(h[3]) + 256 * (16 * Nibble(h[4]) + Nibble(h[5]))
  }

  /** The two implementations select the same parts although one counts digits and the other bytes. */
  lemma SameFilter(h: string)
    ensures IsLinear(FromHex(h)) <==> |h| >= 10 && GeomType(h) in {2, 5}
  {
    if |h| >= 10 {
      ByteAt(h, 1);
      ByteAt(h, 2);
    }
  }

  lemma {:induction false} ByteAt(h: string, i: nat)
    requires 2 * i + 1 < |h|
    ensures FromHex(h)[i] == 16 * Nibble(h[2 * i]) + Nibble(h[2 * i + 1])
  {
    if i > 0 {
      ByteAt(h[2..], i - 1);
    }
  }

  function Lines(gs: seq<Geom>): seq<Geom> {
    if gs == [] then [] else (if gs[0].LineString? then [gs[0]] else []) + Lines(gs[1..])
  }

  ghost function LinesAt(gs: seq<Geom>): map<nat, Geom> {
    map i: nat | i < |gs| && gs[i].LineString? :: gs[i]
  }

  lemma {:induction false} LinesListed(gs: seq<Geom>)
    ensures Listed(Lines(gs), LinesAt(gs))
  {
    hide Listed;
    if gs == [] {
      ListedNone(LinesAt(gs));
    } else {
      LinesListed(gs[1..]);
      ListedCons(if gs[0].LineString? then Some(gs[0]) else None, Lines(gs[1..]), LinesAt(gs[1..]), LinesAt(gs));
    }
  }

  function Encodings(gs: seq<Geom>): seq<seq<Byte>> {
    seq(|gs|, i requires 0 <= i < |gs| => Encode(gs[i]))
  }

  lemma TypeBytes(code: nat, srid: nat)
    requires code < 8
    ensures var h := Header(code, srid); |h| == 9 && h[1] as int + 256 * (h[2] as int) == code
  {
    hide LE;
    FourBytes(SRID_FLAG + code);
  }

  /** Every encoding starts with the byte order mark, the type code and the SRID flag. */
  lemma EncodingStarts(g: Geom)
    ensures var code := if g.LineString? then 2 else if g.Polygon? then 3 else if g.MultiLineString? then 5 else 6;
            Encode(g)[..5] == [1, code, 0, 0, 0x20]
    ensures Encode(g)[5..9] == U32(g.srid)
  {
    hide LE, EncodeRing, EncodeRings, EncodeAll;
    FourBytes(SRID_FLAG + Code(g));
    assert Encode(g)[..9] == Header(Code(g), g.srid);
    assert Header(Code(g), g.srid)[..5] == [1] + U32(SRID_FLAG + Code(g));
    assert Header(Code(g), g.srid)[5..9] == U32(g.srid);
    assert Encode(g)[..9][..5] == Encode(g)[..5] && Encode(g)[..9][5..9] == Encode(g)[5..9];
  }

  lemma WayIsLinearIff(g: Geom)
    requires g.LineString? || g.Polygon?
    ensures IsLinear(Encode(g)) <==> g.LineString?
  {
    hide EncodeRing, EncodeRings;
    TypeBytes(2, g.srid);
    TypeBytes(3, g.srid);
  }

  lemma {:induction false} LinearPartsOfWays(gs: seq<Geom>, hexes: seq<string>)
    requires |gs| == |hexes|
    requires forall i | 0 <= i < |gs| :: (gs[i].LineString? || gs[i].Polygon?) && FromHex(hexes[i]) == Encode(gs[i])
    ensures LinearParts(hexes) == Encodings(Lines(gs))
  {
    hide Encode;
    if gs != [] {
      WayIsLinearIff(gs[0]);
      LinearPartsOfWays(gs[1..], hexes[1..]);
      if gs[0].LineString? {
        assert Encodings([gs[0]] + Lines(gs[1..])) == [Encode(gs[0])] + Encodings(Lines(gs[1..]));
      }
    }
  }

  lemma {:induction false} FlattenEncodings(gs: seq<Geom>)
    ensures Flatten(Encodings(gs)) == EncodeAll(gs)
  {
    hide Encode;
    if gs != [] {
      assert Encodings(gs)[1..] == Encodings(gs[1..]);
      FlattenEncodings(gs[1..]);
    }
  }

  lemma {:induction false} LinesFit(gs: seq<Geom>)
    requires forall i | 0 <= i < |gs| :: Fits(gs[i])
    ensures |Lines(gs)| <= |gs| && forall i | 0 <= i < |Lines(gs)| :: Lines(gs)[i].LineString? && Fits(Lines(gs)[i])
  {
    if gs != [] {
      LinesFit(gs[1..]);
    }
  }

  /** Merging encoded ways gives the MultiLineString of exactly the LineStrings, in order. */
  lemma MergeDecodes(srid: nat, gs: seq<Geom>, hexes: seq<string>, upper: bool)
    requires |gs| == |hexes| < TWO32 && srid < TWO32
    requires forall i | 0 <= i < |gs| ::
               (gs[i].LineString? || gs[i].Polygon?) && Fits(gs[i]) && FromHex(hexes[i]) == Encode(gs[i])
    ensures var hex := Hex(MergedBytes(srid, LinearParts(hexes)), upper);
            if Lines(gs) == [] then hex == "" else DecodeHex(hex) == Some(MultiLineString(srid, Lines(gs)))
    ensures Listed(Lines(gs), LinesAt(gs))
  {
    hide Hex, DecodeHex, Encode, Lines, LinearParts, MergedBytes, Fits, FromHex, Listed;
    LinesListed(gs);
    LinearPartsOfWays(gs, hexes);
    LinesFit(gs);
    MergedLines(srid, Lines(gs));
    if Lines(gs) == [] {
      NoHex(upper);
    } else {
      MultiFits(srid, Lines(gs));
      HexDecodes(MultiLineString(srid, Lines(gs)), upper);
    }
  }

  lemma NoHex(upper: bool)
    ensures Hex([], upper) == ""
  {
  }

  lemma MultiFits(srid: nat, lines: seq<Geom>)
    requires |lines| < TWO32 && srid < TWO32 && forall i | 0 <= i < |lines| :: lines[i].LineString? && Fits(lines[i])
    ensures Fits(MultiLineString(srid, lines))
  {
  }

  lemma MergedLines(srid: nat, lines: seq<Geom>)
    ensures MergedBytes(srid, Encodings(lines)) == if lines == [] then [] else Encode(MultiLineString(srid, lines))
  {
    hide Header, U32, EncodeAll, Flatten;
    FlattenEncodings(lines);
    Associate(Header(5, srid), U32(|lines|), EncodeAll(lines));
  }
}
