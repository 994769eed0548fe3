/** The 24-byte record format of the shard streams. */
module ShardCodec {
  import opened Basics
  import opened Records

  const RECORD_BYTES: nat := 24

  function Encode(r: Record): (b: seq<Byte>)
    requires IsInt64(r.id)
    ensures |b| == RECORD_BYTES
  {
    LE(ToU64(r.id), 8) + LE(r.coord.lon, 8) + LE(r.coord.lat, 8)
  }

  function EncodeAll(rs: seq<Record>): seq<Byte>
    requires forall r | r in rs :: IsInt64(r.id)
  {
    if rs == [] then [] else Encode(rs[0]) + EncodeAll(rs[1..])
  }

  function ParseRecord(b: seq<Byte>): (r: Record)
    requires |b| == RECORD_BYTES
    ensures IsInt64(r.id)
  {
    Record(FromU64(Word64(b[..8])), Coord(Word64(b[8..16]), Word64(b[16..24])))
  }

  /** Reference: the whole stream cut into records at once; an incomplete last record is dropped. */
  function Parse(b: seq<Byte>): (rs: seq<Record>)
    ensures forall r | r in rs :: IsInt64(r.id)
  {
    if |b| < RECORD_BYTES then [] else [ParseRecord(b[..RECORD_BYTES])] + Parse(b[RECORD_BYTES..])
  }

  /** The bytes after the last whole record. */
  function Tail(b: seq<Byte>): (t: seq<Byte>)
    ensures |t| < RECORD_BYTES && |b| % RECORD_BYTES == |t|
  {
    if |b| < RECORD_BYTES then b else Tail(b[RECORD_BYTES..])
  }

  lemma RecordRoundTrip(r: Record)
    requires IsInt64(r.id)
    ensures ParseRecord(Encode(r)) == r
  {
    var b := Encode(r);
    Word64RoundTrip(ToU64(r.id));
    Word64RoundTrip(r.coord.lon);
    Word64RoundTrip(r.coord.lat);
    assert b[..8] == LE(ToU64(r.id), 8) && b[8..16] == LE(r.coord.lon, 8) && b[16..24] == LE(r.coord.lat, 8);
  }

  lemma {:induction false} StreamRoundTrip(rs: seq<Record>)
    requires forall r | r in rs :: IsInt64(r.id)
    ensures Parse(EncodeAll(rs)) == rs && Tail(EncodeAll(rs)) == []
  {
    if rs != [] {
      var b := EncodeAll(rs);
      assert b[..24] == Encode(rs[0]) && b[24..] == EncodeAll(rs[1..]);
      RecordRoundTrip(rs[0]);
      StreamRoundTrip(rs[1..]);
    }
  }

  /** Cutting the stream anywhere: the records of the first part, then those of its tail and the rest. */
  lemma {:induction false} ParseSplit(a: seq<Byte>, b: seq<Byte>)
    ensures Parse(a + b) == Parse(a) + Parse(Tail(a) + b)
    ensures Tail(a + b) == Tail(Tail(a) + b)
    decreases |a|
  {
    hide ParseRecord;
    if |a| >= RECORD_BYTES {
      assert (a + b)[..24] == a[..24] && (a + b)[24..] == a[24..] + b;
      ParseSplit(a[24..], b);
      assert Parse(a) == [ParseRecord(a[..24])] + Parse(a[24..]);
      assert Parse(a + b) == [ParseRecord(a[..24])] + Parse(a[24..] + b);
    } else {
      assert Parse(a) == [] && [] + Parse(Tail(a) + b) == Parse(Tail(a) + b);
    }
  }

  lemma ParseOne(b: seq<Byte>)
    requires |b| == RECORD_BYTES
    ensures Parse(b) == [ParseRecord(b)] && Tail(b) == []
  {
    assert b[..24] == b && b[24..] == [];
  }

  lemma AppendRecord(stream: seq<Byte>, r: Record)
    requires IsInt64(r.id) && Tail(stream) == []
    ensures Parse(stream + Encode(r)) == Parse(stream) + [r] && Tail(stream + Encode(r)) == []
  {
    ParseSplit(stream, Encode(r));
    assert [] + Encode(r) == Encode(r);
    ParseOne(Encode(r));
    RecordRoundTrip(r);
  }
}
