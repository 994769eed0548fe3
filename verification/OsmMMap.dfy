/** OSMMMap: the writer side of the shards, the merge, and access to the merged file. */
module OsmMMap {
  import opened Basics
  import opened Records
  import opened ShardCodec
  import opened NodeStore

  /** `file` is what decompressing the shard file yields, None once the file is deleted; `bm` is the
      shard's bitmap sidecar. */
  datatype Shard = Shard(open: bool, inbuf: seq<Byte>, file: Option<seq<Byte>>, bm: seq<bv8>)

  /** All bytes handed to the shard so far. */
  function Stream(s: Shard): seq<Byte> {
    (match s.file case Some(b) => b case None => []) + s.inbuf
  }

  function AllRecords(shards: seq<Shard>): seq<Record> {
    if shards == [] then [] else Parse(Stream(shards[0])) + AllRecords(shards[1..])
  }

  function Concat(chunks: seq<seq<Byte>>): seq<Byte> {
    if chunks == [] then [] else Concat(chunks[..|chunks| - 1]) + chunks[|chunks| - 1]
  }

  /** Largest size of a sidecar bitmap, in bytes; the limits of file systems are far below it. */
  const MAX_BITMAP: nat := 0x1FF_FFFF_FFFF_FFFF

  /** The ids such a bitmap has room for; their 64-bit record offsets do not overflow. */
  predicate Addressable(id: int) {
    0 <= id < 8 * MAX_BITMAP
  }

  lemma AddressableIsTame(maxId: nat, id: int)
    requires Addressable(id)
    ensures IsInt64(id) && Defined(id) && !Aliases(maxId, id)
  {
    WrappedOffset(id);
  }

  ghost predicate ShardOk(s: Shard) {
    && (s.open ==> s.file.Some?) && (!s.open ==> s.inbuf == [])
    && Tail(Stream(s)) == [] && forall r | r in Parse(Stream(s)) :: Addressable(r.id)
  }

  /** What is mapped of a sidecar when it is opened. */
  const SIDECAR_SIZE: nat := 0x10_0000

  function NewShards(sidecars: seq<seq<bv8>>): seq<Shard> {
    seq(|sidecars|, i requires 0 <= i < |sidecars| => Shard(true, [], Some([]), sidecars[i]))
  }

  lemma NewShardOk(s: Shard)
    requires s.open && s.inbuf == [] && s.file == Some([])
    ensures ShardOk(s) && Parse(Stream(s)) == []
  {
    assert Stream(s) == [];
  }

  /** Blank files for an import. */
  method CreateFile(maxId: nat, shards: nat)
    returns (fileData: seq<Coord>, fileBits: seq<bv8>, sidecars: seq<Option<seq<bv8>>>)
    requires maxId < 0x800_0000_0000_0000
    ensures Mappable(maxId, fileData, fileBits) && Files(fileData, fileBits) && FileView(fileData, fileBits) == map[]
    ensures |sidecars| == shards
    ensures forall i | 0 <= i < shards :: sidecars[i].Some? && |sidecars[i].value| == SIDECAR_SIZE
  {
    fileData, fileBits := seq(maxId + 1, _ => ZERO), seq(BitmapBytes(maxId), _ => 0);
    sidecars := seq(shards, _ => Some(seq(SIDECAR_SIZE, _ => 0)));
    forall id | 0 <= id && IsInt64(id) ensures !BitAt(fileBits, id) {
      NoBits(id % 8);
    }
  }

  /** The size of a sidecar that has room for an id, in bytes. */
  function Room(id: int): nat
    requires IsInt64(id)
  {
    ToU64(id) / 8 + 1
  }

  class OSMMMap {
    /** `data` and `bits` are the files, of which the part that belongs to maxId is mapped. */
    const maxId: nat
    const data: array<Coord>
    const bits: array<bv8>
    const maxFile: nat
    var shards: seq<Shard>

    ghost predicate Valid()
      reads this, data, bits
    {
      && Mappable(maxId, data[..], bits[..]) && Files(data[..], bits[..])
      && (data as object) != bits && maxFile <= MAX_BITMAP
      && forall i | 0 <= i < |shards| :: ShardOk(shards[i]) && |shards[i].bm| <= maxFile
    }

    ghost function Content(): View
      reads this, data, bits
      requires Mappable(maxId, data[..], bits[..])
    {
      ViewOf(maxId, data[..], bits[..])
    }

    /** Opens existing files to resume, whatever maxId they were made for, and grows them if they are too short.
        The shard files are left as they are. */
    constructor (maxId: nat, maxFile: nat, fileData: seq<Coord>, fileBits: seq<bv8>, shards: seq<Shard>)
      requires maxId < 0x800_0000_0000_0000 && maxFile <= MAX_BITMAP && Files(fileData, fileBits)
      requires forall i | 0 <= i < |shards| :: ShardOk(shards[i]) && |shards[i].bm| <= maxFile
      ensures Valid() && fresh(data) && fresh(bits) && this.shards == shards
      ensures this.maxId == maxId && this.maxFile == maxFile
      ensures Content() == UpTo(FileView(fileData, fileBits), maxId)
      ensures FileView(data[..], bits[..]) == FileView(fileData, fileBits)
    {
      this.maxId, this.maxFile, this.shards := maxId, maxFile, shards;
      var d, b := Grown(fileData, maxId + 1, ZERO), Grown(fileBits, BitmapBytes(maxId), 0);
      ReopenPreserves(maxId, fileData, fileBits);
      data := new Coord[|d|](i requires 0 <= i < |d| => d[i]);
      bits := new bv8[|b|](i requires 0 <= i < |b| => b[i]);
      new;
      assert data[..] == d && bits[..] == b;
    }

    /** Opens files for an import: the shard files are truncated, the sidecars mapped, and nothing is grown. */
    constructor ForWriting(maxId: nat, maxFile: nat, fileData: seq<Coord>, fileBits: seq<bv8>, sidecars: seq<seq<bv8>>)
      requires SIDECAR_SIZE <= maxFile <= MAX_BITMAP && forall i | 0 <= i < |sidecars| :: |sidecars[i]| == SIDECAR_SIZE
      requires Mappable(maxId, fileData, fileBits) && Files(fileData, fileBits)
      ensures Valid() && fresh(data) && fresh(bits) && shards == NewShards(sidecars)
      ensures this.maxId == maxId && this.maxFile == maxFile && data[..] == fileData && bits[..] == fileBits
      ensures Content() == UpTo(FileView(fileData, fileBits), maxId)
    {
      this.maxId, this.maxFile, this.shards := maxId, maxFile, NewShards(sidecars);
      data := new Coord[|fileData|](i requires 0 <= i < |fileData| => fileData[i]);
      bits := new bv8[|fileBits|](i requires 0 <= i < |fileBits| => fileBits[i]);
      SeenPart(maxId, |fileData| - 1, fileData, fileBits);
      new;
      assert data[..] == fileData && bits[..] == fileBits;
      forall i | 0 <= i < |sidecars| ensures ShardOk(shards[i]) {
        NewShardOk(shards[i]);
      }
    }

    /** Opening for writing fails exactly if a sidecar is missing, as they all are after a merge. */
    static method OpenForWriting(maxId: nat, maxFile: nat, fileData: seq<Coord>, fileBits: seq<bv8>,
                                 sidecars: seq<Option<seq<bv8>>>) returns (m: OSMMMap?)
      requires SIDECAR_SIZE <= maxFile <= MAX_BITMAP && Mappable(maxId, fileData, fileBits) && Files(fileData, fileBits)
      requires forall i | 0 <= i < |sidecars| && sidecars[i].Some? :: |sidecars[i].value| == SIDECAR_SIZE
      ensures m == null <==> exists i :: 0 <= i < |sidecars| && sidecars[i].None?
      ensures m != null ==> m.Valid() && fresh(m) && fresh(m.data) && fresh(m.bits)
      ensures m != null ==> m.maxId == maxId && m.maxFile == maxFile && |m.shards| == |sidecars|
      ensures m != null ==> m.Content() == UpTo(FileView(fileData, fileBits), maxId)
      ensures m != null ==>
                forall i | 0 <= i < |sidecars| :: m.shards[i] == Shard(true, [], Some([]), sidecars[i].value)
    {
      var maps: seq<seq<bv8>> := [];
      for i := 0 to |sidecars|
        invariant |maps| == i && forall k | 0 <= k < i :: sidecars[k] == Some(maps[k]) && |maps[k]| == SIDECAR_SIZE
      {
        if sidecars[i].None? {
          return null;
        }
        maps := maps + [sidecars[i].value];
      }
      m := new OSMMMap.ForWriting(maxId, maxFile, fileData, fileBits, maps);
    }

    // ---- Reading and removing ----

    method Select(id: int) returns (c: Option<Coord>)
      requires Valid() && IsInt64(id)
      ensures c == if id in Content() then Some(Content()[id]) else None
    {
      hide SlackClear, ShardOk;
      var u := ToU64(id);
      if u / 8 >= BitmapBytes(maxId) || !BitOf(bits[u / 8], u % 8) {
        assert u / 8 >= BitmapBytes(maxId) || !BitAt(bits[..], id);
        return None;
      }
      assert BitAt(bits[..], id);
      hide BitAt, BitOf;
      var offset := u * REC_SIZE % TWO64;
      if offset + REC_SIZE > (maxId + 1) * REC_SIZE {
        return None;
      }
      c := Some(data[offset / REC_SIZE]);
    }

    method SetSlot(k: nat, c: Coord)
      requires k < data.Length
      modifies data
      ensures data[..] == old(data[..])[k := c]
    {
      data[k] := c;
    }

    /** Sets a bit of the mapped part. */
    method BitmapSet(id: int)
      requires IsInt64(id) && BitmapBytes(maxId) <= bits.Length
      requires ToU64(id) / 8 < BitmapBytes(maxId) || ToU64(id) / 8 >= bits.Length
      modifies bits
      ensures bits[..] == SetBit(old(bits[..]), id)
    {
      var u := ToU64(id);
      if u / 8 >= BitmapBytes(maxId) {
        return;
      }
      bits[u / 8] := bits[u / 8] | (1 << (u % 8));
    }

    method BitmapClear(id: int)
      requires IsInt64(id) && BitmapBytes(maxId) <= bits.Length
      requires ToU64(id) / 8 < BitmapBytes(maxId) || ToU64(id) / 8 >= bits.Length
      modifies bits
      ensures bits[..] == ClearBit(old(bits[..]), id)
    {
      var u := ToU64(id);
      if u / 8 >= BitmapBytes(maxId) {
        return;
      }
      var mask: bv8 := 1 << (u % 8);
      bits[u / 8] := bits[u / 8] & !mask;
    }

    method WriteToMerged(id: int, c: Coord)
      requires Valid() && IsInt64(id) && Defined(id)
      modifies data, bits
      ensures Valid()
      ensures data[..] == WriteData(maxId, old(data[..]), id, c) && bits[..] == WriteBits(maxId, old(bits[..]), id)
      ensures Content() == Written(old(Content()), maxId, id, c)
      ensures !Aliases(maxId, id) ==> Content() == Put(old(Content()), maxId, Record(id, c))
    {
      ghost var d, b := data[..], bits[..];
      SlotExact(maxId, id);
      WriteKeepsFiles(maxId, d, b, id, c);
      WriteExact(maxId, maxId, d, b, id, c);
      if id < 0 {
        return;
      }
      var offset := ToU64(id) * REC_SIZE % TWO64;
      if offset + REC_SIZE > (maxId + 1) * REC_SIZE {
        return;
      }
      if Aliases(maxId, id) {
        AliasHasNoBit(maxId, d, b, id);
      }
      SetSlot(offset / REC_SIZE, c);
      BitmapSet(id);
    }

    method Remove(id: int)
      requires Valid() && IsInt64(id) && Defined(id)
      modifies data, bits
      ensures Valid()
      ensures data[..] == WriteData(maxId, old(data[..]), id, ZERO) && bits[..] == RemoveBits(maxId, old(bits[..]), id)
      ensures Content() == Removed(old(Content()), maxId, id)
      ensures !Aliases(maxId, id) ==> Content() == old(Content()) - {id}
    {
      ghost var d, b := data[..], bits[..];
      SlotExact(maxId, id);
      WriteKeepsFiles(maxId, d, b, id, ZERO);
      RemoveExact(maxId, maxId, d, b, id);
      if id < 0 {
        return;
      }
      var offset := ToU64(id) * REC_SIZE % TWO64;
      if offset + REC_SIZE > (maxId + 1) * REC_SIZE {
        return;
      }
      if Aliases(maxId, id) {
        AliasHasNoBit(maxId, d, b, id);
      }
      SetSlot(offset / REC_SIZE, ZERO);
      BitmapClear(id);
    }

    // ---- Writing shards ----

    /** Hands the input buffer to the compressor. */
    method FlushInbuf(i: nat)
      requires Valid() && i < |shards| && shards[i].open
      modifies this`shards
      ensures Valid() && |shards| == |old(shards)| && shards == old(shards)[i := shards[i]]
      ensures shards[i] == old(shards)[i].(inbuf := [], file := Some(Stream(old(shards)[i])))
    {
      var s := shards[i];
      assert ShardOk(s);
      shards := shards[i := s.(inbuf := [], file := Some(s.file.value + s.inbuf))];
      assert Stream(shards[i]) == Stream(s);
    }

    method CloseWriter(i: nat)
      requires Valid() && i < |shards|
      modifies this`shards
      ensures Valid() && |shards| == |old(shards)| && shards == old(shards)[i := shards[i]]
      ensures !shards[i].open && shards[i].inbuf == [] && Stream(shards[i]) == Stream(old(shards)[i])
      ensures shards[i].file.Some? == old(shards)[i].file.Some?
    {
      var s := shards[i];
      assert ShardOk(s);
      if !s.open {
        return;
      }
      if s.inbuf != [] {
        FlushInbuf(i);
      }
      shards := shards[i := shards[i].(open := false)];
      assert Stream(shards[i]) == Stream(s);
    }

    /** Makes room for the bit of `id`, by at least a quarter of the size; fails at the file size limit. */
    method GrowBitmap(bm: seq<bv8>, id: int) returns (ok: bool, grown: seq<bv8>)
      requires IsInt64(id) && |bm| <= maxFile
      ensures ok ==> ToU64(id) / 8 < |grown| <= maxFile && grown == Grown(bm, |grown|, 0)
      ensures Room(id) <= |bm| ==> ok && grown == bm
      ensures Room(id) + Room(id) / 4 <= maxFile ==> ok
      ensures !ok ==> grown == bm
    {
      var needed := ToU64(id) / 8 + 1;
      if needed <= |bm| {
        return true, bm;
      }
      var newSize := if needed > |bm| + |bm| / 4 then needed else |bm| + |bm| / 4;
      if newSize > maxFile {
        return false, bm;
      }
      return true, Grown(bm, newSize, 0);
    }

    /** Appends one record to a shard. Fails when the sidecar bitmap cannot grow, as it does for every
        negative id. */
    method Insert(i: nat, id: int, c: Coord) returns (ok: bool)
      requires Valid() && IsInt64(id) && i < |shards| && shards[i].open
      modifies this`shards
      ensures Valid() && |shards| == |old(shards)| && shards == old(shards)[i := shards[i]]
      ensures !ok ==> shards == old(shards)
      ensures Room(id) <= |old(shards)[i].bm| || Room(id) + Room(id) / 4 <= maxFile ==> ok
      ensures ok ==> shards[i].open && Addressable(id)
      ensures ok ==> Stream(shards[i]) == Stream(old(shards)[i]) + Encode(Record(id, c))
      ensures ok ==> Parse(Stream(shards[i])) == Parse(Stream(old(shards)[i])) + [Record(id, c)]
      ensures ok ==> shards[i].bm == SetBit(Grown(old(shards)[i].bm, |shards[i].bm|, 0), id)
    {
      hide BitOf, SlackClear, Mappable, Encode, Tail, Parse;
      var s := shards[i];
      assert ShardOk(s);
      var grew, bm := GrowBitmap(s.bm, id);
      if !grew {
        return false;
      }
      var rec := Encode(Record(id, c));
      AppendRecord(Stream(s), Record(id, c));
      assert Stream(s.(inbuf := s.inbuf + rec)) == Stream(s) + rec;
      shards := shards[i := s.(inbuf := s.inbuf + rec, bm := SetBit(bm, id))];
      if |shards[i].inbuf| >= CHUNK_SIZE {
        FlushInbuf(i);
      }
      assert Stream(shards[i]) == Stream(s) + rec;
      ok := true;
    }

    // ---- Merging ----

    /** One round of the merge loop: `partial` holds the carried bytes, `out` the decompressed chunk. */
    method ProcessChunk(partial: seq<Byte>, out: seq<Byte>) returns (rest: seq<Byte>)
      requires Valid() && |partial| < RECORD_BYTES
      requires forall r | r in Parse(partial + out) :: Addressable(r.id)
      modifies data, bits
      ensures Valid()
      ensures Content() == ApplyAll(old(Content()), maxId, Parse(partial + out))
      ensures rest == Tail(partial + out)
    {
      ghost var all, v0 := partial + out, Content();
      var carried, p := partial, out;
      if |carried| > 0 {
        var need := RECORD_BYTES - |carried|;
        if |p| < need {
          return carried + p;
        }
        var first := carried + p[..need];
        assert first == all[..24] && p[need..] == all[24..];
        AddressableIsTame(maxId, ParseRecord(first).id);
        WriteToMerged(ParseRecord(first).id, ParseRecord(first).coord);
        p := p[need..];
        carried := [];
      } else {
        assert all == p;
      }
      while |p| >= RECORD_BYTES
        invariant Valid()
        invariant forall r | r in Parse(p) :: Addressable(r.id)
        invariant ApplyAll(Content(), maxId, Parse(p)) == ApplyAll(v0, maxId, Parse(all))
        invariant Tail(p) == Tail(all)
      {
        AddressableIsTame(maxId, ParseRecord(p[..24]).id);
        WriteToMerged(ParseRecord(p[..24]).id, ParseRecord(p[..24]).coord);
        p := p[24..];
      }
      rest := p;
    }

    /** Streams one closed shard file through the merge, in whatever chunks it is decompressed. */
    method MergeShard(cuts: seq<seq<Byte>>, ghost stream: seq<Byte>)
      requires Valid() && Concat(cuts) == stream
      requires Tail(stream) == [] && forall r | r in Parse(stream) :: Addressable(r.id)
      modifies data, bits
      ensures Valid() && Content() == ApplyAll(old(Content()), maxId, Parse(stream))
    {
      hide Parse, Tail, ApplyAll, ViewOf, SlackClear, ShardOk;
      var partial: seq<Byte> := [];
      ghost var v0 := Content();
      assert cuts[..|cuts|] == cuts;
      NothingYet(v0, maxId);
      for k := 0 to |cuts|
        invariant Valid() && partial == Tail(Concat(cuts[..k]))
        invariant Content() == ApplyAll(v0, maxId, Parse(Concat(cuts[..k])))
      {
        ghost var before := Concat(cuts[..k]);
        NextCut(cuts, k);
        ParseSplit(before, cuts[k]);
        ApplyAppend(v0, maxId, Parse(before), Parse(partial + cuts[k]));
        partial := ProcessChunk(partial, cuts[k]);
      }
    }

    /** The merge of all shards. `cuts[i]` is how the decompressor happens to cut shard i's content. */
    method Merge(cuts: seq<seq<seq<Byte>>>)
      requires Valid() && |cuts| == |shards|
      requires forall i | 0 <= i < |shards| && shards[i].file.Some? :: Concat(cuts[i]) == Stream(shards[i])
      modifies this`shards, data, bits
      ensures Valid() && |shards| == |old(shards)|
      ensures Content() == ApplyAll(old(Content()), maxId, AllRecords(old(shards)))
      ensures forall i | 0 <= i < |shards| :: shards[i].file.None?
    {
      ghost var v0, all := Content(), shards;
      for i := 0 to |shards|
        invariant Valid() && |shards| == |all|
        invariant forall k | i <= k < |all| :: shards[k] == all[k]
        invariant forall k | 0 <= k < i :: shards[k].file.None?
        invariant ApplyAll(Content(), maxId, AllRecords(all[i..])) == ApplyAll(v0, maxId, AllRecords(all))
      {
        assert ShardOk(all[i]) && all[i..][1..] == all[i + 1..];
        ApplyAppend(Content(), maxId, Parse(Stream(all[i])), AllRecords(all[i + 1..]));
        CloseWriter(i);
        if shards[i].file.Some? {
          MergeShard(cuts[i], Stream(all[i]));
          shards := shards[i := shards[i].(file := None)];
          EmptyShardOk(shards[i]);
        }
      }
    }
  }

  lemma NothingYet(v: View, maxId: nat)
    ensures Tail([]) == [] && ApplyAll(v, maxId, Parse([])) == v
  {
  }

  lemma ConcatNext(cuts: seq<seq<Byte>>, k: nat)
    requires k < |cuts|
    ensures Concat(cuts[..k + 1]) == Concat(cuts[..k]) + cuts[k]
  {
    assert cuts[..k + 1][..k] == cuts[..k];
  }

  /** The records completed by the next chunk are records of the whole stream. */
  lemma NextCut(cuts: seq<seq<Byte>>, k: nat)
    requires k < |cuts|
    ensures Concat(cuts[..k + 1]) == Concat(cuts[..k]) + cuts[k]
    ensures forall r | r in Parse(Tail(Concat(cuts[..k])) + cuts[k]) :: r in Parse(Concat(cuts))
  {
    hide Parse, Tail, Concat;
    var before := Concat(cuts[..k]);
    ConcatNext(cuts, k);
    ConcatPrefix(cuts, k + 1);
    var rest := Concat(cuts)[|before + cuts[k]|..];
    ParseSplit(before, cuts[k]);
    ParseSplit(before + cuts[k], rest);
    assert before + cuts[k] + rest == Concat(cuts);
  }

  lemma EmptyShardOk(s: Shard)
    requires !s.open && s.inbuf == [] && s.file.None?
    ensures ShardOk(s)
  {
    assert Stream(s) == [];
  }

  lemma {:induction false} ConcatPrefix(cuts: seq<seq<Byte>>, k: nat)
    requires k <= |cuts|
    ensures Concat(cuts[..k]) <= Concat(cuts)
    decreases |cuts|
  {
    if k < |cuts| {
      assert cuts[..|cuts| - 1][..k] == cuts[..k];
      ConcatPrefix(cuts[..|cuts| - 1], k);
    } else {
      assert cuts[..k] == cuts;
    }
  }
}
