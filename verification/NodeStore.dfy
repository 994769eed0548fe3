/** The node store: compressed shards of 24-byte records, merged into a flat array with a bitmap. */
module NodeStore {
  import opened Basics
  import opened Records

  const REC_SIZE: nat := 16
  const CHUNK_SIZE: nat := 0x40_0000

  // ---- Bitmaps ----

  predicate BitOf(b: bv8, i: nat)
    requires i < 8
  {
    (b >> i) & 1 == 1
  }

  lemma SetBitExact(b: bv8, i: nat, j: nat)
    requires i < 8 && j < 8
    ensures BitOf(b | (1 << i), j) <==> i == j || BitOf(b, j)
  {
  }

  lemma ClearBitExact(b: bv8, i: nat, j: nat)
    requires i < 8 && j < 8
    ensures BitOf(b & !(1 << i), j) <==> i != j && BitOf(b, j)
  {
  }

  /** bitmapGet; ids outside the bitmap are not set. */
  predicate BitAt(bits: seq<bv8>, id: int)
    requires IsInt64(id)
  {
    var u := ToU64(id);
    u / 8 < |bits| && BitOf(bits[u / 8], u % 8)
  }

  /** bitmapSet; ids outside the bitmap are ignored. */
  function SetBit(bits: seq<bv8>, id: int): seq<bv8>
    requires IsInt64(id)
  {
    var u := ToU64(id);
    if u / 8 < |bits| then bits[u / 8 := bits[u / 8] | (1 << (u % 8))] else bits
  }

  function ClearBit(bits: seq<bv8>, id: int): seq<bv8>
    requires IsInt64(id)
  {
    var u := ToU64(id);
    if u / 8 < |bits| then bits[u / 8 := bits[u / 8] & !(1 << (u % 8))] else bits
  }

  lemma SameByteSameBit(id: int, other: int)
    requires IsInt64(id) && IsInt64(other)
    ensures id == other <==> ToU64(id) / 8 == ToU64(other) / 8 && ToU64(id) % 8 == ToU64(other) % 8
  {
  }

  /** The byte and bit arithmetic touches no other id. */
  lemma SetBitAt(bits: seq<bv8>, id: int, other: int)
    requires IsInt64(id) && IsInt64(other)
    ensures BitAt(SetBit(bits, id), other) <==> (id == other && ToU64(id) / 8 < |bits|) || BitAt(bits, other)
  {
    hide BitOf;
    var u, v := ToU64(id), ToU64(other);
    SameByteSameBit(id, other);
    if u / 8 == v / 8 && u / 8 < |bits| {
      SetBitExact(bits[u / 8], u % 8, v % 8);
    }
  }

  lemma ClearBitAt(bits: seq<bv8>, id: int, other: int)
    requires IsInt64(id) && IsInt64(other)
    ensures BitAt(ClearBit(bits, id), other) <==> id != other && BitAt(bits, other)
  {
    hide BitOf;
    var u, v := ToU64(id), ToU64(other);
    SameByteSameBit(id, other);
    if u / 8 == v / 8 && u / 8 < |bits| {
      ClearBitExact(bits[u / 8], u % 8, v % 8);
    }
  }

  // ---- The merged file ----

  function BitmapBytes(maxId: nat): nat {
    (maxId + 1 + 7) / 8
  }

  /** The files hold a record for every id up to maxId, and the bitmap belongs to the data. Files made for a
      larger maxId are longer than what is mapped. */
  predicate Mappable(maxId: nat, data: seq<Coord>, bits: seq<bv8>) {
    maxId < |data| <= 0x800_0000_0000_0000 && |bits| == BitmapBytes(|data| - 1)
  }

  /** The entries with ids up to maxId, which is what `select` can see. */
  function ViewOf(maxId: nat, data: seq<Coord>, bits: seq<bv8>): View
    requires Mappable(maxId, data, bits)
  {
    map id | 0 <= id <= maxId && BitAt(bits, id) :: data[id]
  }

  function UpTo(v: View, maxId: nat): View {
    map id | id in v && id <= maxId :: v[id]
  }

  lemma SeenPart(maxId: nat, m: nat, data: seq<Coord>, bits: seq<bv8>)
    requires Mappable(m, data, bits) && maxId <= m
    ensures ViewOf(maxId, data, bits) == UpTo(ViewOf(m, data, bits), maxId)
  {
  }

  /** `id * REC_SIZE` in 64-bit arithmetic. */
  function Offset(id: int): nat
    requires IsInt64(id)
  {
    ToU64(id) * REC_SIZE % TWO64
  }

  /** For ids whose offset is the last record of the address space, `offset + REC_SIZE` wraps to zero and
      the bounds check passes; the source's behaviour is undefined there. */
  predicate Defined(id: int)
    requires IsInt64(id)
  {
    id < 0 || Offset(id) + REC_SIZE < TWO64
  }

  /** The record number an id addresses, if it passes the checks of writeToMerged and remove. */
  function Slot(maxId: nat, id: int): Option<nat>
    requires IsInt64(id)
  {
    if id < 0 || Offset(id) + REC_SIZE > (maxId + 1) * REC_SIZE then None else Some(Offset(id) / REC_SIZE)
  }

  function WriteData(maxId: nat, data: seq<Coord>, id: int, c: Coord): seq<Coord>
    requires IsInt64(id) && |data| > maxId
  {
    match Slot(maxId, id) case Some(k) => data[k := c] case None => data
  }

  function WriteBits(maxId: nat, bits: seq<bv8>, id: int): seq<bv8>
    requires IsInt64(id)
  {
    if Slot(maxId, id).Some? then SetBit(bits, id) else bits
  }

  function RemoveBits(maxId: nat, bits: seq<bv8>, id: int): seq<bv8>
    requires IsInt64(id)
  {
    if Slot(maxId, id).Some? then ClearBit(bits, id) else bits
  }

  /** An id beyond maxId whose 64-bit offset wraps around to the record of another id. */
  predicate Aliases(maxId: nat, id: int) {
    id > maxId && id % 0x1000_0000_0000_0000 <= maxId
  }

  /** The id whose record `id` addresses. */
  function Wrapped(id: nat): nat {
    id % 0x1000_0000_0000_0000
  }

  lemma SlotExact(maxId: nat, id: int)
    requires IsInt64(id) && Defined(id) && maxId < 0x800_0000_0000_0000
    ensures Slot(maxId, id).Some? <==> 0 <= id <= maxId || Aliases(maxId, id)
    ensures Slot(maxId, id).Some? ==> Slot(maxId, id).value == Wrapped(id) <= maxId
  {
    if id >= 0 {
      WrappedOffset(id);
    }
  }

  lemma WrappedOffset(id: nat)
    requires IsInt64(id)
    ensures Offset(id) == 16 * Wrapped(id)
  {
    var q, r := id / 0x1000_0000_0000_0000, Wrapped(id);
    assert id * 16 == q * TWO64 + r * 16;
  }

  /** The bits of ids that alias are outside every bitmap. */
  lemma AliasHasNoBit(maxId: nat, data: seq<Coord>, bits: seq<bv8>, id: int)
    requires Mappable(maxId, data, bits) && IsInt64(id) && Aliases(maxId, id)
    ensures ToU64(id) / 8 >= |bits|
  {
  }

  // ---- What an operation does to the entries, for every id ----

  /** A write or removal of an id that aliases replaces the coordinates of the other id, if it is present. */
  function Clobber(v: View, id: nat, c: Coord): View {
    if Wrapped(id) in v then v[Wrapped(id) := c] else v
  }

  function Written(v: View, maxId: nat, id: int, c: Coord): View {
    if Aliases(maxId, id) then Clobber(v, id, c) else Put(v, maxId, Record(id, c))
  }

  const ZERO: Coord := Coord(0, 0)

  /** An id beyond maxId is not removed: the file may hold it, but it is not mapped. */
  function Take(v: View, maxId: nat, id: int): View {
    if id <= maxId then v - {id} else v
  }

  function Removed(v: View, maxId: nat, id: int): View {
    if Aliases(maxId, id) then Clobber(v, id, ZERO) else Take(v, maxId, id)
  }

  /** `m` is maxId for the mapped entries, or the largest id of the files for all entries. */
  lemma WriteExact(m: nat, maxId: nat, data: seq<Coord>, bits: seq<bv8>, id: int, c: Coord)
    requires Mappable(m, data, bits) && maxId <= m && IsInt64(id) && Defined(id)
    ensures ViewOf(m, WriteData(maxId, data, id, c), WriteBits(maxId, bits, id))
            == Written(ViewOf(m, data, bits), maxId, id, c)
  {
    hide BitAt, SetBit, Slot;
    SlotExact(maxId, id);
    forall other | 0 <= other <= m
      ensures BitAt(WriteBits(maxId, bits, id), other) <==> (id == other && id <= maxId) || BitAt(bits, other)
    {
      SetBitAt(bits, id, other);
    }
  }

  lemma RemoveExact(m: nat, maxId: nat, data: seq<Coord>, bits: seq<bv8>, id: int)
    requires Mappable(m, data, bits) && maxId <= m && IsInt64(id) && Defined(id)
    ensures ViewOf(m, WriteData(maxId, data, id, ZERO), RemoveBits(maxId, bits, id))
            == Removed(ViewOf(m, data, bits), maxId, id)
  {
    hide BitAt, ClearBit, Slot;
    SlotExact(maxId, id);
    forall other | 0 <= other <= m
      ensures BitAt(RemoveBits(maxId, bits, id), other) <==> !(id == other && id <= maxId) && BitAt(bits, other)
    {
      ClearBitAt(bits, id, other);
    }
  }

  // ---- When this is a map ----

  /** A store in which every id is present, with the same coordinates. */
  lemma FullStore(maxId: nat, c: Coord) returns (data: seq<Coord>, bits: seq<bv8>)
    requires maxId < 0x800_0000_0000_0000
    ensures Mappable(maxId, data, bits)
    ensures forall id | 0 <= id <= maxId :: id in ViewOf(maxId, data, bits) && ViewOf(maxId, data, bits)[id] == c
  {
    data, bits := seq(maxId + 1, _ => c), seq(BitmapBytes(maxId), _ => 255);
    forall id | 0 <= id <= maxId ensures BitAt(bits, id) {
      AllBits(id % 8);
    }
  }

  lemma AllBits(i: nat)
    requires i < 8
    ensures BitOf(255, i)
  {
  }

  /** For every aliasing id there is a store in which a write of it changes the coordinates of another node... */
  lemma AliasingOverwrites(maxId: nat, id: int)
    requires IsInt64(id) && Defined(id) && maxId < 0x800_0000_0000_0000 && Aliases(maxId, id)
    ensures exists data, bits, c :: Mappable(maxId, data, bits)
              && ViewOf(maxId, WriteData(maxId, data, id, c), WriteBits(maxId, bits, id))
                 != Put(ViewOf(maxId, data, bits), maxId, Record(id, c))
  {
    var data, bits := FullStore(maxId, ZERO);
    hide ViewOf, Mappable, WriteData, WriteBits;
    WriteExact(maxId, maxId, data, bits, id, Coord(1, 1));
    var before := ViewOf(maxId, data, bits);
    assert Clobber(before, id, Coord(1, 1))[Wrapped(id)] != before[Wrapped(id)];
  }

  /** ...and one in which a removal of it zeroes them and leaves the node visible. */
  lemma AliasingZeroes(maxId: nat, id: int)
    requires IsInt64(id) && Defined(id) && maxId < 0x800_0000_0000_0000 && Aliases(maxId, id)
    ensures exists data, bits :: Mappable(maxId, data, bits)
              && ViewOf(maxId, WriteData(maxId, data, id, ZERO), RemoveBits(maxId, bits, id))
                 != ViewOf(maxId, data, bits) - {id}
  {
    var data, bits := FullStore(maxId, Coord(1, 1));
    hide ViewOf, Mappable, WriteData, RemoveBits;
    RemoveExact(maxId, maxId, data, bits, id);
    var before := ViewOf(maxId, data, bits);
    assert Clobber(before, id, ZERO)[Wrapped(id)] != (before - {id})[Wrapped(id)];
  }

  /** The store acts as a finite map under a write of `id` if and only if the id does not alias. */
  lemma WriteRefinesIff(maxId: nat, id: int)
    requires IsInt64(id) && Defined(id) && maxId < 0x800_0000_0000_0000
    ensures (forall data, bits, c | Mappable(maxId, data, bits) ::
               ViewOf(maxId, WriteData(maxId, data, id, c), WriteBits(maxId, bits, id))
               == Put(ViewOf(maxId, data, bits), maxId, Record(id, c)))
            <==> !Aliases(maxId, id)
  {
    hide ViewOf, Aliases, Defined;
    if Aliases(maxId, id) {
      AliasingOverwrites(maxId, id);
    } else {
      forall data, bits, c | Mappable(maxId, data, bits)
        ensures ViewOf(maxId, WriteData(maxId, data, id, c), WriteBits(maxId, bits, id))
                == Put(ViewOf(maxId, data, bits), maxId, Record(id, c))
      {
        WriteExact(maxId, maxId, data, bits, id, c);
      }
    }
  }

  /** The same of a removal, which ids read from a change file can reach. */
  lemma RemoveRefinesIff(maxId: nat, id: int)
    requires IsInt64(id) && Defined(id) && maxId < 0x800_0000_0000_0000
    ensures (forall data, bits | Mappable(maxId, data, bits) ::
               ViewOf(maxId, WriteData(maxId, data, id, ZERO), RemoveBits(maxId, bits, id))
               == ViewOf(maxId, data, bits) - {id})
            <==> !Aliases(maxId, id)
  {
    if Aliases(maxId, id) {
      AliasingZeroes(maxId, id);
    } else {
      forall data, bits | Mappable(maxId, data, bits)
        ensures ViewOf(maxId, WriteData(maxId, data, id, ZERO), RemoveBits(maxId, bits, id))
                == ViewOf(maxId, data, bits) - {id}
      {
        RemoveExact(maxId, maxId, data, bits, id);
      }
    }
  }

  // ---- Growing on resume ----

  function Grown<T>(file: seq<T>, n: nat, zero: T): seq<T> {
    if |file| < n then file + seq(n - |file|, _ => zero) else file
  }

  /** No bit is set beyond the last record; holds of a blank file and is kept by every write and growth. */
  ghost predicate SlackClear(data: seq<Coord>, bits: seq<bv8>) {
    forall id | |data| <= id < 8 * |bits| && IsInt64(id) :: !BitAt(bits, id)
  }

  /** The files of a store: their sizes belong together and no bit is set beyond the last record. */
  ghost predicate Files(data: seq<Coord>, bits: seq<bv8>) {
    |data| > 0 && Mappable(|data| - 1, data, bits) && SlackClear(data, bits)
  }

  ghost function FileView(data: seq<Coord>, bits: seq<bv8>): View
    requires Files(data, bits)
  {
    ViewOf(|data| - 1, data, bits)
  }

  lemma NoBits(i: nat)
    requires i < 8
    ensures !BitOf(0, i)
  {
  }

  lemma GrownBit(bits: seq<bv8>, n: nat, id: int)
    requires IsInt64(id)
    ensures BitAt(Grown(bits, n, 0), id) <==> BitAt(bits, id)
    ensures BitAt(bits, id) ==> ToU64(id) / 8 < |bits|
  {
    var bits', u := Grown(bits, n, 0), ToU64(id);
    if |bits| <= u / 8 < |bits'| {
      assert bits'[u / 8] == 0;
      NoBits(u % 8);
    }
  }

  /** Reopening keeps every entry of the files and adds none, whatever maxId they were made for: a larger one
      grows the files, with a smaller one the entries beyond are not seen. */
  lemma ReopenPreserves(maxId: nat, data: seq<Coord>, bits: seq<bv8>)
    requires Files(data, bits) && maxId < 0x800_0000_0000_0000
    ensures var data', bits' := Grown(data, maxId + 1, ZERO), Grown(bits, BitmapBytes(maxId), 0);
            && Mappable(maxId, data', bits') && Files(data', bits')
            && FileView(data', bits') == FileView(data, bits)
            && ViewOf(maxId, data', bits') == UpTo(FileView(data, bits), maxId)
  {
    hide BitAt;
    var data', bits' := Grown(data, maxId + 1, ZERO), Grown(bits, BitmapBytes(maxId), 0);
    forall id | 0 <= id < 8 * |bits'| && IsInt64(id)
      ensures BitAt(bits', id) <==> id < |data| && BitAt(bits, id)
    {
      GrownBit(bits, BitmapBytes(maxId), id);
    }
    assert FileView(data', bits') == FileView(data, bits);
    SeenPart(maxId, |data'| - 1, data', bits');
  }

  lemma WriteKeepsFiles(maxId: nat, data: seq<Coord>, bits: seq<bv8>, id: int, c: Coord)
    requires Files(data, bits) && Mappable(maxId, data, bits) && IsInt64(id) && Defined(id)
    ensures Files(WriteData(maxId, data, id, c), WriteBits(maxId, bits, id))
    ensures Files(WriteData(maxId, data, id, c), RemoveBits(maxId, bits, id))
  {
    SlotExact(maxId, id);
    hide BitAt, SetBit, ClearBit, Slot;
    forall other | |data| <= other < 8 * |bits| && IsInt64(other)
      ensures !BitAt(WriteBits(maxId, bits, id), other) && !BitAt(RemoveBits(maxId, bits, id), other)
    {
      SetBitAt(bits, id, other);
      ClearBitAt(bits, id, other);
    }
    WriteKeepsSize(maxId, data, bits, id, c);
  }

  lemma WriteKeepsSize(maxId: nat, data: seq<Coord>, bits: seq<bv8>, id: int, c: Coord)
    requires |data| > maxId && IsInt64(id)
    ensures |WriteData(maxId, data, id, c)| == |data|
    ensures |WriteBits(maxId, bits, id)| == |RemoveBits(maxId, bits, id)| == |bits|
  {
  }

  // ---- Any sequence of operations ----

  datatype StoreOp = Write(id: int, c: Coord) | Remove(id: int) | Reopen(maxId: nat)

  /** The files, and the maxId with which they are mapped. */
  datatype Flat = Flat(maxId: nat, data: seq<Coord>, bits: seq<bv8>) {
    ghost predicate Valid() {
      Mappable(maxId, data, bits) && Files(data, bits)
    }
  }

  predicate Possible(op: StoreOp) {
    match op
    case Write(id, _) => IsInt64(id) && Defined(id)
    case Remove(id) => IsInt64(id) && Defined(id)
    case Reopen(n) => n < 0x800_0000_0000_0000
  }

  predicate Aliasing(maxId: nat, op: StoreOp) {
    !op.Reopen? && Aliases(maxId, op.id)
  }

  function MaxAfter(maxId: nat, op: StoreOp): nat {
    match op case Reopen(n) => n case _ => maxId
  }

  predicate NoAliases(maxId: nat, ops: seq<StoreOp>)
    decreases |ops|
  {
    ops == [] || (!Aliasing(maxId, ops[0]) && NoAliases(MaxAfter(maxId, ops[0]), ops[1..]))
  }

  /** The operation on the files... */
  function FlatStep(s: Flat, op: StoreOp): Flat
    requires |s.data| > s.maxId && Possible(op)
  {
    match op
    case Write(id, c) => s.(data := WriteData(s.maxId, s.data, id, c), bits := WriteBits(s.maxId, s.bits, id))
    case Remove(id) => s.(data := WriteData(s.maxId, s.data, id, ZERO), bits := RemoveBits(s.maxId, s.bits, id))
    case Reopen(n) => Flat(n, Grown(s.data, n + 1, ZERO), Grown(s.bits, BitmapBytes(n), 0))
  }

  /** ...what it does to the entries... */
  function EntryStep(maxId: nat, v: View, op: StoreOp): View {
    match op
    case Write(id, c) => Written(v, maxId, id, c)
    case Remove(id) => Removed(v, maxId, id)
    case Reopen(_) => v
  }

  /** ...and the operation on a map. */
  function MapStep(maxId: nat, v: View, op: StoreOp): View {
    match op
    case Write(id, c) => Put(v, maxId, Record(id, c))
    case Remove(id) => Take(v, maxId, id)
    case Reopen(_) => v
  }

  ghost predicate AllPossible(ops: seq<StoreOp>) {
    forall i | 0 <= i < |ops| :: Possible(ops[i])
  }

  ghost function FlatRun(s: Flat, ops: seq<StoreOp>): Flat
    requires s.Valid() && AllPossible(ops)
    decreases |ops|
  {
    if ops == [] then s
    else
      FlatStepExact(s, ops[0]);
      FlatRun(FlatStep(s, ops[0]), ops[1..])
  }

  function EntryRun(maxId: nat, v: View, ops: seq<StoreOp>): View
    decreases |ops|
  {
    if ops == [] then v else EntryRun(MaxAfter(maxId, ops[0]), EntryStep(maxId, v, ops[0]), ops[1..])
  }

  function MapRun(maxId: nat, v: View, ops: seq<StoreOp>): View
    decreases |ops|
  {
    if ops == [] then v else MapRun(MaxAfter(maxId, ops[0]), MapStep(maxId, v, ops[0]), ops[1..])
  }

  lemma FlatStepExact(s: Flat, op: StoreOp)
    requires s.Valid() && Possible(op)
    ensures FlatStep(s, op).Valid() && FlatStep(s, op).maxId == MaxAfter(s.maxId, op)
    ensures var s' := FlatStep(s, op);
            FileView(s'.data, s'.bits) == EntryStep(s.maxId, FileView(s.data, s.bits), op)
  {
    hide SlackClear, ViewOf, WriteData, WriteBits, RemoveBits, Grown, Aliases, Defined;
    match op
    case Write(id, c) =>
      WriteKeepsFiles(s.maxId, s.data, s.bits, id, c);
      WriteKeepsSize(s.maxId, s.data, s.bits, id, c);
      WriteExact(|s.data| - 1, s.maxId, s.data, s.bits, id, c);
    case Remove(id) =>
      WriteKeepsFiles(s.maxId, s.data, s.bits, id, ZERO);
      WriteKeepsSize(s.maxId, s.data, s.bits, id, ZERO);
      RemoveExact(|s.data| - 1, s.maxId, s.data, s.bits, id);
    case Reopen(n) =>
      ReopenPreserves(n, s.data, s.bits);
  }

  /** Under any sequence of writes, removals and reopenings, and for all ids, the files hold the specified
      entries, of which `select` sees those up to maxId. */
  lemma {:induction false} StoreHoldsEntries(s: Flat, ops: seq<StoreOp>)
    requires s.Valid() && AllPossible(ops)
    ensures var r, v := FlatRun(s, ops), EntryRun(s.maxId, FileView(s.data, s.bits), ops);
            r.Valid() && FileView(r.data, r.bits) == v && ViewOf(r.maxId, r.data, r.bits) == UpTo(v, r.maxId)
    decreases |ops|
  {
    hide SlackClear, ViewOf, FlatStep, EntryStep, Possible;
    if ops == [] {
      SeenPart(s.maxId, |s.data| - 1, s.data, s.bits);
    } else {
      FlatStepExact(s, ops[0]);
      StoreHoldsEntries(FlatStep(s, ops[0]), ops[1..]);
    }
  }

  lemma {:induction false} EntriesAreMap(maxId: nat, v: View, ops: seq<StoreOp>)
    requires NoAliases(maxId, ops)
    ensures EntryRun(maxId, v, ops) == MapRun(maxId, v, ops)
    decreases |ops|
  {
    if ops != [] {
      EntriesAreMap(MaxAfter(maxId, ops[0]), MapStep(maxId, v, ops[0]), ops[1..]);
    }
  }

  /** Without ids that alias the files act as a finite map. */
  lemma StoreRefinesMap(s: Flat, ops: seq<StoreOp>)
    requires s.Valid() && AllPossible(ops) && NoAliases(s.maxId, ops)
    ensures var r, v := FlatRun(s, ops), MapRun(s.maxId, FileView(s.data, s.bits), ops);
            r.Valid() && FileView(r.data, r.bits) == v && ViewOf(r.maxId, r.data, r.bits) == UpTo(v, r.maxId)
  {
    StoreHoldsEntries(s, ops);
    EntriesAreMap(s.maxId, FileView(s.data, s.bits), ops);
  }
}
