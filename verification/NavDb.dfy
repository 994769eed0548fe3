/** Buffered writing to the way and area tables, with the retry loop for rejected rows. */
module NavDb {
  import opened Basics

  /** `accepted` stands for PostgreSQL's verdict on the row's own values. */
  datatype GeomRecord = GeomRecord(id: int, name: string, geog: string, accepted: bool)
  datatype TagRow = TagRow(id: int, key: string, value: string)

  /** The tags of an entity in the order in which the hash map is walked. */
  type TagList = seq<(string, string)>

  // ---- Reference semantics ----

  predicate HasId(rows: seq<GeomRecord>, id: int) {
    exists i :: 0 <= i < |rows| && rows[i].id == id
  }

  predicate Insertable(rows: seq<GeomRecord>, r: GeomRecord) {
    r.accepted && !HasId(rows, r.id)
  }

  /** Inserting rows one by one, each in its own statement, skipping those the table rejects. */
  function InsertEach(rows: seq<GeomRecord>, batch: seq<GeomRecord>): seq<GeomRecord>
    decreases |batch|
  {
    if batch == [] then rows
    else InsertEach(if Insertable(rows, batch[0]) then rows + [batch[0]] else rows, batch[1..])
  }

  lemma {:induction false} InsertEachAppend(rows: seq<GeomRecord>, a: seq<GeomRecord>, b: seq<GeomRecord>)
    ensures InsertEach(rows, a + b) == InsertEach(InsertEach(rows, a), b)
    decreases |a|
  {
    if a == [] {
      assert a + b == b;
    } else {
      assert (a + b)[1..] == a[1..] + b;
      InsertEachAppend(if Insertable(rows, a[0]) then rows + [a[0]] else rows, a[1..], b);
    }
  }

  /** Every id occurs at most once, and every row of the table was accepted. */
  ghost predicate Sound(rows: seq<GeomRecord>) {
    (forall i, j | 0 <= i < j < |rows| :: rows[i].id != rows[j].id) && forall i | 0 <= i < |rows| :: rows[i].accepted
  }

  lemma {:induction false} InsertEachSound(rows: seq<GeomRecord>, batch: seq<GeomRecord>)
    requires Sound(rows)
    ensures Sound(InsertEach(rows, batch)) && rows <= InsertEach(rows, batch)
    decreases |batch|
  {
    if batch != [] {
      InsertEachSound(if Insertable(rows, batch[0]) then rows + [batch[0]] else rows, batch[1..]);
    }
  }

  /** The rows of a batch that get into the table, by position: accepted, with an id that neither the table nor
      an accepted row before has. */
  ghost function WinnersAt(rows: seq<GeomRecord>, batch: seq<GeomRecord>): map<nat, GeomRecord> {
    map k: nat | k < |batch| && Insertable(rows, batch[k])
                 && forall j | 0 <= j < k :: batch[j].accepted ==> batch[j].id != batch[k].id :: batch[k]
  }

  lemma HasIdMore(rows: seq<GeomRecord>, r: GeomRecord, id: int)
    ensures HasId(rows + [r], id) <==> HasId(rows, id) || r.id == id
  {
    if HasId(rows, id) {
      var i :| 0 <= i < |rows| && rows[i].id == id;
      assert (rows + [r])[i].id == id;
    }
    assert (rows + [r])[|rows|] == r;
  }

  lemma WinnersShift(rows: seq<GeomRecord>, batch: seq<GeomRecord>)
    requires batch != []
    ensures var r, won := batch[0], Insertable(rows, batch[0]);
            Prepends(if won then Some(r) else None,
                     WinnersAt(if won then rows + [r] else rows, batch[1..]), WinnersAt(rows, batch))
  {
    var r, won, rest := batch[0], Insertable(rows, batch[0]), batch[1..];
    var rows' := if won then rows + [r] else rows;
    forall k: nat | k < |rest|
      ensures Insertable(rows', rest[k]) && (forall j | 0 <= j < k :: rest[j].accepted ==> rest[j].id != rest[k].id)
              <==> Insertable(rows, batch[k + 1])
                   && forall j | 0 <= j < k + 1 :: batch[j].accepted ==> batch[j].id != batch[k + 1].id
    {
      HasIdMore(rows, r, rest[k].id);
      hide HasId;
      assert forall j | 0 <= j < |rest| :: rest[j] == batch[j + 1];
      if forall j | 0 <= j < k :: rest[j].accepted ==> rest[j].id != rest[k].id {
        assert forall j | 0 < j < k + 1 :: batch[j] == rest[j - 1];
      }
    }
  }

  /** Inserting row by row keeps the table and appends exactly these rows, in order. */
  lemma {:induction false} InsertEachExactly(rows: seq<GeomRecord>, batch: seq<GeomRecord>)
    returns (added: seq<GeomRecord>)
    ensures InsertEach(rows, batch) == rows + added && Listed(added, WinnersAt(rows, batch))
    decreases |batch|
  {
    hide Listed, WinnersAt, Insertable;
    if batch == [] {
      added := [];
      NoWinners(rows);
    } else {
      var r, won := batch[0], Insertable(rows, batch[0]);
      var rows' := if won then rows + [r] else rows;
      var first := if won then Some(r) else None;
      var rest := InsertEachExactly(rows', batch[1..]);
      WinnersShift(rows, batch);
      ListedCons(first, rest, WinnersAt(rows', batch[1..]), WinnersAt(rows, batch));
      added := Present(first) + rest;
      assert rows' + rest == rows + added;
    }
  }

  lemma NoWinners(rows: seq<GeomRecord>)
    ensures Listed([], WinnersAt(rows, []))
  {
    ListedNone(WinnersAt(rows, []));
  }

  // ---- Without rejected rows ----

  /** Accepted rows with ids that are new and distinct. */
  ghost predicate AllNew(rows: seq<GeomRecord>, batch: seq<GeomRecord>) {
    && (forall i | 0 <= i < |batch| :: Insertable(rows, batch[i]))
    && forall i, j | 0 <= i < j < |batch| :: batch[i].id != batch[j].id
  }

  lemma AllNewNext(rows: seq<GeomRecord>, batch: seq<GeomRecord>)
    requires batch != []
    ensures AllNew(rows, batch) <==> Insertable(rows, batch[0]) && AllNew(rows + [batch[0]], batch[1..])
  {
    var rows' := rows + [batch[0]];
    forall id ensures HasId(rows', id) <==> id == batch[0].id || HasId(rows, id) {
      if HasId(rows, id) {
        var i :| 0 <= i < |rows| && rows[i].id == id;
        assert rows'[i].id == id;
      }
      assert rows'[|rows|] == batch[0];
    }
    assert forall i | 0 < i < |batch| :: batch[1..][i - 1] == batch[i];
    if Insertable(rows, batch[0]) && AllNew(rows', batch[1..]) {
      forall i | 0 < i < |batch| ensures Insertable(rows, batch[i]) && batch[i].id != batch[0].id {
        assert Insertable(rows', batch[1..][i - 1]);
      }
      forall i, j | 0 < i < j < |batch| ensures batch[i].id != batch[j].id {
        assert batch[1..][i - 1].id != batch[1..][j - 1].id;
      }
    }
  }

  lemma {:induction false} InsertEachLength(rows: seq<GeomRecord>, batch: seq<GeomRecord>)
    ensures |rows| <= |InsertEach(rows, batch)| <= |rows| + |batch|
    ensures rows <= InsertEach(rows, batch)
    decreases |batch|
  {
    hide Insertable;
    if batch != [] {
      InsertEachLength(if Insertable(rows, batch[0]) then rows + [batch[0]] else rows, batch[1..]);
    }
  }

  /** Inserting row by row appends the whole batch if and only if every row is accepted and its id is new. */
  lemma {:induction false} AppendsIffNew(rows: seq<GeomRecord>, batch: seq<GeomRecord>)
    ensures InsertEach(rows, batch) == rows + batch <==> AllNew(rows, batch)
    decreases |batch|
  {
    hide Insertable, AllNew;
    if batch == [] {
      assert rows + batch == rows;
      NothingNew(rows);
    } else {
      var rows' := rows + [batch[0]];
      assert rows' + batch[1..] == rows + batch;
      AllNewNext(rows, batch);
      AppendsIffNew(rows', batch[1..]);
      if !Insertable(rows, batch[0]) {
        InsertEachLength(rows, batch[1..]);
      }
    }
  }

  lemma NothingNew(rows: seq<GeomRecord>)
    ensures AllNew(rows, [])
  {
  }

  /** Of two rows with one id the first to come stays. */
  lemma FirstToComeStays(rows: seq<GeomRecord>, r: GeomRecord, t: GeomRecord)
    requires Insertable(rows, r) && (r.id == t.id || !Insertable(rows, t))
    ensures InsertEach(rows, [r, t]) == rows + [r]
    ensures !Insertable(rows, t) ==> InsertEach(rows, [t, r]) == rows + [r]
  {
    assert (rows + [r])[|rows|] == r && [r, t][1..] == [t] && [t, r][1..] == [r];
    if HasId(rows, t.id) {
      var i :| 0 <= i < |rows| && rows[i].id == t.id;
      assert (rows + [r])[i].id == t.id;
    }
    assert InsertEach(rows + [r], [t]) == rows + [r];
    assert InsertEach(rows, [r]) == InsertEach(rows + [r], []);
  }

  /** Two rows may come in either order exactly if their ids differ, they are the same, or one of them is not
      insertable anyway. */
  lemma OrderIrrelevantIff(rows: seq<GeomRecord>, r: GeomRecord, t: GeomRecord)
    ensures multiset(InsertEach(rows, [r, t])) == multiset(InsertEach(rows, [t, r]))
            <==> r.id != t.id || r == t || !Insertable(rows, r) || !Insertable(rows, t)
  {
    if Insertable(rows, r) && Insertable(rows, t) {
      if r.id == t.id {
        FirstToComeStays(rows, r, t);
        FirstToComeStays(rows, t, r);
        assert multiset(rows + [r])[r] == multiset(rows)[r] + 1;
        assert r != t ==> multiset(rows + [t])[r] == multiset(rows)[r];
      } else {
        TwoNew(rows, r, t);
        TwoNew(rows, t, r);
        assert multiset(rows + [r, t]) == multiset(rows) + multiset{r, t} == multiset(rows + [t, r]);
      }
    } else if Insertable(rows, r) {
      FirstToComeStays(rows, r, t);
    } else if Insertable(rows, t) {
      FirstToComeStays(rows, t, r);
    } else {
      NoneInserted(rows, r, t);
      NoneInserted(rows, t, r);
    }
  }

  lemma TwoNew(rows: seq<GeomRecord>, r: GeomRecord, t: GeomRecord)
    requires Insertable(rows, r) && Insertable(rows, t) && r.id != t.id
    ensures InsertEach(rows, [r, t]) == rows + [r, t]
  {
    AppendsIffNew(rows, [r, t]);
  }

  lemma NoneInserted(rows: seq<GeomRecord>, r: GeomRecord, t: GeomRecord)
    requires !Insertable(rows, r) && !Insertable(rows, t)
    ensures InsertEach(rows, [r, t]) == rows
  {
    assert [r, t][1..] == [t] && [t][1..] == [];
    assert InsertEach(rows, [t]) == InsertEach(rows, []);
  }

  /** What was not inserted yet is new for what was. */
  lemma NewSuffix(initial: seq<GeomRecord>, inserted: seq<GeomRecord>, rows: seq<GeomRecord>, buf: seq<GeomRecord>)
    requires AllNew(initial, inserted) && rows + buf == initial + inserted && |rows| >= |initial|
    ensures AllNew(rows, buf)
  {
    var all, n := initial + inserted, |initial|;
    forall i | n <= i < |all|
      ensures all[i].accepted && forall j | 0 <= j < i :: all[j].id != all[i].id
    {
      assert all[i] == inserted[i - n] && Insertable(initial, inserted[i - n]);
      forall j | 0 <= j < i ensures all[j].id != all[i].id {
        if j < n {
          assert all[j] == initial[j];
        } else {
          assert all[j] == inserted[j - n];
        }
      }
    }
    assert forall i | 0 <= i < |rows| :: rows[i] == all[i];
    assert forall i | 0 <= i < |buf| :: buf[i] == all[|rows| + i];
  }

  lemma NewPrefix(rows: seq<GeomRecord>, a: seq<GeomRecord>, b: seq<GeomRecord>)
    requires AllNew(rows, a + b)
    ensures AllNew(rows, a)
  {
    assert forall i | 0 <= i < |a| :: a[i] == (a + b)[i];
  }

  // ---- COPY ----

  /** Lost stands for an error whose text names no line. */
  datatype CopyResult = Copied | Rejected(line: int) | Lost

  /** The index of the first row that is rejected, in a COPY that is one transaction; |batch| if none is. */
  function FirstBad(rows: seq<GeomRecord>, batch: seq<GeomRecord>): (i: nat)
    ensures i <= |batch|
    decreases |batch|
  {
    if batch == [] || !Insertable(rows, batch[0]) then 0 else 1 + FirstBad(rows + [batch[0]], batch[1..])
  }

  lemma InsertEachNothing(rows: seq<GeomRecord>)
    ensures InsertEach(rows, []) == rows
  {
  }

  lemma {:induction false} NoBadRow(rows: seq<GeomRecord>, batch: seq<GeomRecord>)
    requires FirstBad(rows, batch) == |batch|
    ensures InsertEach(rows, batch) == rows + batch
    decreases |batch|
  {
    if batch == [] {
      assert rows + batch == rows;
    } else {
      NoBadRow(rows + [batch[0]], batch[1..]);
      assert rows + [batch[0]] + batch[1..] == rows + batch;
    }
  }

  /** COPY rejects no row if and only if all are new. */
  lemma {:induction false} NoneBadIffNew(rows: seq<GeomRecord>, batch: seq<GeomRecord>)
    ensures FirstBad(rows, batch) == |batch| <==> AllNew(rows, batch)
    decreases |batch|
  {
    hide Insertable, AllNew;
    if batch == [] {
      NothingNew(rows);
    } else {
      AllNewNext(rows, batch);
      NoneBadIffNew(rows + [batch[0]], batch[1..]);
    }
  }

  /** The first row that conflicts with the table or an earlier row of the batch, or has values it rejects. */
  lemma {:induction false} FirstBadExactly(rows: seq<GeomRecord>, batch: seq<GeomRecord>)
    ensures var n := FirstBad(rows, batch);
            && (forall k | 0 <= k < n :: Insertable(rows + batch[..k], batch[k]))
            && (n < |batch| ==> !Insertable(rows + batch[..n], batch[n]))
    decreases |batch|
  {
    hide Insertable;
    var n := FirstBad(rows, batch);
    assert rows + [] == rows;
    if batch != [] && n > 0 {
      FirstBadExactly(rows + [batch[0]], batch[1..]);
      forall k | 0 < k <= n ensures rows + batch[..k] == rows + [batch[0]] + batch[1..][..k - 1] {
      }
    }
  }

  /** The first rejected row is one that inserting row by row skips. */
  lemma {:induction false} DropBadRow(rows: seq<GeomRecord>, batch: seq<GeomRecord>)
    requires FirstBad(rows, batch) < |batch|
    ensures InsertEach(rows, Without(batch, FirstBad(rows, batch))) == InsertEach(rows, batch)
    decreases |batch|
  {
    var i := FirstBad(rows, batch);
    if i == 0 {
      assert Without(batch, 0) == batch[1..];
    } else {
      assert Without(batch, i)[1..] == Without(batch[1..], i - 1) && Without(batch, i)[0] == batch[0];
      DropBadRow(rows + [batch[0]], batch[1..]);
    }
  }

  // ---- Buffers ----

  /** One kind of entity: its table and tag table, and the buffers in front of them. */
  datatype Side = Side(rows: seq<GeomRecord>, tags: seq<TagRow>, buf: seq<GeomRecord>, tagBuf: seq<TagRow>)

  predicate AllAlphaNum(s: string) {
    s != "" && forall i | 0 <= i < |s| :: 'a' <= s[i] <= 'z' || 'A' <= s[i] <= 'Z' || '0' <= s[i] <= '9'
  }

  /** The tag rows that are stored for an entity. */
  function TagRows(id: int, tags: TagList): seq<TagRow> {
    if tags == [] then []
    else
      (if AllAlphaNum(tags[0].0) && AllAlphaNum(tags[0].1) then [TagRow(id, tags[0].0, tags[0].1)] else [])
      + TagRows(id, tags[1..])
  }

  /** The tag rows that may be stored for an entity, by the position of the tag. */
  ghost function PairsAt(id: int, tags: TagList): map<nat, TagRow> {
    map i: nat | i < |tags| && AllAlphaNum(tags[i].0) && AllAlphaNum(tags[i].1) ::
      TagRow(id, tags[i].0, tags[i].1)
  }

  /** Exactly the tags whose key and value are alphanumeric are stored, each once, in order. */
  lemma {:induction false} TagRowsListed(id: int, tags: TagList)
    ensures Listed(TagRows(id, tags), PairsAt(id, tags))
  {
    hide Listed, AllAlphaNum;
    if tags == [] {
      ListedNone(PairsAt(id, tags));
    } else {
      var (k, v) := tags[0];
      var first := if AllAlphaNum(k) && AllAlphaNum(v) then Some(TagRow(id, k, v)) else None;
      TagRowsListed(id, tags[1..]);
      ListedCons(first, TagRows(id, tags[1..]), PairsAt(id, tags[1..]), PairsAt(id, tags));
    }
  }

  /** No tag waits without a row that will flush it. */
  predicate NoStrandedTags(s: Side) {
    s.buf == [] ==> s.tagBuf == []
  }

  /** Whether the first COPY of a flush does not write the buffer. */
  predicate Retried(lost: seq<bool>, s: Side) {
    s.buf != [] && (AnyLost(lost, 1) || FirstBad(s.rows, s.buf) < |s.buf|)
  }

  /** Committed rows followed by buffered rows. */
  function Contents(s: Side): seq<GeomRecord> {
    s.rows + s.buf
  }

  /** From `before` to `after` the contents grew by `added`, in order, provided nothing is rejected. */
  ghost predicate Keeps(before: Side, added: seq<GeomRecord>, after: Side) {
    && before.rows <= after.rows
    && (AllNew(before.rows, before.buf + added) ==> Contents(after) == Contents(before) + added)
  }

  /** What the side amounts to once its buffers are flushed. */
  function Settled(s: Side): (seq<GeomRecord>, seq<TagRow>) {
    (InsertEach(s.rows, s.buf), s.tags + s.tagBuf)
  }

  datatype Op = InsertWay(row: GeomRecord, tags: TagList) | InsertArea(row: GeomRecord, tags: TagList) | FinalizeWays

  predicate OnSide(op: Op, area: bool) {
    if area then op.InsertArea? else op.InsertWay?
  }

  function InsertedRows(ops: seq<Op>, area: bool): seq<GeomRecord> {
    if ops == [] then [] else OpRows(ops[0], area) + InsertedRows(ops[1..], area)
  }

  function OpRows(op: Op, area: bool): seq<GeomRecord> {
    if OnSide(op, area) then [op.row] else []
  }

  /** The rows inserted on one side, by the position of the call. */
  ghost function RowsAt(ops: seq<Op>, area: bool): map<nat, GeomRecord> {
    map i: nat | i < |ops| && OnSide(ops[i], area) :: ops[i].row
  }

  /** The tag rows of the calls on one side, call by call. */
  ghost predicate TagsOfCalls(ops: seq<Op>, area: bool, parts: seq<seq<TagRow>>) {
    && |parts| == |ops|
    && forall i | 0 <= i < |ops| ::
         if OnSide(ops[i], area) then Listed(parts[i], PairsAt(ops[i].row.id, ops[i].tags)) else parts[i] == []
  }

  lemma {:induction false} InsertedRowsListed(ops: seq<Op>, area: bool)
    ensures Listed(InsertedRows(ops, area), RowsAt(ops, area))
  {
    hide Listed;
    if ops == [] {
      ListedNone(RowsAt(ops, area));
    } else {
      var first := if OnSide(ops[0], area) then Some(ops[0].row) else None;
      InsertedRowsListed(ops[1..], area);
      ListedCons(first, InsertedRows(ops[1..], area), RowsAt(ops[1..], area), RowsAt(ops, area));
    }
  }

  lemma {:induction false} InsertedTagsListed(ops: seq<Op>, area: bool) returns (parts: seq<seq<TagRow>>)
    ensures InsertedTags(ops, area) == Flatten(parts) && TagsOfCalls(ops, area, parts)
  {
    hide Listed, TagRows, PairsAt;
    if ops == [] {
      parts := [];
    } else {
      var rest := InsertedTagsListed(ops[1..], area);
      parts := [OpTags(ops[0], area)] + rest;
      assert parts[1..] == rest;
      if OnSide(ops[0], area) {
        TagRowsListed(ops[0].row.id, ops[0].tags);
      }
      assert forall i | 0 < i < |ops| :: parts[i] == rest[i - 1] && ops[i] == ops[1..][i - 1];
    }
  }

  function InsertedTags(ops: seq<Op>, area: bool): seq<TagRow> {
    if ops == [] then [] else OpTags(ops[0], area) + InsertedTags(ops[1..], area)
  }

  function OpTags(op: Op, area: bool): seq<TagRow> {
    if OnSide(op, area) then TagRows(op.row.id, op.tags) else []
  }

  lemma BufferedKept(s: Side, r: GeomRecord, s': Side)
    requires s'.rows == s.rows && s'.buf == s.buf + [r]
    ensures Keeps(s, [r], s')
  {
    assert s.rows + (s.buf + [r]) == (s.rows + s.buf) + [r];
  }

  lemma FlushedKept(s: Side, s': Side)
    requires s'.rows == InsertEach(s.rows, s.buf) && s'.buf == []
    ensures Keeps(s, [], s')
  {
    InsertEachLength(s.rows, s.buf);
    AppendsIffNew(s.rows, s.buf);
    assert s.buf + [] == s.buf;
  }

  lemma KeepsTwice(s: Side, a: seq<GeomRecord>, t: Side, b: seq<GeomRecord>, u: Side)
    requires Keeps(s, a, t) && Keeps(t, b, u)
    ensures Keeps(s, a + b, u)
  {
    hide AllNew;
    assert (s.buf + a) + b == s.buf + (a + b);
    if AllNew(s.rows, s.buf + (a + b)) {
      NewPrefix(s.rows, s.buf + a, b);
      assert Contents(t) == Contents(s) + a;
      assert t.rows + (t.buf + b) == Contents(t) + b == Contents(s) + (a + b) == s.rows + (s.buf + (a + b));
      NewSuffix(s.rows, s.buf + (a + b), t.rows, t.buf + b);
    }
  }

  const WAY_BUFFER_SIZE: nat := 10000

  /** The size at which a thread flushes its buffers, staggered by its id. */
  function BufferSize(threadId: nat): nat {
    WAY_BUFFER_SIZE + threadId * 137
  }

  // ---- COPYs that fail for other reasons ----

  /** Whether one of the next n COPYs is lost. */
  predicate AnyLost(lost: seq<bool>, n: nat) {
    exists i :: 0 <= i < n && i < |lost| && lost[i]
  }

  function Drop(lost: seq<bool>, n: nat): seq<bool> {
    if n <= |lost| then lost[n..] else []
  }

  /** How many COPYs it takes to get a batch into the table, row after bad row being removed from it. */
  function Copies(rows: seq<GeomRecord>, batch: seq<GeomRecord>): (n: nat)
    ensures n == 0 <==> batch == []
  {
    InsertEachLength(rows, batch);
    var written := |InsertEach(rows, batch)| - |rows|;
    |batch| - written + if written > 0 then 1 else 0
  }

  class NavDB {
    var way: Side
    var area: Side
    const wayBufferSize: nat
    /** Whether the next COPY statements fail for reasons other than a row; none do after the list ends. */
    var lost: seq<bool>

    constructor (threadId: nat, way: Side, area: Side, lost: seq<bool>)
      ensures this.way == way && this.area == area && this.lost == lost
      ensures wayBufferSize == BufferSize(threadId) == 10000 + 137 * threadId
    {
      this.way, this.area, this.lost := way, area, lost;
      wayBufferSize := BufferSize(threadId);
    }

    ghost predicate Healthy()
      reads this
    {
      forall i | 0 <= i < |lost| :: !lost[i]
    }

    /** COPY in a transaction: all rows or none; a rejected row is reported by its 1-based line. */
    method Copy(rows: seq<GeomRecord>, batch: seq<GeomRecord>) returns (res: CopyResult, rows': seq<GeomRecord>)
      modifies this`lost
      ensures lost == Drop(old(lost), 1) && (res.Lost? <==> AnyLost(old(lost), 1))
      ensures res.Copied? ==> FirstBad(rows, batch) == |batch| && rows' == rows + batch
      ensures res.Rejected? ==> FirstBad(rows, batch) < |batch| && res.line == FirstBad(rows, batch) + 1
      ensures !res.Copied? ==> rows' == rows
    {
      var fails := lost != [] && lost[0];
      lost := if lost == [] then [] else lost[1..];
      if fails {
        return Lost, rows;
      }
      var bad := FirstBad(rows, batch);
      if bad < |batch| {
        return Rejected(bad + 1), rows;
      }
      return Copied, rows + batch;
    }

    /** Retries a batch, each time without the row that was rejected, until it is written or a COPY is lost.
        `rest` is what the source leaves in the caller's vector, and `count` its size, whether those rows were
        written or given up. So it is the number of rows written exactly if no COPY is lost. */
    method TryCopyBatch(rows: seq<GeomRecord>, batch: seq<GeomRecord>)
      returns (count: nat, rows': seq<GeomRecord>, rest: seq<GeomRecord>)
      modifies this`lost
      ensures rows' == if AnyLost(old(lost), Copies(rows, batch)) then rows else InsertEach(rows, batch)
      ensures !AnyLost(old(lost), Copies(rows, batch)) ==>
                rows' == rows + rest && lost == Drop(old(lost), Copies(rows, batch))
      ensures old(Healthy()) ==> Healthy()
      ensures count == |rest| <= |batch|
      ensures count == |rows'| - |rows| <==> !AnyLost(old(lost), Copies(rows, batch))
    {
      hide InsertEach, FirstBad;
      rest := batch;
      while rest != []
        invariant InsertEach(rows, rest) == InsertEach(rows, batch) && |rest| <= |batch|
        invariant lost == Drop(old(lost), |batch| - |rest|) && !AnyLost(old(lost), |batch| - |rest|)
        invariant old(Healthy()) ==> Healthy()
        decreases |rest|
      {
        var res: CopyResult;
        res, rows' := Copy(rows, rest);
        if res.Copied? {
          NoBadRow(rows, rest);
          return |rest|, rows', rest;
        }
        if res.Lost? {
          assert Copies(rows, batch) == Copies(rows, rest) + |batch| - |rest|;
          return |rest|, rows, rest;
        }
        var idx := res.line - 1;
        DropBadRow(rows, rest);
        rest := Without(rest, idx);
      }
      InsertEachNothing(rows);
      return 0, rows, [];
    }

    /** The count is wrong for one good row whose only COPY is lost. */
    static method LostRowIsCounted(row: GeomRecord) returns (count: nat, rows: seq<GeomRecord>)
      requires row.accepted
      ensures count == 1 && rows == []
    {
      var nothing := Side([], [], [], []);
      var db := new NavDB(0, nothing, nothing, [true]);
      AppendsIffNew([], [row]);
      assert InsertEach([], [row]) == [] + [row];
      assert db.lost[0];
      var rest;
      count, rows, rest := db.TryCopyBatch([], [row]);
    }

    /** Writes a buffer and its tags; the buffers are empty afterwards. After a first COPY that fails, for
        whatever reason, the batch is retried. */
    method FlushViaTemp(s: Side) returns (s': Side)
      requires NoStrandedTags(s)
      modifies this`lost
      ensures s'.buf == [] && s'.tagBuf == [] && s'.tags == s.tags + s.tagBuf
      ensures s'.rows == if Retried(old(lost), s) && AnyLost(Drop(old(lost), 1), Copies(s.rows, s.buf))
                         then s.rows else InsertEach(s.rows, s.buf)
      ensures old(Healthy()) ==> Healthy() && Settled(s') == Settled(s)
      ensures old(Healthy()) && AllNew(s.rows, s.buf) ==> s'.rows == s.rows + s.buf
    {
      hide AllNew;
      AppendsIffNew(s.rows, s.buf);
      if s.buf == [] {
        return s;
      }
      var res, rows := Copy(s.rows, s.buf);
      if res.Copied? {
        NoBadRow(s.rows, s.buf);
      } else {
        var written, rest;
        written, rows, rest := TryCopyBatch(s.rows, s.buf);
      }
      s' := Side(rows, s.tags + s.tagBuf, [], []);
      assert s'.tags + s'.tagBuf == s.tags + s.tagBuf;
    }

    method InsertWay(r: GeomRecord, tags: TagList)
      requires NoStrandedTags(way) && Healthy()
      modifies this`way, this`lost
      ensures NoStrandedTags(way) && Healthy() && Keeps(old(way), [r], way)
      ensures Settled(way) == (InsertEach(old(way).rows, old(way).buf + [r]),
                               old(way).tags + old(way).tagBuf + TagRows(r.id, tags))
      ensures way.tags + way.tagBuf == old(way).tags + old(way).tagBuf + TagRows(r.id, tags)
      ensures if |old(way).buf| + 1 < wayBufferSize then way.buf == old(way).buf + [r] && way.rows == old(way).rows
              else way.buf == [] && way.tagBuf == [] && way.rows == InsertEach(old(way).rows, old(way).buf + [r])
    {
      hide Keeps;
      var s := way.(tagBuf := way.tagBuf + TagRows(r.id, tags), buf := way.buf + [r]);
      assert way.tags + s.tagBuf == way.tags + way.tagBuf + TagRows(r.id, tags);
      BufferedKept(way, r, s);
      if |s.buf| >= wayBufferSize {
        ghost var full := s;
        s := FlushViaTemp(s);
        FlushedKept(full, s);
        KeepsTwice(way, [r], full, [], s);
        assert [r] + [] == [r];
      }
      way := s;
    }

    method InsertArea(r: GeomRecord, tags: TagList)
      requires NoStrandedTags(area) && Healthy()
      modifies this`area, this`lost
      ensures NoStrandedTags(area) && Healthy() && Keeps(old(area), [r], area)
      ensures Settled(area) == (InsertEach(old(area).rows, old(area).buf + [r]),
                                old(area).tags + old(area).tagBuf + TagRows(r.id, tags))
      ensures area.tags + area.tagBuf == old(area).tags + old(area).tagBuf + TagRows(r.id, tags)
      ensures if |old(area).buf| + 1 <= wayBufferSize
              then area.buf == old(area).buf + [r] && area.rows == old(area).rows
              else area.buf == [] && area.tagBuf == [] && area.rows == InsertEach(old(area).rows, old(area).buf + [r])
    {
      hide Keeps;
      var s := area.(tagBuf := area.tagBuf + TagRows(r.id, tags), buf := area.buf + [r]);
      assert area.tags + s.tagBuf == area.tags + area.tagBuf + TagRows(r.id, tags);
      BufferedKept(area, r, s);
      if |s.buf| > wayBufferSize {
        ghost var full := s;
        s := FlushViaTemp(s);
        FlushedKept(full, s);
        KeepsTwice(area, [r], full, [], s);
        assert [r] + [] == [r];
      }
      area := s;
    }

    method FinalizeWays()
      requires NoStrandedTags(way) && NoStrandedTags(area) && Healthy()
      modifies this`way, this`area, this`lost
      ensures Healthy() && Settled(way) == old(Settled(way)) && Settled(area) == old(Settled(area))
      ensures way.buf == [] && way.tagBuf == [] && area.buf == [] && area.tagBuf == []
      ensures Keeps(old(way), [], way) && Keeps(old(area), [], area)
    {
      hide Keeps;
      way := FlushViaTemp(way);
      FlushedKept(old(way), way);
      area := FlushViaTemp(area);
      FlushedKept(old(area), area);
    }

    method Apply(op: Op)
      requires NoStrandedTags(way) && NoStrandedTags(area) && Healthy()
      modifies this
      ensures NoStrandedTags(way) && NoStrandedTags(area) && Healthy()
      ensures Extends(old(way), InsertedRows([op], false), InsertedTags([op], false), way)
      ensures Extends(old(area), InsertedRows([op], true), InsertedTags([op], true), area)
    {
      hide TagRows, Keeps, InsertedRows, InsertedTags;
      OneInserted(op);
      ExtendsNothing(way);
      ExtendsNothing(area);
      match op {
        case InsertWay(r, tags) =>
          InsertEachAppend(way.rows, way.buf, [r]);
          InsertWay(r, tags);
        case InsertArea(r, tags) =>
          InsertEachAppend(area.rows, area.buf, [r]);
          InsertArea(r, tags);
        case FinalizeWays =>
          FinalizeWays();
      }
    }

    /** Any sequence of calls: the tables and buffers together hold what inserting row by row gives, and, if
        every inserted row is accepted and new, the committed rows followed by the buffered ones are the
        inserted rows in order. */
    method Run(ops: seq<Op>)
      requires NoStrandedTags(way) && NoStrandedTags(area) && Healthy()
      modifies this
      ensures NoStrandedTags(way) && NoStrandedTags(area) && Healthy()
      ensures Extends(old(way), InsertedRows(ops, false), InsertedTags(ops, false), way)
      ensures Extends(old(area), InsertedRows(ops, true), InsertedTags(ops, true), area)
      ensures AllNew(old(way).rows, old(way).buf + InsertedRows(ops, false)) ==>
                way.rows + way.buf == old(way).rows + old(way).buf + InsertedRows(ops, false)
      ensures AllNew(old(area).rows, old(area).buf + InsertedRows(ops, true)) ==>
                area.rows + area.buf == old(area).rows + old(area).buf + InsertedRows(ops, true)
      ensures exists parts :: TagsOfCalls(ops, false, parts)
                && way.tags + way.tagBuf == old(way).tags + old(way).tagBuf + Flatten(parts)
      ensures exists parts :: TagsOfCalls(ops, true, parts)
                && area.tags + area.tagBuf == old(area).tags + old(area).tagBuf + Flatten(parts)
    {
      hide InsertEach, TagRows, Settled, Extends, AllNew, InsertedRows, InsertedTags;
      ExtendsNothing(way);
      ExtendsNothing(area);
      NothingInserted(ops[..0]);
      for i := 0 to |ops|
        invariant NoStrandedTags(way) && NoStrandedTags(area) && Healthy()
        invariant Extends(old(way), InsertedRows(ops[..i], false), InsertedTags(ops[..i], false), way)
        invariant Extends(old(area), InsertedRows(ops[..i], true), InsertedTags(ops[..i], true), area)
      {
        ghost var w, a := way, area;
        Apply(ops[i]);
        ExtendsMore(old(way), ops[..i], ops[i], false, w, way);
        ExtendsMore(old(area), ops[..i], ops[i], true, a, area);
        assert ops[..i + 1] == ops[..i] + [ops[i]];
      }
      assert ops[..|ops|] == ops;
      ExtendsKeeps(old(way), InsertedRows(ops, false), InsertedTags(ops, false), way);
      ExtendsKeeps(old(area), InsertedRows(ops, true), InsertedTags(ops, true), area);
      hide TagsOfCalls, Flatten;
      ghost var wayTags := InsertedTagsListed(ops, false);
      ghost var areaTags := InsertedTagsListed(ops, true);
    }
  }

  /** `after` is `before` with the rows inserted one by one and the tag rows appended, and no new row lost. */
  ghost predicate Extends(before: Side, rows: seq<GeomRecord>, tags: seq<TagRow>, after: Side) {
    && Settled(after).0 == InsertEach(Settled(before).0, rows) && Settled(after).1 == Settled(before).1 + tags
    && Keeps(before, rows, after)
  }

  lemma ExtendsKeeps(before: Side, rows: seq<GeomRecord>, tags: seq<TagRow>, after: Side)
    requires Extends(before, rows, tags, after)
    ensures AllNew(before.rows, before.buf + rows) ==> after.rows + after.buf == before.rows + before.buf + rows
    ensures after.tags + after.tagBuf == before.tags + before.tagBuf + tags
  {
  }

  lemma ExtendsNothing(s: Side)
    ensures Extends(s, [], [], s)
  {
    assert s.rows + s.buf + [] == s.rows + s.buf && s.tags + s.tagBuf + [] == s.tags + s.tagBuf;
  }

  lemma NothingInserted(ops: seq<Op>)
    requires ops == []
    ensures forall area :: InsertedRows(ops, area) == [] && InsertedTags(ops, area) == []
  {
  }

  lemma OneOp(op: Op, area: bool)
    ensures InsertedRows([op], area) == OpRows(op, area) && InsertedTags([op], area) == OpTags(op, area)
  {
    hide OpRows, OpTags;
    NothingInserted([op][1..]);
    assert OpRows(op, area) + [] == OpRows(op, area) && OpTags(op, area) + [] == OpTags(op, area);
  }

  /** What one call inserts, on either side. */
  lemma OneInserted(op: Op)
    ensures op.FinalizeWays? ==> forall area :: InsertedRows([op], area) == [] && InsertedTags([op], area) == []
    ensures !op.FinalizeWays? ==>
              var area := op.InsertArea?;
              && InsertedRows([op], area) == [op.row] && InsertedTags([op], area) == TagRows(op.row.id, op.tags)
              && InsertedRows([op], !area) == [] && InsertedTags([op], !area) == []
  {
    hide TagRows, InsertedRows, InsertedTags;
    OneOp(op, true);
    OneOp(op, false);
  }

  lemma {:induction false} RowsAppend(ops: seq<Op>, op: Op, area: bool)
    ensures InsertedRows(ops + [op], area) == InsertedRows(ops, area) + InsertedRows([op], area)
  {
    hide OpRows;
    if ops == [] {
      assert ops + [op] == [op];
    } else {
      assert (ops + [op])[1..] == ops[1..] + [op] && (ops + [op])[0] == ops[0];
      RowsAppend(ops[1..], op, area);
    }
  }

  lemma {:induction false} TagsAppend(ops: seq<Op>, op: Op, area: bool)
    ensures InsertedTags(ops + [op], area) == InsertedTags(ops, area) + InsertedTags([op], area)
  {
    hide OpTags;
    if ops == [] {
      assert ops + [op] == [op];
    } else {
      assert (ops + [op])[1..] == ops[1..] + [op] && (ops + [op])[0] == ops[0];
      TagsAppend(ops[1..], op, area);
    }
  }

  lemma ExtendsMore(before: Side, ops: seq<Op>, op: Op, area: bool, mid: Side, after: Side)
    requires Extends(before, InsertedRows(ops, area), InsertedTags(ops, area), mid)
    requires Extends(mid, InsertedRows([op], area), InsertedTags([op], area), after)
    ensures Extends(before, InsertedRows(ops + [op], area), InsertedTags(ops + [op], area), after)
  {
    hide InsertedRows, InsertedTags, InsertEach, Keeps, Settled;
    RowsAppend(ops, op, area);
    TagsAppend(ops, op, area);
    InsertEachAppend(Settled(before).0, InsertedRows(ops, area), InsertedRows([op], area));
    KeepsTwice(before, InsertedRows(ops, area), mid, InsertedRows([op], area), after);
  }

  /** Once the buffers are empty, the table holds all inserted rows in order if and only if all were new. */
  lemma NothingLostIff(before: Side, rows: seq<GeomRecord>, tags: seq<TagRow>, after: Side)
    requires Extends(before, rows, tags, after) && before.buf == after.buf == []
    ensures after.rows == before.rows + rows <==> AllNew(before.rows, rows)
  {
    hide AllNew;
    AppendsIffNew(before.rows, rows);
  }
}
