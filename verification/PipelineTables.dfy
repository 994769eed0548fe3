/** The pipeline's commits are what the database layer does with them: no row is rejected for its id. */
module PipelineTables {
  import opened Basics
  import opened Pipeline
  import opened PipelineSafety
  import opened PipelineRuns
  import NavDb

  // ---- Ids ----

  ghost predicate UniqueIds(rows: multiset<Row>) {
    forall r, t | r in rows && t in rows && r.id == t.id :: r == t && rows[r] == 1
  }

  ghost predicate DistinctIds(rows: seq<Row>) {
    forall i, j | 0 <= i < j < |rows| :: rows[i].id != rows[j].id
  }

  /** The id of the row an entry may get. */
  function RowId(e: Entry): int {
    if e.RelE? then -e.id else e.id
  }

  lemma RowIdOf(c: Config, e: Entry)
    requires Legal(c)
    ensures |RowsOf(c, e)| <= 1 && forall r | r in RowsOf(c, e) :: r.id == RowId(e)
  {
    hide ExpectedWays, ExpectedView;
  }

  /** Ways have positive row ids and relations negative ones, so no two entries of the file share one. */
  lemma {:induction false} RowsUnique(c: Config, from: nat)
    requires Legal(c) && c.nodeEnd <= from <= |c.input|
    ensures DistinctIds(Rows(c, c.input[from..]))
    ensures forall r | r in Rows(c, c.input[from..]) :: exists k :: from <= k < |c.input| && r.id == RowId(c.input[k])
    decreases |c.input| - from
  {
    hide RowsOf, Distinct;
    var es := c.input[from..];
    if from < |c.input| {
      var e := c.input[from];
      assert es[0] == e && es[1..] == c.input[from + 1..];
      RowsUnique(c, from + 1);
      RowIdOf(c, e);
      forall k | from < k < |c.input| ensures RowId(c.input[k]) != RowId(e) {
        EntryIds(c, from, k);
      }
      JoinDistinct(RowsOf(c, e), Rows(c, es[1..]), RowId(e));
      assert Rows(c, es) == RowsOf(c, e) + Rows(c, es[1..]);
      forall r | r in RowsOf(c, e) ensures exists k :: from <= k < |c.input| && r.id == RowId(c.input[k]) {
        assert r.id == RowId(c.input[from]);
      }
    }
  }

  lemma JoinDistinct(first: seq<Row>, rest: seq<Row>, id: int)
    requires |first| <= 1 && (forall r | r in first :: r.id == id) && (forall r | r in rest :: r.id != id)
    requires DistinctIds(rest)
    ensures DistinctIds(first + rest)
  {
    var all: seq<Row> := first + rest;
    forall i, j | 0 <= i < j < |all| ensures all[i].id != all[j].id {
      assert all[j] == rest[j - |first|] && rest[j - |first|] in rest;
      if i < |first| {
        assert first[i] in first;
      }
    }
  }

  lemma Apart(es: seq<Entry>, i: nat, k: nat)
    requires Distinct(es) && i < k < |es|
    ensures es[i].id != es[k].id
  {
  }

  lemma EntryIds(c: Config, i: nat, k: nat)
    requires Legal(c) && c.nodeEnd <= i < k < |c.input|
    ensures RowId(c.input[i]) != RowId(c.input[k])
  {
    hide Distinct;
    if k < c.wayEnd {
      Apart(c.input[c.nodeEnd..c.wayEnd], i - c.nodeEnd, k - c.nodeEnd);
    } else if i >= c.wayEnd {
      Apart(c.input[c.wayEnd..], i - c.wayEnd, k - c.wayEnd);
    } else {
      assert c.input[i].WayE? && c.input[k].RelE? && c.input[i].id > 0 && c.input[k].id > 0;
    }
  }

  lemma DistinctIsUnique(rows: seq<Row>)
    requires DistinctIds(rows)
    ensures UniqueIds(multiset(rows))
  {
    forall r, t | r in multiset(rows) && t in multiset(rows) && r.id == t.id
      ensures r == t && multiset(rows)[r] == 1
    {
      var i :| 0 <= i < |rows| && rows[i] == r;
      var j :| 0 <= j < |rows| && rows[j] == t;
      assert rows == rows[..i] + [r] + rows[i + 1..];
      assert r !in rows[..i] && r !in rows[i + 1..];
    }
  }

  lemma Twice(rows: seq<Row>, i: nat, j: nat)
    requires i < j < |rows|
    ensures rows[i] == rows[j] ==> multiset(rows)[rows[i]] >= 2
  {
    assert rows == rows[..j] + [rows[j]] + rows[j + 1..];
    assert rows[i] in rows[..j];
  }

  /** What is part of rows with unique ids has distinct ids. */
  lemma PartIsDistinct(rows: seq<Row>, others: multiset<Row>, all: multiset<Row>)
    requires UniqueIds(all) && multiset(rows) + others == all
    ensures DistinctIds(rows)
  {
    forall i, j | 0 <= i < j < |rows| ensures rows[i].id != rows[j].id {
      Twice(rows, i, j);
      assert rows[i] in multiset(rows) && rows[j] in multiset(rows);
      assert all[rows[i]] >= multiset(rows)[rows[i]] && rows[j] in all;
    }
  }

  lemma PoppedPrefix(c: Config, s: State) returns (rest: seq<Entry>)
    requires Sized(c) && s.pos <= |c.input| && FifoInv(c, s)
    ensures c.input[c.nodeEnd..] == s.popped + rest
  {
    var n := c.nodeEnd + |s.popped|;
    assert s.popped == (s.popped + s.wayQ.items)[..|s.popped|];
    assert s.popped == c.input[c.nodeEnd..n];
    rest := c.input[n..];
  }

  /** The committed rows have distinct ids, ways and areas taken together. */
  lemma CommittedDistinct(c: Config, s: State)
    requires Legal(c) && s.pos <= |c.input| && FifoInv(c, s) && RowsInv(c, s)
    ensures DistinctIds(s.table)
  {
    hide Rows, AllOwed, UniqueIds, DistinctIds, FifoInv, Distinct;
    var rest := PoppedPrefix(c, s);
    var all := s.popped + rest;
    RowsUnique(c, c.nodeEnd);
    RowsAppend(c, s.popped, rest);
    DistinctIsUnique(Rows(c, all));
    PartIsDistinct(s.table, AllOwed(c, s.ways) + multiset(Rows(c, rest)), multiset(Rows(c, all)));
  }

  // ---- The tables ----

  /** The records of one table, whatever names the entries have. */
  function InDb(rows: seq<Row>, area: bool, name: int -> string): seq<NavDb.GeomRecord> {
    if rows == [] then [] else OneInDb(rows[0], area, name) + InDb(rows[1..], area, name)
  }

  function OneInDb(r: Row, area: bool, name: int -> string): seq<NavDb.GeomRecord> {
    if r.area == area then [NavDb.GeomRecord(r.id, name(r.id), r.geog, true)] else []
  }

  /** The rows of a table by position. */
  ghost function RecordsAt(rows: seq<Row>, area: bool, name: int -> string): map<nat, NavDb.GeomRecord> {
    map i: nat | i < |rows| && rows[i].area == area ::
      NavDb.GeomRecord(rows[i].id, name(rows[i].id), rows[i].geog, true)
  }

  lemma {:induction false} InDbListed(rows: seq<Row>, area: bool, name: int -> string)
    ensures Listed(InDb(rows, area, name), RecordsAt(rows, area, name))
  {
    hide Listed;
    if rows == [] {
      ListedNone(RecordsAt(rows, area, name));
    } else {
      var r := rows[0];
      var first := if r.area == area then Some(NavDb.GeomRecord(r.id, name(r.id), r.geog, true)) else None;
      InDbListed(rows[1..], area, name);
      ListedCons(first, InDb(rows[1..], area, name), RecordsAt(rows[1..], area, name), RecordsAt(rows, area, name));
    }
  }

  lemma {:induction false} InDbAppend(a: seq<Row>, b: seq<Row>, area: bool, name: int -> string)
    ensures InDb(a + b, area, name) == InDb(a, area, name) + InDb(b, area, name)
  {
    hide OneInDb;
    if a == [] {
      assert a + b == b;
    } else {
      assert (a + b)[1..] == a[1..] + b;
      InDbAppend(a[1..], b, area, name);
    }
  }

  ghost predicate HasRowId(rows: seq<Row>, id: int) {
    exists k :: 0 <= k < |rows| && rows[k].id == id
  }

  lemma RestIds(rows: seq<Row>)
    requires DistinctIds(rows) && rows != []
    ensures HasRowId(rows, rows[0].id)
    ensures forall id | HasRowId(rows[1..], id) :: id != rows[0].id && HasRowId(rows, id)
  {
    forall id | HasRowId(rows[1..], id) ensures id != rows[0].id && HasRowId(rows, id) {
      var k :| 0 <= k < |rows[1..]| && rows[1..][k].id == id;
      assert rows[k + 1].id == id;
    }
  }

  /** Accepted records with distinct ids, all of them ids of `rows`. */
  ghost predicate IdsOf(db: seq<NavDb.GeomRecord>, rows: seq<Row>) {
    && (forall i | 0 <= i < |db| :: db[i].accepted && HasRowId(rows, db[i].id))
    && forall i, j | 0 <= i < j < |db| :: db[i].id != db[j].id
  }

  lemma IdsOfMore(db: seq<NavDb.GeomRecord>, rows: seq<Row>, r: NavDb.GeomRecord)
    requires DistinctIds(rows) && rows != [] && IdsOf(db, rows[1..]) && r.id == rows[0].id && r.accepted
    ensures IdsOf(db, rows) && IdsOf([r] + db, rows)
  {
    RestIds(rows);
    assert forall i | 0 <= i < |db| :: HasRowId(rows[1..], db[i].id);
  }

  lemma {:induction false} InDbIds(rows: seq<Row>, area: bool, name: int -> string)
    requires DistinctIds(rows)
    ensures IdsOf(InDb(rows, area, name), rows)
  {
    if rows != [] {
      InDbIds(rows[1..], area, name);
      var tail := InDb(rows[1..], area, name);
      IdsOfMore(tail, rows, NavDb.GeomRecord(rows[0].id, name(rows[0].id), rows[0].geog, true));
      hide IdsOf;
      assert [] + tail == tail;
    }
  }

  /** A batch whose ids are not in the table is new. */
  lemma BatchIsNew(table: seq<Row>, batch: seq<Row>, area: bool, name: int -> string)
    requires DistinctIds(table + batch)
    ensures NavDb.AllNew(InDb(table, area, name), InDb(batch, area, name))
  {
    var t, b := InDb(table, area, name), InDb(batch, area, name);
    InDbAppend(table, batch, area, name);
    InDbIds(table + batch, area, name);
    hide InDb, HasRowId;
    assert NavDb.AllNew([], t + b);
    assert [] + (t + b) == t + b;
    NavDb.NewSuffix([], t + b, t, b);
  }

  lemma InsertGrows(c: Config, s: State, j: nat, w: WayThread, r: Row)
    requires j < |s.ways|
    ensures s.table <= InsertRow(c, s, j, w, r).table
  {
    hide FlushAt;
  }

  /** Committed rows stay where they are. */
  lemma TableGrows(c: Config, s: State, a: Action)
    requires Enabled(c, s, a)
    ensures s.table <= Next(c, s, a).table
  {
    hide InsertRow, Sized;
    if a.WayWork? {
      var w, rows := s.ways[a.j], PositiveRows(s.table);
      var e, w1, s1 := w.pc.e, w.(pc := WPop), s.(seen := s.seen + [(w.pc.e, rows)]);
      if e.WayE? && c.wayRow(e, s.store).Some? {
        InsertGrows(c, s, a.j, w1, c.wayRow(e, s.store).value);
      } else if e.RelE? && w.phaseDone && e.multi && c.relArea(e, rows).Some? {
        InsertGrows(c, s1, a.j, w1, Row(-e.id, true, c.relArea(e, rows).value));
      }
    }
  }

  lemma ReachedDistinct(c: Config, s: State)
    requires Inv(c, s)
    ensures DistinctIds(s.table)
  {
    hide Legal, FifoInv, RowsInv, NodeSide, ProducerInv, WaysInv, WayBarInv, SeenInv, DistinctIds;
    CommittedDistinct(c, s);
  }

  /** Whatever a step of any run commits is new to its table, so a COPY of it rejects no row and inserting it
      row by row would append it, as the step does. */
  lemma CommitsAreNew(c: Config, acts: seq<Action>, a: Action, area: bool, name: int -> string)
    requires Legal(c) && CanRun(c, Init(c), acts) && Enabled(c, After(c, Init(c), acts), a)
    ensures var s := After(c, Init(c), acts);
            var s' := Next(c, s, a);
            && s.table <= s'.table
            && var rows, batch := InDb(s.table, area, name), InDb(s'.table[|s.table|..], area, name);
               && NavDb.AllNew(rows, batch)
               && NavDb.FirstBad(rows, batch) == |batch|
               && NavDb.InsertEach(rows, batch) == InDb(s'.table, area, name)
  {
    hide Enabled, Next, Inv, Legal, InDb;
    var s := After(c, Init(c), acts);
    var s' := Next(c, s, a);
    Reachable(c, acts);
    StepInv(c, s, a);
    TableGrows(c, s, a);
    ReachedDistinct(c, s');
    var added := s'.table[|s.table|..];
    assert s'.table == s.table + added;
    InDbAppend(s.table, added, area, name);
    BatchIsNew(s.table, added, area, name);
    var rows, batch := InDb(s.table, area, name), InDb(added, area, name);
    NavDb.AppendsIffNew(rows, batch);
    NavDb.NoneBadIffNew(rows, batch);
  }
}
