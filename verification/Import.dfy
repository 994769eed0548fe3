/** The whole import: the pipeline with the store and the geometry builders that it really uses. */
module Import {
  import opened Basics
  import opened Records
  import opened Doubles
  import opened Stitch
  import opened Wkb
  import opened GeometryBuild
  import opened Multipolygon
  import opened Pipeline
  import opened PipelineSafety
  import opened PipelineSteps
  import opened PipelineWaySteps
  import opened PipelineRuns
  import opened PipelineLiveness
  import opened PipelineTables
  import ShardCodec
  import OsmMMap

  // ---- The merge ----

  /** Store shards whose streams parse to what the node threads recorded merge like the pipeline's step. */
  lemma {:induction false} MergeStepIsStoreMerge(shards: seq<OsmMMap.Shard>, nodes: seq<NodeThread>)
    requires |shards| == |nodes|
    requires forall i | 0 <= i < |nodes| :: ShardCodec.Parse(OsmMMap.Stream(shards[i])) == nodes[i].shard
    ensures OsmMMap.AllRecords(shards) == Shards(nodes)
  {
    if shards != [] {
      MergeStepIsStoreMerge(shards[1..], nodes[1..]);
    }
  }

  /** What node thread i inserts, of the inserts of all threads in the order in which they happen. */
  function InsertsOf(inserts: seq<(nat, Record)>, i: nat): seq<Record> {
    if inserts == [] then []
    else
      var (thread, r) := inserts[|inserts| - 1];
      InsertsOf(inserts[..|inserts| - 1], i) + if thread == i then [r] else []
  }

  /** Each shard holds what it held before and the records that its thread inserted. */
  ghost predicate Filled(now: seq<OsmMMap.Shard>, before: seq<OsmMMap.Shard>, inserts: seq<(nat, Record)>) {
    && |now| == |before|
    && forall i | 0 <= i < |now| ::
         ShardCodec.Parse(OsmMMap.Stream(now[i]))
         == ShardCodec.Parse(OsmMMap.Stream(before[i])) + InsertsOf(inserts, i)
  }

  lemma FilledMore(now: seq<OsmMMap.Shard>, mid: seq<OsmMMap.Shard>, before: seq<OsmMMap.Shard>,
                   inserts: seq<(nat, Record)>, k: nat)
    requires k < |inserts| && inserts[k].0 < |mid| == |now| && Filled(mid, before, inserts[..k])
    requires var i := inserts[k].0;
             && now == mid[i := now[i]]
             && ShardCodec.Parse(OsmMMap.Stream(now[i])) == ShardCodec.Parse(OsmMMap.Stream(mid[i])) + [inserts[k].1]
    ensures Filled(now, before, inserts[..k + 1])
  {
    hide ShardCodec.Parse, OsmMMap.Stream;
    assert inserts[..k + 1][..k] == inserts[..k];
    forall j | 0 <= j < |now|
      ensures ShardCodec.Parse(OsmMMap.Stream(now[j]))
              == ShardCodec.Parse(OsmMMap.Stream(before[j])) + InsertsOf(inserts[..k + 1], j)
    {
      assert InsertsOf(inserts[..k + 1], j)
             == InsertsOf(inserts[..k], j) + if inserts[k].0 == j then [inserts[k].1] else [];
    }
  }

  lemma FilledNothing(shards: seq<OsmMMap.Shard>)
    ensures Filled(shards, shards, [])
  {
    hide ShardCodec.Parse, OsmMMap.Stream;
  }

  /** The inserts of the node threads, in any interleaving: each shard gets the records of its thread, in order.
      Fails only if a sidecar cannot grow. */
  method InsertAll(m: OsmMMap.OSMMMap, inserts: seq<(nat, Record)>) returns (ok: bool)
    requires m.Valid() && forall i | 0 <= i < |m.shards| :: m.shards[i].open
    requires forall k | 0 <= k < |inserts| :: inserts[k].0 < |m.shards| && IsInt64(inserts[k].1.id)
    modifies m`shards
    ensures m.Valid() && |m.shards| == |old(m.shards)|
    ensures ok ==> Filled(m.shards, old(m.shards), inserts)
    ensures (forall k | 0 <= k < |inserts| ::
               OsmMMap.Room(inserts[k].1.id) + OsmMMap.Room(inserts[k].1.id) / 4 <= m.maxFile) ==> ok
  {
    hide Filled, ShardCodec.Parse, OsmMMap.Stream, OsmMMap.ShardOk, OsmMMap.Room;
    FilledNothing(m.shards);
    assert inserts[..0] == [];
    for k := 0 to |inserts|
      invariant m.Valid() && |m.shards| == |old(m.shards)| && forall i | 0 <= i < |m.shards| :: m.shards[i].open
      invariant Filled(m.shards, old(m.shards), inserts[..k])
    {
      ghost var mid := m.shards;
      var (i, r) := inserts[k];
      ok := m.Insert(i, r.id, r.coord);
      if !ok {
        return;
      }
      FilledMore(m.shards, mid, old(m.shards), inserts, k);
    }
    assert inserts[..|inserts|] == inserts;
    ok := true;
  }

  lemma MergedStore(c: Config, s: State)
    requires Legal(c) && WellShaped(c, s) && s.pos <= |c.input| && NodesInv(c, s) && NodeBarInv(c, s) && s.merged
    requires !NodeOpen(s) ==> s.pos >= c.nodeEnd
    ensures s.store == ApplyAll(map[], c.maxId, Shards(s.nodes)) == ExpectedView(c)
  {
    ArrivedComplete(c, s);
    ShardsComplete(c, s.nodes);
  }

  /** The node phase on the real files: blank files are created and opened, the node threads' records inserted
      in any interleaving, and the shards merged, however they are cut. The store then holds what the pipeline's
      store holds. */
  method NodePhase(ghost c: Config, ghost acts: seq<Action>, maxId: nat, threads: nat, maxFile: nat,
                   inserts: seq<(nat, Record)>, cut: seq<Byte> -> seq<seq<Byte>>) returns (m: OsmMMap.OSMMMap?)
    requires Legal(c) && CanRun(c, Init(c), acts) && After(c, Init(c), acts).merged
    requires maxId == c.maxId < 0x800_0000_0000_0000 && threads == c.nodeThreads
    requires OsmMMap.SIDECAR_SIZE <= maxFile <= OsmMMap.MAX_BITMAP && forall b :: OsmMMap.Concat(cut(b)) == b
    requires forall k | 0 <= k < |inserts| :: inserts[k].0 < threads && IsInt64(inserts[k].1.id)
    requires var nodes := After(c, Init(c), acts).nodes;
             |nodes| == threads && forall i | 0 <= i < threads :: InsertsOf(inserts, i) == nodes[i].shard
    ensures m != null ==> m.Valid() && fresh(m) && m.maxId == maxId && m.Content() == After(c, Init(c), acts).store
    ensures (forall k | 0 <= k < |inserts| ::
               OsmMMap.Room(inserts[k].1.id) + OsmMMap.Room(inserts[k].1.id) / 4 <= maxFile) ==> m != null
  {
    hide Init, Next, Enabled, CanRun, After, Legal, Shards, ApplyAll, InsertsOf, Filled;
    hide OsmMMap.Room, OsmMMap.AllRecords, OsmMMap.Concat, OsmMMap.Stream, OsmMMap.ShardOk, ShardCodec.Parse;
    var fileData, fileBits, sidecars := OsmMMap.CreateFile(maxId, threads);
    m := OsmMMap.OSMMMap.OpenForWriting(maxId, maxFile, fileData, fileBits, sidecars);
    ghost var blank := m.shards;
    var ok := InsertAll(m, inserts);
    if !ok {
      return null;
    }
    var shards := m.shards;
    MergedShards(c, acts, blank, shards, inserts);
    var cuts := seq(|shards|, i requires 0 <= i < |shards| => cut(OsmMMap.Stream(shards[i])));
    m.Merge(cuts);
  }

  /** Shards that were blank and hold the threads' records merge to the pipeline's store. */
  lemma MergedShards(c: Config, acts: seq<Action>, blank: seq<OsmMMap.Shard>, shards: seq<OsmMMap.Shard>,
                     inserts: seq<(nat, Record)>)
    requires Legal(c) && CanRun(c, Init(c), acts) && After(c, Init(c), acts).merged
    requires forall i | 0 <= i < |blank| :: blank[i].inbuf == [] && blank[i].file == Some([])
    requires Filled(shards, blank, inserts)
    requires var nodes := After(c, Init(c), acts).nodes;
             |nodes| == |shards| && forall i | 0 <= i < |nodes| :: InsertsOf(inserts, i) == nodes[i].shard
    ensures ApplyAll(map[], c.maxId, OsmMMap.AllRecords(shards)) == After(c, Init(c), acts).store
  {
    hide Init, Next, Enabled, CanRun, After, Legal, InsertsOf, ApplyAll, Shards, OsmMMap.AllRecords;
    var s := After(c, Init(c), acts);
    forall i | 0 <= i < |shards| ensures ShardCodec.Parse(OsmMMap.Stream(shards[i])) == s.nodes[i].shard {
      BlankShard(blank[i]);
      assert [] + InsertsOf(inserts, i) == InsertsOf(inserts, i);
    }
    hide ShardCodec.Parse, OsmMMap.Stream, Filled;
    MergeStepIsStoreMerge(shards, s.nodes);
    ReachedStore(c, acts);
  }

  lemma BlankShard(s: OsmMMap.Shard)
    requires s.inbuf == [] && s.file == Some([])
    ensures ShardCodec.Parse(OsmMMap.Stream(s)) == []
  {
    assert OsmMMap.Stream(s) == [];
  }

  lemma ReachedStore(c: Config, acts: seq<Action>)
    requires Legal(c) && CanRun(c, Init(c), acts) && After(c, Init(c), acts).merged
    ensures var s := After(c, Init(c), acts); s.store == ApplyAll(map[], c.maxId, Shards(s.nodes))
  {
    hide Init, Next, Enabled, CanRun, After, ApplyAll, Shards, RowsInv, WaysInv, WayBarInv, SeenInv, FifoInv;
    Reachable(c, acts);
    hide NodesInv, NodeBarInv;
    MergedStore(c, After(c, Init(c), acts));
  }

  /** ...so `select` yields exactly the coordinates of the input's nodes with an id up to maxId. */
  method SelectNode(ghost c: Config, ghost acts: seq<Action>, m: OsmMMap.OSMMMap, id: int)
    returns (coord: Option<Coord>)
    requires Legal(c) && CanRun(c, Init(c), acts) && After(c, Init(c), acts).merged
    requires m.Valid() && m.Content() == After(c, Init(c), acts).store && IsInt64(id)
    ensures coord.Some? <==> id <= c.maxId && exists k :: 0 <= k < c.nodeEnd && c.input[k].id == id
    ensures forall k | 0 <= k < c.nodeEnd && c.input[k].id == id && coord.Some? :: c.input[k].coord == coord.value
  {
    Reachable(c, acts);
    ExpectedLookup(c, id);
    coord := m.Select(id);
  }

  // ---- Geometries ----

  /** The coordinates of the referenced nodes that are in the store. */
  function Located(refs: seq<int>, view: View): seq<Point> {
    if refs == [] then []
    else (if refs[0] in view then [Point(view[refs[0]].lon, view[refs[0]].lat)] else []) + Located(refs[1..], view)
  }

  ghost function LocatedAt(refs: seq<int>, view: View): map<nat, Point> {
    map i: nat | i < |refs| && refs[i] in view :: Point(view[refs[i]].lon, view[refs[i]].lat)
  }

  /** One point for each reference to a node in the store, its longitude first, in the order of the references. */
  lemma {:induction false} LocatedListed(refs: seq<int>, view: View)
    ensures Listed(Located(refs, view), LocatedAt(refs, view))
  {
    hide Listed;
    if refs == [] {
      ListedNone(LocatedAt(refs, view));
    } else {
      var first := if refs[0] in view then Some(Point(view[refs[0]].lon, view[refs[0]].lat)) else None;
      LocatedListed(refs[1..], view);
      ListedCons(first, Located(refs[1..], view), LocatedAt(refs[1..], view), LocatedAt(refs, view));
    }
  }

  function WayRowFor(srid: nat, e: Entry, view: View): Option<Row> {
    if !e.WayE? then None
    else
      var pts := Located(e.refs, view);
      if |pts| < 2 then None
      else Some(Row(e.id, ClosedWay(pts) && e.areaTags, Hex(Encode(WayGeom(srid, pts)), true)))
  }

  /** The vertices of a stored way, in order. */
  function Vertices(geog: string): seq<Point> {
    match DecodeHex(geog)
    case Some(LineString(_, pts)) => pts
    case Some(Polygon(_, rings)) => if |rings| == 1 then rings[0] else []
    case _ => []
  }

  function Ids(ms: seq<Member>): set<int> {
    set m | m in ms :: m.id
  }

  /** getWayCoordsMap over the committed rows. */
  ghost function CoordsOf(rows: set<Row>, ms: seq<Member>): CoordsMap {
    map id | id in Ids(ms) && (exists r :: r in rows && r.id == id) ::
      var r :| r in rows && r.id == id; Vertices(r.geog)
  }

  ghost function RelAreaFor(srid: nat, e: Entry, rows: set<Row>): Option<string> {
    if !e.RelE? then None
    else
      match RelationGeom(srid, e.members, CoordsOf(rows, e.members))
      case Some(g) => Some(Hex(Encode(g), true))
      case None => None
  }

  /** An import with these builders. */
  ghost predicate RealConfig(c: Config, srid: nat) {
    && srid < TWO32
    && (forall e, v :: c.wayRow(e, v) == WayRowFor(srid, e, v))
    && (forall e, rows :: c.relArea(e, rows) == RelAreaFor(srid, e, rows))
  }

  /** Any import can be equipped with them, and rows then carry the id of their way, as required. */
  ghost function WithBuilders(c: Config, srid: nat): (r: Config)
    requires srid < TWO32
    ensures RealConfig(r, srid) && r.input == c.input
    ensures forall e, v :: r.wayRow(e, v).Some? ==> r.wayRow(e, v).value.id == e.id
  {
    c.(wayRow := (e, v) => WayRowFor(srid, e, v), relArea := (e, rows) => RelAreaFor(srid, e, rows))
  }

  /** No way of the input has 2^32 nodes or more. */
  predicate ShortWays(c: Config)
    requires Sized(c)
  {
    forall i | c.nodeEnd <= i < c.wayEnd :: c.input[i].WayE? ==> |c.input[i].refs| < TWO32
  }

  lemma {:induction false} LocatedLength(refs: seq<int>, view: View)
    ensures |Located(refs, view)| <= |refs|
  {
    if refs != [] {
      LocatedLength(refs[1..], view);
    }
  }

  /** The committed row of a way decodes to the way's geometry. */
  lemma WayRowDecodes(srid: nat, e: Entry, view: View)
    requires srid < TWO32 && e.WayE? && |e.refs| < TWO32 && |Located(e.refs, view)| >= 2
    ensures var row := WayRowFor(srid, e, view);
            && row.Some? && row.value.id == e.id
            && DecodeHex(row.value.geog) == Some(WayGeom(srid, Located(e.refs, view)))
            && Vertices(row.value.geog) == Located(e.refs, view)
  {
    hide DecodeHex, Hex, Encode;
    LocatedLength(e.refs, view);
    HexDecodes(WayGeom(srid, Located(e.refs, view)), true);
  }

  /** The member coordinates read straight from the input: way i of the file and the nodes of the file. */
  ghost predicate InputWay(c: Config, i: nat, id: int)
    requires Sized(c)
  {
    && c.nodeEnd <= i < c.wayEnd && c.input[i].WayE? && c.input[i].id == id
    && |Located(c.input[i].refs, ExpectedView(c))| >= 2
  }

  ghost function InputCoords(c: Config, ms: seq<Member>): CoordsMap
    requires Sized(c)
  {
    map id | id in Ids(ms) && (exists i: nat :: InputWay(c, i, id)) ::
      var i: nat :| InputWay(c, i, id); Located(c.input[i].refs, ExpectedView(c))
  }

  lemma InputWayIsCommitted(c: Config, srid: nat, i: nat, id: int)
    requires Legal(c) && RealConfig(c, srid) && ShortWays(c) && InputWay(c, i, id)
    ensures var row := WayRowFor(srid, c.input[i], ExpectedView(c));
            && row.Some? && row.value in ExpectedWays(c) && row.value.id == id
            && Vertices(row.value.geog) == Located(c.input[i].refs, ExpectedView(c))
  {
    hide Vertices, Encode, Hex;
    WayRowDecodes(srid, c.input[i], ExpectedView(c));
    assert WayRow(c, c.input[i]) == WayRowFor(srid, c.input[i], ExpectedView(c));
  }

  lemma CommittedIsInputWay(c: Config, srid: nat, r: Row) returns (i: nat)
    requires Legal(c) && RealConfig(c, srid) && r in ExpectedWays(c)
    ensures InputWay(c, i, r.id) && WayRowFor(srid, c.input[i], ExpectedView(c)) == Some(r)
  {
    hide Encode, Hex;
    i :| c.nodeEnd <= i < c.wayEnd && WayRow(c, c.input[i]) == Some(r);
  }

  lemma SameWay(c: Config, i: nat, k: nat, id: int)
    requires Legal(c) && InputWay(c, i, id) && InputWay(c, k, id)
    ensures i == k
  {
    if i < k {
      EntryIds(c, i, k);
    } else if k < i {
      EntryIds(c, k, i);
    }
  }

  /** What a relation reads from the database are the coordinates of the input's ways. */
  lemma CoordsFromInput(c: Config, srid: nat, ms: seq<Member>)
    requires Sized(c) && Legal(c) && RealConfig(c, srid) && ShortWays(c)
    ensures CoordsOf(ExpectedWays(c), ms) == InputCoords(c, ms)
  {
    hide Vertices, ExpectedWays, WayRowFor, Legal, RealConfig;
    forall id | id in Ids(ms)
      ensures id in CoordsOf(ExpectedWays(c), ms) <==> id in InputCoords(c, ms)
      ensures id in InputCoords(c, ms) ==> CoordsOf(ExpectedWays(c), ms)[id] == InputCoords(c, ms)[id]
    {
      if r :| r in ExpectedWays(c) && r.id == id {
        var i := CommittedIsInputWay(c, srid, r);
        assert InputWay(c, i, id);
      }
      if i: nat :| InputWay(c, i, id) {
        InputWayIsCommitted(c, srid, i, id);
        var rows := ExpectedWays(c);
        forall r | r in rows && r.id == id ensures Vertices(r.geog) == Located(c.input[i].refs, ExpectedView(c)) {
          var k := CommittedIsInputWay(c, srid, r);
          SameWay(c, i, k, id);
        }
        forall k: nat | InputWay(c, k, id) ensures k == i {
          SameWay(c, i, k, id);
        }
      }
    }
  }

  // ---- What a finished import holds, said of the input file alone ----

  /** Entry n is node `id`, and its coordinates could be stored. */
  ghost predicate NodeAt(c: Config, n: nat, id: int)
    requires Sized(c)
  {
    n < c.nodeEnd && c.input[n].NodeE? && c.input[n].id == id <= c.maxId
  }

  ghost function NodePoint(c: Config, id: int): Point
    requires Sized(c) && exists n: nat :: NodeAt(c, n, id)
  {
    var n: nat :| NodeAt(c, n, id);
    Point(c.input[n].coord.lon, c.input[n].coord.lat)
  }

  /** The points of the references to such nodes, by position. */
  ghost function VerticesAt(c: Config, refs: seq<int>): map<nat, Point>
    requires Sized(c)
  {
    map i: nat | i < |refs| && (exists n: nat :: NodeAt(c, n, refs[i])) :: NodePoint(c, refs[i])
  }

  lemma ExpectedPoint(c: Config, id: int)
    requires Legal(c)
    ensures id in ExpectedView(c) <==> exists n: nat :: NodeAt(c, n, id)
    ensures id in ExpectedView(c) ==> NodePoint(c, id) == Point(ExpectedView(c)[id].lon, ExpectedView(c)[id].lat)
  {
    ExpectedLookup(c, id);
    hide ExpectedView;
    if k :| 0 <= k < c.nodeEnd && c.input[k].id == id && id <= c.maxId {
      assert NodeAt(c, k, id);
    }
  }

  lemma VerticesSame(c: Config, refs: seq<int>)
    requires Sized(c) && Legal(c)
    ensures LocatedAt(refs, ExpectedView(c)) == VerticesAt(c, refs)
  {
    hide ExpectedView, Legal, NodeAt, NodePoint;
    var v := ExpectedView(c);
    forall i | 0 <= i < |refs|
      ensures refs[i] in v <==> exists n: nat :: NodeAt(c, n, refs[i])
      ensures refs[i] in v ==> NodePoint(c, refs[i]) == Point(v[refs[i]].lon, v[refs[i]].lat)
    {
      ExpectedPoint(c, refs[i]);
    }
  }

  /** The points of a way are those of the input's nodes that it refers to. */
  lemma LocatedFromInput(c: Config, refs: seq<int>)
    requires Sized(c) && Legal(c)
    ensures Listed(Located(refs, ExpectedView(c)), VerticesAt(c, refs))
    ensures |Located(refs, ExpectedView(c))| == |VerticesAt(c, refs)|
  {
    hide Listed, ExpectedView, Legal, Located, NodeAt, NodePoint;
    LocatedListed(refs, ExpectedView(c));
    VerticesSame(c, refs);
    hide VerticesAt, LocatedAt;
    ListedSize(Located(refs, ExpectedView(c)), VerticesAt(c, refs));
  }

  predicate IsClosed(pts: seq<Point>) {
    |pts| >= 4 && Same(pts[0], pts[|pts| - 1])
  }

  /** Entry i is way `id`, and at least two of its references are to such nodes. */
  ghost predicate LineAt(c: Config, i: nat, id: int)
    requires Sized(c)
  {
    && c.nodeEnd <= i < c.wayEnd && c.input[i].WayE? && c.input[i].id == id
    && |VerticesAt(c, c.input[i].refs)| >= 2
  }

  /** The coordinates of the members that are such ways. */
  ghost predicate MemberCoords(c: Config, ms: seq<Member>, coords: CoordsMap)
    requires Sized(c)
  {
    && (forall id :: id in coords <==> (exists m :: m in ms && m.id == id) && exists i: nat :: LineAt(c, i, id))
    && forall id, i: nat | id in coords && LineAt(c, i, id) :: HasLine(c, i, coords[id])
  }

  ghost predicate HasLine(c: Config, i: nat, pts: seq<Point>)
    requires Sized(c)
  {
    c.nodeEnd <= i < c.wayEnd && c.input[i].WayE? && Listed(pts, VerticesAt(c, c.input[i].refs))
  }

  lemma InputWayIsLine(c: Config, i: nat, id: int)
    requires Sized(c) && Legal(c)
    ensures InputWay(c, i, id) <==> LineAt(c, i, id)
  {
    hide Legal, Located, ExpectedView, VerticesAt;
    if c.nodeEnd <= i < c.wayEnd && c.input[i].WayE? {
      LocatedFromInput(c, c.input[i].refs);
    }
  }

  lemma InputCoordsAre(c: Config, ms: seq<Member>)
    requires Sized(c) && Legal(c)
    ensures MemberCoords(c, ms, InputCoords(c, ms))
  {
    hide Legal, Located, ExpectedView, InputWay, LineAt, HasLine;
    var coords := InputCoords(c, ms);
    forall id, i: nat ensures InputWay(c, i, id) <==> LineAt(c, i, id) {
      InputWayIsLine(c, i, id);
    }
    InputCoordsKeys(c, ms);
    forall id, i: nat | id in coords && LineAt(c, i, id) ensures HasLine(c, i, coords[id]) {
      CoordsOfWay(c, ms, i, id);
    }
  }

  lemma InputCoordsKeys(c: Config, ms: seq<Member>)
    requires Sized(c)
    ensures forall id :: id in InputCoords(c, ms) <==>
              (exists m :: m in ms && m.id == id) && exists i: nat :: InputWay(c, i, id)
  {
    hide Located, ExpectedView, InputWay;
  }

  lemma CoordsOfWay(c: Config, ms: seq<Member>, i: nat, id: int)
    requires Sized(c) && Legal(c) && id in InputCoords(c, ms) && InputWay(c, i, id)
    ensures HasLine(c, i, InputCoords(c, ms)[id])
  {
    hide Listed, Located, ExpectedView, VerticesAt, Legal;
    forall k: nat | InputWay(c, k, id) ensures k == i {
      SameWay(c, i, k, id);
    }
    LocatedFromInput(c, c.input[i].refs);
  }

  /** The rows of a finished import are those of its entries. */
  lemma FinishedRows(c: Config, acts: seq<Action>, r: Row)
    requires Sized(c) && Legal(c) && CanRun(c, Init(c), acts) && After(c, Init(c), acts).prod.Finished?
    ensures r in After(c, Init(c), acts).table <==>
              exists k :: c.nodeEnd <= k < |c.input| && r in RowsOf(c, c.input[k])
  {
    hide Init, Next, Enabled, CanRun, After, RowsOf, Rows, Legal;
    FinalTables(c, acts);
    var es, table := c.input[c.nodeEnd..], After(c, Init(c), acts).table;
    assert r in table <==> r in multiset(table);
    assert r in Rows(c, es) <==> r in multiset(Rows(c, es));
    RowsMembers(c, es, r);
    RowsByPosition(c, r);
  }

  lemma RowsByPosition(c: Config, r: Row)
    requires Sized(c)
    ensures (exists e :: e in c.input[c.nodeEnd..] && r in RowsOf(c, e))
            <==> exists k :: c.nodeEnd <= k < |c.input| && r in RowsOf(c, c.input[k])
  {
    hide RowsOf;
    var es := c.input[c.nodeEnd..];
    if e :| e in es && r in RowsOf(c, e) {
      var n :| 0 <= n < |es| && es[n] == e;
      assert c.input[c.nodeEnd + n] == e;
    }
    if k :| c.nodeEnd <= k < |c.input| && r in RowsOf(c, c.input[k]) {
      assert es[k - c.nodeEnd] == c.input[k];
    }
  }

  /** Rows with the id that an entry may give its row come from that entry. */
  lemma RowsOfEntry(c: Config, acts: seq<Action>, k: nat, r: Row)
    requires Legal(c) && CanRun(c, Init(c), acts) && After(c, Init(c), acts).prod.Finished?
    requires c.nodeEnd <= k < |c.input| && r.id == RowId(c.input[k])
    ensures r in After(c, Init(c), acts).table <==> r in RowsOf(c, c.input[k])
  {
    FinishedRows(c, acts, r);
    hide Init, Next, Enabled, CanRun, After, RowsOf;
    if n: nat :| c.nodeEnd <= n < |c.input| && r in RowsOf(c, c.input[n]) {
      RowIdOf(c, c.input[n]);
      if n < k {
        EntryIds(c, n, k);
      } else if k < n {
        EntryIds(c, k, n);
      }
    }
  }

  /** The row of a way whose points are `pts`. */
  ghost predicate IsWayRow(srid: nat, e: Entry, pts: seq<Point>, r: Row)
    requires e.WayE?
  {
    && r.id == e.id && (r.area <==> IsClosed(pts) && e.areaTags)
    && DecodeHex(r.geog) == Some(if IsClosed(pts) then Polygon(srid, [pts]) else LineString(srid, pts))
  }

  lemma RowsOfWay(c: Config, srid: nat, i: nat, pts: seq<Point>)
    requires Legal(c) && RealConfig(c, srid) && ShortWays(c) && c.nodeEnd <= i < c.wayEnd && c.input[i].WayE?
    requires pts == Located(c.input[i].refs, ExpectedView(c))
    ensures |pts| < 2 ==> RowsOf(c, c.input[i]) == []
    ensures |pts| >= 2 ==> exists r :: RowsOf(c, c.input[i]) == [r] && IsWayRow(srid, c.input[i], pts, r)
  {
    hide DecodeHex, Encode, Hex, ExpectedView, Located;
    var e := c.input[i];
    assert WayRow(c, e) == WayRowFor(srid, e, ExpectedView(c));
    if |pts| >= 2 {
      WayRowDecodes(srid, e, ExpectedView(c));
      assert IsWayRow(srid, e, pts, WayRowFor(srid, e, ExpectedView(c)).value);
    }
  }

  /** The table has one row of the way, or none if there are less than two points. */
  ghost predicate StoresWay(srid: nat, e: Entry, pts: seq<Point>, table: seq<Row>)
    requires e.WayE?
  {
    if |pts| < 2 then forall t | t in table :: t.id != e.id
    else exists r :: r in table && IsWayRow(srid, e, pts, r) && forall t | t in table && t.id == r.id :: t == r
  }

  lemma StoresWayRows(srid: nat, e: Entry, pts: seq<Point>, table: seq<Row>, rows: seq<Row>)
    requires e.WayE? && forall t: Row | t.id == e.id :: t in table <==> t in rows
    requires |pts| < 2 ==> rows == []
    requires |pts| >= 2 ==> exists r :: rows == [r] && IsWayRow(srid, e, pts, r)
    ensures StoresWay(srid, e, pts, table)
  {
    hide DecodeHex;
    if |pts| >= 2 {
      var r :| rows == [r] && IsWayRow(srid, e, pts, r);
      assert r.id == e.id && r in rows;
    }
  }

  /** For every way a finished import holds one row, with the points of the input's nodes in the order of the
      way's references, longitude first; and none if there are less than two. */
  lemma FinishedWays(c: Config, srid: nat, acts: seq<Action>, i: nat)
    requires Legal(c) && RealConfig(c, srid) && ShortWays(c) && c.nodeEnd <= i < c.wayEnd
    requires CanRun(c, Init(c), acts) && After(c, Init(c), acts).prod.Finished?
    ensures c.input[i].WayE?
    ensures exists pts :: Listed(pts, VerticesAt(c, c.input[i].refs))
                          && StoresWay(srid, c.input[i], pts, After(c, Init(c), acts).table)
  {
    hide Init, Next, Enabled, CanRun, After, Located, VerticesAt, Listed, ExpectedView, RowsOf, RealConfig, ShortWays;
    hide StoresWay, IsWayRow;
    var e, table := c.input[i], After(c, Init(c), acts).table;
    var pts := Located(e.refs, ExpectedView(c));
    LocatedFromInput(c, e.refs);
    RowsOfWay(c, srid, i, pts);
    forall t: Row | t.id == e.id ensures t in table <==> t in RowsOf(c, e) {
      RowsOfEntry(c, acts, i, t);
    }
    StoresWayRows(srid, e, pts, table, RowsOf(c, e));
  }

  /** For every multipolygon relation it holds one area row, with the negated id, that decodes to the geometry of
      its members, if there is one that fits the format; and no row for any other relation. */
  lemma FinishedImport(c: Config, srid: nat, acts: seq<Action>, k: nat)
    requires Legal(c) && RealConfig(c, srid) && ShortWays(c) && c.wayEnd <= k < |c.input|
    requires CanRun(c, Init(c), acts) && After(c, Init(c), acts).prod.Finished?
    ensures var e := c.input[k];
            exists coords, g :: MemberCoords(c, e.members, coords) && IsRelationGeom(srid, e.members, coords, g)
              && (if e.multi && g.Some? then
                    exists r :: r in After(c, Init(c), acts).table && r.id == -e.id && r.area
                                && (Fits(g.value) ==> DecodeHex(r.geog) == g)
                                && forall t | t in After(c, Init(c), acts).table && t.id == r.id :: t == r
                  else forall t | t in After(c, Init(c), acts).table :: t.id != -e.id)
  {
    hide DecodeHex, Encode, Hex, RelationGeom, CoordsOf, InputCoords, Fits, Init, Next, Enabled, ExpectedWays;
    hide MemberCoords, IsRelationGeom;
    var e := c.input[k];
    var coords := InputCoords(c, e.members);
    var g := RelationGeom(srid, e.members, coords);
    InputCoordsAre(c, e.members);
    RelationGeomIs(srid, e.members, coords);
    CoordsFromInput(c, srid, e.members);
    assert RowsOf(c, e) == if e.multi && g.Some? then [Row(-e.id, true, Hex(Encode(g.value), true))] else [];
    forall t: Row | t.id == -e.id ensures t in After(c, Init(c), acts).table <==> t in RowsOf(c, e) {
      RowsOfEntry(c, acts, k, t);
    }
    if e.multi && g.Some? {
      var r := Row(-e.id, true, Hex(Encode(g.value), true));
      assert r in RowsOf(c, e);
      if Fits(g.value) {
        HexDecodes(g.value, true);
      }
    }
  }

  /** It holds no other rows. */
  lemma OnlyInputRows(c: Config, acts: seq<Action>, r: Row)
    requires Legal(c) && CanRun(c, Init(c), acts) && After(c, Init(c), acts).prod.Finished?
    requires r in After(c, Init(c), acts).table
    ensures exists k :: c.nodeEnd <= k < |c.input| && r.id == if k < c.wayEnd then c.input[k].id else -c.input[k].id
  {
    FinishedRows(c, acts, r);
    hide Init, Next, Enabled, RowsOf;
    var k: nat :| c.nodeEnd <= k < |c.input| && r in RowsOf(c, c.input[k]);
    RowIdOf(c, c.input[k]);
  }

  /** There is such an import: any import can be equipped with the builders and run to its end. */
  lemma ImportFinishes(c: Config, srid: nat) returns (built: Config, acts: seq<Action>)
    requires Legal(c) && srid < TWO32 && (c.cap >= 1 || c.input == [])
    ensures Legal(built) && RealConfig(built, srid) && built.input == c.input
    ensures CanRun(built, Init(built), acts) && After(built, Init(built), acts).prod.Finished?
  {
    built := WithBuilders(c, srid);
    hide RealConfig, CanRun, After;
    NoActions(built);
    acts := EveryRunCanFinish(built, []);
  }

  lemma NoActions(c: Config)
    ensures CanRun(c, Init(c), []) && After(c, Init(c), []) == Init(c)
  {
  }
}
