/** The import as a transition system: one producer, the node threads with their private queues,
    the way threads on one shared queue, and the two barriers. Every interleaving is a run. */
module Pipeline {
  import opened Basics
  import opened BlockingQueues
  import opened Records
  import NavDb

  /** `refs`, `members` and `flag` carry what the geometry functions of the configuration need. */
  datatype Entry =
    | NodeE(id: int, coord: Coord)
    | WayE(id: int, refs: seq<int>, areaTags: bool)
    | RelE(id: int, members: seq<Member>, multi: bool)

  /** A row of `ways` (area == false) or of `areas` (area == true). */
  datatype Row = Row(id: int, area: bool, geog: string)

  /** An import: the input file, the command line, and the geometry builders. `nodeEnd` and `wayEnd`
      are the positions at which the nodes and the ways of the input end. */
  datatype Config = Config(
    input: seq<Entry>, nodeEnd: nat, wayEnd: nat,
    nodeThreads: nat, wayThreads: nat, cap: int, maxId: nat,
    wayRow: (Entry, View) -> Option<Row>,
    relArea: (Entry, set<Row>) -> Option<string>)

  ghost predicate Sized(c: Config) {
    c.nodeThreads >= 1 && c.wayThreads >= 1 && c.nodeEnd <= c.wayEnd <= |c.input|
  }

  ghost predicate Distinct(es: seq<Entry>) {
    forall i, j | 0 <= i < j < |es| :: es[i].id != es[j].id
  }

  /** What the import assumes: entries sorted by type, positive ids, and no node, way or relation twice. */
  ghost predicate Legal(c: Config) {
    && Sized(c)
    && (forall i | 0 <= i < |c.input| ::
          && c.input[i].id > 0
          && (c.input[i].NodeE? <==> i < c.nodeEnd)
          && (c.input[i].WayE? <==> c.nodeEnd <= i < c.wayEnd))
    && (forall i, j | 0 <= i < j < c.nodeEnd :: c.input[i].id != c.input[j].id)
    && Distinct(c.input[c.nodeEnd..c.wayEnd]) && Distinct(c.input[c.wayEnd..])
    && (forall e, v :: c.wayRow(e, v).Some? ==> c.wayRow(e, v).value.id == e.id)
  }

  // ---- State ----

  datatype ProducerPc = Reading | WaitMerge | JoinNodes | JoinWays | Finished
  datatype NodePc = NPop | NHold(e: Entry) | NFlush | NWait(token: nat) | NDone
  datatype WayPc = WPop | WHold(e: Entry) | WArrive(next: Option<Entry>)
                 | WWait(token: nat, next: Option<Entry>) | WFinal | WDone

  /** A cyclic std::barrier: the arrivals of the current phase and the number of completed phases. */
  datatype Barrier = Barrier(arrived: nat, phase: nat) {
    function Arrive(n: nat): Barrier {
      if arrived + 1 >= n then Barrier(0, phase + 1) else Barrier(arrived + 1, phase)
    }
  }

  datatype NodeThread = NodeThread(pc: NodePc, shard: seq<Record>)
  datatype WayThread = WayThread(pc: WayPc, phaseDone: bool, wayBuf: seq<Row>, areaBuf: seq<Row>)

  /** `popped` and `seen` are history: the entries taken from the way queue, and for each handled
      relation the positive-id rows that were committed when its geometry was read. */
  datatype State = State(
    prod: ProducerPc, pos: nat, rr: nat, nodePhase: bool,
    nodeQs: seq<Queue<Entry>>, nodes: seq<NodeThread>, nodeBar: Barrier, merged: bool, store: View,
    wayQ: Queue<Entry>, ways: seq<WayThread>, wayBar: Barrier, table: seq<Row>,
    popped: seq<Entry>, seen: seq<(Entry, set<Row>)>)

  function Init(c: Config): State {
    State(Reading, 0, 0, true,
          seq(c.nodeThreads, _ => Queue([], c.cap, false)),
          seq(c.nodeThreads, _ => NodeThread(NPop, [])), Barrier(0, 0), false, map[],
          Queue([], c.cap, false),
          seq(c.wayThreads, _ => WayThread(WPop, false, [], [])), Barrier(0, 0), [], [], [])
  }

  ghost predicate WellShaped(c: Config, s: State) {
    |s.nodeQs| == |s.nodes| == c.nodeThreads && |s.ways| == c.wayThreads
  }

  // ---- The database side of a way thread ----

  /** Flush threshold of way thread j, whose thread id comes after those of the node threads. */
  function FlushAt(c: Config, j: nat): nat {
    NavDb.BufferSize(c.nodeThreads + j)
  }

  /** What a relation's geometry is read from: the rows of ways and closed ways, not of relations. */
  function PositiveRows(rows: seq<Row>): set<Row> {
    set r | r in rows && r.id > 0
  }

  /** insertWay or insertArea, with the flush when the buffer has reached its size. */
  function InsertRow(c: Config, s: State, j: nat, w: WayThread, r: Row): State
    requires j < |s.ways|
  {
    if r.area then
      var buf := w.areaBuf + [r];
      if |buf| > FlushAt(c, j) then s.(ways := s.ways[j := w.(areaBuf := [])], table := s.table + buf)
      else s.(ways := s.ways[j := w.(areaBuf := buf)])
    else
      var buf := w.wayBuf + [r];
      if |buf| >= FlushAt(c, j) then s.(ways := s.ways[j := w.(wayBuf := [])], table := s.table + buf)
      else s.(ways := s.ways[j := w.(wayBuf := buf)])
  }

  /** finalize_ways, also what the destructor of the connection does: both buffers are committed. */
  function FlushBoth(s: State, j: nat, pc: WayPc): State
    requires j < |s.ways|
  {
    var w := s.ways[j];
    s.(ways := s.ways[j := WayThread(pc, w.phaseDone, [], [])], table := s.table + w.wayBuf + w.areaBuf)
  }

  // ---- Actions ----

  datatype Action =
    | Produce | SeeMerge | EndInput | JoinNodeThreads | JoinWayThreads
    | NodePop(i: nat) | NodeWork(i: nat) | NodeArrive(i: nat) | NodeLeave(i: nat)
    | WayPop(j: nat) | WayWork(j: nat) | WayArrive(j: nat) | WayLeave(j: nat) | WayFinish(j: nat)

  function ShutAll(qs: seq<Queue<Entry>>): (r: seq<Queue<Entry>>)
  {
    seq(|qs|, i requires 0 <= i < |qs| => qs[i].Shutdown())
  }

  ghost predicate Enabled(c: Config, s: State, a: Action) {
    Sized(c) && WellShaped(c, s) && Guard(c, s, a)
  }

  ghost predicate Guard(c: Config, s: State, a: Action)
    requires Sized(c) && WellShaped(c, s)
  {
    match a
    case Produce =>
      && s.prod.Reading? && s.pos < |c.input|
      && (if s.nodePhase && c.input[s.pos].NodeE? then s.nodeQs[s.rr % c.nodeThreads].CanPush()
          else s.nodePhase || s.wayQ.CanPush())
    case SeeMerge => s.prod.WaitMerge? && s.merged
    case EndInput => s.prod.Reading? && s.pos == |c.input|
    case JoinNodeThreads => s.prod.JoinNodes? && forall i | 0 <= i < c.nodeThreads :: s.nodes[i].pc.NDone?
    case JoinWayThreads => s.prod.JoinWays? && forall j | 0 <= j < c.wayThreads :: s.ways[j].pc.WDone?
    case NodePop(i) => i < c.nodeThreads && s.nodes[i].pc.NPop? && s.nodeQs[i].CanPop()
    case NodeWork(i) =>
      i < c.nodeThreads && s.nodes[i].pc.NHold? && (s.nodes[i].pc.e.NodeE? || s.wayQ.CanPush())
    case NodeArrive(i) => i < c.nodeThreads && s.nodes[i].pc.NFlush?
    case NodeLeave(i) =>
      i < c.nodeThreads && s.nodes[i].pc.NWait? && s.nodeBar.phase > s.nodes[i].pc.token
    case WayPop(j) => j < c.wayThreads && s.ways[j].pc.WPop? && s.wayQ.CanPop()
    case WayWork(j) => j < c.wayThreads && s.ways[j].pc.WHold?
    case WayArrive(j) => j < c.wayThreads && s.ways[j].pc.WArrive?
    case WayLeave(j) =>
      j < c.wayThreads && s.ways[j].pc.WWait? && s.wayBar.phase > s.ways[j].pc.token
    case WayFinish(j) => j < c.wayThreads && s.ways[j].pc.WFinal?
  }

  /** One step of the producer loop for the entry at `pos`. */
  function ProduceStep(c: Config, s: State): State
    requires |s.nodeQs| == c.nodeThreads >= 1 && s.pos < |c.input|
  {
    var e := c.input[s.pos];
    if s.nodePhase && e.NodeE? then
      var k := s.rr % c.nodeThreads;
      s.(nodeQs := s.nodeQs[k := s.nodeQs[k].Push(e)], rr := s.rr + 1, pos := s.pos + 1)
    else if s.nodePhase then
      s.(nodePhase := false, nodeQs := ShutAll(s.nodeQs), prod := WaitMerge)
    else
      s.(wayQ := s.wayQ.Push(e), pos := s.pos + 1)
  }

  function SetNode(s: State, i: nat, t: NodeThread): State
    requires i < |s.nodes|
  {
    s.(nodes := s.nodes[i := t])
  }

  function SetWay(s: State, j: nat, w: WayThread): State
    requires j < |s.ways|
  {
    s.(ways := s.ways[j := w])
  }

  function NodePopStep(s: State, i: nat): State
    requires i < |s.nodes| == |s.nodeQs|
  {
    var q, t := s.nodeQs[i], s.nodes[i];
    SetNode(s, i, t.(pc := if q.items == [] then NFlush else NHold(q.items[0])))
      .(nodeQs := s.nodeQs[i := q.Pop()])
  }

  /** A node is recorded in the thread's shard; anything else is forwarded and ends the loop. */
  function NodeWorkStep(s: State, i: nat): State
    requires i < |s.nodes| && s.nodes[i].pc.NHold?
  {
    var t := s.nodes[i];
    match t.pc.e
    case NodeE(id, coord) => SetNode(s, i, NodeThread(NPop, t.shard + [Record(id, coord)]))
    case _ => SetNode(s, i, t.(pc := NFlush)).(wayQ := s.wayQ.Push(t.pc.e))
  }

  function Shards(nodes: seq<NodeThread>): seq<Record> {
    if nodes == [] then [] else nodes[0].shard + Shards(nodes[1..])
  }

  /** The last arrival runs the barrier's completion function: the merge. */
  function NodeArriveStep(c: Config, s: State, i: nat): State
    requires i < |s.nodes|
  {
    var bar := s.nodeBar.Arrive(c.nodeThreads);
    var s1 := SetNode(s, i, s.nodes[i].(pc := NWait(s.nodeBar.phase))).(nodeBar := bar);
    if bar.phase > s.nodeBar.phase
    then s1.(store := ApplyAll(s.store, c.maxId, Shards(s.nodes)), merged := true)
    else s1
  }

  function WayPopStep(s: State, j: nat): State
    requires j < |s.ways|
  {
    var w := s.ways[j];
    if s.wayQ.items != [] then
      var e := s.wayQ.items[0];
      SetWay(s, j, w.(pc := WHold(e))).(wayQ := s.wayQ.Pop(), popped := s.popped + [e])
    else if w.phaseDone then SetWay(s, j, w.(pc := WFinal))
    else FlushBoth(s, j, WArrive(None))
  }

  function WayWorkStep(c: Config, s: State, j: nat): State
    requires j < |s.ways| && s.ways[j].pc.WHold?
  {
    var w := s.ways[j];
    var e := w.pc.e;
    var w1 := w.(pc := WPop);
    match e
    case NodeE(_, _) => SetWay(s, j, w1)
    case WayE(_, _, _) =>
      (match c.wayRow(e, s.store)
       case None => SetWay(s, j, w1)
       case Some(r) => InsertRow(c, s, j, w1, r))
    case RelE(id, _, multi) =>
      if !w.phaseDone then FlushBoth(s, j, WArrive(Some(e)))
      else
        var rows := PositiveRows(s.table);
        var s1 := s.(seen := s.seen + [(e, rows)]);
        match (if multi then c.relArea(e, rows) else None)
        case None => SetWay(s1, j, w1)
        case Some(g) => InsertRow(c, s1, j, w1, Row(-id, true, g))
  }

  function WayArriveStep(c: Config, s: State, j: nat): State
    requires j < |s.ways| && s.ways[j].pc.WArrive?
  {
    var w := s.ways[j];
    SetWay(s, j, w.(pc := WWait(s.wayBar.phase, w.pc.next))).(wayBar := s.wayBar.Arrive(c.wayThreads))
  }

  function WayLeaveStep(s: State, j: nat): State
    requires j < |s.ways| && s.ways[j].pc.WWait?
  {
    var w := s.ways[j];
    match w.pc.next
    case Some(e) => SetWay(s, j, w.(pc := WHold(e), phaseDone := true))
    case None => SetWay(s, j, w.(pc := WFinal))
  }

  ghost function Next(c: Config, s: State, a: Action): State
    requires Enabled(c, s, a)
  {
    match a
    case Produce => ProduceStep(c, s)
    case SeeMerge => s.(prod := Reading)
    case EndInput => s.(nodeQs := ShutAll(s.nodeQs), prod := JoinNodes)
    case JoinNodeThreads => s.(wayQ := s.wayQ.Shutdown(), prod := JoinWays)
    case JoinWayThreads => s.(prod := Finished)
    case NodePop(i) => NodePopStep(s, i)
    case NodeWork(i) => NodeWorkStep(s, i)
    case NodeArrive(i) => NodeArriveStep(c, s, i)
    case NodeLeave(i) => SetNode(s, i, s.nodes[i].(pc := NDone))
    case WayPop(j) => WayPopStep(s, j)
    case WayWork(j) => WayWorkStep(c, s, j)
    case WayArrive(j) => WayArriveStep(c, s, j)
    case WayLeave(j) => WayLeaveStep(s, j)
    case WayFinish(j) => FlushBoth(s, j, WDone)
  }
}
