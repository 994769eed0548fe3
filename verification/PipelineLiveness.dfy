/** The import cannot get stuck and cannot run forever. */
module PipelineLiveness {
  import opened Basics
  import opened BlockingQueues
  import opened Records
  import opened Pipeline
  import opened PipelineSafety
  import opened PipelineRuns

  // ---- Some step is possible ----

  /** As long as the way queue can be popped, a way thread that is not done can move, or another one can. */
  lemma WayProgress(c: Config, s: State, j: nat) returns (a: Action)
    requires Sized(c) && WellShaped(c, s) && WaysInv(c, s) && WayBarInv(c, s)
    requires s.wayQ.CanPop() && j < c.wayThreads && !s.ways[j].pc.WDone?
    ensures Enabled(c, s, a)
  {
    match s.ways[j].pc
    case WPop => a := WayPop(j);
    case WHold(_) => a := WayWork(j);
    case WArrive(_) => a := WayArrive(j);
    case WFinal => a := WayFinish(j);
    case WWait(_, _) =>
      assert WayInv(c, s.ways[j], Drained(s), s.popped, s.wayBar.phase);
      if s.wayBar.phase == 1 {
        a := WayLeave(j);
      } else {
        SubsetSize(WaysArrived(s.ways), c.wayThreads);
        var k: nat :| k < c.wayThreads && k !in WaysArrived(s.ways);
        a := if s.ways[k].pc.WPop? then WayPop(k) else if s.ways[k].pc.WHold? then WayWork(k) else WayArrive(k);
      }
  }

  /** Once the node queues are shut, a node thread that is not done can move, or another one can. */
  lemma NodeProgress(c: Config, s: State, i: nat) returns (a: Action)
    requires Sized(c) && WellShaped(c, s) && NodeSide(c, s) && !NodeOpen(s)
    requires i < c.nodeThreads && !s.nodes[i].pc.NDone?
    ensures Enabled(c, s, a)
  {
    assert NodeInv(c, i, s.nodeQs[i], s.nodes[i], NodeOpen(s), s.pos, s.nodeBar.phase);
    match s.nodes[i].pc
    case NPop => a := NodePop(i);
    case NHold(_) => a := NodeWork(i);
    case NFlush => a := NodeArrive(i);
    case NWait(_) =>
      if s.nodeBar.phase == 1 {
        a := NodeLeave(i);
      } else {
        SubsetSize(NodesArrived(s.nodes), c.nodeThreads);
        var k: nat :| k < c.nodeThreads && k !in NodesArrived(s.nodes);
        assert NodeInv(c, k, s.nodeQs[k], s.nodes[k], NodeOpen(s), s.pos, s.nodeBar.phase);
        a := if s.nodes[k].pc.NPop? then NodePop(k) else if s.nodes[k].pc.NHold? then NodeWork(k) else NodeArrive(k);
      }
  }

  /** A full node queue belongs to a thread that is still taking nodes from it. */
  lemma FullNodeQueue(c: Config, s: State, k: nat) returns (a: Action)
    requires Sized(c) && WellShaped(c, s) && NodeSide(c, s) && NodeOpen(s)
    requires c.cap >= 1 && k < c.nodeThreads && !s.nodeQs[k].CanPush()
    ensures Enabled(c, s, a)
  {
    assert NodeInv(c, k, s.nodeQs[k], s.nodes[k], NodeOpen(s), s.pos, s.nodeBar.phase);
    a := if s.nodes[k].pc.NPop? then NodePop(k) else NodeWork(k);
  }

  /** No deadlock: with a capacity of at least one, or nothing to push, every unfinished state has a step. */
  lemma Progress(c: Config, s: State) returns (a: Action)
    requires Inv(c, s) && (c.cap >= 1 || c.input == []) && !s.prod.Finished?
    ensures Enabled(c, s, a)
  {
    hide NodesInv, NodeBarInv, WaysInv, WayBarInv, FifoInv, RowsInv, SeenInv;
    match s.prod
    case Reading =>
      if s.pos == |c.input| {
        a := EndInput;
      } else if s.nodePhase && c.input[s.pos].NodeE? && !s.nodeQs[s.rr % c.nodeThreads].CanPush() {
        a := FullNodeQueue(c, s, s.rr % c.nodeThreads);
      } else if !s.nodePhase && !s.wayQ.CanPush() {
        NotDoneYet(c, s);
        a := WayProgress(c, s, 0);
      } else {
        a := Produce;
      }
    case WaitMerge =>
      if s.merged {
        a := SeeMerge;
      } else {
        UnmergedThread(c, s);
        a := NodeProgress(c, s, 0);
      }
    case JoinNodes =>
      if i :| 0 <= i < c.nodeThreads && !s.nodes[i].pc.NDone? {
        a := NodeProgress(c, s, i);
      } else {
        a := JoinNodeThreads;
      }
    case JoinWays =>
      if j :| 0 <= j < c.wayThreads && !s.ways[j].pc.WDone? {
        a := WayProgress(c, s, j);
      } else {
        a := JoinWayThreads;
      }
  }

  lemma NotDoneYet(c: Config, s: State)
    requires Sized(c) && WellShaped(c, s) && WaysInv(c, s) && !Drained(s)
    ensures !s.ways[0].pc.WDone?
  {
    assert WayInv(c, s.ways[0], Drained(s), s.popped, s.wayBar.phase);
  }

  lemma UnmergedThread(c: Config, s: State)
    requires Sized(c) && WellShaped(c, s) && NodeSide(c, s) && !s.merged
    ensures !s.nodes[0].pc.NDone?
  {
    assert NodeInv(c, 0, s.nodeQs[0], s.nodes[0], NodeOpen(s), s.pos, s.nodeBar.phase);
  }

  // ---- Every run is finite ----

  function Sum(ns: seq<nat>): nat {
    if ns == [] then 0 else ns[0] + Sum(ns[1..])
  }

  lemma {:induction false} SumUpdate(ns: seq<nat>, i: nat, n: nat)
    requires i < |ns|
    ensures Sum(ns[i := n]) == Sum(ns) - ns[i] + n
  {
    if i == 0 {
      assert ns[0 := n][1..] == ns[1..];
    } else {
      assert ns[i := n][1..] == ns[1..][i - 1 := n];
      SumUpdate(ns[1..], i - 1, n);
    }
  }

  function QueueSize(q: Queue<Entry>): nat { |q.items| }

  /** How many own steps a node thread still has, plus one for a node in its hand. */
  function NodeRank(t: NodeThread): nat {
    match t.pc
    case NPop => 3
    case NHold(_) => 4
    case NFlush => 2
    case NWait(_) => 1
    case NDone => 0
  }

  function WayRank(w: WayThread): nat {
    (if Carried(w.pc).Some? then 1 else 0)
    + match w.pc
      case WArrive(_) => 4
      case WWait(_, _) => 3
      case WFinal => 1
      case WDone => 0
      case _ => if w.phaseDone then 2 else 5
  }

  function ProducerRank(s: State): nat {
    match s.prod
    case Reading => if s.nodePhase then 5 else 3
    case WaitMerge => 4
    case JoinNodes => 2
    case JoinWays => 1
    case Finished => 0
  }

  function QueueSizes(qs: seq<Queue<Entry>>): seq<nat> { seq(|qs|, i requires 0 <= i < |qs| => QueueSize(qs[i])) }
  function NodeRanks(ts: seq<NodeThread>): seq<nat> { seq(|ts|, i requires 0 <= i < |ts| => NodeRank(ts[i])) }
  function WayRanks(ws: seq<WayThread>): seq<nat> { seq(|ws|, j requires 0 <= j < |ws| => WayRank(ws[j])) }

  /** An unread entry still costs three steps, a queued one two, and one in a thread's hand one. */
  function Measure(c: Config, s: State): int {
    3 * (|c.input| - s.pos) + ProducerRank(s)
    + 2 * Sum(QueueSizes(s.nodeQs)) + Sum(NodeRanks(s.nodes))
    + 2 * |s.wayQ.items| + Sum(WayRanks(s.ways))
  }

  lemma QueueUpdate(qs: seq<Queue<Entry>>, i: nat, q: Queue<Entry>)
    requires i < |qs|
    ensures Sum(QueueSizes(qs[i := q])) == Sum(QueueSizes(qs)) - QueueSize(qs[i]) + QueueSize(q)
  {
    SumUpdate(QueueSizes(qs), i, QueueSize(q));
    assert QueueSizes(qs[i := q]) == QueueSizes(qs)[i := QueueSize(q)];
  }

  lemma NodeUpdate(ts: seq<NodeThread>, i: nat, t: NodeThread)
    requires i < |ts|
    ensures Sum(NodeRanks(ts[i := t])) == Sum(NodeRanks(ts)) - NodeRank(ts[i]) + NodeRank(t)
  {
    SumUpdate(NodeRanks(ts), i, NodeRank(t));
    assert NodeRanks(ts[i := t]) == NodeRanks(ts)[i := NodeRank(t)];
  }

  lemma WayUpdate(ws: seq<WayThread>, j: nat, w: WayThread)
    requires j < |ws|
    ensures Sum(WayRanks(ws[j := w])) == Sum(WayRanks(ws)) - WayRank(ws[j]) + WayRank(w)
  {
    SumUpdate(WayRanks(ws), j, WayRank(w));
    assert WayRanks(ws[j := w]) == WayRanks(ws)[j := WayRank(w)];
  }

  lemma ProducerDecreases(c: Config, s: State, a: Action)
    requires Enabled(c, s, a)
    requires a.Produce? || a.SeeMerge? || a.EndInput? || a.JoinNodeThreads? || a.JoinWayThreads?
    requires s.prod.WaitMerge? ==> !s.nodePhase
    ensures Measure(c, Next(c, s, a)) < Measure(c, s)
  {
    hide Sum;
    assert QueueSizes(ShutAll(s.nodeQs)) == QueueSizes(s.nodeQs);
    if a.Produce? && s.nodePhase && c.input[s.pos].NodeE? {
      var k := s.rr % c.nodeThreads;
      QueueUpdate(s.nodeQs, k, s.nodeQs[k].Push(c.input[s.pos]));
    }
  }

  lemma NodeDecreases(c: Config, s: State, a: Action)
    requires Enabled(c, s, a) && (a.NodePop? || a.NodeWork? || a.NodeArrive? || a.NodeLeave?)
    requires s.nodes[a.i].pc.NHold? ==> s.nodes[a.i].pc.e.NodeE?
    ensures Measure(c, Next(c, s, a)) < Measure(c, s)
  {
    hide Sum, NodeRanks, WayRanks, QueueSizes;
    var s' := Next(c, s, a);
    NodeUpdate(s.nodes, a.i, s'.nodes[a.i]);
    if a.NodePop? {
      QueueUpdate(s.nodeQs, a.i, s.nodeQs[a.i].Pop());
    }
  }

  lemma InsertRank(c: Config, s: State, j: nat, w: WayThread, r: Row)
    requires j < |s.ways| && w.pc.WPop?
    ensures var s' := InsertRow(c, s, j, w, r);
            && s' == s.(ways := s.ways[j := s'.ways[j]], table := s'.table)
            && WayRank(s'.ways[j]) == WayRank(w)
  {
    hide FlushAt;
  }

  lemma WayWorkRank(c: Config, s: State, j: nat)
    requires j < |s.ways| && s.ways[j].pc.WHold?
    ensures var s' := WayWorkStep(c, s, j);
            && s' == s.(ways := s.ways[j := s'.ways[j]], table := s'.table, seen := s'.seen)
            && WayRank(s'.ways[j]) < WayRank(s.ways[j])
  {
    hide InsertRow, PositiveRows;
    var w, rows := s.ways[j], PositiveRows(s.table);
    var e, w1, s1 := w.pc.e, w.(pc := WPop), s.(seen := s.seen + [(w.pc.e, rows)]);
    if e.WayE? && c.wayRow(e, s.store).Some? {
      InsertRank(c, s, j, w1, c.wayRow(e, s.store).value);
    } else if e.RelE? && w.phaseDone && e.multi && c.relArea(e, rows).Some? {
      InsertRank(c, s1, j, w1, Row(-e.id, true, c.relArea(e, rows).value));
    }
  }

  lemma WayWorkDecreases(c: Config, s: State, j: nat)
    requires Enabled(c, s, WayWork(j))
    ensures Measure(c, Next(c, s, WayWork(j))) < Measure(c, s)
  {
    hide Sum, WayWorkStep, WayRank, WayRanks, NodeRanks, QueueSizes;
    WayWorkRank(c, s, j);
    WayUpdate(s.ways, j, WayWorkStep(c, s, j).ways[j]);
  }

  lemma WayDecreases(c: Config, s: State, a: Action)
    requires Enabled(c, s, a) && (a.WayArrive? || a.WayLeave?)
    requires s.ways[a.j].pc.WWait? || s.ways[a.j].pc.WArrive? ==> !s.ways[a.j].phaseDone
    ensures Measure(c, Next(c, s, a)) < Measure(c, s)
  {
    hide Sum, WayRanks;
    var j, s' := a.j, Next(c, s, a);
    WayUpdate(s.ways, j, s'.ways[j]);
  }

  lemma WayPopDecreases(c: Config, s: State, a: Action)
    requires Enabled(c, s, a) && (a.WayPop? || a.WayFinish?)
    ensures Measure(c, Next(c, s, a)) < Measure(c, s)
  {
    hide Sum, WayRanks;
    var j, s' := a.j, Next(c, s, a);
    WayUpdate(s.ways, j, s'.ways[j]);
  }

  lemma StepDecreases(c: Config, s: State, a: Action)
    requires Enabled(c, s, a) && Inv(c, s)
    ensures 0 <= Measure(c, Next(c, s, a)) < Measure(c, s)
  {
    hide Next, Guard, NodeBarInv, WayBarInv, FifoInv, RowsInv, SeenInv, Legal, Measure;
    if a.NodePop? || a.NodeWork? || a.NodeArrive? || a.NodeLeave? {
      NodeStepDecreases(c, s, a);
    } else if a.WayPop? || a.WayWork? || a.WayArrive? || a.WayLeave? || a.WayFinish? {
      WayStepDecreases(c, s, a);
    } else {
      ProducerDecreases(c, s, a);
    }
    StepInv(c, s, a);
    MeasureNonNegative(c, Next(c, s, a));
  }

  lemma MeasureNonNegative(c: Config, s: State)
    requires s.pos <= |c.input|
    ensures 0 <= Measure(c, s)
  {
  }

  lemma NodeStepDecreases(c: Config, s: State, a: Action)
    requires Enabled(c, s, a) && (a.NodePop? || a.NodeWork? || a.NodeArrive? || a.NodeLeave?)
    requires s.pos <= |c.input| && NodesInv(c, s)
    ensures Measure(c, Next(c, s, a)) < Measure(c, s)
  {
    assert NodeInv(c, a.i, s.nodeQs[a.i], s.nodes[a.i], NodeOpen(s), s.pos, s.nodeBar.phase);
    NodeDecreases(c, s, a);
  }

  lemma WaitersNotDone(c: Config, s: State, j: nat)
    requires Sized(c) && WellShaped(c, s) && WaysInv(c, s) && j < c.wayThreads
    ensures s.ways[j].pc.WWait? || s.ways[j].pc.WArrive? ==> !s.ways[j].phaseDone
  {
    assert WayInv(c, s.ways[j], Drained(s), s.popped, s.wayBar.phase);
  }

  lemma WayStepDecreases(c: Config, s: State, a: Action)
    requires Enabled(c, s, a) && WaysInv(c, s)
    requires a.WayPop? || a.WayWork? || a.WayArrive? || a.WayLeave? || a.WayFinish?
    ensures Measure(c, Next(c, s, a)) < Measure(c, s)
  {
    hide Measure, Next, WaysInv;
    WaitersNotDone(c, s, a.j);
    if a.WayWork? {
      WayWorkDecreases(c, s, a.j);
    } else if a.WayPop? || a.WayFinish? {
      WayPopDecreases(c, s, a);
    } else {
      WayDecreases(c, s, a);
    }
  }

  lemma {:induction false} RunLength(c: Config, s: State, acts: seq<Action>)
    requires Inv(c, s) && CanRun(c, s, acts)
    ensures 0 <= Measure(c, After(c, s, acts)) <= Measure(c, s) - |acts|
    decreases |acts|
  {
    hide Enabled, Next, Measure, NodeSide, WaySide, Legal;
    if acts == [] {
      MeasureNonNegative(c, s);
    } else {
      StepDecreases(c, s, acts[0]);
      StepInv(c, s, acts[0]);
      RunLength(c, Next(c, s, acts[0]), acts[1..]);
    }
  }

  lemma {:induction false} SumConstant(ns: seq<nat>, n: nat)
    requires forall i | 0 <= i < |ns| :: ns[i] == n
    ensures Sum(ns) == n * |ns|
  {
    if ns != [] {
      SumConstant(ns[1..], n);
    }
  }

  /** Every run of the import is finite: its length is bounded by the input and the thread counts. */
  lemma RunsAreFinite(c: Config, acts: seq<Action>)
    requires Legal(c) && CanRun(c, Init(c), acts)
    ensures |acts| <= 3 * |c.input| + 3 * c.nodeThreads + 5 * c.wayThreads + 5
  {
    hide Inv, Enabled, Next, Legal;
    Reachable(c, []);
    RunLength(c, Init(c), acts);
    SumConstant(QueueSizes(Init(c).nodeQs), 0);
    SumConstant(NodeRanks(Init(c).nodes), 3);
    SumConstant(WayRanks(Init(c).ways), 5);
  }

  // ---- Deadlock freedom, exactly ----

  ghost predicate Stuck(c: Config, s: State) {
    !s.prod.Finished? && forall a :: !Enabled(c, s, a)
  }

  ghost predicate NeverStuck(c: Config) {
    forall acts | CanRun(c, Init(c), acts) :: !Stuck(c, After(c, Init(c), acts))
  }

  /** Any state can be run until no step is left. */
  lemma MaximalRun(c: Config, s: State) returns (acts: seq<Action>)
    requires Inv(c, s)
    ensures CanRun(c, s, acts) && forall a :: !Enabled(c, After(c, s, acts), a)
    decreases Measure(c, s)
  {
    hide Inv, Next, Measure, Enabled;
    acts := [];
    if a :| Enabled(c, s, a) {
      StepInv(c, s, a);
      StepDecreases(c, s, a);
      var rest := MaximalRun(c, Next(c, s, a));
      acts := [a] + rest;
      assert acts[1..] == rest;
    }
  }

  /** Wherever a run has got to, it can go on to the end of the import. */
  lemma EveryRunCanFinish(c: Config, acts: seq<Action>) returns (more: seq<Action>)
    requires Legal(c) && (c.cap >= 1 || c.input == []) && CanRun(c, Init(c), acts)
    ensures var s := After(c, Init(c), acts); CanRun(c, s, more) && After(c, s, more).prod.Finished?
  {
    hide Inv, Enabled, Next, Legal;
    Reachable(c, acts);
    var s := After(c, Init(c), acts);
    more := MaximalRun(c, s);
    RunInv(c, s, more);
    var end := After(c, s, more);
    if !end.prod.Finished? {
      var a := Progress(c, end);
    }
  }

  lemma NoRoomForNodes(c: Config, s: State, k: nat)
    requires Sized(c) && WellShaped(c, s) && s.pos <= |c.input| && NodesInv(c, s) && NodeOpen(s)
    requires c.cap <= 0 && k < c.nodeThreads
    ensures !s.nodeQs[k].CanPush()
  {
    assert NodeInv(c, k, s.nodeQs[k], s.nodes[k], NodeOpen(s), s.pos, s.nodeBar.phase);
  }

  /** With no capacity the producer never gets past the first entry. */
  lemma StepWithoutRoom(c: Config, s: State, a: Action)
    requires Enabled(c, s, a) && Inv(c, s) && c.cap <= 0 && s.pos == 0 && c.input != []
    ensures Next(c, s, a).pos == 0
  {
    hide NodesInv, NodeBarInv, WaySide, InsertRow, Legal;
    if NodeOpen(s) {
      NoRoomForNodes(c, s, s.rr % c.nodeThreads);
    }
    if a.WayWork? {
      WayWorkKeepsPos(c, s, a.j);
    }
  }

  lemma WayWorkKeepsPos(c: Config, s: State, j: nat)
    requires j < |s.ways| && s.ways[j].pc.WHold?
    ensures WayWorkStep(c, s, j).pos == s.pos
  {
  }

  lemma {:induction false} RunWithoutRoom(c: Config, s: State, acts: seq<Action>)
    requires Inv(c, s) && CanRun(c, s, acts) && c.cap <= 0 && s.pos == 0 && c.input != []
    ensures After(c, s, acts).pos == 0
    decreases |acts|
  {
    hide Inv, Enabled, Next;
    if acts != [] {
      StepInv(c, s, acts[0]);
      StepWithoutRoom(c, s, acts[0]);
      RunWithoutRoom(c, Next(c, s, acts[0]), acts[1..]);
    }
  }

  lemma RoomMeansProgress(c: Config, acts: seq<Action>)
    requires Legal(c) && (c.cap >= 1 || c.input == []) && CanRun(c, Init(c), acts)
    ensures !Stuck(c, After(c, Init(c), acts))
  {
    hide Inv, Enabled, Next, Legal;
    Reachable(c, acts);
    var s := After(c, Init(c), acts);
    if !s.prod.Finished? {
      var a := Progress(c, s);
    }
  }

  lemma NoRoomMeansStuck(c: Config) returns (acts: seq<Action>)
    requires Legal(c) && c.cap <= 0 && c.input != []
    ensures CanRun(c, Init(c), acts) && Stuck(c, After(c, Init(c), acts))
  {
    hide Enabled, Next, Legal, NodeSide, WaySide;
    Reachable(c, []);
    acts := MaximalRun(c, Init(c));
    RunWithoutRoom(c, Init(c), acts);
    Reachable(c, acts);
  }

  /** The import is free of deadlock if and only if the queues can hold an entry or there is none. */
  lemma DeadlockFreeIff(c: Config)
    requires Legal(c)
    ensures NeverStuck(c) <==> c.cap >= 1 || c.input == []
  {
    hide Stuck, Enabled, Next, Legal;
    if c.cap >= 1 || c.input == [] {
      forall acts | CanRun(c, Init(c), acts) ensures !Stuck(c, After(c, Init(c), acts)) {
        RoomMeansProgress(c, acts);
      }
    } else {
      var acts := NoRoomMeansStuck(c);
    }
  }
}
