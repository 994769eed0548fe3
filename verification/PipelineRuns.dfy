/** The theorems about whole runs of the import. */
module PipelineRuns {
  import opened Basics
  import opened BlockingQueues
  import opened Records
  import opened Pipeline
  import opened PipelineSafety
  import opened PipelineSteps
  import opened PipelineWaySteps

  // ---- Runs ----

  /** The actions can be taken one after the other, starting in s. */
  ghost predicate CanRun(c: Config, s: State, acts: seq<Action>)
    decreases |acts|
  {
    acts == [] || (Enabled(c, s, acts[0]) && CanRun(c, Next(c, s, acts[0]), acts[1..]))
  }

  ghost function After(c: Config, s: State, acts: seq<Action>): State
    requires CanRun(c, s, acts)
    decreases |acts|
  {
    if acts == [] then s else After(c, Next(c, s, acts[0]), acts[1..])
  }

  lemma StepInv(c: Config, s: State, a: Action)
    requires Enabled(c, s, a) && Inv(c, s)
    ensures Inv(c, Next(c, s, a))
  {
    hide Inv, Next;
    match a
    case Produce =>
      if !s.nodePhase {
        ProduceWayInv(c, s);
      } else if c.input[s.pos].NodeE? {
        ProduceNodeInv(c, s);
      } else {
        ProduceSwitchInv(c, s);
      }
    case SeeMerge => ProducerMoveInv(c, s, a);
    case EndInput => ProducerMoveInv(c, s, a);
    case JoinNodeThreads => ProducerMoveInv(c, s, a);
    case JoinWayThreads => ProducerMoveInv(c, s, a);
    case NodePop(i) => NodePopInv(c, s, i);
    case NodeWork(i) => NodeWorkInv(c, s, i);
    case NodeArrive(i) => NodeArriveInv(c, s, i);
    case NodeLeave(i) => NodeLeaveInv(c, s, i);
    case WayPop(j) => WayPopInv(c, s, j);
    case WayWork(j) => WayWorkInv(c, s, j);
    case WayArrive(j) => WayArriveInv(c, s, j);
    case WayLeave(j) => WayLeaveInv(c, s, j);
    case WayFinish(j) => WayFinishInv(c, s, j);
  }

  lemma {:induction false} RunInv(c: Config, s: State, acts: seq<Action>)
    requires Inv(c, s) && CanRun(c, s, acts)
    ensures Inv(c, After(c, s, acts))
    decreases |acts|
  {
    hide Inv, Enabled, Next;
    if acts != [] {
      StepInv(c, s, acts[0]);
      RunInv(c, Next(c, s, acts[0]), acts[1..]);
    }
  }

  /** Every state reachable from the start satisfies the invariant. */
  lemma Reachable(c: Config, acts: seq<Action>)
    requires Legal(c) && CanRun(c, Init(c), acts)
    ensures Inv(c, After(c, Init(c), acts))
  {
    hide Inv, Enabled, Next;
    InitInv(c);
    RunInv(c, Init(c), acts);
  }

  // ---- Data dependencies ----

  /** Ways need every node: whenever an entry is in the way queue or was taken from it, `select` yields
      exactly the coordinates of the input's nodes with an id up to maxId. */
  lemma WaysSeeEveryNode(c: Config, acts: seq<Action>, id: int)
    requires Legal(c) && CanRun(c, Init(c), acts)
    requires var s := After(c, Init(c), acts); s.wayQ.items != [] || s.popped != []
    ensures var s := After(c, Init(c), acts);
            && (id in s.store <==> id <= c.maxId && exists k :: 0 <= k < c.nodeEnd && c.input[k].id == id)
            && (forall k | 0 <= k < c.nodeEnd && c.input[k].id == id && id in s.store ::
                  s.store[id] == c.input[k].coord)
  {
    var s := After(c, Init(c), acts);
    Reachable(c, acts);
    assert |s.popped + s.wayQ.items| > 0;
    assert s.store == ExpectedView(c);
    ExpectedLookup(c, id);
  }

  lemma ExpectedLookup(c: Config, id: int)
    requires Legal(c)
    ensures id in ExpectedView(c) <==> id <= c.maxId && exists k :: 0 <= k < c.nodeEnd && c.input[k].id == id
    ensures forall k | 0 <= k < c.nodeEnd && c.input[k].id == id && id in ExpectedView(c) ::
              ExpectedView(c)[id] == c.input[k].coord
  {
    var nodes := c.input[..c.nodeEnd];
    OverlayAt(c.maxId, Recs(nodes), id);
    forall r: Record
      ensures r in Recs(nodes) <==> exists k :: 0 <= k < c.nodeEnd && r == Record(c.input[k].id, c.input[k].coord)
    {
      RecsMembers(nodes, r);
      if k :| 0 <= k < c.nodeEnd && r == Record(c.input[k].id, c.input[k].coord) {
        assert nodes[k] in nodes;
      }
    }
    if k :| 0 <= k < c.nodeEnd && c.input[k].id == id {
      assert Record(c.input[k].id, c.input[k].coord) in Recs(nodes);
    }
  }

  /** Relations need every way: every relation was handled against exactly the rows of all ways of the
      input, in every run, so its geometry is the same in all of them. */
  lemma RelationsSeeEveryWay(c: Config, acts: seq<Action>, j: nat)
    requires Legal(c) && CanRun(c, Init(c), acts)
    ensures var s := After(c, Init(c), acts);
            && (forall k | 0 <= k < |s.seen| :: s.seen[k].1 == ExpectedWays(c))
            && (j < |s.ways| && s.ways[j].phaseDone ==> PositiveRows(s.table) == ExpectedWays(c))
  {
    var s := After(c, Init(c), acts);
    Reachable(c, acts);
    if j < |s.ways| && s.ways[j].phaseDone {
      assert WayInv(c, s.ways[j], Drained(s), s.popped, s.wayBar.phase);
      AllWaysCommitted(c, s);
    }
  }

  lemma InsertOther(c: Config, s: State, j: nat, w: WayThread, row: Row, r: Row)
    requires j < |s.ways| && r != row && r !in w.wayBuf && r !in w.areaBuf
    ensures multiset(InsertRow(c, s, j, w, row).table)[r] == multiset(s.table)[r]
    ensures InsertRow(c, s, j, w, row).wayBar == s.wayBar
  {
    hide FlushAt;
    var buf := (if row.area then w.areaBuf else w.wayBuf) + [row];
    assert multiset(s.table + buf)[r] == multiset(s.table)[r] + multiset(buf)[r] == multiset(s.table)[r];
  }

  /** A step of a thread that is past the way barrier commits rows of relations only. */
  lemma LateStep(c: Config, s: State, a: Action, r: Row)
    requires Enabled(c, s, a) && r.id > 0 && (a.WayPop? || a.WayWork? || a.WayFinish? || a.WayArrive?)
    requires s.wayBar.phase == 1 && WayArrived(s.ways[a.j])
    requires WayInv(c, s.ways[a.j], Drained(s), s.popped, s.wayBar.phase)
    ensures Next(c, s, a).wayBar == s.wayBar && multiset(Next(c, s, a).table)[r] == multiset(s.table)[r]
  {
    hide InsertRow;
    var w := s.ways[a.j];
    assert r !in w.wayBuf + w.areaBuf;
    assert r !in w.wayBuf && r !in w.areaBuf;
    if a.WayWork? && w.pc.e.RelE? {
      var e, rows := w.pc.e, PositiveRows(s.table);
      var s1 := s.(seen := s.seen + [(e, rows)]);
      match c.relArea(e, rows)
      case None =>
      case Some(g) => InsertOther(c, s1, a.j, w.(pc := WPop), Row(-e.id, true, g), r);
    }
  }

  /** A step after the way barrier commits rows of relations only. */
  lemma StepFreezesWays(c: Config, s: State, a: Action, r: Row)
    requires Enabled(c, s, a) && WaysInv(c, s) && WayBarInv(c, s) && s.wayBar.phase == 1 && r.id > 0
    ensures Next(c, s, a).wayBar.phase == 1 && multiset(Next(c, s, a).table)[r] == multiset(s.table)[r]
  {
    if a.WayPop? || a.WayWork? || a.WayFinish? || a.WayArrive? {
      assert WayInv(c, s.ways[a.j], Drained(s), s.popped, s.wayBar.phase);
      LateStep(c, s, a, r);
    }
  }

  lemma {:induction false} WaysFrozen(c: Config, s: State, acts: seq<Action>, r: Row)
    requires Inv(c, s) && CanRun(c, s, acts) && s.wayBar.phase == 1 && r.id > 0
    ensures multiset(After(c, s, acts).table)[r] == multiset(s.table)[r]
    decreases |acts|
  {
    hide Enabled, Next, Legal, NodeSide, ProducerInv, FifoInv, WaysInv, WayBarInv, RowsInv, SeenInv;
    if acts != [] {
      StepInv(c, s, acts[0]);
      StepFreezesWays(c, s, acts[0], r);
      WaysFrozen(c, Next(c, s, acts[0]), acts[1..], r);
    }
  }

  /** Every entry is taken from the way queue once and in input order; no queue exceeds its capacity. */
  lemma QueuesKeepOrder(c: Config, acts: seq<Action>, i: nat)
    requires Legal(c) && CanRun(c, Init(c), acts) && i < c.nodeThreads && c.cap >= 0
    ensures var s := After(c, Init(c), acts);
            && s.pos <= |c.input| && i < |s.nodes| == |s.nodeQs|
            && s.popped + s.wayQ.items == c.input[c.nodeEnd..if s.pos < c.nodeEnd then c.nodeEnd else s.pos]
            && s.nodes[i].shard + HandRecs(s.nodes[i].pc) + Recs(s.nodeQs[i].items)
               == Recs(Dealt(c.input, c.nodeThreads, i, NodesBefore(c, s.pos)))
            && |s.wayQ.items| <= c.cap && |s.nodeQs[i].items| <= c.cap
  {
    var s := After(c, Init(c), acts);
    Reachable(c, acts);
    assert NodeInv(c, i, s.nodeQs[i], s.nodes[i], NodeOpen(s), s.pos, s.nodeBar.phase);
  }

  /** A finished import has committed exactly the rows of the sequential pass, each once. */
  lemma FinalTables(c: Config, acts: seq<Action>)
    requires Legal(c) && CanRun(c, Init(c), acts) && After(c, Init(c), acts).prod.Finished?
    ensures var s := After(c, Init(c), acts);
            && s.popped == c.input[c.nodeEnd..]
            && multiset(s.table) == multiset(Rows(c, c.input[c.nodeEnd..]))
            && s.store == ExpectedView(c)
  {
    var s := After(c, Init(c), acts);
    Reachable(c, acts);
    FinishedOwesNothing(c, s);
  }

  lemma FinishedOwesNothing(c: Config, s: State)
    requires Legal(c) && WellShaped(c, s) && ProducerInv(c, s) && FifoInv(c, s) && WaysInv(c, s) && RowsInv(c, s)
    requires s.prod.Finished?
    ensures s.popped == c.input[c.nodeEnd..] && multiset(s.table) == multiset(Rows(c, s.popped))
  {
    hide Rows, RowsOf;
    forall j | 0 <= j < c.wayThreads ensures Drained(s) && Owed(c, s.ways[j]) == multiset{} {
      assert s.ways[j].pc.WDone?;
      assert WayInv(c, s.ways[j], Drained(s), s.popped, s.wayBar.phase);
    }
    UnionEmpty(Bags(c, s.ways));
    assert Owed(c, s.ways[0]) == multiset{};
    assert c.input[c.nodeEnd..|c.input|] == c.input[c.nodeEnd..];
  }
}
