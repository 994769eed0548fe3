/** The invariant holds initially and is kept by each action. */
module PipelineSteps {
  import opened Basics
  import opened BlockingQueues
  import opened Records
  import opened Pipeline
  import opened PipelineSafety

  lemma InitRows(c: Config)
    requires Sized(c)
    ensures RowsInv(c, Init(c))
  {
    var ways := Init(c).ways;
    forall j | 0 <= j < |ways| ensures Owed(c, ways[j]) == multiset{} {
      assert ways[j] == WayThread(WPop, false, [], []);
    }
    UnionEmpty(Bags(c, ways));
  }

  lemma InitInv(c: Config)
    requires Legal(c)
    ensures Inv(c, Init(c))
  {
    assert NodesArrived(Init(c).nodes) == {};
    assert WaysArrived(Init(c).ways) == {};
    InitRows(c);
  }

  // ---- Producer ----

  lemma PushToNode(c: Config, i: nat, q: Queue<Entry>, t: NodeThread, pos: nat, phase: nat)
    requires Sized(c) && pos < c.nodeEnd && NodeInv(c, i, q, t, true, pos, phase)
    requires c.input[pos].NodeE?
    ensures pos % c.nodeThreads == i && q.CanPush() ==>
              NodeInv(c, i, q.Push(c.input[pos]), t, true, pos + 1, phase)
    ensures pos % c.nodeThreads != i ==> NodeInv(c, i, q, t, true, pos + 1, phase)
  {
    hide Recs, Dealt;
    var d, e := Dealt(c.input, c.nodeThreads, i, pos), c.input[pos];
    DealtNext(c, i, pos);
    RecsAppend(d, [e]);
    RecsAppend(q.items, [e]);
    JoinRecs(t.shard + HandRecs(t.pc), Recs(q.items), Recs([e]));
  }

  lemma DealtNext(c: Config, i: nat, pos: nat)
    requires Sized(c) && pos < c.nodeEnd
    ensures Dealt(c.input, c.nodeThreads, i, pos + 1)
            == Dealt(c.input, c.nodeThreads, i, pos) + if pos % c.nodeThreads == i then [c.input[pos]] else []
    ensures Dealt(c.input, c.nodeThreads, i, pos) + [] == Dealt(c.input, c.nodeThreads, i, pos)
  {
  }

  lemma JoinRecs(a: seq<Record>, b: seq<Record>, d: seq<Record>)
    ensures a + (b + d) == a + b + d
  {
  }

  lemma PushNodeKeeps(c: Config, s: State)
    requires Sized(c) && WellShaped(c, s) && s.pos < c.nodeEnd && NodesInv(c, s)
    requires NodeOpen(s) && s.rr == s.pos && c.input[s.pos].NodeE?
    requires s.nodeQs[s.rr % c.nodeThreads].CanPush()
    ensures NodesInv(c, ProduceStep(c, s))
  {
    hide NodeInv;
    var s' := ProduceStep(c, s);
    forall i | 0 <= i < c.nodeThreads
      ensures NodeInv(c, i, s'.nodeQs[i], s'.nodes[i], NodeOpen(s'), s'.pos, s'.nodeBar.phase)
    {
      assert NodeInv(c, i, s.nodeQs[i], s.nodes[i], NodeOpen(s), s.pos, s.nodeBar.phase);
      PushToNode(c, i, s.nodeQs[i], s.nodes[i], s.pos, s.nodeBar.phase);
    }
  }

  /** Shutting the node queues down keeps what is known of the node threads. */
  lemma ShutKeeps(c: Config, s: State, s': State)
    requires Sized(c) && WellShaped(c, s) && WellShaped(c, s') && NodeSide(c, s) && s'.pos == s.pos
    requires s'.nodeQs == ShutAll(s.nodeQs) && s'.nodes == s.nodes && s'.nodeBar == s.nodeBar
    requires s'.merged == s.merged && s'.store == s.store && !NodeOpen(s')
    ensures NodeSide(c, s')
  {
    forall i | 0 <= i < c.nodeThreads
      ensures NodeInv(c, i, s'.nodeQs[i], s'.nodes[i], NodeOpen(s'), s'.pos, s'.nodeBar.phase)
    {
      assert NodeInv(c, i, s.nodeQs[i], s.nodes[i], NodeOpen(s), s.pos, s.nodeBar.phase);
    }
  }

  /** A push or a shutdown of the way queue keeps what is known of the way threads. */
  lemma WayQueueKeeps(c: Config, s: State, s': State)
    requires Sized(c) && WellShaped(c, s) && WellShaped(c, s') && WaySide(c, s)
    requires s'.pos <= |c.input| && FifoInv(c, s')
    requires s'.ways == s.ways && s'.wayBar == s.wayBar && s'.table == s.table
    requires s'.popped == s.popped && s'.seen == s.seen && (Drained(s) ==> Drained(s'))
    requires s'.prod.Finished? ==> forall j | 0 <= j < c.wayThreads :: s.ways[j].pc.WDone?
    ensures WaySide(c, s')
  {
    forall j | 0 <= j < c.wayThreads
      ensures WayInv(c, s'.ways[j], Drained(s'), s'.popped, s'.wayBar.phase)
    {
      assert WayInv(c, s.ways[j], Drained(s), s.popped, s.wayBar.phase);
    }
  }

  lemma ProduceNodeInv(c: Config, s: State)
    requires Enabled(c, s, Produce) && s.nodePhase && c.input[s.pos].NodeE? && Inv(c, s)
    ensures Inv(c, Next(c, s, Produce))
  {
    PushNodeKeeps(c, s);
    WaySideFrame(c, s, ProduceStep(c, s));
  }

  lemma ProduceSwitchInv(c: Config, s: State)
    requires Enabled(c, s, Produce) && s.nodePhase && !c.input[s.pos].NodeE? && Inv(c, s)
    ensures Inv(c, Next(c, s, Produce))
  {
    ShutKeeps(c, s, ProduceStep(c, s));
    WaySideFrame(c, s, ProduceStep(c, s));
  }

  lemma PushWayKeeps(c: Config, s: State)
    requires Sized(c) && WellShaped(c, s) && c.nodeEnd <= s.pos < |c.input| && !s.nodePhase && FifoInv(c, s)
    ensures FifoInv(c, ProduceStep(c, s))
  {
    assert c.input[c.nodeEnd..s.pos + 1] == c.input[c.nodeEnd..s.pos] + [c.input[s.pos]];
    assert s.popped + (s.wayQ.items + [c.input[s.pos]]) == (s.popped + s.wayQ.items) + [c.input[s.pos]];
  }

  lemma ProduceWayInv(c: Config, s: State)
    requires Enabled(c, s, Produce) && !s.nodePhase && Inv(c, s)
    ensures Inv(c, Next(c, s, Produce))
  {
    PushWayKeeps(c, s);
    NodeSideFrame(c, s, ProduceStep(c, s));
    WayQueueKeeps(c, s, ProduceStep(c, s));
  }

  lemma ProducerMoveInv(c: Config, s: State, a: Action)
    requires Enabled(c, s, a) && Inv(c, s)
    requires a.SeeMerge? || a.EndInput? || a.JoinNodeThreads? || a.JoinWayThreads?
    ensures Inv(c, Next(c, s, a))
  {
    hide NodesInv, NodeBarInv, RowsInv, WayBarInv, SeenInv;
    var s' := Next(c, s, a);
    if a.EndInput? {
      ShutKeeps(c, s, s');
    } else {
      NodeSideFrame(c, s, s');
    }
    if a.JoinNodeThreads? {
      JoinedMeansMerged(c, s);
    }
    WayQueueKeeps(c, s, s');
  }

  lemma JoinedMeansMerged(c: Config, s: State)
    requires Sized(c) && WellShaped(c, s) && NodeSide(c, s) && s.nodes[0].pc.NDone?
    ensures s.merged
  {
    assert NodeInv(c, 0, s.nodeQs[0], s.nodes[0], NodeOpen(s), s.pos, s.nodeBar.phase);
  }

  // ---- Node threads ----

  lemma NodePopKeeps(c: Config, i: nat, q: Queue<Entry>, t: NodeThread, open: bool, pos: nat, phase: nat)
    requires Sized(c) && pos <= |c.input| && NodeInv(c, i, q, t, open, pos, phase)
    requires t.pc.NPop? && q.CanPop()
    ensures NodeInv(c, i, q.Pop(), t.(pc := if q.items == [] then NFlush else NHold(q.items[0])), open, pos, phase)
  {
    hide Recs, Dealt;
    if q.items != [] {
      assert q.items == [q.items[0]] + q.items[1..];
      RecsAppend([q.items[0]], q.items[1..]);
      assert t.shard + [] == t.shard;
      JoinRecs(t.shard, Recs([q.items[0]]), Recs(q.items[1..]));
    }
  }

  lemma NodePopInv(c: Config, s: State, i: nat)
    requires Enabled(c, s, NodePop(i)) && Inv(c, s)
    ensures Inv(c, Next(c, s, NodePop(i)))
  {
    var s' := NodePopStep(s, i);
    assert NodeInv(c, i, s.nodeQs[i], s.nodes[i], NodeOpen(s), s.pos, s.nodeBar.phase);
    NodePopKeeps(c, i, s.nodeQs[i], s.nodes[i], NodeOpen(s), s.pos, s.nodeBar.phase);
    NodesUpdate(c, s, s', i);
    NodeBarFrame(c, s, s', i);
    WaySideFrame(c, s, s');
  }

  lemma NodeWorkKeeps(c: Config, i: nat, q: Queue<Entry>, t: NodeThread, open: bool, pos: nat, phase: nat)
    requires Sized(c) && pos <= |c.input| && NodeInv(c, i, q, t, open, pos, phase) && t.pc.NHold?
    ensures t.pc.e.NodeE?
    ensures NodeInv(c, i, q, NodeThread(NPop, t.shard + [Record(t.pc.e.id, t.pc.e.coord)]), open, pos, phase)
  {
    assert Recs([t.pc.e]) == [Record(t.pc.e.id, t.pc.e.coord)];
  }

  lemma NodeWorkInv(c: Config, s: State, i: nat)
    requires Enabled(c, s, NodeWork(i)) && Inv(c, s)
    ensures s.nodes[i].pc.e.NodeE? && Inv(c, Next(c, s, NodeWork(i)))
  {
    assert NodeInv(c, i, s.nodeQs[i], s.nodes[i], NodeOpen(s), s.pos, s.nodeBar.phase);
    var s' := NodeWorkStep(s, i);
    NodeWorkKeeps(c, i, s.nodeQs[i], s.nodes[i], NodeOpen(s), s.pos, s.nodeBar.phase);
    NodesUpdate(c, s, s', i);
    NodeBarFrame(c, s, s', i);
    WaySideFrame(c, s, s');
  }

  lemma NodeLeaveKeeps(c: Config, i: nat, q: Queue<Entry>, t: NodeThread, open: bool, pos: nat, phase: nat)
    requires Sized(c) && pos <= |c.input| && NodeInv(c, i, q, t, open, pos, phase)
    requires t.pc.NWait? && phase > t.pc.token
    ensures NodeInv(c, i, q, t.(pc := NDone), open, pos, phase)
  {
  }

  lemma NodeLeaveInv(c: Config, s: State, i: nat)
    requires Enabled(c, s, NodeLeave(i)) && Inv(c, s)
    ensures Inv(c, Next(c, s, NodeLeave(i)))
  {
    hide WaySide, NodeInv, Legal;
    assert NodeInv(c, i, s.nodeQs[i], s.nodes[i], NodeOpen(s), s.pos, s.nodeBar.phase);
    NodeLeaveKeeps(c, i, s.nodeQs[i], s.nodes[i], NodeOpen(s), s.pos, s.nodeBar.phase);
    var s' := Next(c, s, NodeLeave(i));
    NodesUpdate(c, s, s', i);
    NodeBarFrame(c, s, s', i);
    WaySideFrame(c, s, s');
  }

  lemma {:induction false} DealtMembers(input: seq<Entry>, n: nat, i: nat, p: nat, e: Entry)
    requires n >= 1 && p <= |input|
    ensures e in Dealt(input, n, i, p) <==> exists k :: 0 <= k < p && k % n == i && input[k] == e
  {
    if p > 0 {
      DealtMembers(input, n, i, p - 1, e);
    }
  }

  lemma {:induction false} RecsMembers(es: seq<Entry>, r: Record)
    ensures r in Recs(es) <==> exists e :: e in es && e.NodeE? && r == Record(e.id, e.coord)
  {
    if es != [] {
      RecsMembers(es[1..], r);
      assert forall e :: e in es <==> e == es[0] || e in es[1..];
    }
  }

  lemma {:induction false} ShardsMembers(nodes: seq<NodeThread>, r: Record)
    ensures r in Shards(nodes) <==> exists i :: 0 <= i < |nodes| && r in nodes[i].shard
  {
    if nodes != [] {
      ShardsMembers(nodes[1..], r);
      if i :| 0 <= i < |nodes| && r in nodes[i].shard {
        assert i == 0 || r in nodes[1..][i - 1].shard;
      }
      if i :| 0 <= i < |nodes[1..]| && r in nodes[1..][i].shard {
        assert r in nodes[i + 1].shard;
      }
    }
  }

  /** Once every node was dealt and recorded, the shards together hold exactly the input's nodes. */
  lemma ShardsComplete(c: Config, nodes: seq<NodeThread>)
    requires Legal(c) && |nodes| == c.nodeThreads
    requires forall i | 0 <= i < c.nodeThreads ::
               nodes[i].shard == Recs(Dealt(c.input, c.nodeThreads, i, c.nodeEnd))
    ensures Overlay(c.maxId, Shards(nodes)) == ExpectedView(c)
  {
    var inOrder := Recs(c.input[..c.nodeEnd]);
    forall r
      ensures r in Shards(nodes) <==> r in inOrder
      ensures r in inOrder ==> exists k :: 0 <= k < c.nodeEnd && r == Record(c.input[k].id, c.input[k].coord)
    {
      ShardsMembers(nodes, r);
      RecsMembers(c.input[..c.nodeEnd], r);
      if i :| 0 <= i < c.nodeThreads && r in nodes[i].shard {
        RecsMembers(Dealt(c.input, c.nodeThreads, i, c.nodeEnd), r);
        var e :| e in Dealt(c.input, c.nodeThreads, i, c.nodeEnd) && e.NodeE? && r == Record(e.id, e.coord);
        DealtMembers(c.input, c.nodeThreads, i, c.nodeEnd, e);
        assert e in c.input[..c.nodeEnd];
      }
      if e :| e in c.input[..c.nodeEnd] && e.NodeE? && r == Record(e.id, e.coord) {
        var k :| 0 <= k < c.nodeEnd && c.input[k] == e;
        var i := k % c.nodeThreads;
        DealtMembers(c.input, c.nodeThreads, i, c.nodeEnd, e);
        RecsMembers(Dealt(c.input, c.nodeThreads, i, c.nodeEnd), r);
        assert r in nodes[i].shard;
      }
    }
    OrderIrrelevant(c.maxId, Shards(nodes), inOrder);
  }

  lemma ArrivedComplete(c: Config, s: State)
    requires Sized(c) && WellShaped(c, s) && s.pos <= |c.input| && NodesInv(c, s)
    requires forall k | 0 <= k < c.nodeThreads :: NodeArrived(s.nodes[k])
    requires !NodeOpen(s) ==> s.pos >= c.nodeEnd
    ensures forall k | 0 <= k < c.nodeThreads ::
              s.nodes[k].shard == Recs(Dealt(c.input, c.nodeThreads, k, c.nodeEnd))
  {
    forall k | 0 <= k < c.nodeThreads
      ensures s.nodes[k].shard == Recs(Dealt(c.input, c.nodeThreads, k, c.nodeEnd))
    {
      assert NodeInv(c, k, s.nodeQs[k], s.nodes[k], NodeOpen(s), s.pos, s.nodeBar.phase);
    }
  }

  /** The last arrival at the node barrier merges complete shards. */
  lemma NodeArriveBar(c: Config, s: State, i: nat)
    requires Legal(c) && WellShaped(c, s) && s.pos <= |c.input| && i < c.nodeThreads
    requires s.nodes[i].pc.NFlush? && NodeBarInv(c, s)
    requires NodesInv(c, NodeArriveStep(c, s, i)) && (!NodeOpen(s) ==> s.pos >= c.nodeEnd)
    ensures NodeBarInv(c, NodeArriveStep(c, s, i))
  {
    hide NodesInv, Recs, Dealt, ExpectedView;
    var s' := NodeArriveStep(c, s, i);
    var before := NodesArrived(s.nodes);
    assert !NodeArrived(s.nodes[i]);
    assert i !in before;
    assert NodesArrived(s'.nodes) == before + {i};
    if s'.nodeBar.phase == 1 {
      SubsetSize(before + {i}, c.nodeThreads);
      forall k | 0 <= k < c.nodeThreads ensures NodeArrived(s'.nodes[k]) {
        assert k in NodesArrived(s'.nodes);
      }
      ArrivedComplete(c, s');
      forall k | 0 <= k < c.nodeThreads ensures s.nodes[k].shard == s'.nodes[k].shard {
      }
      ShardsComplete(c, s.nodes);
    }
  }

  lemma NodeArriveNodes(c: Config, s: State, i: nat)
    requires Sized(c) && WellShaped(c, s) && s.pos <= |c.input| && i < c.nodeThreads
    requires NodesInv(c, s) && s.nodeBar.phase == 0 && s.nodes[i].pc.NFlush?
    ensures NodesInv(c, NodeArriveStep(c, s, i))
  {
    assert NodeInv(c, i, s.nodeQs[i], s.nodes[i], NodeOpen(s), s.pos, s.nodeBar.phase);
    NodesUpdate(c, s, NodeArriveStep(c, s, i), i);
  }

  lemma NotMergedYet(c: Config, s: State, i: nat)
    requires Sized(c) && WellShaped(c, s) && i < c.nodeThreads && NodeBarInv(c, s) && s.nodes[i].pc.NFlush?
    ensures s.nodeBar.phase == 0 && !s.merged
  {
    assert !NodeArrived(s.nodes[i]);
  }

  lemma NodeArriveProducer(c: Config, s: State, i: nat)
    requires Sized(c) && ProducerInv(c, s) && i < |s.nodes| && !s.merged
    ensures ProducerInv(c, NodeArriveStep(c, s, i))
  {
    hide Shards, ApplyAll;
  }

  lemma NodeArriveInv(c: Config, s: State, i: nat)
    requires Enabled(c, s, NodeArrive(i)) && Inv(c, s)
    ensures Inv(c, Next(c, s, NodeArrive(i)))
  {
    hide NodesInv, NodeBarInv, WaySide, Shards, Legal;
    NotMergedYet(c, s, i);
    NodeArriveNodes(c, s, i);
    NodeArriveBar(c, s, i);
    NodeArriveProducer(c, s, i);
    WaySideFrame(c, s, NodeArriveStep(c, s, i));
  }
}
