/** What every step of the pipeline keeps, and what follows for every reachable state. */
module PipelineSafety {
  import opened Basics
  import opened BlockingQueues
  import opened Records
  import opened Pipeline

  // ---- Reference semantics: the import read as one sequential pass ----

  function Recs(es: seq<Entry>): seq<Record> {
    if es == [] then [] else Rec(es[0]) + Recs(es[1..])
  }

  function Rec(e: Entry): seq<Record> {
    if e.NodeE? then [Record(e.id, e.coord)] else []
  }

  /** The store after inserting the nodes one by one in input order. */
  ghost function ExpectedView(c: Config): View
    requires Sized(c)
  {
    Overlay(c.maxId, Recs(c.input[..c.nodeEnd]))
  }

  ghost function WayRow(c: Config, e: Entry): Option<Row>
    requires Sized(c)
  {
    if e.WayE? then c.wayRow(e, ExpectedView(c)) else None
  }

  /** The rows of all ways of the input with a non-empty geometry. */
  ghost function ExpectedWays(c: Config): set<Row>
    requires Sized(c)
  {
    set i | c.nodeEnd <= i < c.wayEnd && WayRow(c, c.input[i]).Some? :: WayRow(c, c.input[i]).value
  }

  /** The row the sequential pass stores for an entry; relations see every way. */
  ghost function RowsOf(c: Config, e: Entry): seq<Row>
    requires Sized(c)
  {
    match e
    case NodeE(_, _) => []
    case WayE(_, _, _) => (match WayRow(c, e) case Some(r) => [r] case None => [])
    case RelE(id, _, multi) =>
      match (if multi then c.relArea(e, ExpectedWays(c)) else None)
      case Some(g) => [Row(-id, true, g)]
      case None => []
  }

  ghost function Rows(c: Config, es: seq<Entry>): seq<Row>
    requires Sized(c)
  {
    if es == [] then [] else RowsOf(c, es[0]) + Rows(c, es[1..])
  }

  // ---- Invariant ----

  /** The nodes before position p that round robin gives to thread i. */
  function Dealt(input: seq<Entry>, n: nat, i: nat, p: nat): seq<Entry>
    requires n >= 1 && p <= |input|
  {
    if p == 0 then []
    else Dealt(input, n, i, p - 1) + (if (p - 1) % n == i then [input[p - 1]] else [])
  }

  /** How many of the first `pos` entries are nodes. */
  function NodesBefore(c: Config, pos: nat): nat { if pos < c.nodeEnd then pos else c.nodeEnd }

  predicate WithinCap(q: Queue<Entry>, cap: int) {
    q.cap == cap && (|q.items| <= cap || q.items == [])
  }

  predicate NodeOpen(s: State) {
    s.nodePhase && s.prod.Reading?
  }

  predicate Ending(s: State) {
    s.prod.JoinWays? || s.prod.Finished?
  }

  ghost predicate ProducerInv(c: Config, s: State)
    requires Sized(c)
  {
    && s.pos <= |c.input|
    && (s.nodePhase ==> s.rr == s.pos <= c.nodeEnd && !s.prod.WaitMerge?)
    && (!s.nodePhase ==> s.pos >= c.nodeEnd)
    && (s.prod.WaitMerge? ==> s.pos == c.nodeEnd)
    && (!s.nodePhase && !s.prod.WaitMerge? ==> s.merged)
    && (s.prod.JoinNodes? || Ending(s) ==> s.pos == |c.input|)
    && (Ending(s) ==> s.merged)
    && s.wayQ.stopped == Ending(s)
    && WithinCap(s.wayQ, c.cap)
  }

  function HandRecs(pc: NodePc): seq<Record> {
    if pc.NHold? then Recs([pc.e]) else []
  }

  ghost predicate NodeInv(c: Config, i: nat, q: Queue<Entry>, t: NodeThread, open: bool, pos: nat, phase: nat)
    requires Sized(c) && pos <= |c.input|
  {
    && WithinCap(q, c.cap)
    && q.stopped == !open
    && (forall e | e in q.items :: e.NodeE?)
    && (t.pc.NHold? ==> t.pc.e.NodeE?)
    && t.shard + HandRecs(t.pc) + Recs(q.items)
       == Recs(Dealt(c.input, c.nodeThreads, i, NodesBefore(c, pos)))
    && (t.pc.NFlush? || t.pc.NWait? || t.pc.NDone? ==> q.stopped && q.items == [])
    && (t.pc.NWait? ==> t.pc.token == 0)
    && (t.pc.NDone? ==> phase >= 1)
  }

  ghost predicate NodesInv(c: Config, s: State)
    requires Sized(c) && WellShaped(c, s) && s.pos <= |c.input|
  {
    forall i | 0 <= i < c.nodeThreads ::
      NodeInv(c, i, s.nodeQs[i], s.nodes[i], NodeOpen(s), s.pos, s.nodeBar.phase)
  }

  predicate NodeArrived(t: NodeThread) { t.pc.NWait? || t.pc.NDone? }

  ghost function NodesArrived(nodes: seq<NodeThread>): set<int> {
    set i | 0 <= i < |nodes| && NodeArrived(nodes[i])
  }

  ghost predicate NodeBarInv(c: Config, s: State)
    requires Sized(c) && WellShaped(c, s)
  {
    && s.nodeBar.phase <= 1
    && s.merged == (s.nodeBar.phase == 1)
    && (s.nodeBar.phase == 0 ==>
          s.nodeBar.arrived == |NodesArrived(s.nodes)| < c.nodeThreads && s.store == map[])
    && (s.nodeBar.phase == 1 ==>
          s.store == ExpectedView(c) && forall i | 0 <= i < c.nodeThreads :: NodeArrived(s.nodes[i]))
  }

  /** More entries were popped than the input has ways, so all ways and a relation were popped. */
  ghost predicate PastWays(c: Config, popped: seq<Entry>) {
    |popped| > c.wayEnd - c.nodeEnd
  }

  ghost predicate FifoInv(c: Config, s: State)
    requires Sized(c) && s.pos <= |c.input|
  {
    s.popped + s.wayQ.items == c.input[c.nodeEnd..if s.pos < c.nodeEnd then c.nodeEnd else s.pos]
  }

  predicate WayArrived(w: WayThread) { w.pc.WWait? || w.phaseDone || w.pc.WFinal? || w.pc.WDone? }

  /** The thread has run finalize_ways and inserts no more ways. */
  predicate Late(w: WayThread) { WayArrived(w) || w.pc.WArrive? }

  function Carried(pc: WayPc): Option<Entry> {
    match pc
    case WHold(e) => Some(e)
    case WArrive(next) => next
    case WWait(_, next) => next
    case _ => None
  }

  ghost predicate WayInv(c: Config, w: WayThread, drained: bool, popped: seq<Entry>, phase: nat)
    requires Sized(c)
  {
    && (Late(w) ==> forall r | r in w.wayBuf + w.areaBuf :: r.id < 0)
    && (Carried(w.pc).Some? ==> popped != [] && Carried(w.pc).value.id > 0)
    && (Late(w) && Carried(w.pc).Some? ==> Carried(w.pc).value.RelE?)
    && (Carried(w.pc).Some? && Carried(w.pc).value.RelE? ==> PastWays(c, popped))
    && (w.phaseDone ==> PastWays(c, popped) && phase == 1 && !w.pc.WArrive? && !w.pc.WWait?)
    && (w.pc.WFinal? || w.pc.WDone? || w.pc == WArrive(None) || (w.pc.WWait? && w.pc.next.None?) ==> drained)
    && (w.pc.WFinal? || w.pc.WDone? ==> phase == 1)
    && (w.pc.WWait? ==> w.pc.token == 0)
    && (w.pc.WDone? ==> w.wayBuf == [] && w.areaBuf == [])
  }

  predicate Drained(s: State) { s.wayQ.stopped && s.wayQ.items == [] }

  ghost predicate WaysInv(c: Config, s: State)
    requires Sized(c) && WellShaped(c, s)
  {
    && (forall j | 0 <= j < c.wayThreads :: WayInv(c, s.ways[j], Drained(s), s.popped, s.wayBar.phase))
    && (s.prod.Finished? ==> forall j | 0 <= j < c.wayThreads :: s.ways[j].pc.WDone?)
  }

  ghost function WaysArrived(ways: seq<WayThread>): set<int> {
    set j | 0 <= j < |ways| && WayArrived(ways[j])
  }

  ghost predicate WayBarInv(c: Config, s: State)
    requires Sized(c) && WellShaped(c, s)
  {
    && s.wayBar.phase <= 1
    && (s.wayBar.phase == 0 ==> s.wayBar.arrived == |WaysArrived(s.ways)| < c.wayThreads)
    && (s.wayBar.phase == 1 ==> forall j | 0 <= j < c.wayThreads :: WayArrived(s.ways[j]))
  }

  /** The rows that thread w still owes the database. */
  ghost function Owed(c: Config, w: WayThread): multiset<Row>
    requires Sized(c)
  {
    multiset(w.wayBuf) + multiset(w.areaBuf)
    + (match Carried(w.pc) case Some(e) => multiset(RowsOf(c, e)) case None => multiset{})
  }

  ghost function Union(bags: seq<multiset<Row>>): multiset<Row> {
    if bags == [] then multiset{} else bags[0] + Union(bags[1..])
  }

  ghost function Bags(c: Config, ways: seq<WayThread>): (bags: seq<multiset<Row>>)
    requires Sized(c)
    ensures |bags| == |ways| && forall j | 0 <= j < |ways| :: bags[j] == Owed(c, ways[j])
  {
    seq(|ways|, j requires 0 <= j < |ways| => Owed(c, ways[j]))
  }

  ghost function AllOwed(c: Config, ways: seq<WayThread>): multiset<Row>
    requires Sized(c)
  {
    Union(Bags(c, ways))
  }

  /** Conservation: every row of a popped entry is committed or owed by a thread, exactly once. */
  ghost predicate RowsInv(c: Config, s: State)
    requires Sized(c)
  {
    multiset(s.table) + AllOwed(c, s.ways) == multiset(Rows(c, s.popped))
  }

  ghost predicate SeenInv(c: Config, s: State)
    requires Sized(c)
  {
    forall k | 0 <= k < |s.seen| :: s.seen[k].1 == ExpectedWays(c)
  }

  ghost predicate NodeSide(c: Config, s: State)
    requires Sized(c) && WellShaped(c, s)
  {
    s.pos <= |c.input| && NodesInv(c, s) && NodeBarInv(c, s)
  }

  ghost predicate WaySide(c: Config, s: State)
    requires Sized(c) && WellShaped(c, s)
  {
    && s.pos <= |c.input|
    && FifoInv(c, s) && WaysInv(c, s) && WayBarInv(c, s) && RowsInv(c, s) && SeenInv(c, s)
  }

  ghost predicate Inv(c: Config, s: State) {
    Legal(c) && WellShaped(c, s) && ProducerInv(c, s) && NodeSide(c, s) && WaySide(c, s)
  }

  /** A step of node thread i that re-establishes what is known of it keeps the other threads. */
  lemma NodesUpdate(c: Config, s: State, s': State, i: nat)
    requires Sized(c) && WellShaped(c, s) && WellShaped(c, s') && s'.pos == s.pos <= |c.input|
    requires i < c.nodeThreads && NodesInv(c, s)
    requires s'.nodeQs == s.nodeQs[i := s'.nodeQs[i]] && s'.nodes == s.nodes[i := s'.nodes[i]]
    requires NodeOpen(s') == NodeOpen(s) && s'.nodeBar.phase >= s.nodeBar.phase
    requires NodeInv(c, i, s'.nodeQs[i], s'.nodes[i], NodeOpen(s'), s'.pos, s'.nodeBar.phase)
    ensures NodesInv(c, s')
  {
    forall k | 0 <= k < c.nodeThreads
      ensures NodeInv(c, k, s'.nodeQs[k], s'.nodes[k], NodeOpen(s'), s'.pos, s'.nodeBar.phase)
    {
      assert NodeInv(c, k, s.nodeQs[k], s.nodes[k], NodeOpen(s), s.pos, s.nodeBar.phase);
    }
  }

  /** A step of a node thread that does not pass the barrier keeps what is known of the barrier. */
  lemma NodeBarFrame(c: Config, s: State, s': State, i: nat)
    requires Sized(c) && WellShaped(c, s) && WellShaped(c, s') && i < c.nodeThreads
    requires NodeBarInv(c, s)
    requires s'.nodes == s.nodes[i := s'.nodes[i]] && NodeArrived(s'.nodes[i]) == NodeArrived(s.nodes[i])
    requires s'.nodeBar == s.nodeBar && s'.merged == s.merged && s'.store == s.store
    ensures NodeBarInv(c, s')
  {
    assert NodesArrived(s'.nodes) == NodesArrived(s.nodes);
  }

  /** A step of way thread j that re-establishes what is known of it keeps the other threads. */
  lemma WaysUpdate(c: Config, s: State, s': State, j: nat)
    requires Sized(c) && WellShaped(c, s) && WellShaped(c, s') && j < c.wayThreads
    requires WaysInv(c, s) && s'.prod == s.prod && !s.ways[j].pc.WDone?
    requires s'.ways == s.ways[j := s'.ways[j]] && (Drained(s) ==> Drained(s'))
    requires s.popped <= s'.popped && s.wayBar.phase <= s'.wayBar.phase <= 1
    requires WayInv(c, s'.ways[j], Drained(s'), s'.popped, s'.wayBar.phase)
    ensures WaysInv(c, s')
  {
    forall k | 0 <= k < c.wayThreads
      ensures WayInv(c, s'.ways[k], Drained(s'), s'.popped, s'.wayBar.phase)
    {
      assert WayInv(c, s.ways[k], Drained(s), s.popped, s.wayBar.phase);
    }
  }

  lemma WayBarFrame(c: Config, s: State, s': State, j: nat)
    requires Sized(c) && WellShaped(c, s) && WellShaped(c, s') && j < c.wayThreads
    requires WayBarInv(c, s) && s'.wayBar == s.wayBar
    requires s'.ways == s.ways[j := s'.ways[j]] && WayArrived(s'.ways[j]) == WayArrived(s.ways[j])
    ensures WayBarInv(c, s')
  {
    assert WaysArrived(s'.ways) == WaysArrived(s.ways);
  }

  /** Conservation across a step of way thread j. */
  lemma RowsUpdate(c: Config, s: State, s': State, j: nat)
    requires Sized(c) && WellShaped(c, s) && j < c.wayThreads && RowsInv(c, s)
    requires |s'.ways| == |s.ways| && s'.ways == s.ways[j := s'.ways[j]]
    requires multiset(s'.table) + Owed(c, s'.ways[j]) + multiset(Rows(c, s.popped))
             == multiset(s.table) + Owed(c, s.ways[j]) + multiset(Rows(c, s'.popped))
    ensures RowsInv(c, s')
  {
    OwedUpdate(c, s.ways, j, s'.ways[j]);
    MoveBags(multiset(s.table), AllOwed(c, s.ways), multiset(Rows(c, s.popped)), Owed(c, s.ways[j]),
             multiset(s'.table), AllOwed(c, s'.ways), multiset(Rows(c, s'.popped)), Owed(c, s'.ways[j]));
  }

  lemma MoveBags<T>(t: multiset<T>, a: multiset<T>, p: multiset<T>, o: multiset<T>,
                    t': multiset<T>, a': multiset<T>, p': multiset<T>, o': multiset<T>)
    requires t + a == p && a' + o == a + o' && t' + o' + p == t + o + p'
    ensures t' + a' == p'
  {
    forall x
      ensures (t' + a')[x] == p'[x]
    {
      assert (t + a)[x] == p[x] && (a' + o)[x] == (a + o')[x] && (t' + o' + p)[x] == (t + o + p')[x];
    }
  }

  /** A step that leaves the node threads and their queues alone keeps what is known of them. */
  lemma NodeSideFrame(c: Config, s: State, s': State)
    requires Sized(c) && WellShaped(c, s) && WellShaped(c, s') && NodeSide(c, s)
    requires s'.nodeQs == s.nodeQs && s'.nodes == s.nodes && s'.nodeBar == s.nodeBar
    requires s'.merged == s.merged && s'.store == s.store && NodeOpen(s') == NodeOpen(s)
    requires s'.pos <= |c.input| && NodesBefore(c, s'.pos) == NodesBefore(c, s.pos)
    ensures NodeSide(c, s')
  {
    forall i | 0 <= i < c.nodeThreads
      ensures NodeInv(c, i, s'.nodeQs[i], s'.nodes[i], NodeOpen(s'), s'.pos, s'.nodeBar.phase)
    {
      assert NodeInv(c, i, s.nodeQs[i], s.nodes[i], NodeOpen(s), s.pos, s.nodeBar.phase);
    }
  }

  /** A step that neither commits rows nor changes what thread j owes. */
  lemma RowsFrame(c: Config, s: State, s': State, j: nat)
    requires Sized(c) && WellShaped(c, s) && j < c.wayThreads && RowsInv(c, s)
    requires |s'.ways| == |s.ways| && s'.ways == s.ways[j := s'.ways[j]] && s'.table == s.table
    requires s'.popped == s.popped && Owed(c, s'.ways[j]) == Owed(c, s.ways[j])
    ensures RowsInv(c, s')
  {
    hide Rows, Owed;
    RowsUpdate(c, s, s', j);
  }

  /** A step of way thread j that re-establishes its own part of the invariant keeps all of it. */
  lemma WayStepInv(c: Config, s: State, s': State, j: nat)
    requires Inv(c, s) && WellShaped(c, s') && j < c.wayThreads && !s.ways[j].pc.WDone?
    requires s' == s.(ways := s.ways[j := s'.ways[j]], table := s'.table, popped := s'.popped,
                      wayQ := s'.wayQ, wayBar := s'.wayBar, seen := s'.seen)
    requires s'.wayQ.stopped == s.wayQ.stopped && WithinCap(s'.wayQ, c.cap) && (Drained(s) ==> Drained(s'))
    requires s.popped <= s'.popped && s.wayBar.phase <= s'.wayBar.phase <= 1
    requires WayInv(c, s'.ways[j], Drained(s'), s'.popped, s'.wayBar.phase)
    requires FifoInv(c, s') && WayBarInv(c, s') && RowsInv(c, s') && (s'.seen == s.seen || SeenInv(c, s'))
    ensures Inv(c, s')
  {
    hide RowsInv, FifoInv, WayBarInv, NodesInv, NodeBarInv, WayInv;
    NodeSideFrame(c, s, s');
    WaysUpdate(c, s, s', j);
  }

  /** A step that leaves the way threads, their queue and the database alone keeps what is known of them. */
  lemma WaySideFrame(c: Config, s: State, s': State)
    requires Sized(c) && WellShaped(c, s) && WellShaped(c, s') && WaySide(c, s)
    requires s'.wayQ == s.wayQ && s'.ways == s.ways && s'.wayBar == s.wayBar && s'.table == s.table
    requires s'.popped == s.popped && s'.seen == s.seen && (s'.prod.Finished? ==> s.prod.Finished?)
    requires s'.pos == s.pos || (s.pos <= s'.pos <= c.nodeEnd)
    ensures WaySide(c, s')
  {
    forall j | 0 <= j < c.wayThreads
      ensures WayInv(c, s'.ways[j], Drained(s'), s'.popped, s'.wayBar.phase)
    {
      assert WayInv(c, s.ways[j], Drained(s), s.popped, s.wayBar.phase);
    }
  }

  // ---- Sequence lemmas ----

  lemma {:induction false} RecsAppend(a: seq<Entry>, b: seq<Entry>)
    ensures Recs(a + b) == Recs(a) + Recs(b)
  {
    hide Rec;
    if a == [] {
      assert a + b == b;
    } else {
      assert (a + b)[1..] == a[1..] + b;
      RecsAppend(a[1..], b);
    }
  }

  lemma {:induction false} RowsAppend(c: Config, a: seq<Entry>, b: seq<Entry>)
    requires Sized(c)
    ensures Rows(c, a + b) == Rows(c, a) + Rows(c, b)
  {
    if a == [] {
      assert a + b == b;
    } else {
      assert (a + b)[1..] == a[1..] + b;
      RowsAppend(c, a[1..], b);
    }
  }

  lemma {:induction false} UnionUpdate(bags: seq<multiset<Row>>, j: nat, bag: multiset<Row>)
    requires j < |bags|
    ensures Union(bags[j := bag]) + bags[j] == Union(bags) + bag
  {
    if j == 0 {
      assert bags[0 := bag][1..] == bags[1..];
    } else {
      var rest := bags[1..][j - 1 := bag];
      assert bags[j := bag][1..] == rest;
      UnionUpdate(bags[1..], j - 1, bag);
      assert Union(bags[j := bag]) == bags[0] + Union(rest);
      assert bags[1..][j - 1] == bags[j];
      assert Union(bags[j := bag]) + bags[j] == bags[0] + (Union(rest) + bags[j]);
      assert Union(bags) + bag == bags[0] + (Union(bags[1..]) + bag);
    }
  }

  lemma OwedUpdate(c: Config, ways: seq<WayThread>, j: nat, w: WayThread)
    requires Sized(c) && j < |ways|
    ensures AllOwed(c, ways[j := w]) + Owed(c, ways[j]) == AllOwed(c, ways) + Owed(c, w)
  {
    UnionUpdate(Bags(c, ways), j, Owed(c, w));
    assert Bags(c, ways[j := w]) == Bags(c, ways)[j := Owed(c, w)];
  }

  lemma {:induction false} UnionEmpty(bags: seq<multiset<Row>>)
    requires forall j | 0 <= j < |bags| :: bags[j] == multiset{}
    ensures Union(bags) == multiset{}
  {
    if bags != [] {
      UnionEmpty(bags[1..]);
    }
  }

  lemma {:induction false} SubsetSize(a: set<int>, n: nat)
    requires forall i | i in a :: 0 <= i < n
    ensures |a| <= n
    ensures |a| == n <==> forall i | 0 <= i < n :: i in a
  {
    if n == 0 {
      assert forall i :: i !in a;
      assert a == {};
    } else {
      SubsetSize(a - {n - 1}, n - 1);
      if n - 1 in a {
        assert |a - {n - 1}| == |a| - 1;
      } else {
        assert a - {n - 1} == a;
      }
    }
  }
}
