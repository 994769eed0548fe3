/** The way threads' actions keep the invariant. */
module PipelineWaySteps {
  import opened Basics
  import opened BlockingQueues
  import opened Records
  import opened Pipeline
  import opened PipelineSafety

  // ---- Popping ----

  /** The next entry of the way queue is the input entry after the popped ones. */
  lemma NextPopped(c: Config, s: State)
    requires Legal(c) && s.pos <= |c.input| && FifoInv(c, s) && s.wayQ.items != []
    ensures c.nodeEnd + |s.popped| < s.pos && s.wayQ.items[0] == c.input[c.nodeEnd + |s.popped|]
    ensures !s.wayQ.items[0].NodeE? && s.wayQ.items[0].id > 0
    ensures s.wayQ.items[0].RelE? <==> |s.popped| >= c.wayEnd - c.nodeEnd
    ensures (s.popped + [s.wayQ.items[0]]) + s.wayQ.items[1..] == s.popped + s.wayQ.items
  {
    assert (s.popped + s.wayQ.items)[|s.popped|] == s.wayQ.items[0];
  }

  lemma PopRows(c: Config, s: State, j: nat)
    requires Sized(c) && WellShaped(c, s) && j < c.wayThreads && RowsInv(c, s)
    requires s.ways[j].pc.WPop? && s.wayQ.items != []
    ensures RowsInv(c, WayPopStep(s, j))
  {
    hide RowsOf, Rows, RowsInv;
    var e := s.wayQ.items[0];
    OneEntryRows(c, e);
    RowsAppend(c, s.popped, [e]);
    assert Owed(c, WayPopStep(s, j).ways[j]) == Owed(c, s.ways[j]) + multiset(RowsOf(c, e));
    RowsUpdate(c, s, WayPopStep(s, j), j);
  }

  lemma OneEntryRows(c: Config, e: Entry)
    requires Sized(c)
    ensures Rows(c, [e]) == RowsOf(c, e)
  {
    hide RowsOf;
    assert RowsOf(c, e) + [] == RowsOf(c, e);
  }

  lemma PopThread(c: Config, s: State, j: nat)
    requires Legal(c) && WellShaped(c, s) && s.pos <= |c.input| && j < c.wayThreads
    requires FifoInv(c, s) && WayBarInv(c, s) && s.wayQ.items != [] && s.ways[j].pc.WPop?
    requires WayInv(c, s.ways[j], Drained(s), s.popped, s.wayBar.phase)
    ensures WayInv(c, WayPopStep(s, j).ways[j], false, s.popped + [s.wayQ.items[0]], s.wayBar.phase)
    ensures FifoInv(c, WayPopStep(s, j))
  {
    NextPopped(c, s);
  }

  lemma WayPopEntryInv(c: Config, s: State, j: nat)
    requires Enabled(c, s, WayPop(j)) && s.wayQ.items != [] && Inv(c, s)
    ensures Inv(c, Next(c, s, WayPop(j)))
  {
    hide RowsInv, NodesInv, NodeBarInv, SeenInv, Rows, RowsOf, FifoInv;
    var s' := WayPopStep(s, j);
    PopThread(c, s, j);
    WayBarFrame(c, s, s', j);
    PopRows(c, s, j);
    assert WayInv(c, s'.ways[j], Drained(s'), s'.popped, s'.wayBar.phase);
    WayStepInv(c, s, s', j);
  }

  // ---- Flushing ----

  lemma FlushRows(c: Config, s: State, j: nat, pc: WayPc)
    requires Sized(c) && WellShaped(c, s) && j < c.wayThreads && RowsInv(c, s)
    requires Carried(pc) == Carried(s.ways[j].pc)
    ensures RowsInv(c, FlushBoth(s, j, pc))
  {
    hide Rows, RowsOf, RowsInv;
    RowsUpdate(c, s, FlushBoth(s, j, pc), j);
  }

  /** finalize_ways before the barrier, for a first relation or at the end of the queue. */
  lemma FlushEarlyInv(c: Config, s: State, j: nat, next: Option<Entry>)
    requires Inv(c, s) && j < c.wayThreads && !s.ways[j].phaseDone
    requires next.None? ==> s.ways[j].pc.WPop? && Drained(s)
    requires next.Some? ==> next.value.RelE? && s.ways[j].pc == WHold(next.value)
    ensures Inv(c, FlushBoth(s, j, WArrive(next)))
  {
    hide RowsInv, NodesInv, NodeBarInv, SeenInv, Rows, RowsOf;
    var s' := FlushBoth(s, j, WArrive(next));
    assert WayInv(c, s.ways[j], Drained(s), s.popped, s.wayBar.phase);
    WayBarFrame(c, s, s', j);
    FlushRows(c, s, j, WArrive(next));
    WayStepInv(c, s, s', j);
  }

  /** The flush when the connection is destroyed. */
  lemma WayFinishInv(c: Config, s: State, j: nat)
    requires Enabled(c, s, WayFinish(j)) && Inv(c, s)
    ensures Inv(c, Next(c, s, WayFinish(j)))
  {
    hide RowsInv, NodesInv, NodeBarInv, SeenInv, Rows, RowsOf;
    var s' := FlushBoth(s, j, WDone);
    assert WayInv(c, s.ways[j], Drained(s), s.popped, s.wayBar.phase);
    WayBarFrame(c, s, s', j);
    FlushRows(c, s, j, WDone);
    WayStepInv(c, s, s', j);
  }

  lemma WayPopInv(c: Config, s: State, j: nat)
    requires Enabled(c, s, WayPop(j)) && Inv(c, s)
    ensures Inv(c, Next(c, s, WayPop(j)))
  {
    hide RowsInv, NodesInv, NodeBarInv, SeenInv, Rows, RowsOf;
    if s.wayQ.items != [] {
      WayPopEntryInv(c, s, j);
    } else if !s.ways[j].phaseDone {
      FlushEarlyInv(c, s, j, None);
    } else {
      var s' := WayPopStep(s, j);
      assert WayInv(c, s.ways[j], Drained(s), s.popped, s.wayBar.phase);
      WayBarFrame(c, s, s', j);
      RowsFrame(c, s, s', j);
      WayStepInv(c, s, s', j);
    }
  }

  // ---- Handling an entry ----

  lemma MoveRow<T>(t: multiset<T>, mine: multiset<T>, rest: multiset<T>, r: multiset<T>)
    ensures t + (mine + r + rest) == t + (mine + rest) + r
    ensures t + (mine + r) + rest == t + (mine + rest) + r
  {
  }

  /** Inserting a row adds it to what thread j owes, or to the table together with the whole buffer. */
  lemma InsertAreaBalance(c: Config, s: State, j: nat, w: WayThread, r: Row)
    requires Sized(c) && WellShaped(c, s) && j < c.wayThreads && w.pc.WPop? && r.area
    ensures var s' := InsertRow(c, s, j, w, r);
            multiset(s'.table) + Owed(c, s'.ways[j]) == multiset(s.table) + Owed(c, w) + multiset{r}
  {
    hide Rows, RowsOf;
    var s' := InsertRow(c, s, j, w, r);
    var t, mine, rest := multiset(s.table), multiset(w.areaBuf), multiset(w.wayBuf);
    assert Owed(c, w) == mine + rest;
    assert multiset(w.areaBuf + [r]) == mine + multiset{r};
    if s'.table == s.table {
      assert Owed(c, s'.ways[j]) == mine + multiset{r} + rest;
    } else {
      assert Owed(c, s'.ways[j]) == rest && multiset(s'.table) == t + (mine + multiset{r});
    }
    MoveRow(t, mine, rest, multiset{r});
  }

  lemma InsertWayBalance(c: Config, s: State, j: nat, w: WayThread, r: Row)
    requires Sized(c) && WellShaped(c, s) && j < c.wayThreads && w.pc.WPop? && !r.area
    ensures var s' := InsertRow(c, s, j, w, r);
            multiset(s'.table) + Owed(c, s'.ways[j]) == multiset(s.table) + Owed(c, w) + multiset{r}
  {
    hide Rows, RowsOf;
    var s' := InsertRow(c, s, j, w, r);
    var t, mine, rest := multiset(s.table), multiset(w.wayBuf), multiset(w.areaBuf);
    assert Owed(c, w) == mine + rest;
    assert multiset(w.wayBuf + [r]) == mine + multiset{r};
    if s'.table == s.table {
      assert Owed(c, s'.ways[j]) == mine + multiset{r} + rest;
    } else {
      assert Owed(c, s'.ways[j]) == rest && multiset(s'.table) == t + (mine + multiset{r});
    }
    MoveRow(t, mine, rest, multiset{r});
  }

  lemma InsertRows(c: Config, s: State, j: nat, r: Row)
    requires Sized(c) && WellShaped(c, s) && j < c.wayThreads && RowsInv(c, s) && s.ways[j].pc.WHold?
    requires RowsOf(c, s.ways[j].pc.e) == [r]
    ensures RowsInv(c, InsertRow(c, s, j, s.ways[j].(pc := WPop), r))
  {
    hide Rows, RowsOf, RowsInv;
    var w := s.ways[j].(pc := WPop);
    if r.area {
      InsertAreaBalance(c, s, j, w, r);
    } else {
      InsertWayBalance(c, s, j, w, r);
    }
    assert Owed(c, s.ways[j]) == Owed(c, w) + multiset{r};
    RowsUpdate(c, s, InsertRow(c, s, j, w, r), j);
  }

  /** Once an entry was popped, the merge is over. */
  lemma StoreReady(c: Config, s: State)
    requires Legal(c) && WellShaped(c, s) && ProducerInv(c, s) && FifoInv(c, s) && NodeBarInv(c, s)
    requires s.popped != []
    ensures s.merged && s.store == ExpectedView(c)
  {
    assert |s.popped + s.wayQ.items| > 0;
  }

  lemma HandleWayRows(c: Config, s: State, j: nat)
    requires Sized(c) && WellShaped(c, s) && j < c.wayThreads && RowsInv(c, s)
    requires s.ways[j].pc.WHold? && s.ways[j].pc.e.WayE? && s.store == ExpectedView(c)
    ensures RowsInv(c, WayWorkStep(c, s, j))
  {
    hide Rows, RowsInv, InsertRow;
    match c.wayRow(s.ways[j].pc.e, s.store)
    case None => RowsFrame(c, s, WayWorkStep(c, s, j), j);
    case Some(r) => InsertRows(c, s, j, r);
  }

  lemma InsertShape(c: Config, s: State, j: nat, w: WayThread, r: Row)
    requires j < |s.ways|
    ensures var s' := InsertRow(c, s, j, w, r);
            && s' == s.(ways := s.ways[j := s'.ways[j]], table := s'.table)
            && s'.ways[j].pc == w.pc && s'.ways[j].phaseDone == w.phaseDone
  {
    hide FlushAt;
  }

  lemma HandleWayThread(c: Config, s: State, j: nat)
    requires Legal(c) && WellShaped(c, s) && j < c.wayThreads && s.ways[j].pc.WHold? && s.ways[j].pc.e.WayE?
    requires WayInv(c, s.ways[j], Drained(s), s.popped, s.wayBar.phase) && s.pos <= |c.input| && FifoInv(c, s)
    ensures s.popped != [] && FifoInv(c, WayWorkStep(c, s, j))
    ensures WayArrived(WayWorkStep(c, s, j).ways[j]) == WayArrived(s.ways[j])
    ensures WayInv(c, WayWorkStep(c, s, j).ways[j], Drained(s), s.popped, s.wayBar.phase)
    ensures var s' := WayWorkStep(c, s, j); s' == s.(ways := s.ways[j := s'.ways[j]], table := s'.table)
  {
    hide InsertRow;
    match c.wayRow(s.ways[j].pc.e, s.store)
    case None =>
    case Some(r) => InsertShape(c, s, j, s.ways[j].(pc := WPop), r);
  }

  lemma HandleWayInv(c: Config, s: State, j: nat)
    requires Enabled(c, s, WayWork(j)) && s.ways[j].pc.e.WayE? && Inv(c, s)
    ensures Inv(c, Next(c, s, WayWork(j)))
  {
    hide RowsInv, NodesInv, NodeBarInv, SeenInv, Rows, RowsOf, WayBarInv, WayInv, FifoInv;
    var s' := WayWorkStep(c, s, j);
    assert WayInv(c, s.ways[j], Drained(s), s.popped, s.wayBar.phase);
    HandleWayThread(c, s, j);
    hide WayWorkStep, Legal;
    StoreReady(c, s);
    HandleWayRows(c, s, j);
    WayBarFrame(c, s, s', j);
    WayStepInv(c, s, s', j);
  }

  lemma {:induction false} RowsMembers(c: Config, es: seq<Entry>, r: Row)
    requires Sized(c)
    ensures r in Rows(c, es) <==> exists e :: e in es && r in RowsOf(c, e)
  {
    hide RowsOf;
    if es != [] {
      RowsMembers(c, es[1..], r);
      assert forall e :: e in es <==> e == es[0] || e in es[1..];
    }
  }

  lemma PoppedSlice(c: Config, s: State)
    requires Sized(c) && s.pos <= |c.input| && FifoInv(c, s)
    ensures c.nodeEnd + |s.popped| <= |c.input|
    ensures s.popped == c.input[c.nodeEnd..c.nodeEnd + |s.popped|]
  {
    assert s.popped == (s.popped + s.wayQ.items)[..|s.popped|];
  }

  lemma PoppedIsExpected(c: Config, s: State, e: Entry, r: Row)
    requires Legal(c) && s.pos <= |c.input| && FifoInv(c, s) && r.id > 0
    requires e in s.popped && r in RowsOf(c, e)
    ensures r in ExpectedWays(c)
  {
    hide ExpectedView, FifoInv;
    PoppedSlice(c, s);
    var i :| 0 <= i < |s.popped| && s.popped[i] == e;
    assert e == c.input[c.nodeEnd + i];
    assert WayRow(c, c.input[c.nodeEnd + i]) == Some(r);
  }

  lemma ExpectedIsPopped(c: Config, s: State, r: Row)
    requires Legal(c) && s.pos <= |c.input| && FifoInv(c, s) && PastWays(c, s.popped) && r in ExpectedWays(c)
    ensures exists e :: e in s.popped && r in RowsOf(c, e)
  {
    hide ExpectedView, FifoInv;
    PoppedSlice(c, s);
    var i :| c.nodeEnd <= i < c.wayEnd && WayRow(c, c.input[i]) == Some(r);
    assert s.popped[i - c.nodeEnd] == c.input[i];
    assert c.input[i] in s.popped && r in RowsOf(c, c.input[i]);
  }

  /** The positive-id rows of the popped entries, once past the ways, are the rows of all ways. */
  lemma PoppedPastWays(c: Config, s: State, r: Row)
    requires Legal(c) && s.pos <= |c.input| && FifoInv(c, s) && PastWays(c, s.popped) && r.id > 0
    ensures r in Rows(c, s.popped) <==> r in ExpectedWays(c)
  {
    hide Rows, RowsOf, ExpectedWays, FifoInv;
    RowsMembers(c, s.popped, r);
    if e :| e in s.popped && r in RowsOf(c, e) {
      PoppedIsExpected(c, s, e, r);
    }
    if r in ExpectedWays(c) {
      ExpectedIsPopped(c, s, r);
    }
  }

  lemma {:induction false} UnionMembers(bags: seq<multiset<Row>>, r: Row)
    requires forall j | 0 <= j < |bags| :: r !in bags[j]
    ensures r !in Union(bags)
  {
    if bags != [] {
      UnionMembers(bags[1..], r);
    }
  }

  /** After the way barrier no thread owes a positive-id row. */
  lemma NobodyOwes(c: Config, s: State, r: Row)
    requires Legal(c) && WellShaped(c, s) && WaysInv(c, s) && WayBarInv(c, s) && s.wayBar.phase == 1 && r.id > 0
    ensures r !in AllOwed(c, s.ways)
  {
    hide Rows;
    forall j | 0 <= j < c.wayThreads ensures r !in Owed(c, s.ways[j]) {
      assert WayInv(c, s.ways[j], Drained(s), s.popped, s.wayBar.phase);
      assert WayArrived(s.ways[j]);
      assert r !in s.ways[j].wayBuf + s.ways[j].areaBuf;
    }
    UnionMembers(Bags(c, s.ways), r);
  }

  /** So exactly the rows of the input's ways are committed. */
  lemma AllWaysCommitted(c: Config, s: State)
    requires Legal(c) && WellShaped(c, s) && s.pos <= |c.input|
    requires FifoInv(c, s) && WaysInv(c, s) && WayBarInv(c, s) && RowsInv(c, s)
    requires s.wayBar.phase == 1 && PastWays(c, s.popped)
    ensures PositiveRows(s.table) == ExpectedWays(c)
  {
    hide Rows, AllOwed, FifoInv, WaysInv, WayBarInv, ExpectedWays, ExpectedView;
    forall r
      ensures r in PositiveRows(s.table) <==> r in ExpectedWays(c)
    {
      if r.id > 0 {
        NobodyOwes(c, s, r);
        PoppedPastWays(c, s, r);
        assert r in multiset(s.table) <==> r in multiset(Rows(c, s.popped));
      } else {
        ExpectedPositive(c, r);
      }
    }
  }

  lemma ExpectedPositive(c: Config, r: Row)
    requires Legal(c) && r.id <= 0
    ensures r !in ExpectedWays(c)
  {
  }

  lemma HandleRelationRows(c: Config, s: State, j: nat)
    requires Sized(c) && WellShaped(c, s) && j < c.wayThreads && RowsInv(c, s)
    requires s.ways[j].pc.WHold? && s.ways[j].pc.e.RelE? && s.ways[j].phaseDone
    requires PositiveRows(s.table) == ExpectedWays(c)
    ensures RowsInv(c, WayWorkStep(c, s, j))
  {
    hide Rows, InsertRow, RowsInv, ExpectedWays, PositiveRows, Owed;
    var e, rows := s.ways[j].pc.e, PositiveRows(s.table);
    RelationRows(c, e);
    hide RowsOf;
    var s1 := s.(seen := s.seen + [(e, rows)]);
    SeenFrame(c, s, s1);
    match (if e.multi then c.relArea(e, rows) else None)
    case None =>
      NothingOwedNow(c, s.ways[j], e);
      RowsFrame(c, s, WayWorkStep(c, s, j), j);
    case Some(g) => InsertRows(c, s1, j, Row(-e.id, true, g));
  }

  lemma RelationRows(c: Config, e: Entry)
    requires Sized(c) && e.RelE?
    ensures RowsOf(c, e) == match (if e.multi then c.relArea(e, ExpectedWays(c)) else None)
                            case None => [] case Some(g) => [Row(-e.id, true, g)]
  {
  }

  lemma NothingOwedNow(c: Config, w: WayThread, e: Entry)
    requires Sized(c) && w.pc == WHold(e) && RowsOf(c, e) == []
    ensures Owed(c, w.(pc := WPop)) == Owed(c, w)
  {
  }

  lemma SeenFrame(c: Config, s: State, s1: State)
    requires Sized(c) && RowsInv(c, s) && s1 == s.(seen := s1.seen)
    ensures RowsInv(c, s1)
  {
  }

  lemma HandleRelationThread(c: Config, s: State, j: nat)
    requires Sized(c) && WellShaped(c, s) && j < c.wayThreads && s.ways[j].phaseDone
    requires s.ways[j].pc.WHold? && s.ways[j].pc.e.RelE?
    requires WayInv(c, s.ways[j], Drained(s), s.popped, s.wayBar.phase)
    ensures s.wayBar.phase == 1 && PastWays(c, s.popped)
    ensures WayInv(c, WayWorkStep(c, s, j).ways[j], Drained(s), s.popped, s.wayBar.phase)
    ensures WayArrived(WayWorkStep(c, s, j).ways[j])
  {
    hide PositiveRows;
  }

  lemma HandleRelationInv(c: Config, s: State, j: nat)
    requires Enabled(c, s, WayWork(j)) && s.ways[j].pc.e.RelE? && s.ways[j].phaseDone && Inv(c, s)
    ensures Inv(c, Next(c, s, WayWork(j)))
  {
    hide RowsInv, NodesInv, NodeBarInv, Rows, RowsOf, ExpectedWays, PositiveRows, Legal, WayInv;
    var s' := WayWorkStep(c, s, j);
    assert WayInv(c, s.ways[j], Drained(s), s.popped, s.wayBar.phase);
    HandleRelationThread(c, s, j);
    AllWaysCommitted(c, s);
    HandleRelationRows(c, s, j);
    WayBarFrame(c, s, s', j);
    WayStepInv(c, s, s', j);
  }

  lemma WayWorkInv(c: Config, s: State, j: nat)
    requires Enabled(c, s, WayWork(j)) && Inv(c, s)
    ensures Inv(c, Next(c, s, WayWork(j)))
  {
    hide RowsInv, NodesInv, NodeBarInv, SeenInv, Rows;
    match s.ways[j].pc.e
    case WayE(_, _, _) => HandleWayInv(c, s, j);
    case RelE(_, _, _) =>
      if s.ways[j].phaseDone {
        HandleRelationInv(c, s, j);
      } else {
        FlushEarlyInv(c, s, j, Some(s.ways[j].pc.e));
      }
    case NodeE(_, _) =>
      var s' := WayWorkStep(c, s, j);
      assert WayInv(c, s.ways[j], Drained(s), s.popped, s.wayBar.phase);
      WayBarFrame(c, s, s', j);
      RowsFrame(c, s, s', j);
      WayStepInv(c, s, s', j);
  }

  // ---- The barrier ----

  lemma WayArriveBar(c: Config, s: State, j: nat)
    requires Sized(c) && WellShaped(c, s) && j < c.wayThreads && s.ways[j].pc.WArrive? && !s.ways[j].phaseDone
    requires WayBarInv(c, s)
    ensures s.wayBar.phase == 0 && WayBarInv(c, WayArriveStep(c, s, j))
  {
    var s', before := WayArriveStep(c, s, j), WaysArrived(s.ways);
    assert !WayArrived(s.ways[j]);
    assert j !in before && WaysArrived(s'.ways) == before + {j};
    if s'.wayBar.phase == 1 {
      SubsetSize(before + {j}, c.wayThreads);
      forall k | 0 <= k < c.wayThreads ensures WayArrived(s'.ways[k]) {
        assert k in WaysArrived(s'.ways);
      }
    }
  }

  lemma ArriveThread(c: Config, w: WayThread, drained: bool, popped: seq<Entry>, phase: nat)
    requires Sized(c) && w.pc.WArrive? && WayInv(c, w, drained, popped, phase)
    ensures !w.phaseDone
    ensures forall later: nat | later >= phase ::
              WayInv(c, w.(pc := WWait(0, w.pc.next)), drained, popped, later)
  {
  }

  lemma WayArriveInv(c: Config, s: State, j: nat)
    requires Enabled(c, s, WayArrive(j)) && Inv(c, s)
    ensures Inv(c, Next(c, s, WayArrive(j)))
  {
    hide RowsInv, NodesInv, NodeBarInv, SeenInv, Rows, RowsOf;
    hide Legal, WayInv, WayBarInv;
    var s' := WayArriveStep(c, s, j);
    assert WayInv(c, s.ways[j], Drained(s), s.popped, s.wayBar.phase);
    ArriveThread(c, s.ways[j], Drained(s), s.popped, s.wayBar.phase);
    WayArriveBar(c, s, j);
    RowsFrame(c, s, s', j);
    WayStepInv(c, s, s', j);
  }

  lemma LeaveThread(c: Config, w: WayThread, drained: bool, popped: seq<Entry>)
    requires Sized(c) && w.pc.WWait? && WayInv(c, w, drained, popped, 1)
    ensures match w.pc.next
            case Some(e) => WayInv(c, w.(pc := WHold(e), phaseDone := true), drained, popped, 1)
            case None => WayInv(c, w.(pc := WFinal), drained, popped, 1)
  {
  }

  lemma WayLeaveInv(c: Config, s: State, j: nat)
    requires Enabled(c, s, WayLeave(j)) && Inv(c, s)
    ensures Inv(c, Next(c, s, WayLeave(j)))
  {
    hide RowsInv, NodesInv, NodeBarInv, SeenInv, Rows, RowsOf, WayInv, Legal;
    var s' := WayLeaveStep(s, j);
    assert WayInv(c, s.ways[j], Drained(s), s.popped, s.wayBar.phase);
    LeaveThread(c, s.ways[j], Drained(s), s.popped);
    WayBarFrame(c, s, s', j);
    RowsFrame(c, s, s', j);
    WayStepInv(c, s, s', j);
  }
}
