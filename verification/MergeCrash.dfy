/** Crashing and restarting during the merge. The mapped store survives a process crash; a shard file is
    deleted only after all its records were written. */
module MergeCrash {
  import opened Basics
  import opened Records

  /** What is on disk, and where the current pass is: shard `at`, with `done` of its records written. */
  datatype Disk = Disk(view: View, shards: seq<Option<seq<Record>>>, at: nat, done: nat)

  /** A crash inside the write of the current record may leave any coordinates for its id. */
  datatype Event = WriteRecord | DeleteShard | SkipShard | Crash | TornWrite(coord: Coord)

  predicate AtRecord(d: Disk) {
    d.at < |d.shards| && d.shards[d.at].Some? && d.done < |d.shards[d.at].value|
  }

  predicate Possible(d: Disk, e: Event) {
    match e
    case WriteRecord => AtRecord(d)
    case DeleteShard => d.at < |d.shards| && d.shards[d.at].Some? && d.done == |d.shards[d.at].value|
    case SkipShard => d.at < |d.shards| && d.shards[d.at].None?
    case Crash => true
    case TornWrite(_) => AtRecord(d)
  }

  function Step(maxId: nat, d: Disk, e: Event): Disk
    requires Possible(d, e)
  {
    match e
    case WriteRecord => d.(view := Put(d.view, maxId, d.shards[d.at].value[d.done]), done := d.done + 1)
    case DeleteShard => d.(shards := d.shards[d.at := None], at := d.at + 1, done := 0)
    case SkipShard => d.(at := d.at + 1, done := 0)
    case Crash => d.(at := 0, done := 0)
    case TornWrite(coord) =>
      d.(view := Put(d.view, maxId, Record(d.shards[d.at].value[d.done].id, coord)), at := 0, done := 0)
  }

  predicate CanHappen(maxId: nat, d: Disk, es: seq<Event>)
    decreases |es|
  {
    es == [] || (Possible(d, es[0]) && CanHappen(maxId, Step(maxId, d, es[0]), es[1..]))
  }

  function Run(maxId: nat, d: Disk, es: seq<Event>): Disk
    requires CanHappen(maxId, d, es)
    decreases |es|
  {
    if es == [] then d else Run(maxId, Step(maxId, d, es[0]), es[1..])
  }

  /** The records of the shard files that still exist. */
  function Remaining(shards: seq<Option<seq<Record>>>): seq<Record> {
    if shards == [] then [] else (match shards[0] case Some(rs) => rs case None => []) + Remaining(shards[1..])
  }

  /** The store an uninterrupted pass over the files on disk would end with. */
  function Outcome(maxId: nat, d: Disk): View {
    ApplyAll(d.view, maxId, Remaining(d.shards))
  }

  /** The shards before `at` are gone, and the store already holds what the current pass has written. */
  ghost predicate Consistent(maxId: nat, d: Disk) {
    && d.at <= |d.shards| && (forall i | 0 <= i < d.at :: d.shards[i].None?)
    && (d.at == |d.shards| || d.shards[d.at].None? ==> d.done == 0)
    && (d.at < |d.shards| && d.shards[d.at].Some? ==>
          d.done <= |d.shards[d.at].value|
          && d.view + Overlay(maxId, d.shards[d.at].value[..d.done]) == d.view)
  }

  /** What is written for an id that is going to be written again changes nothing in the end. */
  lemma RewriteAbsorbed(v: View, maxId: nat, r: Record, rs: seq<Record>, coord: Coord)
    requires r in rs
    ensures ApplyAll(Put(v, maxId, Record(r.id, coord)), maxId, rs) == ApplyAll(v, maxId, rs)
  {
    ApplyIsOverlay(Put(v, maxId, Record(r.id, coord)), maxId, rs);
    ApplyIsOverlay(v, maxId, rs);
    OverlayAt(maxId, rs, r.id);
  }

  lemma {:induction false} RemainingHas(shards: seq<Option<seq<Record>>>, i: nat, k: nat)
    requires i < |shards| && shards[i].Some? && k < |shards[i].value|
    ensures shards[i].value[k] in Remaining(shards)
  {
    if i > 0 {
      RemainingHas(shards[1..], i - 1, k);
    }
  }

  lemma {:induction false} RemainingFrom(shards: seq<Option<seq<Record>>>, at: nat)
    requires at < |shards| && (forall i | 0 <= i < at :: shards[i].None?) && shards[at].Some?
    ensures Remaining(shards) == shards[at].value + Remaining(shards[at := None])
  {
    if at == 0 {
      assert shards[0 := None][1..] == shards[1..];
    } else {
      RemainingFrom(shards[1..], at - 1);
      assert shards[at := None][1..] == shards[1..][at - 1 := None];
    }
  }

  lemma WriteStep(maxId: nat, d: Disk)
    requires Consistent(maxId, d) && Possible(d, WriteRecord)
    ensures Consistent(maxId, Step(maxId, d, WriteRecord))
    ensures Outcome(maxId, Step(maxId, d, WriteRecord)) == Outcome(maxId, d)
  {
    var rs := d.shards[d.at].value;
    var r := rs[d.done];
    RemainingHas(d.shards, d.at, d.done);
    RewriteAbsorbed(d.view, maxId, r, Remaining(d.shards), r.coord);
    assert rs[..d.done + 1] == rs[..d.done] + [r];
    ApplyAppend(map[], maxId, rs[..d.done], [r]);
    var v, o := d.view, Overlay(maxId, rs[..d.done]);
    assert Overlay(maxId, rs[..d.done + 1]) == Put(o, maxId, r);
    assert Put(v, maxId, r) + Put(o, maxId, r) == Put(v + o, maxId, r);
  }

  lemma DeleteStep(maxId: nat, d: Disk)
    requires Consistent(maxId, d) && Possible(d, DeleteShard)
    ensures Consistent(maxId, Step(maxId, d, DeleteShard))
    ensures Outcome(maxId, Step(maxId, d, DeleteShard)) == Outcome(maxId, d)
  {
    var rs := d.shards[d.at].value;
    assert rs[..d.done] == rs;
    RemainingFrom(d.shards, d.at);
    ApplyAppend(d.view, maxId, rs, Remaining(d.shards[d.at := None]));
    ApplyIsOverlay(d.view, maxId, rs);
    var d' := Step(maxId, d, DeleteShard);
    if d'.at < |d'.shards| && d'.shards[d'.at].Some? {
      assert d'.shards[d'.at].value[..0] == [];
    }
  }

  /** No event, a crash included, changes the store the merge will end with. */
  lemma StepKeepsOutcome(maxId: nat, d: Disk, e: Event)
    requires Consistent(maxId, d) && Possible(d, e)
    ensures Consistent(maxId, Step(maxId, d, e))
    ensures Outcome(maxId, Step(maxId, d, e)) == Outcome(maxId, d)
  {
    var d' := Step(maxId, d, e);
    if (e.SkipShard? || e.Crash? || e.TornWrite?) && d'.at < |d'.shards| && d'.shards[d'.at].Some? {
      assert d'.shards[d'.at].value[..0] == [];
    }
    match e
    case WriteRecord => WriteStep(maxId, d);
    case DeleteShard => DeleteStep(maxId, d);
    case SkipShard =>
    case Crash =>
    case TornWrite(coord) =>
      RemainingHas(d.shards, d.at, d.done);
      RewriteAbsorbed(d.view, maxId, d.shards[d.at].value[d.done], Remaining(d.shards), coord);
  }

  lemma {:induction false} AllGone(shards: seq<Option<seq<Record>>>)
    requires forall i | 0 <= i < |shards| :: shards[i].None?
    ensures Remaining(shards) == []
  {
    if shards != [] {
      AllGone(shards[1..]);
    }
  }

  lemma {:induction false} RunKeepsOutcome(maxId: nat, d: Disk, es: seq<Event>)
    requires Consistent(maxId, d) && CanHappen(maxId, d, es)
    ensures Consistent(maxId, Run(maxId, d, es))
    ensures Outcome(maxId, Run(maxId, d, es)) == Outcome(maxId, d)
    decreases |es|
  {
    if es != [] {
      StepKeepsOutcome(maxId, d, es[0]);
      RunKeepsOutcome(maxId, Step(maxId, d, es[0]), es[1..]);
    }
  }

  /** However often the process crashes, a merge that reaches the end leaves the store of one
      uninterrupted merge of the complete shard files. */
  lemma CrashesDoNotMatter(maxId: nat, view: View, shards: seq<Option<seq<Record>>>, es: seq<Event>)
    requires CanHappen(maxId, Disk(view, shards, 0, 0), es)
    requires Run(maxId, Disk(view, shards, 0, 0), es).at == |shards|
    ensures Run(maxId, Disk(view, shards, 0, 0), es).view == ApplyAll(view, maxId, Remaining(shards))
  {
    var d := Disk(view, shards, 0, 0);
    if |shards| > 0 && shards[0].Some? {
      assert shards[0].value[..0] == [];
    }
    RunKeepsOutcome(maxId, d, es);
    SameLength(maxId, d, es);
    AllGone(Run(maxId, d, es).shards);
  }

  lemma {:induction false} SameLength(maxId: nat, d: Disk, es: seq<Event>)
    requires CanHappen(maxId, d, es)
    ensures |Run(maxId, d, es).shards| == |d.shards|
    decreases |es|
  {
    if es != [] {
      SameLength(maxId, Step(maxId, d, es[0]), es[1..]);
    }
  }
}
