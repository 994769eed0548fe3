/** The producer's reading loop and the offsets that let a later run start in the middle of the file. */
module Resume {
  import opened Basics
  import opened Pipeline

  /** A blob of the file; `data` is None for header and empty blobs, which the reader skips. */
  datatype Blob = Blob(size: nat, data: Option<seq<Entry>>)

  predicate WellFormed(blobs: seq<Blob>) {
    forall i | 0 <= i < |blobs| :: blobs[i].size > 0
  }

  /** The byte offset at which blob i starts. */
  function Start(blobs: seq<Blob>, i: nat): nat
    requires i <= |blobs|
  {
    if i == 0 then 0 else Start(blobs, i - 1) + blobs[i - 1].size
  }

  lemma {:induction false} StartGrows(blobs: seq<Blob>, i: nat, j: nat)
    requires WellFormed(blobs) && i < j <= |blobs|
    ensures Start(blobs, i) < Start(blobs, j)
  {
    if i < j - 1 {
      StartGrows(blobs, i, j - 1);
    }
  }

  /** The blob that starts at an offset. */
  function BlobAt(blobs: seq<Blob>, offset: nat, i: nat): (k: nat)
    requires i <= |blobs|
    ensures i <= k <= |blobs|
    decreases |blobs| - i
  {
    if i == |blobs| || Start(blobs, i) == offset then i else BlobAt(blobs, offset, i + 1)
  }

  lemma {:induction false} BlobAtStart(blobs: seq<Blob>, i: nat, from: nat)
    requires WellFormed(blobs) && from <= i <= |blobs|
    ensures BlobAt(blobs, Start(blobs, i), from) == i
    decreases i - from
  {
    if from < i {
      StartGrows(blobs, from, i);
      BlobAtStart(blobs, i, from + 1);
    }
  }

  // ---- OSMReader ----

  /** The next blob with data, at or after i. */
  function NextData(blobs: seq<Blob>, i: nat): (d: nat)
    requires i <= |blobs|
    ensures i <= d <= |blobs| && (d < |blobs| ==> blobs[d].data.Some?)
    ensures forall k | i <= k < d :: blobs[k].data.None?
    decreases |blobs| - i
  {
    if i == |blobs| || blobs[i].data.Some? then i else NextData(blobs, i + 1)
  }

  class OSMReader {
    const blobs: seq<Blob>
    /** The file position, counted in blobs. */
    var at: nat

    ghost predicate Valid()
      reads this
    {
      at <= |blobs| && WellFormed(blobs)
    }

    constructor (blobs: seq<Blob>)
      requires WellFormed(blobs)
      ensures Valid() && at == 0 && this.blobs == blobs
    {
      this.blobs, at := blobs, 0;
    }

    function GetPosition(): nat
      requires Valid()
      reads this
    {
      Start(blobs, at)
    }

    /** Returns to the position at which getPosition returned the offset; at the end for other offsets. */
    method SeekTo(offset: nat)
      requires Valid()
      modifies this`at
      ensures Valid() && at == BlobAt(blobs, offset, 0)
      ensures (exists i: nat :: i <= |blobs| && Start(blobs, i) == offset) ==> GetPosition() == offset
    {
      if i: nat :| i <= |blobs| && Start(blobs, i) == offset {
        BlobAtStart(blobs, i, 0);
      }
      at := BlobAt(blobs, offset, 0);
    }

    method Next() returns (batch: Option<seq<Entry>>)
      requires Valid()
      modifies this`at
      ensures Valid()
      ensures var d := NextData(blobs, old(at));
              if d == |blobs| then batch == None && at == d else batch == blobs[d].data && at == d + 1
    {
      while at < |blobs|
        invariant Valid() && NextData(blobs, at) == NextData(blobs, old(at))
      {
        at := at + 1;
        if blobs[at - 1].data.Some? {
          return blobs[at - 1].data;
        }
      }
      return None;
    }
  }

  // ---- The producer ----

  datatype Phase = Nodes | Merging | Ways | Relations

  /** The two offset files. */
  datatype Saved = Saved(nodes: Option<nat>, relations: Option<nat>)

  /** The producer's flags, what it pushed to the node queues and to the way queue, and the offset files. */
  datatype Producer = Producer(nodePhase: bool, toNodes: seq<Entry>, toWays: seq<Entry>, saved: Saved, relWritten: bool)

  function StartOffset(phase: Phase, saved: Saved): Option<nat> {
    match phase
    case Nodes => None
    case Relations => if saved.relations.Some? then saved.relations else saved.nodes
    case _ => saved.nodes
  }

  /** The body of the loop over a batch. */
  function Push(phase: Phase, p: Producer, e: Entry, blobStart: nat): Producer {
    if p.nodePhase && e.NodeE? then
      if phase.Merging? then p else p.(toNodes := p.toNodes + [e])
    else
      var q := if p.nodePhase then p.(nodePhase := false, saved := p.saved.(nodes := Some(blobStart))) else p;
      if phase.Relations? && e.WayE? then q
      else
        var r := if e.RelE? && !q.relWritten
                 then q.(saved := q.saved.(relations := Some(blobStart)), relWritten := true) else q;
        r.(toWays := r.toWays + [e])
  }

  function PushAll(phase: Phase, p: Producer, es: seq<Entry>, blobStart: nat): Producer
    decreases |es|
  {
    if es == [] then p else PushAll(phase, Push(phase, p, es[0], blobStart), es[1..], blobStart)
  }

  function RunFrom(phase: Phase, p: Producer, blobs: seq<Blob>, i: nat): Producer
    requires i <= |blobs|
    decreases |blobs| - i
  {
    var d := NextData(blobs, i);
    if d == |blobs| then p
    else RunFrom(phase, PushAll(phase, p, blobs[d].data.value, Start(blobs, i)), blobs, d + 1)
  }

  function FirstBlob(phase: Phase, blobs: seq<Blob>, saved: Saved): (i: nat)
    ensures i <= |blobs|
  {
    match StartOffset(phase, saved)
    case Some(offset) => BlobAt(blobs, offset, 0)
    case None => 0
  }

  function Fresh(phase: Phase, saved: Saved): Producer {
    Producer(phase.Nodes? || phase.Merging?, [], [], saved, false)
  }

  function RunProducer(phase: Phase, blobs: seq<Blob>, saved: Saved): Producer {
    RunFrom(phase, Fresh(phase, saved), blobs, FirstBlob(phase, blobs, saved))
  }

  method PushBatch(phase: Phase, before: Producer, es: seq<Entry>, blobStart: nat) returns (p: Producer)
    ensures p == PushAll(phase, before, es, blobStart)
  {
    hide Push;
    p := before;
    for k := 0 to |es|
      invariant PushAll(phase, p, es[k..], blobStart) == PushAll(phase, before, es, blobStart)
    {
      assert es[k..][1..] == es[k + 1..];
      p := Push(phase, p, es[k], blobStart);
    }
  }

  lemma RunStep(phase: Phase, p: Producer, blobs: seq<Blob>, i: nat)
    requires i <= |blobs|
    ensures var d := NextData(blobs, i);
            RunFrom(phase, p, blobs, i)
            == if d == |blobs| then p
               else RunFrom(phase, PushAll(phase, p, blobs[d].data.value, Start(blobs, i)), blobs, d + 1)
  {
  }

  method Produce(phase: Phase, blobs: seq<Blob>, saved: Saved) returns (p: Producer)
    requires WellFormed(blobs)
    ensures p == RunProducer(phase, blobs, saved)
  {
    hide Push, PushAll, NextData, Start, BlobAt, RunFrom;
    var reader := new OSMReader(blobs);
    p := Fresh(phase, saved);
    var offset := StartOffset(phase, saved);
    if offset.Some? {
      reader.SeekTo(offset.value);
    }
    var blobStart := reader.GetPosition();
    ghost var i := reader.at;
    var batch := reader.Next();
    while batch.Some?
      invariant reader.Valid() && reader.blobs == blobs && i <= |blobs| && blobStart == Start(blobs, i)
      invariant var d := NextData(blobs, i);
                if d == |blobs| then batch == None && reader.at == d
                else batch == blobs[d].data && reader.at == d + 1
      invariant RunFrom(phase, p, blobs, i) == RunProducer(phase, blobs, saved)
      decreases |blobs| - i
    {
      RunStep(phase, p, blobs, i);
      p := PushBatch(phase, p, batch.value, blobStart);
      blobStart := reader.GetPosition();
      i := reader.at;
      batch := reader.Next();
    }
    RunStep(phase, p, blobs, i);
  }

  // ---- What the way threads get ----

  /** Ways and relations; the way threads ignore nodes. */
  function NonNodes(es: seq<Entry>): seq<Entry> {
    if es == [] then [] else (if es[0].NodeE? then [] else [es[0]]) + NonNodes(es[1..])
  }

  function RelationsIn(es: seq<Entry>): seq<Entry> {
    if es == [] then [] else (if es[0].RelE? then [es[0]] else []) + RelationsIn(es[1..])
  }

  /** All entries from blob i on. */
  function Flat(blobs: seq<Blob>, i: nat): seq<Entry>
    requires i <= |blobs|
    decreases |blobs| - i
  {
    if i == |blobs| then []
    else (match blobs[i].data case Some(es) => es case None => []) + Flat(blobs, i + 1)
  }

  lemma {:induction false} NonNodesSplit(a: seq<Entry>, b: seq<Entry>)
    ensures NonNodes(a + b) == NonNodes(a) + NonNodes(b)
  {
    if a == [] {
      assert a + b == b;
    } else {
      assert (a + b)[1..] == a[1..] + b;
      NonNodesSplit(a[1..], b);
    }
  }

  lemma {:induction false} RelationsSplit(a: seq<Entry>, b: seq<Entry>)
    ensures RelationsIn(a + b) == RelationsIn(a) + RelationsIn(b)
  {
    if a == [] {
      assert a + b == b;
    } else {
      assert (a + b)[1..] == a[1..] + b;
      RelationsSplit(a[1..], b);
    }
  }

  lemma NonNodesAppend(a: seq<Entry>, b: seq<Entry>)
    ensures NonNodes(a + b) == NonNodes(a) + NonNodes(b) && RelationsIn(a + b) == RelationsIn(a) + RelationsIn(b)
  {
    NonNodesSplit(a, b);
    RelationsSplit(a, b);
  }

  lemma {:induction false} RelationsOfNonNodes(es: seq<Entry>)
    ensures RelationsIn(NonNodes(es)) == RelationsIn(es) && NonNodes(RelationsIn(es)) == RelationsIn(es)
  {
    if es != [] {
      var e, rest := es[0], es[1..];
      RelationsOfNonNodes(rest);
      assert RelationsIn([e]) == if e.RelE? then [e] else [];
      assert NonNodes([e]) == if e.NodeE? then [] else [e];
      NonNodesAppend([e], NonNodes(rest));
      NonNodesAppend([e], RelationsIn(rest));
      assert NonNodes(es) == if e.NodeE? then NonNodes(rest) else [e] + NonNodes(rest);
      assert RelationsIn(es) == if e.RelE? then [e] + RelationsIn(rest) else RelationsIn(rest);
    }
  }

  /** What reaches the way threads of the entries `es`. */
  function Fed(phase: Phase, es: seq<Entry>): seq<Entry> {
    if phase.Relations? then RelationsIn(es) else NonNodes(es)
  }

  lemma FedAppend(phase: Phase, a: seq<Entry>, b: seq<Entry>)
    ensures Fed(phase, a + b) == Fed(phase, a) + Fed(phase, b) && Fed(phase, []) == []
  {
    NonNodesAppend(a, b);
  }

  lemma PushFeeds(phase: Phase, p: Producer, e: Entry, blobStart: nat)
    ensures NonNodes(Push(phase, p, e, blobStart).toWays) == NonNodes(p.toWays) + Fed(phase, [e])
  {
    NonNodesSplit(p.toWays, [e]);
    assert NonNodes([e]) == if e.NodeE? then [] else [e];
    assert RelationsIn([e]) == if e.RelE? then [e] else [];
  }

  lemma {:induction false} PushAllFeeds(phase: Phase, p: Producer, es: seq<Entry>, blobStart: nat)
    ensures NonNodes(PushAll(phase, p, es, blobStart).toWays) == NonNodes(p.toWays) + Fed(phase, es)
    decreases |es|
  {
    hide Push, Fed, NonNodes;
    if es == [] {
      FedAppend(phase, [], []);
      assert NonNodes(p.toWays) + [] == NonNodes(p.toWays);
    } else {
      var q := Push(phase, p, es[0], blobStart);
      PushFeeds(phase, p, es[0], blobStart);
      PushAllFeeds(phase, q, es[1..], blobStart);
      assert es == [es[0]] + es[1..];
      FedAppend(phase, [es[0]], es[1..]);
    }
  }

  lemma {:induction false} FlatSkips(blobs: seq<Blob>, i: nat)
    requires i <= |blobs|
    ensures var d := NextData(blobs, i);
            Flat(blobs, i) == if d == |blobs| then [] else blobs[d].data.value + Flat(blobs, d + 1)
    decreases |blobs| - i
  {
    if i < |blobs| && blobs[i].data.None? {
      FlatSkips(blobs, i + 1);
    }
  }

  /** A run feeds the way threads everything from its first blob on, in file order. */
  lemma {:induction false} RunFeeds(phase: Phase, p: Producer, blobs: seq<Blob>, i: nat)
    requires i <= |blobs|
    ensures NonNodes(RunFrom(phase, p, blobs, i).toWays) == NonNodes(p.toWays) + Fed(phase, Flat(blobs, i))
    decreases |blobs| - i
  {
    hide NextData, Flat, Fed, PushAll, NonNodes, Start;
    var d := NextData(blobs, i);
    FlatSkips(blobs, i);
    FedAppend(phase, [], []);
    if d < |blobs| {
      var es := blobs[d].data.value;
      PushAllFeeds(phase, p, es, Start(blobs, i));
      RunFeeds(phase, PushAll(phase, p, es, Start(blobs, i)), blobs, d + 1);
      FedAppend(phase, es, Flat(blobs, d + 1));
    }
  }

  /** The entries that are not nodes, by position... */
  ghost function NonNodesAt(es: seq<Entry>): map<nat, Entry> {
    map i: nat | i < |es| && !es[i].NodeE? :: es[i]
  }

  /** ...the relations... */
  ghost function RelationsAt(es: seq<Entry>): map<nat, Entry> {
    map i: nat | i < |es| && es[i].RelE? :: es[i]
  }

  /** ...and the entries that are not ways. */
  ghost function NonWaysAt(es: seq<Entry>): map<nat, Entry> {
    map i: nat | i < |es| && !es[i].WayE? :: es[i]
  }

  lemma {:induction false} NonNodesListed(es: seq<Entry>)
    ensures Listed(NonNodes(es), NonNodesAt(es))
  {
    hide Listed;
    if es == [] {
      ListedNone(NonNodesAt(es));
    } else {
      NonNodesListed(es[1..]);
      ListedCons(if es[0].NodeE? then None else Some(es[0]), NonNodes(es[1..]), NonNodesAt(es[1..]), NonNodesAt(es));
    }
  }

  lemma {:induction false} RelationsListed(es: seq<Entry>)
    ensures Listed(RelationsIn(es), RelationsAt(es))
  {
    hide Listed;
    if es == [] {
      ListedNone(RelationsAt(es));
    } else {
      RelationsListed(es[1..]);
      var first := if es[0].RelE? then Some(es[0]) else None;
      ListedCons(first, RelationsIn(es[1..]), RelationsAt(es[1..]), RelationsAt(es));
    }
  }

  // ---- What is pushed to which queue ----

  /** The producers differ in their offsets at most. */
  predicate SamePushes(p: Producer, q: Producer) {
    p.nodePhase == q.nodePhase && p.toNodes == q.toNodes && p.toWays == q.toWays
  }

  /** What is pushed does not depend on where a blob starts. */
  lemma {:induction false} PushAllSame(phase: Phase, p: Producer, q: Producer, es: seq<Entry>, s: nat, t: nat)
    requires SamePushes(p, q)
    ensures SamePushes(PushAll(phase, p, es, s), PushAll(phase, q, es, t))
    decreases |es|
  {
    if es != [] {
      PushAllSame(phase, Push(phase, p, es[0], s), Push(phase, q, es[0], t), es[1..], s, t);
    }
  }

  lemma {:induction false} PushAllAppend(phase: Phase, p: Producer, a: seq<Entry>, b: seq<Entry>, s: nat)
    ensures PushAll(phase, p, a + b, s) == PushAll(phase, PushAll(phase, p, a, s), b, s)
    decreases |a|
  {
    hide Push;
    if a == [] {
      assert a + b == b;
    } else {
      assert (a + b)[1..] == a[1..] + b;
      PushAllAppend(phase, Push(phase, p, a[0], s), a[1..], b, s);
    }
  }

  /** A run pushes what a loop over all entries from its first blob on would push. */
  lemma {:induction false} RunPushesFlat(phase: Phase, p: Producer, blobs: seq<Blob>, i: nat)
    requires i <= |blobs|
    ensures SamePushes(RunFrom(phase, p, blobs, i), PushAll(phase, p, Flat(blobs, i), 0))
    decreases |blobs| - i
  {
    hide NextData, Flat, PushAll, Start;
    var d := NextData(blobs, i);
    FlatSkips(blobs, i);
    if d == |blobs| {
      NothingPushed(phase, p);
    } else {
      var es := blobs[d].data.value;
      var q := PushAll(phase, p, es, Start(blobs, i));
      RunPushesFlat(phase, q, blobs, d + 1);
      PushAllSame(phase, p, p, es, Start(blobs, i), 0);
      PushAllSame(phase, q, PushAll(phase, p, es, 0), Flat(blobs, d + 1), 0, 0);
      PushAllAppend(phase, p, es, Flat(blobs, d + 1), 0);
    }
  }

  lemma NothingPushed(phase: Phase, p: Producer)
    ensures PushAll(phase, p, [], 0) == p
  {
  }

  lemma PushPastNodes(phase: Phase, p: Producer, e: Entry) returns (first: Option<Entry>)
    requires !p.nodePhase
    ensures first == if phase.Relations? && e.WayE? then None else Some(e)
    ensures var q := Push(phase, p, e, 0);
            !q.nodePhase && q.toNodes == p.toNodes && q.toWays == p.toWays + Present(first)
  {
    first := if phase.Relations? && e.WayE? then None else Some(e);
  }

  /** Past the nodes everything goes to the way queue, except for ways when resuming at relations. */
  lemma {:induction false} PushedPastNodes(phase: Phase, p: Producer, es: seq<Entry>) returns (ways: seq<Entry>)
    requires !p.nodePhase
    ensures var q := PushAll(phase, p, es, 0); q.toNodes == p.toNodes && q.toWays == p.toWays + ways
    ensures if phase.Relations? then Listed(ways, NonWaysAt(es)) else ways == es
    decreases |es|
  {
    hide Listed, NonWaysAt, Prepends;
    if es == [] {
      ways := [];
      NoNonWays();
    } else {
      hide Push;
      var q := Push(phase, p, es[0], 0);
      var first := PushPastNodes(phase, p, es[0]);
      var rest := PushedPastNodes(phase, q, es[1..]);
      ways := Present(first) + rest;
      Join3(p.toWays, Present(first), rest);
      if phase.Relations? {
        NonWaysShift(es);
        ListedCons(first, rest, NonWaysAt(es[1..]), NonWaysAt(es));
      } else {
        assert es == [es[0]] + es[1..];
      }
    }
  }

  lemma Join3(a: seq<Entry>, b: seq<Entry>, d: seq<Entry>)
    ensures a + (b + d) == a + b + d
  {
  }

  lemma NoNonWays()
    ensures Listed([], NonWaysAt([]))
  {
    ListedNone(NonWaysAt([]));
  }

  lemma NonWaysShift(es: seq<Entry>)
    requires es != []
    ensures Prepends(if es[0].WayE? then None else Some(es[0]), NonWaysAt(es[1..]), NonWaysAt(es))
  {
  }

  /** Before that, nodes go to the node queues, or nowhere when resuming at the merge. */
  lemma {:induction false} PushedFromNodes(phase: Phase, p: Producer, es: seq<Entry>)
    returns (nodes: seq<Entry>, ways: seq<Entry>)
    requires p.nodePhase && !phase.Relations?
    ensures var q := PushAll(phase, p, es, 0);
            && q.toNodes == p.toNodes + (if phase.Merging? then [] else nodes) && q.toWays == p.toWays + ways
    ensures es == nodes + ways && (forall e | e in nodes :: e.NodeE?) && (ways != [] ==> !ways[0].NodeE?)
    decreases |es|
  {
    if es == [] {
      nodes, ways := [], [];
    } else if es[0].NodeE? {
      var q := Push(phase, p, es[0], 0);
      assert q.toNodes == p.toNodes + (if phase.Merging? then [] else [es[0]]) && q.toWays == p.toWays;
      hide Push;
      var rest;
      rest, ways := PushedFromNodes(phase, q, es[1..]);
      nodes := [es[0]] + rest;
      Join3(p.toNodes, [es[0]], rest);
      Join3([es[0]], rest, ways);
      assert es == [es[0]] + es[1..];
    } else {
      nodes := [];
      FirstNonNode(phase, p, es[0]);
      hide Push;
      var rest := PushedPastNodes(phase, Push(phase, p, es[0], 0), es[1..]);
      ways := [es[0]] + rest;
      Join3(p.toWays, [es[0]], rest);
      assert es == [es[0]] + es[1..] && [] + ways == ways && p.toNodes + [] == p.toNodes;
    }
  }

  lemma FirstNonNode(phase: Phase, p: Producer, e: Entry)
    requires p.nodePhase && !phase.Relations? && !e.NodeE?
    ensures var q := Push(phase, p, e, 0); !q.nodePhase && q.toNodes == p.toNodes && q.toWays == p.toWays + [e]
  {
  }

  // ---- The offsets ----

  predicate Target(relation: bool, e: Entry) {
    if relation then e.RelE? else !e.NodeE?
  }

  /** The loop position at which a run from i on meets the first target entry. */
  function FirstWith(relation: bool, blobs: seq<Blob>, i: nat): (r: Option<nat>)
    requires i <= |blobs|
    ensures r.Some? ==> i <= r.value < |blobs|
    decreases |blobs| - i
  {
    var d := NextData(blobs, i);
    if d == |blobs| then None
    else if exists e :: e in blobs[d].data.value && Target(relation, e) then Some(i)
    else FirstWith(relation, blobs, d + 1)
  }

  /** The position of a blob is that of the first blob with a target, or of the skipped blobs before it. */
  lemma {:induction false} FirstWithExactly(relation: bool, blobs: seq<Blob>, i: nat)
    requires i <= |blobs|
    ensures match FirstWith(relation, blobs, i)
            case None =>
              forall d, e | i <= d < |blobs| && blobs[d].data.Some? && e in blobs[d].data.value :: !Target(relation, e)
            case Some(k) =>
              var d := NextData(blobs, k);
              && d < |blobs| && (exists e :: e in blobs[d].data.value && Target(relation, e))
              && forall b, e | i <= b < d && blobs[b].data.Some? && e in blobs[b].data.value :: !Target(relation, e)
    decreases |blobs| - i
  {
    hide Target, NextData;
    var d := NextData(blobs, i);
    if d < |blobs| && !exists e :: e in blobs[d].data.value && Target(relation, e) {
      FirstWithExactly(relation, blobs, d + 1);
    }
  }

  function OffsetOf(blobs: seq<Blob>, i: Option<nat>): Option<nat>
    requires i.Some? ==> i.value <= |blobs|
  {
    match i case Some(k) => Some(Start(blobs, k)) case None => None
  }

  lemma {:induction false} NoTargetNoFeed(es: seq<Entry>)
    ensures (forall e | e in es :: e.NodeE?) ==> NonNodes(es) == []
    ensures (forall e | e in es :: !e.RelE?) ==> RelationsIn(es) == []
  {
    if es != [] {
      assert forall e :: e in es <==> e == es[0] || e in es[1..];
      NoTargetNoFeed(es[1..]);
    }
  }

  /** Nothing relevant comes before the saved position, and a run from there saves the same position. */
  lemma {:induction false} FirstWithSkips(relation: bool, blobs: seq<Blob>, i: nat)
    requires i <= |blobs| && FirstWith(relation, blobs, i).Some?
    ensures var k := FirstWith(relation, blobs, i).value;
            && FirstWith(relation, blobs, k) == Some(k)
            && FirstWith(true, blobs, i) == FirstWith(true, blobs, k)
            && RelationsIn(Flat(blobs, i)) == RelationsIn(Flat(blobs, k))
            && (!relation ==> NonNodes(Flat(blobs, i)) == NonNodes(Flat(blobs, k)))
    decreases |blobs| - i
  {
    hide NextData, Flat, NonNodes, RelationsIn;
    var d := NextData(blobs, i);
    FlatSkips(blobs, i);
    var es := blobs[d].data.value;
    if !exists e :: e in es && Target(relation, e) {
      NoTargetNoFeed(es);
      NonNodesAppend(es, Flat(blobs, d + 1));
      FirstWithSkips(relation, blobs, d + 1);
    }
  }

  lemma {:induction false} NoneMeansNoFeed(relation: bool, blobs: seq<Blob>, i: nat)
    requires i <= |blobs| && FirstWith(relation, blobs, i).None?
    ensures RelationsIn(Flat(blobs, i)) == [] && FirstWith(true, blobs, i).None?
    decreases |blobs| - i
  {
    var d := NextData(blobs, i);
    FlatSkips(blobs, i);
    if d < |blobs| {
      NoTargetNoFeed(blobs[d].data.value);
      NonNodesAppend(blobs[d].data.value, Flat(blobs, d + 1));
      NoneMeansNoFeed(relation, blobs, d + 1);
    }
  }

  lemma {:induction false} PushAllSaves(phase: Phase, p: Producer, es: seq<Entry>, blobStart: nat)
    ensures var q := PushAll(phase, p, es, blobStart);
            && q.nodePhase == (p.nodePhase && forall e | e in es :: e.NodeE?)
            && q.relWritten == (p.relWritten || exists e :: e in es && e.RelE?)
            && q.saved.nodes == (if q.nodePhase == p.nodePhase then p.saved.nodes else Some(blobStart))
            && q.saved.relations == (if q.relWritten == p.relWritten then p.saved.relations else Some(blobStart))
    decreases |es|
  {
    if es != [] {
      assert forall e :: e in es <==> e == es[0] || e in es[1..];
      PushAllSaves(phase, Push(phase, p, es[0], blobStart), es[1..], blobStart);
    }
  }

  /** The offsets a run leaves behind. */
  lemma {:induction false} RunSaves(phase: Phase, p: Producer, blobs: seq<Blob>, i: nat)
    requires i <= |blobs|
    ensures var q := RunFrom(phase, p, blobs, i);
            && q.saved.nodes == (if p.nodePhase && FirstWith(false, blobs, i).Some?
                                 then OffsetOf(blobs, FirstWith(false, blobs, i)) else p.saved.nodes)
            && q.saved.relations == (if !p.relWritten && FirstWith(true, blobs, i).Some?
                                     then OffsetOf(blobs, FirstWith(true, blobs, i)) else p.saved.relations)
    decreases |blobs| - i
  {
    hide NextData, PushAll, Start;
    var d := NextData(blobs, i);
    if d < |blobs| {
      var es := blobs[d].data.value;
      PushAllSaves(phase, p, es, Start(blobs, i));
      RunSaves(phase, PushAll(phase, p, es, Start(blobs, i)), blobs, d + 1);
      assert (exists e :: e in es && Target(false, e)) <==> !forall e | e in es :: e.NodeE?;
      assert (exists e :: e in es && Target(true, e)) <==> exists e :: e in es && e.RelE?;
    }
  }

  // ---- Interrupted runs ----

  /** A run that is interrupted after n entries; with n large enough, the whole run. */
  function RunPart(phase: Phase, p: Producer, blobs: seq<Blob>, i: nat, n: nat): Producer
    requires i <= |blobs|
    decreases |blobs| - i
  {
    var d := NextData(blobs, i);
    if d == |blobs| then p
    else
      var es := blobs[d].data.value;
      if n < |es| then PushAll(phase, p, es[..n], Start(blobs, i))
      else RunPart(phase, PushAll(phase, p, es, Start(blobs, i)), blobs, d + 1, n - |es|)
  }

  function Entries(blobs: seq<Blob>, i: nat): nat
    requires i <= |blobs|
    decreases |blobs| - i
  {
    var d := NextData(blobs, i);
    if d == |blobs| then 0 else |blobs[d].data.value| + Entries(blobs, d + 1)
  }

  lemma {:induction false} RunPartWhole(phase: Phase, p: Producer, blobs: seq<Blob>, i: nat, n: nat)
    requires i <= |blobs| && n >= Entries(blobs, i)
    ensures RunPart(phase, p, blobs, i, n) == RunFrom(phase, p, blobs, i)
    decreases |blobs| - i
  {
    hide NextData, PushAll, Start;
    var d := NextData(blobs, i);
    if d < |blobs| {
      var es := blobs[d].data.value;
      RunPartWhole(phase, PushAll(phase, p, es, Start(blobs, i)), blobs, d + 1, n - |es|);
    }
  }

  /** The offset files of a full run from blob i on, while it is under way: none yet, that of the first
      non-node, or both. */
  predicate Underway(p: Producer, blobs: seq<Blob>, i: nat, saved: Saved)
    requires i <= |blobs|
  {
    var n, r := OffsetOf(blobs, FirstWith(false, blobs, i)), OffsetOf(blobs, FirstWith(true, blobs, i));
    && (saved.nodes == p.saved.nodes || (p.nodePhase && n.Some? && saved.nodes == n))
    && (saved.relations == p.saved.relations
        || (!p.relWritten && r.Some? && saved.relations == r && (p.nodePhase ==> saved.nodes == n)))
  }

  lemma TargetsOf(es: seq<Entry>)
    ensures (exists e :: e in es && Target(false, e)) <==> !forall e | e in es :: e.NodeE?
    ensures (exists e :: e in es && Target(true, e)) <==> exists e :: e in es && e.RelE?
  {
  }

  lemma StopsUnderway(phase: Phase, p: Producer, blobs: seq<Blob>, i: nat, es: seq<Entry>)
    requires i <= |blobs| && NextData(blobs, i) < |blobs| && es <= blobs[NextData(blobs, i)].data.value
    ensures Underway(p, blobs, i, PushAll(phase, p, es, Start(blobs, i)).saved)
  {
    hide NextData, PushAll, Start;
    var all := blobs[NextData(blobs, i)].data.value;
    TargetsOf(all);
    PushAllSaves(phase, p, es, Start(blobs, i));
    assert forall e | e in es :: e in all;
  }

  lemma StaysUnderway(phase: Phase, p: Producer, blobs: seq<Blob>, i: nat, saved: Saved)
    requires i <= |blobs| && NextData(blobs, i) < |blobs|
    requires var d := NextData(blobs, i);
             Underway(PushAll(phase, p, blobs[d].data.value, Start(blobs, i)), blobs, d + 1, saved)
    ensures Underway(p, blobs, i, saved)
  {
    hide NextData, PushAll, Start;
    var es := blobs[NextData(blobs, i)].data.value;
    TargetsOf(es);
    PushAllSaves(phase, p, es, Start(blobs, i));
  }

  lemma {:induction false} PartSaves(phase: Phase, p: Producer, blobs: seq<Blob>, i: nat, n: nat)
    requires i <= |blobs|
    ensures Underway(p, blobs, i, RunPart(phase, p, blobs, i, n).saved)
    decreases |blobs| - i
  {
    var d := NextData(blobs, i);
    if d < |blobs| {
      hide NextData, PushAll, Start, Underway;
      var es := blobs[d].data.value;
      if n < |es| {
        StopsUnderway(phase, p, blobs, i, es[..n]);
      } else {
        PartSaves(phase, PushAll(phase, p, es, Start(blobs, i)), blobs, d + 1, n - |es|);
        StaysUnderway(phase, p, blobs, i, RunPart(phase, p, blobs, i, n).saved);
      }
    }
  }

  // ---- Resuming ----

  const NO_OFFSETS: Saved := Saved(None, None)

  function FullRun(blobs: seq<Blob>): Producer {
    RunProducer(Nodes, blobs, NO_OFFSETS)
  }

  /** The offset files after a full run that was interrupted after n entries, or ran to its end. */
  function SavedAfter(blobs: seq<Blob>, n: nat): Saved {
    RunPart(Nodes, Fresh(Nodes, NO_OFFSETS), blobs, 0, n).saved
  }

  lemma FullRunSaves(blobs: seq<Blob>)
    ensures FullRun(blobs).saved.nodes == OffsetOf(blobs, FirstWith(false, blobs, 0))
    ensures FullRun(blobs).saved.relations == OffsetOf(blobs, FirstWith(true, blobs, 0))
    ensures SavedAfter(blobs, Entries(blobs, 0)) == FullRun(blobs).saved
  {
    RunSaves(Nodes, Fresh(Nodes, NO_OFFSETS), blobs, 0);
    RunPartWhole(Nodes, Fresh(Nodes, NO_OFFSETS), blobs, 0, Entries(blobs, 0));
  }

  /** Wherever a full run is interrupted, it leaves no offset, that of the first non-node, or both. */
  lemma SavedInOrder(blobs: seq<Blob>, n: nat)
    ensures var full := FullRun(blobs).saved;
            SavedAfter(blobs, n) in {NO_OFFSETS, full.(relations := None), full}
  {
    hide FirstWith, RunPart;
    FullRunSaves(blobs);
    PartSaves(Nodes, Fresh(Nodes, NO_OFFSETS), blobs, 0, n);
  }

  /** Each offset file is missing or empty, or holds what the full run writes: also what a crash between the two
      writes leaves, or one after a file was truncated. */
  ghost predicate Leftover(blobs: seq<Blob>, saved: Saved) {
    var full := FullRun(blobs).saved;
    && (saved.nodes == None || saved.nodes == full.nodes)
    && (saved.relations == None || saved.relations == full.relations)
  }

  /** Where a resumed run starts, and that it skips nothing the way threads need. */
  lemma ResumePoint(phase: Phase, blobs: seq<Blob>, saved: Saved)
    requires WellFormed(blobs) && Leftover(blobs, saved)
    ensures var i := FirstBlob(phase, blobs, saved);
            && Fed(phase, Flat(blobs, 0)) == Fed(phase, Flat(blobs, i))
            && FirstWith(true, blobs, i) == FirstWith(true, blobs, 0)
            && (phase.Merging? || phase.Nodes? ==> FirstWith(false, blobs, i) == FirstWith(false, blobs, 0))
  {
    FullRunSaves(blobs);
    hide FullRun, FirstWith, Flat, NonNodes, RelationsIn, Start, BlobAt;
    var f, r := FirstWith(false, blobs, 0), FirstWith(true, blobs, 0);
    if f.Some? {
      FirstWithSkips(false, blobs, 0);
      BlobAtStart(blobs, f.value, 0);
    }
    if r.Some? {
      FirstWithSkips(true, blobs, 0);
      BlobAtStart(blobs, r.value, 0);
    }
  }

  /** The offset files after a series of runs, each started at some phase and interrupted after some entries. */
  function SavedByRuns(blobs: seq<Blob>, runs: seq<(Phase, nat)>): Saved
    decreases |runs|
  {
    if runs == [] then NO_OFFSETS
    else
      var before := SavedByRuns(blobs, runs[..|runs| - 1]);
      var (phase, n) := runs[|runs| - 1];
      RunPart(phase, Fresh(phase, before), blobs, FirstBlob(phase, blobs, before), n).saved
  }

  lemma RunLeaves(phase: Phase, blobs: seq<Blob>, saved: Saved, n: nat)
    requires WellFormed(blobs) && Leftover(blobs, saved)
    ensures Leftover(blobs, RunPart(phase, Fresh(phase, saved), blobs, FirstBlob(phase, blobs, saved), n).saved)
  {
    FullRunSaves(blobs);
    ResumePoint(phase, blobs, saved);
    hide FullRun, FirstWith, RunPart, FirstBlob;
    PartSaves(phase, Fresh(phase, saved), blobs, FirstBlob(phase, blobs, saved), n);
  }

  /** However often the import was started, at whatever phase, and interrupted. */
  lemma {:induction false} RunsLeave(blobs: seq<Blob>, runs: seq<(Phase, nat)>)
    requires WellFormed(blobs)
    ensures Leftover(blobs, SavedByRuns(blobs, runs))
    decreases |runs|
  {
    hide Leftover, RunPart, FirstBlob;
    if runs == [] {
      NothingLeft(blobs);
    } else {
      var front := runs[..|runs| - 1];
      var (phase, n) := runs[|runs| - 1];
      RunsLeave(blobs, front);
      RunLeaves(phase, blobs, SavedByRuns(blobs, front), n);
    }
  }

  lemma NothingLeft(blobs: seq<Blob>)
    ensures Leftover(blobs, NO_OFFSETS)
  {
  }

  lemma FullRunFeeds(phase: Phase, blobs: seq<Blob>)
    ensures Fed(phase, FullRun(blobs).toWays) == Fed(phase, Flat(blobs, 0))
  {
    RunFeeds(Nodes, Fresh(Nodes, NO_OFFSETS), blobs, 0);
    assert NonNodes(FullRun(blobs).toWays) == NonNodes(Flat(blobs, 0));
    RelationsOfNonNodes(FullRun(blobs).toWays);
    RelationsOfNonNodes(Flat(blobs, 0));
  }

  /** A full run deals every entry before the first non-node to the node threads and everything from there on to
      the way threads, in order. */
  lemma FullRunDeals(blobs: seq<Blob>)
    ensures var q := FullRun(blobs);
            && Flat(blobs, 0) == q.toNodes + q.toWays
            && (forall e | e in q.toNodes :: e.NodeE?) && (q.toWays != [] ==> !q.toWays[0].NodeE?)
  {
    hide Flat, RunFrom, PushAll;
    var p := Fresh(Nodes, NO_OFFSETS);
    RunPushesFlat(Nodes, p, blobs, 0);
    var nodes, ways := PushedFromNodes(Nodes, p, Flat(blobs, 0));
    assert [] + nodes == nodes && [] + ways == ways;
  }

  /** In a file in which no node comes after another entry, the way threads get no node. */
  lemma SortedMeansNoNodeLate(blobs: seq<Blob>)
    requires var es := Flat(blobs, 0); forall i, j | 0 <= i < j < |es| && es[j].NodeE? :: es[i].NodeE?
    ensures forall e | e in FullRun(blobs).toWays :: !e.NodeE?
  {
    FullRunDeals(blobs);
    hide Flat, FullRun;
    var q, es := FullRun(blobs), Flat(blobs, 0);
    var n := |q.toNodes|;
    forall e | e in q.toWays ensures !e.NodeE? {
      var k :| 0 <= k < |q.toWays| && q.toWays[k] == e;
      assert es[n + k] == e && (k > 0 ==> es[n] == q.toWays[0]);
    }
  }

  /** A resumed run starts at the offset file of its phase, if it is there. */
  lemma ResumeStartsAtOffset(phase: Phase, blobs: seq<Blob>, saved: Saved)
    requires WellFormed(blobs) && Leftover(blobs, saved) && !phase.Nodes?
    ensures var at := Start(blobs, FirstBlob(phase, blobs, saved));
            if phase.Relations? && saved.relations.Some? then at == saved.relations.value
            else if saved.nodes.Some? then at == saved.nodes.value
            else at == 0
  {
    FullRunSaves(blobs);
    hide FullRun, FirstWith, BlobAt;
    var f, r := FirstWith(false, blobs, 0), FirstWith(true, blobs, 0);
    if f.Some? {
      BlobAtStart(blobs, f.value, 0);
    }
    if r.Some? {
      BlobAtStart(blobs, r.value, 0);
    }
  }

  /** A resumed run deals no node to the node threads. From its first blob on it gives the way threads every
      entry, only those after the nodes when it resumes at the merge, or all but ways when it resumes at relations. */
  lemma ResumeDeals(phase: Phase, blobs: seq<Blob>, saved: Saved)
    requires !phase.Nodes?
    ensures var q, es := RunProducer(phase, blobs, saved), Flat(blobs, FirstBlob(phase, blobs, saved));
            && q.toNodes == []
            && (phase.Relations? ==> Listed(q.toWays, NonWaysAt(es)))
            && (phase.Ways? ==> q.toWays == es)
            && (phase.Merging? ==>
                  && (q.toWays != [] ==> !q.toWays[0].NodeE?)
                  && exists nodes :: es == nodes + q.toWays && forall e | e in nodes :: e.NodeE?)
  {
    hide Flat, RunFrom, PushAll, FirstBlob, Listed;
    var i, p := FirstBlob(phase, blobs, saved), Fresh(phase, saved);
    RunPushesFlat(phase, p, blobs, i);
    if phase.Merging? {
      var nodes, ways := PushedFromNodes(phase, p, Flat(blobs, i));
      assert [] + ways == ways;
    } else {
      var ways := PushedPastNodes(phase, p, Flat(blobs, i));
      assert [] + ways == ways;
    }
  }

  /** Whatever offsets earlier runs left behind, a run resumed at any phase gives the way threads what the full run
      gives them: the same ways and relations, or, from the relations on, the same relations. */
  lemma ResumeFeedsTheSame(phase: Phase, blobs: seq<Blob>, saved: Saved)
    requires WellFormed(blobs) && Leftover(blobs, saved)
    ensures NonNodes(RunProducer(phase, blobs, saved).toWays) == Fed(phase, FullRun(blobs).toWays)
  {
    ResumePoint(phase, blobs, saved);
    RunFeeds(phase, Fresh(phase, saved), blobs, FirstBlob(phase, blobs, saved));
    FullRunFeeds(phase, blobs);
  }

  /** The resumed run completes the offset files of the full run; what they held stays. Only a run resumed at
      ways or relations without the offset of the first non-node does not write that one. */
  lemma ResumeKeepsOffsets(phase: Phase, blobs: seq<Blob>, saved: Saved)
    requires WellFormed(blobs) && Leftover(blobs, saved)
    ensures var full := FullRun(blobs).saved;
            RunProducer(phase, blobs, saved).saved
            == if phase.Nodes? || phase.Merging? || saved.nodes.Some? then full else full.(nodes := None)
  {
    FullRunSaves(blobs);
    ResumePoint(phase, blobs, saved);
    hide FirstWith, FullRun;
    RunSaves(phase, Fresh(phase, saved), blobs, FirstBlob(phase, blobs, saved));
  }

  /** Without the offset files a resumed run reads the whole file and feeds the way threads the same. */
  lemma ResumeWithoutOffsets(phase: Phase, blobs: seq<Blob>)
    ensures NonNodes(RunProducer(phase, blobs, NO_OFFSETS).toWays) == Fed(phase, FullRun(blobs).toWays)
  {
    RunFeeds(phase, Fresh(phase, NO_OFFSETS), blobs, 0);
    FullRunFeeds(phase, blobs);
  }
}
