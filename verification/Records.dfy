/** The contents of the node store: coordinates keyed by node id. */
module Records {
  import opened Basics

  /** A pair of doubles, kept as bit patterns. */
  datatype Coord = Coord(lon: Bits64, lat: Bits64)
  datatype Record = Record(id: int, coord: Coord)

  /** What `select` can see. */
  type View = map<int, Coord>

  /** A record outside 0..maxId is reported and skipped. */
  function Put(v: View, maxId: nat, r: Record): View {
    if 0 <= r.id <= maxId then v[r.id := r.coord] else v
  }

  function ApplyAll(v: View, maxId: nat, rs: seq<Record>): View
    decreases |rs|
  {
    if rs == [] then v else ApplyAll(Put(v, maxId, rs[0]), maxId, rs[1..])
  }

  lemma {:induction false} ApplyAppend(v: View, maxId: nat, a: seq<Record>, b: seq<Record>)
    ensures ApplyAll(v, maxId, a + b) == ApplyAll(ApplyAll(v, maxId, a), maxId, b)
    decreases |a|
  {
    if a == [] {
      assert a + b == b;
    } else {
      assert (a + b)[1..] == a[1..] + b;
      ApplyAppend(Put(v, maxId, a[0]), maxId, a[1..], b);
    }
  }

  /** The writes of a list of records that take effect, the last one of each id winning. */
  function Overlay(maxId: nat, rs: seq<Record>): View {
    ApplyAll(map[], maxId, rs)
  }

  /** Applying a list is overlaying its last writes. */
  lemma {:induction false} ApplyIsOverlay(v: View, maxId: nat, rs: seq<Record>)
    ensures ApplyAll(v, maxId, rs) == v + Overlay(maxId, rs)
  {
    if rs != [] {
      var front, r := rs[..|rs| - 1], rs[|rs| - 1];
      assert rs == front + [r];
      ApplyAppend(v, maxId, front, [r]);
      ApplyAppend(map[], maxId, front, [r]);
      ApplyIsOverlay(v, maxId, front);
    }
  }

  /** The ids an overlay holds are the ids in range that some record has; its values come from records. */
  lemma {:induction false} OverlayAt(maxId: nat, rs: seq<Record>, id: int)
    ensures id in Overlay(maxId, rs) <==> 0 <= id <= maxId && exists r :: r in rs && r.id == id
    ensures id in Overlay(maxId, rs) ==> Record(id, Overlay(maxId, rs)[id]) in rs
  {
    if rs != [] {
      var front, r := rs[..|rs| - 1], rs[|rs| - 1];
      assert rs == front + [r];
      ApplyAppend(map[], maxId, front, [r]);
      OverlayAt(maxId, front, id);
      assert r in rs;
    }
  }

  /** Of several records with an id in range the last one counts. */
  lemma {:induction false} LastWins(maxId: nat, rs: seq<Record>, k: nat)
    requires k < |rs| && 0 <= rs[k].id <= maxId && forall j | k < j < |rs| :: rs[j].id != rs[k].id
    ensures rs[k].id in Overlay(maxId, rs) && Overlay(maxId, rs)[rs[k].id] == rs[k].coord
    decreases |rs|
  {
    var front, r := rs[..|rs| - 1], rs[|rs| - 1];
    assert rs == front + [r];
    ApplyAppend(map[], maxId, front, [r]);
    if k < |rs| - 1 {
      LastWins(maxId, front, k);
    }
  }

  /** With one coordinate per id, the order in which records are applied does not matter. */
  lemma OrderIrrelevant(maxId: nat, a: seq<Record>, b: seq<Record>)
    requires forall r :: r in a <==> r in b
    requires forall r, t :: r in a && t in a && r.id == t.id ==> r == t
    ensures Overlay(maxId, a) == Overlay(maxId, b)
  {
    forall id
      ensures id in Overlay(maxId, a) <==> id in Overlay(maxId, b)
      ensures id in Overlay(maxId, a) ==> Overlay(maxId, a)[id] == Overlay(maxId, b)[id]
    {
      OverlayAt(maxId, a, id);
      OverlayAt(maxId, b, id);
    }
  }
}
