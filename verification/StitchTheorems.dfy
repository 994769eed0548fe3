/** Edge conservation and the parity theorem for stitchRings. */
module StitchTheorems {
  import opened Basics
  import opened Doubles
  import opened Stitch

  // ---- Edges ----

  /** An undirected edge between two places. */
  type Edge = set<Place>

  function Edges(path: seq<Point>): multiset<Edge> {
    if |path| < 2 then multiset{} else multiset{{At(path[0]), At(path[1])}} + Edges(path[1..])
  }

  function SumEdges(paths: seq<seq<Point>>): multiset<Edge> {
    if paths == [] then multiset{} else Edges(paths[0]) + SumEdges(paths[1..])
  }

  lemma {:induction false} EdgesJoin(a: seq<Point>, b: seq<Point>)
    requires a != [] && b != [] && At(Last(a)) == At(b[0])
    ensures Edges(a + b[1..]) == Edges(a) + Edges(b)
  {
    if |a| == 1 {
      if |b| > 1 {
        assert a + b[1..] == [a[0]] + b[1..];
        assert (a + b[1..])[1..] == b[1..];
      } else {
        assert a + b[1..] == a;
      }
    } else {
      assert (a + b[1..])[1..] == a[1..] + b[1..];
      EdgesJoin(a[1..], b);
    }
  }

  lemma OneEdge(p: Point, q: Point)
    ensures Edges([p, q]) == multiset{{At(p), At(q)}} && {At(p), At(q)} == {At(q), At(p)}
  {
    assert [p, q][1..] == [q];
  }

  lemma {:induction false} EdgesReverse(s: seq<Point>)
    ensures Edges(Reverse(s)) == Edges(s)
  {
    hide At;
    if |s| == 1 {
      assert Reverse(s) == s;
    } else if |s| > 1 {
      EdgesReverse(s[1..]);
      var r := Reverse(s[1..]);
      assert Last(r) == s[1];
      EdgesJoin(r, [s[1], s[0]]);
      assert r + [s[1], s[0]][1..] == Reverse(s);
      OneEdge(s[1], s[0]);
    }
  }

  lemma SumCons(path: seq<Point>, paths: seq<seq<Point>>)
    ensures SumEdges([path] + paths) == Edges(path) + SumEdges(paths)
  {
    assert ([path] + paths)[1..] == paths;
  }

  lemma {:induction false} SumWithout(segs: seq<Segment>, i: nat)
    requires i < |segs|
    ensures SumEdges(segs) == SumEdges(Without(segs, i)) + Edges(segs[i])
  {
    hide Edges;
    if i == 0 {
      assert Without(segs, 0) == segs[1..];
    } else {
      SumWithout(segs[1..], i - 1);
      assert Without(segs, i) == [segs[0]] + Without(segs[1..], i - 1);
      SumCons(segs[0], Without(segs[1..], i - 1));
      assert segs[1..][i - 1] == segs[i];
    }
  }

  lemma AppendEdges(b: Built, seg: Segment)
    requires b.ring != [] && Joins(Last(b.ring), seg)
    ensures Edges(Append(b, seg).ring) == Edges(b.ring) + Edges(seg)
  {
    var reversed := !Same(seg[0], Last(b.ring));
    EdgesReverse(seg);
    EdgesJoin(b.ring, Piece(seg, reversed).Path());
  }

  lemma {:induction false} GrowEdges(b: Built, segs: seq<Segment>)
    requires b.ring != [] && NonEmpty(segs)
    ensures var (b', rest) := Grow(b, segs); Edges(b'.ring) + SumEdges(rest) == Edges(b.ring) + SumEdges(segs)
    decreases |segs|
  {
    hide Edges, SumEdges;
    var i := FirstJoin(Last(b.ring), segs);
    if !(|b.ring| >= 4 && EndsMeet(b.ring)) && i < |segs| {
      SumWithout(segs, i);
      AppendEdges(b, segs[i]);
      GrowEdges(Append(b, segs[i]), Without(segs, i));
    }
  }

  function BuiltRings(bs: seq<Built>): seq<Ring> {
    seq(|bs|, i requires 0 <= i < |bs| => bs[i].ring)
  }

  function ClosedRings(bs: seq<Built>): seq<Ring>
    requires forall b | b in bs :: b.ring != []
  {
    seq(|bs|, i requires 0 <= i < |bs| => Close(bs[i].ring))
  }

  /** The edges added to close rings: at most one per ring, and none for a ring that closes by itself. */
  function ClosingEdges(bs: seq<Built>): multiset<Edge>
    requires forall b | b in bs :: b.ring != []
  {
    if bs == [] then multiset{}
    else (if EndsMeet(bs[0].ring) then multiset{} else multiset{{At(Last(bs[0].ring)), At(bs[0].ring[0])}})
         + ClosingEdges(bs[1..])
  }

  lemma CloseEdges(r: Ring)
    requires r != []
    ensures Edges(Close(r)) == Edges(r) + if EndsMeet(r) then multiset{} else multiset{{At(Last(r)), At(r[0])}}
  {
    if !EndsMeet(r) {
      EdgesJoin(r, [Last(r), r[0]]);
      assert r + [Last(r), r[0]][1..] == r + [r[0]];
      assert [Last(r), r[0]][1..] == [r[0]];
    }
  }

  lemma {:induction false} BuiltEdges(segs: seq<Segment>)
    requires NonEmpty(segs)
    ensures SumEdges(BuiltRings(BuildAll(segs))) == SumEdges(segs)
    decreases |segs|
  {
    hide Grow, Edges;
    if segs == [] {
      assert BuiltRings(BuildAll(segs)) == [];
    } else {
      var (b, rest) := Grow(Start(segs[0]), segs[1..]);
      GrowEdges(Start(segs[0]), segs[1..]);
      BuiltEdges(rest);
      assert BuildAll(segs) == [b] + BuildAll(rest);
      assert BuiltRings(BuildAll(segs)) == [b.ring] + BuiltRings(BuildAll(rest));
    }
  }

  lemma Regroup<T>(a: multiset<T>, b: multiset<T>, c: multiset<T>, d: multiset<T>)
    ensures (a + b) + (c + d) == (a + c) + (b + d)
  {
  }

  lemma {:induction false} ClosedEdges(bs: seq<Built>)
    requires forall b | b in bs :: b.ring != []
    ensures SumEdges(ClosedRings(bs)) == SumEdges(BuiltRings(bs)) + ClosingEdges(bs)
  {
    hide Edges, SumEdges, EndsMeet;
    if bs == [] {
      assert ClosedRings(bs) == [] && BuiltRings(bs) == [];
    } else {
      CloseEdges(bs[0].ring);
      SumCons(Close(bs[0].ring), ClosedRings(bs[1..]));
      SumCons(bs[0].ring, BuiltRings(bs[1..]));
      ClosedEdges(bs[1..]);
      assert ClosedRings(bs) == [Close(bs[0].ring)] + ClosedRings(bs[1..]);
      Regroup(Edges(bs[0].ring), ClosingEdges([bs[0]]), SumEdges(BuiltRings(bs[1..])), ClosingEdges(bs[1..]));
      assert BuiltRings(bs) == [bs[0].ring] + BuiltRings(bs[1..]);
    }
  }

  /** The edges of all rings that are built, kept or dropped, are the input edges and the closing edges. */
  lemma EdgesConserved(segs: seq<Segment>)
    requires NonEmpty(segs)
    ensures SumEdges(ClosedRings(BuildAll(segs))) == SumEdges(segs) + ClosingEdges(BuildAll(segs))
  {
    BuiltEdges(segs);
    ClosedEdges(BuildAll(segs));
  }

  // ---- Parity ----

  /** How often a path ends at a place: twice for a path that returns to its start. */
  function Ends(path: seq<Point>, p: Place): nat
    requires path != []
  {
    (if At(path[0]) == p then 1 else 0) + (if At(Last(path)) == p then 1 else 0)
  }

  function Degree(segs: seq<Segment>, p: Place): nat
    requires NonEmpty(segs)
  {
    if segs == [] then 0 else Ends(segs[0], p) + Degree(segs[1..], p)
  }

  predicate Numbers(path: seq<Point>) {
    forall i | 0 <= i < |path| :: path[i].NoNaN()
  }

  predicate AllNumbers(segs: seq<Segment>) {
    forall i | 0 <= i < |segs| :: Numbers(segs[i])
  }

  lemma {:induction false} DegreeWithout(segs: seq<Segment>, i: nat, p: Place)
    requires NonEmpty(segs) && i < |segs|
    ensures Degree(segs, p) == Degree(Without(segs, i), p) + Ends(segs[i], p)
  {
    if i == 0 {
      assert Without(segs, 0) == segs[1..];
    } else {
      DegreeWithout(segs[1..], i - 1, p);
      assert Without(segs, i)[1..] == Without(segs[1..], i - 1);
    }
  }

  lemma AppendParity(b: Built, seg: Segment, p: Place)
    requires b.ring != [] && Joins(Last(b.ring), seg)
    ensures Ends(Append(b, seg).ring, p) % 2 == (Ends(b.ring, p) + Ends(seg, p)) % 2
  {
    hide Key;
    var path := Piece(seg, !Same(seg[0], Last(b.ring))).Path();
    assert At(path[0]) == At(Last(b.ring));
    assert Ends(path, p) == Ends(seg, p);
    assert At(Last(b.ring + path[1..])) == At(Last(path));
  }

  /** Whether an even number of path ends, of the open ring and the remaining segments, is at p. */
  predicate EvenAt(b: Built, segs: seq<Segment>, p: Place)
    requires b.ring != [] && NonEmpty(segs)
  {
    (Ends(b.ring, p) + Degree(segs, p)) % 2 == 0
  }

  lemma AppendKeepsEven(b: Built, segs: seq<Segment>, i: nat, p: Place)
    requires b.ring != [] && NonEmpty(segs) && i < |segs| && Joins(Last(b.ring), segs[i])
    ensures EvenAt(Append(b, segs[i]), Without(segs, i), p) <==> EvenAt(b, segs, p)
  {
    hide Ends, Degree, Joins, Reverse;
    DegreeWithout(segs, i, p);
    AppendParity(b, segs[i], p);
  }

  /** Growing a ring changes the number of path ends at a place by an even number. */
  lemma {:induction false} GrowKeepsEven(b: Built, segs: seq<Segment>, p: Place)
    requires b.ring != [] && NonEmpty(segs)
    ensures EvenAt(Grow(b, segs).0, Grow(b, segs).1, p) <==> EvenAt(b, segs, p)
    decreases |segs|
  {
    hide EvenAt;
    var i := FirstJoin(Last(b.ring), segs);
    if !(|b.ring| >= 4 && EndsMeet(b.ring)) && i < |segs| {
      AppendKeepsEven(b, segs, i, p);
      GrowKeepsEven(Append(b, segs[i]), Without(segs, i), p);
    }
  }

  lemma {:induction false} GrowNumbers(b: Built, segs: seq<Segment>)
    requires b.ring != [] && NonEmpty(segs) && Numbers(b.ring) && AllNumbers(segs)
    ensures Numbers(Grow(b, segs).0.ring) && AllNumbers(Grow(b, segs).1)
    decreases |segs|
  {
    var i := FirstJoin(Last(b.ring), segs);
    if !(|b.ring| >= 4 && EndsMeet(b.ring)) && i < |segs| {
      GrowNumbers(Append(b, segs[i]), Without(segs, i));
    }
  }

  /** Growing stops at a ring that closes by itself or at an end where no segment is left. */
  lemma {:induction false} GrowStops(b: Built, segs: seq<Segment>)
    requires b.ring != [] && NonEmpty(segs)
    ensures var (b', rest) := Grow(b, segs);
            EndsMeet(b'.ring) || forall k | 0 <= k < |rest| :: !Joins(Last(b'.ring), rest[k])
    decreases |segs|
  {
    hide Grow, EndsMeet, Joins, Append, Without;
    GrowStep(b, segs);
    var i := FirstJoin(Last(b.ring), segs);
    if !Stops(b, segs) {
      GrowStops(Append(b, segs[i]), Without(segs, i));
    }
  }

  lemma {:induction false} NoJoinNoDegree(end: Point, segs: seq<Segment>)
    requires NonEmpty(segs) && end.NoNaN() && AllNumbers(segs)
    requires forall k | 0 <= k < |segs| :: !Joins(end, segs[k])
    ensures Degree(segs, At(end)) == 0
  {
    if segs != [] {
      assert !Joins(end, segs[0]) && Numbers(segs[0]);
      assert segs[0][0].NoNaN() && Last(segs[0]).NoNaN();
      NoJoinNoDegree(end, segs[1..]);
    }
  }

  ghost predicate Even(segs: seq<Segment>)
    requires NonEmpty(segs)
  {
    forall p :: Degree(segs, p) % 2 == 0
  }

  /** No ring needs a closing edge. */
  predicate NoneClosed(bs: seq<Built>)
    requires forall b | b in bs :: b.ring != []
  {
    forall b | b in bs :: EndsMeet(b.ring)
  }

  /** The first ring closes by itself if all degrees are even, and then the other degrees are even again. */
  lemma FirstRing(segs: seq<Segment>)
    requires NonEmpty(segs) && AllNumbers(segs) && segs != []
    ensures var (b, rest) := Grow(Start(segs[0]), segs[1..]);
            && AllNumbers(rest)
            && (Even(segs) ==> EndsMeet(b.ring))
            && (EndsMeet(b.ring) ==> (Even(segs) <==> Even(rest)))
  {
    hide Grow, Joins;
    var (b, rest) := Grow(Start(segs[0]), segs[1..]);
    GrowNumbers(Start(segs[0]), segs[1..]);
    GrowStops(Start(segs[0]), segs[1..]);
    forall p
      ensures Degree(segs, p) % 2 == 0 <==> (Ends(b.ring, p) + Degree(rest, p)) % 2 == 0
    {
      GrowKeepsEven(Start(segs[0]), segs[1..], p);
    }
    if !EndsMeet(b.ring) {
      var end := Last(b.ring);
      assert end.NoNaN() && b.ring[0].NoNaN();
      NoJoinNoDegree(end, rest);
      assert Ends(b.ring, At(end)) == 1;
    } else {
      assert forall p :: Ends(b.ring, p) % 2 == 0;
    }
  }

  /** stitchRings adds no closing edge exactly if every point is an end of an even number of segments. */
  lemma {:induction false} ClosesByItselfIff(segs: seq<Segment>)
    requires NonEmpty(segs) && AllNumbers(segs)
    ensures NoneClosed(BuildAll(segs)) <==> Even(segs)
    decreases |segs|
  {
    if segs != [] {
      var (b, rest) := Grow(Start(segs[0]), segs[1..]);
      FirstRing(segs);
      ClosesByItselfIff(rest);
      assert BuildAll(segs) == [b] + BuildAll(rest);
      assert forall x :: x in BuildAll(segs) <==> x == b || x in BuildAll(rest);
    }
  }

  lemma {:induction false} NoClosingEdges(bs: seq<Built>)
    requires (forall b | b in bs :: b.ring != []) && NoneClosed(bs)
    ensures ClosingEdges(bs) == multiset{}
  {
    if bs != [] {
      NoClosingEdges(bs[1..]);
    }
  }

  /** Then the rings' edges are the input edges, no more and no less. */
  lemma EvenMeansSameEdges(segs: seq<Segment>)
    requires NonEmpty(segs) && AllNumbers(segs) && Even(segs)
    ensures SumEdges(ClosedRings(BuildAll(segs))) == SumEdges(segs)
  {
    ClosesByItselfIff(segs);
    NoClosingEdges(BuildAll(segs));
    EdgesConserved(segs);
  }
}
