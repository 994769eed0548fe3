/** IEEE 754 doubles as 64-bit patterns, with the comparisons of section 5.11 of IEEE 754-2008. */
module Doubles {
  import opened Basics

  type Double = Bits64

  const SIGN: int := 0x8000_0000_0000_0000

  predicate IsNaN(d: Double) {
    d % SIGN > 0x7FF0_0000_0000_0000
  }

  /** Orders the patterns of numbers by value; both zeros have key 0. */
  function Key(d: Double): int {
    if d < SIGN then d else SIGN - d
  }

  predicate Eq(a: Double, b: Double) {
    !IsNaN(a) && !IsNaN(b) && Key(a) == Key(b)
  }

  predicate Lt(a: Double, b: Double) {
    !IsNaN(a) && !IsNaN(b) && Key(a) < Key(b)
  }

  predicate Le(a: Double, b: Double) {
    !IsNaN(a) && !IsNaN(b) && Key(a) <= Key(b)
  }

  /** Equal are the same patterns, and the two zeros; NaN equals nothing. */
  lemma EqExactly(a: Double, b: Double)
    ensures Eq(a, b) <==> !IsNaN(a) && !IsNaN(b) && (a == b || (a % SIGN == 0 && b % SIGN == 0))
  {
  }

  /** Numbers are ordered by their patterns, those with a sign the other way round and below the others. */
  lemma LtExactly(a: Double, b: Double)
    ensures !IsNaN(a) && !IsNaN(b) ==>
              (Lt(a, b) <==> if a < SIGN then b < SIGN && a < b else if b < SIGN then a != SIGN || b != 0 else b < a)
    ensures Lt(a, b) ==> !IsNaN(a) && !IsNaN(b)
    ensures Le(a, b) <==> Lt(a, b) || Eq(a, b)
  {
  }

  /** std::min and std::max. */
  function Min(a: Double, b: Double): Double { if Lt(b, a) then b else a }
  function Max(a: Double, b: Double): Double { if Lt(a, b) then b else a }

  datatype Point = Point(x: Double, y: Double) {
    predicate NoNaN() { !IsNaN(x) && !IsNaN(y) }
  }

  /** The comparison `a.first == b.first && a.second == b.second`. */
  predicate Same(p: Point, q: Point) {
    Eq(p.x, q.x) && Eq(p.y, q.y)
  }

  /** A place on the plane; equal points are in the same place, whatever the sign of their zeros. */
  type Place = (int, int)

  function At(p: Point): Place {
    (Key(p.x), Key(p.y))
  }

  /** std::vector::front and back. */
  function Last<T>(s: seq<T>): T
    requires s != []
  {
    s[|s| - 1]
  }
}
