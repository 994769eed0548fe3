/** Shared vocabulary: options, bytes and 64-bit words. */
module Basics {

  datatype Option<+T> = None | Some(value: T)

  /** A way member of a relation, with its role "outer", "inner" or "". */
  datatype Member = Member(id: int, role: string)

  /** std::vector::erase of one element. */
  function Without<T>(s: seq<T>, i: nat): seq<T>
    requires i < |s|
  {
    s[..i] + s[i + 1..]
  }

  function Flatten<T>(parts: seq<seq<T>>): seq<T> {
    if parts == [] then [] else parts[0] + Flatten(parts[1..])
  }

  type Byte = b: int | 0 <= b < 256
  type Bits64 = n: int | 0 <= n < 0x1_0000_0000_0000_0000

  const TWO64: int := 0x1_0000_0000_0000_0000

  predicate IsInt64(n: int) {
    -0x8000_0000_0000_0000 <= n < 0x8000_0000_0000_0000
  }

  /** static_cast<size_t> of an int64_t. */
  function ToU64(n: int): Bits64
    requires IsInt64(n)
  {
    if n < 0 then n + TWO64 else n
  }

  function FromU64(u: Bits64): (n: int)
    ensures IsInt64(n) && ToU64(n) == u
  {
    if u < 0x8000_0000_0000_0000 then u else u - TWO64
  }

  // ---- Little-endian integers ----

  function Bound(width: nat): nat {
    if width == 0 then 1 else 256 * Bound(width - 1)
  }

  function LE(n: nat, width: nat): (b: seq<Byte>)
    ensures |b| == width
  {
    if width == 0 then [] else [n % 256] + LE(n / 256, width - 1)
  }

  function FromLE(b: seq<Byte>): (n: nat)
    ensures n < Bound(|b|)
  {
    if b == [] then 0 else b[0] + 256 * FromLE(b[1..])
  }

  lemma {:induction false} LERoundTrip(n: nat, width: nat)
    requires n < Bound(width)
    ensures FromLE(LE(n, width)) == n
  {
    if width > 0 {
      LERoundTrip(n / 256, width - 1);
      assert LE(n, width)[1..] == LE(n / 256, width - 1);
    }
  }

  lemma {:induction false} MulStep(d: nat, x: nat, y: nat)
    ensures x < y ==> d * y >= d * x + d
    decreases y
  {
    if x < y {
      assert d * y == d * (y - 1) + d;
      MulStep(d, x, y - 1);
    }
  }

  lemma QuotientIs(n: nat, d: nat, q: nat, r: nat)
    requires d > 0 && r < d && n == d * q + r
    ensures n / d == q
  {
    assert n == d * (n / d) + n % d;
    MulStep(d, n / d, q);
    MulStep(d, q, n / d);
  }

  lemma DivideTwice(n: nat, b: nat)
    requires b > 0
    ensures n / 256 / b == n / (256 * b)
  {
    var q := n / 256;
    var q2, r2 := q / b, q % b;
    assert (256 * b) * q2 == 256 * (b * q2);
    QuotientIs(n, 256 * b, q2, 256 * r2 + n % 256);
  }

  lemma {:induction false} BoundPositive(width: nat)
    ensures Bound(width) > 0
  {
    if width > 0 {
      BoundPositive(width - 1);
    }
  }

  /** Byte k holds the digit of 256^k. */
  lemma {:induction false} LEAt(n: nat, width: nat, k: nat)
    requires k < width
    ensures Bound(k) > 0 && LE(n, width)[k] == n / Bound(k) % 256
  {
    BoundPositive(k);
    if k > 0 {
      LEAt(n / 256, width - 1, k - 1);
      DivideTwice(n, Bound(k - 1));
    }
  }

  /** A 64-bit pattern survives being copied to eight bytes and back. */
  lemma Word64RoundTrip(u: Bits64)
    ensures FromLE(LE(u, 8)) == u
  {
    assert Bound(8) == TWO64;
    LERoundTrip(u, 8);
  }

  function Word64(b: seq<Byte>): Bits64
    requires |b| == 8
  {
    assert Bound(8) == TWO64;
    FromLE(b)
  }

  // ---- Positions in a sequence ----

  /** `idx` lists the positions of a set in increasing order, each once. */
  ghost predicate InOrder(idx: seq<nat>, positions: set<nat>) {
    && (forall a, b | 0 <= a < b < |idx| :: idx[a] < idx[b])
    && forall i: nat :: i in idx <==> i in positions
  }

  function Successors(idx: seq<nat>): (r: seq<nat>)
    ensures |r| == |idx| && forall k | 0 <= k < |idx| :: r[k] == idx[k] + 1
  {
    seq(|idx|, k requires 0 <= k < |idx| => idx[k] + 1)
  }

  /** Positions in a sequence from those in its tail, with or without the first one. */
  function Shift(first: bool, idx: seq<nat>): seq<nat> {
    if first then [0] + Successors(idx) else Successors(idx)
  }

  lemma SuccessorsHave(idx: seq<nat>, i: nat)
    ensures i in Successors(idx) <==> i > 0 && i - 1 in idx
  {
    var r := Successors(idx);
    if i in r {
      var k :| 0 <= k < |r| && r[k] == i;
      assert idx[k] == i - 1;
    }
    if i > 0 && i - 1 in idx {
      var k :| 0 <= k < |idx| && idx[k] == i - 1;
      assert r[k] == i;
    }
  }

  lemma ShiftInOrder(first: bool, idx: seq<nat>, tail: set<nat>, positions: set<nat>)
    requires InOrder(idx, tail)
    requires forall i: nat :: i in positions <==> if i == 0 then first else i - 1 in tail
    ensures InOrder(Shift(first, idx), positions)
  {
    var more := Successors(idx);
    assert forall a, b | 0 <= a < b < |more| :: more[a] < more[b];
    forall i: nat ensures i in Shift(first, idx) <==> i in positions {
      SuccessorsHave(idx, i);
      assert i in [0] + more <==> i == 0 || i in more;
    }
  }

  /** The entries of the map, in the order of their positions. */
  ghost predicate Listed<T>(out: seq<T>, at: map<nat, T>) {
    exists idx :: ListedBy(out, at, idx)
  }

  ghost predicate ListedBy<T>(out: seq<T>, at: map<nat, T>, idx: seq<nat>) {
    && InOrder(idx, at.Keys) && |out| == |idx|
    && forall k | 0 <= k < |idx| :: idx[k] in at && out[k] == at[idx[k]]
  }

  lemma {:induction false} InOrderSize(idx: seq<nat>, positions: set<nat>)
    requires InOrder(idx, positions)
    ensures |idx| == |positions|
    decreases |idx|
  {
    if idx == [] {
      assert positions == {} by {
        forall i: nat ensures i !in positions {
          assert i !in idx;
        }
      }
    } else {
      var n := |idx| - 1;
      var front := idx[..n];
      assert idx == front + [idx[n]];
      forall i: nat ensures i in front <==> i in positions - {idx[n]} {
        assert i in idx <==> i in front || i == idx[n];
      }
      InOrderSize(front, positions - {idx[n]});
      assert idx[n] in positions;
    }
  }

  lemma ListedSize<T>(out: seq<T>, at: map<nat, T>)
    requires Listed(out, at)
    ensures |out| == |at|
  {
    var idx :| ListedBy(out, at, idx);
    InOrderSize(idx, at.Keys);
  }

  function Present<T>(x: Option<T>): seq<T> {
    match x case Some(v) => [v] case None => []
  }

  /** `all` is `tail` moved by one position, with an entry at position 0 or none. */
  ghost predicate Prepends<T>(first: Option<T>, tail: map<nat, T>, all: map<nat, T>) {
    && (0 in all <==> first.Some?) && (first.Some? ==> all[0] == first.value)
    && (forall i: nat :: i + 1 in all <==> i in tail)
    && forall i: nat | i in tail :: all[i + 1] == tail[i]
  }

  lemma ListedNone<T>(at: map<nat, T>)
    requires at == map[]
    ensures Listed([], at)
  {
    var idx: seq<nat> := [];
    assert ListedBy([], at, idx);
  }

  lemma ListedCons<T>(first: Option<T>, rest: seq<T>, tail: map<nat, T>, all: map<nat, T>)
    requires Listed(rest, tail) && Prepends(first, tail, all)
    ensures Listed(Present(first) + rest, all)
  {
    var idx :| ListedBy(rest, tail, idx);
    ShiftKeys(first, tail, all);
    ShiftInOrder(first.Some?, idx, tail.Keys, all.Keys);
    if first.Some? {
      assert Present(first) == [first.value];
      ListedAdd(first.value, rest, tail, all, idx);
      assert ListedBy([first.value] + rest, all, Shift(true, idx));
    } else {
      assert Present(first) + rest == rest;
      ListedSkip(rest, tail, all, idx);
      assert ListedBy(rest, all, Shift(false, idx));
    }
  }

  lemma ListedAdd<T>(x: T, rest: seq<T>, tail: map<nat, T>, all: map<nat, T>, idx: seq<nat>)
    requires ListedBy(rest, tail, idx) && Prepends(Some(x), tail, all)
    requires InOrder(Shift(true, idx), all.Keys)
    ensures ListedBy([x] + rest, all, Shift(true, idx))
  {
    hide InOrder;
    var more, out := [0] + Successors(idx), [x] + rest;
    forall k | 0 <= k < |more| ensures more[k] in all && out[k] == all[more[k]] {
      if k > 0 {
        assert more[k] == idx[k - 1] + 1 && out[k] == rest[k - 1];
      }
    }
  }

  lemma ListedSkip<T>(rest: seq<T>, tail: map<nat, T>, all: map<nat, T>, idx: seq<nat>)
    requires ListedBy(rest, tail, idx) && Prepends(None, tail, all)
    requires InOrder(Shift(false, idx), all.Keys)
    ensures ListedBy(rest, all, Shift(false, idx))
  {
    hide InOrder;
    var more := Successors(idx);
    forall k | 0 <= k < |more| ensures more[k] in all && rest[k] == all[more[k]] {
      assert more[k] == idx[k] + 1;
    }
  }

  lemma ShiftKeys<T>(first: Option<T>, tail: map<nat, T>, all: map<nat, T>)
    requires Prepends(first, tail, all)
    ensures forall i: nat :: i in all.Keys <==> if i == 0 then first.Some? else i - 1 in tail.Keys
  {
    forall i: nat ensures i in all.Keys <==> if i == 0 then first.Some? else i - 1 in tail.Keys {
      if i > 0 {
        assert i - 1 + 1 in all <==> i - 1 in tail;
      }
    }
  }
}
