/** The pairing topology of the batch protocol `handleCross`: which sample
    lists are connected with which, and in what order. */
module Topology {

  /** One call of the engine: list `i` against list `j`, in self mode or not. */
  datatype Call = Call(i: nat, j: nat, self: bool)

  /** How many neighbour calls the first loop makes for `n` paths: none for
      fewer than two, one for exactly two, one per path otherwise. */
  function CrossCount(n: nat): nat {
    if n <= 1 then 0 else if n == 2 then 1 else n
  }

  /** The successor of path `k` on the cycle of `n` paths. */
  function Succ(n: nat, k: nat): nat
    requires k < n
  {
    (k + 1) % n
  }

  /** The first `m` calls of the cycle over `n` paths: path k against path k + 1, wrapping to 0. */
  function Ring(n: nat, m: nat): (r: seq<Call>)
    requires m <= n
    ensures |r| == m
    ensures forall k :: 0 <= k < m ==> r[k].i < n && r[k].j < n && !r[k].self
  {
    seq(m, k requires 0 <= k < m => Call(k, Succ(n, k), false))
  }

  /** Each of the first `n` lists against itself, in self mode, in order. */
  function Selfs(n: nat): (r: seq<Call>)
    ensures |r| == n
    ensures forall k :: 0 <= k < n ==> r[k] == Call(k, k, true)
  {
    seq(n, k requires 0 <= k < n => Call(k, k, true))
  }

  /** Every call the batch protocol makes for `n` selected paths: the neighbour
      calls, then, if self reference is on, each path against itself. */
  function CrossCalls(n: nat, selfRef: bool): (r: seq<Call>)
    ensures |r| == CrossCount(n) + (if selfRef then n else 0)
    ensures forall k :: 0 <= k < |r| ==> r[k].i < n && r[k].j < n
  {
    Ring(n, CrossCount(n)) + (if selfRef then Selfs(n) else [])
  }

  /** Two calls connect the same two lists, in either order. */
  predicate SamePair(a: Call, b: Call) {
    (a.i == b.i && a.j == b.j) || (a.i == b.j && a.j == b.i)
  }

  /** The successor is the next path, and path 0 after the last. */
  lemma Successor(n: nat, k: nat)
    requires k < n
    ensures Succ(n, k) == if k + 1 == n then 0 else k + 1
  {
  }

  /** The neighbour calls never pair a path with itself and never connect the same
      two paths twice, in either order (for two paths this is what the special case
      buys: the full cycle would repeat (0, 1) as (1, 0)). */
  lemma NeighbourCallsDistinct(n: nat)
    ensures var r := Ring(n, CrossCount(n));
      && (forall k :: 0 <= k < |r| ==> r[k].i != r[k].j)
      && (forall k1, k2 :: 0 <= k1 < k2 < |r| ==> !SamePair(r[k1], r[k2]))
  {
    var r := Ring(n, CrossCount(n));
    forall k | 0 <= k < |r| ensures r[k].i != r[k].j {
      Successor(n, k);
      assert r[k] == Call(k, Succ(n, k), false);
    }
    forall k1, k2 | 0 <= k1 < k2 < |r| ensures !SamePair(r[k1], r[k2]) {
      Successor(n, k1);
      Successor(n, k2);
      assert r[k1] == Call(k1, Succ(n, k1), false);
      assert r[k2] == Call(k2, Succ(n, k2), false);
      assert n >= 3;
    }
  }

  /** With at least two paths every path is connected with its successor on the
      cycle, in one order or the other: for path `i` the call at position `Covering(n, i)`. */
  lemma NeighboursCovered(n: nat)
    requires n >= 2
    ensures forall i :: 0 <= i < n ==>
      Covering(n, i) < CrossCount(n) && SamePair(Ring(n, CrossCount(n))[Covering(n, i)], Call(i, Succ(n, i), false))
  {
    forall i | 0 <= i < n
      ensures Covering(n, i) < CrossCount(n) && SamePair(Ring(n, CrossCount(n))[Covering(n, i)], Call(i, Succ(n, i), false))
    {
      Successor(n, i);
    }
  }

  /** The neighbour call that connects path `i` with its successor: call `i`, except
      that for two paths the second path's link back to 0 is call 0. */
  function Covering(n: nat, i: nat): nat {
    if n == 2 && i == 1 then 0 else i
  }

  /** For three or more paths the neighbour calls are exactly (0, 1), (1, 2), ...,
      (n - 2, n - 1), (n - 1, 0). */
  lemma CycleCalls(n: nat)
    requires n >= 3
    ensures |Ring(n, CrossCount(n))| == n
    ensures forall k :: 0 <= k < n - 1 ==> Ring(n, CrossCount(n))[k] == Call(k, k + 1, false)
    ensures Ring(n, CrossCount(n))[n - 1] == Call(n - 1, 0, false)
  {
    forall k | 0 <= k < n ensures Succ(n, k) == if k + 1 == n then 0 else k + 1 {
      Successor(n, k);
    }
  }

  /** The worked cases: three paths give (0, 1), (1, 2), (2, 0); two paths give only
      (0, 1), never (1, 0) as well; one path gives only its self call, and only when
      self reference is on; no paths give nothing. */
  lemma SmallSelections(selfRef: bool)
    ensures CrossCalls(3, false) == [Call(0, 1, false), Call(1, 2, false), Call(2, 0, false)]
    ensures CrossCalls(2, false) == [Call(0, 1, false)]
    ensures CrossCalls(2, true) == [Call(0, 1, false), Call(0, 0, true), Call(1, 1, true)]
    ensures CrossCalls(1, selfRef) == if selfRef then [Call(0, 0, true)] else []
    ensures CrossCalls(0, selfRef) == []
  {
    assert Ring(3, 3) == [Call(0, 1, false), Call(1, 2, false), Call(2, 0, false)];
    assert Ring(2, 1) == [Call(0, 1, false)];
    assert Selfs(2) == [Call(0, 0, true), Call(1, 1, true)];
    assert Selfs(1) == [Call(0, 0, true)];
  }
}
