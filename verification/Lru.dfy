/** The LRU list of kernel/bio.c as an object: the links, and the order they stand for. */
module Lru {
  import opened Ring

  /** The ring behind its head lists buffers by last release, latest first. */
  ghost predicate ByRelease(ring: seq<nat>, stamp: seq<nat>, clock: nat) {
    && (forall k :: 0 < k < |ring| ==> ring[k] < |stamp|)
    && (forall j, k :: 0 < j < k < |ring| ==> stamp[ring[j]] > stamp[ring[k]])
    && (forall i :: 0 <= i < |stamp| ==> stamp[i] < clock)
  }

  ghost predicate RingOk(n: nat, next: seq<nat>, prev: seq<nat>, ring: seq<nat>, stamp: seq<nat>, clock: nat) {
    && |ring| == n + 1 && ring[0] == n && |stamp| == n
    && Linked(next, prev, ring) && ByRelease(ring, stamp, clock)
  }

  /** ring' is ring with b moved to the front. */
  ghost predicate Moved(ring: seq<nat>, ring': seq<nat>, b: nat) {
    b in ring && Position(ring, b) > 0 && ring' == MoveToFront(ring, Position(ring, b))
  }

  // The loop of binit: each buffer in turn is inserted behind the head.
  method InitLinks(n: nat) returns (nx: seq<nat>, pv: seq<nat>, ghost c: seq<nat>)
    ensures |c| == n + 1 && c[0] == n && Linked(nx, pv, c)
    ensures forall k :: 0 < k <= n ==> c[k] == n - k
  {
    nx, pv := seq(n + 1, i => n), seq(n + 1, i => n);
    c := [n];
    var b := 0;
    while b < n
      invariant 0 <= b <= n
      invariant |nx| == |pv| == n + 1 && |c| == b + 1 && c[0] == n
      invariant forall k :: 0 < k < |c| ==> c[k] == b - k
      invariant forall j :: 0 <= j < |c| ==> nx[c[j]] == c[Succ(c, j)]
      invariant forall j :: 0 <= j < |c| ==> pv[c[Succ(c, j)]] == c[j]
    {
      Inserted(nx, pv, c, b);
      nx := nx[b := nx[n]];
      pv := pv[b := n];
      pv := pv[nx[n] := b];
      nx := nx[n := b];
      c := [n, b] + c[1..];
      b := b + 1;
    }
  }

  /** Releasing the buffer at position k keeps the ring in order of last release. */
  lemma ReleaseOrder(ring: seq<nat>, stamp: seq<nat>, clock: nat, k: nat)
    requires 0 < k < |ring| && Permutation(ring) && ByRelease(ring, stamp, clock)
    ensures ByRelease(MoveToFront(ring, k), stamp[ring[k] := clock], clock + 1)
  {
    forall j: nat | j < |ring| { MoveToFrontIndex(ring, k, j); }
  }

  // The link surgery of brelse: take b off the ring and put it behind the head.
  method MoveLinks(n: nat, next: seq<nat>, prev: seq<nat>, b: nat,
                   ghost ring: seq<nat>, ghost stamp: seq<nat>, ghost clock: nat)
    returns (nx: seq<nat>, pv: seq<nat>, ghost ring': seq<nat>, ghost stamp': seq<nat>)
    requires RingOk(n, next, prev, ring, stamp, clock) && b < n
    ensures Moved(ring, ring', b) && stamp' == stamp[b := clock]
    ensures RingOk(n, nx, pv, ring', stamp', clock + 1)
  {
    Covers(ring, b);
    ghost var k := Position(ring, b);
    MovedToFront(next, prev, ring, k);
    ReleaseOrder(ring, stamp, clock, k);
    assert next[b] == ring[Succ(ring, k)];
    nx, pv := next, prev;
    pv := pv[nx[b] := pv[b]];
    nx := nx[pv[b] := nx[b]];
    nx := nx[b := nx[n]];
    pv := pv[b := n];
    pv := pv[nx[n] := b];
    nx := nx[n := b];
    ring', stamp' := MoveToFront(ring, k), stamp[b := clock];
  }

  class Lru {
    const n: nat
    // Index n is the list head.
    var next: seq<nat>
    var prev: seq<nat>
    // The ring in order, from the head; and when each buffer last became unused.
    ghost var ring: seq<nat>
    ghost var stamp: seq<nat>
    ghost var clock: nat

    ghost predicate Valid()
      reads this
    {
      RingOk(n, next, prev, ring, stamp, clock)
    }

    constructor (n: nat)
      ensures Valid() && this.n == n
      ensures forall k :: 0 < k <= n ==> ring[k] == n - k
    {
      this.n := n;
      stamp, clock := seq(n, i => i), n;
      var nx, pv;
      ghost var c;
      nx, pv, c := InitLinks(n);
      next, prev, ring := nx, pv, c;
    }

    /** A buffer that becomes unused moves to the front. */
    method ToFront(i: nat)
      requires Valid() && i < n
      modifies this
      ensures Valid()
      ensures Moved(old(ring), ring, i) && stamp == old(stamp)[i := old(clock)]
    {
      next, prev, ring, stamp := MoveLinks(n, next, prev, i, ring, stamp, clock);
      clock := clock + 1;
    }
  }
}
