/** The circular doubly linked list of kernel/bio.c, with links as array indices.
    An element is an index below |links|; index 0 of the ghost sequence `c` is the
    list head, so c lists the ring once, starting at the head. */
module Ring {

  function Succ(c: seq<nat>, k: nat): (j: nat)
    requires k < |c|
    ensures j < |c|
  {
    if k + 1 == |c| then 0 else k + 1
  }

  /** c lists indices below |c|, none of them twice. */
  ghost predicate Permutation(c: seq<nat>) {
    && (forall k :: 0 <= k < |c| ==> c[k] < |c|)
    && (forall j, k :: 0 <= j < k < |c| ==> c[j] != c[k])
  }

  ghost function Below(n: nat): (s: set<nat>)
    ensures |s| == n && forall b: nat :: b in s <==> b < n
  {
    if n == 0 then {} else Below(n - 1) + {n - 1}
  }

  ghost function Elements(c: seq<nat>): (s: set<nat>)
    ensures forall b :: b in s <==> b in c
  {
    if c == [] then {} else Elements(c[1..]) + {c[0]}
  }

  lemma {:induction false} DistinctCount(c: seq<nat>)
    requires forall j, k :: 0 <= j < k < |c| ==> c[j] != c[k]
    ensures |Elements(c)| == |c|
  {
    if c != [] {
      DistinctCount(c[1..]);
      assert c[0] !in Elements(c[1..]);
    }
  }

  lemma {:induction false} SubsetOfSameSize(s: set<nat>, t: set<nat>)
    requires s <= t && |s| == |t|
    ensures s == t
  {
    if s != {} {
      var x :| x in s;
      SubsetOfSameSize(s - {x}, t - {x});
    }
  }

  /** Such a list holds every index below its length. */
  lemma Covers(c: seq<nat>, b: nat)
    requires Permutation(c) && b < |c|
    ensures b in c
  {
    DistinctCount(c);
    SubsetOfSameSize(Elements(c), Below(|c|));
    assert b in Below(|c|);
  }

  /** Where the ring holds b. */
  ghost function Position(c: seq<nat>, b: nat): (k: nat)
    requires b in c
    ensures k < |c| && c[k] == b
  {
    if c[0] == b then 0 else 1 + Position(c[1..], b)
  }

  /** next and prev are the two directions of the cycle c. */
  ghost predicate Linked(next: seq<nat>, prev: seq<nat>, c: seq<nat>) {
    && |c| > 0
    && |next| == |prev| == |c|
    && Permutation(c)
    && (forall k :: 0 <= k < |c| ==> next[c[k]] == c[Succ(c, k)])
    && (forall k :: 0 <= k < |c| ==> prev[c[Succ(c, k)]] == c[k])
  }

  /** The ring after the element at position k moves to just behind the head. */
  ghost function MoveToFront(c: seq<nat>, k: nat): (r: seq<nat>)
    requires 0 < k < |c|
    ensures |r| == |c| && r[0] == c[0] && r[1] == c[k]
  {
    [c[0], c[k]] + c[1..k] + c[k + 1..]
  }

  lemma MoveToFrontIndex(c: seq<nat>, k: nat, j: nat)
    requires 0 < k < |c| && j < |c|
    ensures MoveToFront(c, k)[j] == c[if j == 0 then 0 else if j == 1 then k else if j <= k then j - 1 else j]
  {
  }

  lemma MoveToFrontPermutation(c: seq<nat>, k: nat)
    requires 0 < k < |c| && Permutation(c)
    ensures Permutation(MoveToFront(c, k))
  {
  }

  // The link surgery of brelse: unlink b, then insert it after the head.

  function UnlinkNext(next: seq<nat>, prev: seq<nat>, b: nat): (r: seq<nat>)
    requires b < |prev| == |next| && prev[b] < |next|
    ensures |r| == |next|
  {
    next[prev[b] := next[b]]
  }

  function UnlinkPrev(next: seq<nat>, prev: seq<nat>, b: nat): (r: seq<nat>)
    requires b < |prev| == |next| && next[b] < |prev|
    ensures |r| == |prev|
  {
    prev[next[b] := prev[b]]
  }

  /** Unlinking leaves the ring of the other elements. */
  lemma Unlinked(next: seq<nat>, prev: seq<nat>, c: seq<nat>, k: nat)
    requires Linked(next, prev, c) && 0 < k < |c|
    ensures var b, u := c[k], c[..k] + c[k + 1..];
            && prev[b] < |next| && next[b] < |prev|
            && var nx, pv := UnlinkNext(next, prev, b), UnlinkPrev(next, prev, b);
               && (forall j :: 0 <= j < |u| ==> nx[u[j]] == u[Succ(u, j)])
               && (forall j :: 0 <= j < |u| ==> pv[u[Succ(u, j)]] == u[j])
  {
    var b, u := c[k], c[..k] + c[k + 1..];
    assert prev[b] == c[k - 1] by { assert b == c[Succ(c, k - 1)]; }
    assert next[b] == c[Succ(c, k)];
    var nx, pv := UnlinkNext(next, prev, b), UnlinkPrev(next, prev, b);
    forall j | 0 <= j < |u|
      ensures nx[u[j]] == u[Succ(u, j)] && pv[u[Succ(u, j)]] == u[j]
    {
      UnlinkedAt(next, prev, c, k, j);
    }
  }

  lemma UnlinkedAt(next: seq<nat>, prev: seq<nat>, c: seq<nat>, k: nat, j: nat)
    requires Linked(next, prev, c) && 0 < k < |c| && j < |c| - 1
    requires var b := c[k]; prev[b] == c[k - 1] && next[b] == c[Succ(c, k)]
    ensures var b, u := c[k], c[..k] + c[k + 1..];
            && prev[b] < |next| && next[b] < |prev|
            && UnlinkNext(next, prev, b)[u[j]] == u[Succ(u, j)] && UnlinkPrev(next, prev, b)[u[Succ(u, j)]] == u[j]
  {
    var i := if j < k then j else j + 1;
    assert next[c[i]] == c[Succ(c, i)] && prev[c[Succ(c, i)]] == c[i];
  }

  /** Inserting b behind the head of a ring u that does not contain it. */
  lemma Inserted(nx: seq<nat>, pv: seq<nat>, u: seq<nat>, b: nat)
    requires |u| > 0 && b < |nx| == |pv|
    requires forall j :: 0 <= j < |u| ==> u[j] < |nx| && u[j] != b
    requires forall i, j :: 0 <= i < j < |u| ==> u[i] != u[j]
    requires forall j :: 0 <= j < |u| ==> nx[u[j]] == u[Succ(u, j)]
    requires forall j :: 0 <= j < |u| ==> pv[u[Succ(u, j)]] == u[j]
    ensures var h, r := u[0], [u[0], b] + u[1..];
            && nx[h] < |pv|
            && var nx', pv' := nx[b := nx[h]][h := b], pv[b := h][nx[h] := b];
               && (forall j :: 0 <= j < |r| ==> nx'[r[j]] == r[Succ(r, j)])
               && (forall j :: 0 <= j < |r| ==> pv'[r[Succ(r, j)]] == r[j])
  {
    var h, r := u[0], [u[0], b] + u[1..];
    assert nx[h] == u[Succ(u, 0)];
    var nx', pv' := nx[b := nx[h]][h := b], pv[b := h][nx[h] := b];
    assert forall j :: 2 <= j < |r| ==> r[j] == u[j - 1];
    forall j | 0 <= j < |r|
      ensures nx'[r[j]] == r[Succ(r, j)] && pv'[r[Succ(r, j)]] == r[j]
    {
      if j >= 2 {
        assert nx[u[j - 1]] == u[Succ(u, j - 1)];
        assert pv[u[Succ(u, j - 1)]] == u[j - 1];
      }
    }
  }

  /** The whole of brelse's surgery moves b to the front and keeps the ring. */
  lemma MovedToFront(next: seq<nat>, prev: seq<nat>, c: seq<nat>, k: nat)
    requires Linked(next, prev, c) && 0 < k < |c|
    ensures prev[c[k]] < |next| && next[c[k]] < |prev|
    ensures var b, h := c[k], c[0];
            var nx, pv := UnlinkNext(next, prev, b), UnlinkPrev(next, prev, b);
            nx[h] < |pv| && Linked(nx[b := nx[h]][h := b], pv[b := h][nx[h] := b], MoveToFront(c, k))
  {
    var u := c[..k] + c[k + 1..];
    Unlinked(next, prev, c, k);
    Inserted(UnlinkNext(next, prev, c[k]), UnlinkPrev(next, prev, c[k]), u, c[k]);
    assert [u[0], c[k]] + u[1..] == MoveToFront(c, k);
    MoveToFrontPermutation(c, k);
  }
}
