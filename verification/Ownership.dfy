/** Locks and their owners: owner[l] names the one process whose set has[p] contains
    lock l, or is -1. */
module Ownership {

  ghost predicate Owns(owner: seq<int>, has: seq<set<nat>>) {
    && (forall l :: 0 <= l < |owner| ==> -1 <= owner[l] < |has|)
    && (forall p, l :: 0 <= p < |has| && 0 <= l < |owner| ==> (owner[l] == p <==> l in has[p]))
    && (forall p, l :: 0 <= p < |has| && l in has[p] ==> l < |owner|)
  }

  /** A free lock is taken. */
  lemma OwnsTake(owner: seq<int>, has: seq<set<nat>>, p: nat, l: nat)
    requires Owns(owner, has) && p < |has| && l < |owner| && owner[l] == -1
    ensures Owns(owner[l := p], has[p := has[p] + {l}])
  {
  }

  /** A lock is given up by its owner. */
  lemma OwnsDrop(owner: seq<int>, has: seq<set<nat>>, p: nat, l: nat)
    requires Owns(owner, has) && p < |has| && l in has[p]
    ensures Owns(owner[l := -1], has[p := has[p] - {l}])
  {
  }
}
