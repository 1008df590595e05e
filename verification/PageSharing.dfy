/** kalloc and kfree of kernel/kalloc.c called by several processes at once: each call runs under
    kmem.lock, so a run is any interleaving of their calls and of stores to pages they hold. */
module PageSharing {
  import opened Common
  import opened PageTable
  import opened Vm

  /** What kalloc and kfree fill a page with. */
  datatype Fill = Fill(junk: Content, freed: Content)

  /** owns[p] are the pages process p has been given and has not given back. */
  datatype State = State(mem: Memory, free: seq<nat>, owns: seq<set<nat>>)

  datatype Event = Alloc(p: nat) | Give(p: nat, x: nat) | Store(p: nat, x: nat, v: Content)

  function Do(k: Fill, s: State, e: Event): (r: Option<State>) {
    if e.p >= |s.owns| then None
    else
      match e
      case Alloc(p) =>
        if s.free == [] then Some(s)
        else Some(State(s.mem[s.free[0] := k.junk], s.free[1..], s.owns[p := s.owns[p] + {s.free[0]}]))
      case Give(p, x) =>
        if x in s.owns[p] then Some(State(s.mem[x := k.freed], [x] + s.free, s.owns[p := s.owns[p] - {x}])) else None
      case Store(p, x, v) =>
        if x in s.owns[p] then Some(s.(mem := s.mem[x := v])) else None
  }

  /** No two processes own the same page, and none owns a free one. */
  ghost predicate Separate(free: seq<nat>, owns: seq<set<nat>>) {
    && (forall i, j :: 0 <= i < j < |free| ==> free[i] != free[j])
    && (forall p, q, x :: 0 <= p < |owns| && 0 <= q < |owns| && x in owns[p] && x in owns[q] ==> p == q)
    && (forall p, x :: 0 <= p < |owns| && x in owns[p] ==> x !in free)
  }

  ghost predicate Owned(owns: seq<set<nat>>, x: nat) {
    exists p :: 0 <= p < |owns| && x in owns[p]
  }

  /** Every page is on the free list, once, or with one process. */
  ghost predicate Partition(s: State) {
    Separate(s.free, s.owns) && forall x :: x in s.mem <==> x in s.free || Owned(s.owns, x)
  }

  lemma OwnedSet(owns: seq<set<nat>>, p: nat, own: set<nat>, x: nat)
    requires p < |owns| && x !in owns[p] && x !in own
    ensures Owned(owns[p := own], x) <==> Owned(owns, x)
  {
    var owns' := owns[p := own];
    if Owned(owns, x) {
      var q :| 0 <= q < |owns| && x in owns[q];
      assert x in owns'[q];
    }
    if Owned(owns', x) {
      var q :| 0 <= q < |owns'| && x in owns'[q];
      assert x in owns[q];
    }
  }

  lemma AllocKept(free: seq<nat>, owns: seq<set<nat>>, p: nat, x: nat)
    requires Separate(free, owns) && p < |owns| && free != []
    ensures var owns' := owns[p := owns[p] + {free[0]}];
            && Separate(free[1..], owns')
            && (x in free || Owned(owns, x) <==> x in free[1..] || Owned(owns', x))
  {
    var owns' := owns[p := owns[p] + {free[0]}];
    assert free == [free[0]] + free[1..] && free[0] in free;
    forall i | 0 <= i < |free[1..]|
      ensures free[1..][i] == free[i + 1] && free[1..][i] in free && free[1..][i] != free[0]
    {
    }
    forall q, z | 0 <= q < |owns| && z in owns'[q]
      ensures z !in free[1..] && (z in owns[q] || (q == p && z == free[0]))
    {
    }
    assert free[0] in owns'[p];
    if x in owns[p] {
      assert x in owns'[p];
    } else if x != free[0] {
      OwnedSet(owns, p, owns'[p], x);
    }
  }

  lemma GiveKept(free: seq<nat>, owns: seq<set<nat>>, p: nat, y: nat, x: nat)
    requires Separate(free, owns) && p < |owns| && y in owns[p]
    ensures var owns' := owns[p := owns[p] - {y}];
            && Separate([y] + free, owns')
            && (x in free || Owned(owns, x) <==> x in [y] + free || Owned(owns', x))
  {
    var owns' := owns[p := owns[p] - {y}];
    assert forall q, z :: 0 <= q < |owns| && z in owns'[q] ==> z in owns[q];
    assert y !in free;
    if x in owns[p] && x != y {
      assert x in owns'[p];
    } else if x != y {
      OwnedSet(owns, p, owns'[p], x);
    }
  }

  lemma PartitionKept(k: Fill, s: State, e: Event)
    requires Partition(s) && Do(k, s, e).Some?
    ensures Partition(Do(k, s, e).value) && Do(k, s, e).value.mem.Keys == s.mem.Keys
  {
    hide Separate, Owned;
    var s' := Do(k, s, e).value;
    match e
    case Alloc(p) =>
      if s.free != [] {
        forall x
          ensures Separate(s'.free, s'.owns)
          ensures x in s.free || Owned(s.owns, x) <==> x in s'.free || Owned(s'.owns, x)
        {
          AllocKept(s.free, s.owns, p, x);
        }
        assert s.free[0] in s.mem;
      }
    case Give(p, y) =>
      forall x
        ensures Separate(s'.free, s'.owns)
        ensures x in s.free || Owned(s.owns, x) <==> x in s'.free || Owned(s'.owns, x)
      {
        GiveKept(s.free, s.owns, p, y, x);
      }
      IsOwned(s.owns, p, y);
    case Store(p, y, v) =>
      IsOwned(s.owns, p, y);
  }

  lemma IsOwned(owns: seq<set<nat>>, p: nat, x: nat)
    requires p < |owns| && x in owns[p]
    ensures Owned(owns, x)
  {
  }

  function Run(k: Fill, s: State, es: seq<Event>): (r: Option<State>)
    decreases |es|
  {
    if es == [] then Some(s) else if Do(k, s, es[0]).None? then None else Run(k, Do(k, s, es[0]).value, es[1..])
  }

  /** No page is lost, given twice or shared, however the calls interleave. */
  lemma {:induction false} RunConserves(k: Fill, s: State, es: seq<Event>)
    requires Partition(s) && Run(k, s, es).Some?
    ensures Partition(Run(k, s, es).value) && Run(k, s, es).value.mem.Keys == s.mem.Keys
    decreases |es|
  {
    hide Partition, Do;
    if es != [] {
      PartitionKept(k, s, es[0]);
      RunConserves(k, Do(k, s, es[0]).value, es[1..]);
    }
  }

  /** A page nobody owns goes to the caller of kalloc, filled with junk; if every page has an
      owner, nothing happens. */
  lemma AllocExactly(k: Fill, s: State, p: nat)
    requires Partition(s) && p < |s.owns|
    ensures Do(k, s, Alloc(p)).Some?
    ensures var s' := Do(k, s, Alloc(p)).value;
            if forall x :: x in s.mem ==> Owned(s.owns, x) then s' == s
            else exists x :: x in s.mem && !Owned(s.owns, x) && s'.mem == s.mem[x := k.junk] &&
                             s'.owns == s.owns[p := s.owns[p] + {x}]
  {
    if s.free != [] {
      var x := s.free[0];
      assert x in s.free;
      assert x in s.mem && !Owned(s.owns, x);
    } else {
      assert forall x :: x in s.mem ==> Owned(s.owns, x);
    }
  }

  /** Who gives a page back gets it again. */
  lemma GiveThenAlloc(k: Fill, s: State, p: nat, x: nat)
    requires Partition(s) && p < |s.owns| && x in s.owns[p]
    ensures Do(k, s, Give(p, x)).Some? && Do(k, Do(k, s, Give(p, x)).value, Alloc(p)) ==
            Some(s.(mem := s.mem[x := k.junk]))
  {
    IsOwned(s.owns, p, x);
    var m := Do(k, s, Give(p, x)).value;
    assert m.free[0] == x && m.free[1..] == s.free;
    assert m.owns[p] + {x} == s.owns[p];
    assert m.owns[p := s.owns[p]] == s.owns;
    assert m.mem[x := k.junk] == s.mem[x := k.junk];
  }

  // What a process sees of it.

  /** The pages of process p, with their contents. */
  ghost function Private(s: State, p: nat): (r: Memory)
    requires p < |s.owns|
  {
    map x | x in s.owns[p] && x in s.mem :: s.mem[x]
  }

  /** What a call or store of the process itself does to them; kalloc gave the page got. */
  function Alone(k: Fill, own: Memory, e: Event, got: Option<nat>): (r: Memory) {
    match e
    case Alloc(_) => if got.Some? then own[got.value := k.junk] else own
    case Give(_, x) => own - {x}
    case Store(_, x, v) => own[x := v]
  }

  function Got(s: State, e: Event): (r: Option<nat>) {
    if e.Alloc? && s.free != [] then Some(s.free[0]) else None
  }

  /** The calls and stores of process p alone, each with the page that kalloc gave. */
  function Mine(k: Fill, s: State, es: seq<Event>, p: nat): (r: seq<(Event, Option<nat>)>)
    decreases |es|
  {
    if es == [] || Do(k, s, es[0]).None? then []
    else (if es[0].p == p then [(es[0], Got(s, es[0]))] else []) + Mine(k, Do(k, s, es[0]).value, es[1..], p)
  }

  function Replay(k: Fill, own: Memory, cs: seq<(Event, Option<nat>)>): (r: Memory)
    decreases |cs|
  {
    if cs == [] then own else Replay(k, Alone(k, own, cs[0].0, cs[0].1), cs[1..])
  }

  lemma PrivateAfter(k: Fill, s: State, e: Event, p: nat)
    requires Partition(s) && p < |s.owns| && Do(k, s, e).Some?
    ensures p < |Do(k, s, e).value.owns|
    ensures Private(Do(k, s, e).value, p) == if e.p == p then Alone(k, Private(s, p), e, Got(s, e)) else Private(s, p)
  {
    hide Owned;
    forall x | x in s.owns[p]
      ensures x in s.mem && x !in s.free && (e.p != p ==> x !in s.owns[e.p])
    {
      IsOwned(s.owns, p, x);
    }
    assert s.free != [] ==> s.free[0] in s.free;
  }

  /** A process finds in its pages what it has put there itself: after any interleaving they are
      what its own calls and stores make of them, as if it were alone. */
  lemma {:induction false} RunIsolates(k: Fill, s: State, es: seq<Event>, p: nat)
    requires Partition(s) && p < |s.owns| && Run(k, s, es).Some?
    ensures p < |Run(k, s, es).value.owns|
    ensures Private(Run(k, s, es).value, p) == Replay(k, Private(s, p), Mine(k, s, es, p))
    decreases |es|
  {
    hide Partition, Do, Private, Alone;
    if es != [] {
      var s1 := Do(k, s, es[0]).value;
      PartitionKept(k, s, es[0]);
      PrivateAfter(k, s, es[0], p);
      RunIsolates(k, s1, es[1..], p);
      var rest := Mine(k, s1, es[1..], p);
      assert es[0].p == p ==> ([(es[0], Got(s, es[0]))] + rest)[1..] == rest;
      assert [] + rest == rest;
    }
  }
}
