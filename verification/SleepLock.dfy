/** The sleep locks of kernel/sleeplock.c, on top of sleep and wakeup: any number of processes
    and sleep locks, in any interleaving of their steps. */
module SleepLock {
  import opened Common
  import opened Ownership
  import W = SleepWakeup

  /** The fields of struct sleeplock that its inner spin lock guards; pid is -1 for nobody. */
  datatype Lock = Lock(locked: bool, pid: int)

  /** Sleep lock l is slept on under its own spin lock, until it is not locked. */
  function System(nlock: nat): (y: W.System<Lock>) {
    W.System(nlock, (ch: nat) => ch, (ch: nat, v: Lock) => !v.locked)
  }

  /** What a process is about to do once it holds the inner spin lock of l. */
  datatype Todo =
    | Nothing
    | Get(l: nat)      // acquiresleep: look at locked
    | Got(l: nat)      // acquiresleep: release the spin lock
    | Put(l: nat)      // releasesleep: clear locked
    | Cleared(l: nat)  // releasesleep: call wakeup
    | Woken(l: nat)    // releasesleep: release the spin lock

  /** held is history: the sleep locks for which acquiresleep has succeeded. */
  datatype State = State(core: W.State<Lock>, todo: seq<Todo>, held: seq<set<nat>>)

  datatype Event =
    | Acquire(p: nat, l: nat)   // a process calls acquiresleep
    | Release(p: nat, l: nat)   // a process calls releasesleep on a lock it holds
    | Step(p: nat)              // a process, or the scheduler for it, does its next step
    | Dispatch(p: nat)          // a scheduler switches to a runnable process
    | Kill(p: nat)              // kill makes a sleeping process runnable

  function Boot(nproc: nat, nlock: nat): (s: State) {
    State(W.Boot(nproc, seq(nlock, _ => Lock(false, -1))), seq(nproc, _ => Nothing), seq(nproc, _ => {}))
  }

  predicate Shape(s: State) {
    W.Shape(s.core) && |s.todo| == |s.held| == |s.core.procs|
  }

  /** The next step of a process that holds the inner spin lock, with what it does then. */
  function Inside(s: State, p: nat): (r: (W.Event<Lock>, Todo, set<nat>))
    requires Shape(s) && p < |s.todo|
  {
    var has := s.held[p];
    match s.todo[p]
    case Nothing => (W.Leave(p), Nothing, has)
    case Get(l) =>
      if l < |s.core.shared| && s.core.shared[l].locked then (W.Snooze(p, l), Get(l), has)
      else (W.Change(p, Lock(true, p)), Got(l), has + {l})
    case Got(l) => (W.Leave(p), Nothing, has)
    case Put(l) => (W.Change(p, Lock(false, -1)), Cleared(l), has - {l})
    case Cleared(l) => (W.Rouse(p, l), Woken(l), has)
    case Woken(l) => (W.Leave(p), Nothing, has)
  }

  /** What an event is to sleep and wakeup, and what its process has to do and holds then. */
  function Part(s: State, e: Event): (r: Option<(W.Event<Lock>, Todo, set<nat>)>)
    requires Shape(s)
  {
    if e.p >= |s.todo| then None
    else
      var todo, has := s.todo[e.p], s.held[e.p];
      match e
      case Acquire(p, l) => if todo.Nothing? then Some((W.Enter(p, l), Get(l), has)) else None
      case Release(p, l) => if todo.Nothing? && l in has then Some((W.Enter(p, l), Put(l), has)) else None
      case Step(p) => if s.core.procs[p].pc.In? then Some(Inside(s, p)) else Some((W.Step(p), todo, has))
      case Dispatch(p) => Some((W.Dispatch(p), todo, has))
      case Kill(p) => Some((W.Kill(p), todo, has))
  }

  function Do(s: State, e: Event): (r: Option<State>)
    requires Shape(s)
  {
    var part := Part(s, e);
    if part.None? then None
    else
      var core := W.Do(System(|s.core.lk|), s.core, part.value.0);
      if core.None? then None
      else Some(State(core.value, s.todo[e.p := part.value.1], s.held[e.p := part.value.2]))
  }

  // Who holds what.

  /** The holder of each sleep lock, as its fields say. */
  function Owners(s: State): (r: seq<int>) {
    seq(|s.core.shared|, l requires 0 <= l < |s.core.shared| => if s.core.shared[l].locked
      then s.core.shared[l].pid else -1)
  }

  ghost predicate TodoOk(s: State, p: nat)
    requires p < |s.todo| == |s.held| == |s.core.procs|
  {
    && (s.core.procs[p].pc.Out? <==> s.todo[p].Nothing?)
    && (!s.todo[p].Nothing? ==> s.core.procs[p].pc.l == s.todo[p].l)
    && (s.todo[p].Put? ==> s.todo[p].l in s.held[p])
  }

  ghost predicate HoldOk(s: State) {
    Shape(s) && Owns(Owners(s), s.held) && forall p :: 0 <= p < |s.todo| ==> TodoOk(s, p)
  }

  lemma BootHolds(nproc: nat, nlock: nat)
    ensures HoldOk(Boot(nproc, nlock))
  {
  }

  lemma PartOfCore(s: State, e: Event)
    requires Shape(s) && Do(s, e).Some?
    ensures var s' := Do(s, e).value;
            && e.p < |s.todo| && Part(s, e).Some? && Part(s, e).value.0.p == e.p
            && W.Do(System(|s.core.lk|), s.core, Part(s, e).value.0) == Some(s'.core)
            && Shape(s') && |s'.core.lk| == |s.core.lk| && |s'.todo| == |s.todo|
            && forall q :: 0 <= q < |s.todo| && q != e.p ==>
                 s'.core.procs[q].pc == s.core.procs[q].pc && s'.todo[q] == s.todo[q] && s'.held[q] == s.held[q]
  {
    hide W.Do;
    W.OthersStay(System(|s.core.lk|), s.core, Part(s, e).value.0);
  }

  lemma TodoKept(s: State, e: Event)
    requires HoldOk(s) && Do(s, e).Some?
    ensures e.p < |s.todo| && TodoOk(Do(s, e).value, e.p)
  {
    hide Owns, W.Owing;
    PartOfCore(s, e);
    assert TodoOk(s, e.p);
  }

  /** What the core event does to the fields of the locks. */
  lemma SharedAfter(s: State, e: Event)
    requires HoldOk(s) && Do(s, e).Some?
    ensures var s' := Do(s, e).value;
            var c := Part(s, e).value.0;
            e.p < |s.todo| && |s'.core.shared| == |s.core.shared| &&
            if c.Change? then
              && s.todo[e.p].l < |s.core.shared| && s'.core.shared == s.core.shared[s.todo[e.p].l := c.v]
              && e == Step(e.p) && s.core.procs[e.p].pc.In?
            else s'.core.shared == s.core.shared && s'.held == s.held
  {
    hide Owns, W.Owing;
    PartOfCore(s, e);
    assert TodoOk(s, e.p);
  }

  lemma OwnersKept(s: State, e: Event)
    requires HoldOk(s) && Do(s, e).Some?
    ensures Owns(Owners(Do(s, e).value), Do(s, e).value.held)
  {
    hide Owns, W.Do, W.Owing;
    PartOfCore(s, e);
    SharedAfter(s, e);
    var s', c := Do(s, e).value, Part(s, e).value.0;
    if c.Change? {
      assert TodoOk(s, e.p);
      var l := s.todo[e.p].l;
      OwnerIs(s, e.p, l);
      if s.todo[e.p].Get? {
        OwnsTake(Owners(s), s.held, e.p, l);
      } else {
        OwnsDrop(Owners(s), s.held, e.p, l);
      }
      assert Owners(s') == Owners(s)[l := if c.v.locked then c.v.pid else -1];
    } else {
      assert Owners(s') == Owners(s);
    }
  }

  lemma OwnerIs(s: State, p: nat, l: nat)
    requires Owns(Owners(s), s.held) && p < |s.held| && l < |s.core.shared|
    ensures Owners(s)[l] == p <==> l in s.held[p]
  {
  }

  lemma HoldKept(s: State, e: Event)
    requires HoldOk(s) && Do(s, e).Some?
    ensures HoldOk(Do(s, e).value)
  {
    hide Owns, Do, Owners;
    PartOfCore(s, e);
    OwnersKept(s, e);
    var s' := Do(s, e).value;
    forall p | 0 <= p < |s'.todo|
      ensures TodoOk(s', p)
    {
      assert TodoOk(s, p);
      if p == e.p {
        TodoKept(s, e);
      }
    }
  }

  /** The state after a run; an event that is not possible ends it. */
  function Run(s: State, es: seq<Event>): (r: Option<State>)
    requires Shape(s)
    decreases |es|
  {
    if es == [] then Some(s)
    else
      var r := Do(s, es[0]);
      if r.None? || !Shape(r.value) then None else Run(r.value, es[1..])
  }

  lemma {:induction false} RunHolds(s: State, es: seq<Event>)
    requires HoldOk(s) && Run(s, es).Some?
    ensures var r := Run(s, es).value; HoldOk(r) && |r.core.lk| == |s.core.lk| && |r.todo| == |s.todo|
    decreases |es|
  {
    hide Do, HoldOk;
    if es != [] {
      HoldShape(s);
      PartOfCore(s, es[0]);
      HoldKept(s, es[0]);
      RunHolds(Do(s, es[0]).value, es[1..]);
    }
  }

  lemma HoldShape(s: State)
    requires HoldOk(s)
    ensures Shape(s)
  {
  }

  /** Every run of sleep locks is a run of sleep and wakeup. */
  lemma {:induction false} CoreRun(s: State, es: seq<Event>) returns (cs: seq<W.Event<Lock>>)
    requires Shape(s) && Run(s, es).Some?
    ensures W.Run(System(|s.core.lk|), s.core, cs) == Some(Run(s, es).value.core)
    decreases |es|
  {
    hide Do, W.Do;
    if es == [] {
      cs := [];
    } else {
      PartOfCore(s, es[0]);
      var rest := CoreRun(Do(s, es[0]).value, es[1..]);
      cs := [Part(s, es[0]).value.0] + rest;
      assert cs[1..] == rest;
    }
  }

  /** So no wakeup of a sleep lock is lost: in every run, nobody is asleep on a sleep lock, or
      past release(lk) on the way there, when it is not locked and its spin lock is free. */
  lemma FreeLockNoSleeper(nproc: nat, nlock: nat, es: seq<Event>, l: nat, p: nat)
    requires l < nlock && p < nproc && Run(Boot(nproc, nlock), es).Some?
    ensures var s := Run(Boot(nproc, nlock), es).value.core;
            && |s.lk| == |s.shared| == nlock && |s.procs| == nproc
            && (!s.shared[l].locked && s.lk[l] == -1 ==> !W.Asleep(s.procs[p], l))
  {
    var b := Boot(nproc, nlock);
    var cs := CoreRun(b, es);
    W.NoLostWakeup(System(nlock), nproc, seq(nlock, _ => Lock(false, -1)), cs, l, p);
  }

  /** In every run locked and pid name exactly the process that holds the lock, which is what
      holdingsleep looks at; so no two processes hold it. */
  lemma HoldingExact(nproc: nat, nlock: nat, es: seq<Event>, l: nat, p: nat, q: nat)
    requires l < nlock && p < nproc && q < nproc && Run(Boot(nproc, nlock), es).Some?
    ensures var s := Run(Boot(nproc, nlock), es).value;
            && |s.core.shared| == nlock && |s.held| == nproc
            && (s.core.shared[l].locked && s.core.shared[l].pid == p <==> l in s.held[p])
            && (l in s.held[p] && l in s.held[q] ==> p == q)
  {
    BootHolds(nproc, nlock);
    RunHolds(Boot(nproc, nlock), es);
    var s := Run(Boot(nproc, nlock), es).value;
    OwnerIs(s, p, l);
    OwnerIs(s, q, l);
  }
}
