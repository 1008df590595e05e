/** That processes get somewhere: no CPU waits for ever on the locks of kernel/proc.c, and fork,
    wait and exit, run on one CPU, do to the process table what they are for. */
module ProcessRuns {
  import opened Common
  import opened Ownership
  import opened Processes
  import opened ProcessLocks
  import opened ExitWait
  import opened Reaping

  // The scheduler.

  /** A CPU that has looked at a runnable process runs it, from where it left off. */
  lemma Dispatched(ncpu: nat, nproc: nat, s: State, c: nat, p: nat)
    requires Reachable(ncpu, nproc, s) && c < |s.cpus| && p < |s.procs| && s.cpus[c] == Took(p)
    requires s.procs[p].state == Runnable
    ensures Shape(s) && s.procs[p].pc.Parked?
    ensures Do(s, Look(c)) ==
            Some(s.(cpus := s.cpus[c := Processes.Run(p)],
                    procs := s.procs[p := s.procs[p].(state := Running, pc := Resumed(s.procs[p].pc.ret))]))
  {
    hide Reachable;
    RunnableParked(ncpu, nproc, s, c);
    ReachableShape(ncpu, nproc, s);
  }

  lemma ReachableShape(ncpu: nat, nproc: nat, s: State)
    requires Reachable(ncpu, nproc, s)
    ensures Shape(s) && AllOk(s) && |s.procs| == nproc && |s.cpus| == ncpu
  {
    hide Reachable, Owns, CpusOk, SlotsOk, ForksOk, FamilyOk;
    ReachableOk(ncpu, nproc, s);
  }

  // Deadlock.

  /** Some step of CPU c is possible. */
  ghost predicate CanStep(s: State, c: nat)
    requires Shape(s)
  {
    exists e: Event :: e.c == c && !e.Rouse? && Do(s, e).Some?
  }

  /** CPU c is about to acquire lock l; the scheduler goes for the lock of any process. */
  predicate Wants(s: State, c: nat, l: nat) {
    && c < |s.cpus|
    && (if s.cpus[c].Run? then
          s.cpus[c].p < |s.procs| && NextTake(s, s.cpus[c].p).Some? && NextTake(s, s.cpus[c].p).value.0 == l
        else s.cpus[c].Loop? && l < |s.procs|)
  }

  ghost predicate WaitsFor(s: State, c: nat, d: nat) {
    exists l: nat :: l < |s.locks| && Wants(s, c, l) && s.locks[l] == d
  }

  lemma Steps(s: State, c: nat, e: Event)
    requires Shape(s) && e.c == c && !e.Rouse? && Do(s, e).Some?
    ensures CanStep(s, c)
  {
  }

  /** A running process can go on, unless it wants a lock that is taken. */
  lemma RunsOn(s: State, c: nat, p: nat)
    requires Shape(s) && Runs(s, c, p) && Good(|s.procs|, p, s.procs[p].pc) && !s.procs[p].pc.Parked?
    ensures CanStep(s, c) || (exists l: nat :: l <= |s.procs| && NextTake(s, p).Some? && NextTake(s, p).value.0 == l &&
                                               s.locks[l] != -1)
    ensures NextTake(s, p).None? ==> CanStep(s, c)
    ensures NextTake(s, p).Some? ==> NextTake(s, p).value.0 <= |s.procs|
  {
    var t := NextTake(s, p);
    if t.Some? {
      if s.locks[t.value.0] == -1 {
        Steps(s, c, Take(c));
      }
    } else {
      var pc := s.procs[p].pc;
      if pc.User? {
        Steps(s, c, Enter(c, Wait0));
      } else if pc.Sched? {
        Steps(s, c, Switch(c));
      } else if NextDrop(|s.procs|, p, pc).Some? {
        Steps(s, c, Drop(c));
      } else {
        Steps(s, c, Act(c, true));
      }
    }
  }

  /** Whoever holds the lock of a process can go on. */
  lemma HolderSteps(s: State, d: nat, l: nat)
    requires AllOk(s) && Shape(s) && d < |s.cpus| && l < |s.procs| && s.locks[l] == d
    ensures CanStep(s, d)
  {
    hide Owns, ForksOk, FamilyOk, PidsOk, ScanOk, Do, StateOk, LinksOk;
    HeldFact(s, d, l);
    assert CpuOk(s, d);
    var u := s.cpus[d];
    match u
    case Took(p) => Steps(s, d, Look(d)) by { LookGoes(s, d, p); }
    case Put(p) => Steps(s, d, Leave(d)) by { LeaveGoes(s, d, p); }
    case Back(p) => Steps(s, d, Clear(d)) by { ClearGoes(s, d, p); }
    case Run(p) =>
      assert SlotOk(s, p);
      RunsOn(s, d, p);
      TakesNone(s, p, l);
    case Loop =>
  }

  lemma LookGoes(s: State, c: nat, p: nat)
    requires Shape(s) && c < |s.cpus| && s.cpus[c] == Took(p) && p < |s.procs|
    ensures Do(s, Look(c)).Some?
  {
  }

  lemma LeaveGoes(s: State, c: nat, p: nat)
    requires Shape(s) && c < |s.cpus| && s.cpus[c] == Put(p) && p < |s.procs|
    ensures Do(s, Leave(c)).Some?
  {
  }

  lemma ClearGoes(s: State, c: nat, p: nat)
    requires Shape(s) && c < |s.cpus| && s.cpus[c] == Back(p)
    ensures Do(s, Clear(c)).Some?
  {
  }

  /** With the lock of a process in hand, a process acquires no other. */
  lemma TakesNone(s: State, p: nat, l: nat)
    requires p < |s.procs| && l < |s.procs| && l in PcLocks(|s.procs|, p, s.procs[p].pc)
    ensures NextTake(s, p).None?
  {
  }

  /** With wait_lock in hand, it acquires only the lock of a process. */
  lemma TakesLower(s: State, p: nat)
    requires p < |s.procs| && |s.procs| in PcLocks(|s.procs|, p, s.procs[p].pc) && NextTake(s, p).Some?
    ensures NextTake(s, p).value.0 < |s.procs|
  {
  }

  /** A CPU that cannot go on waits for another. */
  lemma StepsOrWaits(s: State, c: nat)
    requires AllOk(s) && Shape(s) && c < |s.cpus|
    ensures CanStep(s, c) || exists l: nat :: l <= |s.procs| && Wants(s, c, l) && 0 <= s.locks[l] < |s.cpus|
  {
    hide ForksOk, FamilyOk, PidsOk, ScanOk, Do, StateOk, LinksOk;
    assert CpuOk(s, c);
    match s.cpus[c]
    case Took(p) => Steps(s, c, Look(c)) by { LookGoes(s, c, p); }
    case Put(p) => Steps(s, c, Leave(c)) by { LeaveGoes(s, c, p); }
    case Back(p) => Steps(s, c, Clear(c)) by { ClearGoes(s, c, p); }
    case Run(p) =>
      assert SlotOk(s, p);
      RunsOn(s, c, p);
      if !CanStep(s, c) {
        assert Wants(s, c, NextTake(s, p).value.0);
      }
    case Loop =>
      if s.locks[0] == -1 {
        Steps(s, c, Pick(c, 0)) by { PickGoes(s, c); }
      } else {
        assert Wants(s, c, 0);
      }
  }

  lemma PickGoes(s: State, c: nat)
    requires Shape(s) && c < |s.cpus| && s.cpus[c].Loop? && 0 < |s.procs| && s.locks[0] == -1
    ensures Do(s, Pick(c, 0)).Some?
  {
  }

  /** Whoever holds wait_lock can go on, or waits for somebody who can. */
  lemma WaitLockMoves(s: State, e: nat) returns (d: nat)
    requires AllOk(s) && Shape(s) && e < |s.cpus| && s.locks[|s.procs|] == e
    ensures d < |s.cpus| && CanStep(s, d) && (d == e || WaitsFor(s, e, d))
  {
    hide CanStep, Owns, ForksOk, FamilyOk, PidsOk, ScanOk, Good, StateOk, LinksOk, NextTake;
    HeldFact(s, e, |s.procs|);
    assert CpuOk(s, e);
    StepsOrWaits(s, e);
    d := e;
    if !CanStep(s, e) {
      var l: nat :| l <= |s.procs| && Wants(s, e, l) && 0 <= s.locks[l] < |s.cpus|;
      if s.cpus[e].Run? {
        TakesLower(s, s.cpus[e].p);
      }
      d := s.locks[l];
      HolderSteps(s, d, l);
      assert WaitsFor(s, e, d);
    }
  }

  /** No deadlock: in every reachable state each CPU can go on, or waits for one that can, or
      for one that waits for one that can. */
  lemma NoDeadlock(ncpu: nat, nproc: nat, s: State, c: nat) returns (d: nat, e: nat)
    requires Reachable(ncpu, nproc, s) && c < ncpu
    ensures Shape(s) && d < ncpu && CanStep(s, d)
    ensures d == c || WaitsFor(s, c, d) || (WaitsFor(s, c, e) && WaitsFor(s, e, d))
  {
    hide Reachable, AllOk, CanStep, Wants;
    ReachableShape(ncpu, nproc, s);
    StepsOrWaits(s, c);
    d, e := c, c;
    if !CanStep(s, c) {
      var l: nat :| l <= |s.procs| && Wants(s, c, l) && 0 <= s.locks[l] < |s.cpus|;
      e := s.locks[l];
      d := e;
      assert WaitsFor(s, c, e);
      if l < |s.procs| {
        HolderSteps(s, e, l);
      } else {
        d := WaitLockMoves(s, e);
      }
    }
  }
}
