/** Who holds which lock, and which process is on which CPU, in every reachable state of
    the process table. */
module ProcessLocks {
  import opened Common
  import opened Ownership
  import opened Processes

  /** The locks CPU c holds. */
  function Held(s: State, c: nat): (r: set<nat>)
    requires c < |s.cpus|
  {
    match s.cpus[c]
    case Loop => {}
    case Took(p) => {p} case Put(p) => {p} case Back(p) => {p}
    case Run(p) => if p < |s.procs| then PcLocks(|s.procs|, p, s.procs[p].pc) else {}
  }

  ghost function HeldSets(s: State): (r: seq<set<nat>>) {
    seq(|s.cpus|, c requires 0 <= c < |s.cpus| => Held(s, c))
  }

  ghost predicate LocksOk(s: State) {
    Shape(s) && Owns(s.locks, HeldSets(s))
  }

  /** Where the process will be once it is through with the scheduler. */
  function Base(pc: Pc): (r: Pc) {
    match pc
    case Yield0(ret) => Base(ret) case Yield1(ret) => Base(ret)
    case Sched(ret) => Base(ret) case Parked(ret) => Base(ret)
    case Resumed(ret) => Base(ret) case Unlock(ret) => Base(ret)
    case _ => pc
  }

  /** A place where a process can be preempted. */
  predicate Idle(n: nat, p: nat, pc: Pc) {
    PcLocks(n, p, pc) == {} && !OffCpu(pc)
  }

  /** The indices and return points a program counter may carry. */
  predicate Good(n: nat, p: nat, pc: Pc) {
    match pc
    case Yield0(ret) => Idle(n, p, ret) && Good(n, p, ret)
    case Yield1(ret) => Idle(n, p, ret) && Good(n, p, ret)
    case Resumed(ret) => Idle(n, p, ret) && Good(n, p, ret)
    case Unlock(ret) => Idle(n, p, ret) && Good(n, p, ret)
    case Sched(ret) => (ret.Dead? && p != 0) || (Idle(n, p, ret) && Good(n, p, ret))
    case Parked(ret) => (ret.Dead? && p != 0) || (Idle(n, p, ret) && Good(n, p, ret))
    case Dead => false
    case ForkScan(k) => k <= n
    case ForkTest(k) => k < n case ForkSkip(k) => k < n
    case ForkNew(np) => np < n && np != p case ForkUndo(np) => np < n && np != p
    case ForkOk(np) => np < n && np != p case ForkAdopt(np) => np < n && np != p
    case ForkParent(np) => np < n && np != p case ForkDone(np) => np < n && np != p
    case ForkRun0(np) => np < n && np != p case ForkRun1(np) => np < n && np != p
    case ForkRun2(np) => np < n && np != p
    case Exit0 => p != 0 case Reparent(k) => p != 0 && k <= n
    case Wake(ch, j, k) => p != 0 && j <= n && k <= n + 1
    case WakeTest(ch, j, k) => p != 0 && j < n && j != p && k <= n + 1
    case WakeDrop(ch, j, k) => p != 0 && j < n && j != p && k <= n + 1
    case Dying => p != 0 case Dying1 => p != 0 case Dying2 => p != 0
    case Scan(k, _) => k <= n
    case ScanTest(k) => k < n && k != p case ScanSkip(k) => k < n && k != p case Reap(k) => k < n && k != p
    case _ => true
  }

  ghost predicate OnSome(s: State, p: nat) {
    exists c: nat :: Runs(s, c, p)
  }

  /** The states a process can be in at a program counter. */
  predicate StateOk(x: Slot) {
    match x.state
    case Unused => x.parent == -1 && x.chan == NoChan && x.pc.Parked?
    case Used => x.chan == NoChan && x.pc == Parked(User)
    case Runnable => (x.pc.Sched? || x.pc.Parked?) && !x.pc.ret.Dead?
    case Sleeping => (x.pc.Sched? || x.pc.Parked?) && !x.pc.ret.Dead?
    case Running => !OffCpu(x.pc) && !x.pc.Sched? && !x.pc.Dying2?
    case Zombie => x.pc.Dying2? || x.pc == Sched(Dead) || x.pc == Parked(Dead)
  }

  /** Only process 0, and slots not in use yet, lack a parent. */
  predicate LinksOk(n: nat, k: nat, x: Slot) {
    && (x.chan.Of? ==> x.chan.p == k)
    && (x.parent == -1 || (0 <= x.parent < n && x.parent != k && k != 0))
    && (x.state.Unused? || x.state.Used? || k == 0 || x.parent != -1)
    && (x.state.Unused? || x.state.Used? ==> k != 0)
  }

  ghost predicate SlotOk(s: State, k: nat)
    requires k < |s.procs|
  {
    var x := s.procs[k];
    && Good(|s.procs|, k, x.pc)
    && StateOk(x)
    && LinksOk(|s.procs|, k, x)
    && (x.pc.Parked? || OnSome(s, k))
  }

  function Current(u: Cpu): (r: Option<nat>) {
    if u.Run? || u.Back? then Some(u.p) else None
  }

  ghost predicate CpuOk(s: State, c: nat)
    requires c < |s.cpus|
  {
    var u := s.cpus[c];
    && (u.Loop? || u.p < |s.procs|)
    && (u.Back? ==> s.procs[u.p].pc.Parked?)
    && (u.Run? ==> !s.procs[u.p].pc.Parked?)
  }

  ghost predicate CpusOk(s: State) {
    && (forall c :: 0 <= c < |s.cpus| ==> CpuOk(s, c))
    && (forall c, d :: 0 <= c < d < |s.cpus| && Current(s.cpus[c]).Some? ==> Current(s.cpus[c]) != Current(s.cpus[d]))
  }

  ghost predicate SlotsOk(s: State) {
    0 < |s.procs| && forall k :: 0 <= k < |s.procs| ==> SlotOk(s, k)
  }

  /** The slot a process is filling in fork. */
  function Forking(pc: Pc): (r: int) {
    match Base(pc)
    case ForkNew(np) => np case ForkOk(np) => np case ForkAdopt(np) => np case ForkParent(np) => np
    case ForkDone(np) => np case ForkRun0(np) => np case ForkRun1(np) => np
    case _ => -1
  }

  predicate Adopted(pc: Pc) {
    var base := Base(pc);
    base.ForkDone? || base.ForkRun0? || base.ForkRun1?
  }

  /** The slot being filled is Used, and knows its parent once it has been told. */
  ghost predicate FillOk(s: State, q: nat)
    requires q < |s.procs|
  {
    var np := Forking(s.procs[q].pc);
    np == -1 ||
    (0 <= np < |s.procs| && np != q && s.procs[np].state == Used &&
     s.procs[np].parent == (if Adopted(s.procs[q].pc) then q else -1))
  }

  ghost predicate ForksOk(s: State) {
    && (forall q :: 0 <= q < |s.procs| ==> FillOk(s, q))
    && (forall q, r :: 0 <= q < |s.procs| && 0 <= r < |s.procs| && q != r ==>
          Forking(s.procs[q].pc) == -1 || Forking(s.procs[q].pc) != Forking(s.procs[r].pc))
  }

  ghost predicate Inv(s: State) {
    LocksOk(s) && CpusOk(s) && SlotsOk(s) && ForksOk(s)
  }

  lemma BootOk(ncpu: nat, nproc: nat)
    requires nproc > 0
    ensures Inv(Boot(ncpu, nproc))
  {
    var s := Boot(ncpu, nproc);
    forall k | 0 <= k < nproc
      ensures SlotOk(s, k)
    {
      assert Good(nproc, k, User);
    }
  }

  lemma HeldFact(s: State, c: nat, l: nat)
    requires LocksOk(s) && c < |s.cpus| && l <= |s.procs|
    ensures s.locks[l] == c <==> l in Held(s, c)
  {
    assert HeldSets(s)[c] == Held(s, c);
  }

  /** A process is run by one CPU. */
  lemma RunsOnce(s: State, c: nat, d: nat, p: nat)
    requires CpusOk(s) && c < |s.cpus| && d < |s.cpus|
    ensures Runs(s, c, p) && Current(s.cpus[d]) == Some(p) ==> c == d
  {
  }

  // Locks.

  /** A step of the process on CPU c that leaves all other running processes where they
      are changes only the locks of CPU c. */
  lemma HeldAfter(s: State, s': State, c: nat, p: nat)
    requires CpusOk(s) && Runs(s, c, p) && |s'.procs| == |s.procs| && s'.cpus == s.cpus
    requires forall q :: 0 <= q < |s.procs| && q != p && s'.procs[q].pc != s.procs[q].pc ==> s.procs[q].pc.Parked?
    ensures HeldSets(s') == HeldSets(s)[c := PcLocks(|s.procs|, p, s'.procs[p].pc)]
  {
    forall d | 0 <= d < |s.cpus| && d != c
      ensures Held(s', d) == Held(s, d)
    {
      assert CpuOk(s, d);
      RunsOnce(s, c, d, p);
    }
  }

  lemma TakeOwn(s: State, p: nat)
    requires p < |s.procs| && NextTake(s, p).Some?
    ensures var t := NextTake(s, p).value;
            PcLocks(|s.procs|, p, t.1) == PcLocks(|s.procs|, p, s.procs[p].pc) + {t.0}
  {
  }

  lemma DropOwn(s: State, p: nat)
    requires SlotsOk(s) && p < |s.procs| && NextDrop(|s.procs|, p, s.procs[p].pc).Some?
    ensures var t := NextDrop(|s.procs|, p, s.procs[p].pc).value;
            && PcLocks(|s.procs|, p, t.1) == PcLocks(|s.procs|, p, s.procs[p].pc) - {t.0}
            && t.0 in PcLocks(|s.procs|, p, s.procs[p].pc)
  {
    assert SlotOk(s, p);
  }

  lemma TakeLocks(s: State, e: Event)
    requires Inv(s) && e.Take? && ProcDo(s, e).Some?
    ensures LocksOk(ProcDo(s, e).value)
  {
    hide Owns, NextTake, NextDrop, ActPc, ActSlot, ActHistory, PcLocks, SlotsOk, ForksOk;
    var p := s.cpus[e.c].p;
    TakeOwn(s, p);
    HeldAfter(s, ProcDo(s, e).value, e.c, p);
    OwnsTake(s.locks, HeldSets(s), e.c, NextTake(s, p).value.0);
    assert HeldSets(s)[e.c] == Held(s, e.c);
  }

  lemma DropLocks(s: State, e: Event)
    requires Inv(s) && e.Drop? && ProcDo(s, e).Some?
    ensures LocksOk(ProcDo(s, e).value)
  {
    hide Owns, NextTake, NextDrop, ActPc, ActSlot, ActHistory, PcLocks, SlotsOk, ForksOk;
    var p := s.cpus[e.c].p;
    DropOwn(s, p);
    HeldAfter(s, ProcDo(s, e).value, e.c, p);
    assert HeldSets(s)[e.c] == Held(s, e.c);
    OwnsDrop(s.locks, HeldSets(s), e.c, NextDrop(|s.procs|, p, s.procs[p].pc).value.0);
  }

  /** What a step without a lock may do to the program counters of others. */
  lemma ActOthers(s: State, p: nat, ok: bool)
    requires p < |s.procs| && NextAct(s, p, ok).Some?
    ensures var s' := NextAct(s, p, ok).value;
            && s'.locks == s.locks && s'.cpus == s.cpus && |s'.procs| == |s.procs|
            && (forall q :: 0 <= q < |s.procs| && q != p && s'.procs[q].pc != s.procs[q].pc ==>
               s.procs[q].state.Unused?)
  {
    hide ActPc, ActHistory;
  }

  lemma ActOwn(s: State, p: nat, ok: bool)
    requires p < |s.procs| && ActPc(s, p, ok).Some?
    ensures PcLocks(|s.procs|, p, ActPc(s, p, ok).value) == PcLocks(|s.procs|, p, s.procs[p].pc)
  {
  }

  lemma OtherLocks(s: State, e: Event)
    requires Inv(s) && !e.Drop? && !e.Take? && ProcDo(s, e).Some?
    ensures LocksOk(ProcDo(s, e).value)
  {
    hide Owns, ActPc, ActSlot, NextTake, NextDrop;
    var s' := ProcDo(s, e).value;
    var p := s.cpus[e.c].p;
    assert SlotOk(s, p);
    if e.Act? {
      ActOthers(s, p, e.ok);
      ActOwn(s, p, e.ok);
    }
    forall q | 0 <= q < |s.procs| && q != p && s'.procs[q].pc != s.procs[q].pc
      ensures s.procs[q].pc.Parked?
    {
      assert SlotOk(s, q);
    }
    HeldAfter(s, s', e.c, p);
    assert HeldSets(s)[e.c := Held(s, e.c)] == HeldSets(s);
  }

  /** A scheduler step changes only the locks of its CPU. */
  lemma SchedHeld(s: State, e: Event)
    requires Inv(s) && SchedDo(s, e).Some?
    ensures HeldSets(SchedDo(s, e).value) == HeldSets(s)[e.c := Held(SchedDo(s, e).value, e.c)]
  {
    var s' := SchedDo(s, e).value;
    forall d | 0 <= d < |s.cpus| && d != e.c
      ensures Held(s', d) == Held(s, d)
    {
      assert CpuOk(s, d) && CpuOk(s, e.c);
      if s.cpus[e.c].Run? {
        RunsOnce(s, e.c, d, s.cpus[e.c].p);
      }
    }
  }

  lemma SchedLocks(s: State, e: Event)
    requires Inv(s) && SchedDo(s, e).Some?
    ensures LocksOk(SchedDo(s, e).value)
  {
    hide Owns, SlotsOk, CpusOk, ForksOk;
    SchedHeld(s, e);
    var s' := SchedDo(s, e).value;
    var has := HeldSets(s);
    assert has[e.c] == Held(s, e.c);
    if e.Pick? {
      OwnsTake(s.locks, has, e.c, e.p);
      assert has[e.c] + {e.p} == Held(s', e.c);
    } else if e.Leave? {
      OwnsDrop(s.locks, has, e.c, s.cpus[e.c].p);
      assert has[e.c] - {s.cpus[e.c].p} == Held(s', e.c);
    } else {
      assert has[e.c := Held(s, e.c)] == has;
    }
  }

  lemma LocksKept(s: State, e: Event)
    requires Inv(s) && Do(s, e).Some?
    ensures LocksOk(Do(s, e).value)
  {
    hide LocksOk, SlotsOk, CpusOk, ForksOk, SchedDo, ProcDo;
    assert Shape(s) by {
      ShapeOf(s);
    }
    if SchedDo(s, e).Some? {
      SchedLocks(s, e);
    } else if e.Take? {
      TakeLocks(s, e);
    } else if e.Drop? {
      DropLocks(s, e);
    } else {
      OtherLocks(s, e);
    }
  }

  lemma ShapeOf(s: State)
    requires LocksOk(s)
    ensures Shape(s)
  {
  }

  // CPUs.

  /** What any step does to the program counters of processes other than its own. */
  lemma ProcOthers(s: State, e: Event)
    requires Shape(s) && ProcDo(s, e).Some?
    ensures var s' := ProcDo(s, e).value;
            && Runs(s, e.c, s.cpus[e.c].p)
            && s'.cpus == s.cpus && |s'.procs| == |s.procs|
            && (forall q :: 0 <= q < |s.procs| && q != s.cpus[e.c].p && s'.procs[q].pc != s.procs[q].pc ==>
                  s.procs[q].state.Unused? && s'.procs[q].pc.Parked?)
  {
    hide ActPc, ActHistory, NextTake, NextDrop;
  }

  /** A process that moves stays on its CPU until sched() switches away. */
  lemma ProcSelf(s: State, e: Event)
    requires Shape(s) && SlotsOk(s) && CpusOk(s) && ProcDo(s, e).Some?
    ensures var s' := ProcDo(s, e).value;
            s.cpus[e.c].p < |s'.procs| && !s'.procs[s.cpus[e.c].p].pc.Parked?
  {
    hide ActSlot, ActHistory;
    assert SlotOk(s, s.cpus[e.c].p);
  }

  lemma CpuKeptProc(s: State, e: Event, d: nat)
    requires Inv(s) && ProcDo(s, e).Some? && d < |s.cpus|
    ensures ProcDo(s, e).value.cpus == s.cpus && CpuOk(ProcDo(s, e).value, d)
  {
    hide ProcDo, Owns, ForksOk;
    ProcOthers(s, e);
    ProcSelf(s, e);
    assert CpuOk(s, d);
    if !s.cpus[d].Loop? {
      assert SlotOk(s, s.cpus[d].p);
    }
    RunsOnce(s, e.c, d, s.cpus[e.c].p);
  }

  lemma CpuKeptSched(s: State, e: Event, d: nat)
    requires Inv(s) && SchedDo(s, e).Some? && d < |s.cpus|
    ensures |SchedDo(s, e).value.cpus| == |s.cpus| && CpuOk(SchedDo(s, e).value, d)
  {
    hide Owns, ForksOk;
    assert CpuOk(s, d) && CpuOk(s, e.c);
    if s.cpus[e.c].Run? {
      RunsOnce(s, e.c, d, s.cpus[e.c].p);
    }
    if s.cpus[e.c].Took? {
      HeldFact(s, d, s.cpus[e.c].p);
      HeldFact(s, e.c, s.cpus[e.c].p);
    }
  }

  /** The scheduler never picks a process that is on another CPU. */
  lemma CurrentOnce(s: State, e: Event, d: nat)
    requires Inv(s) && SchedDo(s, e).Some? && d < |s.cpus| && d != e.c
    ensures var s' := SchedDo(s, e).value;
            |s'.cpus| == |s.cpus| && s'.cpus[d] == s.cpus[d] &&
            (Current(s'.cpus[e.c]).Some? ==> Current(s'.cpus[e.c]) != Current(s'.cpus[d]))
  {
    hide Owns, ForksOk;
    assert CpuOk(s, d) && CpuOk(s, e.c);
    if s.cpus[e.c].Run? {
      RunsOnce(s, e.c, d, s.cpus[e.c].p);
    }
    if s.cpus[e.c].Took? {
      HeldFact(s, d, s.cpus[e.c].p);
      HeldFact(s, e.c, s.cpus[e.c].p);
    }
  }

  lemma CpusKept(s: State, e: Event)
    requires Inv(s) && Do(s, e).Some?
    ensures CpusOk(Do(s, e).value)
  {
    hide CpuOk, SchedDo, ProcDo, Owns, SlotsOk, ForksOk;
    var s' := Do(s, e).value;
    if SchedDo(s, e).Some? {
      SchedSizes(s, e);
      forall d | 0 <= d < |s'.cpus|
        ensures CpuOk(s', d)
        ensures d != e.c ==> s'.cpus[d] == s.cpus[d]
        ensures d != e.c && Current(s'.cpus[e.c]).Some? ==> Current(s'.cpus[e.c]) != Current(s'.cpus[d])
      {
        CpuKeptSched(s, e, d);
        if d != e.c {
          CurrentOnce(s, e, d);
        }
      }
    } else {
      ProcOthers(s, e);
      forall d | 0 <= d < |s'.cpus|
        ensures CpuOk(s', d)
      {
        CpuKeptProc(s, e, d);
      }
    }
  }

  lemma SchedSizes(s: State, e: Event)
    requires Shape(s) && SchedDo(s, e).Some?
    ensures var s' := SchedDo(s, e).value;
            e.c < |s.cpus| == |s'.cpus| && |s'.procs| == |s.procs| && Shape(s')
  {
  }

  // Slots.

  /** Being on a CPU is a matter of the CPUs. */
  lemma StillOnSome(s: State, s': State, k: nat)
    requires s'.cpus == s.cpus && |s'.procs| == |s.procs|
    ensures OnSome(s, k) ==> OnSome(s', k)
  {
    if OnSome(s, k) {
      var c: nat :| Runs(s, c, k);
      assert Runs(s', c, k);
    }
  }

  /** wait frees the slot of a child only when the child is off its CPU for good: a
      zombie that is still in exit or swtch holds its own lock. */
  lemma ZombieGone(s: State, c: nat, p: nat, k: nat)
    requires Inv(s) && Runs(s, c, p) && s.procs[p].pc == ScanTest(k)
    requires k < |s.procs| && s.procs[k].state == Zombie
    ensures s.procs[k].pc == Parked(Dead) && k != p && k != 0
    ensures forall d :: 0 <= d < |s.cpus| ==> Current(s.cpus[d]) != Some(k)
  {
    hide Owns, ForksOk;
    assert SlotOk(s, k) && SlotOk(s, p);
    if !s.procs[k].pc.Parked? {
      var d: nat :| Runs(s, d, k);
      HeldFact(s, d, k);
      HeldFact(s, c, k);
    }
    forall d | 0 <= d < |s.cpus|
      ensures Current(s.cpus[d]) != Some(k)
    {
      assert CpuOk(s, d);
      HeldFact(s, d, k);
      HeldFact(s, c, k);
    }
  }

  lemma TakeGood(s: State, p: nat)
    requires SlotsOk(s) && p < |s.procs| && s.procs[p].state == Running
    ensures NextTake(s, p).Some? ==> var pc := NextTake(s, p).value.1;
              Good(|s.procs|, p, pc) && !OffCpu(pc) && !pc.Sched? && !pc.Dying2?
  {
    hide StateOk;
    assert SlotOk(s, p);
  }

  lemma DropGood(s: State, p: nat)
    requires SlotsOk(s) && p < |s.procs|
    ensures var d := NextDrop(|s.procs|, p, s.procs[p].pc);
            d.Some? ==> Good(|s.procs|, p, d.value.1) && StateOk(s.procs[p].(pc := d.value.1))
  {
    assert SlotOk(s, p);
  }

  lemma IdleFacts(n: nat, p: nat)
    ensures Idle(n, p, User) && Idle(n, p, Wait0) && Good(n, p, User) && Good(n, p, Wait0)
    ensures forall ret :: Idle(n, p, ret) ==> !ret.Dead? && !ret.Parked?
  {
  }

  predicate ToScheduler(pc: Pc) {
    pc.Yield1? || pc.Nap1? || pc.Resumed? || pc.Sleep2?
  }

  lemma ActGoodSched(s: State, p: nat, ok: bool)
    requires SlotsOk(s) && p < |s.procs| && ToScheduler(s.procs[p].pc)
    ensures ActPc(s, p, ok).Some? ==> Good(|s.procs|, p, ActPc(s, p, ok).value)
  {
    hide Idle, PcLocks, StateOk;
    IdleFacts(|s.procs|, p);
    assert SlotOk(s, p);
  }

  lemma ActGoodFork(s: State, p: nat, ok: bool)
    requires SlotsOk(s) && p < |s.procs| && s.procs[p].state == Running
    requires var pc := s.procs[p].pc; pc.ForkScan? || pc.ForkTest? || pc.ForkNew? || pc.ForkParent? || pc.ForkRun1?
    ensures ActPc(s, p, ok).Some? ==> Good(|s.procs|, p, ActPc(s, p, ok).value)
  {
    hide Idle, PcLocks, StateOk;
    assert SlotOk(s, p);
  }

  lemma ActGoodRest(s: State, p: nat, ok: bool)
    requires SlotsOk(s) && p < |s.procs| && !ToScheduler(s.procs[p].pc)
    requires var pc := s.procs[p].pc; !(pc.ForkScan? || pc.ForkTest? || pc.ForkNew? || pc.ForkParent? || pc.ForkRun1?)
    ensures ActPc(s, p, ok).Some? ==> Good(|s.procs|, p, ActPc(s, p, ok).value)
  {
    hide Idle, PcLocks, StateOk;
    assert SlotOk(s, p);
  }

  lemma ActGood(s: State, p: nat, ok: bool)
    requires SlotsOk(s) && p < |s.procs| && s.procs[p].state == Running
    ensures ActPc(s, p, ok).Some? ==> Good(|s.procs|, p, ActPc(s, p, ok).value)
  {
    hide ActPc, Good, SlotsOk, ToScheduler;
    var pc := s.procs[p].pc;
    if ToScheduler(pc) {
      ActGoodSched(s, p, ok);
    } else if pc.ForkScan? || pc.ForkTest? || pc.ForkNew? || pc.ForkParent? || pc.ForkRun1? {
      ActGoodFork(s, p, ok);
    } else {
      ActGoodRest(s, p, ok);
    }
  }

  /** The slot of the process that moves. */
  lemma ActSelf(s: State, p: nat, ok: bool)
    requires SlotsOk(s) && p < |s.procs| && s.procs[p].state == Running && NextAct(s, p, ok).Some?
    ensures var s' := NextAct(s, p, ok).value;
            |s'.procs| == |s.procs| && StateOk(s'.procs[p]) && LinksOk(|s.procs|, p, s'.procs[p])
  {
    hide Idle, PcLocks, ActHistory;
    IdleFacts(|s.procs|, p);
    assert SlotOk(s, p);
  }

  lemma SlotSelf(s: State, e: Event)
    requires Inv(s) && ProcDo(s, e).Some?
    ensures var s' := ProcDo(s, e).value;
            |s'.procs| == |s.procs| && SlotOk(s', s.cpus[e.c].p)
  {
    hide Owns, ForksOk, NextTake, NextDrop, ActPc, ActSlot, ActHistory;
    var p := s.cpus[e.c].p;
    assert SlotOk(s, p) && CpuOk(s, e.c);
    NextState(s, p);
    var s' := ProcDo(s, e).value;
    StillOnSome(s, s', p);
    if s.procs[p].state == Running {
      TakeGood(s, p);
      if e.Act? {
        ActGood(s, p, e.ok);
        ActSelf(s, p, e.ok);
      }
    }
    DropGood(s, p);
  }

  /** A process that can move on without the scheduler is Running, or releases wait_lock
      as its last act. */
  lemma NextState(s: State, p: nat)
    requires SlotsOk(s) && p < |s.procs| && !s.procs[p].pc.Parked?
    ensures s.procs[p].state != Running ==> NextTake(s, p).None? && (forall ok :: NextAct(s, p, ok).None?)
  {
    assert SlotOk(s, p);
  }

  /** The slot it works on. */
  lemma ActTarget(s: State, c: nat, p: nat, ok: bool)
    requires Inv(s) && Runs(s, c, p) && s.procs[p].state == Running
    ensures var t := Target(|s.procs|, p, s.procs[p].pc);
            t != p ==>
              var x := ActSlot(s, p, ok);
              Good(|s.procs|, t, x.pc) && StateOk(x) && LinksOk(|s.procs|, t, x) &&
                (x.pc == s.procs[t].pc || x.pc.Parked?)
  {
    hide Owns, Idle, PcLocks;
    var t := Target(|s.procs|, p, s.procs[p].pc);
    assert SlotOk(s, p) && SlotOk(s, t) && FillOk(s, p);
    IdleFacts(|s.procs|, t);
    if s.procs[p].pc.ScanTest? && s.procs[t].state == Zombie {
      ZombieGone(s, c, p, t);
    }
  }

  lemma SlotOther(s: State, e: Event, q: nat)
    requires Inv(s) && ProcDo(s, e).Some? && q < |s.procs| && q != s.cpus[e.c].p
    ensures var s' := ProcDo(s, e).value; |s'.procs| == |s.procs| && SlotOk(s', q)
  {
    hide Owns, ForksOk, NextTake, NextDrop, ActPc, ActSlot, ActHistory, Target, Good, StateOk, LinksOk;
    var p := s.cpus[e.c].p;
    assert SlotOk(s, q) && CpuOk(s, e.c);
    NextState(s, p);
    StillOnSome(s, ProcDo(s, e).value, q);
    if e.Act? && s.procs[p].state == Running {
      ActTarget(s, e.c, p, e.ok);
    }
  }

  lemma SlotSched(s: State, e: Event, q: nat)
    requires Inv(s) && SchedDo(s, e).Some? && q < |s.procs|
    ensures var s' := SchedDo(s, e).value; |s'.procs| == |s.procs| && SlotOk(s', q)
  {
    hide Owns, ForksOk, Idle, PcLocks;
    var s' := SchedDo(s, e).value;
    assert SlotOk(s, q) && CpuOk(s, e.c);
    IdleFacts(|s.procs|, q);
    if OnSome(s, q) {
      var c: nat :| Runs(s, c, q);
      assert c != e.c ==> Runs(s', c, q);
    }
    if s'.cpus[e.c] == Run(q) {
      assert Runs(s', e.c, q);
    }
  }

  lemma SlotsKept(s: State, e: Event)
    requires Inv(s) && Do(s, e).Some?
    ensures SlotsOk(Do(s, e).value)
  {
    hide SchedDo, ProcDo, SlotOk, CpusOk, ForksOk, Owns;
    var s' := Do(s, e).value;
    if SchedDo(s, e).Some? {
      SchedSizes(s, e);
    } else {
      ProcOthers(s, e);
    }
    forall q | 0 <= q < |s'.procs|
      ensures SlotOk(s', q)
    {
      if SchedDo(s, e).Some? {
        SlotSched(s, e, q);
      } else if q == s.cpus[e.c].p {
        SlotSelf(s, e);
      } else {
        SlotOther(s, e, q);
      }
    }
  }

  // Fork.

  predicate SameFork(pc: Pc, pc': Pc) {
    Forking(pc') == Forking(pc) && Adopted(pc') == Adopted(pc)
  }

  lemma TakeFork(s: State, p: nat)
    requires p < |s.procs|
    ensures NextTake(s, p).Some? ==> SameFork(s.procs[p].pc, NextTake(s, p).value.1)
  {
  }

  lemma DropFork(n: nat, p: nat, pc: Pc)
    ensures NextDrop(n, p, pc).Some? ==> SameFork(pc, NextDrop(n, p, pc).value.1)
  {
  }

  predicate FillsSlot(pc: Pc) {
    pc.ForkTest? || pc.ForkNew? || pc.ForkParent? || pc.ForkRun1?
  }

  lemma EnterFork(pc: Pc)
    ensures SameFork(pc, Yield0(pc))
    ensures SameFork(User, Nap0) && SameFork(User, Wait0) && SameFork(User, ForkScan(0)) && SameFork(User, Exit0)
  {
  }

  lemma ActFork(s: State, p: nat, ok: bool)
    requires p < |s.procs| && ActPc(s, p, ok).Some? && !FillsSlot(s.procs[p].pc)
    ensures SameFork(s.procs[p].pc, ActPc(s, p, ok).value)
  {
  }

  lemma ActForkSlot(s: State, p: nat, ok: bool)
    requires p < |s.procs| && !FillsSlot(s.procs[p].pc)
    ensures var t := Target(|s.procs|, p, s.procs[p].pc);
            var x := ActSlot(s, p, ok);
            && x.pc == s.procs[t].pc
            && (t != p ==> Forking(s.procs[p].pc) == -1)
            && (s.procs[t].state == Used && t != p ==>
               x.state == Used && (x.parent == s.procs[t].parent || s.procs[t].parent == p))
  {
  }

  /** What a step does to the slots being filled, when it is not itself a step of fork on
      such a slot. */
  lemma PlainFork(s: State, e: Event, q: nat)
    requires Inv(s) && ProcDo(s, e).Some? && q < |s.procs|
    requires e.Act? ==> !FillsSlot(s.procs[s.cpus[e.c].p].pc)
    ensures var s' := ProcDo(s, e).value;
            |s'.procs| == |s.procs| && SameFork(s.procs[q].pc, s'.procs[q].pc) && FillOk(s', q)
  {
    hide Owns, NextTake, NextDrop, ActPc, ActSlot, ActHistory, Target, Good, PcLocks, Forking, Adopted, LinksOk,
         FillsSlot;
    var p := s.cpus[e.c].p;
    var s' := ProcDo(s, e).value;
    assert SlotOk(s, p) && FillOk(s, q) && CpuOk(s, e.c);
    TakeFork(s, p);
    DropFork(|s.procs|, p, s.procs[p].pc);
    EnterFork(s.procs[p].pc);
    if e.Act? {
      ActFork(s, p, e.ok);
      ActForkSlot(s, p, e.ok);
    }
  }

  /** The steps of fork on the slot it fills. */
  lemma FillSelf(s: State, c: nat, p: nat, ok: bool)
    requires Inv(s) && Runs(s, c, p) && NextAct(s, p, ok).Some? && FillsSlot(s.procs[p].pc)
    ensures var s' := NextAct(s, p, ok).value; |s'.procs| == |s.procs| && FillOk(s', p)
  {
    hide Owns, ActHistory, LinksOk;
    assert SlotOk(s, p) && SlotOk(s, Target(|s.procs|, p, s.procs[p].pc)) && FillOk(s, p) && CpuOk(s, c);
  }

  lemma FillFork(s: State, c: nat, p: nat, ok: bool, q: nat)
    requires Inv(s) && Runs(s, c, p) && NextAct(s, p, ok).Some? && q < |s.procs| && q != p && FillsSlot(s.procs[p].pc)
    ensures var s' := NextAct(s, p, ok).value;
            && |s'.procs| == |s.procs| && FillOk(s', q)
            && (s'.procs[q].pc == s.procs[q].pc || Forking(s'.procs[q].pc) == -1)
            && (Forking(s'.procs[p].pc) != -1 ==> Forking(s'.procs[p].pc) != Forking(s'.procs[q].pc))
  {
    hide Owns, ActHistory, LinksOk;
    assert SlotOk(s, p) && FillOk(s, q) && FillOk(s, p) && CpuOk(s, c);
  }

  lemma SchedFork(s: State, e: Event, q: nat)
    requires Inv(s) && SchedDo(s, e).Some? && q < |s.procs|
    ensures var s' := SchedDo(s, e).value;
            |s'.procs| == |s.procs| && SameFork(s.procs[q].pc, s'.procs[q].pc) && FillOk(s', q)
  {
    hide Owns, Good, LinksOk;
    assert FillOk(s, q) && CpuOk(s, e.c);
    if s.cpus[e.c].Run? {
      assert SlotOk(s, s.cpus[e.c].p);
    }
  }

  lemma ForksKept(s: State, e: Event)
    requires Inv(s) && Do(s, e).Some?
    ensures ForksOk(Do(s, e).value)
  {
    hide SchedDo, ProcDo, SlotsOk, CpusOk, FillOk, Owns, Forking, Adopted, NextAct;
    var s' := Do(s, e).value;
    if SchedDo(s, e).Some? {
      SchedSizes(s, e);
      forall q | 0 <= q < |s'.procs|
        ensures FillOk(s', q) && SameFork(s.procs[q].pc, s'.procs[q].pc)
      {
        SchedFork(s, e, q);
      }
    } else {
      ProcOthers(s, e);
      var p := s.cpus[e.c].p;
      if e.Act? && FillsSlot(s.procs[p].pc) {
        ActIs(s, e);
        forall q | 0 <= q < |s'.procs|
          ensures FillOk(s', q)
          ensures q == p || s'.procs[q].pc == s.procs[q].pc || Forking(s'.procs[q].pc) == -1
          ensures q != p && Forking(s'.procs[p].pc) != -1 ==> Forking(s'.procs[p].pc) != Forking(s'.procs[q].pc)
        {
          if q == p {
            FillSelf(s, e.c, p, e.ok);
          } else {
            FillFork(s, e.c, p, e.ok, q);
          }
        }
      } else {
        forall q | 0 <= q < |s'.procs|
          ensures FillOk(s', q) && SameFork(s.procs[q].pc, s'.procs[q].pc)
        {
          PlainFork(s, e, q);
        }
      }
    }
  }

  lemma ActIs(s: State, e: Event)
    requires Shape(s) && ProcDo(s, e).Some? && e.Act?
    ensures NextAct(s, s.cpus[e.c].p, e.ok) == ProcDo(s, e)
  {
  }

  lemma InvKept(s: State, e: Event)
    requires Inv(s) && Do(s, e).Some?
    ensures Inv(Do(s, e).value)
  {
    hide LocksOk, CpusOk, SlotsOk, ForksOk, Do;
    LocksKept(s, e);
    CpusKept(s, e);
    SlotsKept(s, e);
    ForksKept(s, e);
  }
}
