/** The life of a process in kernel/proc.c: the scheduler on every CPU, fork, exit with
    reparent and wakeup, wait with sleep, yield. Each acquire, each release and each
    access to the process table is a step of its own, taken by some CPU, in any order. */
module Processes {
  import opened Common
  import opened Ownership

  datatype ProcState = Unused | Used | Sleeping | Runnable | Running | Zombie

  datatype Chan = NoChan | Other | Of(p: int)

  /** Where a process is. k, j and np are indices of the process table; ret is where to
      go on after the scheduler has had the CPU. */
  datatype Pc =
    | User                              // user code, or kernel code not modelled here
    | Dead                              // exited
    | Yield0(ret: Pc) | Yield1(ret: Pc) // yield
    | Nap0 | Nap1                       // sleep on some other channel
    | Sched(ret: Pc)                    // in sched(), about to swtch
    | Parked(ret: Pc)                   // off the CPU
    | Resumed(ret: Pc)                  // back on a CPU: sleep tidies up
    | Unlock(ret: Pc)                   // about to release its own lock
    | ForkScan(k: nat) | ForkTest(k: nat) | ForkSkip(k: nat)            // allocproc
    | ForkNew(np: nat) | ForkUndo(np: nat) | ForkOk(np: nat)            // the rest of fork
    | ForkAdopt(np: nat) | ForkParent(np: nat) | ForkDone(np: nat)
    | ForkRun0(np: nat) | ForkRun1(np: nat) | ForkRun2(np: nat)
    | Exit0 | Reparent(k: nat)
    | Wake(ch: int, j: nat, k: nat) | WakeTest(ch: int, j: nat, k: nat) | WakeDrop(ch: int, j: nat, k: nat)
    | Dying | Dying1 | Dying2
    | Wait0 | Scan(k: nat, have: bool) | ScanTest(k: nat) | ScanSkip(k: nat) | Reap(k: nat) | WaitRet
    | Sleep0 | Sleep1 | Sleep2          // sleep(p, &wait_lock)

  /** A slot of the process table. father is history: the pid of the process that forked
      this one. */
  datatype Slot = Slot(pc: Pc, state: ProcState, chan: Chan, parent: int, pid: nat, father: nat)

  /** A CPU: in the scheduler loop, holding the lock of a process it looks at, about to
      release that lock, running a process, or just switched back from one. */
  datatype Cpu = Loop | Took(p: nat) | Put(p: nat) | Run(p: nat) | Back(p: nat)

  /** What wait returned to whom: the child's pid, its father, and who called wait. */
  datatype Reaped = Reaped(pid: nat, father: nat, caller: nat)

  /** locks[k] is the CPU that holds the lock of process k, or -1; the last one is
      wait_lock. exited and reaped are history. */
  datatype State = State(locks: seq<int>, cpus: seq<Cpu>, procs: seq<Slot>, nextpid: nat,
                         exited: set<nat>, reaped: seq<Reaped>)

  datatype Event =
    | Pick(c: nat, p: nat)      // the scheduler acquires the lock of p
    | Look(c: nat)              // it tests the state and switches to a runnable process
    | Switch(c: nat)            // sched(): back to the scheduler
    | Clear(c: nat)             // c->proc = 0
    | Leave(c: nat)             // the scheduler releases the lock
    | Enter(c: nat, pc: Pc)     // a system call
    | Preempt(c: nat)           // a timer interrupt
    | Take(c: nat) | Drop(c: nat) | Act(c: nat, ok: bool)   // the next step of a process
    | Rouse(c: nat, p: nat)     // kill, or a wakeup on another channel

  /** The process table after procinit and userinit, with process 0 runnable. */
  function Boot(ncpu: nat, nproc: nat): (s: State)
    requires nproc > 0
  {
    State(seq(nproc + 1, _ => -1), seq(ncpu, _ => Loop),
          seq(nproc, k => if k == 0 then Slot(Parked(User), Runnable, NoChan, -1, 1, 0)
                          else Slot(Parked(User), Unused, NoChan, -1, 0, 0)),
          2, {}, [])
  }

  /** The locks process p holds at a program counter; w is the index of wait_lock. */
  function PcLocks(w: nat, p: nat, pc: Pc): (r: set<nat>) {
    match pc
    case Yield1(_) => {p} case Nap1 => {p} case Sched(_) => {p} case Resumed(_) => {p} case Unlock(_) => {p}
    case ForkTest(k) => {k} case ForkSkip(k) => {k}
    case ForkNew(np) => {np} case ForkUndo(np) => {np} case ForkOk(np) => {np}
    case ForkParent(_) => {w} case ForkDone(_) => {w}
    case ForkRun1(np) => {np} case ForkRun2(np) => {np}
    case Reparent(_) => {w} case Wake(_, _, _) => {w}
    case WakeTest(_, j, _) => {w, j} case WakeDrop(_, j, _) => {w, j}
    case Dying => {w} case Dying1 => {w, p} case Dying2 => {w, p}
    case Scan(_, _) => {w} case ScanTest(k) => {w, k} case ScanSkip(k) => {w, k} case Reap(k) => {w, k}
    case WaitRet => {w} case Sleep0 => {w} case Sleep1 => {w, p} case Sleep2 => {p}
    case _ => {}
  }

  predicate OffCpu(pc: Pc) {
    pc.Parked? || pc.Dead?
  }

  /** The lock the process acquires next, and where it is then. */
  function NextTake(s: State, p: nat): (r: Option<(nat, Pc)>)
    requires p < |s.procs|
  {
    var n := |s.procs|;
    match s.procs[p].pc
    case Yield0(ret) => Some((p, Yield1(ret)))
    case Nap0 => Some((p, Nap1))
    case ForkScan(k) => if k < n then Some((k, ForkTest(k))) else None
    case ForkAdopt(np) => Some((n, ForkParent(np)))
    case ForkRun0(np) => Some((np, ForkRun1(np)))
    case Exit0 => Some((n, Reparent(0)))
    case Wake(ch, j, k) => if j < n && j != p then Some((j, WakeTest(ch, j, k))) else None
    case Dying => Some((p, Dying1))
    case Wait0 => Some((n, Scan(0, false)))
    case Scan(k, _) => if k < n && s.procs[k].parent == p then Some((k, ScanTest(k))) else None
    case Sleep0 => Some((p, Sleep1))
    case _ => None
  }

  /** The lock the process releases next, and where it is then. */
  function NextDrop(n: nat, p: nat, pc: Pc): (r: Option<(nat, Pc)>) {
    match pc
    case Unlock(ret) => Some((p, ret))
    case ForkSkip(k) => Some((k, ForkScan(k + 1)))
    case ForkUndo(np) => Some((np, User))
    case ForkOk(np) => Some((np, ForkAdopt(np)))
    case ForkDone(np) => Some((n, ForkRun0(np)))
    case ForkRun2(np) => Some((np, User))
    case WakeDrop(ch, j, k) => Some((j, Wake(ch, j + 1, k)))
    case Dying2 => Some((n, Sched(Dead)))
    case ScanSkip(k) => Some((k, Scan(k + 1, true)))
    case Reap(k) => Some((k, WaitRet))
    case WaitRet => Some((n, User))
    case Sleep1 => Some((n, Sleep2))
    case _ => None
  }

  function At(s: State, p: nat, pc: Pc): (r: State)
    requires p < |s.procs|
  {
    s.(procs := s.procs[p := s.procs[p].(pc := pc)])
  }

  /** freeproc, as far as the table is concerned. */
  function Freed(x: Slot): (r: Slot) {
    x.(state := Unused, chan := NoChan, parent := -1, pid := 0)
  }

  // The next step of process p that is not about a lock. ok is the outcome of what is not
  // modelled: enough memory in fork, copyout and no kill in wait.

  /** Where the process is after it. */
  function ActPc(s: State, p: nat, ok: bool): (r: Option<Pc>)
    requires p < |s.procs|
  {
    var n := |s.procs|;
    match s.procs[p].pc
    case Yield1(ret) => Some(Sched(ret))
    case Nap1 => Some(Sched(User))
    case Resumed(ret) => Some(Unlock(ret))
    case ForkScan(k) => if k < n then None else Some(User)
    case ForkTest(k) => Some(if k < n && s.procs[k].state == Unused then ForkNew(k) else ForkSkip(k))
    case ForkNew(np) => Some(if ok then ForkOk(np) else ForkUndo(np))
    case ForkParent(np) => Some(ForkDone(np))
    case ForkRun1(np) => Some(ForkRun2(np))
    case Reparent(k) =>
      Some(if k >= n then Wake(s.procs[p].parent, 0, n + 1)
           else if s.procs[k].parent == p then Wake(0, 0, k + 1)
           else Reparent(k + 1))
    case Wake(ch, j, k) =>
      if j >= n then Some(if k <= n then Reparent(k) else Dying)
      else if j == p then Some(Wake(ch, j + 1, k))
      else None
    case WakeTest(ch, j, k) => Some(WakeDrop(ch, j, k))
    case Dying1 => Some(Dying2)
    case Scan(k, have) =>
      if k >= n then Some(if have && ok then Sleep0 else WaitRet)
      else if s.procs[k].parent != p then Some(Scan(k + 1, have))
      else None
    case ScanTest(k) => Some(if k < n && s.procs[k].state == Zombie then Reap(k) else ScanSkip(k))
    case Sleep2 => Some(Sched(Wait0))
    case _ => None
  }

  /** The slot of the table it works on. */
  function Target(n: nat, p: nat, pc: Pc): (t: nat)
    requires p < n
    ensures t < n
  {
    var t :=
      match pc
      case ForkTest(k) => k case ForkNew(np) => np case ForkParent(np) => np case ForkRun1(np) => np
      case Reparent(k) => k case WakeTest(_, j, _) => j case ScanTest(k) => k
      case _ => p;
    if t < n then t else p
  }

  /** What that slot becomes, but for the program counter of p. */
  function ActSlot(s: State, p: nat, ok: bool): (r: Slot)
    requires p < |s.procs|
  {
    var pc := s.procs[p].pc;
    var x := s.procs[Target(|s.procs|, p, pc)];
    match pc
    case Yield1(_) => x.(state := Runnable)
    case Nap1 => x.(state := Sleeping, chan := Other)
    case Resumed(_) => x.(chan := NoChan)
    case ForkTest(_) => if x.state == Unused then x.(pc := Parked(User), state := Used, pid := s.nextpid) else x
    case ForkNew(_) => if ok then x else Freed(x)
    case ForkParent(_) => x.(parent := p, father := s.procs[p].pid)
    case ForkRun1(_) => x.(state := Runnable)
    case Reparent(k) => if k < |s.procs| && x.parent == p then x.(parent := 0) else x
    case WakeTest(ch, _, _) => if x.state == Sleeping && x.chan == Of(ch) then x.(state := Runnable) else x
    case Dying1 => x.(state := Zombie)
    case ScanTest(_) => if x.state == Zombie && ok then Freed(x) else x
    case Sleep2 => x.(state := Sleeping, chan := Of(p))
    case _ => x
  }

  /** What it adds to the history. */
  function ActHistory(s: State, p: nat, ok: bool): (r: State)
    requires p < |s.procs|
    ensures r.locks == s.locks && r.cpus == s.cpus && r.procs == s.procs
  {
    var me := s.procs[p];
    var x := s.procs[Target(|s.procs|, p, me.pc)];
    if me.pc.ForkTest? && x.state == Unused then s.(nextpid := s.nextpid + 1)
    else if me.pc.Dying1? then s.(exited := s.exited + {me.pid})
    else if me.pc.ScanTest? && x.state == Zombie && ok then s.(reaped := s.reaped + [Reaped(x.pid, x.father, me.pid)])
    else s
  }

  function NextAct(s: State, p: nat, ok: bool): (r: Option<State>)
    requires p < |s.procs|
  {
    var pc' := ActPc(s, p, ok);
    if pc'.None? then None
    else
      Some(At(ActHistory(s, p, ok).(procs := s.procs[Target(|s.procs|, p, s.procs[p].pc) := ActSlot(s, p, ok)]), p,
        pc'.value))
  }

  predicate Shape(s: State) {
    |s.locks| == |s.procs| + 1
  }

  /** CPU c runs process p. */
  predicate Runs(s: State, c: nat, p: nat) {
    c < |s.cpus| && s.cpus[c] == Run(p) && p < |s.procs|
  }

  function OnCpu(s: State, c: nat, u: Cpu): (r: State)
    requires c < |s.cpus|
  {
    s.(cpus := s.cpus[c := u])
  }

  function SchedDo(s: State, e: Event): (r: Option<State>)
    requires Shape(s)
  {
    if e.c >= |s.cpus| then None
    else
      var u := s.cpus[e.c];
      match e
      case Pick(c, p) =>
        if u.Loop? && p < |s.procs| && s.locks[p] == -1
          then Some(OnCpu(s.(locks := s.locks[p := c]), c, Took(p))) else None
      case Look(c) =>
        if !u.Took? || u.p >= |s.procs| then None
        else if s.procs[u.p].state == Runnable && s.procs[u.p].pc.Parked? then
          var x := s.procs[u.p];
          Some(OnCpu(s.(procs := s.procs[u.p := x.(state := Running, pc := Resumed(x.pc.ret))]), c, Run(u.p)))
        else Some(OnCpu(s, c, Put(u.p)))
      case Switch(c) =>
        if u.Run? && u.p < |s.procs| && s.procs[u.p].pc.Sched? then
          Some(OnCpu(At(s, u.p, Parked(s.procs[u.p].pc.ret)), c, Back(u.p)))
        else None
      case Clear(c) => if u.Back? then Some(OnCpu(s, c, Put(u.p))) else None
      case Leave(c) =>
        if u.Put? && u.p < |s.procs| then Some(OnCpu(s.(locks := s.locks[u.p := -1]), c, Loop)) else None
      case Rouse(c, p) =>
        if p < |s.procs| && s.locks[p] == -1 && s.procs[p].state == Sleeping then
          Some(s.(procs := s.procs[p := s.procs[p].(state := Runnable)]))
        else None
      case _ => None
  }

  function ProcDo(s: State, e: Event): (r: Option<State>)
    requires Shape(s)
  {
    if e.c >= |s.cpus| || !s.cpus[e.c].Run? || s.cpus[e.c].p >= |s.procs| then None
    else
      var p := s.cpus[e.c].p;
      var pc := s.procs[p].pc;
      match e
      case Enter(c, pc') =>
        if pc.User? && (pc'.Nap0? || pc'.Wait0? || pc' == ForkScan(0) || (pc'.Exit0? && p != 0))
          then Some(At(s, p, pc'))
        else None
      case Preempt(c) =>
        if PcLocks(|s.procs|, p, pc) == {} && !OffCpu(pc) then Some(At(s, p, Yield0(pc))) else None
      case Take(c) =>
        var t := NextTake(s, p);
        if t.Some? && t.value.0 <= |s.procs| && s.locks[t.value.0] == -1 then
          Some(At(s.(locks := s.locks[t.value.0 := c]), p, t.value.1))
        else None
      case Drop(c) =>
        var t := NextDrop(|s.procs|, p, pc);
        if t.Some? && t.value.0 <= |s.procs| then Some(At(s.(locks := s.locks[t.value.0 := -1]), p, t.value.1))
          else None
      case Act(c, ok) => NextAct(s, p, ok)
      case _ => None
  }

  /** One step of the machine; None when the event is not possible. */
  function Do(s: State, e: Event): (r: Option<State>)
    requires Shape(s)
  {
    var r := SchedDo(s, e);
    if r.Some? then r else ProcDo(s, e)
  }
}
