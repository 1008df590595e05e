/** sleep and wakeup of kernel/proc.c, for any spin locks, any shared state under them and
    any conditions to sleep on: every acquire and release of a spin lock or of p->lock is a
    step of its own, in any interleaving of any number of processes. */
module SleepWakeup {
  import opened Common
  import opened Ownership

  datatype ProcState = Running | Sleeping | Runnable

  /** Channel ch is slept on under spin lock lockOf(ch), until cond(ch, v) holds of the value
      v that this lock guards. */
  datatype System<!S> = System(nchan: nat, lockOf: nat -> nat, cond: (nat, S) -> bool)

  /** Where a process is; l is a spin lock and ch a channel. */
  datatype Pc =
    | Out
    | Want(l: nat)                    // about to acquire l
    | In(l: nat)                      // holds l
    | Sleep0(l: nat, ch: nat)         // sleep: about to acquire its own p->lock
    | Sleep1(l: nat, ch: nat)         // holds both: about to release l
    | Sleep2(l: nat, ch: nat)         // holds p->lock: about to set chan and state
    | Sched(l: nat, ch: nat)          // in sched(): the scheduler is about to release p->lock
    | Parked(l: nat, ch: nat)         // off the CPU, p->lock released
    | Resumed(l: nat, ch: nat)        // back on a CPU, holding p->lock: about to clear chan
    | Wake(l: nat, ch: nat, k: nat)   // wakeup: about to acquire the lock of process k
    | WakeAt(l: nat, ch: nat, k: nat) // holds it: about to test state and chan

  /** owes are the channels whose conditions the process has made true and not yet woken. */
  datatype Proc = Proc(pc: Pc, state: ProcState, chan: nat, owes: set<nat>)

  /** lk and plk hold the number of the process that has the lock, or -1. */
  datatype State<S> = State(lk: seq<int>, shared: seq<S>, plk: seq<int>, procs: seq<Proc>)

  datatype Event<S> =
    | Enter(p: nat, l: nat)    // a process goes for spin lock l
    | Change(p: nat, v: S)     // the holder of a spin lock changes what it guards
    | Snooze(p: nat, ch: nat)  // the holder calls sleep, the condition being false
    | Rouse(p: nat, ch: nat)   // the holder calls wakeup
    | Leave(p: nat)            // the holder releases the lock, having woken whom it must
    | Step(p: nat)             // a process, or the scheduler for it, does its next step
    | Dispatch(p: nat)         // a scheduler switches to a runnable process
    | Kill(p: nat)             // kill makes a sleeping process runnable

  function Boot<S>(nproc: nat, init: seq<S>): (s: State<S>) {
    State(seq(|init|, _ => -1), init, seq(nproc, _ => -1), seq(nproc, _ => Proc(Out, Running, 0, {})))
  }

  function At<S>(s: State<S>, p: nat, pc: Pc): (r: State<S>)
    requires p < |s.procs|
  {
    s.(procs := s.procs[p := s.procs[p].(pc := pc)])
  }

  predicate Shape<S>(s: State<S>) {
    |s.lk| == |s.shared| && |s.plk| == |s.procs|
  }

  /** The lock a program counter speaks about, and the channel. */
  predicate PcOk<S>(y: System<S>, s: State<S>, pc: Pc) {
    && (pc.Out? || pc.l < |s.lk|)
    && (pc.Out? || pc.Want? || pc.In? || (pc.ch < y.nchan && y.lockOf(pc.ch) == pc.l))
  }

  /** The channels of lock l whose conditions hold and did not before, or were owed already. */
  function Owing<S>(y: System<S>, l: nat, owes: set<nat>, v: S, v': S): (r: set<nat>) {
    set ch: nat | ch < y.nchan && y.lockOf(ch) == l && y.cond(ch, v') && (ch in owes || !y.cond(ch, v))
  }

  /** The next step of process p; None when it has to wait. */
  function Next<S>(s: State<S>, p: nat): (r: Option<State<S>>)
    requires Shape(s) && p < |s.procs| && (s.procs[p].pc.Out? || s.procs[p].pc.l < |s.lk|)
  {
    var me := s.procs[p];
    match me.pc
    case Out => None
    case Want(l) => if s.lk[l] != -1 then None else Some(At(s.(lk := s.lk[l := p]), p, In(l)))
    case In(l) => None
    case Sleep0(l, ch) => if s.plk[p] != -1 then None else Some(At(s.(plk := s.plk[p := p]), p, Sleep1(l, ch)))
    case Sleep1(l, ch) => Some(At(s.(lk := s.lk[l := -1]), p, Sleep2(l, ch)))
    case Sleep2(l, ch) => Some(s.(procs := s.procs[p := me.(pc := Sched(l, ch), chan := ch + 1, state := Sleeping)]))
    case Sched(l, ch) => Some(At(s.(plk := s.plk[p := -1]), p, Parked(l, ch)))
    case Parked(l, ch) => None
    case Resumed(l, ch) => Some(s.(plk := s.plk[p := -1], procs := s.procs[p := me.(pc := Want(l), chan := 0)]))
    case Wake(l, ch, k) =>
      if k >= |s.procs| then Some(s.(procs := s.procs[p := me.(pc := In(l), owes := me.owes - {ch})]))
      else if k == p then Some(At(s, p, Wake(l, ch, k + 1)))
      else if s.plk[k] != -1 then None
      else Some(At(s.(plk := s.plk[k := p]), p, WakeAt(l, ch, k)))
    case WakeAt(l, ch, k) =>
      if k >= |s.procs| || k == p then None
      else
        var q := s.procs[k];
        var q' := if q.state == Sleeping && q.chan == ch + 1 then q.(state := Runnable) else q;
        Some(s.(plk := s.plk[k := -1], procs := s.procs[k := q'][p := me.(pc := Wake(l, ch, k + 1))]))
  }

  predicate Holding<S>(s: State<S>, p: nat) {
    p < |s.procs| && s.procs[p].pc.In? && s.procs[p].pc.l < |s.lk|
  }

  function Do<S>(y: System<S>, s: State<S>, e: Event<S>): (r: Option<State<S>>)
    requires Shape(s)
  {
    if e.p >= |s.procs| then None
    else
      var me := s.procs[e.p];
      match e
      case Enter(p, l) => if me.pc.Out? && l < |s.lk| then Some(At(s, p, Want(l))) else None
      case Change(p, v) =>
        if !Holding(s, p) then None
        else
          var l := me.pc.l;
          Some(s.(shared := s.shared[l := v], procs := s.procs[p := me.(owes := Owing(y, l, me.owes, s.shared[l], v))]))
      case Snooze(p, ch) =>
        if Holding(s, p) && ch < y.nchan && y.lockOf(ch) == me.pc.l && !y.cond(ch, s.shared[me.pc.l]) &&
          me.owes == {} then
          Some(At(s, p, Sleep0(me.pc.l, ch)))
        else None
      case Rouse(p, ch) =>
        if Holding(s, p) && ch < y.nchan && y.lockOf(ch) == me.pc.l then Some(At(s, p, Wake(me.pc.l, ch, 0))) else None
      case Leave(p) =>
        if Holding(s, p) && me.owes == {} then Some(At(s.(lk := s.lk[me.pc.l := -1]), p, Out)) else None
      case Step(p) => if me.pc.Out? || me.pc.l < |s.lk| then Next(s, p) else None
      case Dispatch(p) =>
        if me.pc.Parked? && me.state == Runnable && s.plk[p] == -1 then
          Some(s.(plk := s.plk[p := p], procs := s.procs[p := me.(pc := Resumed(me.pc.l, me.pc.ch), state := Running)]))
        else None
      case Kill(p) =>
        if s.plk[p] == -1 && me.state == Sleeping then Some(s.(procs := s.procs[p := me.(state := Runnable)])) else None
  }

  /** The spin locks held at a program counter. */
  function Spins(pc: Pc): (r: set<nat>) {
    match pc
    case In(l) => {l} case Sleep0(l, _) => {l} case Sleep1(l, _) => {l}
    case Wake(l, _, _) => {l} case WakeAt(l, _, _) => {l}
    case _ => {}
  }

  /** The p->locks held by process p at a program counter. */
  function ProcLocks(p: nat, pc: Pc): (r: set<nat>) {
    match pc
    case Sleep1(_, _) => {p} case Sleep2(_, _) => {p} case Sched(_, _) => {p} case Resumed(_, _) => {p}
    case WakeAt(_, _, k) => {k}
    case _ => {}
  }

  ghost function SpinSets<S>(s: State<S>): (r: seq<set<nat>>) {
    seq(|s.procs|, p requires 0 <= p < |s.procs| => Spins(s.procs[p].pc))
  }

  ghost function ProcSets<S>(s: State<S>): (r: seq<set<nat>>) {
    seq(|s.procs|, p requires 0 <= p < |s.procs| => ProcLocks(p, s.procs[p].pc))
  }

  /** Asleep on ch, or past release(lk) on the way to sleeping on it. */
  predicate Asleep(x: Proc, ch: nat) {
    (x.pc.Sleep2? || x.pc.Sched? || (x.pc.Parked? && x.state == Sleeping)) && x.pc.ch == ch
  }

  ghost predicate ProcOk<S>(y: System<S>, s: State<S>, p: nat, x: Proc) {
    && PcOk(y, s, x.pc)
    && (x.pc.Sched? ==> x.state == Sleeping && x.chan == x.pc.ch + 1)
    && (x.pc.Parked? ==> x.state != Running && x.chan == x.pc.ch + 1)
    && (x.state != Running ==> x.pc.Sched? || x.pc.Parked?)
    && (x.pc.WakeAt? ==> x.pc.k < |s.procs| && x.pc.k != p)
    && (x.owes != {} ==> x.pc.In? || x.pc.Wake? || x.pc.WakeAt?)
  }

  ghost predicate LocksOk<S>(s: State<S>) {
    Shape(s) && Owns(s.lk, SpinSets(s)) && Owns(s.plk, ProcSets(s))
  }

  ghost predicate ProcsOk<S>(y: System<S>, s: State<S>) {
    forall p :: 0 <= p < |s.procs| ==> ProcOk(y, s, p, s.procs[p])
  }

  /** Whoever is about to fall asleep waits for something that does not hold. */
  ghost predicate WaitsOk<S>(y: System<S>, s: State<S>, x: Proc)
    requires Shape(s) && PcOk(y, s, x.pc)
  {
    x.pc.Sleep0? || x.pc.Sleep1? ==> !y.cond(x.pc.ch, s.shared[x.pc.l])
  }

  /** Whoever is asleep, or on the way there, waits for something that does not hold, or for
      which the holder of the lock still owes a wakeup. */
  ghost predicate OwedOk<S>(y: System<S>, s: State<S>, x: Proc)
    requires LocksOk(s) && PcOk(y, s, x.pc)
  {
    forall ch :: Asleep(x, ch) && y.cond(ch, s.shared[x.pc.l]) ==>
      s.lk[x.pc.l] != -1 && ch in s.procs[s.lk[x.pc.l]].owes
  }

  /** A wakeup in progress has left nobody asleep behind it. */
  ghost predicate PassedOk<S>(s: State<S>, p: nat)
    requires p < |s.procs|
  {
    forall q, ch :: 0 <= q < |s.procs| && Behind(s.procs[q].pc, ch, p) ==> !Asleep(s.procs[p], ch)
  }

  ghost predicate SleeperOk<S>(y: System<S>, s: State<S>, p: nat)
    requires LocksOk(s) && p < |s.procs| && PcOk(y, s, s.procs[p].pc)
  {
    WaitsOk(y, s, s.procs[p]) && OwedOk(y, s, s.procs[p]) && PassedOk(s, p)
  }

  /** A wakeup of ch at pc has gone past process p. */
  predicate Behind(pc: Pc, ch: nat, p: nat) {
    (pc.Wake? || pc.WakeAt?) && pc.ch == ch && p < pc.k
  }

  ghost predicate Inv<S>(y: System<S>, s: State<S>) {
    LocksOk(s) && ProcsOk(y, s) && forall p :: 0 <= p < |s.procs| ==> SleeperOk(y, s, p)
  }

  lemma BootOk<S>(y: System<S>, nproc: nat, init: seq<S>)
    ensures Inv(y, Boot(nproc, init))
  {
  }

  // How one event changes the lock tables.

  lemma OthersStay<S>(y: System<S>, s: State<S>, e: Event<S>)
    requires Shape(s) && Do(y, s, e).Some?
    ensures var s' := Do(y, s, e).value;
            && e.p < |s.procs| == |s'.procs| && Shape(s') && |s'.lk| == |s.lk|
            && forall q :: 0 <= q < |s.procs| && q != e.p ==>
                 s'.procs[q].pc == s.procs[q].pc && s'.procs[q].owes == s.procs[q].owes &&
                   s'.procs[q].chan == s.procs[q].chan
  {
  }

  lemma SetsAfter<S>(y: System<S>, s: State<S>, e: Event<S>)
    requires Shape(s) && Do(y, s, e).Some?
    ensures var s' := Do(y, s, e).value;
            && e.p < |s.procs| == |s'.procs| && Shape(s') && |s'.lk| == |s.lk|
            && SpinSets(s') == SpinSets(s)[e.p := Spins(s'.procs[e.p].pc)]
            && ProcSets(s') == ProcSets(s)[e.p := ProcLocks(e.p, s'.procs[e.p].pc)]
  {
    hide Do;
    OthersStay(y, s, e);
  }

  lemma SpinKept<S>(y: System<S>, s: State<S>, e: Event<S>)
    requires LocksOk(s) && ProcsOk(y, s) && Do(y, s, e).Some?
    ensures Owns(Do(y, s, e).value.lk, SpinSets(Do(y, s, e).value))
  {
    hide Owns, Owing;
    SetsAfter(y, s, e);
    assert ProcOk(y, s, e.p, s.procs[e.p]);
    var has, pc := SpinSets(s), s.procs[e.p].pc;
    if e.Step? && pc.Want? {
      OwnsTake(s.lk, has, e.p, pc.l);
      assert has[e.p] + {pc.l} == {pc.l};
    } else if e.Leave? || (e.Step? && pc.Sleep1?) {
      OwnsDrop(s.lk, has, e.p, pc.l);
      assert has[e.p] - {pc.l} == {};
    } else {
      assert has[e.p := has[e.p]] == has;
    }
  }

  lemma ProcLocksKept<S>(y: System<S>, s: State<S>, e: Event<S>)
    requires LocksOk(s) && ProcsOk(y, s) && Do(y, s, e).Some?
    ensures Owns(Do(y, s, e).value.plk, ProcSets(Do(y, s, e).value))
  {
    hide Owns, Owing;
    SetsAfter(y, s, e);
    var has, pc := ProcSets(s), s.procs[e.p].pc;
    var pc' := Do(y, s, e).value.procs[e.p].pc;
    if (e.Step? && pc.Sleep0?) || e.Dispatch? {
      OwnsTake(s.plk, has, e.p, e.p);
      assert has[e.p] + {e.p} == {e.p};
    } else if e.Step? && pc'.WakeAt? {
      OwnsTake(s.plk, has, e.p, pc.k);
      assert has[e.p] + {pc.k} == {pc.k};
    } else if e.Step? && (pc.Sched? || pc.Resumed?) {
      OwnsDrop(s.plk, has, e.p, e.p);
      assert has[e.p] - {e.p} == {};
    } else if e.Step? && pc.WakeAt? {
      OwnsDrop(s.plk, has, e.p, pc.k);
      assert has[e.p] - {pc.k} == {};
    } else {
      assert has[e.p := has[e.p]] == has;
    }
  }

  lemma LocksKept<S>(y: System<S>, s: State<S>, e: Event<S>)
    requires LocksOk(s) && ProcsOk(y, s) && Do(y, s, e).Some?
    ensures LocksOk(Do(y, s, e).value)
  {
    hide Owns, SpinSets, ProcSets, Do;
    SetsAfter(y, s, e);
    SpinKept(y, s, e);
    ProcLocksKept(y, s, e);
  }

  lemma SpinFact<S>(s: State<S>, p: nat, l: nat)
    requires LocksOk(s) && p < |s.procs| && l < |s.lk|
    ensures -1 <= s.lk[l] < |s.procs| && (s.lk[l] == p <==> l in Spins(s.procs[p].pc))
  {
    assert SpinSets(s)[p] == Spins(s.procs[p].pc);
  }

  lemma ProcLockFact<S>(s: State<S>, p: nat, l: nat)
    requires LocksOk(s) && p < |s.procs| && l < |s.procs|
    ensures -1 <= s.plk[l] < |s.procs| && (s.plk[l] == p <==> l in ProcLocks(p, s.procs[p].pc))
  {
    assert ProcSets(s)[p] == ProcLocks(p, s.procs[p].pc);
  }

  lemma ProcSelf<S>(y: System<S>, s: State<S>, e: Event<S>)
    requires LocksOk(s) && ProcsOk(y, s) && Do(y, s, e).Some?
    ensures var s' := Do(y, s, e).value;
            e.p < |s.procs| == |s'.procs| && |s'.lk| == |s.lk| && ProcOk(y, s', e.p, s'.procs[e.p])
  {
    hide Owns, SpinSets, ProcSets, Owing;
    ProcLockFact(s, e.p, e.p);
    assert ProcOk(y, s, e.p, s.procs[e.p]);
  }

  lemma ProcOther<S>(y: System<S>, s: State<S>, e: Event<S>, q: nat)
    requires LocksOk(s) && ProcsOk(y, s) && Do(y, s, e).Some? && q < |s.procs| && q != e.p
    ensures var s' := Do(y, s, e).value; |s'.procs| == |s.procs| && |s'.lk| == |s.lk| && ProcOk(y, s', q, s'.procs[q])
  {
    hide Owns, SpinSets, ProcSets, Owing;
    assert ProcOk(y, s, e.p, s.procs[e.p]) && ProcOk(y, s, q, s.procs[q]);
    if e.Step? && s.procs[e.p].pc.WakeAt? {
      ProcLockFact(s, e.p, q);
      ProcLockFact(s, q, q);
    }
  }

  lemma ProcsKept<S>(y: System<S>, s: State<S>, e: Event<S>)
    requires LocksOk(s) && ProcsOk(y, s) && Do(y, s, e).Some?
    ensures ProcsOk(y, Do(y, s, e).value)
  {
    hide Do, Owns, SpinSets, ProcSets, ProcOk;
    OthersStay(y, s, e);
    var s' := Do(y, s, e).value;
    forall q | 0 <= q < |s'.procs|
      ensures ProcOk(y, s', q, s'.procs[q])
    {
      if q == e.p {
        ProcSelf(y, s, e);
      } else {
        ProcOther(y, s, e, q);
      }
    }
  }

  // Sleepers.

  /** A spin lock has one holder. */
  lemma OneHolder<S>(s: State<S>, p: nat, q: nat, l: nat)
    requires LocksOk(s) && p < |s.procs| && q < |s.procs| && l < |s.lk| && l in Spins(s.procs[p].pc)
    requires l in Spins(s.procs[q].pc)
    ensures p == q && s.lk[l] == p
  {
    SpinFact(s, p, l);
    SpinFact(s, q, l);
  }

  lemma WaitsKept<S>(y: System<S>, s: State<S>, e: Event<S>, q: nat)
    requires Inv(y, s) && Do(y, s, e).Some? && q < |s.procs|
    requires LocksOk(Do(y, s, e).value) && ProcsOk(y, Do(y, s, e).value)
    ensures |Do(y, s, e).value.procs| == |s.procs| && PcOk(y, Do(y, s, e).value, Do(y, s, e).value.procs[q].pc)
    ensures WaitsOk(y, Do(y, s, e).value, Do(y, s, e).value.procs[q])
  {
    hide Owns, SpinSets, ProcSets, Owing, OwedOk, PassedOk;
    OthersStay(y, s, e);
    var s' := Do(y, s, e).value;
    assert ProcOk(y, s, q, s.procs[q]) && ProcOk(y, s', q, s'.procs[q]) && ProcOk(y, s, e.p, s.procs[e.p]);
    assert SleeperOk(y, s, q);
    var pc := s.procs[q].pc;
    if e.Change? && (pc.Sleep0? || pc.Sleep1?) && pc.l == s.procs[e.p].pc.l {
      OneHolder(s, e.p, q, pc.l);
    }
  }

  /** A process asleep after an event that did not put it to sleep was so before. */
  lemma AsleepBefore<S>(y: System<S>, s: State<S>, e: Event<S>, q: nat, ch: nat)
    requires LocksOk(s) && ProcsOk(y, s) && Do(y, s, e).Some? && q < |s.procs| && q < |Do(y, s, e).value.procs|
    ensures Asleep(Do(y, s, e).value.procs[q], ch) ==>
              && Do(y, s, e).value.procs[q].pc.l == s.procs[q].pc.l
              && (Asleep(s.procs[q], ch) || (e == Step(q) && s.procs[q].pc == Sleep1(s.procs[q].pc.l, ch)))
  {
    hide Owns, SpinSets, ProcSets, Owing;
    assert ProcOk(y, s, q, s.procs[q]) && ProcOk(y, s, e.p, s.procs[e.p]);
    if e.Step? && s.procs[e.p].pc.WakeAt? {
      ProcLockFact(s, e.p, q);
      ProcLockFact(s, q, q);
    }
  }

  /** What is owed stays owed until the wakeup is through. */
  lemma OwedStill<S>(y: System<S>, s: State<S>, e: Event<S>, q: nat, ch: nat)
    requires Inv(y, s) && Do(y, s, e).Some? && q < |s.procs| && Asleep(s.procs[q], ch)
    requires LocksOk(Do(y, s, e).value) && |Do(y, s, e).value.procs| == |s.procs| && |Do(y, s, e).value.lk| == |s.lk|
    requires s.procs[q].pc.l < |s.lk| && y.cond(ch, Do(y, s, e).value.shared[s.procs[q].pc.l])
    ensures var l, s' := s.procs[q].pc.l, Do(y, s, e).value; s'.lk[l] != -1 && ch in s'.procs[s'.lk[l]].owes
  {
    hide Owns, SpinSets, ProcSets, WaitsOk;
    var l, s' := s.procs[q].pc.l, Do(y, s, e).value;
    assert ProcOk(y, s, q, s.procs[q]) && ProcOk(y, s, e.p, s.procs[e.p]);
    assert SleeperOk(y, s, q);
    SpinFact(s, e.p, l);
    if y.cond(ch, s.shared[l]) {
      var o := s.lk[l];
      SpinFact(s, o, l);
      assert ProcOk(y, s, o, s.procs[o]);
      if e.p == o && e.Step? && s.procs[o].pc.Wake? && s.procs[o].pc.k >= |s.procs| {
        assert Behind(s.procs[o].pc, s.procs[o].pc.ch, q);
      }
    }
  }

  lemma OwedKept<S>(y: System<S>, s: State<S>, e: Event<S>, q: nat)
    requires Inv(y, s) && Do(y, s, e).Some? && q < |s.procs|
    requires LocksOk(Do(y, s, e).value) && ProcsOk(y, Do(y, s, e).value)
    ensures |Do(y, s, e).value.procs| == |s.procs| && PcOk(y, Do(y, s, e).value, Do(y, s, e).value.procs[q].pc)
    ensures OwedOk(y, Do(y, s, e).value, Do(y, s, e).value.procs[q])
  {
    hide Owns, SpinSets, ProcSets, Owing, OwedOk, PassedOk;
    OthersStay(y, s, e);
    var s' := Do(y, s, e).value;
    assert ProcOk(y, s, q, s.procs[q]) && ProcOk(y, s', q, s'.procs[q]);
    assert SleeperOk(y, s, q);
    OwedMeans(y, s', s'.procs[q]);
    if !s'.procs[q].pc.Out? {
      SpinFact(s', q, s'.procs[q].pc.l);
    }
    forall ch | Asleep(s'.procs[q], ch) && y.cond(ch, s'.shared[s'.procs[q].pc.l])
      ensures s'.lk[s'.procs[q].pc.l] != -1 && ch in s'.procs[s'.lk[s'.procs[q].pc.l]].owes
    {
      AsleepBefore(y, s, e, q, ch);
      if Asleep(s.procs[q], ch) {
        OwedStill(y, s, e, q, ch);
      }
    }
  }

  lemma OwedMeans<S>(y: System<S>, s: State<S>, x: Proc)
    requires LocksOk(s) && PcOk(y, s, x.pc)
    ensures OwedOk(y, s, x) <==>
            forall ch :: Asleep(x, ch) && y.cond(ch, s.shared[x.pc.l]) ==>
              s.lk[x.pc.l] != -1 && ch in s.procs[s.lk[x.pc.l]].owes
  {
  }

  lemma PassedKept<S>(y: System<S>, s: State<S>, e: Event<S>, q: nat)
    requires Inv(y, s) && Do(y, s, e).Some? && q < |s.procs|
    requires LocksOk(Do(y, s, e).value) && |Do(y, s, e).value.procs| == |s.procs|
    ensures PassedOk(Do(y, s, e).value, q)
  {
    hide Owns, SpinSets, ProcSets, Owing, OwedOk, WaitsOk;
    OthersStay(y, s, e);
    var s' := Do(y, s, e).value;
    assert SleeperOk(y, s, q) && ProcOk(y, s, q, s.procs[q]);
    forall r, ch | 0 <= r < |s'.procs| && Behind(s'.procs[r].pc, ch, q)
      ensures !Asleep(s'.procs[q], ch)
    {
      AsleepBefore(y, s, e, q, ch);
      assert ProcOk(y, s, r, s.procs[r]);
      if e == Step(q) && s.procs[q].pc == Sleep1(s.procs[q].pc.l, ch) {
        OneHolder(s, q, r, s.procs[q].pc.l);
      } else if !Behind(s.procs[r].pc, ch, q) {
        JustPassed(y, s, e, q, ch);
      }
    }
  }

  /** The process that a wakeup goes past now is not asleep on its channel afterwards. */
  lemma JustPassed<S>(y: System<S>, s: State<S>, e: Event<S>, q: nat, ch: nat)
    requires LocksOk(s) && ProcsOk(y, s) && Do(y, s, e).Some? && q < |s.procs| == |Do(y, s, e).value.procs|
    requires e.p < |s.procs| && Behind(Do(y, s, e).value.procs[e.p].pc, ch, q) && !Behind(s.procs[e.p].pc, ch, q)
    ensures !Asleep(Do(y, s, e).value.procs[q], ch)
  {
    hide Owns, SpinSets, ProcSets, Owing;
    assert ProcOk(y, s, q, s.procs[q]) && ProcOk(y, s, e.p, s.procs[e.p]);
    ProcLockFact(s, e.p, q);
    ProcLockFact(s, q, q);
  }

  lemma InvKept<S>(y: System<S>, s: State<S>, e: Event<S>)
    requires Inv(y, s) && Do(y, s, e).Some?
    ensures Inv(y, Do(y, s, e).value)
  {
    hide Do, Owns, SpinSets, ProcSets, ProcOk, OwedOk, WaitsOk, PassedOk, LocksOk;
    InvShape(y, s);
    OthersStay(y, s, e);
    LocksKept(y, s, e);
    ProcsKept(y, s, e);
    var s' := Do(y, s, e).value;
    forall q | 0 <= q < |s'.procs|
      ensures PcOk(y, s', s'.procs[q].pc) && SleeperOk(y, s', q)
    {
      WaitsKept(y, s, e, q);
      OwedKept(y, s, e, q);
      PassedKept(y, s, e, q);
    }
  }

  lemma InvShape<S>(y: System<S>, s: State<S>)
    requires Inv(y, s)
    ensures Shape(s)
  {
  }

  /** The state after a run; an event that is not possible ends it. */
  function Run<S>(y: System<S>, s: State<S>, es: seq<Event<S>>): (r: Option<State<S>>)
    requires Shape(s)
    decreases |es|
  {
    if es == [] then Some(s)
    else
      var r := Do(y, s, es[0]);
      if r.None? || !Shape(r.value) then None else Run(y, r.value, es[1..])
  }

  lemma {:induction false} RunKeeps<S>(y: System<S>, s: State<S>, es: seq<Event<S>>)
    requires Shape(s) && Inv(y, s) && Run(y, s, es).Some?
    ensures var r := Run(y, s, es).value; Inv(y, r) && |r.lk| == |s.lk| && |r.procs| == |s.procs|
    decreases |es|
  {
    hide Do, Inv;
    if es != [] {
      OthersStay(y, s, es[0]);
      InvKept(y, s, es[0]);
      RunKeeps(y, Do(y, s, es[0]).value, es[1..]);
    }
  }

  /** No lost wakeup, whatever the locks guard and whatever the processes wait for: in every
      run, when the lock is free and the condition holds, nobody is asleep on the channel or
      past release(lk) on the way to sleeping on it. */
  lemma NoLostWakeup<S>(y: System<S>, nproc: nat, init: seq<S>, es: seq<Event<S>>, ch: nat, p: nat)
    requires p < nproc && Run(y, Boot(nproc, init), es).Some?
    ensures var s := Run(y, Boot(nproc, init), es).value;
            && |s.lk| == |s.shared| == |init| && |s.procs| == nproc
            && (Asleep(s.procs[p], ch) ==>
                  y.lockOf(ch) < |init| && (s.lk[y.lockOf(ch)] == -1 ==> !y.cond(ch, s.shared[y.lockOf(ch)])))
  {
    BootOk(y, nproc, init);
    RunKeeps(y, Boot(nproc, init), es);
    var s := Run(y, Boot(nproc, init), es).value;
    hide Boot, Run, Owns, SpinSets, ProcSets;
    assert ProcOk(y, s, p, s.procs[p]) && SleeperOk(y, s, p);
  }

  /** In every run, when a wakeup is through, with the lock still held, nobody is asleep on its
      channel: as far as the lock's holders can tell, wakeup takes effect at once. */
  lemma WakesAll<S>(y: System<S>, nproc: nat, init: seq<S>, es: seq<Event<S>>, q: nat, p: nat)
    requires p < nproc && q < nproc && Run(y, Boot(nproc, init), es).Some?
    ensures var s := Run(y, Boot(nproc, init), es).value;
            && |s.procs| == nproc
            && var pc := s.procs[q].pc; pc.Wake? && pc.k >= nproc ==> !Asleep(s.procs[p], pc.ch)
  {
    BootOk(y, nproc, init);
    RunKeeps(y, Boot(nproc, init), es);
    var s := Run(y, Boot(nproc, init), es).value;
    hide Boot, Run, Owns, SpinSets, ProcSets;
    assert SleeperOk(y, s, p);
    assert s.procs[q].pc.Wake? && s.procs[q].pc.k >= nproc ==> Behind(s.procs[q].pc, s.procs[q].pc.ch, p);
  }

  /** A process joins the sleepers of a channel in the very step in which it releases the lock,
      and leaves them only by a wakeup whose caller holds the lock, or by kill: so release and
      falling asleep may be taken as one step. */
  lemma SleepersChange<S>(y: System<S>, s: State<S>, e: Event<S>, p: nat, ch: nat)
    requires Inv(y, s) && Shape(s) && Do(y, s, e).Some? && p < |s.procs| && y.lockOf(ch) < |s.lk|
    ensures var s' := Do(y, s, e).value;
            && |s'.procs| == |s.procs| && |s'.lk| == |s.lk|
            && (Asleep(s'.procs[p], ch) && !Asleep(s.procs[p], ch) ==>
                  e == Step(p) && s.lk[y.lockOf(ch)] == p && s'.lk[y.lockOf(ch)] == -1)
            && (Asleep(s.procs[p], ch) && !Asleep(s'.procs[p], ch) ==>
                  e == Kill(p) || (e.Step? && e.p != p && s.lk[y.lockOf(ch)] == e.p && s'.lk[y.lockOf(ch)] == e.p))
  {
    hide Owns, SpinSets, ProcSets, Owing, OwedOk, WaitsOk, PassedOk;
    OthersStay(y, s, e);
    assert ProcOk(y, s, p, s.procs[p]) && ProcOk(y, s, e.p, s.procs[e.p]);
    AsleepBefore(y, s, e, p, ch);
    SpinFact(s, p, y.lockOf(ch));
    SpinFact(s, e.p, y.lockOf(ch));
  }
}
