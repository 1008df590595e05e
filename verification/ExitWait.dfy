/** exit and wait over every run of the machine in Processes: no zombie is missed by a
    parent asleep in wait, parents never dangle, and every exited process is reaped at
    most once, by its father or by process 0. */
module ExitWait {
  import opened Common
  import opened Ownership
  import opened Processes
  import opened ProcessLocks

  // What a program counter says about the scan in wait and the loops in exit; n is the
  // size of the process table.

  /** Slots below this one have been seen by the scan in wait. */
  function Seen(n: nat, pc: Pc): (r: nat) {
    match pc
    case Scan(k, _) => k case ScanTest(k) => k case ScanSkip(k) => k + 1
    case Sleep0 => n case Sleep1 => n
    case _ => 0
  }

  /** Slots below this one have been seen, and none was a child. */
  function NoKids(pc: Pc): (r: nat) {
    match pc
    case Scan(k, have) => if have then 0 else k
    case _ => 0
  }

  /** Slots below this one have been passed by reparent. */
  function Passed(n: nat, pc: Pc): (r: nat) {
    match pc
    case Reparent(k) => k case Wake(_, _, k) => k case WakeTest(_, _, k) => k case WakeDrop(_, _, k) => k
    case Dying => n case Dying1 => n case Dying2 => n
    case _ => 0
  }

  /** A wakeup for q is in progress and has not come to q yet. */
  predicate Ahead(pc: Pc, q: int) {
    match pc
    case Wake(ch, j, _) => ch == q && j <= q
    case WakeTest(ch, j, _) => ch == q && j <= q
    case WakeDrop(ch, j, _) => ch == q && j < q
    case _ => false
  }

  /** In exit, at the wakeup of the parent or behind it. */
  predicate Leaving(n: nat, pc: Pc) {
    match pc
    case Wake(_, _, k) => k == n + 1 case WakeTest(_, _, k) => k == n + 1 case WakeDrop(_, _, k) => k == n + 1
    case Dying => true case Dying1 => true
    case _ => false
  }

  /** The channel of the wakeup in progress. */
  function WakeChan(pc: Pc): (r: int) {
    match pc
    case Wake(ch, _, _) => ch case WakeTest(ch, _, _) => ch case WakeDrop(ch, _, _) => ch
    case _ => -1
  }

  /** Asleep in wait, or past release(wait_lock) on the way there. */
  predicate Asleep(x: Slot, p: int) {
    x.pc.Sleep2? || (x.state == Sleeping && x.chan == Of(p))
  }

  /** A slot nobody has for a parent. */
  predicate Childless(st: ProcState) {
    st.Unused? || st.Used? || st.Zombie?
  }

  ghost predicate Woken(s: State, q: int) {
    exists r :: 0 <= r < |s.procs| && Ahead(s.procs[r].pc, q)
  }

  /** Parent p and slot k. */
  ghost predicate PairOk(s: State, p: nat, k: nat)
    requires p < |s.procs| && k < |s.procs|
  {
    var n, x, y := |s.procs|, s.procs[p], s.procs[k];
    y.parent == p ==>
      && (Asleep(x, p) && y.state.Zombie? ==> Woken(s, p))
      && (k < Seen(n, x.pc) ==> !y.state.Zombie?)
      && NoKids(x.pc) <= k
      && Passed(n, x.pc) <= k
      && !Childless(x.state)
      && (p == 0 || y.father == x.pid)
  }

  /** Once an exiting process has woken its parent, the parent is not asleep in wait. */
  ghost predicate LeaveOk(s: State, p: nat)
    requires p < |s.procs|
  {
    var x := s.procs[p];
    Leaving(|s.procs|, x.pc) ==>
      && 0 <= x.parent < |s.procs|
      && (!x.pc.Dying? && !x.pc.Dying1? ==> WakeChan(x.pc) == x.parent)
      && (!Ahead(x.pc, x.parent) ==> !Asleep(s.procs[x.parent], x.parent))
  }

  ghost predicate FamilyOk(s: State) {
    && (forall p, k :: 0 <= p < |s.procs| && 0 <= k < |s.procs| ==> PairOk(s, p, k))
    && (forall p :: 0 <= p < |s.procs| ==> LeaveOk(s, p))
  }

  // Steps that only move one process along.

  ghost predicate SameView(n: nat, pc: Pc, pc': Pc) {
    && Seen(n, pc') <= Seen(n, pc) && NoKids(pc') <= NoKids(pc) && Passed(n, pc') <= Passed(n, pc)
    && WakeChan(pc') == WakeChan(pc) && (pc'.Sleep2? ==> pc.Sleep1? || pc.Sleep2?)
    && (forall q :: Ahead(pc', q) == Ahead(pc, q))
    && (Leaving(n, pc') ==> Leaving(n, pc) && (pc'.Dying? || pc'.Dying1? <==> pc.Dying? || pc.Dying1?))
  }

  lemma TakeView(s: State, p: nat)
    requires p < |s.procs|
    ensures NextTake(s, p).Some? ==> SameView(|s.procs|, s.procs[p].pc, NextTake(s, p).value.1)
  {
  }

  lemma DropView(n: nat, p: nat, pc: Pc)
    requires Good(n, p, pc)
    ensures NextDrop(n, p, pc).Some? ==> SameView(n, pc, NextDrop(n, p, pc).value.1)
  {
  }

  /** Two processes that hold the same lock are one. */
  lemma LockOnce(s: State, p: nat, q: nat, l: nat)
    requires Inv(s) && p < |s.procs| && q < |s.procs| && l <= |s.procs|
    ensures l in PcLocks(|s.procs|, p, s.procs[p].pc) && l in PcLocks(|s.procs|, q, s.procs[q].pc) ==> p == q
  {
    hide Owns, ForksOk, StateOk, Good, LinksOk;
    assert SlotOk(s, p) && SlotOk(s, q);
    if l in PcLocks(|s.procs|, p, s.procs[p].pc) && l in PcLocks(|s.procs|, q, s.procs[q].pc) {
      var c: nat :| Runs(s, c, p);
      var d: nat :| Runs(s, d, q);
      HeldFact(s, c, l);
      HeldFact(s, d, l);
    }
  }

  /** A change to slot q that costs it nothing in the role of a parent. */
  ghost predicate ParentQuiet(n: nat, q: nat, x: Slot, x': Slot) {
    && x'.pid == x.pid && (Childless(x'.state) ==> Childless(x.state))
    && (Asleep(x', q) ==> Asleep(x, q) || x.pc.Sleep1?)
    && Seen(n, x'.pc) <= Seen(n, x.pc) && NoKids(x'.pc) <= NoKids(x.pc) && Passed(n, x'.pc) <= Passed(n, x.pc)
  }

  /** The same in the role of a child. */
  predicate ChildQuiet(y: Slot, y': Slot) {
    y'.parent == y.parent && y'.father == y.father && (y'.state.Zombie? ==> y.state.Zombie?)
  }

  ghost predicate QuietSlot(n: nat, q: nat, x: Slot, x': Slot) {
    ParentQuiet(n, q, x, x') && ChildQuiet(x, x') && SameView(n, x.pc, x'.pc) &&
    x'.state.Unused? == x.state.Unused? && x'.state.Zombie? == x.state.Zombie?
  }

  ghost predicate Quiet(s: State, s': State) {
    && |s'.procs| == |s.procs| && s'.nextpid == s.nextpid && s'.exited == s.exited && s'.reaped == s.reaped
    && (forall q :: 0 <= q < |s.procs| ==> QuietSlot(|s.procs|, q, s.procs[q], s'.procs[q]))
  }

  lemma QuietPair(s: State, s': State, p: nat, k: nat)
    requires |s'.procs| == |s.procs| && p < |s.procs| && k < |s.procs| && PairOk(s, p, k)
    requires ParentQuiet(|s.procs|, p, s.procs[p], s'.procs[p]) && ChildQuiet(s.procs[k], s'.procs[k])
    requires Woken(s, p) ==> Woken(s', p)
    ensures PairOk(s', p, k)
  {
    hide Woken;
  }

  lemma QuietWoken(s: State, s': State, p: int)
    requires Quiet(s, s')
    ensures Woken(s, p) ==> Woken(s', p)
  {
    if Woken(s, p) {
      var r :| 0 <= r < |s.procs| && Ahead(s.procs[r].pc, p);
      assert QuietSlot(|s.procs|, r, s.procs[r], s'.procs[r]);
      assert Ahead(s'.procs[r].pc, p);
    }
  }

  lemma QuietLeave(s: State, s': State, p: nat)
    requires Inv(s) && Quiet(s, s') && p < |s.procs| && LeaveOk(s, p)
    ensures LeaveOk(s', p)
  {
    hide Inv;
    var x := s.procs[p];
    assert QuietSlot(|s.procs|, p, x, s'.procs[p]);
    if Leaving(|s.procs|, x.pc) {
      assert QuietSlot(|s.procs|, x.parent, s.procs[x.parent], s'.procs[x.parent]);
      LockOnce(s, p, x.parent, |s.procs|);
    }
  }

  lemma QuietFamily(s: State, s': State)
    requires Inv(s) && FamilyOk(s) && Quiet(s, s')
    ensures FamilyOk(s')
  {
    hide Inv, PairOk, LeaveOk, ParentQuiet, ChildQuiet, Woken;
    forall p, k | 0 <= p < |s'.procs| && 0 <= k < |s'.procs|
      ensures PairOk(s', p, k)
    {
      assert QuietSlot(|s.procs|, p, s.procs[p], s'.procs[p]) && QuietSlot(|s.procs|, k, s.procs[k], s'.procs[k]);
      QuietWoken(s, s', p);
      QuietPair(s, s', p, k);
    }
    forall p | 0 <= p < |s'.procs|
      ensures LeaveOk(s', p)
    {
      QuietLeave(s, s', p);
    }
  }

  // Which steps these are.

  lemma SchedQuiet(s: State, e: Event, q: nat)
    requires Inv(s) && SchedDo(s, e).Some? && q < |s.procs|
    ensures var s' := SchedDo(s, e).value;
            |s'.procs| == |s.procs| && QuietSlot(|s.procs|, q, s.procs[q], s'.procs[q])
  {
    hide Owns, ForksOk, Good, LinksOk;
    assert SlotOk(s, q) && CpuOk(s, e.c);
  }

  /** Steps that work on the family, on pids, or on a program counter that carries a scan. */
  predicate Loud(pc: Pc) {
    pc.ForkTest? || pc.ForkNew? || pc.ForkParent? || pc.Reparent? || pc.Wake? || pc.WakeTest? || pc.Dying1? ||
    pc.Scan? || pc.ScanTest?
  }

  lemma ActView(s: State, p: nat, ok: bool)
    requires p < |s.procs| && ActPc(s, p, ok).Some? && !Loud(s.procs[p].pc) && Good(|s.procs|, p, s.procs[p].pc)
    ensures SameView(|s.procs|, s.procs[p].pc, ActPc(s, p, ok).value)
  {
  }

  lemma ActQuiet(s: State, p: nat, ok: bool)
    requires SlotsOk(s) && ForksOk(s) && p < |s.procs| && !Loud(s.procs[p].pc)
    ensures var t := Target(|s.procs|, p, s.procs[p].pc);
            var x, x' := s.procs[t], ActSlot(s, p, ok);
            && x'.parent == x.parent && x'.pid == x.pid && x'.father == x.father && x'.pc == x.pc
            && (x'.state.Zombie? ==> x.state.Zombie?) && (x'.state.Unused? ==> x.state.Unused?)
            && (Childless(x'.state) ==> Childless(x.state)) && (Asleep(x', t) ==> Asleep(x, t))
            && (t != p ==> x.state.Used?) && ActHistory(s, p, ok) == s
  {
    assert SlotOk(s, p) && FillOk(s, p) && SlotOk(s, Target(|s.procs|, p, s.procs[p].pc));
  }

  lemma ActMoveQuiet(s: State, c: nat, p: nat, ok: bool, q: nat)
    requires Inv(s) && Runs(s, c, p) && NextAct(s, p, ok).Some? && q < |s.procs| && !Loud(s.procs[p].pc)
    ensures var s' := NextAct(s, p, ok).value;
            |s'.procs| == |s.procs| && QuietSlot(|s.procs|, q, s.procs[q], s'.procs[q])
  {
    hide Owns, ForksOk, ActPc, ActSlot, ActHistory, Loud, Target, Good, LinksOk;
    assert SlotOk(s, p) && CpuOk(s, c);
    ActView(s, p, ok);
    ActQuiet(s, p, ok);
    NextState(s, p);
  }

  lemma MoveQuiet(s: State, e: Event, q: nat)
    requires Inv(s) && ProcDo(s, e).Some? && q < |s.procs| && !e.Act?
    ensures var s' := ProcDo(s, e).value;
            |s'.procs| == |s.procs| && QuietSlot(|s.procs|, q, s.procs[q], s'.procs[q])
  {
    hide Owns, ForksOk, NextTake, NextDrop, NextAct, Good, LinksOk;
    var p := s.cpus[e.c].p;
    assert SlotOk(s, p) && CpuOk(s, e.c);
    TakeView(s, p);
    DropView(|s.procs|, p, s.procs[p].pc);
    NextState(s, p);
  }

  // The other steps: s' is what the step of process p, on CPU c, makes of s.

  ghost predicate Acts(s: State, c: nat, p: nat, ok: bool, s': State) {
    Inv(s) && FamilyOk(s) && Runs(s, c, p) && NextAct(s, p, ok) == Some(s') && |s'.procs| == |s.procs|
  }

  /** The acting process as a parent. */
  lemma OwnPair(s: State, c: nat, p: nat, ok: bool, s': State, k: nat)
    requires Acts(s, c, p, ok, s') && k < |s.procs| && Loud(s.procs[p].pc)
    ensures PairOk(s', p, k)
  {
    hide Owns, PcLocks, CpusOk, LocksOk, ActHistory, Woken, Ahead, Leaving, LeaveOk;
    assert SlotOk(s, p) && SlotOk(s, k) && FillOk(s, p) && PairOk(s, p, k);
    NextState(s, p);
  }

  /** The wakeups in progress stay, but for the one whose turn has come. */
  lemma LoudWoken(s: State, c: nat, p: nat, ok: bool, s': State, q: nat)
    requires Acts(s, c, p, ok, s') && q < |s.procs| && q != p && Loud(s.procs[p].pc)
    ensures var pc := s.procs[p].pc;
            Woken(s, q) && !(pc.WakeTest? && pc.j == q && pc.ch == q) ==> Woken(s', q)
  {
    hide Owns, PcLocks, CpusOk, LocksOk, ForksOk, ActHistory, LinksOk, PairOk, LeaveOk;
    assert SlotOk(s, p);
    if Woken(s, q) {
      var r :| 0 <= r < |s.procs| && Ahead(s.procs[r].pc, q);
      assert SlotOk(s, r);
      assert r != p ==> Ahead(s'.procs[r].pc, q);
      var pc := s.procs[p].pc;
      assert r == p && !(pc.WakeTest? && pc.j == q && pc.ch == q) ==> Ahead(s'.procs[p].pc, q);
    }
  }

  /** Holding wait_lock, one is the only process in a scan or a reparent. */
  lemma OnlyScan(s: State, c: nat, p: nat, q: nat)
    requires Inv(s) && Runs(s, c, p) && q < |s.procs| && q != p
    ensures |s.procs| in PcLocks(|s.procs|, p, s.procs[p].pc) ==>
              var pc := s.procs[q].pc;
              Seen(|s.procs|, pc) == NoKids(pc) == Passed(|s.procs|, pc) == 0 && !Leaving(|s.procs|, pc) && !pc.Sleep1?
  {
    hide Inv;
    LockOnce(s, p, q, |s.procs|);
  }

  /** The slot it works on, as a child of somebody else. */
  lemma ReparentPair(s: State, c: nat, p: nat, ok: bool, s': State, q: nat)
    requires Acts(s, c, p, ok, s') && q < |s.procs| && q != p && s.procs[p].pc.Reparent?
    requires Target(|s.procs|, p, s.procs[p].pc) != p
    ensures PairOk(s', q, Target(|s.procs|, p, s.procs[p].pc))
  {
    hide Owns, CpusOk, LocksOk, ForksOk, ActHistory, LeaveOk;
    var t := Target(|s.procs|, p, s.procs[p].pc);
    assert SlotOk(s, p) && SlotOk(s, q) && SlotOk(s, t) && PairOk(s, q, t);
    OnlyScan(s, c, p, q);
    LoudWoken(s, c, p, ok, s', q);
    assert s'.procs[p].pc == ActPc(s, p, ok).value;
  }

  lemma TargetPair(s: State, c: nat, p: nat, ok: bool, s': State, q: nat)
    requires Acts(s, c, p, ok, s') && q < |s.procs| && q != p && Loud(s.procs[p].pc) && !s.procs[p].pc.WakeTest?
    requires !s.procs[p].pc.Reparent?
    requires Target(|s.procs|, p, s.procs[p].pc) != p
    ensures PairOk(s', q, Target(|s.procs|, p, s.procs[p].pc))
  {
    hide Owns, CpusOk, LocksOk, ActHistory, LeaveOk, Woken, PcLocks;
    var t := Target(|s.procs|, p, s.procs[p].pc);
    assert SlotOk(s, p) && SlotOk(s, t) && PairOk(s, q, t) && FillOk(s, p);
    LoudWoken(s, c, p, ok, s', q);
  }

  /** A process that becomes a zombie, as a child. */
  lemma DyingPair(s: State, c: nat, p: nat, ok: bool, s': State, q: nat)
    requires Acts(s, c, p, ok, s') && q < |s.procs| && q != p && s.procs[p].pc.Dying1?
    ensures PairOk(s', q, p)
  {
    hide Owns, CpusOk, LocksOk, ForksOk, ActHistory, Woken;
    assert SlotOk(s, p) && PairOk(s, q, p) && LeaveOk(s, p);
    OnlyScan(s, c, p, q);
  }

  /** Everybody else as a parent. */
  lemma OtherParent(s: State, c: nat, p: nat, ok: bool, s': State, q: nat)
    requires Acts(s, c, p, ok, s') && q < |s.procs| && q != p && Loud(s.procs[p].pc)
    ensures Childless(s.procs[q].state) || ParentQuiet(|s.procs|, q, s.procs[q], s'.procs[q])
    ensures var pc := s.procs[p].pc; pc.WakeTest? && pc.j == q && pc.ch == q ==> !Asleep(s'.procs[q], q)
  {
    hide Owns, CpusOk, ActPc, ActHistory, PairOk, LeaveOk, Woken, LinksOk;
    assert SlotOk(s, p) && SlotOk(s, q) && FillOk(s, p);
    LockOnce(s, p, q, q);
  }

  /** Everybody else as a child. */
  lemma OtherChild(s: State, c: nat, p: nat, ok: bool, s': State, k: nat)
    requires Acts(s, c, p, ok, s') && k < |s.procs| && Loud(s.procs[p].pc)
    requires k == p ==> !s.procs[p].pc.Dying1?
    requires k == p || k != Target(|s.procs|, p, s.procs[p].pc) || s.procs[p].pc.WakeTest?
    ensures ChildQuiet(s.procs[k], s'.procs[k])
  {
    hide Owns, CpusOk, ActPc, ActHistory, PairOk, LeaveOk, Woken, PcLocks;
    assert SlotOk(s, p) && FillOk(s, p);
    NextState(s, p);
  }

  lemma OtherPair(s: State, c: nat, p: nat, ok: bool, s': State, q: nat, k: nat)
    requires Acts(s, c, p, ok, s') && q < |s.procs| && k < |s.procs| && q != p && Loud(s.procs[p].pc)
    requires k == p ==> !s.procs[p].pc.Dying1?
    requires k == p || k != Target(|s.procs|, p, s.procs[p].pc) || s.procs[p].pc.WakeTest?
    ensures PairOk(s', q, k)
  {
    hide Inv, NextAct, ActHistory, LeaveOk, Woken, Loud, Target;
    assert PairOk(s, q, k);
    LoudWoken(s, c, p, ok, s', q);
    OtherParent(s, c, p, ok, s', q);
    OtherChild(s, c, p, ok, s', k);
  }

  /** The exiting process itself. */
  lemma OwnLeave(s: State, c: nat, p: nat, ok: bool, s': State)
    requires Acts(s, c, p, ok, s') && Loud(s.procs[p].pc)
    ensures LeaveOk(s', p)
  {
    hide Owns, CpusOk, ActHistory, PairOk, Woken;
    assert SlotOk(s, p) && LeaveOk(s, p);
    if s.procs[p].parent != -1 && s.procs[p].parent != p {
      OtherParent(s, c, p, ok, s', s.procs[p].parent);
    }
  }

  lemma OtherLeave(s: State, c: nat, p: nat, ok: bool, s': State, q: nat)
    requires Acts(s, c, p, ok, s') && Loud(s.procs[p].pc) && q < |s.procs| && q != p
    ensures LeaveOk(s', q)
  {
    hide Owns, CpusOk, ActHistory, PairOk, Woken;
    assert SlotOk(s, p) && SlotOk(s, q) && LeaveOk(s, q) && FillOk(s, p);
    OnlyScan(s, c, p, q);
    NextState(s, p);
    if Leaving(|s.procs|, s.procs[q].pc) {
      assert SlotOk(s, s.procs[q].parent);
    }
  }

  lemma LoudFamily(s: State, c: nat, p: nat, ok: bool, s': State)
    requires Acts(s, c, p, ok, s') && Loud(s.procs[p].pc)
    ensures FamilyOk(s')
  {
    hide Acts, PairOk, LeaveOk, Loud, Target;
    assert Runs(s, c, p) && |s'.procs| == |s.procs| by {
      ActsFacts(s, c, p, ok, s');
    }
    var t := Target(|s.procs|, p, s.procs[p].pc);
    forall q, k | 0 <= q < |s'.procs| && 0 <= k < |s'.procs|
      ensures PairOk(s', q, k)
    {
      if q == p {
        OwnPair(s, c, p, ok, s', k);
      } else if k == p && s.procs[p].pc.Dying1? {
        DyingPair(s, c, p, ok, s', q);
      } else if k == t && k != p && s.procs[p].pc.Reparent? {
        ReparentPair(s, c, p, ok, s', q);
      } else if k == t && k != p && !s.procs[p].pc.WakeTest? {
        TargetPair(s, c, p, ok, s', q);
      } else {
        OtherPair(s, c, p, ok, s', q, k);
      }
    }
    forall q | 0 <= q < |s'.procs|
      ensures LeaveOk(s', q)
    {
      if q == p {
        OwnLeave(s, c, p, ok, s');
      } else {
        OtherLeave(s, c, p, ok, s', q);
      }
    }
  }

  lemma ActsFacts(s: State, c: nat, p: nat, ok: bool, s': State)
    requires Acts(s, c, p, ok, s')
    ensures Runs(s, c, p) && |s'.procs| == |s.procs|
  {
  }

  predicate LoudEvent(s: State, e: Event)
    requires Shape(s)
  {
    e.Act? && ProcDo(s, e).Some? && Loud(s.procs[s.cpus[e.c].p].pc)
  }

  /** All steps but those are quiet. */
  lemma DoQuiet(s: State, e: Event)
    requires Inv(s) && Do(s, e).Some? && !LoudEvent(s, e)
    ensures Quiet(s, Do(s, e).value)
  {
    hide Owns, SchedDo, ProcDo, CpusOk, SlotsOk, ForksOk, QuietSlot, NextAct, Loud;
    var s' := Do(s, e).value;
    HistoryKept(s, e);
    if SchedDo(s, e).Some? {
      forall q | 0 <= q < |s.procs|
        ensures QuietSlot(|s.procs|, q, s.procs[q], s'.procs[q])
      {
        SchedQuiet(s, e, q);
      }
    } else {
      ProcOthers(s, e);
      forall q | 0 <= q < |s.procs|
        ensures QuietSlot(|s.procs|, q, s.procs[q], s'.procs[q])
      {
        if e.Act? {
          ActIs(s, e);
          ActMoveQuiet(s, e.c, s.cpus[e.c].p, e.ok, q);
        } else {
          MoveQuiet(s, e, q);
        }
      }
    }
  }

  lemma HistoryKept(s: State, e: Event)
    requires Inv(s) && Do(s, e).Some? && !LoudEvent(s, e)
    ensures var s' := Do(s, e).value;
            |s'.procs| == |s.procs| && s'.nextpid == s.nextpid && s'.exited == s.exited && s'.reaped == s.reaped
  {
    hide Owns, CpusOk, SlotsOk, ForksOk, ActPc, ActSlot, NextTake, NextDrop;
  }

  lemma FamilyKept(s: State, e: Event)
    requires Inv(s) && FamilyOk(s) && Do(s, e).Some?
    ensures FamilyOk(Do(s, e).value)
  {
    hide Inv, FamilyOk, Quiet, Do, ProcDo, NextAct;
    ShapeOfInv(s);
    if LoudEvent(s, e) {
      var s' := Do(s, e).value;
      LoudIsAct(s, e);
      LoudFamily(s, e.c, s.cpus[e.c].p, e.ok, s');
    } else {
      DoQuiet(s, e);
      QuietFamily(s, Do(s, e).value);
    }
  }

  lemma ShapeOfInv(s: State)
    requires Inv(s)
    ensures Shape(s)
  {
  }

  lemma LoudIsAct(s: State, e: Event)
    requires Inv(s) && FamilyOk(s) && LoudEvent(s, e) && Do(s, e).Some?
    ensures e.c < |s.cpus| && s.cpus[e.c].Run? && s.cpus[e.c].p < |s.procs|
    ensures Acts(s, e.c, s.cpus[e.c].p, e.ok, Do(s, e).value)
  {
    hide Owns, CpusOk, SlotsOk, ForksOk, ActPc, ActSlot, ActHistory, PairOk, LeaveOk;
  }
}
