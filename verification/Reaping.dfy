/** Pids and what wait hands out, over every run: each exited process is a zombie in the
    table or has been reaped, never both and never twice. */
module Reaping {
  import opened Common
  import opened Ownership
  import opened Processes
  import opened ProcessLocks
  import opened ExitWait

  // A slot as far as pids go.

  datatype Id = Id(pid: nat, zombie: bool)

  function IdOf(x: Slot): (r: Option<Id>) {
    if x.state.Unused? then None else Some(Id(x.pid, x.state.Zombie?))
  }

  ghost function Ids(s: State): (r: seq<Option<Id>>) {
    seq(|s.procs|, k requires 0 <= k < |s.procs| => IdOf(s.procs[k]))
  }

  ghost predicate Lying(ids: seq<Option<Id>>, pid: nat) {
    exists k :: 0 <= k < |ids| && ids[k] == Some(Id(pid, true))
  }

  ghost predicate Buried(reaped: seq<Reaped>, pid: nat) {
    exists i :: 0 <= i < |reaped| && reaped[i].pid == pid
  }

  ghost predicate IdsOk(ids: seq<Option<Id>>, nextpid: nat, exited: set<nat>) {
    && (forall k :: 0 <= k < |ids| && ids[k].Some? ==>
          ids[k].value.pid < nextpid && (ids[k].value.zombie <==> ids[k].value.pid in exited))
    && (forall j, k :: 0 <= j < |ids| && 0 <= k < |ids| && j != k && ids[j].Some? && ids[k].Some? ==>
          ids[j].value.pid != ids[k].value.pid)
    && (forall x :: x in exited ==> x < nextpid)
  }

  /** The exited processes are those lying in the table and those reaped, apart. */
  ghost predicate RecordOk(ids: seq<Option<Id>>, exited: set<nat>, reaped: seq<Reaped>) {
    && (forall x :: x in exited ==> Lying(ids, x) || Buried(reaped, x))
    && (forall x :: Lying(ids, x) ==> !Buried(reaped, x))
    && (forall i :: 0 <= i < |reaped| ==>
       reaped[i].pid in exited && (reaped[i].caller == reaped[i].father || reaped[i].caller == 1))
    && (forall i, j :: 0 <= i < j < |reaped| ==> reaped[i].pid != reaped[j].pid)
  }

  lemma AllocIds(ids: seq<Option<Id>>, nextpid: nat, exited: set<nat>, reaped: seq<Reaped>, k: nat)
    requires IdsOk(ids, nextpid, exited) && RecordOk(ids, exited, reaped) && k < |ids| && ids[k].None?
    ensures IdsOk(ids[k := Some(Id(nextpid, false))], nextpid + 1, exited)
    ensures RecordOk(ids[k := Some(Id(nextpid, false))], exited, reaped)
  {
    var ids' := ids[k := Some(Id(nextpid, false))];
    forall x
      ensures Lying(ids, x) <==> Lying(ids', x)
    {
      if Lying(ids, x) {
        var j :| 0 <= j < |ids| && ids[j] == Some(Id(x, true));
        assert ids'[j] == Some(Id(x, true));
      }
    }
  }

  lemma UndoIds(ids: seq<Option<Id>>, nextpid: nat, exited: set<nat>, reaped: seq<Reaped>, k: nat)
    requires IdsOk(ids, nextpid, exited) && RecordOk(ids, exited, reaped) && k < |ids| && ids[k].Some?
    requires !ids[k].value.zombie
    ensures IdsOk(ids[k := None], nextpid, exited)
    ensures RecordOk(ids[k := None], exited, reaped)
  {
    var ids' := ids[k := None];
    forall x
      ensures Lying(ids, x) <==> Lying(ids', x)
    {
      if Lying(ids, x) {
        var j :| 0 <= j < |ids| && ids[j] == Some(Id(x, true));
        assert ids'[j] == Some(Id(x, true));
      }
    }
  }

  lemma ExitIds(ids: seq<Option<Id>>, nextpid: nat, exited: set<nat>, reaped: seq<Reaped>, k: nat)
    requires IdsOk(ids, nextpid, exited) && RecordOk(ids, exited, reaped) && k < |ids| && ids[k].Some?
    requires !ids[k].value.zombie
    ensures var pid := ids[k].value.pid;
            && IdsOk(ids[k := Some(Id(pid, true))], nextpid, exited + {pid})
            && RecordOk(ids[k := Some(Id(pid, true))], exited + {pid}, reaped)
  {
    var pid := ids[k].value.pid;
    var ids' := ids[k := Some(Id(pid, true))];
    assert ids'[k] == Some(Id(pid, true));
    forall x
      ensures Lying(ids', x) <==> Lying(ids, x) || x == pid
    {
      if Lying(ids, x) {
        var j :| 0 <= j < |ids| && ids[j] == Some(Id(x, true));
        assert ids'[j] == Some(Id(x, true));
      }
    }
  }

  lemma ReapIds(ids: seq<Option<Id>>, nextpid: nat, exited: set<nat>, reaped: seq<Reaped>, k: nat, r: Reaped)
    requires IdsOk(ids, nextpid, exited) && RecordOk(ids, exited, reaped) && k < |ids|
    requires ids[k] == Some(Id(r.pid, true))
    requires r.caller == r.father || r.caller == 1
    ensures IdsOk(ids[k := None], nextpid, exited)
    ensures RecordOk(ids[k := None], exited, reaped + [r])
  {
    var ids', reaped' := ids[k := None], reaped + [r];
    assert Lying(ids, r.pid);
    assert reaped'[|reaped|] == r;
    forall x
      ensures Lying(ids', x) <==> Lying(ids, x) && x != r.pid
      ensures Buried(reaped', x) <==> Buried(reaped, x) || x == r.pid
    {
      if Lying(ids, x) && x != r.pid {
        var j :| 0 <= j < |ids| && ids[j] == Some(Id(x, true));
        assert ids'[j] == Some(Id(x, true));
      }
      if Buried(reaped, x) {
        var i :| 0 <= i < |reaped| && reaped[i].pid == x;
        assert reaped'[i].pid == x;
      }
    }
  }

  // The child wait is looking at is a child.

  ghost predicate ScanOk(s: State, q: nat)
    requires q < |s.procs|
  {
    var pc := s.procs[q].pc;
    pc.ScanTest? ==> pc.k < |s.procs| && s.procs[pc.k].parent == q
  }

  lemma ScanPcAct(s: State, c: nat, ok: bool, q: nat)
    requires Inv(s) && ProcDo(s, Act(c, ok)).Some? && q < |s.procs|
    ensures var s' := ProcDo(s, Act(c, ok)).value;
            |s'.procs| == |s.procs| &&
            var pc, pc' := s.procs[q].pc, s'.procs[q].pc;
            (pc'.ScanTest? ==> pc == pc' || (pc.Scan? && pc'.k < |s.procs| && s.procs[pc'.k].parent == q))
  {
    hide Owns, ForksOk, LinksOk, ActHistory, StateOk, LocksOk;
    assert CpuOk(s, c) && SlotOk(s, s.cpus[c].p);
  }

  lemma ScanPc(s: State, e: Event, q: nat)
    requires Inv(s) && Do(s, e).Some? && q < |s.procs|
    ensures var s' := Do(s, e).value;
            |s'.procs| == |s.procs| &&
            var pc, pc' := s.procs[q].pc, s'.procs[q].pc;
            (pc'.ScanTest? ==> pc == pc' || (pc.Scan? && pc'.k < |s.procs| && s.procs[pc'.k].parent == q))
  {
    hide Owns, ForksOk, LinksOk, ActHistory, StateOk, LocksOk, NextAct, CpusOk;
    if e.Act? {
      ScanPcAct(s, e.c, e.ok, q);
    } else if e.c < |s.cpus| && s.cpus[e.c].Run? && s.cpus[e.c].p < |s.procs| {
      assert SlotOk(s, s.cpus[e.c].p);
    }
  }

  lemma LoudScanOther(s: State, c: nat, p: nat, ok: bool, s': State, q: nat)
    requires Acts(s, c, p, ok, s') && Loud(s.procs[p].pc) && q < |s.procs| && q != p && ScanOk(s, q)
    ensures ScanOk(s', q)
  {
    hide Owns, CpusOk, LocksOk, ActHistory, ActPc, LeaveOk, PairOk, StateOk, LinksOk;
    assert SlotOk(s, p) && SlotOk(s, q) && FillOk(s, p);
    LockOnce(s, p, q, |s.procs|);
  }

  lemma LoudScan(s: State, c: nat, p: nat, ok: bool, s': State, q: nat)
    requires Acts(s, c, p, ok, s') && Loud(s.procs[p].pc) && q < |s.procs| && ScanOk(s, q)
    ensures ScanOk(s', q)
  {
    hide Inv, FamilyOk, ActHistory, ActSlot;
    if q != p {
      LoudScanOther(s, c, p, ok, s', q);
    }
  }

  lemma ScanKept(s: State, e: Event, q: nat)
    requires Inv(s) && FamilyOk(s) && Do(s, e).Some? && q < |s.procs| && ScanOk(s, q)
    ensures |Do(s, e).value.procs| == |s.procs| && ScanOk(Do(s, e).value, q)
  {
    hide Inv, FamilyOk, Do, ProcDo, Acts, ParentQuiet, SameView;
    ShapeOfInv(s);
    var s' := Do(s, e).value;
    ScanPc(s, e, q);
    if LoudEvent(s, e) {
      LoudIsAct(s, e);
      LoudScan(s, e.c, s.cpus[e.c].p, e.ok, s', q);
    } else {
      DoQuiet(s, e);
      var pc' := s'.procs[q].pc;
      if pc'.ScanTest? {
        assert QuietSlot(|s.procs|, pc'.k, s.procs[pc'.k], s'.procs[pc'.k]);
      }
    }
  }

  // Pids.

  ghost predicate PidsOk(s: State) {
    && IdsOk(Ids(s), s.nextpid, s.exited) && RecordOk(Ids(s), s.exited, s.reaped)
    && 0 < |s.procs| && s.procs[0].pid == 1 && 1 < s.nextpid
  }

  lemma QuietIds(s: State, s': State)
    requires Quiet(s, s')
    ensures Ids(s') == Ids(s) && (0 < |s.procs| ==> s'.procs[0].pid == s.procs[0].pid)
  {
    hide SameView;
    forall k | 0 <= k < |s.procs|
      ensures Ids(s')[k] == Ids(s)[k]
    {
      assert QuietSlot(|s.procs|, k, s.procs[k], s'.procs[k]);
    }
    if 0 < |s.procs| {
      assert QuietSlot(|s.procs|, 0, s.procs[0], s'.procs[0]);
    }
  }

  /** What an act does to the pids. */
  lemma LoudIds(s: State, c: nat, p: nat, ok: bool, s': State)
    requires Acts(s, c, p, ok, s') && Loud(s.procs[p].pc)
    ensures var t := Target(|s.procs|, p, s.procs[p].pc);
            Ids(s') == Ids(s)[t := IdOf(ActSlot(s, p, ok))] && (0 < |s.procs| ==> s'.procs[0].pid == s.procs[0].pid)
  {
    hide Owns, CpusOk, LocksOk, LeaveOk, PairOk, ActHistory;
    var t := Target(|s.procs|, p, s.procs[p].pc);
    assert SlotOk(s, p) && SlotOk(s, t) && FillOk(s, p) && SlotOk(s, 0);
    forall k | 0 <= k < |s.procs|
      ensures IdOf(s'.procs[k]) == Ids(s)[t := IdOf(ActSlot(s, p, ok))][k]
    {
    }
  }

  lemma LoudPids(s: State, c: nat, p: nat, ok: bool, s': State)
    requires Acts(s, c, p, ok, s') && Loud(s.procs[p].pc) && PidsOk(s) && ScanOk(s, p)
    ensures PidsOk(s')
  {
    hide Owns, CpusOk, LocksOk, LeaveOk, IdsOk, RecordOk;
    var t := Target(|s.procs|, p, s.procs[p].pc);
    assert SlotOk(s, p) && SlotOk(s, t) && FillOk(s, p) && PairOk(s, p, t);
    NextState(s, p);
    LoudIds(s, c, p, ok, s');
    var ids, x := Ids(s), s.procs[t];
    assert ids[t] == IdOf(x);
    var pc := s.procs[p].pc;
    if pc.ForkTest? && x.state.Unused? {
      AllocIds(ids, s.nextpid, s.exited, s.reaped, t);
    } else if pc.ForkNew? && !ok {
      UndoIds(ids, s.nextpid, s.exited, s.reaped, t);
    } else if pc.Dying1? {
      ExitIds(ids, s.nextpid, s.exited, s.reaped, t);
    } else if pc.ScanTest? && x.state.Zombie? && ok {
      ReapIds(ids, s.nextpid, s.exited, s.reaped, t, Reaped(x.pid, x.father, s.procs[p].pid));
    } else {
      assert ids[t := ids[t]] == ids;
    }
  }

  ghost predicate AllOk(s: State) {
    Inv(s) && FamilyOk(s) && PidsOk(s) && forall q :: 0 <= q < |s.procs| ==> ScanOk(s, q)
  }

  lemma AllKept(s: State, e: Event)
    requires AllOk(s) && Do(s, e).Some?
    ensures AllOk(Do(s, e).value)
  {
    hide Inv, FamilyOk, Do, ProcDo, ScanOk, IdsOk, RecordOk, Acts, Ids;
    ShapeOfInv(s);
    var s' := Do(s, e).value;
    InvKept(s, e);
    FamilyKept(s, e);
    forall q | 0 <= q < |s'.procs|
      ensures ScanOk(s', q)
    {
      SizeKept(s, e);
      ScanKept(s, e, q);
    }
    if LoudEvent(s, e) {
      LoudIsAct(s, e);
      LoudPids(s, e.c, s.cpus[e.c].p, e.ok, s');
    } else {
      DoQuiet(s, e);
      QuietIds(s, s');
    }
  }

  lemma SizeKept(s: State, e: Event)
    requires Inv(s) && Do(s, e).Some?
    ensures var s' := Do(s, e).value; |s'.procs| == |s.procs| && |s'.cpus| == |s.cpus|
  {
    hide Owns, CpusOk, SlotsOk, ForksOk, ActPc, ActSlot, NextTake, NextDrop;
  }

  lemma BootAll(ncpu: nat, nproc: nat)
    requires nproc > 0
    ensures AllOk(Boot(ncpu, nproc))
  {
    hide Inv;
    BootOk(ncpu, nproc);
    var s := Boot(ncpu, nproc);
    assert forall p :: 0 <= p < |s.procs| ==> s.procs[p].parent == -1 && s.procs[p].pc == Parked(User);
    assert forall k :: 0 <= k < |s.procs| ==> Ids(s)[k] == if k == 0 then Some(Id(1, false)) else None;
  }

  /** The state after a run; an event that is not possible ends it. */
  function Run(s: State, es: seq<Event>): (r: Option<State>)
    requires Shape(s)
    decreases |es|
  {
    if es == [] then Some(s)
    else
      var r := Do(s, es[0]);
      if r.None? || !Shape(r.value) then None else Run(r.value, es[1..])
  }

  lemma {:induction false} RunKeeps(s: State, es: seq<Event>)
    requires AllOk(s) && Shape(s) && Run(s, es).Some?
    ensures var r := Run(s, es).value; AllOk(r) && |r.procs| == |s.procs| && |r.cpus| == |s.cpus|
    decreases |es|
  {
    hide AllOk, Do;
    if es != [] {
      AllKept(s, es[0]);
      SizeOfAll(s, es[0]);
      RunKeeps(Do(s, es[0]).value, es[1..]);
    }
  }

  lemma SizeOfAll(s: State, e: Event)
    requires AllOk(s) && Shape(s) && Do(s, e).Some?
    ensures var s' := Do(s, e).value; |s'.procs| == |s.procs| && |s'.cpus| == |s.cpus|
  {
    hide Do;
    SizeKept(s, e);
  }

  ghost predicate Reachable(ncpu: nat, nproc: nat, s: State) {
    nproc > 0 && exists es :: Run(Boot(ncpu, nproc), es) == Some(s)
  }

  lemma ReachableOk(ncpu: nat, nproc: nat, s: State)
    requires Reachable(ncpu, nproc, s)
    ensures AllOk(s) && |s.procs| == nproc && |s.cpus| == ncpu
  {
    hide AllOk;
    var es :| Run(Boot(ncpu, nproc), es) == Some(s);
    BootAll(ncpu, nproc);
    RunKeeps(Boot(ncpu, nproc), es);
  }

  // What holds in every reachable state, for any number of CPUs and processes.

  lemma WokenLocked(s: State, q: nat)
    requires Inv(s) && Woken(s, q)
    ensures s.locks[|s.procs|] != -1
  {
    hide Owns, ForksOk, LinksOk, StateOk;
    var r :| 0 <= r < |s.procs| && Ahead(s.procs[r].pc, q);
    assert SlotOk(s, r);
    var c: nat :| Runs(s, c, r);
    HeldFact(s, c, |s.procs|);
  }

  /** With wait_lock free, nobody sleeps in wait while having a zombie child. */
  lemma NoMissedZombie(ncpu: nat, nproc: nat, s: State, p: nat, k: nat)
    requires Reachable(ncpu, nproc, s) && p < nproc && k < nproc
    ensures |s.procs| == nproc && |s.locks| == nproc + 1
    ensures s.locks[nproc] == -1 && s.procs[k].parent == p && s.procs[k].state == Zombie ==> !Asleep(s.procs[p], p)
  {
    hide Reachable, Owns, CpusOk, SlotsOk, ForksOk, LeaveOk, Woken;
    ReachableOk(ncpu, nproc, s);
    assert PairOk(s, p, k);
    if Woken(s, p) {
      WokenLocked(s, p);
    }
  }

  /** No process is current on two CPUs. */
  lemma OneCpu(ncpu: nat, nproc: nat, s: State, c: nat, d: nat)
    requires Reachable(ncpu, nproc, s) && c < ncpu && d < ncpu
    ensures |s.cpus| == ncpu && (Current(s.cpus[c]).Some? && Current(s.cpus[c]) == Current(s.cpus[d]) ==> c == d)
  {
    hide Reachable, Owns, SlotsOk, ForksOk, FamilyOk;
    ReachableOk(ncpu, nproc, s);
  }

  /** wait frees the slot of a zombie only when no CPU has it as its current process. */
  lemma FreedOffCpu(ncpu: nat, nproc: nat, s: State, c: nat, d: nat, k: nat)
    requires Reachable(ncpu, nproc, s) && c < |s.cpus| && d < |s.cpus| && k < |s.procs|
    requires s.cpus[c].Run? && s.cpus[c].p < |s.procs| && s.procs[s.cpus[c].p].pc == ScanTest(k)
    requires s.procs[k].state == Zombie
    ensures Current(s.cpus[d]) != Some(k) && s.procs[k].parent == s.cpus[c].p
  {
    hide Reachable, Inv, FamilyOk, PidsOk;
    ReachableOk(ncpu, nproc, s);
    ZombieGone(s, c, s.cpus[c].p, k);
    assert ScanOk(s, s.cpus[c].p);
  }

  /** No exited process is reaped twice, and it is its father, or process 0, that reaps it. */
  lemma ReapedOnce(ncpu: nat, nproc: nat, s: State, i: nat, j: nat)
    requires Reachable(ncpu, nproc, s) && i < |s.reaped| && j < |s.reaped|
    ensures s.reaped[i].pid == s.reaped[j].pid ==> i == j
    ensures s.reaped[i].pid in s.exited && (s.reaped[i].caller == s.reaped[i].father || s.reaped[i].caller == 1)
  {
    hide Reachable, Inv, FamilyOk, IdsOk, Lying, Buried;
    ReachableOk(ncpu, nproc, s);
  }

  /** A process has exited if and only if it is a zombie in the table or has been reaped,
      and it is never both. */
  lemma ZombieUntilReaped(ncpu: nat, nproc: nat, s: State, x: nat)
    requires Reachable(ncpu, nproc, s)
    ensures x in s.exited <==> Lying(Ids(s), x) || Buried(s.reaped, x)
    ensures !(Lying(Ids(s), x) && Buried(s.reaped, x))
  {
    hide Reachable, Inv, FamilyOk, Ids;
    ReachableOk(ncpu, nproc, s);
  }

  /** A process has a parent that is alive: exit hands the children to process 0 first. */
  lemma ParentAlive(ncpu: nat, nproc: nat, s: State, k: nat)
    requires Reachable(ncpu, nproc, s) && k < |s.procs| && k != 0
    ensures var x := s.procs[k];
            !x.state.Unused? && !x.state.Used? ==>
              0 <= x.parent < |s.procs| && !Childless(s.procs[x.parent].state) &&
              (x.parent == 0 || s.procs[x.parent].pid == x.father)
  {
    hide Reachable, Owns, CpusOk, ForksOk, LeaveOk, Good, StateOk;
    ReachableOk(ncpu, nproc, s);
    assert SlotOk(s, k);
    if s.procs[k].parent != -1 {
      assert PairOk(s, s.procs[k].parent, k);
    }
  }

  /** wait gives up for lack of children only when there are none. */
  lemma NoChildren(ncpu: nat, nproc: nat, s: State, p: nat, k: nat)
    requires Reachable(ncpu, nproc, s) && p < |s.procs| && k < |s.procs|
    requires s.procs[p].pc == Scan(|s.procs|, false)
    ensures s.procs[k].parent != p
  {
    hide Reachable, Inv, LeaveOk, Woken;
    ReachableOk(ncpu, nproc, s);
    assert PairOk(s, p, k);
  }

  /** The scheduler, holding the lock of a runnable process, finds it off every CPU. */
  lemma RunnableParked(ncpu: nat, nproc: nat, s: State, c: nat)
    requires Reachable(ncpu, nproc, s) && c < |s.cpus| && s.cpus[c].Took? && s.cpus[c].p < |s.procs|
    ensures s.procs[s.cpus[c].p].state == Runnable ==>
              s.procs[s.cpus[c].p].pc.Parked? && forall d :: 0 <= d < |s.cpus| ==>
                Current(s.cpus[d]) != Some(s.cpus[c].p)
  {
    hide Reachable, Owns, ForksOk, FamilyOk, Good, LinksOk;
    ReachableOk(ncpu, nproc, s);
    var k := s.cpus[c].p;
    assert SlotOk(s, k);
    if s.procs[k].state == Runnable && !s.procs[k].pc.Parked? {
      var d: nat :| Runs(s, d, k);
      HeldFact(s, c, k);
      HeldFact(s, d, k);
    }
    forall d | 0 <= d < |s.cpus| && s.procs[k].state == Runnable
      ensures Current(s.cpus[d]) != Some(k)
    {
      assert CpuOk(s, d);
      HeldFact(s, d, k);
      HeldFact(s, c, k);
    }
  }
}
