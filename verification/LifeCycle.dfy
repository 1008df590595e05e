/** fork, wait and exit of kernel/proc.c from start to end, on one CPU while the others leave the
    locks alone: each has a run, and does to the process table exactly what it is for. */
module LifeCycle {
  import opened Common
  import opened Processes
  import R = Reaping

  // Runs.

  ghost predicate To(s: State, es: seq<Event>, s': State) {
    Shape(s) && Shape(s') && R.Run(s, es) == Some(s')
  }

  lemma One(s: State, e: Event, s': State)
    requires Shape(s) && Do(s, e) == Some(s') && Shape(s')
    ensures To(s, [e], s')
  {
    hide Do;
    assert [e][1..] == [];
    assert R.Run(s', []) == Some(s');
  }

  lemma Two(s: State, e: Event, m: State, f: Event, s': State)
    requires Shape(s) && Do(s, e) == Some(m) && Shape(m) && Do(m, f) == Some(s') && Shape(s')
    ensures To(s, [e, f], s')
  {
    hide Do;
    One(s, e, m);
    One(m, f, s');
    Join(s, [e], m, [f], s');
    assert [e] + [f] == [e, f];
  }

  lemma Three(s: State, e: Event, m: State, f: Event, n: State, g: Event, s': State)
    requires Shape(s) && Do(s, e) == Some(m) && Shape(m) && Do(m, f) == Some(n) && Shape(n)
    requires Do(n, g) == Some(s') && Shape(s')
    ensures To(s, [e, f, g], s')
  {
    hide Do;
    One(s, e, m);
    Two(m, f, n, g, s');
    Join(s, [e], m, [f, g], s');
    assert [e] + [f, g] == [e, f, g];
  }

  lemma {:induction false} Join(s: State, a: seq<Event>, m: State, b: seq<Event>, s': State)
    requires To(s, a, m) && To(m, b, s')
    ensures To(s, a + b, s')
    decreases |a|
  {
    hide Do;
    if a == [] {
      assert a + b == b;
    } else {
      assert (a + b)[0] == a[0] && (a + b)[1..] == a[1..] + b;
      Join(Do(s, a[0]).value, a[1..], m, b, s');
    }
  }

  lemma Nowhere(s: State)
    requires Shape(s)
    ensures To(s, [], s)
  {
  }

  // Single steps of the process p that CPU c runs, on states written as s but for p's program
  // counter and one lock.

  function With(s: State, p: nat, pc: Pc, l: nat, c: int): (r: State)
    requires p < |s.procs| && l < |s.locks|
  {
    At(s.(locks := s.locks[l := c]), p, pc)
  }

  lemma AtAt(s: State, p: nat, a: Pc, b: Pc)
    requires p < |s.procs|
    ensures At(At(s, p, a), p, b) == At(s, p, b)
  {
    assert s.procs[p := s.procs[p].(pc := a)][p := s.procs[p].(pc := b)] == s.procs[p := s.procs[p].(pc := b)];
  }

  lemma Entered(s: State, c: nat, p: nat, pc: Pc)
    requires Shape(s) && Runs(s, c, p) && s.procs[p].pc.User?
    requires pc.Wait0? || pc == ForkScan(0) || (pc.Exit0? && p != 0)
    ensures Do(s, Enter(c, pc)) == Some(At(s, p, pc))
  {
  }

  /** Lock l is free in s, and taken from pc on. */
  lemma Taken(s: State, c: nat, p: nat, pc: Pc, l: nat, pc': Pc)
    requires Shape(s) && Runs(s, c, p) && l <= |s.procs| && s.locks[l] == -1
    requires NextTake(At(s, p, pc), p) == Some((l, pc'))
    ensures Do(At(s, p, pc), Take(c)) == Some(With(s, p, pc', l, c))
  {
    hide NextTake;
    AtAt(s.(locks := s.locks[l := c]), p, pc, pc');
  }

  /** And given back. */
  lemma Dropped(s: State, c: nat, p: nat, pc: Pc, l: nat, pc': Pc)
    requires Shape(s) && Runs(s, c, p) && l <= |s.procs| && s.locks[l] == -1
    requires NextDrop(|s.procs|, p, pc) == Some((l, pc'))
    ensures Do(With(s, p, pc, l, c), Drop(c)) == Some(At(s, p, pc'))
  {
    hide NextDrop;
    AtAt(s, p, pc, pc');
    assert s.locks[l := c][l := -1] == s.locks;
  }

  /** A step that changes only the program counter. */
  lemma Moved(s: State, c: nat, p: nat, pc: Pc, ok: bool, pc': Pc)
    requires Shape(s) && Runs(s, c, p) && var s0 := At(s, p, pc);
             && ActPc(s0, p, ok) == Some(pc') && ActHistory(s0, p, ok) == s0
             && ActSlot(s0, p, ok) == s0.procs[Target(|s.procs|, p, pc)]
    ensures Do(At(s, p, pc), Act(c, ok)) == Some(At(s, p, pc'))
  {
    hide ActPc, ActHistory, ActSlot, Target;
    var s0 := At(s, p, pc);
    var t := Target(|s.procs|, p, pc);
    assert s0.procs[t := s0.procs[t]] == s0.procs;
    AtAt(s, p, pc, pc');
  }

  /** A step that also changes the slot t of another process, and the history. */
  lemma Changed(s: State, c: nat, p: nat, pc: Pc, ok: bool, pc': Pc, t: nat, x: Slot, h: State)
    requires Shape(s) && Runs(s, c, p) && t < |s.procs| && t != p && Target(|s.procs|, p, pc) == t
    requires var s0 := At(s, p, pc);
             && ActPc(s0, p, ok) == Some(pc') && ActSlot(s0, p, ok) == x
             && ActHistory(s0, p, ok) == h.(procs := s0.procs)
    requires h == s.(nextpid := h.nextpid, exited := h.exited, reaped := h.reaped)
    ensures Do(At(s, p, pc), Act(c, ok)) == Some(At(h.(procs := s.procs[t := x]), p, pc'))
  {
    hide ActPc, ActHistory, ActSlot, Target;
    var s0 := At(s, p, pc);
    assert s0.procs[t := x][p := s0.procs[p].(pc := pc')] == s.procs[t := x][p := s.procs[p].(pc := pc')];
  }

  /** A step that changes the process's own slot to x, but for the program counter. */
  lemma ChangedOwn(s: State, c: nat, p: nat, pc: Pc, ok: bool, pc': Pc, x: Slot, h: State)
    requires Shape(s) && Runs(s, c, p) && Target(|s.procs|, p, pc) == p
    requires var s0 := At(s, p, pc);
             && ActPc(s0, p, ok) == Some(pc') && ActSlot(s0, p, ok).(pc := pc') == x
             && ActHistory(s0, p, ok) == h.(procs := s0.procs)
    requires h == s.(nextpid := h.nextpid, exited := h.exited, reaped := h.reaped)
    ensures Do(At(s, p, pc), Act(c, ok)) == Some(h.(procs := s.procs[p := x]))
  {
    hide ActPc, ActHistory, ActSlot, Target;
    var s0 := At(s, p, pc);
    assert s0.procs[p := ActSlot(s0, p, ok)][p := x] == s.procs[p := x];
  }

  /** No lock is held but wait_lock, and that by w: a CPU, or nobody if it is -1. */
  ghost predicate Free(s: State, w: int) {
    Shape(s) && s.locks[|s.procs|] == w && forall l :: 0 <= l < |s.procs| ==> s.locks[l] == -1
  }

  // fork.

  lemma ForkSkips(s: State, c: nat, p: nat, j: nat) returns (es: seq<Event>)
    requires Free(s, -1) && Runs(s, c, p) && j < |s.procs| && s.procs[j].state != Unused
    ensures To(At(s, p, ForkScan(j)), es, At(s, p, ForkScan(j + 1)))
  {
    hide Do;
    var s1 := s.(locks := s.locks[j := c]);
    Taken(s, c, p, ForkScan(j), j, ForkTest(j));
    Moved(s1, c, p, ForkTest(j), true, ForkSkip(j));
    Dropped(s, c, p, ForkSkip(j), j, ForkScan(j + 1));
    es := [Take(c), Act(c, true), Drop(c)];
    Three(At(s, p, ForkScan(j)), Take(c), At(s1, p, ForkTest(j)), Act(c, true), At(s1, p, ForkSkip(j)), Drop(c),
          At(s, p, ForkScan(j + 1)));
  }

  lemma {:induction false} ForkFinds(s: State, c: nat, p: nat, j: nat, k: nat) returns (es: seq<Event>)
    requires Free(s, -1) && Runs(s, c, p) && j <= k < |s.procs|
    requires forall i :: j <= i < k ==> s.procs[i].state != Unused
    ensures To(At(s, p, ForkScan(j)), es, At(s, p, ForkScan(k)))
    decreases k - j
  {
    hide Do;
    if j == k {
      es := [];
      Nowhere(At(s, p, ForkScan(j)));
    } else {
      var a := ForkSkips(s, c, p, j);
      var b := ForkFinds(s, c, p, j + 1, k);
      es := a + b;
      Join(At(s, p, ForkScan(j)), a, At(s, p, ForkScan(j + 1)), b, At(s, p, ForkScan(k)));
    }
  }

  /** s with slot k taken up by a new process, so far without a parent. */
  function Allocated(s: State, k: nat): (r: State)
    requires k < |s.procs|
  {
    s.(procs := s.procs[k := s.procs[k].(pc := Parked(User), state := Used, pid := s.nextpid)],
       nextpid := s.nextpid + 1)
  }

  lemma ForkTakes(s: State, c: nat, p: nat, k: nat)
    requires Free(s, -1) && Runs(s, c, p) && k < |s.procs| && k != p && s.procs[k].state == Unused
    ensures To(At(s, p, ForkScan(k)), [Take(c), Act(c, true)],
               At(Allocated(s, k).(locks := s.locks[k := c]), p, ForkNew(k)))
  {
    hide Do;
    var l := s.(locks := s.locks[k := c]);
    var l1 := Allocated(l, k);
    Taken(s, c, p, ForkScan(k), k, ForkTest(k));
    Changed(l, c, p, ForkTest(k), true, ForkNew(k), k, l1.procs[k], l.(nextpid := s.nextpid + 1));
    Two(At(s, p, ForkScan(k)), Take(c), At(l, p, ForkTest(k)), Act(c, true), At(l1, p, ForkNew(k)));
  }

  lemma ForkAllocates(s: State, c: nat, p: nat, k: nat) returns (es: seq<Event>)
    requires Free(s, -1) && Runs(s, c, p) && k < |s.procs| && k != p && s.procs[k].state == Unused
    ensures To(At(s, p, ForkScan(k)), es, At(Allocated(s, k), p, ForkAdopt(k)))
  {
    hide Do;
    var s1 := Allocated(s, k);
    var l1 := s1.(locks := s.locks[k := c]);
    ForkTakes(s, c, p, k);
    Moved(l1, c, p, ForkNew(k), true, ForkOk(k));
    Dropped(s1, c, p, ForkOk(k), k, ForkAdopt(k));
    Two(At(l1, p, ForkNew(k)), Act(c, true), At(l1, p, ForkOk(k)), Drop(c), At(s1, p, ForkAdopt(k)));
    es := [Take(c), Act(c, true)] + [Act(c, true), Drop(c)];
    Join(At(s, p, ForkScan(k)), [Take(c), Act(c, true)], At(l1, p, ForkNew(k)), [Act(c, true), Drop(c)],
         At(s1, p, ForkAdopt(k)));
  }

  function Adopted(s: State, p: nat, k: nat): (r: State)
    requires p < |s.procs| && k < |s.procs|
  {
    s.(procs := s.procs[k := s.procs[k].(parent := p, father := s.procs[p].pid)])
  }

  lemma ForkAdopts(s: State, c: nat, p: nat, k: nat) returns (es: seq<Event>)
    requires Free(s, -1) && Runs(s, c, p) && k < |s.procs| && k != p
    ensures To(At(s, p, ForkAdopt(k)), es, At(Adopted(s, p, k), p, ForkRun0(k)))
  {
    hide Do;
    var n := |s.procs|;
    var l, s1 := s.(locks := s.locks[n := c]), Adopted(s, p, k);
    var l1 := Adopted(l, p, k);
    Taken(s, c, p, ForkAdopt(k), n, ForkParent(k));
    Changed(l, c, p, ForkParent(k), true, ForkDone(k), k, l1.procs[k], l);
    Dropped(s1, c, p, ForkDone(k), n, ForkRun0(k));
    assert l1 == s1.(locks := s1.locks[n := c]);
    es := [Take(c), Act(c, true), Drop(c)];
    Three(At(s, p, ForkAdopt(k)), Take(c), At(l, p, ForkParent(k)), Act(c, true), At(l1, p, ForkDone(k)), Drop(c),
          At(s1, p, ForkRun0(k)));
  }

  function Started(s: State, k: nat): (r: State)
    requires k < |s.procs|
  {
    s.(procs := s.procs[k := s.procs[k].(state := Runnable)])
  }

  lemma ForkStarts(s: State, c: nat, p: nat, k: nat) returns (es: seq<Event>)
    requires Free(s, -1) && Runs(s, c, p) && k < |s.procs| && k != p
    ensures To(At(s, p, ForkRun0(k)), es, At(Started(s, k), p, User))
  {
    hide Do;
    var l, s1 := s.(locks := s.locks[k := c]), Started(s, k);
    var l1 := Started(l, k);
    Taken(s, c, p, ForkRun0(k), k, ForkRun1(k));
    Changed(l, c, p, ForkRun1(k), true, ForkRun2(k), k, l1.procs[k], l);
    Dropped(s1, c, p, ForkRun2(k), k, User);
    assert l1 == s1.(locks := s1.locks[k := c]);
    es := [Take(c), Act(c, true), Drop(c)];
    Three(At(s, p, ForkRun0(k)), Take(c), At(l, p, ForkRun1(k)), Act(c, true), At(l1, p, ForkRun2(k)), Drop(c),
          At(s1, p, User));
  }

  /** What fork by p into slot k does to the table. */
  function Forked(s: State, p: nat, k: nat): (r: State)
    requires p < |s.procs| && k < |s.procs|
  {
    var x := s.procs[k].(pc := Parked(User), state := Runnable, pid := s.nextpid, parent := p,
                         father := s.procs[p].pid);
    s.(procs := s.procs[k := x], nextpid := s.nextpid + 1)
  }

  /** fork: the first unused slot becomes a runnable child with the next pid. */
  lemma ForkWorks(s: State, c: nat, p: nat, k: nat) returns (es: seq<Event>)
    requires Free(s, -1) && Runs(s, c, p) && s.procs[p].pc == User && s.procs[p].state != Unused
    requires k < |s.procs| && s.procs[k].state == Unused && forall i :: 0 <= i < k ==> s.procs[i].state != Unused
    ensures To(s, es, Forked(s, p, k))
  {
    hide Do;
    Entered(s, c, p, ForkScan(0));
    One(s, Enter(c, ForkScan(0)), At(s, p, ForkScan(0)));
    var a := ForkFinds(s, c, p, 0, k);
    var s1 := Allocated(s, k);
    var b := ForkAllocates(s, c, p, k);
    var s2 := Adopted(s1, p, k);
    var d := ForkAdopts(s1, c, p, k);
    var s3 := Started(s2, k);
    var e := ForkStarts(s2, c, p, k);
    Join(s, [Enter(c, ForkScan(0))], At(s, p, ForkScan(0)), a, At(s, p, ForkScan(k)));
    Join(s, [Enter(c, ForkScan(0))] + a, At(s, p, ForkScan(k)), b, At(s1, p, ForkAdopt(k)));
    Join(s, [Enter(c, ForkScan(0))] + a + b, At(s1, p, ForkAdopt(k)), d, At(s2, p, ForkRun0(k)));
    es := [Enter(c, ForkScan(0))] + a + b + d + e;
    Join(s, [Enter(c, ForkScan(0))] + a + b + d, At(s2, p, ForkRun0(k)), e, At(s3, p, User));
    assert At(s3, p, User) == Forked(s, p, k) by {
      assert s3.procs[p := s3.procs[p]] == s3.procs;
      assert s3.procs == Forked(s, p, k).procs;
    }
  }

  // wait. The states are those with wait_lock held.

  lemma TestsChild(s: State, c: nat, p: nat, j: nat)
    requires Shape(s) && Runs(s, c, p) && j < |s.procs| && j != p && s.procs[j].state != Zombie
    ensures Do(At(s, p, ScanTest(j)), Act(c, true)) == Some(At(s, p, ScanSkip(j)))
  {
    hide Do;
    Moved(s, c, p, ScanTest(j), true, ScanSkip(j));
  }

  lemma ScanSkipsChild(s: State, c: nat, p: nat, j: nat, have: bool)
    requires Free(s, c) && Runs(s, c, p) && j < |s.procs| && s.procs[j].parent == p && s.procs[j].state != Zombie
    requires j != p
    ensures To(At(s, p, Scan(j, have)), [Take(c), Act(c, true), Drop(c)], At(s, p, Scan(j + 1, true)))
  {
    hide Do;
    var l := s.(locks := s.locks[j := c]);
    Taken(s, c, p, Scan(j, have), j, ScanTest(j));
    TestsChild(l, c, p, j);
    Dropped(s, c, p, ScanSkip(j), j, Scan(j + 1, true));
    Three(At(s, p, Scan(j, have)), Take(c), At(l, p, ScanTest(j)), Act(c, true), At(l, p, ScanSkip(j)), Drop(c),
          At(s, p, Scan(j + 1, true)));
  }

  lemma ScanSkips(s: State, c: nat, p: nat, j: nat, have: bool) returns (es: seq<Event>)
    requires Free(s, c) && Runs(s, c, p) && j < |s.procs|
    requires s.procs[j].parent == p ==> s.procs[j].state != Zombie && j != p
    ensures To(At(s, p, Scan(j, have)), es, At(s, p, Scan(j + 1, have || s.procs[j].parent == p)))
  {
    hide Do;
    if s.procs[j].parent == p {
      ScanSkipsChild(s, c, p, j, have);
      es := [Take(c), Act(c, true), Drop(c)];
    } else {
      Moved(s, c, p, Scan(j, have), true, Scan(j + 1, have));
      es := [Act(c, true)];
      One(At(s, p, Scan(j, have)), Act(c, true), At(s, p, Scan(j + 1, have)));
    }
  }

  /** Process p has a child in a slot from j up to k. */
  predicate HasChild(s: State, p: nat, j: nat, k: nat)
    requires j <= k <= |s.procs|
    decreases k - j
  {
    j < k && (s.procs[j].parent == p || HasChild(s, p, j + 1, k))
  }

  lemma {:induction false} ScanTo(s: State, c: nat, p: nat, j: nat, have: bool, k: nat) returns (es: seq<Event>)
    requires Free(s, c) && Runs(s, c, p) && j <= k <= |s.procs|
    requires forall i :: j <= i < k && s.procs[i].parent == p ==> s.procs[i].state != Zombie && i != p
    ensures To(At(s, p, Scan(j, have)), es, At(s, p, Scan(k, have || HasChild(s, p, j, k))))
    decreases k - j
  {
    hide Do;
    if j == k {
      es := [];
      Nowhere(At(s, p, Scan(j, have)));
    } else {
      var more := have || s.procs[j].parent == p;
      var a := ScanSkips(s, c, p, j, have);
      var b := ScanTo(s, c, p, j + 1, more, k);
      es := a + b;
      Join(At(s, p, Scan(j, have)), a, At(s, p, Scan(j + 1, more)), b,
           At(s, p, Scan(k, more || HasChild(s, p, j + 1, k))));
    }
  }

  /** What wait by p does to the table when it finds the zombie in slot k. */
  function Waited(s: State, p: nat, k: nat): (r: State)
    requires p < |s.procs| && k < |s.procs|
  {
    s.(procs := s.procs[k := Freed(s.procs[k])],
       reaped := s.reaped + [Reaped(s.procs[k].pid, s.procs[k].father, s.procs[p].pid)])
  }

  lemma ReapsIt(s: State, c: nat, p: nat, k: nat, have: bool) returns (es: seq<Event>)
    requires Free(s, -1) && Runs(s, c, p) && k < |s.procs| && k != p
    requires s.procs[k].parent == p && s.procs[k].state == Zombie
    ensures var l := s.(locks := s.locks[|s.procs| := c]); To(At(l, p, Scan(k, have)), es, At(Waited(s, p, k), p, User))
  {
    hide Do;
    var n := |s.procs|;
    var l := s.(locks := s.locks[n := c]);
    var m := l.(locks := l.locks[k := c]);
    var l1, m1 := Waited(l, p, k), Waited(m, p, k);
    Taken(l, c, p, Scan(k, have), k, ScanTest(k));
    Changed(m, c, p, ScanTest(k), true, Reap(k), k, m1.procs[k], m.(reaped := m1.reaped));
    Two(At(l, p, Scan(k, have)), Take(c), At(m, p, ScanTest(k)), Act(c, true), At(m1, p, Reap(k)));
    ReapsOut(s, c, p, k);
    es := [Take(c), Act(c, true)] + [Drop(c), Drop(c)];
    Join(At(l, p, Scan(k, have)), [Take(c), Act(c, true)], At(m1, p, Reap(k)), [Drop(c), Drop(c)],
         At(Waited(s, p, k), p, User));
  }

  lemma ReapsOut(s: State, c: nat, p: nat, k: nat)
    requires Free(s, -1) && Runs(s, c, p) && k < |s.procs| && k != p
    ensures var l := s.(locks := s.locks[|s.procs| := c]);
            var m := l.(locks := l.locks[k := c]);
            To(At(Waited(m, p, k), p, Reap(k)), [Drop(c), Drop(c)], At(Waited(s, p, k), p, User))
  {
    hide Do;
    var n := |s.procs|;
    var s1 := Waited(s, p, k);
    var l1 := s1.(locks := s1.locks[n := c]);
    var m1 := l1.(locks := l1.locks[k := c]);
    Dropped(l1, c, p, Reap(k), k, WaitRet);
    Dropped(s1, c, p, WaitRet, n, User);
    Two(At(m1, p, Reap(k)), Drop(c), At(l1, p, WaitRet), Drop(c), At(s1, p, User));
  }

  /** wait with a zombie child: the first one is reaped, and nothing else changes. */
  lemma WaitReaps(s: State, c: nat, p: nat, k: nat) returns (es: seq<Event>)
    requires Free(s, -1) && Runs(s, c, p) && k < |s.procs| && s.procs[p].parent != p
    requires s.procs[k].parent == p && s.procs[k].state == Zombie
    requires forall i :: 0 <= i < k && s.procs[i].parent == p ==> s.procs[i].state != Zombie
    ensures To(At(s, p, Wait0), es, At(Waited(s, p, k), p, User))
  {
    hide Do;
    var n := |s.procs|;
    var l := s.(locks := s.locks[n := c]);
    Taken(s, c, p, Wait0, n, Scan(0, false));
    One(At(s, p, Wait0), Take(c), At(l, p, Scan(0, false)));
    var a := ScanTo(l, c, p, 0, false, k);
    var b := ReapsIt(s, c, p, k, HasChild(l, p, 0, k));
    Join(At(s, p, Wait0), [Take(c)], At(l, p, Scan(0, false)), a, At(l, p, Scan(k, HasChild(l, p, 0, k))));
    es := [Take(c)] + a + b;
    Join(At(s, p, Wait0), [Take(c)] + a, At(l, p, Scan(k, HasChild(l, p, 0, k))), b, At(Waited(s, p, k), p, User));
  }

  // Leaving the CPU.

  /** Process p leaves CPU c at program counter Sched(ret), with slot x. */
  function Gone(s: State, c: nat, p: nat, x: Slot, ret: Pc): (r: State)
    requires c < |s.cpus| && p < |s.procs|
  {
    s.(cpus := s.cpus[c := Loop], procs := s.procs[p := x.(pc := Parked(ret))])
  }

  lemma SwitchesOut(s: State, c: nat, p: nat, x: Slot, ret: Pc)
    requires Free(s, -1) && Runs(s, c, p) && x.pc == Sched(ret)
    ensures var s0 := s.(procs := s.procs[p := x], locks := s.locks[p := c]);
            To(s0, [Switch(c), Clear(c), Leave(c)], Gone(s, c, p, x, ret))
  {
    var s0 := s.(procs := s.procs[p := x], locks := s.locks[p := c]);
    var y := x.(pc := Parked(ret));
    var s1 := s0.(cpus := s0.cpus[c := Back(p)], procs := s.procs[p := y]);
    var s2 := s1.(cpus := s0.cpus[c := Put(p)]);
    assert s0.procs[p := y] == s.procs[p := y];
    assert Do(s0, Switch(c)) == Some(s1);
    assert s1.cpus[c := Put(p)] == s0.cpus[c := Put(p)];
    assert Do(s1, Clear(c)) == Some(s2);
    assert s2.locks[p := -1] == s.locks && s2.cpus[c := Loop] == s.cpus[c := Loop];
    assert Do(s2, Leave(c)) == Some(Gone(s, c, p, x, ret));
    hide Do;
    Three(s0, Switch(c), s1, Clear(c), s2, Leave(c), Gone(s, c, p, x, ret));
  }

  /** wait with children none of which is a zombie: the process sleeps, and its CPU goes on. */
  lemma WaitSleeps(s: State, c: nat, p: nat) returns (es: seq<Event>)
    requires Free(s, -1) && Runs(s, c, p) && HasChild(s, p, 0, |s.procs|)
    requires forall i :: 0 <= i < |s.procs| && s.procs[i].parent == p ==> s.procs[i].state != Zombie && i != p
    ensures To(At(s, p, Wait0), es, Gone(s, c, p, s.procs[p].(state := Sleeping, chan := Of(p)), Wait0))
  {
    hide Do;
    var n := |s.procs|;
    var l := s.(locks := s.locks[n := c]);
    Taken(s, c, p, Wait0, n, Scan(0, false));
    One(At(s, p, Wait0), Take(c), At(l, p, Scan(0, false)));
    var a := ScanTo(l, c, p, 0, false, n);
    SameChildren(s, l, p, 0);
    Join(At(s, p, Wait0), [Take(c)], At(l, p, Scan(0, false)), a, At(l, p, Scan(n, true)));
    var b := FallsAsleep(s, c, p);
    es := [Take(c)] + a + b;
    Join(At(s, p, Wait0), [Take(c)] + a, At(l, p, Scan(n, true)), b,
         Gone(s, c, p, s.procs[p].(state := Sleeping, chan := Of(p)), Wait0));
  }

  lemma {:induction false} SameChildren(s: State, l: State, p: nat, j: nat)
    requires s.procs == l.procs && j <= |s.procs|
    ensures HasChild(s, p, j, |s.procs|) == HasChild(l, p, j, |s.procs|)
    decreases |s.procs| - j
  {
    if j < |s.procs| {
      SameChildren(s, l, p, j + 1);
    }
  }

  lemma FallsAsleep(s: State, c: nat, p: nat) returns (es: seq<Event>)
    requires Free(s, -1) && Runs(s, c, p)
    ensures var n := |s.procs|;
            To(At(s.(locks := s.locks[n := c]), p, Scan(n, true)), es,
               Gone(s, c, p, s.procs[p].(state := Sleeping, chan := Of(p)), Wait0))
  {
    hide Do;
    var n := |s.procs|;
    var l, m := s.(locks := s.locks[n := c]), s.(locks := s.locks[p := c]);
    var b := l.(locks := l.locks[p := c]);
    var x := s.procs[p].(pc := Sched(Wait0), state := Sleeping, chan := Of(p));
    Moved(l, c, p, Scan(n, true), true, Sleep0);
    Taken(l, c, p, Sleep0, p, Sleep1);
    Two(At(l, p, Scan(n, true)), Act(c, true), At(l, p, Sleep0), Take(c), At(b, p, Sleep1));
    assert b == m.(locks := m.locks[n := c]) by { assert l.locks[p := c] == m.locks[n := c]; }
    Dropped(m, c, p, Sleep1, n, Sleep2);
    ChangedOwn(m, c, p, Sleep2, true, Sched(Wait0), x, m);
    Two(At(b, p, Sleep1), Drop(c), At(m, p, Sleep2), Act(c, true), m.(procs := m.procs[p := x]));
    SwitchesOut(s, c, p, x, Wait0);
    var e := [Act(c, true), Take(c)];
    Join(At(l, p, Scan(n, true)), e, At(b, p, Sleep1), [Drop(c), Act(c, true)], m.(procs := m.procs[p := x]));
    es := e + [Drop(c), Act(c, true)] + [Switch(c), Clear(c), Leave(c)];
    Join(At(l, p, Scan(n, true)), e + [Drop(c), Act(c, true)], m.(procs := m.procs[p := x]),
         [Switch(c), Clear(c), Leave(c)], Gone(s, c, p, x, Wait0));
  }

  // exit. wait_lock is held throughout.

  function Roused(x: Slot, ch: int): (r: Slot) {
    if x.state == Sleeping && x.chan == Of(ch) then x.(state := Runnable) else x
  }

  /** The slots below j but p's own after wakeup(ch). */
  function WokenUp(procs: seq<Slot>, p: nat, ch: int, j: nat): (r: seq<Slot>)
    ensures |r| == |procs|
    ensures forall i :: 0 <= i < |procs| ==> r[i] == if i < j && i != p then Roused(procs[i], ch) else procs[i]
  {
    seq(|procs|, i requires 0 <= i < |procs| => if i < j && i != p then Roused(procs[i], ch) else procs[i])
  }

  lemma WakesOne(s: State, c: nat, p: nat, ch: int, j: nat, k: nat) returns (es: seq<Event>)
    requires Free(s, c) && Runs(s, c, p) && j < |s.procs|
    ensures var x := if j == p then s.procs[p] else Roused(s.procs[j], ch);
            To(At(s, p, Wake(ch, j, k)), es, At(s.(procs := s.procs[j := x]), p, Wake(ch, j + 1, k)))
  {
    hide Do;
    if j == p {
      Moved(s, c, p, Wake(ch, j, k), true, Wake(ch, j + 1, k));
      es := [Act(c, true)];
      assert s.procs[j := s.procs[p]] == s.procs;
      One(At(s, p, Wake(ch, j, k)), Act(c, true), At(s, p, Wake(ch, j + 1, k)));
    } else {
      es := WakesOther(s, c, p, ch, j, k);
    }
  }

  lemma WakesOther(s: State, c: nat, p: nat, ch: int, j: nat, k: nat) returns (es: seq<Event>)
    requires Free(s, c) && Runs(s, c, p) && j < |s.procs| && j != p
    ensures To(At(s, p, Wake(ch, j, k)), es,
               At(s.(procs := s.procs[j := Roused(s.procs[j], ch)]), p, Wake(ch, j + 1, k)))
  {
    hide Do;
    var x := Roused(s.procs[j], ch);
    var l := s.(locks := s.locks[j := c]);
    var s1, l1 := s.(procs := s.procs[j := x]), l.(procs := l.procs[j := x]);
    Taken(s, c, p, Wake(ch, j, k), j, WakeTest(ch, j, k));
    Changed(l, c, p, WakeTest(ch, j, k), true, WakeDrop(ch, j, k), j, x, l);
    Dropped(s1, c, p, WakeDrop(ch, j, k), j, Wake(ch, j + 1, k));
    es := [Take(c), Act(c, true), Drop(c)];
    Three(At(s, p, Wake(ch, j, k)), Take(c), At(l, p, WakeTest(ch, j, k)), Act(c, true),
          At(l1, p, WakeDrop(ch, j, k)), Drop(c), At(s1, p, Wake(ch, j + 1, k)));
  }

  lemma {:induction false} WakesUpTo(s: State, c: nat, p: nat, ch: int, j: nat, k: nat) returns (es: seq<Event>)
    requires Free(s, c) && Runs(s, c, p) && j <= |s.procs|
    ensures To(At(s, p, Wake(ch, 0, k)), es, At(s.(procs := WokenUp(s.procs, p, ch, j)), p, Wake(ch, j, k)))
    decreases j
  {
    hide Do;
    var s1 := s.(procs := WokenUp(s.procs, p, ch, j));
    if j == 0 {
      es := [];
      assert WokenUp(s.procs, p, ch, 0) == s.procs;
      Nowhere(At(s, p, Wake(ch, 0, k)));
    } else {
      var s0 := s.(procs := WokenUp(s.procs, p, ch, j - 1));
      var a := WakesUpTo(s, c, p, ch, j - 1, k);
      var b := WakesOne(s0, c, p, ch, j - 1, k);
      var x := if j - 1 == p then s0.procs[p] else Roused(s0.procs[j - 1], ch);
      assert s0.procs[j - 1 := x] == s1.procs;
      es := a + b;
      Join(At(s, p, Wake(ch, 0, k)), a, At(s0, p, Wake(ch, j - 1, k)), b, At(s1, p, Wake(ch, j, k)));
    }
  }

  /** The slots after reparent has gone through those below k: children of p go to process 0,
      which is woken for each. */
  function Given(procs: seq<Slot>, p: nat, k: nat): (r: seq<Slot>)
    requires k <= |procs|
    ensures |r| == |procs|
  {
    if k == 0 then procs
    else
      var q := Given(procs, p, k - 1);
      if q[k - 1].parent == p then WokenUp(q[k - 1 := q[k - 1].(parent := 0)], p, 0, |procs|) else q
  }

  lemma ReparentsOne(s: State, c: nat, p: nat, k: nat) returns (es: seq<Event>)
    requires Free(s, c) && Runs(s, c, p) && k < |s.procs| && s.procs[p].parent != p
    ensures var q := if s.procs[k].parent == p then WokenUp(s.procs[k := s.procs[k].(parent := 0)], p, 0, |s.procs|)
                     else s.procs;
            To(At(s, p, Reparent(k)), es, At(s.(procs := q), p, Reparent(k + 1)))
  {
    hide Do;
    var n := |s.procs|;
    if s.procs[k].parent == p {
      var x := s.procs[k].(parent := 0);
      var s1 := s.(procs := s.procs[k := x]);
      Changed(s, c, p, Reparent(k), true, Wake(0, 0, k + 1), k, x, s);
      One(At(s, p, Reparent(k)), Act(c, true), At(s1, p, Wake(0, 0, k + 1)));
      var a := WakesUpTo(s1, c, p, 0, n, k + 1);
      var s2 := s1.(procs := WokenUp(s1.procs, p, 0, n));
      Moved(s2, c, p, Wake(0, n, k + 1), true, Reparent(k + 1));
      One(At(s2, p, Wake(0, n, k + 1)), Act(c, true), At(s2, p, Reparent(k + 1)));
      Join(At(s, p, Reparent(k)), [Act(c, true)], At(s1, p, Wake(0, 0, k + 1)), a, At(s2, p, Wake(0, n, k + 1)));
      es := [Act(c, true)] + a + [Act(c, true)];
      Join(At(s, p, Reparent(k)), [Act(c, true)] + a, At(s2, p, Wake(0, n, k + 1)), [Act(c, true)],
           At(s2, p, Reparent(k + 1)));
    } else {
      Moved(s, c, p, Reparent(k), true, Reparent(k + 1));
      es := [Act(c, true)];
      One(At(s, p, Reparent(k)), Act(c, true), At(s, p, Reparent(k + 1)));
    }
  }

  lemma {:induction false} GivenOwn(procs: seq<Slot>, p: nat, k: nat)
    requires k <= |procs| && p < |procs| && procs[p].parent != p
    ensures Given(procs, p, k)[p] == procs[p]
  {
    if k > 0 {
      GivenOwn(procs, p, k - 1);
    }
  }

  lemma {:induction false} ReparentsUpTo(s: State, c: nat, p: nat, k: nat) returns (es: seq<Event>)
    requires Free(s, c) && Runs(s, c, p) && k <= |s.procs| && s.procs[p].parent != p
    ensures To(At(s, p, Reparent(0)), es, At(s.(procs := Given(s.procs, p, k)), p, Reparent(k)))
  {
    hide Do;
    if k == 0 {
      es := [];
      Nowhere(At(s, p, Reparent(0)));
    } else {
      var s0 := s.(procs := Given(s.procs, p, k - 1));
      GivenOwn(s.procs, p, k - 1);
      var a := ReparentsUpTo(s, c, p, k - 1);
      var b := ReparentsOne(s0, c, p, k - 1);
      es := a + b;
      Join(At(s, p, Reparent(0)), a, At(s0, p, Reparent(k - 1)), b,
           At(s.(procs := Given(s.procs, p, k)), p, Reparent(k)));
    }
  }

  /** Process p has children in slots below k. */
  predicate Kids(procs: seq<Slot>, p: nat, k: nat) {
    exists j :: 0 <= j < k && j < |procs| && procs[j].parent == p
  }

  /** What the exit of p makes of another slot: a child goes to process 0; process 0 is woken if
      there was a child, and the parent of p in any case. */
  function Left(procs: seq<Slot>, p: nat, i: nat): (r: Slot)
    requires p < |procs| && i < |procs|
  {
    var x := if procs[i].parent == p then procs[i].(parent := 0) else procs[i];
    var y := if Kids(procs, p, |procs|) then Roused(x, 0) else x;
    Roused(y, procs[p].parent)
  }

  lemma {:induction false} GivenAt(procs: seq<Slot>, p: nat, k: nat, i: nat)
    requires 0 < p < |procs| && k <= |procs| && i < |procs| && i != p
    ensures Given(procs, p, k)[i] ==
            var x := if i < k && procs[i].parent == p then procs[i].(parent := 0) else procs[i];
            if Kids(procs, p, k) then Roused(x, 0) else x
  {
    if k > 0 {
      GivenAt(procs, p, k - 1, i);
      SameParent(procs, p, k - 1, k - 1);
      assert Kids(procs, p, k) <==> Kids(procs, p, k - 1) || procs[k - 1].parent == p;
    }
  }

  /** A slot not yet looked at still has its parent. */
  lemma {:induction false} SameParent(procs: seq<Slot>, p: nat, k: nat, i: nat)
    requires k <= |procs| && k <= i < |procs|
    ensures Given(procs, p, k)[i].parent == procs[i].parent
  {
    if k > 0 {
      SameParent(procs, p, k - 1, i);
    }
  }

  /** The table after the exit of p, which ran on CPU c. */
  function Exited(s: State, c: nat, p: nat): (r: State)
    requires c < |s.cpus| && p < |s.procs|
    ensures |r.procs| == |s.procs|
  {
    s.(cpus := s.cpus[c := Loop], exited := s.exited + {s.procs[p].pid},
       procs := seq(|s.procs|, i requires 0 <= i < |s.procs| =>
                      if i == p then s.procs[p].(pc := Parked(Dead), state := Zombie) else Left(s.procs, p, i)))
  }

  lemma Dies(s: State, c: nat, p: nat) returns (es: seq<Event>)
    requires Free(s, -1) && Runs(s, c, p)
    ensures var x := s.procs[p].(state := Zombie);
            To(At(s.(locks := s.locks[|s.procs| := c]), p, Dying), es,
               Gone(s.(exited := s.exited + {x.pid}), c, p, x, Dead))
  {
    hide Do;
    var n := |s.procs|;
    var l, m := s.(locks := s.locks[n := c]), s.(locks := s.locks[p := c]);
    var b := l.(locks := l.locks[p := c]);
    var ex := s.exited + {s.procs[p].pid};
    var x := s.procs[p].(pc := Sched(Dead), state := Zombie);
    var y := x.(pc := Dying2);
    Taken(l, c, p, Dying, p, Dying1);
    ChangedOwn(b, c, p, Dying1, true, Dying2, y, b.(exited := ex));
    Two(At(l, p, Dying), Take(c), At(b, p, Dying1), Act(c, true), b.(exited := ex, procs := b.procs[p := y]));
    var m1 := m.(exited := ex, procs := m.procs[p := y]);
    assert b.(exited := ex, procs := b.procs[p := y]) == With(m1, p, Dying2, n, c) by {
      assert l.locks[p := c] == m.locks[n := c];
      assert m1.procs[p := y] == m1.procs;
    }
    Dropped(m1, c, p, Dying2, n, Sched(Dead));
    var m2 := m.(exited := ex, procs := m.procs[p := x]);
    assert At(m1, p, Sched(Dead)) == m2 by { assert m1.procs[p := x] == m2.procs; }
    One(With(m1, p, Dying2, n, c), Drop(c), m2);
    SwitchesOut(s.(exited := ex), c, p, x, Dead);
    Join(At(l, p, Dying), [Take(c), Act(c, true)], With(m1, p, Dying2, n, c), [Drop(c)], m2);
    es := [Take(c), Act(c, true)] + [Drop(c)] + [Switch(c), Clear(c), Leave(c)];
    Join(At(l, p, Dying), [Take(c), Act(c, true)] + [Drop(c)], m2, [Switch(c), Clear(c), Leave(c)],
         Gone(s.(exited := ex), c, p, x, Dead));
  }

  lemma GivesAway(s: State, c: nat, p: nat) returns (es: seq<Event>)
    requires Free(s, -1) && Runs(s, c, p) && s.procs[p].parent != p
    ensures var n := |s.procs|;
            var l := s.(locks := s.locks[n := c]);
            To(At(s, p, Exit0), es, At(l.(procs := Given(s.procs, p, n)), p, Wake(s.procs[p].parent, 0, n + 1)))
  {
    hide Do;
    var n, ch := |s.procs|, s.procs[p].parent;
    var l := s.(locks := s.locks[n := c]);
    Taken(s, c, p, Exit0, n, Reparent(0));
    One(At(s, p, Exit0), Take(c), At(l, p, Reparent(0)));
    var a := ReparentsUpTo(l, c, p, n);
    var l1 := l.(procs := Given(s.procs, p, n));
    GivenOwn(s.procs, p, n);
    Moved(l1, c, p, Reparent(n), true, Wake(ch, 0, n + 1));
    One(At(l1, p, Reparent(n)), Act(c, true), At(l1, p, Wake(ch, 0, n + 1)));
    Join(At(s, p, Exit0), [Take(c)], At(l, p, Reparent(0)), a, At(l1, p, Reparent(n)));
    es := [Take(c)] + a + [Act(c, true)];
    Join(At(s, p, Exit0), [Take(c)] + a, At(l1, p, Reparent(n)), [Act(c, true)], At(l1, p, Wake(ch, 0, n + 1)));
  }

  lemma LeavesBehind(s: State, c: nat, p: nat) returns (es: seq<Event>, q: seq<Slot>)
    requires Free(s, -1) && Runs(s, c, p) && p != 0 && s.procs[p].parent != p
    ensures |q| == |s.procs| && q[p] == s.procs[p] && forall i :: 0 <= i < |q| && i != p ==> q[i] == Left(s.procs, p, i)
    ensures var l := s.(locks := s.locks[|s.procs| := c]);
            To(At(s, p, Exit0), es, At(l.(procs := q), p, Dying))
  {
    hide Do;
    var n, ch := |s.procs|, s.procs[p].parent;
    var l := s.(locks := s.locks[n := c]);
    var l1 := l.(procs := Given(s.procs, p, n));
    var a := GivesAway(s, c, p);
    GivenOwn(s.procs, p, n);
    var b := WakesUpTo(l1, c, p, ch, n, n + 1);
    q := WokenUp(l1.procs, p, ch, n);
    forall i | 0 <= i < n && i != p
      ensures q[i] == Left(s.procs, p, i)
    {
      GivenAt(s.procs, p, n, i);
    }
    var l2 := l.(procs := q);
    Moved(l2, c, p, Wake(ch, n, n + 1), true, Dying);
    One(At(l2, p, Wake(ch, n, n + 1)), Act(c, true), At(l2, p, Dying));
    Join(At(s, p, Exit0), a, At(l1, p, Wake(ch, 0, n + 1)), b, At(l2, p, Wake(ch, n, n + 1)));
    es := a + b + [Act(c, true)];
    Join(At(s, p, Exit0), a + b, At(l2, p, Wake(ch, n, n + 1)), [Act(c, true)], At(l2, p, Dying));
  }

  /** exit: the process becomes a zombie, its children go to process 0, who must know is woken,
      and its CPU goes on. */
  lemma ExitWorks(s: State, c: nat, p: nat) returns (es: seq<Event>)
    requires Free(s, -1) && Runs(s, c, p) && p != 0 && s.procs[p].pc == User && s.procs[p].parent != p
    ensures To(s, es, Exited(s, c, p))
  {
    hide Do, Left;
    Entered(s, c, p, Exit0);
    One(s, Enter(c, Exit0), At(s, p, Exit0));
    var a, q := LeavesBehind(s, c, p);
    var s1 := s.(procs := q);
    var l := s.(locks := s.locks[|s.procs| := c]);
    var b := Dies(s1, c, p);
    assert s1.(locks := s1.locks[|s.procs| := c]) == l.(procs := q);
    var x := s.procs[p].(state := Zombie);
    assert Gone(s1.(exited := s1.exited + {x.pid}), c, p, x, Dead) == Exited(s, c, p) by {
      assert q[p := x.(pc := Parked(Dead))] == Exited(s, c, p).procs;
    }
    Join(s, [Enter(c, Exit0)], At(s, p, Exit0), a, At(l.(procs := q), p, Dying));
    es := [Enter(c, Exit0)] + a + b;
    Join(s, [Enter(c, Exit0)] + a, At(l.(procs := q), p, Dying), b, Exited(s, c, p));
  }

  // The scheduler, and a whole life.

  /** Process p, parked at ret, after a CPU has taken it up. */
  function Resumes(s: State, c: nat, p: nat, ret: Pc): (r: State)
    requires c < |s.cpus| && p < |s.procs|
  {
    s.(cpus := s.cpus[c := Processes.Run(p)],
       procs := s.procs[p := s.procs[p].(pc := ret, state := Running, chan := NoChan)])
  }

  /** A free CPU takes up a runnable process, which goes on where it left off. */
  lemma TakesUp(s: State, c: nat, p: nat, ret: Pc) returns (es: seq<Event>)
    requires Free(s, -1) && c < |s.cpus| && s.cpus[c] == Loop && p < |s.procs|
    requires s.procs[p].state == Runnable && s.procs[p].pc == Parked(ret)
    ensures To(s, es, Resumes(s, c, p, ret))
  {
    var s1 := s.(locks := s.locks[p := c], cpus := s.cpus[c := Took(p)]);
    var x := s.procs[p].(pc := Resumed(ret), state := Running);
    var s2 := s.(locks := s.locks[p := c], cpus := s.cpus[c := Processes.Run(p)], procs := s.procs[p := x]);
    assert Do(s, Pick(c, p)) == Some(s1);
    assert s1.cpus[c := Processes.Run(p)] == s2.cpus;
    assert Do(s1, Look(c)) == Some(s2);
    hide Do;
    Two(s, Pick(c, p), s1, Look(c), s2);
    var r := Resumes(s, c, p, ret);
    var m := r.(locks := r.locks[p := c]);
    var y := r.procs[p].(pc := Unlock(ret));
    assert s2 == At(s2, p, Resumed(ret)) by { assert s2.procs[p := x] == s2.procs; }
    ChangedOwn(s2, c, p, Resumed(ret), true, Unlock(ret), y, s2);
    assert s2.(procs := s2.procs[p := y]) == With(r, p, Unlock(ret), p, c) by {
      assert s2.procs[p := y] == r.procs[p := y];
    }
    Dropped(r, c, p, Unlock(ret), p, ret);
    assert At(r, p, ret) == r by { assert r.procs[p := r.procs[p]] == r.procs; }
    Two(s2, Act(c, true), With(r, p, Unlock(ret), p, c), Drop(c), r);
    es := [Pick(c, p), Look(c)] + [Act(c, true), Drop(c)];
    Join(s, [Pick(c, p), Look(c)], s2, [Act(c, true), Drop(c)], r);
  }

  /** One CPU, free; process 0 is x, its child in slot 1 is y, and there are no others. */
  ghost predicate Pair(s: State, n: nat, x: Slot, y: Slot) {
    && |s.procs| == n >= 2 && Free(s, -1) && s.cpus == [Loop] && s.procs[0] == x && s.procs[1] == y && s.reaped == []
    && forall i :: 2 <= i < n ==> s.procs[i].parent == -1
  }

  const ASLEEP := Slot(Parked(Wait0), Sleeping, Of(0), -1, 1, 0)
  const AWAKE := Slot(Parked(Wait0), Runnable, Of(0), -1, 1, 0)
  const CHILD := Slot(Parked(User), Runnable, NoChan, 0, 2, 1)
  const ZOMBIE := Slot(Parked(Dead), Zombie, NoChan, 0, 2, 1)

  /** The first process forks, waits and falls asleep. */
  lemma ParentSleeps(n: nat) returns (es: seq<Event>, s: State)
    requires n >= 2
    ensures To(Boot(1, n), es, s) && Pair(s, n, ASLEEP, CHILD) && s.exited == {}
  {
    hide Do;
    var b := Boot(1, n);
    var e0 := TakesUp(b, 0, 0, User);
    var s0 := Resumes(b, 0, 0, User);
    var e1 := ForkWorks(s0, 0, 0, 1);
    var s1 := Forked(s0, 0, 1);
    Entered(s1, 0, 0, Wait0);
    One(s1, Enter(0, Wait0), At(s1, 0, Wait0));
    ChildAt(s1, 0, 0, 1);
    var e2 := WaitSleeps(s1, 0, 0);
    s := Gone(s1, 0, 0, s1.procs[0].(state := Sleeping, chan := Of(0)), Wait0);
    Join(b, e0, s0, e1, s1);
    Join(b, e0 + e1, s1, [Enter(0, Wait0)], At(s1, 0, Wait0));
    es := e0 + e1 + [Enter(0, Wait0)] + e2;
    Join(b, e0 + e1 + [Enter(0, Wait0)], At(s1, 0, Wait0), e2, s);
  }

  /** The child runs and exits, which wakes the parent. */
  lemma ChildExits(n: nat, s: State) returns (es: seq<Event>, s': State)
    requires Pair(s, n, ASLEEP, CHILD)
    ensures To(s, es, s') && Pair(s', n, AWAKE, ZOMBIE) && s'.exited == s.exited + {2}
  {
    hide Do;
    var a := TakesUp(s, 0, 1, User);
    var s1 := Resumes(s, 0, 1, User);
    var b := ExitWorks(s1, 0, 1);
    s' := Exited(s1, 0, 1);
    NoKids(s1.procs);
    es := a + b;
    Join(s, a, s1, b, s');
  }

  lemma NoKids(procs: seq<Slot>)
    requires |procs| >= 2 && procs[0].parent == -1 && procs[1].parent == 0
    requires forall i :: 2 <= i < |procs| ==> procs[i].parent == -1
    ensures !Kids(procs, 1, |procs|)
  {
  }

  /** The parent runs and reaps it. */
  lemma ParentReaps(n: nat, s: State) returns (es: seq<Event>, s': State)
    requires Pair(s, n, AWAKE, ZOMBIE)
    ensures To(s, es, s') && |s'.procs| == n && s'.procs[1].state == Unused && s'.exited == s.exited
    ensures s'.reaped == [Reaped(2, 1, 1)]
  {
    hide Do;
    var a := TakesUp(s, 0, 0, Wait0);
    var s1 := Resumes(s, 0, 0, Wait0);
    assert At(s1, 0, Wait0) == s1 by { assert s1.procs[0 := s1.procs[0]] == s1.procs; }
    var b := WaitReaps(s1, 0, 0, 1);
    s' := At(Waited(s1, 0, 1), 0, User);
    es := a + b;
    Join(s, a, s1, b, s');
  }

  /** With one CPU and room for two processes or more: the first process forks, waits and sleeps;
      the child runs and exits; the first is woken and reaps it. */
  lemma WholeLife(n: nat) returns (es: seq<Event>, s: State)
    requires n >= 2
    ensures Shape(Boot(1, n)) && R.Run(Boot(1, n), es) == Some(s)
    ensures |s.procs| == n && s.procs[1].state == Unused && s.exited == {2} && s.reaped == [Reaped(2, 1, 1)]
  {
    hide Pair, Boot, R.Run;
    var a, s1 := ParentSleeps(n);
    var b, s2 := ChildExits(n, s1);
    var d;
    d, s := ParentReaps(n, s2);
    Join(Boot(1, n), a, s1, b, s2);
    es := a + b + d;
    Join(Boot(1, n), a + b, s2, d, s);
  }

  lemma {:induction false} ChildAt(s: State, p: nat, j: nat, i: nat)
    requires j <= i < |s.procs| && s.procs[i].parent == p
    ensures HasChild(s, p, j, |s.procs|)
    decreases i - j
  {
    if j < i {
      ChildAt(s, p, j + 1, i);
    }
  }
}
