/** What sleep and wakeup achieve: no process waits for ever on the spin locks, and a process
    that sleeps on a condition gets the lock back once another has made it true. */
module SleepProgress {
  import opened Common
  import opened Ownership
  import opened SleepWakeup

  // Deadlock.

  /** The next step of p has to wait for a lock: the process that has it. */
  predicate WaitsOn<S>(s: State<S>, p: nat, h: int) {
    && Shape(s) && p < |s.procs|
    && match s.procs[p].pc
       case Want(l) => l < |s.lk| && s.lk[l] == h
       case Sleep0(_, _) => s.plk[p] == h
       case Parked(_, _) => s.procs[p].state == Runnable && s.plk[p] == h
       case Wake(_, _, k) => k < |s.procs| && k != p && s.plk[k] == h
       case _ => false
  }

  /** Process p, or the scheduler for it, can do its next step. */
  predicate CanGo<S>(y: System<S>, s: State<S>, p: nat) {
    Shape(s) && (Do(y, s, Step(p)).Some? || Do(y, s, Dispatch(p)).Some?)
  }

  /** A process is outside, asleep, in its own code under a spin lock, or it can go on or
      waits for a lock that another process has. */
  lemma GoesOrWaits<S>(y: System<S>, s: State<S>, p: nat)
    requires Inv(y, s) && p < |s.procs|
    ensures var x := s.procs[p];
            x.pc.Out? || x.pc.In? || (x.pc.Parked? && x.state == Sleeping) || CanGo(y, s, p) ||
            exists h :: 0 <= h < |s.procs| && h != p && WaitsOn(s, p, h)
  {
    hide Owns, SpinSets, ProcSets, Owing, SleeperOk, Owing;
    InvShape(y, s);
    assert ProcOk(y, s, p, s.procs[p]);
    var pc := s.procs[p].pc;
    if pc.Want? {
      SpinFact(s, p, pc.l);
      assert s.lk[pc.l] != -1 ==> WaitsOn(s, p, s.lk[pc.l]);
    } else if pc.Sleep0? || pc.Parked? {
      ProcLockFact(s, p, p);
      assert s.plk[p] != -1 && (pc.Sleep0? || s.procs[p].state == Runnable) ==> WaitsOn(s, p, s.plk[p]);
    } else if pc.Wake? && pc.k < |s.procs| && pc.k != p {
      ProcLockFact(s, p, pc.k);
      assert s.plk[pc.k] != -1 ==> WaitsOn(s, p, s.plk[pc.k]);
    }
  }

  /** Whoever has the lock of a process can go on. */
  lemma HolderGoes<S>(y: System<S>, s: State<S>, h: nat, k: nat)
    requires Inv(y, s) && h < |s.procs| && k < |s.procs| && s.plk[k] == h
    ensures CanGo(y, s, h)
  {
    hide Owns, SpinSets, ProcSets, SleeperOk;
    InvShape(y, s);
    ProcLockFact(s, h, k);
    assert ProcOk(y, s, h, s.procs[h]);
  }

  /** Nobody waits for ever: in every run, who waits for a lock waits for a process that is in
      its own code under a spin lock, can go on, or waits for one that can. */
  lemma NoDeadlock<S>(y: System<S>, nproc: nat, init: seq<S>, es: seq<Event<S>>, p: nat, h: nat)
    requires Run(y, Boot(nproc, init), es).Some?
    requires var s := Run(y, Boot(nproc, init), es).value; WaitsOn(s, p, h) && h < |s.procs|
    ensures var s := Run(y, Boot(nproc, init), es).value;
            s.procs[h].pc.In? || CanGo(y, s, h) || exists g :: 0 <= g < |s.procs| && WaitsOn(s, h, g) && CanGo(y, s, g)
  {
    BootOk(y, nproc, init);
    RunKeeps(y, Boot(nproc, init), es);
    var s := Run(y, Boot(nproc, init), es).value;
    hide Boot, Run, Owns, SpinSets, ProcSets, SleeperOk, Do;
    var pc := s.procs[p].pc;
    if pc.Want? {
      SpinFact(s, h, pc.l);
      GoesOrWaits(y, s, h);
      if !s.procs[h].pc.In? && !CanGo(y, s, h) {
        var g :| 0 <= g < |s.procs| && g != h && WaitsOn(s, h, g);
        HolderGoes(y, s, g, if s.procs[h].pc.Wake? then s.procs[h].pc.k else h);
      }
    } else {
      HolderGoes(y, s, h, if pc.Wake? then pc.k else p);
    }
  }

  // Steps of one process.

  /** n steps of p, none of them in its own code, lead from s to s'. */
  ghost predicate Goes<S>(y: System<S>, s: State<S>, p: nat, n: nat, s': State<S>)
    decreases n
  {
    && Shape(s) && p < |s.procs|
    && if n == 0 then s == s'
       else !s.procs[p].pc.In? && Do(y, s, Step(p)).Some? && Goes(y, Do(y, s, Step(p)).value, p, n - 1, s')
  }

  lemma {:induction false} GoesOn<S>(y: System<S>, s: State<S>, p: nat, n: nat, m: State<S>, k: nat, s': State<S>)
    requires Goes(y, s, p, n, m) && Goes(y, m, p, k, s')
    ensures Goes(y, s, p, n + k, s')
    decreases n
  {
    hide Do;
    if n > 0 {
      GoesOn(y, Do(y, s, Step(p)).value, p, n - 1, m, k, s');
    }
  }

  lemma GoesOne<S>(y: System<S>, s: State<S>, p: nat, s': State<S>)
    requires Shape(s) && p < |s.procs| && !s.procs[p].pc.In? && Do(y, s, Step(p)) == Some(s')
    requires Shape(s') && |s'.procs| == |s.procs|
    ensures Goes(y, s, p, 1, s')
  {
    hide Do;
    assert Goes(y, s', p, 0, s');
  }

  function Set<S>(s: State<S>, p: nat, x: Proc): (r: State<S>)
    requires p < |s.procs|
  {
    s.(procs := s.procs[p := x])
  }

  lemma SetSet<S>(s: State<S>, p: nat, x: Proc, z: Proc)
    requires p < |s.procs|
    ensures Set(Set(s, p, x), p, z) == Set(s, p, z)
  {
    assert s.procs[p := x][p := z] == s.procs[p := z];
  }

  /** acquire of a free spin lock. */
  lemma Takes<S>(y: System<S>, s: State<S>, p: nat, l: nat)
    requires Shape(s) && p < |s.procs| && l < |s.lk| && s.lk[l] == -1 && s.procs[p].pc == Want(l)
    ensures Goes(y, s, p, 1, Set(s.(lk := s.lk[l := p]), p, s.procs[p].(pc := In(l))))
  {
    GoesOne(y, s, p, Set(s.(lk := s.lk[l := p]), p, s.procs[p].(pc := In(l))));
  }

  /** sleep, up to the point where another process runs. */
  lemma FallsAsleep<S>(y: System<S>, s: State<S>, p: nat, l: nat, ch: nat)
    requires Shape(s) && p < |s.procs| && l < |s.lk| && s.plk[p] == -1 && s.procs[p].pc == Sleep0(l, ch)
    ensures var x := s.procs[p].(pc := Parked(l, ch), state := Sleeping, chan := ch + 1);
            Goes(y, s, p, 4, Set(s.(lk := s.lk[l := -1]), p, x))
  {
    hide Goes;
    var x := s.procs[p];
    var a := Set(s.(plk := s.plk[p := p]), p, x.(pc := Sleep1(l, ch)));
    var b := Set(a.(lk := s.lk[l := -1]), p, x.(pc := Sleep2(l, ch)));
    var c := Set(b, p, x.(pc := Sched(l, ch), chan := ch + 1, state := Sleeping));
    var d := Set(s.(lk := s.lk[l := -1]), p, x.(pc := Parked(l, ch), chan := ch + 1, state := Sleeping));
    GoesOne(y, s, p, a);
    GoesOne(y, a, p, b);
    GoesOne(y, b, p, c);
    assert c.plk[p := -1] == s.plk;
    assert Do(y, c, Step(p)).value.procs == d.procs;
    GoesOne(y, c, p, d);
    GoesOn(y, s, p, 1, a, 1, b);
    GoesOn(y, s, p, 2, b, 1, c);
    GoesOn(y, s, p, 3, c, 1, d);
  }

  /** What wakeup of ch does to a process. */
  function Roused(x: Proc, ch: nat): (r: Proc) {
    if x.state == Sleeping && x.chan == ch + 1 then x.(state := Runnable) else x
  }

  /** The state in which q's wakeup of ch has come to process k. */
  function Waking<S>(s: State<S>, q: nat, l: nat, ch: nat, k: nat): (r: State<S>)
    requires q < |s.procs|
  {
    Set(s.(procs := seq(|s.procs|, i requires 0 <= i < |s.procs| => if i < k then Roused(s.procs[i], ch)
                                                                    else s.procs[i])),
        q, s.procs[q].(pc := Wake(l, ch, k)))
  }

  ghost predicate NoProcLock<S>(s: State<S>) {
    forall i :: 0 <= i < |s.plk| ==> s.plk[i] == -1
  }

  lemma WakesOne<S>(y: System<S>, s: State<S>, q: nat, l: nat, ch: nat, k: nat)
    requires Shape(s) && q < |s.procs| && l < |s.lk| && k < |s.procs| && NoProcLock(s)
    ensures Goes(y, Waking(s, q, l, ch, k), q, if k == q then 1 else 2, Waking(s, q, l, ch, k + 1))
  {
    hide Goes;
    var a, b := Waking(s, q, l, ch, k), Waking(s, q, l, ch, k + 1);
    if k == q {
      assert Do(y, a, Step(q)).value.procs == b.procs;
      GoesOne(y, a, q, b);
    } else {
      var m := Set(a.(plk := a.plk[k := q]), q, s.procs[q].(pc := WakeAt(l, ch, k)));
      assert Do(y, a, Step(q)).value.procs == m.procs;
      GoesOne(y, a, q, m);
      assert m.plk[k := -1] == s.plk;
      assert Do(y, m, Step(q)).value.procs == b.procs;
      GoesOne(y, m, q, b);
      GoesOn(y, a, q, 1, m, 1, b);
    }
  }

  lemma {:induction false} WakesRest<S>(y: System<S>, s: State<S>, q: nat, l: nat, ch: nat, k: nat) returns (n: nat)
    requires Shape(s) && q < |s.procs| && l < |s.lk| && k <= |s.procs| && NoProcLock(s)
    ensures Goes(y, Waking(s, q, l, ch, k), q, n, Waking(s, q, l, ch, |s.procs|))
    decreases |s.procs| - k
  {
    if k == |s.procs| {
      n := 0;
    } else {
      hide Goes;
      WakesOne(y, s, q, l, ch, k);
      var m := WakesRest(y, s, q, l, ch, k + 1);
      n := (if k == q then 1 else 2) + m;
      GoesOn(y, Waking(s, q, l, ch, k), q, if k == q then 1 else 2, Waking(s, q, l, ch, k + 1), m,
             Waking(s, q, l, ch, |s.procs|));
    }
  }

  /** All sleepers on ch are runnable, and the caller is back in its own code. */
  function Woken<S>(s: State<S>, q: nat, l: nat, ch: nat): (r: State<S>)
    requires q < |s.procs|
  {
    Set(s.(procs := seq(|s.procs|, i requires 0 <= i < |s.procs| => Roused(s.procs[i], ch))), q,
        s.procs[q].(pc := In(l), owes := s.procs[q].owes - {ch}))
  }

  /** wakeup from start to end. */
  lemma Wakes<S>(y: System<S>, s: State<S>, q: nat, l: nat, ch: nat) returns (n: nat)
    requires Shape(s) && q < |s.procs| && l < |s.lk| && NoProcLock(s) && s.procs[q].pc == Wake(l, ch, 0)
    ensures Goes(y, s, q, n, Woken(s, q, l, ch))
  {
    hide Goes;
    assert Waking(s, q, l, ch, 0) == s by {
      assert Waking(s, q, l, ch, 0).procs == s.procs;
    }
    n := WakesRest(y, s, q, l, ch, 0);
    var a, b := Waking(s, q, l, ch, |s.procs|), Woken(s, q, l, ch);
    assert Do(y, a, Step(q)).value.procs == b.procs;
    GoesOne(y, a, q, b);
    GoesOn(y, s, q, n, a, 1, b);
    n := n + 1;
  }

  // Runs.

  ghost predicate To<S>(y: System<S>, s: State<S>, es: seq<Event<S>>, s': State<S>) {
    Shape(s) && Shape(s') && Run(y, s, es) == Some(s')
  }

  lemma One<S>(y: System<S>, s: State<S>, e: Event<S>, s': State<S>)
    requires Shape(s) && Do(y, s, e) == Some(s') && Shape(s')
    ensures To(y, s, [e], s')
  {
    hide Do;
    assert [e][1..] == [] && Run(y, s', []) == Some(s');
  }

  lemma {:induction false} Join<S>(y: System<S>, s: State<S>, a: seq<Event<S>>, m: State<S>, b: seq<Event<S>>,
                                   s': State<S>)
    requires To(y, s, a, m) && To(y, m, b, s')
    ensures To(y, s, a + b, s')
    decreases |a|
  {
    hide Do;
    if a == [] {
      assert a + b == b;
    } else {
      assert (a + b)[0] == a[0] && (a + b)[1..] == a[1..] + b;
      Join(y, Do(y, s, a[0]).value, a[1..], m, b, s');
    }
  }

  lemma {:induction false} Then<S>(y: System<S>, s: State<S>, a: seq<Event<S>>, m: State<S>, p: nat, n: nat,
                                   s': State<S>) returns (es: seq<Event<S>>)
    requires To(y, s, a, m) && Goes(y, m, p, n, s')
    ensures To(y, s, es, s')
    decreases n
  {
    hide Do;
    es := a;
    if n > 0 {
      var m' := Do(y, m, Step(p)).value;
      One(y, m, Step(p), m');
      Join(y, s, a, m, [Step(p)], m');
      es := Then(y, s, a + [Step(p)], m', p, n - 1, s');
    }
  }

  lemma And<S>(y: System<S>, s: State<S>, a: seq<Event<S>>, m: State<S>, e: Event<S>, s': State<S>)
    requires To(y, s, a, m) && Do(y, m, e) == Some(s') && Shape(s')
    ensures To(y, s, a + [e], s')
  {
    hide Do, Run;
    One(y, m, e, s');
    Join(y, s, a, m, [e], s');
  }

  /** A process goes for a free spin lock and gets it. */
  lemma Acquires<S>(y: System<S>, s: State<S>, p: nat, l: nat) returns (es: seq<Event<S>>)
    requires Shape(s) && p < |s.procs| && l < |s.lk| && s.lk[l] == -1 && s.procs[p].pc.Out?
    ensures To(y, s, es, Set(s.(lk := s.lk[l := p]), p, s.procs[p].(pc := In(l))))
  {
    hide To, Goes;
    var m := Set(s, p, s.procs[p].(pc := Want(l)));
    One(y, s, Enter(p, l), m);
    Takes(y, m, p, l);
    SetSet(s.(lk := s.lk[l := p]), p, m.procs[p], s.procs[p].(pc := In(l)));
    es := Then(y, s, [Enter(p, l)], m, p, 1, Set(s.(lk := s.lk[l := p]), p, s.procs[p].(pc := In(l))));
  }

  /** It finds its condition false, and is asleep then with the lock free. */
  lemma GoesToSleep<S>(y: System<S>, s: State<S>, p: nat, l: nat, ch: nat) returns (es: seq<Event<S>>)
    requires Shape(s) && p < |s.procs| && l < |s.lk| && s.lk[l] == -1 && s.plk[p] == -1
    requires s.procs[p] == Proc(Out, Running, s.procs[p].chan, {})
    requires ch < y.nchan && y.lockOf(ch) == l && !y.cond(ch, s.shared[l])
    ensures To(y, s, es, Set(s, p, Proc(Parked(l, ch), Sleeping, ch + 1, {})))
  {
    hide To, Goes;
    var x := s.procs[p];
    es := Acquires(y, s, p, l);
    var a := Set(s.(lk := s.lk[l := p]), p, x.(pc := In(l)));
    var b := Set(s.(lk := s.lk[l := p]), p, x.(pc := Sleep0(l, ch)));
    SetSet(s.(lk := s.lk[l := p]), p, a.procs[p], b.procs[p]);
    And(y, s, es, a, Snooze(p, ch), b);
    FallsAsleep(y, b, p, l, ch);
    assert b.lk[l := -1] == s.lk;
    var c := Set(s, p, Proc(Parked(l, ch), Sleeping, ch + 1, {}));
    assert c == Set(b.(lk := b.lk[l := -1]), p, x.(pc := Parked(l, ch), state := Sleeping, chan := ch + 1));
    es := Then(y, s, es + [Snooze(p, ch)], b, p, 4, c);
  }

  /** A process after the wakeups of all these channels. */
  function Paid(x: Proc, chs: set<nat>): (r: Proc) {
    if x.state == Sleeping && x.chan > 0 && x.chan - 1 in chs then x.(state := Runnable) else x
  }

  function AllPaid<S>(s: State<S>, q: nat): (r: State<S>)
    requires q < |s.procs|
  {
    s.(procs := seq(|s.procs|, i requires 0 <= i < |s.procs| =>
      if i == q then s.procs[q].(owes := {}) else Paid(s.procs[i], s.procs[q].owes)))
  }

  lemma PaidOnce<S>(s: State<S>, q: nat, l: nat, ch: nat)
    requires q < |s.procs| && s.procs[q].pc == In(l) && ch in s.procs[q].owes
    ensures var b := Woken(Set(s, q, s.procs[q].(pc := Wake(l, ch, 0))), q, l, ch);
            |b.procs| == |s.procs| && AllPaid(b, q) == AllPaid(s, q) && b.procs[q].owes == s.procs[q].owes - {ch}
  {
    var b := Woken(Set(s, q, s.procs[q].(pc := Wake(l, ch, 0))), q, l, ch);
    assert AllPaid(b, q).procs == AllPaid(s, q).procs;
  }

  /** The holder of a spin lock makes the wakeups it owes. */
  lemma {:induction false} Pays<S>(y: System<S>, s: State<S>, q: nat, l: nat) returns (es: seq<Event<S>>)
    requires Shape(s) && q < |s.procs| && l < |s.lk| && NoProcLock(s) && s.procs[q].pc == In(l)
    requires forall ch :: ch in s.procs[q].owes ==> ch < y.nchan && y.lockOf(ch) == l
    ensures To(y, s, es, AllPaid(s, q))
    decreases s.procs[q].owes
  {
    var x := s.procs[q];
    if x.owes == {} {
      es := [];
      assert AllPaid(s, q).procs == s.procs;
    } else {
      hide To, Goes, AllPaid;
      var ch :| ch in x.owes;
      var a := Set(s, q, x.(pc := Wake(l, ch, 0)));
      One(y, s, Rouse(q, ch), a);
      var n := Wakes(y, a, q, l, ch);
      var b := Woken(a, q, l, ch);
      var fs := Then(y, s, [Rouse(q, ch)], a, q, n, b);
      PaidOnce(s, q, l, ch);
      var gs := Pays(y, b, q, l);
      Join(y, s, fs, b, gs, AllPaid(b, q));
      es := fs + gs;
    }
  }

  /** A process takes the lock, changes what it guards, wakes whom it must and lets go: the
      sleepers whose conditions it made true are runnable. */
  lemma Changes<S>(y: System<S>, s: State<S>, q: nat, l: nat, v: S) returns (es: seq<Event<S>>, s': State<S>)
    requires Shape(s) && q < |s.procs| && l < |s.lk| && s.lk[l] == -1 && NoProcLock(s)
    requires s.procs[q] == Proc(Out, Running, s.procs[q].chan, {})
    ensures To(y, s, es, s') && s'.lk == s.lk && s'.shared == s.shared[l := v] && s'.plk == s.plk
    ensures |s'.procs| == |s.procs| && s'.procs[q] == s.procs[q]
    ensures forall i :: 0 <= i < |s.procs| && i != q ==>
              s'.procs[i] == Paid(s.procs[i], Owing(y, l, {}, s.shared[l], v))
  {
    hide To, Goes;
    var x := s.procs[q];
    es := Acquires(y, s, q, l);
    var a := Set(s.(lk := s.lk[l := q]), q, x.(pc := In(l)));
    var owes := Owing(y, l, {}, s.shared[l], v);
    var b := Set(s.(lk := s.lk[l := q], shared := s.shared[l := v]), q, x.(pc := In(l), owes := owes));
    SetSet(s.(lk := s.lk[l := q], shared := s.shared[l := v]), q, a.procs[q], b.procs[q]);
    And(y, s, es, a, Change(q, v), b);
    var fs := Pays(y, b, q, l);
    Join(y, s, es + [Change(q, v)], b, fs, AllPaid(b, q));
    var c := AllPaid(b, q);
    s' := Set(c.(lk := s.lk), q, x);
    assert c.lk[l := -1] == s.lk;
    assert Do(y, c, Leave(q)).value.procs == s'.procs;
    And(y, s, es + [Change(q, v)] + fs, c, Leave(q), s');
    es := es + [Change(q, v)] + fs + [Leave(q)];
  }

  /** A process made runnable comes back from sleep with the lock. */
  lemma ComesBack<S>(y: System<S>, s: State<S>, p: nat, l: nat, ch: nat) returns (es: seq<Event<S>>)
    requires Shape(s) && p < |s.procs| && l < |s.lk| && s.lk[l] == -1 && s.plk[p] == -1
    requires s.procs[p].pc == Parked(l, ch) && s.procs[p].state == Runnable
    ensures To(y, s, es, Set(s.(lk := s.lk[l := p]), p, Proc(In(l), Running, 0, s.procs[p].owes)))
  {
    hide To, Goes;
    var x := s.procs[p];
    var a := Set(s.(plk := s.plk[p := p]), p, x.(pc := Resumed(l, ch), state := Running));
    One(y, s, Dispatch(p), a);
    var b := Set(s, p, Proc(Want(l), Running, 0, x.owes));
    assert a.plk[p := -1] == s.plk;
    assert Do(y, a, Step(p)).value.procs == b.procs;
    And(y, s, [Dispatch(p)], a, Step(p), b);
    Takes(y, b, p, l);
    var c := Set(s.(lk := s.lk[l := p]), p, Proc(In(l), Running, 0, x.owes));
    assert c.procs == b.procs[p := b.procs[p].(pc := In(l))];
    es := Then(y, s, [Dispatch(p)] + [Step(p)], b, p, 1, c);
  }

  /** Sleep and wakeup do what they are for: from every state in which the locks are free, a
      process that waits for a condition sleeps with the lock free, and when another process
      has made the condition true, under the lock and with the wakeups that asks for, the
      first comes back with the lock, and finds it true. */
  lemma SleepThenWake<S>(y: System<S>, s: State<S>, p: nat, q: nat, l: nat, ch: nat, v: S)
    returns (es: seq<Event<S>>, m: State<S>, fs: seq<Event<S>>, s': State<S>)
    requires Inv(y, s) && p < |s.procs| && q < |s.procs| && p != q && l < |s.lk| && s.lk[l] == -1 && NoProcLock(s)
    requires s.procs[p].pc.Out? && s.procs[q].pc.Out?
    requires ch < y.nchan && y.lockOf(ch) == l && !y.cond(ch, s.shared[l]) && y.cond(ch, v)
    ensures |m.procs| == |s'.procs| == |s.procs|
    ensures To(y, s, es, m) && Asleep(m.procs[p], ch) && m.lk == s.lk && m.shared == s.shared
    ensures To(y, m, fs, s') && s'.shared == s.shared[l := v] && y.cond(ch, s'.shared[l]) && s'.lk == s.lk[l := p]
    ensures s'.procs[p].pc == In(l) && s'.procs[q].pc.Out?
  {
    InvShape(y, s);
    assert ProcOk(y, s, p, s.procs[p]) && ProcOk(y, s, q, s.procs[q]);
    hide Inv, To, Owing;
    es := GoesToSleep(y, s, p, l, ch);
    m := Set(s, p, Proc(Parked(l, ch), Sleeping, ch + 1, {}));
    ToShape(y, s, es, m);
    var gs, n := Changes(y, m, q, l, v);
    Owed(y, l, s.shared[l], v, ch);
    ToShape(y, m, gs, n);
    var hs := ComesBack(y, n, p, l, ch);
    s' := Set(n.(lk := n.lk[l := p]), p, Proc(In(l), Running, 0, n.procs[p].owes));
    Join(y, m, gs, n, hs, s');
    fs := gs + hs;
  }

  lemma ToShape<S>(y: System<S>, s: State<S>, es: seq<Event<S>>, s': State<S>)
    requires To(y, s, es, s')
    ensures Shape(s) && Shape(s')
  {
  }

  lemma Owed<S>(y: System<S>, l: nat, v: S, v': S, ch: nat)
    requires ch < y.nchan && y.lockOf(ch) == l && !y.cond(ch, v) && y.cond(ch, v')
    ensures ch in Owing(y, l, {}, v, v')
  {
  }
}
