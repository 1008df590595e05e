/** acquiresleep and releasesleep of kernel/sleeplock.c from start to end, while the other
    processes leave the spin locks alone. */
module SleepLockRuns {
  import opened Common
  import opened Ownership
  import opened SleepLock
  import W = SleepWakeup
  import P = SleepProgress

  ghost predicate To(s: State, es: seq<Event>, s': State) {
    Shape(s) && Shape(s') && Run(s, es) == Some(s')
  }

  lemma One(s: State, e: Event, s': State)
    requires Shape(s) && Do(s, e) == Some(s') && Shape(s')
    ensures To(s, [e], s')
  {
    hide Do;
    assert [e][1..] == [] && Run(s', []) == Some(s');
  }

  lemma {:induction false} Join(s: State, a: seq<Event>, m: State, b: seq<Event>, s': State)
    requires To(s, a, m) && To(m, b, s')
    ensures To(s, a + b, s')
    decreases |a|
  {
    hide Do;
    if a == [] {
      assert a + b == b;
    } else {
      assert (a + b)[0] == a[0] && (a + b)[1..] == a[1..] + b;
      Join(Do(s, a[0]).value, a[1..], m, b, s');
    }
  }

  lemma And(s: State, a: seq<Event>, m: State, e: Event, s': State)
    requires To(s, a, m) && Do(m, e) == Some(s') && Shape(s')
    ensures To(s, a + [e], s')
  {
    hide Do, Run;
    One(m, e, s');
    Join(s, a, m, [e], s');
  }

  /** Steps of sleep and wakeup are steps of the sleep locks. */
  lemma {:induction false} Then(s: State, a: seq<Event>, m: State, p: nat, n: nat, core: W.State<Lock>)
    returns (es: seq<Event>)
    requires To(s, a, m) && P.Goes(System(|m.core.lk|), m.core, p, n, core)
    ensures To(s, es, m.(core := core))
    decreases n
  {
    hide W.Do, Run;
    es := a;
    if n > 0 {
      var core' := W.Do(System(|m.core.lk|), m.core, W.Step(p)).value;
      W.OthersStay(System(|m.core.lk|), m.core, W.Step(p));
      var m' := m.(core := core');
      assert m.todo[p := m.todo[p]] == m.todo && m.held[p := m.held[p]] == m.held;
      And(s, a, m, Step(p), m');
      es := Then(s, a + [Step(p)], m', p, n - 1, core);
    }
  }

  /** Between two calls: p is in none and owes no wakeup. */
  predicate Ready(s: State, p: nat) {
    && Shape(s) && p < |s.todo| && s.todo[p].Nothing?
    && s.core.procs[p] == W.Proc(W.Out, W.Running, s.core.procs[p].chan, {})
  }

  /** s, but for process p, what it has to do and what it holds. */
  function With(s: State, p: nat, x: W.Proc, todo: Todo, has: set<nat>): (r: State)
    requires Shape(s) && p < |s.todo|
    ensures Shape(r)
  {
    State(P.Set(s.core, p, x), s.todo[p := todo], s.held[p := has])
  }

  /** s with the inner spin lock of l in the hands of p. */
  function Spun(s: State, l: nat, p: int): (r: State)
    requires Shape(s) && l < |s.core.lk|
    ensures Shape(r)
  {
    s.(core := s.core.(lk := s.core.lk[l := p]))
  }

  /** s with these fields in sleep lock l. */
  function Put(s: State, l: nat, v: Lock): (r: State)
    requires Shape(s) && l < |s.core.lk|
    ensures Shape(r)
  {
    s.(core := s.core.(shared := s.core.shared[l := v]))
  }

  lemma WithWith(s: State, p: nat, x: W.Proc, todo: Todo, has: set<nat>, x': W.Proc, todo': Todo, has': set<nat>)
    requires Shape(s) && p < |s.todo|
    ensures With(With(s, p, x, todo, has), p, x', todo', has') == With(s, p, x', todo', has')
  {
    P.SetSet(s.core, p, x, x');
    assert s.todo[p := todo][p := todo'] == s.todo[p := todo'] && s.held[p := has][p := has'] == s.held[p := has'];
  }

  /** The start of either call: the inner spin lock is taken. */
  lemma Enters(s: State, p: nat, l: nat, e: Event, todo: Todo) returns (es: seq<Event>)
    requires Ready(s, p) && l < |s.core.lk| && s.core.lk[l] == -1
    requires (e == Acquire(p, l) && todo == Get(l)) ||
             (e == Release(p, l) && todo == SleepLock.Put(l) && l in s.held[p])
    ensures To(s, es, With(Spun(s, l, p), p, s.core.procs[p].(pc := W.In(l)), todo, s.held[p]))
  {
    hide To, P.Goes;
    var x := s.core.procs[p];
    var m := With(s, p, x.(pc := W.Want(l)), todo, s.held[p]);
    One(s, e, m);
    P.Takes(System(|s.core.lk|), m.core, p, l);
    P.SetSet(Spun(s, l, p).core, p, m.core.procs[p], x.(pc := W.In(l)));
    es := Then(s, [e], m, p, 1, With(Spun(s, l, p), p, x.(pc := W.In(l)), todo, s.held[p]).core);
  }

  lemma NoneOwed(nlock: nat, l: nat, owes: set<nat>, v: Lock, v': Lock)
    requires v'.locked
    ensures W.Owing(System(nlock), l, owes, v, v') == {}
  {
  }

  lemma OneOwed(nlock: nat, l: nat, v: Lock, v': Lock)
    requires l < nlock && v.locked && !v'.locked
    ensures W.Owing(System(nlock), l, {}, v, v') == {l}
  {
  }

  /** acquiresleep with the spin lock, once locked is found clear. */
  lemma Gets(s: State, p: nat, l: nat, c: nat, has: set<nat>) returns (es: seq<Event>)
    requires Shape(s) && p < |s.todo| && l < |s.core.lk| && s.core.lk[l] == -1 && !s.core.shared[l].locked
    ensures To(With(Spun(s, l, p), p, W.Proc(W.In(l), W.Running, c, {}), Get(l), has), es,
               With(Put(s, l, Lock(true, p)), p, W.Proc(W.Out, W.Running, c, {}), Nothing, has + {l}))
  {
    hide To, W.Owing;
    var x := W.Proc(W.In(l), W.Running, c, {});
    var a := With(Spun(s, l, p), p, x, Get(l), has);
    var m := Spun(Put(s, l, Lock(true, p)), l, p);
    var b := With(m, p, x, Got(l), has + {l});
    var d := With(Put(s, l, Lock(true, p)), p, W.Proc(W.Out, W.Running, c, {}), Nothing, has + {l});
    NoneOwed(|s.core.lk|, l, {}, s.core.shared[l], Lock(true, p));
    WithWith(m, p, x, Get(l), has, x, Got(l), has + {l});
    One(a, Step(p), b);
    WithWith(m, p, x, Got(l), has + {l}, d.core.procs[p], Nothing, has + {l});
    assert b.core.lk[l := -1] == s.core.lk;
    And(a, [Step(p)], b, Step(p), d);
    es := [Step(p)] + [Step(p)];
  }

  /** acquiresleep of a lock nobody holds. */
  lemma Acquires(s: State, p: nat, l: nat) returns (es: seq<Event>)
    requires Ready(s, p) && l < |s.core.lk| && s.core.lk[l] == -1 && !s.core.shared[l].locked
    ensures To(s, es, With(Put(s, l, Lock(true, p)), p, s.core.procs[p], Nothing, s.held[p] + {l}))
  {
    hide To;
    var x := s.core.procs[p];
    var fs := Enters(s, p, l, Acquire(p, l), Get(l));
    var m := With(Spun(s, l, p), p, x.(pc := W.In(l)), Get(l), s.held[p]);
    var gs := Gets(s, p, l, x.chan, s.held[p]);
    Join(s, fs, m, gs, With(Put(s, l, Lock(true, p)), p, x, Nothing, s.held[p] + {l}));
    es := fs + gs;
  }

  /** acquiresleep of a lock that is held: the process falls asleep. */
  lemma Waits(s: State, p: nat, l: nat) returns (es: seq<Event>)
    requires Ready(s, p) && l < |s.core.lk| && s.core.lk[l] == -1 && s.core.plk[p] == -1 && s.core.shared[l].locked
    ensures To(s, es, With(s, p, W.Proc(W.Parked(l, l), W.Sleeping, l + 1, {}), Get(l), s.held[p]))
  {
    hide To, P.Goes;
    var x := s.core.procs[p];
    es := Enters(s, p, l, Acquire(p, l), Get(l));
    var a := With(Spun(s, l, p), p, x.(pc := W.In(l)), Get(l), s.held[p]);
    var b := With(Spun(s, l, p), p, x.(pc := W.Sleep0(l, l)), Get(l), s.held[p]);
    WithWith(Spun(s, l, p), p, a.core.procs[p], Get(l), s.held[p], b.core.procs[p], Get(l), s.held[p]);
    And(s, es, a, Step(p), b);
    P.FallsAsleep(System(|s.core.lk|), b.core, p, l, l);
    var d := With(s, p, W.Proc(W.Parked(l, l), W.Sleeping, l + 1, {}), Get(l), s.held[p]);
    assert b.core.lk[l := -1] == s.core.lk;
    P.SetSet(s.core, p, b.core.procs[p], d.core.procs[p]);
    es := Then(s, es + [Step(p)], b, p, 4, d.core);
  }

  /** All processes asleep on l are runnable. */
  function AllRoused(s: State, l: nat): (r: State)
    requires Shape(s)
    ensures Shape(r)
  {
    s.(core := s.core.(procs := seq(|s.core.procs|, i requires 0 <= i < |s.core.procs| =>
      P.Roused(s.core.procs[i], l))))
  }

  /** releasesleep: the lock is free, and whoever slept on it is runnable. */
  lemma Releases(s: State, q: nat, l: nat) returns (es: seq<Event>)
    requires Ready(s, q) && l < |s.core.lk| && s.core.lk[l] == -1 && P.NoProcLock(s.core)
    requires l in s.held[q] && s.core.shared[l].locked
    ensures To(s, es, With(AllRoused(Put(s, l, Lock(false, -1)), l), q, s.core.procs[q], Nothing, s.held[q] - {l}))
  {
    hide To, P.Goes, W.Owing;
    var x, has, v := s.core.procs[q], s.held[q] - {l}, Lock(false, -1);
    es := Enters(s, q, l, Release(q, l), SleepLock.Put(l));
    var a := With(Spun(s, l, q), q, x.(pc := W.In(l)), SleepLock.Put(l), s.held[q]);
    var m := Spun(Put(s, l, v), l, q);
    var b := With(m, q, x.(pc := W.In(l), owes := {l}), Cleared(l), has);
    OneOwed(|s.core.lk|, l, s.core.shared[l], v);
    WithWith(m, q, a.core.procs[q], SleepLock.Put(l), s.held[q], b.core.procs[q], Cleared(l), has);
    And(s, es, a, Step(q), b);
    var c := With(m, q, x.(pc := W.Wake(l, l, 0), owes := {l}), Woken(l), has);
    WithWith(m, q, b.core.procs[q], Cleared(l), has, c.core.procs[q], Woken(l), has);
    And(s, es + [Step(q)], b, Step(q), c);
    var n := P.Wakes(System(|s.core.lk|), c.core, q, l, l);
    es := Then(s, es + [Step(q)] + [Step(q)], c, q, n, P.Woken(c.core, q, l, l));
    var d := c.(core := P.Woken(c.core, q, l, l));
    LastStep(s, q, l);
    And(s, es, d, Step(q), With(AllRoused(Put(s, l, v), l), q, x, Nothing, has));
    es := es + [Step(q)];
  }

  lemma LastStep(s: State, q: nat, l: nat)
    requires Ready(s, q) && l < |s.core.lk| && s.core.lk[l] == -1
    ensures var x, has := s.core.procs[q], s.held[q] - {l};
            var c := With(Spun(Put(s, l, Lock(false, -1)), l, q), q, x.(pc := W.Wake(l, l, 0), owes := {l}), Woken(l),
                          has);
            var d := c.(core := P.Woken(c.core, q, l, l));
            Shape(d) &&
            Do(d, Step(q)) == Some(With(AllRoused(Put(s, l, Lock(false, -1)), l), q, x, Nothing, has))
  {
    var x, has, v := s.core.procs[q], s.held[q] - {l}, Lock(false, -1);
    var c := With(Spun(Put(s, l, v), l, q), q, x.(pc := W.Wake(l, l, 0), owes := {l}), Woken(l), has);
    var d := c.(core := P.Woken(c.core, q, l, l));
    var e := With(AllRoused(Put(s, l, v), l), q, x, Nothing, has);
    assert d.core.procs[q] == x.(pc := W.In(l));
    var r := Do(d, Step(q)).value;
    assert r.core.procs == e.core.procs;
    assert d.core.lk[l := -1] == s.core.lk;
    assert r.todo == e.todo && r.held == e.held;
  }

  /** A process made runnable takes the lock, if it is free when its turn comes. */
  lemma ComesBack(s: State, p: nat, l: nat) returns (es: seq<Event>)
    requires Shape(s) && p < |s.todo| && l < |s.core.lk| && s.core.lk[l] == -1 && s.core.plk[p] == -1
    requires s.core.procs[p] == W.Proc(W.Parked(l, l), W.Runnable, s.core.procs[p].chan, {}) && s.todo[p] == Get(l)
    requires !s.core.shared[l].locked
    ensures To(s, es, With(Put(s, l, Lock(true, p)), p, W.Proc(W.Out, W.Running, 0, {}), Nothing, s.held[p] + {l}))
  {
    hide To, P.Goes;
    var x, has := s.core.procs[p], s.held[p];
    var a := With(s.(core := s.core.(plk := s.core.plk[p := p])), p,
                  x.(pc := W.Resumed(l, l), state := W.Running), Get(l), has);
    One(s, Dispatch(p), a);
    var b := With(s, p, W.Proc(W.Want(l), W.Running, 0, {}), Get(l), has);
    assert a.core.plk[p := -1] == s.core.plk;
    WithWith(s, p, a.core.procs[p], Get(l), has, b.core.procs[p], Get(l), has);
    And(s, [Dispatch(p)], a, Step(p), b);
    P.Takes(System(|s.core.lk|), b.core, p, l);
    var m := With(Spun(s, l, p), p, W.Proc(W.In(l), W.Running, 0, {}), Get(l), has);
    P.SetSet(Spun(s, l, p).core, p, b.core.procs[p], m.core.procs[p]);
    var fs := Then(s, [Dispatch(p)] + [Step(p)], b, p, 1, m.core);
    var gs := Gets(s, p, l, 0, has);
    Join(s, fs, m, gs, With(Put(s, l, Lock(true, p)), p, W.Proc(W.Out, W.Running, 0, {}), Nothing, has + {l}));
    es := fs + gs;
  }

  /** In every run, when the spin locks are free and p and q are in no call: if q holds a sleep
      lock, p asks for it and falls asleep, q releases it, and p has it. */
  lemma Handover(nproc: nat, nlock: nat, run: seq<Event>, p: nat, q: nat, l: nat)
    returns (es: seq<Event>, m: State, fs: seq<Event>, s': State)
    requires Run(Boot(nproc, nlock), run).Some?
    requires var s := Run(Boot(nproc, nlock), run).value;
             && p < nproc && q < nproc && p != q && l < nlock && |s.todo| == |s.held| == nproc && |s.core.lk| == nlock
             && s.todo[p].Nothing? && s.todo[q].Nothing? && l in s.held[q]
             && s.core.lk[l] == -1 && P.NoProcLock(s.core)
    ensures var s := Run(Boot(nproc, nlock), run).value;
            && To(s, es, m) && p < |m.core.procs| && W.Asleep(m.core.procs[p], l) && m.held == s.held
            && To(m, fs, s') && |s'.todo| == nproc && s'.todo[p].Nothing? && s'.todo[q].Nothing?
            && s'.held == s.held[q := s.held[q] - {l}][p := s.held[p] + {l}]
  {
    var s := Run(Boot(nproc, nlock), run).value;
    HoldingExact(nproc, nlock, run, l, q, p);
    ReadyNow(nproc, nlock, run, p);
    ReadyNow(nproc, nlock, run, q);
    hide To, Run, Boot;
    es := Waits(s, p, l);
    m := With(s, p, W.Proc(W.Parked(l, l), W.Sleeping, l + 1, {}), Get(l), s.held[p]);
    var gs := Releases(m, q, l);
    var n := With(AllRoused(Put(m, l, Lock(false, -1)), l), q, m.core.procs[q], Nothing, m.held[q] - {l});
    assert n.core.procs[p] == W.Proc(W.Parked(l, l), W.Runnable, l + 1, {});
    var hs := ComesBack(n, p, l);
    s' := With(Put(n, l, Lock(true, p)), p, W.Proc(W.Out, W.Running, 0, {}), Nothing, n.held[p] + {l});
    Join(m, gs, n, hs, s');
    fs := gs + hs;
    assert m.held == s.held;
  }

  lemma ReadyNow(nproc: nat, nlock: nat, run: seq<Event>, p: nat)
    requires Run(Boot(nproc, nlock), run).Some? && p < nproc
    requires var s := Run(Boot(nproc, nlock), run).value; p < |s.todo| && s.todo[p].Nothing?
    ensures Ready(Run(Boot(nproc, nlock), run).value, p)
  {
    var s := Run(Boot(nproc, nlock), run).value;
    BootHolds(nproc, nlock);
    RunHolds(Boot(nproc, nlock), run);
    var cs := CoreRun(Boot(nproc, nlock), run);
    var y, init := System(nlock), seq(nlock, _ => Lock(false, -1));
    W.BootOk(y, nproc, init);
    W.RunKeeps(y, W.Boot(nproc, init), cs);
    assert TodoOk(s, p);
    assert W.ProcOk(y, s.core, p, s.core.procs[p]);
  }
}
