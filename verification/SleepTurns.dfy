/** Why a process may be taken to do all that it does under a spin lock, sleeping at the end
    included, in one step: every run of sleep and wakeup, with each acquire and release a step
    of its own, is a run of such turns. */
module SleepTurns {
  import opened Common
  import opened Ownership
  import W = SleepWakeup

  /** The values that the locks guard while they are free, and the channel that each process
      sleeps on. */
  datatype Coarse<S> = Coarse(shared: seq<S>, asleep: seq<Option<nat>>)

  /** A turn: process p takes lock l, leaves the value v under it, wakes the sleepers of some
      channels, and falls asleep or lets go of the lock. */
  datatype Turn<S> =
    | Turn(p: nat, l: nat, v: S, roused: set<nat>, sleeps: Option<nat>)
    | Killed(p: nat)

  predicate On<S>(y: W.System<S>, ch: nat, l: nat) {
    ch < y.nchan && y.lockOf(ch) == l
  }

  /** A process that is awake takes the turn; it wakes every channel whose condition it has
      made true, and sleeps only on one whose condition is false. */
  ghost predicate Legal<S>(y: W.System<S>, t: Coarse<S>, e: Turn<S>) {
    && e.p < |t.asleep|
    && (e.Turn? ==>
          && e.l < |t.shared| && t.asleep[e.p].None?
          && (forall ch: nat :: ch in e.roused ==> On(y, ch, e.l))
          && (forall ch: nat :: On(y, ch, e.l) && y.cond(ch, e.v) && !y.cond(ch, t.shared[e.l]) ==> ch in e.roused)
          && (e.sleeps.Some? ==> On(y, e.sleeps.value, e.l) && !y.cond(e.sleeps.value, e.v)))
  }

  function Awakened(x: Option<nat>, roused: set<nat>): (r: Option<nat>) {
    if x.Some? && x.value in roused then None else x
  }

  function Take<S>(t: Coarse<S>, e: Turn<S>): (r: Coarse<S>)
    requires e.p < |t.asleep| && (e.Turn? ==> e.l < |t.shared|)
    ensures |r.shared| == |t.shared| && |r.asleep| == |t.asleep|
  {
    match e
    case Turn(p, l, v, roused, sleeps) =>
      Coarse(t.shared[l := v],
             seq(|t.asleep|, q requires 0 <= q < |t.asleep| => Awakened(t.asleep[q], roused))[p := sleeps])
    case Killed(p) => t.(asleep := t.asleep[p := None])
  }

  /** Whoever sleeps waits for something that does not hold. */
  ghost predicate Waiting<S>(y: W.System<S>, t: Coarse<S>) {
    forall q :: 0 <= q < |t.asleep| && t.asleep[q].Some? ==>
      var ch := t.asleep[q].value;
      ch < y.nchan && y.lockOf(ch) < |t.shared| && !y.cond(ch, t.shared[y.lockOf(ch)])
  }

  lemma WaitingKept<S>(y: W.System<S>, t: Coarse<S>, e: Turn<S>)
    requires Waiting(y, t) && Legal(y, t, e)
    ensures Waiting(y, Take(t, e))
  {
  }

  // The two machines side by side.

  /** done is history: for each lock the channels that its holder has woken so far. */
  ghost predicate LockRel<S>(y: W.System<S>, s: W.State<S>, t: Coarse<S>, done: seq<set<nat>>, l: nat)
    requires W.LocksOk(s) && l < |s.lk| == |t.shared| == |done|
  {
    && (s.lk[l] == -1 ==> t.shared[l] == s.shared[l] && done[l] == {})
    && (forall ch: nat :: ch in done[l] ==> On(y, ch, l))
    && (s.lk[l] != -1 ==> forall ch: nat :: On(y, ch, l) && y.cond(ch, s.shared[l]) && !y.cond(ch, t.shared[l]) ==>
          ch in done[l] || ch in s.procs[s.lk[l]].owes)
  }

  /** Process q has been woken from ch by the holder of the lock, in the turn it is in. */
  ghost predicate Roused<S>(s: W.State<S>, done: seq<set<nat>>, l: nat, ch: nat, q: nat)
    requires W.LocksOk(s) && l < |s.lk| == |done|
  {
    s.lk[l] != -1 && (ch in done[l] || W.Behind(s.procs[s.lk[l]].pc, ch, q))
  }

  /** Process q lies between falling asleep on ch, under l, and taking l again. */
  predicate Between(pc: W.Pc, l: nat, ch: nat) {
    pc == W.Sleep2(l, ch) || pc == W.Sched(l, ch) || pc == W.Parked(l, ch) || pc == W.Resumed(l, ch) || pc == W.Want(l)
  }

  ghost predicate SleepRel<S>(y: W.System<S>, s: W.State<S>, t: Coarse<S>, done: seq<set<nat>>, q: nat)
    requires W.LocksOk(s) && |s.lk| == |done| && q < |s.procs| == |t.asleep|
  {
    && (forall ch: nat :: W.Asleep(s.procs[q], ch) ==> t.asleep[q] == Some(ch))
    && (t.asleep[q].Some? ==>
          var ch := t.asleep[q].value;
          var l := y.lockOf(ch);
          && l < |s.lk| && Between(s.procs[q].pc, l, ch)
          && (W.Asleep(s.procs[q], ch) || Roused(s, done, l, ch, q)))
    && (forall ch: nat :: W.Asleep(s.procs[q], ch) ==> forall l :: 0 <= l < |done| ==> ch !in done[l])
  }

  ghost predicate Rel<S>(y: W.System<S>, s: W.State<S>, t: Coarse<S>, done: seq<set<nat>>) {
    && W.LocksOk(s) && |t.shared| == |done| == |s.lk| && |t.asleep| == |s.procs|
    && (forall l :: 0 <= l < |s.lk| ==> LockRel(y, s, t, done, l))
    && (forall q :: 0 <= q < |s.procs| ==> SleepRel(y, s, t, done, q))
  }

  /** The turn that an event completes, if any. */
  function TurnOf<S>(s: W.State<S>, done: seq<set<nat>>, e: W.Event<S>): (r: Option<Turn<S>>)
    requires W.Shape(s) && |done| == |s.lk| && e.p < |s.procs|
  {
    var pc := s.procs[e.p].pc;
    if e.Kill? then Some(Killed(e.p))
    else if pc.Out? || pc.l >= |s.lk| then None
    else if e.Leave? then Some(Turn(e.p, pc.l, s.shared[pc.l], done[pc.l], None))
    else if e.Step? && pc.Sleep1? then Some(Turn(e.p, pc.l, s.shared[pc.l], done[pc.l], Some(pc.ch)))
    else None
  }

  function DoneAfter<S>(s: W.State<S>, done: seq<set<nat>>, e: W.Event<S>): (r: seq<set<nat>>)
    requires W.Shape(s) && |done| == |s.lk| && e.p < |s.procs|
    ensures |r| == |done|
  {
    var pc := s.procs[e.p].pc;
    if pc.Out? || pc.l >= |s.lk| then done
    else if e.Leave? || (e.Step? && pc.Sleep1?) then done[pc.l := {}]
    else if e.Step? && pc.Wake? && pc.k >= |s.procs| then done[pc.l := done[pc.l] + {pc.ch}]
    else done
  }

  function After<S>(t: Coarse<S>, e: Option<Turn<S>>): (r: Coarse<S>)
    requires e.Some? ==> e.value.p < |t.asleep| && (e.value.Turn? ==> e.value.l < |t.shared|)
  {
    if e.Some? then Take(t, e.value) else t
  }

  lemma BootRel<S>(y: W.System<S>, nproc: nat, init: seq<S>)
    ensures Rel(y, W.Boot(nproc, init), Coarse(init, seq(nproc, _ => None)), seq(|init|, _ => {}))
  {
    W.BootOk(y, nproc, init);
  }

  /** What is needed of a state and the event in it. */
  ghost predicate Going<S>(y: W.System<S>, s: W.State<S>, e: W.Event<S>, t: Coarse<S>, done: seq<set<nat>>) {
    W.Inv(y, s) && W.Shape(s) && Rel(y, s, t, done) && W.Do(y, s, e).Some?
  }

  lemma TurnLegal<S>(y: W.System<S>, s: W.State<S>, e: W.Event<S>, t: Coarse<S>, done: seq<set<nat>>)
    requires Going(y, s, e, t, done)
    ensures e.p < |s.procs| && (TurnOf(s, done, e).Some? ==> Legal(y, t, TurnOf(s, done, e).value))
  {
    hide Owns, W.SpinSets, W.ProcSets, W.Owing, W.OwedOk, W.PassedOk;
    W.OthersStay(y, s, e);
    assert W.ProcOk(y, s, e.p, s.procs[e.p]) && SleepRel(y, s, t, done, e.p) && W.SleeperOk(y, s, e.p);
    var pc := s.procs[e.p].pc;
    if e.Leave? || (e.Step? && pc.Sleep1?) {
      assert LockRel(y, s, t, done, pc.l);
      W.SpinFact(s, e.p, pc.l);
    }
  }

  lemma LockKept<S>(y: W.System<S>, s: W.State<S>, e: W.Event<S>, t: Coarse<S>, done: seq<set<nat>>, l: nat)
    requires Going(y, s, e, t, done) && l < |s.lk| && e.p < |s.procs| && W.LocksOk(W.Do(y, s, e).value)
    requires TurnOf(s, done, e).Some? ==> Legal(y, t, TurnOf(s, done, e).value)
    ensures |W.Do(y, s, e).value.lk| == |s.lk|
    ensures LockRel(y, W.Do(y, s, e).value, After(t, TurnOf(s, done, e)), DoneAfter(s, done, e), l)
  {
    hide Owns, W.SpinSets, W.ProcSets, W.OwedOk, W.PassedOk, Legal, SleepRel;
    W.OthersStay(y, s, e);
    assert W.ProcOk(y, s, e.p, s.procs[e.p]) && LockRel(y, s, t, done, l);
    W.SpinFact(s, e.p, l);
  }

  lemma AsleepShown<S>(y: W.System<S>, s: W.State<S>, e: W.Event<S>, t: Coarse<S>, done: seq<set<nat>>, q: nat, ch: nat)
    requires Going(y, s, e, t, done) && q < |s.procs| == |W.Do(y, s, e).value.procs| && e.p < |s.procs|
    requires TurnOf(s, done, e).Some? ==> Legal(y, t, TurnOf(s, done, e).value)
    requires W.Asleep(W.Do(y, s, e).value.procs[q], ch)
    ensures After(t, TurnOf(s, done, e)).asleep[q] == Some(ch)
  {
    hide Owns, W.SpinSets, W.ProcSets, W.Owing, W.OwedOk, W.PassedOk, LockRel, Legal;
    assert W.ProcOk(y, s, e.p, s.procs[e.p]) && W.ProcOk(y, s, q, s.procs[q]) && SleepRel(y, s, t, done, q);
    W.AsleepBefore(y, s, e, q, ch);
    W.ProcLockFact(s, q, q);
  }

  lemma AsleepUndone<S>(y: W.System<S>, s: W.State<S>, e: W.Event<S>, t: Coarse<S>, done: seq<set<nat>>, q: nat,
                        ch: nat, l: nat)
    requires Going(y, s, e, t, done) && q < |s.procs| == |W.Do(y, s, e).value.procs| && e.p < |s.procs|
    requires W.Asleep(W.Do(y, s, e).value.procs[q], ch) && l < |done|
    ensures ch !in DoneAfter(s, done, e)[l]
  {
    hide Owns, W.SpinSets, W.ProcSets, W.Owing, W.OwedOk;
    assert W.ProcOk(y, s, e.p, s.procs[e.p]) && W.ProcOk(y, s, q, s.procs[q]) && SleepRel(y, s, t, done, q);
    assert W.SleeperOk(y, s, q) && LockRel(y, s, t, done, l);
    W.AsleepBefore(y, s, e, q, ch);
    var pc := s.procs[e.p].pc;
    if e.Step? && pc.Wake? && pc.k >= |s.procs| {
      assert W.Behind(pc, pc.ch, q);
    }
  }

  /** Whoever stops being asleep was killed, or is behind a wakeup whose caller has the lock. */
  lemma WokenBy<S>(y: W.System<S>, s: W.State<S>, e: W.Event<S>, q: nat, ch: nat)
    requires W.Inv(y, s) && W.Shape(s) && W.Do(y, s, e).Some? && q < |s.procs| && W.Asleep(s.procs[q], ch)
    ensures |W.Do(y, s, e).value.procs| == |s.procs| && |W.Do(y, s, e).value.lk| == |s.lk|
    ensures e.p < |s.procs| && y.lockOf(ch) < |s.lk|
    ensures var s' := W.Do(y, s, e).value;
            || W.Asleep(s'.procs[q], ch) || e == W.Kill(q)
            || (s'.lk[y.lockOf(ch)] == e.p && W.Behind(s'.procs[e.p].pc, ch, q))
  {
    hide Owns, W.SpinSets, W.ProcSets, W.Owing, W.OwedOk, W.PassedOk, W.WaitsOk;
    W.OthersStay(y, s, e);
    assert W.ProcOk(y, s, e.p, s.procs[e.p]) && W.ProcOk(y, s, q, s.procs[q]);
    W.SpinFact(s, e.p, y.lockOf(ch));
    W.SpinFact(s, q, y.lockOf(ch));
  }

  /** Whoever has been woken in a turn stays so until the turn ends. */
  lemma RousedKept<S>(y: W.System<S>, s: W.State<S>, e: W.Event<S>, done: seq<set<nat>>, l: nat, ch: nat, q: nat)
    requires W.Inv(y, s) && W.Shape(s) && W.Do(y, s, e).Some? && q < |s.procs| && l < |s.lk| == |done|
    requires W.LocksOk(W.Do(y, s, e).value) && e.p < |s.procs|
    requires Roused(s, done, l, ch, q)
    ensures |W.Do(y, s, e).value.lk| == |s.lk|
    ensures Roused(W.Do(y, s, e).value, DoneAfter(s, done, e), l, ch, q) ||
            ((e.Leave? || (e.Step? && s.procs[e.p].pc.Sleep1?)) && s.procs[e.p].pc.l == l && ch in done[l])
  {
    hide Owns, W.SpinSets, W.ProcSets, W.Owing, W.OwedOk, W.PassedOk, W.WaitsOk;
    W.OthersStay(y, s, e);
    var h := s.lk[l];
    W.SpinFact(s, e.p, l);
    W.SpinFact(s, h, l);
    assert W.ProcOk(y, s, e.p, s.procs[e.p]) && W.ProcOk(y, s, h, s.procs[h]);
  }

  lemma SleepKept<S>(y: W.System<S>, s: W.State<S>, e: W.Event<S>, t: Coarse<S>, done: seq<set<nat>>, q: nat)
    requires Going(y, s, e, t, done) && q < |s.procs| && e.p < |s.procs| && W.LocksOk(W.Do(y, s, e).value)
    requires TurnOf(s, done, e).Some? ==> Legal(y, t, TurnOf(s, done, e).value)
    ensures |W.Do(y, s, e).value.lk| == |s.lk| && |W.Do(y, s, e).value.procs| == |s.procs|
    ensures SleepRel(y, W.Do(y, s, e).value, After(t, TurnOf(s, done, e)), DoneAfter(s, done, e), q)
  {
    hide Owns, W.SpinSets, W.ProcSets, W.Owing, W.OwedOk, W.PassedOk, LockRel, Roused;
    W.OthersStay(y, s, e);
    var s', t', done' := W.Do(y, s, e).value, After(t, TurnOf(s, done, e)), DoneAfter(s, done, e);
    forall ch: nat | W.Asleep(s'.procs[q], ch)
      ensures t'.asleep[q] == Some(ch) && forall l :: 0 <= l < |done'| ==> ch !in done'[l]
    {
      AsleepShown(y, s, e, t, done, q, ch);
      forall l | 0 <= l < |done'|
        ensures ch !in done'[l]
      {
        AsleepUndone(y, s, e, t, done, q, ch, l);
      }
    }
    if t'.asleep[q].Some? {
      StillBetween(y, s, e, t, done, q);
    }
  }

  lemma StillBetween<S>(y: W.System<S>, s: W.State<S>, e: W.Event<S>, t: Coarse<S>, done: seq<set<nat>>, q: nat)
    requires Going(y, s, e, t, done) && q < |s.procs| && e.p < |s.procs| && W.LocksOk(W.Do(y, s, e).value)
    requires |W.Do(y, s, e).value.lk| == |s.lk| && |W.Do(y, s, e).value.procs| == |s.procs|
    requires TurnOf(s, done, e).Some? ==> Legal(y, t, TurnOf(s, done, e).value)
    requires After(t, TurnOf(s, done, e)).asleep[q].Some?
    ensures var s', ch := W.Do(y, s, e).value, After(t, TurnOf(s, done, e)).asleep[q].value;
            var l := y.lockOf(ch);
            && l < |s'.lk| && Between(s'.procs[q].pc, l, ch)
            && (W.Asleep(s'.procs[q], ch) || Roused(s', DoneAfter(s, done, e), l, ch, q))
  {
    hide Owns, W.SpinSets, W.ProcSets, W.Owing, W.OwedOk, W.PassedOk, LockRel;
    W.OthersStay(y, s, e);
    assert W.ProcOk(y, s, e.p, s.procs[e.p]) && W.ProcOk(y, s, q, s.procs[q]) && SleepRel(y, s, t, done, q);
    if t.asleep[q].Some? {
      var ch := t.asleep[q].value;
      if W.Asleep(s.procs[q], ch) {
        WokenBy(y, s, e, q, ch);
      } else {
        RousedKept(y, s, e, done, y.lockOf(ch), ch, q);
      }
    }
  }

  /** One step of the one machine is a turn of the other, or none. */
  lemma RelKept<S>(y: W.System<S>, s: W.State<S>, e: W.Event<S>, t: Coarse<S>, done: seq<set<nat>>)
    requires Going(y, s, e, t, done)
    ensures |done| == |s.lk| && e.p < |s.procs|
    ensures TurnOf(s, done, e).Some? ==> Legal(y, t, TurnOf(s, done, e).value)
    ensures Rel(y, W.Do(y, s, e).value, After(t, TurnOf(s, done, e)), DoneAfter(s, done, e))
  {
    hide W.Do, W.Inv, W.LocksOk, LockRel, SleepRel, TurnOf, DoneAfter, Legal, Take;
    InvLocks(y, s);
    W.OthersStay(y, s, e);
    W.LocksKept(y, s, e);
    TurnLegal(y, s, e, t, done);
    LegalFits(y, t, TurnOf(s, done, e));
    var s', t', done' := W.Do(y, s, e).value, After(t, TurnOf(s, done, e)), DoneAfter(s, done, e);
    forall l | 0 <= l < |s'.lk|
      ensures LockRel(y, s', t', done', l)
    {
      LockKept(y, s, e, t, done, l);
    }
    forall q | 0 <= q < |s'.procs|
      ensures SleepRel(y, s', t', done', q)
    {
      SleepKept(y, s, e, t, done, q);
    }
  }

  lemma LegalFits<S>(y: W.System<S>, t: Coarse<S>, e: Option<Turn<S>>)
    requires e.Some? ==> Legal(y, t, e.value)
    ensures e.Some? ==> e.value.p < |t.asleep| && (e.value.Turn? ==> e.value.l < |t.shared|)
  {
  }

  lemma InvLocks<S>(y: W.System<S>, s: W.State<S>)
    requires W.Inv(y, s)
    ensures W.LocksOk(s) && W.ProcsOk(y, s) && W.Shape(s)
  {
  }

  /** t leads to t' by these turns, all legal. */
  ghost predicate Leads<S>(y: W.System<S>, t: Coarse<S>, ts: seq<Turn<S>>, t': Coarse<S>)
    decreases |ts|
  {
    if ts == [] then t' == t else Legal(y, t, ts[0]) && Leads(y, Take(t, ts[0]), ts[1..], t')
  }

  /** In every run of turns, whoever sleeps waits for something that does not hold. */
  lemma {:induction false} TurnsWait<S>(y: W.System<S>, t: Coarse<S>, ts: seq<Turn<S>>, t': Coarse<S>)
    requires Waiting(y, t) && Leads(y, t, ts, t')
    ensures Waiting(y, t')
    decreases |ts|
  {
    hide Waiting, Legal, Take;
    if ts != [] {
      WaitingKept(y, t, ts[0]);
      LegalFits(y, t, Some(ts[0]));
      TurnsWait(y, Take(t, ts[0]), ts[1..], t');
    }
  }

  lemma {:induction false} RunLeads<S>(y: W.System<S>, s: W.State<S>, es: seq<W.Event<S>>, t: Coarse<S>,
                                       done: seq<set<nat>>)
    returns (ts: seq<Turn<S>>, t': Coarse<S>, done': seq<set<nat>>)
    requires W.Shape(s) && W.Inv(y, s) && Rel(y, s, t, done) && W.Run(y, s, es).Some?
    ensures Leads(y, t, ts, t') && Rel(y, W.Run(y, s, es).value, t', done')
    decreases |es|
  {
    hide W.Do, W.Inv, Rel, Legal, Take, TurnOf, DoneAfter;
    if es == [] {
      ts, t', done' := [], t, done;
    } else {
      RelKept(y, s, es[0], t, done);
      W.InvKept(y, s, es[0]);
      var turn := TurnOf(s, done, es[0]);
      LegalFits(y, t, turn);
      ts, t', done' := RunLeads(y, W.Do(y, s, es[0]).value, es[1..], After(t, turn), DoneAfter(s, done, es[0]));
      if turn.Some? {
        var rest := ts;
        ts := [turn.value] + rest;
        assert ts[1..] == rest;
      }
    }
  }

  /** Every run of sleep and wakeup is a run of turns: it leads to the same values under the
      locks that are free, and to the same sleepers on their channels. */
  lemma RunsAreTurns<S>(y: W.System<S>, nproc: nat, init: seq<S>, es: seq<W.Event<S>>)
    returns (ts: seq<Turn<S>>, t: Coarse<S>)
    requires W.Run(y, W.Boot(nproc, init), es).Some?
    ensures Leads(y, Coarse(init, seq(nproc, _ => None)), ts, t) && Waiting(y, t)
    ensures var s := W.Run(y, W.Boot(nproc, init), es).value;
            && |s.lk| == |s.shared| == |t.shared| == |init| && |s.procs| == |t.asleep| == nproc
            && (forall l :: 0 <= l < |init| && s.lk[l] == -1 ==> t.shared[l] == s.shared[l])
            && (forall q, ch: nat :: 0 <= q < nproc && y.lockOf(ch) < |init| && s.lk[y.lockOf(ch)] == -1 ==>
                  (t.asleep[q] == Some(ch) <==> W.Asleep(s.procs[q], ch)))
  {
    hide W.Run, W.Inv, Leads, W.LocksOk;
    var s0, done := W.Boot(nproc, init), seq(|init|, _ => {});
    BootRel(y, nproc, init);
    W.BootOk(y, nproc, init);
    W.RunKeeps(y, s0, es);
    var done';
    ts, t, done' := RunLeads(y, s0, es, Coarse(init, seq(nproc, _ => None)), done);
    TurnsWait(y, Coarse(init, seq(nproc, _ => None)), ts, t);
    var s := W.Run(y, s0, es).value;
    InvLocks(y, s);
    forall l | 0 <= l < |init| && s.lk[l] == -1
      ensures t.shared[l] == s.shared[l]
    {
      assert LockRel(y, s, t, done', l);
    }
    forall q, ch: nat | 0 <= q < nproc && y.lockOf(ch) < |init| && s.lk[y.lockOf(ch)] == -1
      ensures t.asleep[q] == Some(ch) <==> W.Asleep(s.procs[q], ch)
    {
      assert SleepRel(y, s, t, done', q);
    }
  }
}
