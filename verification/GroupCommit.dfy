/** begin_op, log_write and end_op of kernel/log.c as a protocol: any number of
    processes interleave their calls, commits happen on the side, and the machine
    may crash at any moment. Each event is one critical section under log.lock, or
    the moment at which commit's header write reaches the disk. */
module GroupCommit {

  /** LOGSIZE, MAXOPBLOCKS, the superblock's nlog, and the number of processes. */
  datatype Config = Config(logsize: nat, maxop: nat, size: nat, nproc: nat)

  /** Where a process is. A process woken from its sleep in begin_op is Outside
      again: it is about to try once more. */
  datatype Pc = Outside | Asleep | Running(op: nat, spent: set<int>) | InCommit

  /** One block write, tagged with its operation and its transaction. */
  datatype Rec = Rec(op: nat, txn: nat, b: int, v: int)

  datatype State = State(
    // the fields of struct log
    outstanding: nat, committing: bool, lh: seq<int>,
    pc: seq<Pc>,
    // the writes so far, oldest first; the first `durable` of them have reached the
    // disk with a committed transaction
    hist: seq<Rec>, durable: nat,
    // the current transaction, and which transaction each operation belongs to
    txn: nat, began: seq<nat>)

  datatype Event =
    | Begin(p: nat)
    | Write(p: nat, b: int, v: int)
    | End(p: nat)
    | CommitPoint(p: nat)
    | CommitDone(p: nat)
    | Crash

  datatype Outcome = Next(s: State) | Panic | Disabled

  function Boot(c: Config): (s: State) {
    State(0, false, [], seq(c.nproc, _ => Outside), [], 0, 0, [])
  }

  function Wake(x: Pc): (r: Pc) {
    if x == Asleep then Outside else x
  }

  function Woken(pc: seq<Pc>): (r: seq<Pc>)
    ensures |r| == |pc| && forall p :: 0 <= p < |pc| ==> r[p] == Wake(pc[p])
  {
    seq(|pc|, p requires 0 <= p < |pc| => Wake(pc[p]))
  }

  predicate NoRoom(c: Config, s: State) {
    |s.lh| + (s.outstanding + 1) * c.maxop > c.logsize
  }

  predicate Full(c: Config, s: State) {
    |s.lh| >= c.logsize || |s.lh| >= c.size - 1
  }

  predicate IsRunning(s: State, p: nat) {
    p < |s.pc| && s.pc[p].Running?
  }

  function Do(c: Config, s: State, e: Event): (o: Outcome) {
    match e
    case Begin(p) =>
      if !(p < |s.pc| && s.pc[p] == Outside) then Disabled
      else if s.committing || NoRoom(c, s) then Next(s.(pc := s.pc[p := Asleep]))
      else Next(s.(outstanding := s.outstanding + 1, pc := s.pc[p := Running(|s.began|, {})],
        began := s.began + [s.txn]))
    case Write(p, b, v) =>
      if !IsRunning(s, p) then Disabled
      else if Full(c, s) then Panic
      else if s.outstanding < 1 then Panic
      else Next(s.(lh := if b in s.lh then s.lh else s.lh + [b],
                   pc := s.pc[p := Running(s.pc[p].op, s.pc[p].spent + {b})],
                   hist := s.hist + [Rec(s.pc[p].op, s.txn, b, v)]))
    case End(p) =>
      if !IsRunning(s, p) then Disabled
      else if s.committing then Panic
      else if s.outstanding == 0 then Panic
      else if s.outstanding == 1 then Next(s.(outstanding := 0, committing := true, pc := s.pc[p := InCommit]))
      else Next(s.(outstanding := s.outstanding - 1, pc := Woken(s.pc[p := Outside])))
    case CommitPoint(p) =>
      if p < |s.pc| && s.pc[p] == InCommit then Next(s.(durable := |s.hist|)) else Disabled
    case CommitDone(p) =>
      if p < |s.pc| && s.pc[p] == InCommit && s.durable == |s.hist| then
        Next(s.(committing := false, lh := [], txn := s.txn + 1, pc := Woken(s.pc[p := Outside])))
      else Disabled
    case Crash =>
      if s.durable <= |s.hist| then
        Next(s.(outstanding := 0, committing := false, lh := [], pc := seq(|s.pc|, _ => Outside),
                hist := s.hist[..s.durable], txn := s.txn + 1))
      else Disabled
  }

  /** A whole run: the first event that is not possible, or panics, ends it. */
  function Run(c: Config, s: State, es: seq<Event>): (o: Outcome)
    decreases |es|
  {
    if es == [] then Next(s)
    else
      match Do(c, s, es[0])
      case Next(s') => Run(c, s', es[1..])
      case o => o
  }

  // Grouping of operations into transactions.

  /** How many processes run an operation. */
  ghost function Runners(pc: seq<Pc>): (r: nat) {
    if pc == [] then 0 else (if pc[|pc| - 1].Running? then 1 else 0) + Runners(pc[..|pc| - 1])
  }

  lemma {:induction false} RunnersSet(pc: seq<Pc>, p: nat, x: Pc)
    requires p < |pc|
    ensures Runners(pc[p := x]) + (if pc[p].Running? then 1 else 0) == Runners(pc) + (if x.Running? then 1 else 0)
  {
    var n := |pc| - 1;
    if p < n {
      RunnersSet(pc[..n], p, x);
      assert pc[p := x][..n] == pc[..n][p := x];
    } else {
      assert pc[p := x][..n] == pc[..n];
    }
  }

  lemma {:induction false} RunnersWoken(pc: seq<Pc>)
    ensures Runners(Woken(pc)) == Runners(pc)
  {
    if pc != [] {
      var n := |pc| - 1;
      RunnersWoken(pc[..n]);
      assert Woken(pc)[..n] == Woken(pc[..n]);
    }
  }

  lemma {:induction false} RunnersNone(pc: seq<Pc>)
    ensures Runners(pc) == 0 <==> forall p :: 0 <= p < |pc| ==> !pc[p].Running?
  {
    if pc != [] {
      RunnersNone(pc[..|pc| - 1]);
    }
  }

  /** Running operations are distinct, belong to the current transaction, and have
      put every block they wrote on the list. */
  ghost predicate OpsOk(s: State) {
    && (forall p :: 0 <= p < |s.pc| && s.pc[p].Running? ==>
          && s.pc[p].op < |s.began| && s.began[s.pc[p].op] == s.txn
          && forall b :: b in s.pc[p].spent ==> b in s.lh)
    && (forall p, q :: 0 <= p < q < |s.pc| && s.pc[p].Running? && s.pc[q].Running? ==> s.pc[p].op != s.pc[q].op)
  }

  ghost predicate LockOk(c: Config, s: State) {
    && s.outstanding == Runners(s.pc)
    && (s.committing ==> s.outstanding == 0 && exists p :: 0 <= p < |s.pc| && s.pc[p] == InCommit)
    && (!s.committing && s.outstanding == 0 ==> s.lh == [])
    && (forall p :: 0 <= p < |s.pc| && s.pc[p] == InCommit ==> s.committing)
    && (forall p, q :: 0 <= p < q < |s.pc| && s.pc[p] == InCommit ==> s.pc[q] != InCommit)
    && (forall p :: 0 <= p < |s.pc| && s.pc[p] == Asleep ==> s.committing || NoRoom(c, s))
  }

  /** Every write carries the transaction its operation began in; the writes of the
      current transaction are the ones that are not durable yet. */
  ghost predicate HistOk(s: State) {
    && s.durable <= |s.hist|
    && (forall i :: 0 <= i < |s.hist| ==> s.hist[i].op < |s.began| && s.began[s.hist[i].op] == s.hist[i].txn)
    && (forall i :: s.durable <= i < |s.hist| ==> s.hist[i].txn == s.txn && s.hist[i].b in s.lh)
    && (forall i :: 0 <= i < s.durable ==>
          s.hist[i].txn < s.txn || (s.hist[i].txn == s.txn && s.committing && s.durable == |s.hist|))
  }

  ghost predicate Inv(c: Config, s: State) {
    OpsOk(s) && LockOk(c, s) && HistOk(s)
  }

  lemma OpsKept(c: Config, s: State, e: Event)
    requires Inv(c, s) && Do(c, s, e).Next?
    ensures OpsOk(Do(c, s, e).s)
  {
    hide HistOk, NoRoom;
    if e.CommitDone? {
      RunnersNone(s.pc);
    }
  }

  lemma MoreOps(i: nat, j: nat, m: nat)
    requires i <= j
    ensures i * m <= j * m
  {
  }

  lemma StillNoRoom(c: Config, s: State, s': State)
    requires NoRoom(c, s) && |s'.lh| >= |s.lh| && s'.outstanding >= s.outstanding
    ensures NoRoom(c, s')
  {
    MoreOps(s.outstanding + 1, s'.outstanding + 1, c.maxop);
  }

  lemma RunnersKept(c: Config, s: State, e: Event)
    requires LockOk(c, s) && Do(c, s, e).Next?
    ensures Do(c, s, e).s.outstanding == Runners(Do(c, s, e).s.pc)
  {
    hide NoRoom;
    var s' := Do(c, s, e).s;
    if e.Crash? {
      RunnersNone(s'.pc);
    } else {
      var x := if e.Begin? || e.Write? then s'.pc[e.p] else if s'.committing then InCommit else Outside;
      RunnersSet(s.pc, e.p, x);
      RunnersWoken(s.pc[e.p := x]);
      if e.CommitPoint? { assert s'.pc == s.pc; }
    }
  }

  lemma SleepersKept(c: Config, s: State, e: Event)
    requires LockOk(c, s) && Do(c, s, e).Next?
    ensures var s' := Do(c, s, e).s;
            forall p :: 0 <= p < |s'.pc| && s'.pc[p] == Asleep ==> s'.committing || NoRoom(c, s')
  {
    hide NoRoom, Runners;
    var s' := Do(c, s, e).s;
    if NoRoom(c, s) && |s'.lh| >= |s.lh| && s'.outstanding >= s.outstanding {
      StillNoRoom(c, s, s');
    }
  }

  lemma CommitterKept(c: Config, s: State, e: Event)
    requires LockOk(c, s) && Do(c, s, e).Next?
    ensures var s' := Do(c, s, e).s;
            s'.committing ==> s'.outstanding == 0 && exists p :: 0 <= p < |s'.pc| && s'.pc[p] == InCommit
  {
    hide NoRoom, Runners;
    RunnersNone(s.pc);
    var s' := Do(c, s, e).s;
    if s'.committing {
      var p :| 0 <= p < |s.pc| && (if e.End? then p == e.p else s.pc[p] == InCommit);
      assert s'.pc[p] == InCommit;
    }
  }

  lemma LockKept(c: Config, s: State, e: Event)
    requires Inv(c, s) && Do(c, s, e).Next?
    ensures LockOk(c, Do(c, s, e).s)
  {
    hide OpsOk, HistOk, NoRoom, Runners;
    RunnersKept(c, s, e);
    CommitterKept(c, s, e);
    SleepersKept(c, s, e);
    RunnersNone(s.pc);
  }

  lemma HistKept(c: Config, s: State, e: Event)
    requires Inv(c, s) && Do(c, s, e).Next?
    ensures HistOk(Do(c, s, e).s)
  {
    hide NoRoom;
    RunnersNone(s.pc);
  }

  lemma InvKept(c: Config, s: State, e: Event)
    requires Inv(c, s) && Do(c, s, e).Next?
    ensures Inv(c, Do(c, s, e).s)
  {
    hide OpsOk, LockOk, HistOk;
    OpsKept(c, s, e);
    LockKept(c, s, e);
    HistKept(c, s, e);
  }

  lemma BootOk(c: Config)
    ensures Inv(c, Boot(c))
  {
    RunnersNone(Boot(c).pc);
  }

  /** Every reachable state keeps the invariant. */
  lemma {:induction false} RunKeeps(c: Config, s: State, es: seq<Event>)
    requires Inv(c, s) && Run(c, s, es).Next?
    ensures Inv(c, Run(c, s, es).s)
    decreases |es|
  {
    hide Inv;
    if es != [] {
      InvKept(c, s, es[0]);
      RunKeeps(c, Do(c, s, es[0]).s, es[1..]);
    }
  }

  /** In every run, no operation's writes are split: not between two transactions, and
      not by the boundary of what is durable. */
  lemma NeverSplit(c: Config, es: seq<Event>, i: nat, j: nat)
    requires Run(c, Boot(c), es).Next?
    requires var s := Run(c, Boot(c), es).s; i < j < |s.hist| && s.hist[i].op == s.hist[j].op
    ensures var s := Run(c, Boot(c), es).s; s.hist[i].txn == s.hist[j].txn && (i < s.durable <==> j < s.durable)
  {
    BootOk(c);
    RunKeeps(c, Boot(c), es);
  }

  /** In every run, commit is under way only while no operation is, and a process
      sleeps in begin_op only while there is something to wait for: the commit, or
      an operation whose end will free log space. */
  lemma CommitsAlone(c: Config, es: seq<Event>)
    requires Run(c, Boot(c), es).Next? && c.maxop <= c.logsize
    ensures var s := Run(c, Boot(c), es).s;
            && (s.committing ==> forall p :: 0 <= p < |s.pc| ==> !s.pc[p].Running?)
            && (forall p :: 0 <= p < |s.pc| && s.pc[p] == Asleep ==>
                  s.committing || (NoRoom(c, s) && exists q :: 0 <= q < |s.pc| && s.pc[q].Running?))
  {
    BootOk(c);
    RunKeeps(c, Boot(c), es);
    RunnersNone(Run(c, Boot(c), es).s.pc);
  }

  /** h is a durable prefix of the history whose operations are all over. */
  ghost predicate Sealed(s: State, h: seq<Rec>) {
    && |h| <= s.durable <= |s.hist| && s.hist[..|h|] == h
    && (forall i :: 0 <= i < |h| ==> h[i].op < |s.began|)
    && (forall i, p :: 0 <= i < |h| && 0 <= p < |s.pc| && s.pc[p].Running? ==> s.pc[p].op != h[i].op)
    && (forall i, j :: 0 <= i < |h| <= j < |s.hist| ==> s.hist[j].op != h[i].op)
  }

  lemma SealedKept(c: Config, s: State, e: Event, h: seq<Rec>)
    requires Sealed(s, h) && Do(c, s, e).Next?
    ensures Sealed(Do(c, s, e).s, h)
  {
    hide NoRoom;
    var s' := Do(c, s, e).s;
    assert s'.hist[..|h|] == s.hist[..|h|];
  }

  lemma {:induction false} SealedForever(c: Config, s: State, es: seq<Event>, h: seq<Rec>)
    requires Sealed(s, h) && Run(c, s, es).Next?
    ensures Sealed(Run(c, s, es).s, h)
    decreases |es|
  {
    if es != [] {
      SealedKept(c, s, es[0], h);
      SealedForever(c, Do(c, s, es[0]).s, es[1..], h);
    }
  }

  /** All or nothing: what is durable at any moment of any run stays, through every
      later commit and crash, and consists of whole operations: no later write
      belongs to any of them. */
  lemma AllOrNothing(c: Config, es: seq<Event>, more: seq<Event>)
    requires Run(c, Boot(c), es).Next? && Run(c, Run(c, Boot(c), es).s, more).Next?
    ensures var s, t := Run(c, Boot(c), es).s, Run(c, Run(c, Boot(c), es).s, more).s;
            && s.durable <= |s.hist| && s.durable <= t.durable <= |t.hist| && t.hist[..s.durable] == s.hist[..s.durable]
            && forall i, j :: 0 <= i < s.durable <= j < |t.hist| ==> t.hist[j].op != s.hist[i].op
  {
    var s := Run(c, Boot(c), es).s;
    BootOk(c);
    RunKeeps(c, Boot(c), es);
    RunnersNone(s.pc);
    SealedForever(c, s, more, s.hist[..s.durable]);
  }
}
