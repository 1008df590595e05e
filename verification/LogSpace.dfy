/** Reservation of log space in kernel/log.c: begin_op admits an operation only if
    the log could hold its full budget, so log_write cannot overflow it. */
module LogSpace {
  import opened Common
  import opened GroupCommit

  /** What a process may still log. */
  ghost function Left(c: Config, x: Pc): (r: nat) {
    if x.Running? && |x.spent| < c.maxop then c.maxop - |x.spent| else 0
  }

  /** The unspent budgets of all running operations together. */
  ghost function Unspent(c: Config, pc: seq<Pc>): (r: nat) {
    if pc == [] then 0 else Left(c, pc[|pc| - 1]) + Unspent(c, pc[..|pc| - 1])
  }

  lemma {:induction false} UnspentSet(c: Config, pc: seq<Pc>, p: nat, x: Pc)
    requires p < |pc|
    ensures Unspent(c, pc[p := x]) + Left(c, pc[p]) == Unspent(c, pc) + Left(c, x)
  {
    var n := |pc| - 1;
    if p < n {
      UnspentSet(c, pc[..n], p, x);
      assert pc[p := x][..n] == pc[..n][p := x];
    } else {
      assert pc[p := x][..n] == pc[..n];
    }
  }

  lemma {:induction false} UnspentWoken(c: Config, pc: seq<Pc>)
    ensures Unspent(c, Woken(pc)) == Unspent(c, pc)
  {
    if pc != [] {
      var n := |pc| - 1;
      UnspentWoken(c, pc[..n]);
      assert Woken(pc)[..n] == Woken(pc[..n]);
    }
  }

  /** The unspent budgets of k running operations are at most k budgets. */
  lemma {:induction false} UnspentBound(c: Config, pc: seq<Pc>)
    ensures Unspent(c, pc) <= Runners(pc) * c.maxop
  {
    if pc != [] {
      var q := pc[..|pc| - 1];
      UnspentBound(c, q);
      assert (Runners(q) + 1) * c.maxop == Runners(q) * c.maxop + c.maxop;
    }
  }

  lemma {:induction false} UnspentIncludes(c: Config, pc: seq<Pc>, p: nat)
    requires p < |pc|
    ensures Left(c, pc[p]) <= Unspent(c, pc)
  {
    if p < |pc| - 1 {
      UnspentIncludes(c, pc[..|pc| - 1], p);
    }
  }

  /** The most that operations within their budgets can log in one transaction: all that
      LOGSIZE allows when two of them fit at once, else what one may log. */
  function Most(c: Config): (r: nat)
    ensures r <= c.logsize
  {
    if c.nproc == 0 || c.logsize < c.maxop then 0
    else if c.nproc == 1 || c.logsize < 2 * c.maxop then c.maxop
    else if c.maxop == 0 then 0
    else c.logsize
  }

  /** The reservation: log space covers what is logged and what may still be. */
  ghost predicate Reserved(c: Config, s: State) {
    |s.pc| == c.nproc && |s.lh| + Unspent(c, s.pc) <= Most(c)
  }

  /** What counts as keeping to the budget of MAXOPBLOCKS blocks: every log_write comes while
      fewer have been logged, or, if again, an operation may also log a block of its own again
      at any time, so that it logs at most that many distinct blocks. */
  ghost predicate WithinBudget(c: Config, again: bool, s: State, e: Event) {
    e.Write? && IsRunning(s, e.p) ==> |s.pc[e.p].spent| < c.maxop || (again && e.b in s.pc[e.p].spent)
  }

  ghost predicate BudgetedRun(c: Config, again: bool, s: State, es: seq<Event>)
    decreases |es|
  {
    es != [] ==>
      && WithinBudget(c, again, s, es[0])
      && (Do(c, s, es[0]).Next? ==> BudgetedRun(c, again, Do(c, s, es[0]).s, es[1..]))
  }

  /** The log is large enough for operations within their budgets. Where an operation may log
      its own blocks again, it must also not be full when they have logged the most they can:
      log_write panics before it looks whether the block is in the log. */
  predicate Ample(c: Config, again: bool) {
    Most(c) == 0 || (c.size > Most(c) && (again ==> c.logsize > Most(c) && c.size > Most(c) + 1))
  }

  /** A block that is new to the log is new to its operation. */
  lemma WriteSpends(c: Config, s: State, e: Event)
    requires OpsOk(s) && e.Write? && Do(c, s, e).Next? && WithinBudget(c, true, s, e)
    ensures var s' := Do(c, s, e).s;
            |s'.lh| + Left(c, s'.pc[e.p]) <= |s.lh| + Left(c, s.pc[e.p])
  {
    var spent := s.pc[e.p].spent;
    if e.b in spent {
      assert spent + {e.b} == spent;
    } else {
      assert |spent + {e.b}| == |spent| + 1;
    }
  }

  /** Where only one operation fits, it finds nothing logged. */
  lemma BeginAlone(c: Config, s: State, p: nat)
    requires LockOk(c, s) && Reserved(c, s) && Most(c) < c.logsize
    requires Do(c, s, Begin(p)).Next? && Do(c, s, Begin(p)).s.pc[p].Running?
    ensures s.lh == [] && Unspent(c, s.pc) == 0 && c.maxop <= Most(c)
  {
    hide Unspent;
    UnspentBound(c, s.pc);
    if s.outstanding >= 1 {
      MoreOps(2, s.outstanding + 1, c.maxop);
      RunnersNone(s.pc);
      MoreOps(0, s.outstanding, c.maxop);
    }
  }

  lemma BeginReserves(c: Config, s: State, p: nat)
    requires LockOk(c, s) && Reserved(c, s) && Do(c, s, Begin(p)).Next?
    ensures Reserved(c, Do(c, s, Begin(p)).s)
  {
    hide Unspent, Runners;
    var s' := Do(c, s, Begin(p)).s;
    UnspentSet(c, s.pc, p, s'.pc[p]);
    UnspentBound(c, s.pc);
    assert (s.outstanding + 1) * c.maxop == s.outstanding * c.maxop + c.maxop;
    if Most(c) < c.logsize && s'.pc[p].Running? {
      BeginAlone(c, s, p);
    }
  }

  lemma EndReserves(c: Config, s: State, p: nat)
    requires Reserved(c, s) && Do(c, s, End(p)).Next?
    ensures Reserved(c, Do(c, s, End(p)).s)
  {
    hide Unspent, Runners, NoRoom;
    UnspentSet(c, s.pc, p, InCommit);
    UnspentSet(c, s.pc, p, Outside);
    UnspentWoken(c, s.pc[p := Outside]);
  }

  lemma ReservedKept(c: Config, s: State, e: Event)
    requires Inv(c, s) && Reserved(c, s) && WithinBudget(c, true, s, e) && Do(c, s, e).Next?
    ensures Reserved(c, Do(c, s, e).s)
  {
    hide OpsOk, HistOk, LockOk, NoRoom, Unspent, Runners;
    var s' := Do(c, s, e).s;
    match e
    case Begin(p) =>
      BeginReserves(c, s, p);
    case Write(p, b, v) =>
      UnspentSet(c, s.pc, p, s'.pc[p]);
      WriteSpends(c, s, e);
    case End(p) =>
      EndReserves(c, s, p);
    case CommitPoint(p) =>
    case CommitDone(p) =>
      UnspentSet(c, s.pc, p, Outside);
      UnspentWoken(c, s.pc[p := Outside]);
    case Crash =>
      RunnersNone(s'.pc);
      UnspentBound(c, s'.pc);
  }

  lemma NoPanicNow(c: Config, again: bool, s: State, e: Event)
    requires Inv(c, s) && Reserved(c, s) && WithinBudget(c, again, s, e) && Ample(c, again)
    ensures Do(c, s, e) != Panic
  {
    RunnersNone(s.pc);
    if e.Write? && IsRunning(s, e.p) {
      UnspentIncludes(c, s.pc, e.p);
      assert e.b in s.pc[e.p].spent ==> |s.lh| > 0;
    }
  }

  /** In every run in which operations keep their budgets the log's space covers the
      unspent budgets, and with a log that is large enough the run does not panic. */
  lemma {:induction false} RunReserves(c: Config, again: bool, s: State, es: seq<Event>)
    requires Inv(c, s) && Reserved(c, s) && BudgetedRun(c, again, s, es)
    ensures Run(c, s, es).Next? ==> Reserved(c, Run(c, s, es).s)
    ensures Ample(c, again) ==> Run(c, s, es) != Panic
    decreases |es|
  {
    hide Inv, Reserved, Ample;
    if es != [] {
      if Ample(c, again) {
        NoPanicNow(c, again, s, es[0]);
      }
      if Do(c, s, es[0]).Next? {
        InvKept(c, s, es[0]);
        ReservedKept(c, s, es[0]);
        RunReserves(c, again, Do(c, s, es[0]).s, es[1..]);
      }
    }
  }

  lemma BootReserved(c: Config)
    ensures Reserved(c, Boot(c))
  {
    RunnersNone(Boot(c).pc);
    UnspentBound(c, Boot(c).pc);
  }

  // The bound is exact.

  lemma {:induction false} RunAppend(c: Config, again: bool, s: State, es: seq<Event>, e: Event)
    requires BudgetedRun(c, again, s, es) && Run(c, s, es).Next? && WithinBudget(c, again, Run(c, s, es).s, e)
    ensures BudgetedRun(c, again, s, es + [e]) && Run(c, s, es + [e]) == Do(c, Run(c, s, es).s, e)
    decreases |es|
  {
    if es == [] {
      assert es + [e] == [e] && [e][1..] == [];
    } else {
      RunAppend(c, again, Do(c, s, es[0]).s, es[1..], e);
      assert (es + [e])[1..] == es[1..] + [e];
    }
  }

  /** es is a budgeted run in which processes 0..k-1 are running, have logged i blocks
      numbered below i, and process q is the last one that has logged anything: r blocks. */
  ghost predicate Filling(c: Config, es: seq<Event>, k: nat, i: nat, q: nat, r: nat) {
    && BudgetedRun(c, false, Boot(c), es) && Run(c, Boot(c), es).Next?
    && var s := Run(c, Boot(c), es).s;
       && |s.pc| == c.nproc && s.outstanding == k <= c.nproc && !s.committing && |s.lh| == i
       && (forall j :: 0 <= j < |s.lh| ==> s.lh[j] < i)
       && (forall p :: 0 <= p < k ==> s.pc[p].Running?)
       && (forall p :: k <= p < c.nproc ==> s.pc[p] == Outside)
       && (forall p :: q < p < k ==> s.pc[p].spent == {})
       && (q < k ==> |s.pc[q].spent| == r && forall b :: b in s.pc[q].spent ==> b < i)
  }

  /** k operations can be admitted at once while their budgets fit. */
  lemma {:induction false} BeginMany(c: Config, k: nat) returns (es: seq<Event>)
    requires k <= c.nproc && k * c.maxop <= c.logsize
    ensures Filling(c, es, k, 0, 0, 0)
  {
    if k == 0 {
      es := [];
    } else {
      MoreOps(k - 1, k, c.maxop);
      var es0 := BeginMany(c, k - 1);
      RunAppend(c, false, Boot(c), es0, Begin(k - 1));
      es := es0 + [Begin(k - 1)];
    }
  }

  /** While process 0 has an operation open, process 1 can log i blocks in operations of one
      block each, as long as both still fit; then both have their whole budgets. */
  lemma {:induction false} TopUp(c: Config, k: nat, i: nat) returns (es: seq<Event>)
    requires 0 < k <= c.nproc && k * c.maxop + i <= c.logsize && 0 < c.maxop && i < c.size && (k == 2 || i == 0)
    ensures Filling(c, es, k, i, 0, 0)
  {
    if i == 0 {
      es := BeginMany(c, k);
    } else {
      var es0 := TopUp(c, k, i - 1);
      es := OneBlockOp(c, es0, i - 1);
    }
  }

  lemma OneBlockOp(c: Config, es: seq<Event>, i: nat) returns (es': seq<Event>)
    requires Filling(c, es, 2, i, 0, 0) && 2 * c.maxop + i + 1 <= c.logsize && 0 < c.maxop && i + 1 < c.size
    ensures Filling(c, es', 2, i + 1, 0, 0)
  {
    var s := Run(c, Boot(c), es).s;
    assert i !in s.lh;
    RunAppend(c, false, Boot(c), es, Write(1, i, 0));
    var es1 := es + [Write(1, i, 0)];
    RunAppend(c, false, Boot(c), es1, End(1));
    var es2 := es1 + [End(1)];
    var s2 := Run(c, Boot(c), es2).s;
    assert s2.lh == s.lh + [i] && s2.outstanding == 1 && s2.pc[1] == Outside && s2.pc[0] == s.pc[0];
    assert forall p :: 2 <= p < c.nproc ==> s2.pc[p] == Outside;
    RunAppend(c, false, Boot(c), es2, Begin(1));
    es' := es2 + [Begin(1)];
  }

  /** From i blocks on, each of the processes 0..q-1 spends its whole budget, then process q
      spends r. */
  lemma {:induction false} FillTo(c: Config, k: nat, i: nat, q: nat, r: nat) returns (es: seq<Event>)
    requires 0 < k <= c.nproc && k * c.maxop + i <= c.logsize && (k == 2 || i == 0) && q < k && r <= c.maxop
    requires 0 < c.maxop
    requires i + q * c.maxop + r < c.size && i + q * c.maxop + r <= c.logsize
    ensures Filling(c, es, k, i + q * c.maxop + r, q, r)
    decreases q, r
  {
    if r > 0 {
      var es0 := FillTo(c, k, i, q, r - 1);
      es := FillOne(c, es0, k, i + q * c.maxop + r - 1, q, r - 1);
    } else if q > 0 {
      assert q * c.maxop == (q - 1) * c.maxop + c.maxop;
      es := FillTo(c, k, i, q - 1, c.maxop);
    } else {
      es := TopUp(c, k, i);
    }
  }

  lemma FillOne(c: Config, es: seq<Event>, k: nat, i: nat, q: nat, r: nat) returns (es': seq<Event>)
    requires Filling(c, es, k, i, q, r) && q < k && r < c.maxop && i < c.logsize && i < c.size - 1
    ensures Filling(c, es', k, i + 1, q, r + 1)
  {
    var s := Run(c, Boot(c), es).s;
    var e := Write(q, i, 0);
    RunAppend(c, false, Boot(c), es, e);
    es' := es + [e];
    assert i !in s.lh;
    assert |s.pc[q].spent + {i}| == r + 1;
  }

  lemma SmallLogPanics(c: Config) returns (es: seq<Event>)
    requires 0 < Most(c) && c.size <= Most(c)
    ensures BudgetedRun(c, false, Boot(c), es) && Run(c, Boot(c), es) == Panic
  {
    var k: nat := if Most(c) == c.maxop then 1 else 2;
    if c.size == 0 {
      es := BeginMany(c, 1);
      RunAppend(c, false, Boot(c), es, Write(0, 0, 0));
      es := es + [Write(0, 0, 0)];
    } else {
      var m := c.size - 1;
      var i: nat := if k == 1 then 0 else if m < c.logsize - 2 * c.maxop then m else c.logsize - 2 * c.maxop;
      var q, r := DivMod(m - i, c.maxop);
      if q >= k {
        MoreOps(k, q, c.maxop);
      }
      es := FillTo(c, k, i, q, r);
      RunAppend(c, false, Boot(c), es, Write(q, m, 0));
      es := es + [Write(q, m, 0)];
    }
  }

  lemma DivMod(m: nat, k: nat) returns (q: nat, r: nat)
    requires k > 0
    ensures m == q * k + r && r < k
  {
    q, r := m / k, m % k;
  }

  lemma {:induction false} Stricter(c: Config, s: State, es: seq<Event>)
    requires BudgetedRun(c, false, s, es)
    ensures BudgetedRun(c, true, s, es)
    decreases |es|
  {
    if es != [] && Do(c, s, es[0]).Next? {
      Stricter(c, Do(c, s, es[0]).s, es[1..]);
    }
  }

  lemma NoneSpent(spent: set<int>)
    ensures (forall b :: b !in spent) ==> |spent| == 0
  {
    if forall b :: b !in spent {
      assert spent == {};
    }
  }

  /** When operations have logged the most they can, one that logs its own block again finds
      the log full. */
  lemma AgainPanics(c: Config) returns (es: seq<Event>)
    requires 0 < Most(c) < c.size && (c.logsize == Most(c) || c.size == Most(c) + 1)
    ensures BudgetedRun(c, true, Boot(c), es) && Run(c, Boot(c), es) == Panic
  {
    var k: nat := if Most(c) == c.maxop then 1 else 2;
    es := FillTo(c, k, Most(c) - k * c.maxop, k - 1, c.maxop);
    var s := Run(c, Boot(c), es).s;
    var spent := s.pc[k - 1].spent;
    NoneSpent(spent);
    var b :| b in spent;
    Stricter(c, Boot(c), es);
    RunAppend(c, true, Boot(c), es, Write(k - 1, b, 0));
    es := es + [Write(k - 1, b, 0)];
  }

  /** Whether a run within budget can panic: if every log_write comes with budget left, exactly
      when the log is no larger than the most that can be logged; if own blocks may be logged
      again, also when that fills it. */
  lemma PanicExactly(c: Config, again: bool)
    ensures (exists es :: BudgetedRun(c, again, Boot(c), es) && Run(c, Boot(c), es) == Panic) <==>
            0 < Most(c) && (c.size <= Most(c) || (again && (c.logsize == Most(c) || c.size == Most(c) + 1)))
  {
    hide Run, Inv, Reserved, Most;
    if Ample(c, again) {
      BootOk(c);
      BootReserved(c);
      forall es | BudgetedRun(c, again, Boot(c), es)
        ensures Run(c, Boot(c), es) != Panic
      {
        RunReserves(c, again, Boot(c), es);
      }
    } else {
      var es;
      if c.size <= Most(c) {
        es := SmallLogPanics(c);
        if again {
          Stricter(c, Boot(c), es);
        }
      } else {
        es := AgainPanics(c);
      }
      assert BudgetedRun(c, again, Boot(c), es) && Run(c, Boot(c), es) == Panic;
    }
  }

  /** The shipped file system has nlog = LOGSIZE, so three operations can make log_write panic
      although each log_write comes with budget left. With a larger log they cannot, unless an
      operation logs a block again: then no log is large enough. */
  lemma ShippedLogPanics(size: nat, again: bool)
    ensures var c := Config(30, 10, size, 64);
            (exists es :: BudgetedRun(c, again, Boot(c), es) && Run(c, Boot(c), es) == Panic) <==> size <= 30 || again
  {
    PanicExactly(Config(30, 10, size, 64), again);
  }

  // Operations that log one block last, as writei does with the inode's.

  /** The blocks that process p logs in es. */
  function Logs(es: seq<Event>, p: nat): (r: seq<int>) {
    if es == [] then []
    else Logs(es[..|es| - 1], p) + LogOf(es[|es| - 1], p)
  }

  function LogOf(e: Event, p: nat): (r: seq<int>) {
    if e.Write? && e.p == p then [e.b] else []
  }

  function Blocks(bs: seq<int>): (r: set<int>) {
    set b | b in bs
  }

  /** Process p stays in its operation. */
  predicate Stays(es: seq<Event>, p: nat) {
    forall e :: e in es ==> !e.Crash? && e != End(p)
  }

  lemma {:induction false} RunPrefix(c: Config, s: State, es: seq<Event>, e: Event)
    requires Run(c, s, es + [e]).Next?
    ensures Run(c, s, es).Next? && Run(c, s, es + [e]) == Do(c, Run(c, s, es).s, e)
    decreases |es|
  {
    hide Do;
    if es == [] {
      assert es + [e] == [e] && [e][1..] == [];
    } else {
      assert (es + [e])[0] == es[0] && (es + [e])[1..] == es[1..] + [e];
      RunPrefix(c, Do(c, s, es[0]).s, es[1..], e);
    }
  }

  lemma StepSpent(c: Config, s: State, e: Event, p: nat)
    requires IsRunning(s, p) && !e.Crash? && e != End(p) && Do(c, s, e).Next?
    ensures IsRunning(Do(c, s, e).s, p)
    ensures Do(c, s, e).s.pc[p].spent == s.pc[p].spent + Blocks(LogOf(e, p))
  {
  }

  /** Whatever the others do meanwhile, an operation has spent what it has logged. */
  lemma {:induction false} SpentIsLogged(c: Config, s: State, es: seq<Event>, p: nat)
    requires IsRunning(s, p) && Stays(es, p) && Run(c, s, es).Next?
    ensures IsRunning(Run(c, s, es).s, p)
    ensures Run(c, s, es).s.pc[p].spent == s.pc[p].spent + Blocks(Logs(es, p))
    decreases |es|
  {
    hide Do, Run;
    if es == [] {
      RunNone(c, s);
    } else {
      var es0, e := es[..|es| - 1], es[|es| - 1];
      assert es == es0 + [e];
      RunPrefix(c, s, es0, e);
      SpentIsLogged(c, s, es0, p);
      StepSpent(c, Run(c, s, es0).s, e, p);
    }
  }

  lemma RunNone(c: Config, s: State)
    ensures Run(c, s, []) == Next(s)
  {
  }

  lemma {:induction false} LogsPrefix(es: seq<Event>, p: nat, k: nat)
    requires k < |es| && es[k].Write? && es[k].p == p
    ensures Logs(es[..k], p) + [es[k].b] <= Logs(es, p)
    decreases |es|
  {
    var n := |es| - 1;
    if k < n {
      LogsPrefix(es[..n], p, k);
      assert es[..n][..k] == es[..k];
    }
  }

  /** An operation that logs fewer than maxop blocks, those in before, and then one more, makes
      each log_write with budget left, whatever the others do meanwhile. */
  lemma LastBlockFits(c: Config, s: State, es: seq<Event>, p: nat, before: set<int>, k: nat)
    requires IsRunning(s, p) && s.pc[p].spent == {} && Stays(es, p)
    requires var bs := Logs(es, p); bs != [] && Blocks(bs[..|bs| - 1]) <= before && |before| < c.maxop
    requires k < |es| && es[k].Write? && es[k].p == p && Run(c, s, es[..k]).Next?
    ensures WithinBudget(c, false, Run(c, s, es[..k]).s, es[k])
  {
    hide Run, Do;
    var bs := Logs(es, p);
    LogsPrefix(es, p, k);
    SpentIsLogged(c, s, es[..k], p);
    var some := Logs(es[..k], p);
    assert some == bs[..|some|];
    SubsetSize(Blocks(some), before);
  }
}
