/** The steps of begin_op, end_op and commit are turns of sleep and wakeup under the log's
    lock. */
module LogTurns {
  import opened Common
  import opened GroupCommit
  import opened T = SleepTurns
  import W = SleepWakeup

  /** The fields of struct log that decide whether begin_op may go on. */
  datatype Fields = Fields(outstanding: nat, committing: bool, n: nat)

  function FieldsOf(s: State): (r: Fields) {
    Fields(s.outstanding, s.committing, |s.lh|)
  }

  /** begin_op sleeps on &log until no commit is on and the log has room. */
  function System(c: Config): (y: W.System<Fields>) {
    W.System(1, (ch: nat) => 0,
             (ch: nat, f: Fields) => !(f.committing || f.n + (f.outstanding + 1) * c.maxop > c.logsize))
  }

  function Channel(pc: Pc): (r: Option<nat>) {
    if pc == Asleep then Some(0) else None
  }

  function View(s: State): (t: Coarse<Fields>) {
    Coarse([FieldsOf(s)], seq(|s.pc|, p requires 0 <= p < |s.pc| => Channel(s.pc[p])))
  }

  /** The turn that an event is. */
  function TurnFor(c: Config, s: State, e: Event): (r: Turn<Fields>)
    requires Do(c, s, e).Next? && !e.Crash?
  {
    var s' := Do(c, s, e).s;
    var wakes := e.CommitDone? || (e.End? && s.outstanding > 1);
    Turn(e.p, 0, FieldsOf(s'), if wakes then {0} else {}, if e.Begin? && s'.pc[e.p] == Asleep then Some(0) else None)
  }

  /** Every step but a crash is a turn that wakes whom it must and sleeps only while it has to:
      the same fields under the lock, the same sleepers. */
  lemma LogTurn(c: Config, s: State, e: Event)
    requires Do(c, s, e).Next? && !e.Crash?
    ensures e.p < |s.pc| && View(Do(c, s, e).s) == Take(View(s), TurnFor(c, s, e))
    ensures Legal(System(c), View(s), TurnFor(c, s, e))
  {
  }
}
