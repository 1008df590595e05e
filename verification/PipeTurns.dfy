/** The steps of the pipe protocol are turns of sleep and wakeup under the pipe's lock. */
module PipeTurns {
  import opened Common
  import opened PipeRing
  import opened PipeProtocol
  import opened T = SleepTurns
  import W = SleepWakeup

  const READERS: nat := 0  // &pi->nread
  const WRITERS: nat := 1  // &pi->nwrite

  /** Readers sleep until there is something to read or nobody to write it, writers until there
      is room or nobody to read. */
  predicate Ends(ch: nat, p: Ring) {
    if ch == READERS then !(Empty(p) && p.writeopen) else !(Full(p) && p.readopen)
  }

  function System(): (y: W.System<Ring>) {
    W.System(2, (ch: nat) => 0, (ch: nat, p: Ring) => Ends(ch, p))
  }

  function Channel(x: Thread): (r: Option<nat>) {
    if x.Idle? || !x.asleep then None else if x.Reading? then Some(READERS) else Some(WRITERS)
  }

  /** The threads, and one more process that closes the ends. */
  function View(s: State): (t: Coarse<Ring>) {
    Coarse([s.ring], seq(|s.threads|, t requires 0 <= t < |s.threads| => Channel(s.threads[t])) + [None])
  }

  /** The turn that a step of the protocol is; starting a call is none. */
  function TurnFor(s: State, e: Event): (r: Option<Turn<Ring>>)
    requires |s.ring.data| == PIPESIZE && Do(s, e).Some?
  {
    var s' := Do(s, e).value;
    match e
    case StartRead(_, _, _) => None
    case StartWrite(_, _, _) => None
    case Rouse(t) => Some(Killed(t))
    case CloseRead => Some(Turn(|s.threads|, 0, s'.ring, {WRITERS}, None))
    case CloseWrite => Some(Turn(|s.threads|, 0, s'.ring, {READERS}, None))
    case Step(t, dies) =>
      var x := s.threads[t];
      if x.Reading? then
        if Empty(s.ring) && s.ring.writeopen then
          Some(Turn(t, 0, s'.ring, {}, if dies.Some? then None else Some(READERS)))
        else Some(Turn(t, 0, s'.ring, {WRITERS}, None))
      else
        var end := WriteLoop(s.ring, x.src, x.n, x.i, dies).2;
        Some(Turn(t, 0, s'.ring, if end == Fails then {} else {READERS}, if end == Sleeps then Some(WRITERS) else None))
  }

  /** A writer quits an empty pipe: killed after it has put bytes, it leaves without waking
      readers, whether there are any or not. */
  predicate Quits(s: State, e: Event) {
    e.Step? && Awake(s, e.t) && s.threads[e.t].Writing? && Empty(s.ring) && e.dies.Some? &&
    var x, k := s.threads[e.t], e.dies.value;
    s.ring.readopen && x.i < k < x.n && k <= |x.src| && k - x.i <= PIPESIZE
  }

  lemma ViewAt(s: State, t: nat)
    requires t < |s.threads|
    ensures |View(s).asleep| == |s.threads| + 1 && View(s).asleep[t] == Channel(s.threads[t])
  {
  }

  lemma ViewAfter(s: State, e: Event)
    requires |s.ring.data| == PIPESIZE && Do(s, e).Some?
    ensures var turn := TurnFor(s, e);
            && (turn.Some? ==> turn.value.p < |View(s).asleep| && (turn.value.Turn? ==> turn.value.l == 0))
            && View(Do(s, e).value) == After(View(s), turn)
  {
    hide WriteLoop, ReadLoop;
    var s', t' := Do(s, e).value, After(View(s), TurnFor(s, e));
    assert View(s').shared == t'.shared;
    assert |View(s').asleep| == |t'.asleep|;
    forall q | 0 <= q < |View(s').asleep|
      ensures View(s').asleep[q] == t'.asleep[q]
    {
      if q < |s.threads| {
        ViewAt(s, q);
        ViewAt(s', q);
      }
    }
  }

  lemma WriteLegal(s: State, t: nat, dies: Option<nat>)
    requires |s.ring.data| == PIPESIZE && Fifo(s) && Awake(s, t) && s.threads[t].Writing?
    ensures Legal(System(), View(s), TurnFor(s, Step(t, dies)).value) <==> !Quits(s, Step(t, dies))
  {
    hide Holds, WriteLoop;
    var x, s' := s.threads[t], WriteTurn(s, t, dies);
    ViewAt(s, t);
    WriteFifo(s.ring, s.put, |s.taken|, x.src, x.n, x.i, dies);
    WriteEnds(s.ring, s.put, |s.taken|, x.src, x.n, x.i, dies);
    CountersExact(s.ring, s.put, |s.taken|);
    CountersExact(s'.ring, s'.put, |s'.taken|);
    SizesHold(s'.ring, s'.put, |s'.taken|);
    var turn := TurnFor(s, Step(t, dies)).value;
    assert turn.v == s'.ring;
    assert forall ch: nat :: On(System(), ch, 0) <==> ch == READERS || ch == WRITERS;
    assert Ends(WRITERS, s'.ring) ==> Ends(WRITERS, s.ring);
    assert Legal(System(), View(s), turn) <==>
           (Ends(READERS, s'.ring) && !Ends(READERS, s.ring) ==> READERS in turn.roused);
  }

  lemma ReadLegal(s: State, t: nat, dies: Option<nat>)
    requires |s.ring.data| == PIPESIZE && Fifo(s) && Awake(s, t) && s.threads[t].Reading?
    ensures Legal(System(), View(s), TurnFor(s, Step(t, dies)).value)
  {
    hide Holds, ReadLoop;
    var x := s.threads[t];
    ViewAt(s, t);
    ReadFifo(s.ring, s.put, |s.taken|, x.n, x.room, []);
  }

  /** Every step is a turn: the same ring under the lock, the same sleepers. It is one that
      wakes whom it must and sleeps only while it has to, if and only if it is not a killed
      writer quitting an empty pipe. */
  lemma PipeTurn(s: State, e: Event)
    requires |s.ring.data| == PIPESIZE && Fifo(s) && Do(s, e).Some?
    ensures var turn := TurnFor(s, e);
            && (turn.Some? ==> turn.value.p < |View(s).asleep| && (turn.value.Turn? ==> turn.value.l == 0))
            && View(Do(s, e).value) == After(View(s), turn)
            && (turn.Some? ==> (Legal(System(), View(s), turn.value) <==> !Quits(s, e)))
  {
    hide Fifo, WriteTurn, ReadTurn, After, WriteLoop;
    ViewAfter(s, e);
    if e.Step? {
      if s.threads[e.t].Reading? {
        ReadLegal(s, e.t, e.dies);
      } else {
        WriteLegal(s, e.t, e.dies);
      }
    }
  }

  /** "Whoever sleeps has a reason to" is what all runs of turns keep. */
  lemma BlockingIsWaiting(s: State)
    ensures Blocking(s) <==> Waiting(System(), View(s))
  {
    forall t | 0 <= t < |s.threads|
      ensures View(s).asleep[t] == Channel(s.threads[t])
    {
      ViewAt(s, t);
    }
    if Blocking(s) {
      forall q | 0 <= q < |View(s).asleep| && View(s).asleep[q].Some?
        ensures !Ends(View(s).asleep[q].value, s.ring)
      {
        assert q < |s.threads|;
      }
    } else {
      var t :| 0 <= t < |s.threads| && Channel(s.threads[t]).Some? && Ends(Channel(s.threads[t]).value, s.ring);
      assert View(s).asleep[t].Some?;
    }
  }
}
