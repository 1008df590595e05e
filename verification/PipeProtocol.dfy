/** Readers, writers and closers of one pipe. A step is what a process does from taking
    the pipe's lock to letting go of it, so between steps the lock is free. */
module PipeProtocol {
  import opened Common
  import opened PipeRing

  datatype Thread =
    | Idle
    | Reading(n: int, room: nat, asleep: bool)
    | Writing(src: seq<byte>, n: int, i: nat, asleep: bool)

  /** put and taken are history: the bytes put into the ring, and those taken out of it. */
  datatype State = State(ring: Ring, threads: seq<Thread>, put: seq<byte>, taken: seq<byte>)

  datatype Event =
    | StartRead(t: nat, n: int, room: nat)
    | StartWrite(t: nat, src: seq<byte>, n: int)
    | Step(t: nat, dies: Option<nat>)   // dies: the process is found killed from that index on
    | CloseRead
    | CloseWrite
    | Rouse(t: nat)                     // kill makes a sleeping process runnable

  function Boot(junk: seq<byte>, nthread: nat): (s: State)
    requires |junk| == PIPESIZE
  {
    State(Ring(junk, 0, 0, true, true), seq(nthread, _ => Idle), [], [])
  }

  function Roused(x: Thread): (r: Thread) {
    match x
    case Idle => Idle
    case Reading(n, room, _) => Reading(n, room, false)
    case Writing(src, n, i, _) => Writing(src, n, i, false)
  }

  function WakeReaders(ts: seq<Thread>): (r: seq<Thread>)
    ensures |r| == |ts|
  {
    seq(|ts|, t requires 0 <= t < |ts| => if ts[t].Reading? then Roused(ts[t]) else ts[t])
  }

  function WakeWriters(ts: seq<Thread>): (r: seq<Thread>)
    ensures |r| == |ts|
  {
    seq(|ts|, t requires 0 <= t < |ts| => if ts[t].Writing? then Roused(ts[t]) else ts[t])
  }

  predicate Awake(s: State, t: nat) {
    t < |s.threads| && !s.threads[t].Idle? && !s.threads[t].asleep
  }

  /** A turn of pipewrite. */
  function WriteTurn(s: State, t: nat, dies: Option<nat>): (r: State)
    requires |s.ring.data| == PIPESIZE && Awake(s, t) && s.threads[t].Writing?
  {
    var x := s.threads[t];
    var (p', i', end) := WriteLoop(s.ring, x.src, x.n, x.i, dies);
    var put' := if x.i < i' <= |x.src| then s.put + x.src[x.i..i'] else s.put;
    var ts := if end == Fails then s.threads else WakeReaders(s.threads);
    State(p', ts[t := if end == Sleeps then Writing(x.src, x.n, i', true) else Idle], put', s.taken)
  }

  /** A turn of piperead. */
  function ReadTurn(s: State, t: nat, dies: Option<nat>): (r: State)
    requires |s.ring.data| == PIPESIZE && Awake(s, t) && s.threads[t].Reading?
  {
    var x := s.threads[t];
    if Empty(s.ring) && s.ring.writeopen then
      s.(threads := s.threads[t := if dies.Some? then Idle else Reading(x.n, x.room, true)])
    else
      var (p', out, lost) := ReadLoop(s.ring, x.n, x.room, []);
      State(p', WakeWriters(s.threads)[t := Idle], s.put, s.taken + out + lost)
  }

  /** One step; an end is closed only when no process is using it, which the reference
      counts of the open files see to. */
  function Do(s: State, e: Event): (r: Option<State>)
    requires |s.ring.data| == PIPESIZE
  {
    match e
    case StartRead(t, n, room) =>
      if t < |s.threads| && s.threads[t].Idle? && s.ring.readopen then
        Some(s.(threads := s.threads[t := Reading(n, room, false)]))
      else None
    case StartWrite(t, src, n) =>
      if t < |s.threads| && s.threads[t].Idle? && s.ring.writeopen then
        Some(s.(threads := s.threads[t := Writing(src, n, 0, false)]))
      else None
    case Step(t, dies) =>
      if !Awake(s, t) then None
      else Some(if s.threads[t].Reading? then ReadTurn(s, t, dies) else WriteTurn(s, t, dies))
    case CloseRead =>
      if s.ring.readopen && forall t :: 0 <= t < |s.threads| ==> !s.threads[t].Reading? then
        Some(s.(ring := s.ring.(readopen := false), threads := WakeWriters(s.threads)))
      else None
    case CloseWrite =>
      if s.ring.writeopen && forall t :: 0 <= t < |s.threads| ==> !s.threads[t].Writing? then
        Some(s.(ring := s.ring.(writeopen := false), threads := WakeReaders(s.threads)))
      else None
    case Rouse(t) =>
      if t < |s.threads| && !s.threads[t].Idle? then
        Some(s.(threads := s.threads[t := Roused(s.threads[t])]))
      else None
  }

  /** What the ring holds, and that nobody uses an end that is closed. */
  ghost predicate Fifo(s: State) {
    && Holds(s.ring, s.put, |s.taken|) && s.taken <= s.put
    && (forall t :: 0 <= t < |s.threads| && s.threads[t].Reading? ==> s.ring.readopen)
    && (forall t :: 0 <= t < |s.threads| && s.threads[t].Writing? ==> s.ring.writeopen)
  }

  /** Whoever sleeps has a reason to. */
  ghost predicate Blocking(s: State) {
    && (forall t :: 0 <= t < |s.threads| && s.threads[t].Reading? && s.threads[t].asleep ==>
          Empty(s.ring) && s.ring.writeopen)
    && (forall t :: 0 <= t < |s.threads| && s.threads[t].Writing? && s.threads[t].asleep ==>
          Full(s.ring) && s.ring.readopen)
  }

  lemma HoldsFlags(p: Ring, put: seq<byte>, got: nat, readopen: bool, writeopen: bool)
    requires Holds(p, put, got)
    ensures Holds(p.(readopen := readopen, writeopen := writeopen), put, got)
  {
  }

  lemma TakenMore(put: seq<byte>, taken: seq<byte>, out: seq<byte>, lost: seq<byte>)
    requires taken <= put && |out| + |lost| <= |put| - |taken|
    ensures out + lost == put[|taken|..|taken| + |out| + |lost|] ==> taken + out + lost <= put
  {
    assert taken + out + lost == taken + (out + lost);
  }

  lemma FifoKept(s: State, e: Event)
    requires |s.ring.data| == PIPESIZE && Fifo(s) && Do(s, e).Some?
    ensures var s' := Do(s, e).value;
            Fifo(s') && |s'.ring.data| == PIPESIZE && s.put <= s'.put && s.taken <= s'.taken
  {
    hide Holds, WriteLoop, ReadLoop;
    HoldsFlags(s.ring, s.put, |s.taken|, false, s.ring.writeopen);
    HoldsFlags(s.ring, s.put, |s.taken|, s.ring.readopen, false);
    if e.Step? {
      var x := s.threads[e.t];
      if x.Reading? {
        ReadFifo(s.ring, s.put, |s.taken|, x.n, x.room, []);
        TakenMore(s.put, s.taken, ReadLoop(s.ring, x.n, x.room, []).1, ReadLoop(s.ring, x.n, x.room, []).2);
      } else {
        WriteFifo(s.ring, s.put, |s.taken|, x.src, x.n, x.i, e.dies);
      }
    }
    var s' := Do(s, e).value;
    SizesHold(s'.ring, s'.put, |s'.taken|);
  }

  /** The one way a step can leave a reader asleep beside bytes: a writer finds itself
      killed, before it is done, at an index up to which it has bytes to put and the empty
      pipe has room for them; it returns without waking anybody. */
  predicate Deserts(s: State, e: Event) {
    e.Step? && Awake(s, e.t) && s.threads[e.t].Writing? && SomeReaderAsleep(s.threads) && e.dies.Some? &&
    var x, k := s.threads[e.t], e.dies.value;
    x.i < k < x.n && k <= |x.src| && k - x.i <= PIPESIZE
  }

  predicate SomeReaderAsleep(ts: seq<Thread>) {
    exists r :: 0 <= r < |ts| && ts[r].Reading? && ts[r].asleep
  }

  lemma WriteBlocking(s: State, t: nat, dies: Option<nat>)
    requires |s.ring.data| == PIPESIZE && Fifo(s) && Blocking(s) && Awake(s, t) && s.threads[t].Writing?
    ensures Blocking(WriteTurn(s, t, dies)) <==> !Deserts(s, Step(t, dies))
  {
    hide Holds;
    var x, s' := s.threads[t], WriteTurn(s, t, dies);
    WriteFifo(s.ring, s.put, |s.taken|, x.src, x.n, x.i, dies);
    WriteEnds(s.ring, s.put, |s.taken|, x.src, x.n, x.i, dies);
    CountersExact(s.ring, s.put, |s.taken|);
    CountersExact(s'.ring, s'.put, |s'.taken|);
    if Deserts(s, Step(t, dies)) {
      var r :| 0 <= r < |s.threads| && s.threads[r].Reading? && s.threads[r].asleep;
      assert s'.threads[r] == s.threads[r];
    } else if WriteLoop(s.ring, x.src, x.n, x.i, dies).2 == Fails {
      assert forall r :: 0 <= r < |s.threads| && r != t ==> s'.threads[r] == s.threads[r];
    } else {
      assert forall r :: 0 <= r < |s.threads| && r != t && s'.threads[r].Writing? ==> s'.threads[r] == s.threads[r];
    }
  }

  lemma ReadBlocking(s: State, t: nat, dies: Option<nat>)
    requires |s.ring.data| == PIPESIZE && Fifo(s) && Blocking(s) && Awake(s, t) && s.threads[t].Reading?
    ensures Blocking(ReadTurn(s, t, dies))
  {
    hide Holds, ReadLoop;
    var x, s' := s.threads[t], ReadTurn(s, t, dies);
    ReadFifo(s.ring, s.put, |s.taken|, x.n, x.room, []);
    assert forall r :: 0 <= r < |s.threads| && r != t && s'.threads[r].Reading? ==> s'.threads[r] == s.threads[r];
  }

  /** From a state where whoever sleeps has a reason to, a step leads to one again exactly
      when it is not that one. */
  lemma BlockingKept(s: State, e: Event)
    requires |s.ring.data| == PIPESIZE && Fifo(s) && Blocking(s) && Do(s, e).Some?
    ensures Blocking(Do(s, e).value) <==> !Deserts(s, e)
  {
    hide Holds, WriteTurn, ReadTurn, Fifo, SomeReaderAsleep;
    if e.Step? {
      if s.threads[e.t].Reading? {
        ReadBlocking(s, e.t, e.dies);
      } else {
        WriteBlocking(s, e.t, e.dies);
      }
    }
  }

  /** The state after a run; an event that is not possible ends it. */
  function Run(s: State, es: seq<Event>): (r: Option<State>)
    requires |s.ring.data| == PIPESIZE
    decreases |es|
  {
    if es == [] then Some(s)
    else
      var r := Do(s, es[0]);
      if r.None? || |r.value.ring.data| != PIPESIZE then None else Run(r.value, es[1..])
  }

  /** No process is found killed in the middle of a turn. */
  predicate NoKill(es: seq<Event>) {
    forall i :: 0 <= i < |es| && es[i].Step? ==> es[i].dies.None?
  }

  lemma {:induction false} RunKeeps(s: State, es: seq<Event>)
    requires |s.ring.data| == PIPESIZE && Fifo(s) && Run(s, es).Some?
    ensures var r := Run(s, es).value; Fifo(r) && s.put <= r.put && s.taken <= r.taken
    decreases |es|
  {
    hide Do, Fifo;
    if es != [] {
      FifoKept(s, es[0]);
      RunKeeps(Do(s, es[0]).value, es[1..]);
    }
  }

  /** In every state of the run, whoever sleeps has a reason to. */
  ghost predicate AlwaysBlocking(s: State, es: seq<Event>)
    requires |s.ring.data| == PIPESIZE
    decreases |es|
  {
    Blocking(s) &&
    (es != [] && Do(s, es[0]).Some? && |Do(s, es[0]).value.ring.data| == PIPESIZE ==>
       AlwaysBlocking(Do(s, es[0]).value, es[1..]))
  }

  /** No step of the run is a writer that deserts a reader. */
  predicate NeverDeserts(s: State, es: seq<Event>)
    requires |s.ring.data| == PIPESIZE
    decreases |es|
  {
    es != [] && Do(s, es[0]).Some? && |Do(s, es[0]).value.ring.data| == PIPESIZE ==>
      !Deserts(s, es[0]) && NeverDeserts(Do(s, es[0]).value, es[1..])
  }

  lemma {:induction false} RunBlocking(s: State, es: seq<Event>)
    requires |s.ring.data| == PIPESIZE && Fifo(s) && Blocking(s) && Run(s, es).Some?
    ensures AlwaysBlocking(s, es) <==> NeverDeserts(s, es)
    ensures NoKill(es) ==> NeverDeserts(s, es)
    ensures AlwaysBlocking(s, es) ==> Blocking(Run(s, es).value)
    decreases |es|
  {
    hide Do, Fifo, Blocking, SomeReaderAsleep;
    if es != [] {
      FifoKept(s, es[0]);
      BlockingKept(s, es[0]);
      assert NoKill(es) ==> NoKill(es[1..]);
      if Blocking(Do(s, es[0]).value) {
        RunBlocking(Do(s, es[0]).value, es[1..]);
      }
    }
  }

  /** FIFO: in every run, kills included, the bytes taken are a prefix of the bytes put, and
      at most PIPESIZE bytes are in between, sitting in the ring in order. */
  lemma PipeFifo(junk: seq<byte>, nthread: nat, es: seq<Event>)
    requires |junk| == PIPESIZE && Run(Boot(junk, nthread), es).Some?
    ensures var s := Run(Boot(junk, nthread), es).value;
            && |s.taken| <= |s.put| && s.taken == s.put[..|s.taken|] && |s.put| <= |s.taken| + PIPESIZE &&
               |s.ring.data| == PIPESIZE
            && (forall i :: |s.taken| <= i < |s.put| ==> s.ring.data[i % PIPESIZE] == s.put[i])
            && (Empty(s.ring) <==> s.taken == s.put) && (Full(s.ring) <==> |s.put| == |s.taken| + PIPESIZE)
  {
    RunKeeps(Boot(junk, nthread), es);
    var s := Run(Boot(junk, nthread), es).value;
    CountersExact(s.ring, s.put, |s.taken|);
  }

  /** Blocking: at every point of a run a sleeping reader means an empty pipe with an open
      writer, and a sleeping writer a full pipe with an open reader, if and only if no
      killed writer deserts a reader in it; without kill none does. */
  lemma PipeBlocking(junk: seq<byte>, nthread: nat, es: seq<Event>)
    requires |junk| == PIPESIZE && Run(Boot(junk, nthread), es).Some?
    ensures AlwaysBlocking(Boot(junk, nthread), es) <==> NeverDeserts(Boot(junk, nthread), es)
    ensures NoKill(es) ==> AlwaysBlocking(Boot(junk, nthread), es) && Blocking(Run(Boot(junk, nthread), es).value)
  {
    RunBlocking(Boot(junk, nthread), es);
  }

  /** With kill it can fail: the reader sleeps on the empty pipe, the writer puts one byte
      of two and is then found killed. */
  lemma KillDeserts(junk: seq<byte>)
    requires |junk| == PIPESIZE
    ensures var es := [StartRead(0, 1, 1), Step(0, None), StartWrite(1, [7, 8], 2), Step(1, Some(1))];
            Run(Boot(junk, 2), es).Some? && !Blocking(Run(Boot(junk, 2), es).value)
  {
    var s0 := Boot(junk, 2);
    var s1 := Do(s0, StartRead(0, 1, 1)).value;
    var s2 := Do(s1, Step(0, None)).value;
    var s3 := Do(s2, StartWrite(1, [7, 8], 2)).value;
    var s4 := Do(s3, Step(1, Some(1))).value;
    RunFour(s0, StartRead(0, 1, 1), Step(0, None), StartWrite(1, [7, 8], 2), Step(1, Some(1)));
    assert s4.threads[0] == Reading(1, 1, true);
    assert WriteLoop(s3.ring, [7, 8], 2, 0, Some(1)) == WriteLoop(Put(s3.ring, 7), [7, 8], 2, 1, Some(1));
    assert !Empty(s4.ring);
  }

  lemma RunFour(s: State, e0: Event, e1: Event, e2: Event, e3: Event)
    requires |s.ring.data| == PIPESIZE && Do(s, e0).Some?
    requires |Do(s, e0).value.ring.data| == PIPESIZE && Do(Do(s, e0).value, e1).Some?
    requires var s2 := Do(Do(s, e0).value, e1).value;
             |s2.ring.data| == PIPESIZE && Do(s2, e2).Some? && |Do(s2, e2).value.ring.data| == PIPESIZE &&
             Do(Do(s2, e2).value, e3).Some? && |Do(Do(s2, e2).value, e3).value.ring.data| == PIPESIZE
    ensures Run(s, [e0, e1, e2, e3]) == Do(Do(Do(Do(s, e0).value, e1).value, e2).value, e3)
  {
    hide Do;
    var es := [e0, e1, e2, e3];
    assert es[1..] == [e1, e2, e3] && es[1..][1..] == [e2, e3] && es[1..][1..][1..] == [e3] &&
           es[1..][1..][1..][1..] == [];
    var s1 := Do(s, e0).value;
    var s2 := Do(s1, e1).value;
    var s3 := Do(s2, e2).value;
    assert Run(s3, [e3]) == Run(Do(s3, e3).value, []);
    assert Run(s2, [e2, e3]) == Run(s3, [e3]);
    assert Run(s1, [e1, e2, e3]) == Run(s2, [e2, e3]);
  }
}
