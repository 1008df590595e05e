/** What a pipe achieves: its two sides never all sleep at once, and whatever is written
    arrives, a pipeful at a time. */
module PipeProgress {
  import opened Common
  import opened PipeRing
  import opened PipeProtocol

  /** In every run in which no killed writer deserts a reader, readers and writers do not
      wait for each other. */
  lemma NeverBothAsleep(junk: seq<byte>, nthread: nat, es: seq<Event>, t: nat, u: nat)
    requires |junk| == PIPESIZE && Run(Boot(junk, nthread), es).Some? && NeverDeserts(Boot(junk, nthread), es)
    requires var s := Run(Boot(junk, nthread), es).value;
             t < |s.threads| && u < |s.threads| && s.threads[t].Reading? && s.threads[u].Writing?
    ensures var s := Run(Boot(junk, nthread), es).value; Awake(s, t) || Awake(s, u)
  {
    PipeFifo(junk, nthread, es);
    RunBlocking(Boot(junk, nthread), es);
  }

  // Runs.

  ghost predicate To(s: State, es: seq<Event>, s': State) {
    |s.ring.data| == PIPESIZE == |s'.ring.data| && NoKill(es) && Run(s, es) == Some(s')
  }

  lemma {:induction false} Join(s: State, a: seq<Event>, m: State, b: seq<Event>, s': State)
    requires To(s, a, m) && To(m, b, s')
    ensures To(s, a + b, s')
    decreases |a|
  {
    hide Do;
    if a == [] {
      assert a + b == b;
    } else {
      assert (a + b)[0] == a[0] && (a + b)[1..] == a[1..] + b;
      Join(Do(s, a[0]).value, a[1..], m, b, s');
    }
  }

  lemma One(s: State, e: Event, s': State)
    requires |s.ring.data| == PIPESIZE == |s'.ring.data| && Do(s, e) == Some(s') && (e.Step? ==> e.dies.None?)
    ensures To(s, [e], s')
  {
    hide Do;
    assert [e][1..] == [] && Run(s', []) == Some(s');
  }

  /** Both ends are open, and what is put and taken is what the ring tells. */
  ghost predicate Open(s: State) {
    |s.ring.data| == PIPESIZE && Fifo(s) && s.ring.readopen && s.ring.writeopen
  }

  /** A read that asks for a pipeful takes all there is, and wakes the writers. */
  lemma ReadsAll(s: State, r: nat) returns (es: seq<Event>, s': State)
    requires Open(s) && r < |s.threads| && s.threads[r].Idle? && s.taken != s.put
    ensures To(s, es, s') && Open(s') && s'.put == s'.taken == s.put && |s'.threads| == |s.threads|
    ensures forall t :: 0 <= t < |s.threads| ==>
              s'.threads[t] == if s.threads[t].Writing? then Roused(s.threads[t]) else s.threads[t]
  {
    hide Holds, ReadLoop;
    var e, f := StartRead(r, PIPESIZE, PIPESIZE), Step(r, None);
    var m := Do(s, e).value;
    One(s, e, m);
    FifoKept(s, e);
    SizesHold(s.ring, s.put, |s.taken|);
    CountersExact(s.ring, s.put, |s.taken|);
    ReadFifo(s.ring, s.put, |s.taken|, PIPESIZE, PIPESIZE, []);
    s' := Do(m, f).value;
    FifoKept(m, f);
    One(m, f, s');
    Join(s, [e], m, [f], s');
    es := [e] + [f];
  }

  /** A turn of the writer puts as much as there is room for. */
  lemma WritesOn(s: State, w: nat) returns (s': State)
    requires Open(s) && w < |s.threads| && s.threads[w].Writing? && !s.threads[w].asleep
    requires s.threads[w].i <= |s.threads[w].src| == s.threads[w].n
    ensures To(s, [Step(w, None)], s') && Open(s') && s'.taken == s.taken && |s'.threads| == |s.threads|
    ensures var x := s.threads[w];
            var k := Least(x.n, x.i + (PIPESIZE - (|s.put| - |s.taken|)));
            && x.i <= k && s'.put == s.put + x.src[x.i..k]
            && s'.threads[w] == if k < x.n then Writing(x.src, x.n, k, true) else Idle
    ensures forall t :: 0 <= t < |s.threads| && t != w && s.threads[t].Idle? ==> s'.threads[t].Idle?
  {
    hide Holds, WriteLoop;
    var x := s.threads[w];
    SizesHold(s.ring, s.put, |s.taken|);
    WriteFifo(s.ring, s.put, |s.taken|, x.src, x.n, x.i, None);
    WriteEnds(s.ring, s.put, |s.taken|, x.src, x.n, x.i, None);
    s' := Do(s, Step(w, None)).value;
    FifoKept(s, Step(w, None));
    CountersExact(s'.ring, s'.put, |s'.taken|);
    One(s, Step(w, None), s');
  }

  /** The writer at index i of a source it can read in full. */
  ghost predicate WritesFrom(s: State, w: nat, src: seq<byte>, i: nat) {
    w < |s.threads| && s.threads[w] == Writing(src, |src|, i, false) && i <= |src|
  }

  /** One turn of the writer and, if there is anything then, one read. */
  lemma Round(s: State, w: nat, r: nat, src: seq<byte>, i: nat) returns (es: seq<Event>, s': State, k: nat)
    requires Open(s) && WritesFrom(s, w, src, i) && r < |s.threads| && s.threads[r].Idle?
    ensures To(s, es, s') && Open(s') && |s'.threads| == |s.threads| && s'.threads[r].Idle?
    ensures i <= k <= |src| && k == Least(|src|, i + (PIPESIZE - (|s.put| - |s.taken|)))
    ensures s'.put == s'.taken == s.put + src[i..k]
    ensures if k < |src| then WritesFrom(s', w, src, k) else s'.threads[w].Idle?
  {
    hide Open, Fifo, Do, To, Run;
    OpenSizes(s);
    var m := WritesOn(s, w);
    k := Least(|src|, i + (PIPESIZE - (|s.put| - |s.taken|)));
    es, s' := [Step(w, None)], m;
    if m.taken != m.put {
      var fs, n := ReadsAll(m, r);
      Join(s, es, m, fs, n);
      es, s' := es + fs, n;
    } else {
      OpenSizes(m);
    }
  }

  lemma {:induction false} Pumps(s: State, w: nat, r: nat, src: seq<byte>, i: nat) returns (es: seq<Event>, s': State)
    requires Open(s) && WritesFrom(s, w, src, i) && r < |s.threads| && s.threads[r].Idle?
    ensures To(s, es, s') && Open(s') && |s'.threads| == |s.threads|
    ensures s'.put == s'.taken == s.put + src[i..] && s'.threads[w].Idle? && s'.threads[r].Idle?
    decreases |src| - i, |s.put| - |s.taken|
  {
    hide Open, To;
    OpenSizes(s);
    var k;
    es, s', k := Round(s, w, r, src, i);
    if k < |src| {
      var fs, n := Pumps(s', w, r, src, k);
      Join(s, es, s', fs, n);
      es, s' := es + fs, n;
      assert src[i..k] + src[k..] == src[i..];
    }
  }

  lemma OpenSizes(s: State)
    requires Open(s)
    ensures |s.taken| <= |s.put| <= |s.taken| + PIPESIZE && s.taken <= s.put
  {
    SizesHold(s.ring, s.put, |s.taken|);
  }

  /** Whatever two processes say to each other arrives: from every state of a run with both
      ends open, an idle writer can write any bytes, however many, and an idle reader read
      until they have all come through, behind what was in the pipe. */
  lemma Arrives(junk: seq<byte>, nthread: nat, es: seq<Event>, w: nat, r: nat, src: seq<byte>)
    returns (more: seq<Event>)
    requires |junk| == PIPESIZE && Run(Boot(junk, nthread), es).Some?
    requires var s := Run(Boot(junk, nthread), es).value;
             && w < |s.threads| && r < |s.threads| && w != r && s.threads[w].Idle? && s.threads[r].Idle?
             && s.ring.readopen && s.ring.writeopen && |s.ring.data| == PIPESIZE
    ensures NoKill(more)
    ensures var s := Run(Boot(junk, nthread), es).value;
            var o := Run(s, more);
            && o.Some? && o.value.put == o.value.taken == s.put + src
            && |o.value.threads| == |s.threads| && o.value.threads[w].Idle? && o.value.threads[r].Idle?
  {
    RunKeeps(Boot(junk, nthread), es);
    hide Fifo;
    var s := Run(Boot(junk, nthread), es).value;
    var e := StartWrite(w, src, |src|);
    var m := Do(s, e).value;
    FifoKept(s, e);
    One(s, e, m);
    var fs, s' := Pumps(m, w, r, src, 0);
    Join(s, [e], m, fs, s');
    more := [e] + fs;
    assert src[0..] == src;
  }
}
