/** What the log protocol achieves: nothing written is lost without a crash, every
    state can be brought to rest with everything on the disk, and at rest a process
    gets its whole operation through. */
module LogProgress {
  import opened GroupCommit

  // Nothing is lost.

  /** The block writes asked for by a list of events, in order. */
  function Written(es: seq<Event>): (r: seq<(int, int)>) {
    if es == [] then []
    else (if es[0].Write? then [(es[0].b, es[0].v)] else []) + Written(es[1..])
  }

  /** h is the history h0 with these writes behind it. */
  ghost predicate Extends(h0: seq<Rec>, h: seq<Rec>, ws: seq<(int, int)>) {
    && |h| == |h0| + |ws| && h[..|h0|] == h0
    && forall i :: 0 <= i < |ws| ==> (h[|h0| + i].b, h[|h0| + i].v) == ws[i]
  }

  lemma ExtendsOn(h0: seq<Rec>, h1: seq<Rec>, h2: seq<Rec>, a: seq<(int, int)>, b: seq<(int, int)>)
    requires Extends(h0, h1, a) && Extends(h1, h2, b)
    ensures Extends(h0, h2, a + b)
  {
    forall i | 0 <= i < |a + b|
      ensures (h2[|h0| + i].b, h2[|h0| + i].v) == (a + b)[i]
    {
      if i < |a| {
        assert h2[|h0| + i] == h2[..|h1|][|h0| + i] == h1[|h0| + i];
      } else {
        assert h2[|h0| + i] == h2[|h1| + (i - |a|)];
      }
    }
    assert h2[..|h0|] == h2[..|h1|][..|h0|];
  }

  predicate NoCrash(es: seq<Event>) {
    forall i :: 0 <= i < |es| ==> es[i] != Crash
  }

  /** Without a crash the history grows by exactly the writes asked for, in order. */
  lemma {:induction false} NothingLost(c: Config, s: State, es: seq<Event>)
    requires Run(c, s, es).Next? && NoCrash(es)
    ensures Extends(s.hist, Run(c, s, es).s.hist, Written(es))
    decreases |es|
  {
    if es != [] {
      var s' := Do(c, s, es[0]).s;
      assert Extends(s.hist, s'.hist, Written([es[0]])) by {
        assert Written([es[0]][1..]) == [];
      }
      NothingLost(c, s', es[1..]);
      ExtendsOn(s.hist, s'.hist, Run(c, s, es).s.hist, Written([es[0]]), Written(es[1..]));
    }
  }

  /** No operation is under way and no commit. */
  predicate AtRest(s: State) {
    s.outstanding == 0 && !s.committing
  }

  lemma Pending(s: State)
    requires HistOk(s) && s.durable < |s.hist|
    ensures s.lh != []
  {
    assert s.hist[s.durable].b in s.lh;
  }

  /** A transaction that has ended without a crash is durable: whenever the log is at
      rest everything written since any earlier moment is on the disk. */
  lemma EndedIsDurable(c: Config, es: seq<Event>, more: seq<Event>)
    requires Run(c, Boot(c), es).Next? && Run(c, Run(c, Boot(c), es).s, more).Next? && NoCrash(more)
    requires AtRest(Run(c, Run(c, Boot(c), es).s, more).s)
    ensures var s, t := Run(c, Boot(c), es).s, Run(c, Run(c, Boot(c), es).s, more).s;
            Extends(s.hist, t.hist, Written(more)) && t.durable == |t.hist|
  {
    hide Extends;
    var s := Run(c, Boot(c), es).s;
    BootOk(c);
    RunKeeps(c, Boot(c), es);
    RunKeeps(c, s, more);
    NothingLost(c, s, more);
    var t := Run(c, s, more).s;
    if t.durable < |t.hist| {
      Pending(t);
    }
  }

  // Every state can come to rest.

  lemma {:induction false} RunBoth(c: Config, s: State, a: seq<Event>, b: seq<Event>)
    requires Run(c, s, a).Next?
    ensures Run(c, s, a + b) == Run(c, Run(c, s, a).s, b)
    decreases |a|
  {
    if a == [] {
      assert a + b == b;
    } else {
      RunBoth(c, Do(c, s, a[0]).s, a[1..], b);
      assert (a + b)[0] == a[0] && (a + b)[1..] == a[1..] + b;
    }
  }

  lemma RunOne(c: Config, s: State, e: Event)
    ensures Run(c, s, [e]) == Do(c, s, e)
  {
    assert [e][1..] == [];
  }

  /** Nobody is in an operation, in the commit or asleep, and the disk has it all. */
  ghost predicate Drained(s: State, t: State) {
    && AtRest(t) && t.lh == [] && t.hist == s.hist && t.durable == |t.hist| && |t.pc| == |s.pc|
    && forall p :: 0 <= p < |t.pc| ==> t.pc[p] == Outside
  }

  /** The last process out commits: the header write makes everything durable, and
      the rest of the commit lets the others in again. */
  lemma Commits(c: Config, s: State, p: nat)
    requires Inv(c, s) && p < |s.pc| && s.pc[p] == InCommit
    ensures var o := Run(c, s, [CommitPoint(p), CommitDone(p)]); o.Next? && Drained(s, o.s)
    ensures Inv(c, Run(c, s, [CommitPoint(p), CommitDone(p)]).s)
  {
    var a, b := CommitPoint(p), CommitDone(p);
    RunOne(c, s, a);
    var m := Do(c, s, a).s;
    RunBoth(c, s, [a], [b]);
    assert [a] + [b] == [a, b];
    RunOne(c, m, b);
    RunnersNone(s.pc);
    InvKept(c, s, a);
    InvKept(c, m, b);
  }

  /** An operation can always end, and there is one less then. */
  lemma Ends(c: Config, s: State, p: nat)
    requires Inv(c, s) && IsRunning(s, p)
    ensures var o := Do(c, s, End(p));
            && o.Next? && Inv(c, o.s) && o.s.outstanding == s.outstanding - 1 && o.s.hist == s.hist
            && |o.s.pc| == |s.pc|
            && (o.s.outstanding > 0 ==> o.s.pc[p] == Outside)
            && (o.s.outstanding == 0 ==> o.s.pc[p] == InCommit)
  {
    RunnersNone(s.pc);
    if Do(c, s, End(p)).Next? {
      InvKept(c, s, End(p));
    }
  }

  /** Whatever has happened, ending the operations under way and letting the commit
      finish puts every write on the disk, and no process is left asleep. */
  lemma {:induction false} Drains(c: Config, s: State) returns (es: seq<Event>)
    requires Inv(c, s) && (s.outstanding > 0 || s.committing)
    ensures NoCrash(es) && Run(c, s, es).Next? && Drained(s, Run(c, s, es).s) && Inv(c, Run(c, s, es).s)
    decreases s.outstanding
  {
    RunnersNone(s.pc);
    if s.committing {
      var p :| 0 <= p < |s.pc| && s.pc[p] == InCommit;
      Commits(c, s, p);
      es := [CommitPoint(p), CommitDone(p)];
    } else {
      var p :| 0 <= p < |s.pc| && s.pc[p].Running?;
      Ends(c, s, p);
      var m := Do(c, s, End(p)).s;
      var rest := Drains(c, m);
      RunOne(c, s, End(p));
      RunBoth(c, s, [End(p)], rest);
      es := [End(p)] + rest;
    }
  }

  // At rest an operation goes through.

  function Writes(p: nat, ws: seq<(int, int)>): (r: seq<Event>)
    ensures |r| == |ws| && NoCrash(r)
  {
    seq(|ws|, i requires 0 <= i < |ws| => Write(p, ws[i].0, ws[i].1))
  }

  lemma {:induction false} WrittenBoth(a: seq<Event>, b: seq<Event>)
    ensures Written(a + b) == Written(a) + Written(b)
  {
    if a == [] {
      assert a + b == b;
    } else {
      WrittenBoth(a[1..], b);
      assert (a + b)[0] == a[0] && (a + b)[1..] == a[1..] + b;
    }
  }

  lemma {:induction false} WritesWritten(p: nat, ws: seq<(int, int)>)
    ensures Written(Writes(p, ws)) == ws
  {
    if ws != [] {
      WritesWritten(p, ws[1..]);
      assert Writes(p, ws)[1..] == Writes(p, ws[1..]);
    }
  }

  /** The log has space for n more blocks. */
  predicate SpaceFor(c: Config, s: State, n: nat) {
    |s.lh| + n <= c.logsize && |s.lh| + n <= c.size - 1
  }

  lemma {:induction false} WritesGo(c: Config, s: State, p: nat, ws: seq<(int, int)>)
    requires Inv(c, s) && IsRunning(s, p) && SpaceFor(c, s, |ws|)
    ensures var o := Run(c, s, Writes(p, ws));
            && o.Next? && Inv(c, o.s) && IsRunning(o.s, p) && o.s.outstanding == s.outstanding
            && |o.s.pc| == |s.pc|
    decreases |ws|
  {
    hide Inv;
    if ws != [] {
      var e := Write(p, ws[0].0, ws[0].1);
      assert Writes(p, ws)[0] == e && Writes(p, ws)[1..] == Writes(p, ws[1..]);
      SomeRunner(c, s, p);
      InvKept(c, s, e);
      WritesGo(c, Do(c, s, e).s, p, ws[1..]);
    }
  }

  lemma SomeRunner(c: Config, s: State, p: nat)
    requires Inv(c, s) && IsRunning(s, p)
    ensures s.outstanding > 0
  {
    RunnersNone(s.pc);
  }

  /** At rest begin_op lets a process in. */
  lemma Begins(c: Config, s: State, p: nat)
    requires Inv(c, s) && AtRest(s) && p < |s.pc| && c.maxop <= c.logsize
    ensures var o := Do(c, s, Begin(p));
            o.Next? && Inv(c, o.s) && IsRunning(o.s, p) && o.s.outstanding == 1 && o.s.lh == [] && |o.s.pc| == |s.pc|
  {
    RunnersNone(s.pc);
    assert !NoRoom(c, s);
    assert s.pc[p] == Outside;
    InvKept(c, s, Begin(p));
  }

  /** At rest, a process that begins, writes what fits the log and ends, with the
      commit this starts, has all its writes on the disk, and the log is at rest. */
  lemma Operation(c: Config, s: State, p: nat, ws: seq<(int, int)>) returns (es: seq<Event>)
    requires Inv(c, s) && AtRest(s) && p < |s.pc| && c.maxop <= c.logsize
    requires |ws| <= c.logsize && |ws| <= c.size - 1
    ensures es == [Begin(p)] + Writes(p, ws) + [End(p)] + [CommitPoint(p), CommitDone(p)]
    ensures var o := Run(c, s, es);
            o.Next? && AtRest(o.s) && Extends(s.hist, o.s.hist, ws) && o.s.durable == |o.s.hist|
  {
    hide Inv, Extends;
    var b, w, e, d := [Begin(p)], Writes(p, ws), [End(p)], [CommitPoint(p), CommitDone(p)];
    Begins(c, s, p);
    RunOne(c, s, Begin(p));
    var s1 := Do(c, s, Begin(p)).s;
    WritesGo(c, s1, p, ws);
    RunBoth(c, s, b, w);
    var s2 := Run(c, s1, w).s;
    Ends(c, s2, p);
    RunOne(c, s2, End(p));
    RunBoth(c, s, b + w, e);
    var s3 := Do(c, s2, End(p)).s;
    Commits(c, s3, p);
    RunBoth(c, s, b + w + e, d);
    es := b + w + e + d;
    OperationWrites(p, ws);
    NothingLost(c, s, es);
  }

  lemma OperationWrites(p: nat, ws: seq<(int, int)>)
    ensures var es := [Begin(p)] + Writes(p, ws) + [End(p)] + [CommitPoint(p), CommitDone(p)];
            NoCrash(es) && Written(es) == ws
  {
    var b, w, e, d := [Begin(p)], Writes(p, ws), [End(p)], [CommitPoint(p), CommitDone(p)];
    WrittenBoth(b + w + e, d);
    WrittenBoth(b + w, e);
    WrittenBoth(b, w);
    WritesWritten(p, ws);
    assert Written(b[1..]) == [] && Written(e[1..]) == [] && Written(d[1..][1..]) == [];
  }

  /** So from every reachable state, whatever the others are doing, every process can
      get an operation onto the disk behind everything written so far. */
  lemma GetsThrough(c: Config, es: seq<Event>, p: nat, ws: seq<(int, int)>) returns (more: seq<Event>)
    requires Run(c, Boot(c), es).Next? && p < c.nproc && c.maxop <= c.logsize
    requires |ws| <= c.logsize && |ws| <= c.size - 1
    ensures var s, o := Run(c, Boot(c), es).s, Run(c, Run(c, Boot(c), es).s, more);
            o.Next? && AtRest(o.s) && Extends(s.hist, o.s.hist, ws) && o.s.durable == |o.s.hist|
  {
    hide Inv, Extends;
    var s := Run(c, Boot(c), es).s;
    BootOk(c);
    RunKeeps(c, Boot(c), es);
    SameProcesses(c, Boot(c), es);
    var first := [];
    if !AtRest(s) {
      first := Drains(c, s);
    }
    var t := Run(c, s, first).s;
    var after := Operation(c, t, p, ws);
    RunBoth(c, s, first, after);
    more := first + after;
  }

  lemma {:induction false} SameProcesses(c: Config, s: State, es: seq<Event>)
    requires Run(c, s, es).Next?
    ensures |Run(c, s, es).s.pc| == |s.pc|
    decreases |es|
  {
    if es != [] {
      SameProcesses(c, Do(c, s, es[0]).s, es[1..]);
    }
  }
}
