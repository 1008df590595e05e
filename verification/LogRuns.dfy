/** Whole runs of the buffer cache under the log: any sequence of reads, updates and
    commits behaves as on a plain disk, and a crash at any disk write of the run loses
    nothing but what was not committed. */
module LogRuns {
  import opened BufferCache
  import opened RedoLog
  import opened LogDevice
  import Lru

  datatype Op = Read(l: Loc) | Write(l: Loc, blk: Block) | Commit

  /** The plain disk: its contents, those at each commit so far, starting with where the run
      starts, the blocks changed since the last commit, and what reads have returned. */
  datatype Plain = Plain(view: Disk, past: seq<Disk>, logged: seq<int>, out: seq<Block>)

  predicate Home(y: Layout, d: Disk, l: Loc) {
    l in d && l.dev == y.dev && !(y.start <= l.bno < y.start + y.size)
  }

  predicate Allowed(y: Layout, d: Disk, op: Op) {
    match op
    case Read(l) => Home(y, d, l)
    case Write(l, blk) => Home(y, d, l)
    case Commit => true
  }

  /** One operation on the plain disk. */
  function Do(m: Plain, op: Op): (r: Plain) {
    match op
    case Read(l) => if l in m.view then m.(out := m.out + [m.view[l]]) else m
    case Write(l, blk) =>
      m.(view := m.view[l := blk], logged := if l.bno in m.logged then m.logged else m.logged + [l.bno])
    case Commit => m.(past := m.past + [m.view], logged := [])
  }

  /** The panic of log_write. */
  predicate Panics(y: Layout, m: Plain, op: Op) {
    op.Write? && (|m.logged| >= y.logsize || |m.logged| >= y.size - 1)
  }

  /** The run on the plain disk, up to its end or the first panic. */
  function Run(y: Layout, m: Plain, ops: seq<Op>): (r: (Plain, bool))
    decreases |ops|
  {
    if ops == [] then (m, true)
    else if Panics(y, m, ops[0]) then (m, false)
    else Run(y, Do(m, ops[0]), ops[1..])
  }

  /** The commits to which the disks of a commit of n blocks recover, after commit number e: its
      log writes change nothing, the header write and the n + 1 writes behind it are its own. */
  function CommitEpochs(n: nat, e: nat): (r: seq<nat>) {
    seq(n, _ => e) + seq(if n == 0 then 0 else n + 2, _ => e + 1)
  }

  function StepEpochs(m: Plain, op: Op): (r: seq<nat>)
    requires m.past != []
  {
    if op.Commit? then CommitEpochs(|m.logged|, |m.past| - 1) else []
  }

  /** The same for all disks that a run writes. */
  function Epochs(y: Layout, m: Plain, ops: seq<Op>): (r: seq<nat>)
    requires m.past != []
    decreases |ops|
  {
    if ops == [] || Panics(y, m, ops[0]) then []
    else StepEpochs(m, ops[0]) + Epochs(y, Do(m, ops[0]), ops[1..])
  }

  /** d recovers to what commit number e left. */
  ghost predicate RecoversTo(y: Layout, d: Disk, past: seq<Disk>, e: nat) {
    e < |past| && WellFormed(y, d) && SameHome(y, Recovered(y, d), past[e])
  }

  /** Disk number j of the history recovers to what commit number epoch[j] left, later disks
      to later commits. */
  ghost predicate Recovers(y: Layout, tr: seq<Disk>, from: nat, past: seq<Disk>, epoch: seq<nat>) {
    && from <= |tr| && |epoch| == |tr| - from
    && (forall i, j :: 0 <= i < j < |epoch| ==> epoch[i] <= epoch[j])
    && (forall j :: 0 <= j < |epoch| ==> RecoversTo(y, tr[from + j], past, epoch[j]))
  }

  lemma SameHomeTrans(y: Layout, a: Disk, b: Disk, c: Disk)
    requires SameHome(y, a, b) && SameHome(y, b, c)
    ensures SameHome(y, a, c)
  {
  }

  lemma CommitAt(y: Layout, tr: seq<Disk>, tr': seq<Disk>, n: nat, d: Disk, v: Disk, past: seq<Disk>, w: Disk, j: nat)
    requires CommitRecovers(y, tr, tr', n, d, v) && |tr| <= j < |tr'|
    requires past != [] && SameHome(y, d, past[|past| - 1]) && SameHome(y, v, w)
    ensures RecoversTo(y, tr'[j], past + [w], if j - |tr| < n then |past| - 1 else |past|)
  {
    hide WellFormed, Recovered, SameHome;
    assert WellFormed(y, tr'[j]);
    if j - |tr| < n {
      SameHomeTrans(y, Recovered(y, tr'[j]), d, past[|past| - 1]);
    } else {
      SameHomeTrans(y, Recovered(y, tr'[j]), v, w);
    }
  }

  lemma StillTo(y: Layout, d: Disk, past: seq<Disk>, w: Disk, e: nat)
    requires RecoversTo(y, d, past, e)
    ensures RecoversTo(y, d, past + [w], e) && e < |past|
  {
  }

  /** A commit of n blocks: its disks up to the header write belong to the commit before. */
  lemma RecoversCommit(y: Layout, tr: seq<Disk>, tr': seq<Disk>, from: nat, past: seq<Disk>, epoch: seq<nat>, n: nat,
                       d: Disk, v: Disk, w: Disk)
    requires Recovers(y, tr, from, past, epoch) && CommitRecovers(y, tr, tr', n, d, v)
    requires past != [] && SameHome(y, d, past[|past| - 1]) && SameHome(y, v, w)
    ensures Recovers(y, tr', from, past + [w], epoch + CommitEpochs(n, |past| - 1))
  {
    hide WellFormed, Recovered, SameHome, RecoversTo;
    var last, epoch' := |past| - 1, epoch + CommitEpochs(n, |past| - 1);
    assert |epoch'| == |tr'| - from;
    assert forall j :: 0 <= j < |epoch'| ==>
      epoch'[j] == if j < |epoch| then epoch[j] else if j < |epoch| + n then last else last + 1;
    forall j | 0 <= j < |epoch|
      ensures epoch[j] <= last && RecoversTo(y, tr'[from + j], past + [w], epoch[j])
    {
      assert tr'[from + j] == tr'[..|tr|][from + j] == tr[from + j];
      StillTo(y, tr[from + j], past, w, epoch[j]);
    }
    forall j | |epoch| <= j < |epoch'|
      ensures RecoversTo(y, tr'[from + j], past + [w], epoch'[j])
    {
      CommitAt(y, tr, tr', n, d, v, past, w, from + j);
    }
  }

  /** The log and the plain disk agree: what clients see, and what is on the disk outside the
      log, which is the state of the last commit. */
  ghost predicate Tied(log: Log, m: Plain)
    reads log, log.bc, log.bc.lru
  {
    && log.Valid() && log.Idle() && m.past != []
    && SameHome(log.y, log.bc.g.view, m.view) && SameHome(log.y, log.bc.disk, m.past[|m.past| - 1])
    && log.block[..log.n] == m.logged
  }

  /** Buffers for every block that can be logged, and one more. */
  ghost predicate Enough(log: Log)
    reads log, log.bc
  {
    |Held(log.bc.g.refs)| + (if log.y.logsize < log.y.size then log.y.logsize else log.y.size - 1) < log.bc.nbuf
  }

  lemma LoggedFew(y: Layout, d: Disk, bs: seq<int>)
    requires Listable(y, d, bs)
    ensures |bs| <= if y.logsize < y.size then y.logsize else y.size - 1
  {
  }

  lemma EnoughRoom(log: Log)
    requires log.Valid() && Enough(log)
    ensures log.Room()
  {
    hide Lru.RingOk, Mapped, DirtyFrom, Held;
    LoggedFew(log.y, log.bc.g.view, log.block[..log.n]);
    FewElements(log.slot);
  }

  lemma SameAt(y: Layout, d: Disk, e: Disk, l: Loc)
    requires SameHome(y, d, e) && Home(y, d, l)
    ensures l in e && e[l] == d[l] && !InLog(y, l) && Home(y, e, l)
  {
  }

  lemma SameWrite(y: Layout, d: Disk, e: Disk, l: Loc, blk: Block)
    requires SameHome(y, d, e)
    ensures SameHome(y, d[l := blk], e[l := blk])
  {
  }

  /** One operation of a client. */
  method Step(log: Log, op: Op, ghost m: Plain, ghost from: nat, ghost epoch: seq<nat>)
    returns (ok: bool, out: seq<Block>)
    requires Tied(log, m) && Enough(log) && Allowed(log.y, m.view, op)
    requires Recovers(log.y, log.bc.trace, from, m.past, epoch)
    modifies log, log.bc, log.bc.lru
    ensures ok <==> !Panics(log.y, m, op)
    ensures !ok ==> out == [] && Recovers(log.y, log.bc.trace, from, m.past, epoch)
    ensures ok ==>
              && Tied(log, Do(m, op)) && Enough(log) && Do(m, op).out == m.out + out
              && Recovers(log.y, log.bc.trace, from, Do(m, op).past, epoch + StepEpochs(m, op))
  {
    hide Lru.RingOk, Mapped, Pinned, DirtyFrom, Held, Recovers, CommitRecovers, Listable, SameHome, WellFormed, Blocks,
         CommitEpochs;
    EnoughRoom(log);
    ok, out := true, [];
    assert epoch + [] == epoch;
    match op
    case Read(l) =>
      SameHomeKeys(log.y, log.bc.g.view, m.view);
      SameAt(log.y, m.view, log.bc.g.view, l);
      var blk := log.Look(l);
      out := [blk];
    case Write(l, blk) =>
      SameHomeKeys(log.y, log.bc.g.view, m.view);
      SameAt(log.y, m.view, log.bc.g.view, l);
      SameWrite(log.y, log.bc.g.view, m.view, l, blk);
      ok := log.Update(l, blk);
    case Commit =>
      ghost var tr, n, d, v := log.bc.trace, log.n, log.bc.disk, log.bc.g.view;
      log.Commit();
      RecoversCommit(log.y, tr, log.bc.trace, from, m.past, epoch, n, d, v, m.view);
      SameHomeTrans(log.y, log.bc.g.view, v, m.view);
      SameHomeTrans(log.y, log.bc.disk, v, m.view);
  }

  lemma SameHomeKeys(y: Layout, d: Disk, e: Disk)
    requires SameHome(y, d, e)
    ensures SameHome(y, e, d)
  {
  }

  lemma {:induction false} AllowedStill(y: Layout, m: Plain, op: Op, op': Op)
    requires Allowed(y, m.view, op) && Allowed(y, m.view, op')
    ensures Allowed(y, Do(m, op).view, op')
  {
  }

  lemma {:induction false} RunNext(y: Layout, m: Plain, ops: seq<Op>, i: nat)
    requires i < |ops| && m.past != []
    ensures Run(y, m, ops[i..]) == if Panics(y, m, ops[i]) then (m, false) else Run(y, Do(m, ops[i]), ops[i + 1..])
    ensures Do(m, ops[i]).past != []
    ensures Epochs(y, m, ops[i..]) ==
            if Panics(y, m, ops[i]) then [] else StepEpochs(m, ops[i]) + Epochs(y, Do(m, ops[i]), ops[i + 1..])
  {
    assert ops[i..][1..] == ops[i + 1..];
  }

  lemma Assoc(a: seq<nat>, b: seq<nat>, c: seq<nat>)
    ensures a + (b + c) == (a + b) + c && a + [] == a
  {
  }

  lemma RunOver(y: Layout, m: Plain)
    requires m.past != []
    ensures Run(y, m, []) == (m, true) && Epochs(y, m, []) == []
  {
  }

  /** Any sequence of operations: reads return what they would on the plain disk; outside the
      log the disk holds the last commit until the next; and each disk of the run recovers to
      the last commit whose header had been written. */
  method Session(log: Log, ops: seq<Op>, ghost m0: Plain) returns (ok: bool, out: seq<Block>)
    requires Tied(log, m0) && Enough(log) && m0.out == [] && forall k :: 0 <= k < |ops| ==>
             Allowed(log.y, m0.view, ops[k])
    modifies log, log.bc, log.bc.lru
    ensures ok == Run(log.y, m0, ops).1 && out == Run(log.y, m0, ops).0.out
    ensures Recovers(log.y, log.bc.trace, |old(log.bc.trace)|, Run(log.y, m0, ops).0.past, Epochs(log.y, m0, ops))
    ensures ok ==> Tied(log, Run(log.y, m0, ops).0) && Enough(log)
  {
    hide Tied, Enough, Recovers, Allowed, Do, Panics, Run, Epochs, StepEpochs;
    TiedPast(log, m0);
    ok, out := true, [];
    ghost var m, from, epoch := m0, |log.bc.trace|, [];
    NoneYet(log.y, log.bc.trace, m.past);
    var i := 0;
    assert ops[0..] == ops && epoch + Epochs(log.y, m0, ops) == Epochs(log.y, m0, ops);
    while i < |ops|
      invariant 0 <= i <= |ops| && Tied(log, m) && Enough(log) && m.out == out && m.past != []
      invariant forall k :: i <= k < |ops| ==> Allowed(log.y, m.view, ops[k])
      invariant Recovers(log.y, log.bc.trace, from, m.past, epoch)
      invariant Run(log.y, m, ops[i..]) == Run(log.y, m0, ops)
      invariant epoch + Epochs(log.y, m, ops[i..]) == Epochs(log.y, m0, ops)
    {
      RunNext(log.y, m, ops, i);
      var more;
      ok, more := Step(log, ops[i], m, from, epoch);
      if !ok {
        Assoc(epoch, [], []);
        return;
      }
      forall k | i < k < |ops|
        ensures Allowed(log.y, Do(m, ops[i]).view, ops[k])
      {
        AllowedStill(log.y, m, ops[i], ops[k]);
      }
      Assoc(epoch, StepEpochs(m, ops[i]), Epochs(log.y, Do(m, ops[i]), ops[i + 1..]));
      epoch := epoch + StepEpochs(m, ops[i]);
      m, out, i := Do(m, ops[i]), out + more, i + 1;
    }
    assert ops[i..] == [];
    RunOver(log.y, m);
    Assoc(epoch, [], []);
  }

  lemma TiedPast(log: Log, m: Plain)
    requires Tied(log, m)
    ensures m.past != []
  {
  }

  lemma {:induction false} RunConcat(y: Layout, m: Plain, a: seq<Op>, b: seq<Op>)
    ensures Run(y, m, a + b) == if Run(y, m, a).1 then Run(y, Run(y, m, a).0, b) else Run(y, m, a)
    decreases |a|
  {
    hide Do, Panics;
    if a == [] {
      assert a + b == b;
    } else {
      assert (a + b)[0] == a[0] && (a + b)[1..] == a[1..] + b;
      RunConcat(y, Do(m, a[0]), a[1..], b);
    }
  }

  lemma {:induction false} EpochsFrom(y: Layout, m: Plain, ops: seq<Op>)
    requires m.past != []
    ensures forall j :: 0 <= j < |Epochs(y, m, ops)| ==> Epochs(y, m, ops)[j] >= |m.past| - 1
    decreases |ops|
  {
    hide Panics;
    if ops != [] && !Panics(y, m, ops[0]) {
      EpochsFrom(y, Do(m, ops[0]), ops[1..]);
    }
  }

  lemma {:induction false} EpochsConcat(y: Layout, m: Plain, a: seq<Op>, b: seq<Op>)
    requires m.past != [] && Run(y, m, a).1
    ensures Run(y, m, a).0.past != []
    ensures Epochs(y, m, a + b) == Epochs(y, m, a) + Epochs(y, Run(y, m, a).0, b)
    decreases |a|
  {
    hide Panics, StepEpochs;
    if a == [] {
      assert a + b == b;
    } else {
      assert (a + b)[0] == a[0] && (a + b)[1..] == a[1..] + b;
      EpochsConcat(y, Do(m, a[0]), a[1..], b);
    }
  }

  /** What operations a have committed stays committed: every disk after them, whatever comes
      next, recovers to their last commit or a later one. */
  lemma StaysCommitted(y: Layout, m: Plain, a: seq<Op>, b: seq<Op>, j: nat)
    requires m.past != [] && Run(y, m, a).1 && |Epochs(y, m, a)| <= j < |Epochs(y, m, a + b)|
    ensures Epochs(y, m, a + b)[j] >= |Run(y, m, a).0.past| - 1
  {
    hide Epochs, Run;
    EpochsConcat(y, m, a, b);
    EpochsFrom(y, Run(y, m, a).0, b);
  }

  // What a run means, without the plain disk.

  /** What was last written to l, or is on the disk. */
  function Latest(d: Disk, ops: seq<Op>, l: Loc): (r: Block)
    requires l in d
  {
    if ops == [] then d[l]
    else
      var last := ops[|ops| - 1];
      if last.Write? && last.l == l then last.blk else Latest(d, ops[..|ops| - 1], l)
  }

  /** What each read has to return: the latest contents. */
  function Answers(d: Disk, ops: seq<Op>): (r: seq<Block>) {
    if ops == [] then []
    else
      var last, before := ops[|ops| - 1], ops[..|ops| - 1];
      if last.Read? && last.l in d then Answers(d, before) + [Latest(d, before, last.l)] else Answers(d, before)
  }

  /** The blocks written since the last commit, and the number of commits. */
  function Changed(ops: seq<Op>): (r: set<int>) {
    if ops == [] then {}
    else
      match ops[|ops| - 1]
      case Read(_) => Changed(ops[..|ops| - 1])
      case Write(l, _) => Changed(ops[..|ops| - 1]) + {l.bno}
      case Commit => {}
  }

  function Commits(ops: seq<Op>): (r: nat) {
    if ops == [] then 0 else Commits(ops[..|ops| - 1]) + if ops[|ops| - 1].Commit? then 1 else 0
  }

  /** There is room in the log for every write that these operations make. */
  predicate Room(y: Layout, ops: seq<Op>) {
    forall i :: 0 <= i < |ops| && ops[i].Write? ==> |Changed(ops[..i])| < y.logsize && |Changed(ops[..i])| < y.size - 1
  }

  ghost predicate Shows(v: Disk, d: Disk, ops: seq<Op>) {
    v.Keys == d.Keys && forall l :: l in d ==> v[l] == Latest(d, ops, l)
  }

  /** The log lists what was changed since the last commit. */
  ghost predicate Lists(logged: seq<int>, ops: seq<Op>) {
    (forall b :: b in logged <==> b in Changed(ops)) && |logged| == |Changed(ops)|
  }

  /** Behind n disks come those that each commit has kept. */
  ghost predicate Keeps(past: seq<Disk>, n: nat, d: Disk, ops: seq<Op>) {
    |past| == n + Commits(ops) && forall i :: 0 <= i < |ops| && ops[i].Commit? ==> KeptAt(past, n, d, ops[..i])
  }

  ghost predicate KeptAt(past: seq<Disk>, n: nat, d: Disk, ops: seq<Op>) {
    n + Commits(ops) < |past| && Shows(past[n + Commits(ops)], d, ops)
  }

  ghost predicate Meant(m: Plain, m': Plain, ops: seq<Op>) {
    Shows(m'.view, m.view, ops) && Lists(m'.logged, ops) && Keeps(m'.past, |m.past|, m.view, ops)
  }

  lemma RunLast(y: Layout, m: Plain, ops: seq<Op>)
    requires ops != []
    ensures var before, last := ops[..|ops| - 1], ops[|ops| - 1];
            var r := Run(y, m, before);
            Run(y, m, ops) == if !r.1 then r else if Panics(y, r.0, last) then (r.0, false) else (Do(r.0, last), true)
  {
    hide Do, Panics;
    var before, last := ops[..|ops| - 1], ops[|ops| - 1];
    assert ops == before + [last] && [last][1..] == [];
    RunConcat(y, m, before, [last]);
  }

  lemma ShowsNext(y: Layout, v: Disk, d: Disk, ops: seq<Op>)
    requires ops != [] && Shows(v, d, ops[..|ops| - 1]) && Allowed(y, d, ops[|ops| - 1])
    ensures var last := ops[|ops| - 1]; Shows(if last.Write? then v[last.l := last.blk] else v, d, ops)
  {
  }

  lemma ListsNext(logged: seq<int>, ops: seq<Op>)
    requires ops != [] && Lists(logged, ops[..|ops| - 1])
    ensures match ops[|ops| - 1]
            case Read(_) => Lists(logged, ops)
            case Write(l, _) => Lists(if l.bno in logged then logged else logged + [l.bno], ops)
            case Commit => Lists([], ops)
  {
    var before, last := ops[..|ops| - 1], ops[|ops| - 1];
    if last.Write? && last.l.bno in logged {
      assert Changed(before) + {last.l.bno} == Changed(before);
    }
  }

  lemma KeepsNext(past: seq<Disk>, n: nat, d: Disk, v: Disk, ops: seq<Op>)
    requires ops != [] && Keeps(past, n, d, ops[..|ops| - 1]) && Shows(v, d, ops[..|ops| - 1])
    ensures Keeps(if ops[|ops| - 1].Commit? then past + [v] else past, n, d, ops)
  {
    hide Shows;
    var before := ops[..|ops| - 1];
    var past' := if ops[|ops| - 1].Commit? then past + [v] else past;
    forall i | 0 <= i < |ops| && ops[i].Commit?
      ensures KeptAt(past', n, d, ops[..i])
    {
      if i < |before| {
        assert before[i] == ops[i] && before[..i] == ops[..i];
        assert KeptAt(past, n, d, ops[..i]);
      }
    }
  }

  lemma MeantNext(y: Layout, m: Plain, m': Plain, ops: seq<Op>)
    requires ops != [] && Meant(m, m', ops[..|ops| - 1]) && Allowed(y, m.view, ops[|ops| - 1])
    ensures Meant(m, Do(m', ops[|ops| - 1]), ops)
  {
    ShowsNext(y, m'.view, m.view, ops);
    ListsNext(m'.logged, ops);
    KeepsNext(m'.past, |m.past|, m.view, m'.view, ops);
    hide Shows, Lists, Keeps;
  }

  /** A run is what its operations say: every read returns the latest contents, each commit
      keeps the disk as it is then, and the run panics exactly for want of room in the log. */
  lemma {:induction false} RunMeans(y: Layout, m: Plain, ops: seq<Op>)
    requires m.logged == [] && forall k :: 0 <= k < |ops| ==> Allowed(y, m.view, ops[k])
    ensures Run(y, m, ops).1 <==> Room(y, ops)
    ensures Room(y, ops) ==> Meant(m, Run(y, m, ops).0, ops) && Run(y, m, ops).0.out == m.out + Answers(m.view, ops)
    decreases |ops|
  {
    if ops != [] {
      hide Do, Run, Meant, Shows, Changed, Commits, Room, Answers;
      var before, last := ops[..|ops| - 1], ops[|ops| - 1];
      RunMeans(y, m, before);
      RunLast(y, m, ops);
      RoomNext(y, ops);
      if Room(y, before) {
        MeantSize(m, Run(y, m, before).0, before);
        if Room(y, ops) {
          MeantNext(y, m, Run(y, m, before).0, ops);
          OutNext(y, m, Run(y, m, before).0, ops);
        }
      }
    }
  }

  lemma RoomNext(y: Layout, ops: seq<Op>)
    requires ops != []
    ensures var before, last := ops[..|ops| - 1], ops[|ops| - 1];
            Room(y, ops) <==>
            Room(y, before) && (last.Write? ==> |Changed(before)| < y.logsize && |Changed(before)| < y.size - 1)
  {
    var before := ops[..|ops| - 1];
    assert forall i :: 0 <= i < |before| ==> before[..i] == ops[..i];
  }

  lemma MeantSize(m: Plain, m': Plain, ops: seq<Op>)
    requires Meant(m, m', ops)
    ensures |m'.logged| == |Changed(ops)| && Shows(m'.view, m.view, ops)
  {
  }

  lemma OutNext(y: Layout, m: Plain, m': Plain, ops: seq<Op>)
    requires ops != [] && Shows(m'.view, m.view, ops[..|ops| - 1]) && Allowed(y, m.view, ops[|ops| - 1])
    requires m'.out == m.out + Answers(m.view, ops[..|ops| - 1])
    ensures Do(m', ops[|ops| - 1]).out == m.out + Answers(m.view, ops)
  {
    hide Latest;
    var before, last := ops[..|ops| - 1], ops[|ops| - 1];
    if last.Read? {
      assert m'.view[last.l] == Latest(m.view, before, last.l);
      assert Answers(m.view, ops) == Answers(m.view, before) + [Latest(m.view, before, last.l)];
    }
  }

  lemma NoneYet(y: Layout, tr: seq<Disk>, past: seq<Disk>)
    ensures Recovers(y, tr, |tr|, past, [])
  {
  }

  /** Boot: after recovery the log is ready for such a run, from the recovered disk on. */
  method Boot(bc: Cache, y: Layout) returns (log: Log)
    requires bc.Valid() && bc.g.dirty == {} && WellFormed(y, bc.disk) && y.dev != 0 && Distinct(Blocks(y, bc.disk))
    requires forall i :: 0 <= i < |bc.g.pins| ==> bc.g.pins[i] == 0
    requires |Held(bc.g.refs)| + 1 < bc.nbuf
    modifies bc, bc.lru
    ensures log.bc == bc && log.y == y && fresh(log) && bc.disk == Recovered(y, old(bc.disk))
    ensures Tied(log, Plain(bc.disk, [bc.disk], [], [])) && bc.g.refs == old(bc.g.refs)
  {
    hide Lru.RingOk, Mapped, Pinned, DirtyFrom, Held, Listable;
    log := new Log(bc, y);
    log.RecoverFromLog();
    assert log.block[..log.n] == [];
  }
}
