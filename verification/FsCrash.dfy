/** The file system on top of the log: after a crash at any disk write of a run of transactions,
    and any number of crashes while recovering from it, the disk holds the file system of the
    last commit whose header was written. */
module FsCrash {
  import opened BufferCache
  import opened RedoLog
  import opened LogRuns
  import opened DiskLayout
  import opened FsRuns
  import opened LogDevice
  import Blocks
  import Fs

  /** A transaction: its reads and log_writes, and the file system it leaves. */
  datatype Txn = Txn(ops: seq<Op>, d: Blocks.Disk)

  /** The operations are reads, and writes of the blocks that the file system calls have
      logged. */
  ghost predicate Logs(y: Layout, t: Txn) {
    forall op :: op in t.ops ==> !op.Commit? && (op.Write? ==> op.l.dev == y.dev && op.l.bno in t.d.logged)
  }

  /** The last log_write of each block has its contents after the transaction. */
  ghost predicate Lands(g: Blocks.Geometry, y: Layout, d: Blocks.Disk, v: Disk) {
    forall b: nat :: Used(g, d, b) && b in d.logged ==> Holds(y, v, b, Image(g, d, b))
  }

  /** txns is a run of transactions from file system d on, as far as log_write does not panic. */
  ghost predicate Follows(g: Blocks.Geometry, y: Layout, m: Plain, d: Blocks.Disk, txns: seq<Txn>)
    decreases |txns|
  {
    txns != [] ==>
      var t := txns[0];
      var r := Run(y, m, t.ops);
      && Transaction(g, d, t.d) && Logs(y, t)
      && (r.1 ==> Lands(g, y, t.d, r.0.view) && Follows(g, y, Do(r.0, Commit), t.d, txns[1..]))
  }

  /** What the log is asked to do. */
  function Ops(txns: seq<Txn>): (r: seq<Op>) {
    if txns == [] then [] else txns[0].ops + ([Commit] + Ops(txns[1..]))
  }

  /** The file system after commit number e. */
  function After(d: Blocks.Disk, txns: seq<Txn>, e: nat): (r: Blocks.Disk)
    requires e <= |txns|
  {
    if e == 0 then d else txns[e - 1].d
  }

  /** Writes to logged blocks leave the others, and the commits so far, as they are. */
  lemma {:induction false} OnlyLogged(y: Layout, m: Plain, ops: seq<Op>, logged: set<nat>)
    requires forall op :: op in ops ==> !op.Commit? && (op.Write? ==> op.l.dev == y.dev && op.l.bno in logged)
    ensures Run(y, m, ops).0.past == m.past
    ensures forall b: nat, blk :: b !in logged && Holds(y, m.view, b, blk) ==> Holds(y, Run(y, m, ops).0.view, b, blk)
    decreases |ops|
  {
    if ops != [] && !Panics(y, m, ops[0]) {
      assert ops[0] in ops;
      OnlyLogged(y, Do(m, ops[0]), ops[1..], logged);
    }
  }

  lemma TxnStored(g: Blocks.Geometry, y: Layout, m: Plain, d: Blocks.Disk, t: Txn)
    requires Stored(g, y, d, m.view) && Transaction(g, d, t.d) && Logs(y, t) && Run(y, m, t.ops).1
    requires Lands(g, y, t.d, Run(y, m, t.ops).0.view)
    ensures Stored(g, y, t.d, Run(y, m, t.ops).0.view)
  {
    hide Run, Holds, Ready, Fs.Covered, Image;
    OnlyLogged(y, m, t.ops, t.d.logged);
    Unlogging(g, y, d, m.view);
    LoggedSuffice(g, y, d.(logged := {}), t.d, m.view, Run(y, m, t.ops).0.view);
  }

  lemma Unlogging(g: Blocks.Geometry, y: Layout, d: Blocks.Disk, v: Disk)
    requires Stored(g, y, d, v)
    ensures Stored(g, y, d.(logged := {}), v)
  {
    var d' := d.(logged := {});
    forall b: nat | Used(g, d', b)
      ensures Holds(y, v, b, Image(g, d', b))
    {
      assert Used(g, d, b) && Image(g, d, b) == Image(g, d', b);
    }
  }

  /** From number from on, the disks of past hold the file systems that the run goes through. */
  ghost predicate Keeps(g: Blocks.Geometry, y: Layout, past: seq<Disk>, from: nat, d: Blocks.Disk, txns: seq<Txn>) {
    && from < |past| <= from + |txns| + 1
    && forall e :: 0 <= e < |past| - from ==>
         Stored(g, y, After(d, txns, e), past[from + e]) && Ready(g, After(d, txns, e))
  }

  /** Every commit of the run leaves the file system of its transaction on the disk. */
  lemma {:induction false} CommitsKeep(g: Blocks.Geometry, y: Layout, m: Plain, d: Blocks.Disk, txns: seq<Txn>)
    requires Stored(g, y, d, m.view) && Ready(g, d) && Follows(g, y, m, d, txns)
    requires m.past != [] && m.past[|m.past| - 1] == m.view
    ensures m.past <= Run(y, m, Ops(txns)).0.past
    ensures Keeps(g, y, Run(y, m, Ops(txns)).0.past, |m.past| - 1, d, txns)
    decreases |txns|
  {
    hide Run, Ready, Stored, Transaction, Lands, Logs;
    if txns == [] {
      RunOver(y, m);
    } else {
      var t := txns[0];
      var r := Run(y, m, t.ops);
      RunConcat(y, m, t.ops, [Commit] + Ops(txns[1..]));
      PastSame(y, m, t);
      if r.1 {
        var m' := Do(r.0, Commit);
        TxnStored(g, y, m, d, t);
        ReadyAfter(g, d, t.d);
        CommitNext(y, r.0, Ops(txns[1..]));
        CommitsKeep(g, y, m', t.d, txns[1..]);
        var past := Run(y, m', Ops(txns[1..])).0.past;
        forall e | 0 <= e < |past| - (|m.past| - 1)
          ensures Stored(g, y, After(d, txns, e), past[|m.past| - 1 + e]) && Ready(g, After(d, txns, e))
        {
          if e > 0 {
            assert After(d, txns, e) == After(t.d, txns[1..], e - 1);
            assert past[|m'.past| - 1 + (e - 1)] == past[|m.past| - 1 + e];
          }
        }
      }
    }
  }

  lemma PastSame(y: Layout, m: Plain, t: Txn)
    requires Logs(y, t)
    ensures Run(y, m, t.ops).0.past == m.past
  {
    OnlyLogged(y, m, t.ops, t.d.logged);
  }

  lemma ReadyAfter(g: Blocks.Geometry, d: Blocks.Disk, d': Blocks.Disk)
    requires Transaction(g, d, d')
    ensures Ready(g, d')
  {
  }

  lemma CommitNext(y: Layout, m: Plain, ops: seq<Op>)
    ensures Run(y, m, [Commit] + ops) == Run(y, Do(m, Commit), ops)
  {
    assert ([Commit] + ops)[1..] == ops;
  }

  /** Such operations: each of the blocks in bs is written once, with its contents at the end. */
  function Flush(g: Blocks.Geometry, y: Layout, d: Blocks.Disk, bs: seq<nat>): (r: seq<Op>)
    requires forall b :: b in bs ==> Used(g, d, b)
  {
    if bs == [] then []
    else Flush(g, y, d, bs[..|bs| - 1]) + [Op.Write(Loc(y.dev, bs[|bs| - 1]), Image(g, d, bs[|bs| - 1]))]
  }

  lemma {:induction false} FlushLogs(g: Blocks.Geometry, y: Layout, d: Blocks.Disk, bs: seq<nat>)
    requires forall b :: b in bs ==> Used(g, d, b) && b in d.logged
    ensures Logs(y, Txn(Flush(g, y, d, bs), d))
  {
    if bs != [] {
      FlushLogs(g, y, d, bs[..|bs| - 1]);
    }
  }

  lemma {:induction false} FlushLands(g: Blocks.Geometry, y: Layout, m: Plain, d: Blocks.Disk, bs: seq<nat>)
    requires (forall b :: b in bs ==> Used(g, d, b)) && Run(y, m, Flush(g, y, d, bs)).1
    ensures forall b :: b in bs ==> Holds(y, Run(y, m, Flush(g, y, d, bs)).0.view, b, Image(g, d, b))
  {
    hide Image;
    if bs != [] {
      var n := |bs| - 1;
      var op := Op.Write(Loc(y.dev, bs[n]), Image(g, d, bs[n]));
      RunConcat(y, m, Flush(g, y, d, bs[..n]), [op]);
      FlushLands(g, y, m, d, bs[..n]);
      assert [op][1..] == [];
      assert forall b :: b in bs ==> b in bs[..n] || b == bs[n];
    }
  }

  /** With them, whatever file system calls have changed and logged becomes a transaction of the
      log, as long as it has room. */
  lemma Flushed(g: Blocks.Geometry, y: Layout, m: Plain, d: Blocks.Disk, d': Blocks.Disk, bs: seq<nat>)
    requires Transaction(g, d, d') && forall b :: b in bs <==> Used(g, d', b) && b in d'.logged
    ensures Follows(g, y, m, d, [Txn(Flush(g, y, d', bs), d')])
  {
    hide Transaction, Run, Flush, Used, Image, Logs;
    FlushLogs(g, y, d', bs);
    if Run(y, m, Flush(g, y, d', bs)).1 {
      FlushLands(g, y, m, d', bs);
    }
  }

  /** What recovery makes of disk w, after any number of crashes of its own, holds the file
      system d, whose ownership is exact. */
  ghost predicate Survives(g: Blocks.Geometry, y: Layout, w: Disk, d: Blocks.Disk) {
    && WellFormed(y, w) && Ready(g, d)
    && forall js :: WellFormed(y, AfterCrashes(y, w, js)) && Stored(g, y, d, Recovered(y, AfterCrashes(y, w, js)))
  }

  /** Disk number from + i of a run holds the file system after commit number epoch[i]. */
  ghost predicate AllSurvive(g: Blocks.Geometry, y: Layout, tr: seq<Disk>, from: nat, epoch: seq<nat>,
                             d: Blocks.Disk, txns: seq<Txn>) {
    && from <= |tr| && |epoch| == |tr| - from
    && forall i :: 0 <= i < |epoch| ==>
         epoch[i] <= |txns| && Survives(g, y, tr[from + i], After(d, txns, epoch[i]))
  }

  lemma SurvivesOne(g: Blocks.Geometry, y: Layout, w: Disk, past: seq<Disk>, e: nat, d: Blocks.Disk)
    requires RecoversTo(y, w, past, e) && LaidOut(g, y) && Stored(g, y, d, past[e]) && Ready(g, d)
    ensures Survives(g, y, w, d)
  {
    hide WellFormed, Recovered, SameHome, AfterCrashes, Ready, Stored;
    forall js: seq<nat>
      ensures WellFormed(y, AfterCrashes(y, w, js)) && Stored(g, y, d, Recovered(y, AfterCrashes(y, w, js)))
    {
      CrashesStable(y, w, js);
      var w' := Recovered(y, AfterCrashes(y, w, js));
      SameHomeTrans(y, w', Recovered(y, w), past[e]);
      SameHomeKeys(y, w', past[e]);
      StoredSame(g, y, d, past[e], w');
    }
  }

  lemma FilesSurvive(g: Blocks.Geometry, y: Layout, tr: seq<Disk>, from: nat, past: seq<Disk>, epoch: seq<nat>,
                     d: Blocks.Disk, txns: seq<Txn>)
    requires Recovers(y, tr, from, past, epoch) && Keeps(g, y, past, 0, d, txns) && LaidOut(g, y)
    ensures AllSurvive(g, y, tr, from, epoch, d, txns)
  {
    hide Survives, Ready, Stored, After, LaidOut;
    forall i | 0 <= i < |epoch|
      ensures epoch[i] <= |txns| && Survives(g, y, tr[from + i], After(d, txns, epoch[i]))
    {
      var e := epoch[i];
      assert RecoversTo(y, tr[from + i], past, e);
      assert past[0 + e] == past[e];
      SurvivesOne(g, y, tr[from + i], past, e, After(d, txns, e));
    }
  }

  /** A run of transactions through the log and the buffer cache. A crash at any of its disk
      writes, and then any number of crashes in recovery, leave the file system of the last
      transaction whose header was written. */
  method Serve(log: Log, ghost g: Blocks.Geometry, ghost d: Blocks.Disk, txns: seq<Txn>, ghost m: Plain)
    returns (ok: bool, out: seq<Block>)
    requires Tied(log, m) && Enough(log) && m.out == [] && m.past == [m.view] && LaidOut(g, log.y)
    requires Ready(g, d) && Stored(g, log.y, d, m.view) && Follows(g, log.y, m, d, txns)
    requires forall k :: 0 <= k < |Ops(txns)| ==> LogRuns.Allowed(log.y, m.view, Ops(txns)[k])
    modifies log, log.bc, log.bc.lru
    ensures ok == Run(log.y, m, Ops(txns)).1 && out == Run(log.y, m, Ops(txns)).0.out
    ensures AllSurvive(g, log.y, log.bc.trace, |old(log.bc.trace)|, Epochs(log.y, m, Ops(txns)), d, txns)
    ensures ok ==> Tied(log, Run(log.y, m, Ops(txns)).0) && Enough(log)
  {
    hide Tied, Enough, Run, Epochs, AllSurvive, Recovers, Keeps, Stored, Ready, Follows, LogRuns.Allowed, Ops, LaidOut;
    ok, out := Session(log, Ops(txns), m);
    CommitsKeep(g, log.y, m, d, txns);
    FilesSurvive(g, log.y, log.bc.trace, |old(log.bc.trace)|, Run(log.y, m, Ops(txns)).0.past,
                 Epochs(log.y, m, Ops(txns)), d, txns);
  }
}
