/** What the on-disk redo log of kernel/log.c means, as functions on disk contents:
    the disks that commit and recovery go through one block write at a time, and
    what recovery makes of each of them. */
module RedoLog {
  import opened BufferCache

  /** Where the log lives: blocks [start, start + size) of dev; block start is the header. */
  datatype Layout = Layout(dev: nat, start: nat, size: nat, logsize: nat)

  function At(y: Layout, b: int): (l: Loc)
    requires b >= 0
  {
    Loc(y.dev, b)
  }

  ghost predicate InLog(y: Layout, l: Loc) {
    l.dev == y.dev && y.start <= l.bno < y.start + y.size
  }

  /** A list of home blocks that a header may name. */
  ghost predicate HomeList(y: Layout, d: Disk, bs: seq<int>) {
    && |bs| <= y.logsize && |bs| < y.size
    && forall t :: 0 <= t < |bs| ==> bs[t] >= 0 && At(y, bs[t]) in d && !InLog(y, At(y, bs[t]))
  }

  ghost predicate Distinct(bs: seq<int>) {
    forall s, t :: 0 <= s < t < |bs| ==> bs[s] != bs[t]
  }

  /** A header block: word 0 is the count, the block numbers follow. */
  ghost predicate HeaderOk(y: Layout, h: Block) {
    |h| > y.logsize && 0 <= h[0] <= y.logsize
  }

  function Listed(h: Block): (bs: seq<int>)
    requires |h| > 0 && 0 <= h[0] < |h|
    ensures |bs| == h[0]
  {
    h[1..1 + h[0]]
  }

  /** write_head: the count and the listed numbers overwrite the start of the block. */
  function WithList(h: Block, bs: seq<int>): (r: Block)
    requires |bs| < |h|
    ensures |r| == |h| && r[0] == |bs| && Listed(r) == bs
  {
    [|bs|] + bs + h[1 + |bs|..]
  }

  ghost predicate WellFormed(y: Layout, d: Disk) {
    && 0 < y.size
    && (forall b :: y.start <= b < y.start + y.size ==> At(y, b) in d)
    && HeaderOk(y, d[At(y, y.start)])
    && HomeList(y, d, Listed(d[At(y, y.start)]))
  }

  ghost function Blocks(y: Layout, d: Disk): (bs: seq<int>)
    requires WellFormed(y, d)
  {
    Listed(d[At(y, y.start)])
  }

  /** The disk after the first k blocks of a transaction went to the log. */
  ghost function Logged(y: Layout, d: Disk, vals: seq<Block>, k: nat): (r: Disk)
    requires k <= |vals|
  {
    if k == 0 then d else Logged(y, d, vals, k - 1)[At(y, y.start + k) := vals[k - 1]]
  }

  /** The disk after the first k logged blocks were copied to their homes. */
  ghost function Installed(y: Layout, d: Disk, bs: seq<int>, k: nat): (r: Disk)
    requires HomeList(y, d, bs) && k <= |bs|
    requires forall b :: y.start <= b < y.start + y.size ==> At(y, b) in d
  {
    if k == 0 then d else Installed(y, d, bs, k - 1)[At(y, bs[k - 1]) := d[At(y, y.start + k)]]
  }

  /** A disk history tr extended by k log writes, and by k home writes. */
  ghost function LogTrace(tr: seq<Disk>, y: Layout, d: Disk, vals: seq<Block>, k: nat): (r: seq<Disk>)
    requires k <= |vals|
  {
    if k == 0 then tr else LogTrace(tr, y, d, vals, k - 1) + [Logged(y, d, vals, k)]
  }

  ghost function InstallTrace(tr: seq<Disk>, y: Layout, d: Disk, bs: seq<int>, k: nat): (r: seq<Disk>)
    requires HomeList(y, d, bs) && k <= |bs|
    requires forall b :: y.start <= b < y.start + y.size ==> At(y, b) in d
  {
    if k == 0 then tr else InstallTrace(tr, y, d, bs, k - 1) + [Installed(y, d, bs, k)]
  }

  lemma {:induction false} LogTraceAt(tr: seq<Disk>, y: Layout, d: Disk, vals: seq<Block>, k: nat)
    requires k <= |vals|
    ensures var r := LogTrace(tr, y, d, vals, k);
            && |r| == |tr| + k && r[..|tr|] == tr
            && forall j :: |tr| <= j < |tr| + k ==> r[j] == Logged(y, d, vals, j - |tr| + 1)
  {
    if k > 0 {
      LogTraceAt(tr, y, d, vals, k - 1);
    }
  }

  lemma {:induction false} InstallTraceAt(tr: seq<Disk>, y: Layout, d: Disk, bs: seq<int>, k: nat)
    requires HomeList(y, d, bs) && k <= |bs|
    requires forall b :: y.start <= b < y.start + y.size ==> At(y, b) in d
    ensures var r := InstallTrace(tr, y, d, bs, k);
            && |r| == |tr| + k && r[..|tr|] == tr
            && forall j :: |tr| <= j < |tr| + k ==> r[j] == Installed(y, d, bs, j - |tr| + 1)
  {
    if k > 0 {
      InstallTraceAt(tr, y, d, bs, k - 1);
    }
  }

  ghost function WithHeader(y: Layout, d: Disk, bs: seq<int>): (r: Disk)
    requires At(y, y.start) in d && |bs| < |d[At(y, y.start)]|
  {
    d[At(y, y.start) := WithList(d[At(y, y.start)], bs)]
  }

  /** What recover_from_log leaves on the disk. */
  ghost function Recovered(y: Layout, d: Disk): (r: Disk)
    requires WellFormed(y, d)
  {
    var r := Installed(y, d, Blocks(y, d), |Blocks(y, d)|);
    InstalledKeeps(y, d, Blocks(y, d), |Blocks(y, d)|);
    WithHeader(y, r, [])
  }

  /** The j-th disk that a recovery of d goes through; j = 0 is d itself. */
  ghost function RecoveryDisk(y: Layout, d: Disk, j: nat): (r: Disk)
    requires WellFormed(y, d) && j <= |Blocks(y, d)| + 1
  {
    if j <= |Blocks(y, d)| then Installed(y, d, Blocks(y, d), j) else Recovered(y, d)
  }

  /** The home blocks bs updated to vals: the transaction's effect. */
  ghost function Updated(y: Layout, d: Disk, bs: seq<int>, vals: seq<Block>, k: nat): (r: Disk)
    requires k <= |bs| == |vals| && forall t :: 0 <= t < |bs| ==> bs[t] >= 0
  {
    if k == 0 then d else Updated(y, d, bs, vals, k - 1)[At(y, bs[k - 1]) := vals[k - 1]]
  }

  /** The j-th disk that commit goes through; j = 0 is d itself. */
  ghost function CommitDisk(y: Layout, d: Disk, bs: seq<int>, vals: seq<Block>, j: nat): (r: Disk)
    requires WellFormed(y, d) && HomeList(y, d, bs) && |bs| == |vals| && j <= 2 * |bs| + 2
  {
    if j <= |bs| then Logged(y, d, vals, j)
    else
      CommittedIsNew(y, d, bs, vals);
      RecoveryDisk(y, Committed(y, d, bs, vals), j - |bs| - 1)
  }

  /** Same blocks everywhere outside the log area. */
  ghost predicate SameHome(y: Layout, d: Disk, e: Disk) {
    d.Keys == e.Keys && forall l :: l in d && !InLog(y, l) ==> d[l] == e[l]
  }

  lemma {:induction false} InstalledKeeps(y: Layout, d: Disk, bs: seq<int>, k: nat)
    requires HomeList(y, d, bs) && k <= |bs|
    requires forall b :: y.start <= b < y.start + y.size ==> At(y, b) in d
    ensures Installed(y, d, bs, k).Keys == d.Keys
    ensures forall l :: l in d && InLog(y, l) ==> Installed(y, d, bs, k)[l] == d[l]
  {
    if k > 0 {
      InstalledKeeps(y, d, bs, k - 1);
    }
  }

  lemma {:induction false} LoggedKeeps(y: Layout, d: Disk, vals: seq<Block>, k: nat)
    requires k <= |vals| < y.size
    requires forall b :: y.start <= b < y.start + y.size ==> At(y, b) in d
    ensures Logged(y, d, vals, k).Keys == d.Keys
    ensures forall l :: l in d && (!InLog(y, l) || l == At(y, y.start)) ==> Logged(y, d, vals, k)[l] == d[l]
    ensures forall t :: 0 <= t < k ==> Logged(y, d, vals, k)[At(y, y.start + 1 + t)] == vals[t]
  {
    if k > 0 {
      LoggedKeeps(y, d, vals, k - 1);
    }
  }

  /** Installing from a disk whose log holds vals is the transaction's effect. */
  lemma {:induction false} InstallIsUpdate(y: Layout, c: Disk, d: Disk, bs: seq<int>, vals: seq<Block>, k: nat)
    requires HomeList(y, c, bs) && k <= |bs| == |vals| && SameHome(y, c, d)
    requires forall b :: y.start <= b < y.start + y.size ==> At(y, b) in c
    requires forall t :: 0 <= t < |bs| ==> c[At(y, y.start + 1 + t)] == vals[t]
    ensures SameHome(y, Installed(y, c, bs, k), Updated(y, d, bs, vals, k))
  {
    if k > 0 {
      InstallIsUpdate(y, c, d, bs, vals, k - 1);
    }
  }

  lemma {:induction false} Untouched(y: Layout, d: Disk, bs: seq<int>, k: nat, l: Loc)
    requires HomeList(y, d, bs) && k <= |bs| && l in d
    requires forall b :: y.start <= b < y.start + y.size ==> At(y, b) in d
    requires forall t :: 0 <= t < k ==> l != At(y, bs[t])
    ensures l in Installed(y, d, bs, k) && Installed(y, d, bs, k)[l] == d[l]
  {
    if k > 0 {
      Untouched(y, d, bs, k - 1, l);
    }
  }

  /** An installed home block depends on the log area alone. */
  lemma {:induction false} FromLog(y: Layout, d: Disk, e: Disk, bs: seq<int>, k: nat, t: nat)
    requires HomeList(y, d, bs) && HomeList(y, e, bs) && t < k <= |bs|
    requires forall b :: y.start <= b < y.start + y.size ==>
               At(y, b) in d && At(y, b) in e && d[At(y, b)] == e[At(y, b)]
    ensures var l := At(y, bs[t]);
            && l in Installed(y, d, bs, k) && l in Installed(y, e, bs, k)
            && Installed(y, d, bs, k)[l] == Installed(y, e, bs, k)[l]
  {
    if bs[k - 1] != bs[t] {
      FromLog(y, d, e, bs, k - 1, t);
    }
  }

  /** Installing again from the start, over a partly installed disk, ends the same. */
  lemma Reinstalled(y: Layout, d: Disk, bs: seq<int>, j: nat)
    requires HomeList(y, d, bs) && j <= |bs|
    requires forall b :: y.start <= b < y.start + y.size ==> At(y, b) in d
    ensures Installed(y, d, bs, j).Keys == d.Keys
    ensures Installed(y, Installed(y, d, bs, j), bs, |bs|) == Installed(y, d, bs, |bs|)
  {
    var e, n := Installed(y, d, bs, j), |bs|;
    InstalledKeeps(y, d, bs, j);
    InstalledKeeps(y, d, bs, n);
    InstalledKeeps(y, e, bs, n);
    forall l | l in d ensures Installed(y, e, bs, n)[l] == Installed(y, d, bs, n)[l] {
      if t :| 0 <= t < n && l == At(y, bs[t]) {
        FromLog(y, d, e, bs, n, t);
      } else {
        Untouched(y, d, bs, j, l);
        Untouched(y, d, bs, n, l);
        Untouched(y, e, bs, n, l);
      }
    }
  }

  lemma InstalledWellFormed(y: Layout, d: Disk, j: nat)
    requires WellFormed(y, d) && j <= |Blocks(y, d)|
    ensures WellFormed(y, Installed(y, d, Blocks(y, d), j))
    ensures Blocks(y, Installed(y, d, Blocks(y, d), j)) == Blocks(y, d)
  {
    InstalledKeeps(y, d, Blocks(y, d), j);
  }

  lemma RecoveredWellFormed(y: Layout, d: Disk)
    requires WellFormed(y, d)
    ensures WellFormed(y, Recovered(y, d)) && Blocks(y, Recovered(y, d)) == []
    ensures SameHome(y, Recovered(y, Recovered(y, d)), Recovered(y, d))
  {
    InstalledKeeps(y, d, Blocks(y, d), |Blocks(y, d)|);
  }

  /** Every disk that recovery goes through recovers to the same homes. */
  lemma RecoveryStable(y: Layout, d: Disk, j: nat)
    requires WellFormed(y, d) && j <= |Blocks(y, d)| + 1
    ensures WellFormed(y, RecoveryDisk(y, d, j))
    ensures Blocks(y, RecoveryDisk(y, d, j)) == Blocks(y, d) || Blocks(y, RecoveryDisk(y, d, j)) == []
    ensures SameHome(y, Recovered(y, RecoveryDisk(y, d, j)), Recovered(y, d))
  {
    if j <= |Blocks(y, d)| {
      InstalledWellFormed(y, d, j);
      Reinstalled(y, d, Blocks(y, d), j);
      InstalledKeeps(y, d, Blocks(y, d), |Blocks(y, d)|);
    } else {
      RecoveredWellFormed(y, d);
    }
  }

  /** The disk after a history of reboots: the i-th recovery stops after js[i]
      writes, or completes if it needs fewer. */
  ghost function AfterCrashes(y: Layout, d: Disk, js: seq<nat>): (r: Disk)
    requires WellFormed(y, d)
    decreases |js|
  {
    if js == [] then d
    else
      var n := |Blocks(y, d)|;
      var j := if js[0] <= n + 1 then js[0] else n + 1;
      RecoveryStable(y, d, j);
      AfterCrashes(y, RecoveryDisk(y, d, j), js[1..])
  }

  /** Any number of crashes during recovery changes nothing about the outcome. */
  lemma {:induction false} CrashesStable(y: Layout, d: Disk, js: seq<nat>)
    requires WellFormed(y, d)
    ensures WellFormed(y, AfterCrashes(y, d, js))
    ensures SameHome(y, Recovered(y, AfterCrashes(y, d, js)), Recovered(y, d))
    decreases |js|
  {
    if js != [] {
      var n := |Blocks(y, d)|;
      var j := if js[0] <= n + 1 then js[0] else n + 1;
      RecoveryStable(y, d, j);
      CrashesStable(y, RecoveryDisk(y, d, j), js[1..]);
    }
  }

  /** The disk on which commit's header write has just landed. */
  ghost function Committed(y: Layout, d: Disk, bs: seq<int>, vals: seq<Block>): (c: Disk)
    requires WellFormed(y, d) && HomeList(y, d, bs) && |bs| == |vals|
    ensures WellFormed(y, c) && Blocks(y, c) == bs
  {
    LoggedKeeps(y, d, vals, |bs|);
    WithHeader(y, Logged(y, d, vals, |bs|), bs)
  }

  lemma CommittedIsNew(y: Layout, d: Disk, bs: seq<int>, vals: seq<Block>)
    requires WellFormed(y, d) && HomeList(y, d, bs) && |bs| == |vals|
    ensures var c := Committed(y, d, bs, vals);
            SameHome(y, Recovered(y, c), Updated(y, d, bs, vals, |bs|))
  {
    LoggedKeeps(y, d, vals, |bs|);
    var c := Committed(y, d, bs, vals);
    InstallIsUpdate(y, c, d, bs, vals, |bs|);
    InstalledKeeps(y, c, bs, |bs|);
  }

  lemma UncommittedIsOld(y: Layout, d: Disk, vals: seq<Block>, j: nat)
    requires WellFormed(y, d) && Blocks(y, d) == [] && j <= |vals| < y.size
    ensures WellFormed(y, Logged(y, d, vals, j)) && Blocks(y, Logged(y, d, vals, j)) == []
    ensures SameHome(y, Recovered(y, Logged(y, d, vals, j)), d)
  {
    LoggedKeeps(y, d, vals, j);
  }

  /** The commit point: a crash after j of commit's writes recovers to the old
      homes when j <= n and to the new ones from the header write on. */
  lemma CommitPoint(y: Layout, d: Disk, bs: seq<int>, vals: seq<Block>, j: nat)
    requires WellFormed(y, d) && Blocks(y, d) == [] && HomeList(y, d, bs) && |bs| == |vals|
    requires j <= 2 * |bs| + 2
    ensures WellFormed(y, CommitDisk(y, d, bs, vals, j))
    ensures Blocks(y, CommitDisk(y, d, bs, vals, j)) == bs || Blocks(y, CommitDisk(y, d, bs, vals, j)) == []
    ensures SameHome(y, Recovered(y, CommitDisk(y, d, bs, vals, j)),
                     if j <= |bs| then d else Updated(y, d, bs, vals, |bs|))
  {
    if j <= |bs| {
      UncommittedIsOld(y, d, vals, j);
    } else {
      CommittedIsNew(y, d, bs, vals);
      RecoveryStable(y, Committed(y, d, bs, vals), j - |bs| - 1);
    }
  }

  /** Crash atomicity: stop commit after any j writes, crash any number of times
      while recovering, and the homes end all old or all new; new exactly when the
      header write was among the j. */
  lemma CrashAtomic(y: Layout, d: Disk, bs: seq<int>, vals: seq<Block>, j: nat, js: seq<nat>)
    requires WellFormed(y, d) && Blocks(y, d) == [] && HomeList(y, d, bs) && |bs| == |vals|
    requires j <= 2 * |bs| + 2
    ensures WellFormed(y, CommitDisk(y, d, bs, vals, j))
    ensures WellFormed(y, AfterCrashes(y, CommitDisk(y, d, bs, vals, j), js))
    ensures SameHome(y, Recovered(y, AfterCrashes(y, CommitDisk(y, d, bs, vals, j), js)),
                     if j <= |bs| then d else Updated(y, d, bs, vals, |bs|))
  {
    CommitPoint(y, d, bs, vals, j);
    CrashesStable(y, CommitDisk(y, d, bs, vals, j), js);
  }

  /** The transaction's effect, block by block: with distinct homes, each listed
      block gets its own value and no other home block changes. */
  lemma {:induction false} UpdatedAt(y: Layout, d: Disk, bs: seq<int>, vals: seq<Block>, k: nat, l: Loc)
    requires k <= |bs| == |vals| && Distinct(bs) && (forall t :: 0 <= t < |bs| ==> bs[t] >= 0)
    ensures forall t :: 0 <= t < k && l == At(y, bs[t]) ==>
              l in Updated(y, d, bs, vals, k) && Updated(y, d, bs, vals, k)[l] == vals[t]
    ensures (forall t :: 0 <= t < k ==> l != At(y, bs[t])) && l in d ==>
              l in Updated(y, d, bs, vals, k) && Updated(y, d, bs, vals, k)[l] == d[l]
  {
    if k > 0 {
      UpdatedAt(y, d, bs, vals, k - 1, l);
    }
  }

  /** A disk history tr extended by a whole commit. */
  ghost function CommitTrace(tr: seq<Disk>, y: Layout, d: Disk, bs: seq<int>, vals: seq<Block>): (r: seq<Disk>)
    requires WellFormed(y, d) && HomeList(y, d, bs) && |bs| == |vals|
  {
    var c := Committed(y, d, bs, vals);
    CommittedIsNew(y, d, bs, vals);
    InstallTrace(LogTrace(tr, y, d, vals, |bs|) + [c], y, c, bs, |bs|) + [Recovered(y, c)]
  }

  /** The disks of that history are the CommitDisks, in order. */
  lemma CommitTraceAt(tr: seq<Disk>, y: Layout, d: Disk, bs: seq<int>, vals: seq<Block>)
    requires WellFormed(y, d) && HomeList(y, d, bs) && |bs| == |vals|
    ensures var r := CommitTrace(tr, y, d, bs, vals);
            && |r| == |tr| + 2 * |bs| + 2 && r[..|tr|] == tr
            && forall j :: |tr| <= j < |r| ==> r[j] == CommitDisk(y, d, bs, vals, j - |tr| + 1)
  {
    CommittedIsNew(y, d, bs, vals);
    var c := Committed(y, d, bs, vals);
    var lt := LogTrace(tr, y, d, vals, |bs|);
    LogTraceAt(tr, y, d, vals, |bs|);
    InstallTraceAt(lt + [c], y, c, bs, |bs|);
    var r := CommitTrace(tr, y, d, bs, vals);
    assert r[..|tr|] == (lt + [c])[..|tr|] == lt[..|tr|];
    forall j | |tr| <= j < |r| ensures r[j] == CommitDisk(y, d, bs, vals, j - |tr| + 1) {
      if j < |lt| {
        assert r[j] == (lt + [c])[j] == lt[j];
      } else if j == |lt| {
        assert r[j] == (lt + [c])[j];
      }
    }
  }

  /** A disk history tr extended by a whole recovery. */
  ghost function RecoveryTrace(tr: seq<Disk>, y: Layout, d: Disk): (r: seq<Disk>)
    requires WellFormed(y, d)
  {
    InstallTrace(tr, y, d, Blocks(y, d), |Blocks(y, d)|) + [Recovered(y, d)]
  }

  lemma RecoveryTraceAt(tr: seq<Disk>, y: Layout, d: Disk)
    requires WellFormed(y, d)
    ensures var r := RecoveryTrace(tr, y, d);
            && |r| == |tr| + |Blocks(y, d)| + 1 && r[..|tr|] == tr
            && forall j :: |tr| <= j < |r| ==> r[j] == RecoveryDisk(y, d, j - |tr| + 1)
  {
    InstallTraceAt(tr, y, d, Blocks(y, d), |Blocks(y, d)|);
    var it := InstallTrace(tr, y, d, Blocks(y, d), |Blocks(y, d)|);
    assert RecoveryTrace(tr, y, d)[..|tr|] == it[..|tr|];
  }

  /** Writing back what is already there changes nothing. */
  lemma {:induction false} UpdatedSelf(y: Layout, v: Disk, bs: seq<int>, vals: seq<Block>, k: nat)
    requires k <= |bs| == |vals|
    requires forall t :: 0 <= t < |bs| ==> bs[t] >= 0 && At(y, bs[t]) in v && v[At(y, bs[t])] == vals[t]
    ensures Updated(y, v, bs, vals, k) == v
  {
    if k > 0 {
      UpdatedSelf(y, v, bs, vals, k - 1);
    }
  }

  /** If d and v differ, outside the log, only in the listed blocks, then giving d
      the contents that v has there makes the homes those of v. */
  lemma UpdatedToView(y: Layout, d: Disk, v: Disk, bs: seq<int>, vals: seq<Block>)
    requires |bs| == |vals| && Distinct(bs) && d.Keys == v.Keys
    requires forall t :: 0 <= t < |bs| ==> bs[t] >= 0 && At(y, bs[t]) in v && v[At(y, bs[t])] == vals[t]
    requires forall l :: l in d && !InLog(y, l) && v[l] != d[l] ==> exists t :: 0 <= t < |bs| && l == At(y, bs[t])
    ensures SameHome(y, Updated(y, d, bs, vals, |bs|), v)
  {
    var u := Updated(y, d, bs, vals, |bs|);
    UpdatedKeys(y, d, bs, vals, |bs|);
    forall l | l in u && !InLog(y, l) ensures u[l] == v[l] {
      UpdatedAt(y, d, bs, vals, |bs|, l);
    }
  }

  lemma {:induction false} UpdatedKeys(y: Layout, d: Disk, bs: seq<int>, vals: seq<Block>, k: nat)
    requires k <= |bs| == |vals|
    requires forall t :: 0 <= t < |bs| ==> bs[t] >= 0 && At(y, bs[t]) in d
    ensures Updated(y, d, bs, vals, k).Keys == d.Keys
  {
    if k > 0 {
      UpdatedKeys(y, d, bs, vals, k - 1);
    }
  }
}
