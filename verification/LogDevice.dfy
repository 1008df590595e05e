/** The running log of kernel/log.c on top of the buffer cache: the loops that
    copy blocks between cache, log area and home locations, commit and recovery. */
module LogDevice {
  import opened Common
  import opened BufferCache
  import opened RedoLog
  import Lru
  import Ring

  /** Each listed block from k on has a buffer, pinned once, and nothing else is pinned. */
  ghost predicate Pinned(y: Layout, t: Bufs, g: Meaning, bs: seq<int>, slot: seq<nat>, k: nat) {
    && k <= |slot| == |bs| && |t.loc| == |g.pins|
    && (forall j :: k <= j < |bs| ==> bs[j] >= 0 && slot[j] < |t.loc| && t.loc[slot[j]] == At(y, bs[j]))
    && (forall i :: 0 <= i < |g.pins| ==> g.pins[i] == if i in slot[k..] then 1 else 0)
  }

  lemma PinnedAt(y: Layout, t: Bufs, g: Meaning, bs: seq<int>, slot: seq<nat>, k: nat, j: nat)
    requires Pinned(y, t, g, bs, slot, k) && k <= j < |bs|
    ensures |slot| == |bs| && bs[j] >= 0 && slot[j] < |t.loc| == |g.pins| && g.pins[slot[j]] == 1
    ensures t.loc[slot[j]] == At(y, bs[j])
  {
    assert slot[j] == slot[k..][j - k];
  }

  /** The first pinned buffer loses its pin. */
  lemma PinnedNext(y: Layout, t: Bufs, g: Meaning, bs: seq<int>, slot: seq<nat>, k: nat, t': Bufs, g': Meaning)
    requires Pinned(y, t, g, bs, slot, k) && k < |bs| && Distinct(bs) && |t'.loc| == |t.loc|
    requires forall j :: k < j < |bs| && slot[j] < |t.loc| ==> t'.loc[slot[j]] == t.loc[slot[j]]
    requires slot[k] < |g.pins| && g.pins[slot[k]] > 0 && g'.pins == g.pins[slot[k] := g.pins[slot[k]] - 1]
    ensures Pinned(y, t', g', bs, slot, k + 1)
  {
    PinnedAt(y, t, g, bs, slot, k, k);
    forall j | k < j < |bs|
      ensures slot[j] != slot[k]
    {
      PinnedAt(y, t, g, bs, slot, k, j);
    }
    assert slot[k..] == [slot[k]] + slot[k + 1..];
  }

  lemma PinnedNextAfter(y: Layout, t: Bufs, g: Meaning, bs: seq<int>, slot: seq<nat>, k: nat, t': Bufs, g': Meaning)
    requires Pinned(y, t, g, bs, slot, k) && k < |bs| && Distinct(bs) && |t'.loc| == |t.loc|
    requires forall i :: 0 <= i < |t.loc| && g.pins[i] > 0 ==> t'.loc[i] == t.loc[i]
    requires slot[k] < |g.pins| && g.pins[slot[k]] > 0 && g'.pins == g.pins[slot[k] := g.pins[slot[k]] - 1]
    ensures Pinned(y, t', g', bs, slot, k + 1)
  {
    forall j | k < j < |bs| && slot[j] < |t.loc|
      ensures t'.loc[slot[j]] == t.loc[slot[j]]
    {
      PinnedAt(y, t, g, bs, slot, k, j);
    }
    PinnedNext(y, t, g, bs, slot, k, t', g');
  }

  lemma NonePinned(y: Layout, t: Bufs, g: Meaning, n: nat)
    requires Shape(n, t, g) && forall i :: 0 <= i < |g.pins| ==> g.pins[i] == 0
    ensures Pinned(y, t, g, [], [], 0)
  {
  }

  /** A buffer that differs from the disk is pinned. */
  lemma DirtyPinned(n: nat, t: Bufs, g: Meaning, d: Disk, y: Layout, bs: seq<int>, slot: seq<nat>, i: nat)
    requires Ok(n, t, g, d) && Pinned(y, t, g, bs, slot, 0) && DirtyFrom(y, g, bs, 0) && i < n && y.dev != 0
    ensures t.loc[i] in g.dirty ==> g.pins[i] == 1
  {
    if t.loc[i] in g.dirty {
      var j :| 0 <= j < |bs[0..]| && bs[0..][j] == t.loc[i].bno;
      PinnedAt(y, t, g, bs, slot, 0, j);
      SlotOf(n, t, g, d, slot[j], i);
    }
  }

  /** A pinned buffer is not an unused one. */
  lemma PinnedFree(n: nat, t: Bufs, g: Meaning, d: Disk, y: Layout, bs: seq<int>, slot: seq<nat>, k: nat, s: nat)
    requires Ok(n, t, g, d) && Pinned(y, t, g, bs, slot, k) && k < |bs| && s < n && t.refcnt[s] == 0
    ensures k < |slot| && slot[k] < n && slot[k] != s
  {
    PinnedAt(y, t, g, bs, slot, k, k);
  }

  lemma RecoversNone(y: Layout, tr: seq<Disk>, d: Disk, v: Disk)
    ensures CommitRecovers(y, tr, tr, 0, d, v)
  {
  }

  lemma AllListedNone(y: Layout, d: Disk, v: Disk)
    requires AllListed(y, d, v, [])
    ensures SameHome(y, d, v) && SameHome(y, v, v)
  {
  }

  /** When every listed block is installed, nothing is pinned and nothing is dirty. */
  lemma NothingLeft(y: Layout, t: Bufs, g: Meaning, bs: seq<int>, slot: seq<nat>)
    requires Pinned(y, t, g, bs, slot, |bs|) && DirtyFrom(y, g, bs, |bs|)
    ensures Pinned(y, t, g, [], [], 0) && DirtyFrom(y, g, [], 0) && g.dirty == {}
    ensures forall i :: 0 <= i < |g.pins| ==> g.pins[i] == 0
  {
    assert slot[|bs|..] == [] && bs[|bs|..] == [];
  }

  lemma PinnedSame(y: Layout, t: Bufs, g: Meaning, bs: seq<int>, slot: seq<nat>, k: nat, t': Bufs, g': Meaning)
    requires Pinned(y, t, g, bs, slot, k) && |t'.loc| == |t.loc| && g'.pins == g.pins
    requires forall i :: 0 <= i < |t.loc| && g.pins[i] > 0 ==> t'.loc[i] == t.loc[i]
    ensures Pinned(y, t', g', bs, slot, k)
  {
    forall j | k <= j < |bs|
      ensures t'.loc[slot[j]] == At(y, bs[j])
    {
      PinnedAt(y, t, g, bs, slot, k, j);
    }
  }

  lemma PinnedMore(y: Layout, t: Bufs, g: Meaning, bs: seq<int>, slot: seq<nat>, i: nat, t': Bufs, g': Meaning, b: int)
    requires Pinned(y, t, g, bs, slot, 0) && i < |t.loc| && t'.loc == t.loc && b >= 0 && t.loc[i] == At(y, b)
    requires b !in bs
    requires i < |g.pins| && g'.pins == g.pins[i := g.pins[i] + 1]
    ensures Pinned(y, t', g', bs + [b], slot + [i], 0)
  {
    forall j | 0 <= j < |slot|
      ensures slot[j] != i
    {
      assert bs[j] != b;
    }
    assert slot[0..] == slot && (slot + [i])[0..] == slot + [i];
  }

  /** The blocks whose buffers differ from the disk are listed, from k on. */
  ghost predicate DirtyFrom(y: Layout, g: Meaning, bs: seq<int>, k: nat) {
    k <= |bs| && forall l :: l in g.dirty ==> l.dev == y.dev && l.bno in bs[k..]
  }

  lemma DirtyLess(y: Layout, g: Meaning, g': Meaning, bs: seq<int>, k: nat)
    requires DirtyFrom(y, g, bs, k) && g'.dirty <= g.dirty
    ensures DirtyFrom(y, g', bs, k)
  {
  }

  /** A block joins the list, or is there already. */
  lemma DirtyMore(y: Layout, g: Meaning, g': Meaning, bs: seq<int>, bs': seq<int>, l: Loc)
    requires DirtyFrom(y, g.(dirty := g.dirty - {l}), bs, 0) && g'.dirty == g.dirty && l.dev == y.dev && l.bno in bs'
    requires forall b :: b in bs ==> b in bs'
    ensures DirtyFrom(y, g', bs', 0)
  {
    assert bs[0..] == bs && bs'[0..] == bs';
  }

  lemma DirtyNext(y: Layout, g: Meaning, g': Meaning, bs: seq<int>, k: nat)
    requires DirtyFrom(y, g, bs, k) && k < |bs| && bs[k] >= 0 && g'.dirty == g.dirty - {At(y, bs[k])}
    ensures DirtyFrom(y, g', bs, k + 1)
  {
    assert bs[k..] == [bs[k]] + bs[k + 1..];
  }

  // Buffers to spare.

  /** The buffers that somebody has open. */
  ghost function Held(refs: seq<nat>): (r: set<nat>) {
    set i | 0 <= i < |refs| && refs[i] > 0
  }

  ghost function Elements(s: seq<nat>): (r: set<nat>) {
    set i | i in s
  }

  lemma {:induction false} FewElements(s: seq<nat>)
    ensures |Elements(s)| <= |s|
  {
    if s == [] {
      assert Elements(s) == {};
    } else {
      FewElements(s[1..]);
      assert Elements(s) == {s[0]} + Elements(s[1..]);
    }
  }

  /** Some buffer is unused if and only if fewer than all of them are open or pinned. */
  lemma SpareExactly(n: nat, t: Bufs, g: Meaning, d: Disk, y: Layout, bs: seq<int>, slot: seq<nat>)
    requires Ok(n, t, g, d) && Pinned(y, t, g, bs, slot, 0)
    ensures (exists s :: 0 <= s < n && t.refcnt[s] == 0) <==> |Held(g.refs) + Elements(slot)| < n
  {
    var used := Held(g.refs) + Elements(slot);
    assert slot[0..] == slot;
    forall i: nat
      ensures i in used <==> i < n && t.refcnt[i] > 0
    {
      if i in slot {
        var j :| 0 <= j < |slot| && slot[j] == i;
        PinnedAt(y, t, g, bs, slot, 0, j);
      }
    }
    SubsetSize(used, Ring.Below(n));
    if exists s :: 0 <= s < n && t.refcnt[s] == 0 {
      var s: nat :| 0 <= s < n && t.refcnt[s] == 0;
      SubsetSize(used, Ring.Below(n) - {s});
    } else {
      assert used == Ring.Below(n);
    }
  }

  lemma SpareBuffer(n: nat, t: Bufs, g: Meaning, d: Disk, y: Layout, bs: seq<int>, slot: seq<nat>) returns (s: nat)
    requires Ok(n, t, g, d) && Pinned(y, t, g, bs, slot, 0) && |Held(g.refs) + Elements(slot)| < n
    ensures s < n && t.refcnt[s] == 0
  {
    SpareExactly(n, t, g, d, y, bs, slot);
    s :| 0 <= s < n && t.refcnt[s] == 0;
  }

  /** With nothing pinned, and two buffers more than are open, two are unused. */
  lemma TwoSpare(n: nat, t: Bufs, g: Meaning, d: Disk) returns (s: nat, p: nat)
    requires Ok(n, t, g, d) && |Held(g.refs)| + 1 < n && forall i :: 0 <= i < |g.pins| ==> g.pins[i] == 0
    ensures s < n && p < n && s != p && t.refcnt[s] == 0 && t.refcnt[p] == 0
  {
    SpareBut(n, t, g, d, {});
    s :| 0 <= s < n && s !in {} && t.refcnt[s] == 0;
    SpareBut(n, t, g, d, {s});
    p :| 0 <= p < n && p !in {s} && t.refcnt[p] == 0;
  }

  lemma SpareBut(n: nat, t: Bufs, g: Meaning, d: Disk, avoid: set<nat>)
    requires Ok(n, t, g, d) && |Held(g.refs) + avoid| < n && forall i :: 0 <= i < |g.pins| ==> g.pins[i] == 0
    ensures exists s :: 0 <= s < n && s !in avoid && t.refcnt[s] == 0
  {
    if forall i :: 0 <= i < n && i !in avoid ==> t.refcnt[i] > 0 {
      SubsetSize(Ring.Below(n), Held(g.refs) + avoid);
      assert false;
    }
  }

  /** With as many blocks logged as there are buffers, all of them are pinned: the next block
      that is not in the log finds no buffer, and bget panics. */
  lemma FullLogStarves(n: nat, t: Bufs, g: Meaning, d: Disk, y: Layout, bs: seq<int>, slot: seq<nat>)
    requires Ok(n, t, g, d) && Pinned(y, t, g, bs, slot, 0) && Distinct(bs) && |bs| == n
    ensures forall i :: 0 <= i < n ==> t.refcnt[i] > 0
  {
    forall j | 0 <= j < n
      ensures slot[j] < n
    {
      PinnedAt(y, t, g, bs, slot, 0, j);
    }
    forall j, k | 0 <= j < k < n
      ensures slot[j] != slot[k]
    {
      PinnedAt(y, t, g, bs, slot, 0, j);
      PinnedAt(y, t, g, bs, slot, 0, k);
    }
    forall i | 0 <= i < n
      ensures t.refcnt[i] > 0
    {
      Ring.Covers(slot, i);
      assert slot[0..] == slot;
    }
  }

  /** The log area lies on the disk with room for a header, and the logged blocks
      are distinct home blocks. */
  ghost predicate Listable(y: Layout, d: Disk, bs: seq<int>) {
    && y.dev != 0 && 0 < y.size && (forall b :: y.start <= b < y.start + y.size ==> At(y, b) in d)
    && |d[At(y, y.start)]| > y.logsize
    && HomeList(y, d, bs) && Distinct(bs)
  }

  /** The contents that clients see in the listed blocks. */
  ghost function Contents(y: Layout, view: Disk, bs: seq<int>): (vals: seq<Block>)
    requires HomeList(y, view, bs)
    ensures |vals| == |bs| && forall k :: 0 <= k < |bs| ==> vals[k] == view[At(y, bs[k])]
  {
    seq(|bs|, k requires 0 <= k < |bs| => view[At(y, bs[k])])
  }

  lemma LoggedView(y: Layout, view: Disk, bs: seq<int>, vals: seq<Block>, k: nat)
    requires Listable(y, view, bs) && |vals| == |bs| && k <= |bs|
    ensures Listable(y, Logged(y, view, vals, k), bs)
    ensures forall j :: 0 <= j < |bs| ==> Logged(y, view, vals, k)[At(y, bs[j])] == view[At(y, bs[j])]
    ensures Logged(y, view, vals, k).Keys == view.Keys
  {
    LoggedKeeps(y, view, vals, k);
  }

  lemma ListableDev(y: Layout, d: Disk, bs: seq<int>)
    requires Listable(y, d, bs)
    ensures y.dev != 0
  {
  }

  /** Changing a home block leaves the log as it is. */
  lemma ListableHome(y: Layout, d: Disk, bs: seq<int>, l: Loc, blk: Block)
    requires Listable(y, d, bs) && l in d && !InLog(y, l)
    ensures Listable(y, d[l := blk], bs)
  {
    assert InLog(y, At(y, y.start));
  }

  lemma CleanView(n: nat, t: Bufs, g: Meaning, d: Disk)
    requires Ok(n, t, g, d) && g.dirty == {}
    ensures g.view == d
  {
  }

  lemma LogClean(n: nat, t: Bufs, g: Meaning, d: Disk, y: Layout, bs: seq<int>, k: nat)
    requires Ok(n, t, g, d) && Listable(y, g.view, bs) && DirtyFrom(y, g, bs, k)
    ensures forall l :: l in g.dirty ==> !InLog(y, l)
    ensures forall l :: l in d && InLog(y, l) ==> g.view[l] == d[l]
  {
    forall l | l in g.dirty
      ensures !InLog(y, l)
    {
      var j :| 0 <= j < |bs[k..]| && bs[k..][j] == l.bno;
      assert bs[k + j] == l.bno;
    }
  }

  lemma InstalledLog(y: Layout, v: Disk, bs: seq<int>, k: nat, j: nat)
    requires Listable(y, v, bs) && k <= |bs| && j < |bs|
    ensures var l := At(y, y.start + j + 1);
            InLog(y, l) && l in v && Installed(y, v, bs, k).Keys == v.Keys && Installed(y, v, bs, k)[l] == v[l]
  {
    InstalledKeeps(y, v, bs, k);
  }

  // What iteration k of install_trans adds, on a disk d and a logical disk v that
  // agree on the log area.
  lemma InstallStep(y: Layout, d: Disk, v: Disk, tr: seq<Disk>, bs: seq<int>, k: nat)
    requires Listable(y, d, bs) && Listable(y, v, bs) && k < |bs|
    requires forall l :: l in d && InLog(y, l) ==> l in v && v[l] == d[l]
    ensures var src, dst := At(y, y.start + k + 1), At(y, bs[k]);
            && src in Installed(y, v, bs, k)
            && var b := Installed(y, v, bs, k)[src];
               && Installed(y, d, bs, k + 1) == Installed(y, d, bs, k)[dst := b]
               && Installed(y, v, bs, k + 1) == Installed(y, v, bs, k)[dst := b]
               && InstallTrace(tr, y, d, bs, k + 1) == InstallTrace(tr, y, d, bs, k) + [Installed(y, d, bs, k + 1)]
  {
    InstalledLog(y, v, bs, k, k);
    InstalledLog(y, d, bs, k, k);
  }

  /** The logical disk that commit leaves: same homes, an empty log. */
  lemma CommitKeepsView(y: Layout, v: Disk, bs: seq<int>, vals: seq<Block>)
    requires Listable(y, v, bs) && vals == Contents(y, v, bs)
    ensures At(y, y.start) in Logged(y, v, vals, |bs|) && |bs| < |Logged(y, v, vals, |bs|)[At(y, y.start)]|
    ensures var c := WithHeader(y, Logged(y, v, vals, |bs|), bs);
            Listable(y, c, bs) && SameHome(y, Installed(y, c, bs, |bs|), v)
  {
    LoggedKeeps(y, v, vals, |bs|);
    var c := WithHeader(y, Logged(y, v, vals, |bs|), bs);
    InstallIsUpdate(y, c, v, bs, vals, |bs|);
    UpdatedSelf(y, v, bs, vals, |bs|);
  }

  /** Outside the log, clients see something else than the disk only in listed blocks. */
  ghost predicate AllListed(y: Layout, d: Disk, v: Disk, bs: seq<int>) {
    && d.Keys == v.Keys && (forall t :: 0 <= t < |bs| ==> bs[t] >= 0)
    && forall l :: l in d && !InLog(y, l) && v[l] != d[l] ==> exists t :: 0 <= t < |bs| && l == At(y, bs[t])
  }

  /** r extends tr by a commit of n blocks; every new disk recovers to the homes of d
      when it comes before the header write, number n, and to those of v otherwise. */
  ghost predicate CommitRecovers(y: Layout, tr: seq<Disk>, r: seq<Disk>, n: nat, d: Disk, v: Disk) {
    && |r| == |tr| + (if n == 0 then 0 else 2 * n + 2) && r[..|tr|] == tr
    && forall j :: |tr| <= j < |r| ==>
         && WellFormed(y, r[j]) && Distinct(Blocks(y, r[j]))
         && SameHome(y, Recovered(y, r[j]), if j - |tr| < n then d else v)
  }

  /** Every disk of a commit's history recovers to the old homes before the header
      write, number n, and to what clients saw from then on. */
  lemma CommitHistory(tr: seq<Disk>, y: Layout, d: Disk, v: Disk, bs: seq<int>, vals: seq<Block>)
    requires WellFormed(y, d) && Blocks(y, d) == [] && HomeList(y, d, bs) && Distinct(bs)
    requires AllListed(y, d, v, bs) && HomeList(y, v, bs) && vals == Contents(y, v, bs)
    requires |bs| > 0
    ensures CommitRecovers(y, tr, CommitTrace(tr, y, d, bs, vals), |bs|, d, v)
  {
    hide Committed, CommitDisk, Contents, Updated, CommitTrace, WellFormed, Blocks, HomeList, Distinct, AllListed,
         SameHome, Recovered;
    CommitTraceAt(tr, y, d, bs, vals);
    var r := CommitTrace(tr, y, d, bs, vals);
    forall j | |tr| <= j < |r|
      ensures WellFormed(y, r[j]) && Distinct(Blocks(y, r[j]))
      ensures SameHome(y, Recovered(y, r[j]), if j - |tr| < |bs| then d else v)
    {
      CommitHistoryAt(y, d, v, bs, vals, j - |tr| + 1);
    }
  }

  lemma CommitHistoryAt(y: Layout, d: Disk, v: Disk, bs: seq<int>, vals: seq<Block>, k: nat)
    requires WellFormed(y, d) && Blocks(y, d) == [] && HomeList(y, d, bs) && Distinct(bs)
    requires AllListed(y, d, v, bs) && HomeList(y, v, bs) && vals == Contents(y, v, bs)
    requires 0 < |bs| && k <= 2 * |bs| + 2
    ensures var x := CommitDisk(y, d, bs, vals, k);
            WellFormed(y, x) && Distinct(Blocks(y, x)) && SameHome(y, Recovered(y, x), if k <= |bs| then d else v)
  {
    hide Committed, CommitDisk, Contents, Updated;
    UpdatedToView(y, d, v, bs, vals);
    CommitPoint(y, d, bs, vals, k);
  }

  lemma CommitEnds(y: Layout, d: Disk, v: Disk, bs: seq<int>, vals: seq<Block>)
    requires WellFormed(y, d) && HomeList(y, d, bs) && Distinct(bs)
    requires AllListed(y, d, v, bs) && HomeList(y, v, bs) && vals == Contents(y, v, bs)
    ensures var r := Recovered(y, Committed(y, d, bs, vals));
            WellFormed(y, r) && SameHome(y, r, v) && Blocks(y, r) == []
  {
    CommittedIsNew(y, d, bs, vals);
    UpdatedToView(y, d, v, bs, vals);
    RecoveredWellFormed(y, Committed(y, d, bs, vals));
  }

  /** Two buffers of the same block are the same buffer. */
  lemma SlotOf(n: nat, t: Bufs, g: Meaning, d: Disk, i: nat, j: nat)
    requires Ok(n, t, g, d) && i < n && j < n && t.loc[i] == t.loc[j] && t.loc[i].dev != 0
    ensures i == j
  {
    assert g.where[t.loc[i]] == i && g.where[t.loc[j]] == j;
  }

  /** What clients see outside the log is on the disk, but for listed blocks. */
  lemma DirtyListedSees(n: nat, t: Bufs, g: Meaning, d: Disk, y: Layout, bs: seq<int>)
    requires Ok(n, t, g, d) && DirtyFrom(y, g, bs, 0) && forall k :: 0 <= k < |bs| ==> bs[k] >= 0
    ensures AllListed(y, d, g.view, bs)
  {
    forall l | l in d && !InLog(y, l) && g.view[l] != d[l]
      ensures exists k :: 0 <= k < |bs| && l == At(y, bs[k])
    {
      assert l in g.dirty && l.bno in bs[0..];
      var k :| 0 <= k < |bs| && bs[k] == l.bno;
    }
  }

  class Log {
    const bc: Cache
    const y: Layout
    // The in-memory header: log.lh.n and log.lh.block.
    var n: nat
    var block: seq<int>
    // The pinned buffer of each logged block.
    ghost var slot: seq<nat>

    /** Valid, but for what is dirty, and with the first k logged blocks installed already. */
    ghost predicate Core(k: nat)
      reads this, bc, bc.lru
    {
      && bc.Valid()
      && |block| == y.logsize && n <= y.logsize
      && Listable(y, bc.g.view, block[..n])
      && Pinned(y, bc.t, bc.g, block[..n], slot, k)
    }

    /** Valid, with the first k logged blocks installed already. */
    ghost predicate ValidFrom(k: nat)
      reads this, bc, bc.lru
    {
      Core(k) && DirtyFrom(y, bc.g, block[..n], k)
    }

    ghost predicate Valid()
      reads this, bc, bc.lru
    {
      ValidFrom(0)
    }

    // initlog, up to the call of recover_from_log.
    constructor (bc: Cache, y: Layout)
      ensures this.bc == bc && this.y == y && n == 0 && |block| == y.logsize && slot == []
    {
      this.bc, this.y := bc, y;
      n, block, slot := 0, seq(y.logsize, i => 0), [];
    }

    /** The same references as before, and buffer s still unused. */
    twostate predicate Quiet(s: nat)
      reads this, bc
    {
      && |bc.g.refs| == bc.nbuf == |old(bc.g.refs)|
      && (forall k :: 0 <= k < bc.nbuf ==> bc.g.refs[k] == old(bc.g.refs[k]))
      && s < |bc.t.refcnt| && bc.t.refcnt[s] == 0
    }

    /** k blocks of write_log are done, starting from disk d, logical disk v and history tr. */
    ghost predicate LoggedSoFar(d: Disk, v: Disk, vals: seq<Block>, tr: seq<Disk>, k: nat)
      reads this, bc
    {
      && k <= |vals|
      && bc.disk == Logged(y, d, vals, k) && bc.g.view == Logged(y, v, vals, k)
      && bc.trace == LogTrace(tr, y, d, vals, k)
    }

    method CopyToLog(k: nat, ghost s: nat)
      requires Valid() && k < n && s < bc.nbuf && bc.t.refcnt[s] == 0
      modifies bc, bc.lru
      ensures Valid() && Quiet(s) && bc.g.pins == old(bc.g.pins) && bc.trace == old(bc.trace) + [bc.disk]
      ensures var l, v := At(y, y.start + k + 1), old(bc.g.view)[At(y, block[..n][k])];
              bc.disk == old(bc.disk)[l := v] && bc.g.view == old(bc.g.view)[l := v]
    {
      hide Lru.RingOk, Mapped, Pinned, DirtyFrom;
      assert block[..n][k] == block[k];
      PinnedAt(y, bc.t, bc.g, block[..n], slot, 0, k);
      ghost var t, g := bc.t, bc.g;
      bc.CopyBlock(At(y, y.start + k + 1), At(y, block[k]), s, slot[k]);
      PinnedSame(y, t, g, block[..n], slot, 0, bc.t, bc.g);
      DirtyLess(y, g, bc.g, block[..n], 0);
    }

    // One iteration of write_log.
    method LogOne(k: nat, ghost s: nat, ghost d: Disk, ghost v: Disk, ghost vals: seq<Block>, ghost tr: seq<Disk>)
      requires Valid() && k < n && s < bc.nbuf && bc.t.refcnt[s] == 0
      requires Listable(y, v, block[..n]) && vals == Contents(y, v, block[..n]) && LoggedSoFar(d, v, vals, tr, k)
      modifies bc, bc.lru
      ensures Valid() && Quiet(s) && bc.g.pins == old(bc.g.pins) && LoggedSoFar(d, v, vals, tr, k + 1)
    {
      hide Lru.RingOk, Mapped, Pinned, Contents, DirtyFrom;
      assert bc.g.view[At(y, block[..n][k])] == vals[k] by { LoggedView(y, v, block[..n], vals, k); }
      CopyToLog(k, s);
    }

    /** write_log: every logged block's current contents go to the log area. */
    method WriteLog(ghost s: nat, ghost vals: seq<Block>)
      requires Valid() && s < bc.nbuf && bc.t.refcnt[s] == 0 && vals == Contents(y, bc.g.view, block[..n])
      modifies bc, bc.lru
      ensures Valid() && Quiet(s) && bc.g.pins == old(bc.g.pins)
      ensures LoggedSoFar(old(bc.disk), old(bc.g.view), vals, old(bc.trace), n)
    {
      hide Lru.RingOk, Mapped, Pinned, Contents;
      var tail := 0;
      while tail < n
        invariant 0 <= tail <= n && Valid() && Quiet(s) && bc.g.pins == old(bc.g.pins)
        invariant LoggedSoFar(old(bc.disk), old(bc.g.view), vals, old(bc.trace), tail)
      {
        LogOne(tail, s, old(bc.disk), old(bc.g.view), vals, old(bc.trace));
        tail := tail + 1;
      }
    }

    // The words that write_head puts into the header block.
    method FillHeader(h: Block) returns (hb: Block)
      requires n <= |block| && n < |h|
      ensures hb == WithList(h, block[..n])
    {
      hb := h[0 := n];
      var i := 0;
      while i < n
        invariant 0 <= i <= n && |hb| == |h| && hb[0] == n
        invariant forall j :: 0 <= j < i ==> hb[1 + j] == block[j]
        invariant forall j :: i < j < |h| ==> hb[j] == h[j]
      {
        hb := hb[1 + i := block[i]];
        i := i + 1;
      }
    }

    /** write_head: the header block now lists the logged blocks. */
    method WriteHead(ghost s: nat, ghost k: nat)
      requires ValidFrom(k) && s < bc.nbuf && bc.t.refcnt[s] == 0
      modifies bc, bc.lru
      ensures ValidFrom(k) && Quiet(s) && bc.g.pins == old(bc.g.pins)
      ensures bc.disk == WithHeader(y, old(bc.disk), block[..n])
      ensures bc.g.view == WithHeader(y, old(bc.g.view), block[..n])
      ensures bc.trace == old(bc.trace) + [bc.disk]
    {
      hide Lru.RingOk, Mapped, Pinned, DirtyFrom;
      LogClean(bc.nbuf, bc.t, bc.g, bc.disk, y, block[..n], k);
      ghost var t, g := bc.t, bc.g;
      var buf := bc.Bread(At(y, y.start));
      var hb := FillHeader(bc.t.data[buf.value]);
      bc.Rewrite(buf.value, hb);
      PinnedSame(y, t, g, block[..n], slot, k, bc.t, bc.g);
      DirtyLess(y, g, bc.g, block[..n], k);
    }

    /** k blocks of install_trans are done, starting from disk d, logical disk v and history tr. */
    ghost predicate InstalledSoFar(d: Disk, v: Disk, tr: seq<Disk>, bs: seq<int>, k: nat)
      requires Listable(y, d, bs) && Listable(y, v, bs) && k <= |bs|
      reads this, bc
    {
      && bc.disk == Installed(y, d, bs, k) && bc.g.view == Installed(y, v, bs, k)
      && bc.trace == InstallTrace(tr, y, d, bs, k)
    }

    method CopyHome(k: nat, recovering: bool, ghost s: nat, ghost p: nat)
      requires ValidFrom(if recovering then n else k) && k < n && s < bc.nbuf && bc.t.refcnt[s] == 0
      requires p < bc.nbuf && p != s && if recovering then bc.t.refcnt[p] == 0 else p == slot[k]
      modifies bc, bc.lru
      ensures ValidFrom(if recovering then n else k + 1) && Quiet(s) && bc.trace == old(bc.trace) + [bc.disk]
      ensures recovering ==> bc.g.pins == old(bc.g.pins)
      ensures var l, v := At(y, block[..n][k]), old(bc.g.view)[At(y, y.start + k + 1)];
              bc.disk == old(bc.disk)[l := v] && bc.g.view == old(bc.g.view)[l := v]
    {
      hide Lru.RingOk, Mapped, Pinned, DirtyFrom;
      ghost var bs, m := block[..n], if recovering then n else k;
      assert bs[k] == block[k];
      LogClean(bc.nbuf, bc.t, bc.g, bc.disk, y, bs, m);
      ghost var t, g := bc.t, bc.g;
      if !recovering {
        PinnedAt(y, t, g, bs, slot, k, k);
      }
      bc.InstallBlock(At(y, block[k]), At(y, y.start + k + 1), !recovering, s, p);
      if recovering {
        PinnedSame(y, t, g, bs, slot, m, bc.t, bc.g);
        DirtyLess(y, g, bc.g, bs, m);
      } else {
        PinnedNextAfter(y, t, g, bs, slot, k, bc.t, bc.g);
        DirtyNext(y, g, bc.g, bs, k);
      }
    }

    // One iteration of install_trans.
    method InstallOne(k: nat, recovering: bool, ghost s: nat, ghost p: nat, ghost d: Disk, ghost v: Disk,
                      ghost tr: seq<Disk>, ghost bs: seq<int>)
      requires ValidFrom(if recovering then n else k) && k < n && s < bc.nbuf && bc.t.refcnt[s] == 0
      requires p < bc.nbuf && p != s && if recovering then bc.t.refcnt[p] == 0 else p == slot[k]
      requires bs == block[..n] && Listable(y, d, bs) && Listable(y, v, bs) && InstalledSoFar(d, v, tr, bs, k)
      requires forall l :: l in d && InLog(y, l) ==> l in v && v[l] == d[l]
      modifies bc, bc.lru
      ensures ValidFrom(if recovering then n else k + 1) && Quiet(s) && InstalledSoFar(d, v, tr, bs, k + 1)
      ensures recovering ==> bc.g.pins == old(bc.g.pins)
    {
      hide Lru.RingOk, Mapped, Listable, Installed, InstallTrace, Pinned, DirtyFrom;
      InstallStep(y, d, v, tr, bs, k);
      CopyHome(k, recovering, s, p);
    }

    /** install_trans: every listed block is copied from the log area to its home. */
    method InstallTrans(recovering: bool, ghost s: nat, ghost p: nat, ghost bs: seq<int>)
      requires ValidFrom(if recovering then n else 0) && s < bc.nbuf && bc.t.refcnt[s] == 0
      requires recovering ==> p < bc.nbuf && p != s && bc.t.refcnt[p] == 0
      requires bs == block[..n] && Listable(y, bc.disk, bs)
      modifies bc, bc.lru
      ensures ValidFrom(n) && Quiet(s) && InstalledSoFar(old(bc.disk), old(bc.g.view), old(bc.trace), bs, n)
      ensures recovering ==> bc.g.pins == old(bc.g.pins)
    {
      hide Lru.RingOk, Mapped, Listable, Pinned, DirtyFrom;
      LogClean(bc.nbuf, bc.t, bc.g, bc.disk, y, bs, if recovering then n else 0);
      ghost var d, v, tr := bc.disk, bc.g.view, bc.trace;
      var tail := 0;
      while tail < n
        invariant 0 <= tail <= n && ValidFrom(if recovering then n else tail) && Quiet(s)
        invariant recovering ==> bc.t.refcnt[p] == 0
        invariant InstalledSoFar(d, v, tr, bs, tail)
        invariant recovering ==> bc.g.pins == old(bc.g.pins)
      {
        if !recovering {
          PinnedFree(bc.nbuf, bc.t, bc.g, bc.disk, y, bs, slot, tail, s);
        }
        InstallOne(tail, recovering, s, if recovering then p else slot[tail], d, v, tr, bs);
        tail := tail + 1;
      }
    }

    /** The disk's log is empty, as between transactions. */
    ghost predicate Idle()
      reads this, bc
    {
      WellFormed(y, bc.disk) && Blocks(y, bc.disk) == []
    }

    // The first half of commit, up to and including the commit point.
    method CommitToLog(ghost s: nat, ghost bs: seq<int>, ghost vals: seq<Block>)
      requires Valid() && s < bc.nbuf && bc.t.refcnt[s] == 0 && WellFormed(y, bc.disk)
      requires bs == block[..n] && vals == Contents(y, bc.g.view, bs) && Listable(y, bc.disk, bs)
      modifies bc, bc.lru
      ensures Valid() && Quiet(s) && bc.g.pins == old(bc.g.pins)
      ensures bc.disk == Committed(y, old(bc.disk), bs, vals)
      ensures At(y, y.start) in Logged(y, old(bc.g.view), vals, n)
      ensures n < |Logged(y, old(bc.g.view), vals, n)[At(y, y.start)]|
      ensures bc.g.view == WithHeader(y, Logged(y, old(bc.g.view), vals, n), bs)
      ensures bc.trace == LogTrace(old(bc.trace), y, old(bc.disk), vals, n) + [bc.disk]
    {
      hide Lru.RingOk, Mapped, Pinned, Contents, Logged, LogTrace, Listable, DirtyFrom;
      CommitKeepsView(y, bc.g.view, bs, vals);
      WriteLog(s, vals);
      WriteHead(s, 0);
    }

    // The second half of commit: install, then erase the transaction.
    method InstallAndErase(ghost s: nat, ghost bs: seq<int>)
      requires Valid() && s < bc.nbuf && bc.t.refcnt[s] == 0 && WellFormed(y, bc.disk)
      requires bs == block[..n] && Listable(y, bc.disk, bs) && Blocks(y, bc.disk) == bs
      modifies this, bc, bc.lru
      ensures Valid() && n == 0 && Quiet(s)
      ensures bc.disk == Recovered(y, old(bc.disk))
      ensures SameHome(y, bc.g.view, Installed(y, old(bc.g.view), bs, |bs|))
      ensures bc.trace == InstallTrace(old(bc.trace), y, old(bc.disk), bs, |bs|) + [bc.disk]
    {
      hide Lru.RingOk, Mapped, Installed, InstallTrace, Pinned, DirtyFrom;
      InstallTrans(false, s, 0, bs);
      NothingLeft(y, bc.t, bc.g, bs, slot);
      n, slot := 0, [];
      assert block[..n] == [];
      WriteHead(s, 0);
    }

    // commit, on a non-empty transaction.
    method CommitSome(ghost s: nat, ghost bs: seq<int>, ghost vals: seq<Block>)
      requires Valid() && s < bc.nbuf && bc.t.refcnt[s] == 0 && Idle() && n > 0
      requires bs == block[..n] && Listable(y, bc.disk, bs) && vals == Contents(y, bc.g.view, bs)
      modifies this, bc, bc.lru
      ensures Valid() && n == 0 && Quiet(s)
      ensures SameHome(y, bc.g.view, old(bc.g.view))
      ensures bc.disk == Recovered(y, Committed(y, old(bc.disk), bs, vals))
      ensures bc.trace == CommitTrace(old(bc.trace), y, old(bc.disk), bs, vals)
    {
      hide Lru.RingOk, Mapped, Pinned, Installed, InstallTrace, Logged, LogTrace, Contents, DirtyFrom;
      CommitKeepsView(y, bc.g.view, bs, vals);
      CommitToLog(s, bs, vals);
      InstallAndErase(s, bs);
    }

    /** A buffer is neither open nor pinned. */
    ghost predicate Room()
      reads this, bc
    {
      |Held(bc.g.refs) + Elements(slot)| < bc.nbuf
    }

    /** commit: on every disk it goes through, recovery yields the homes as they were
        before the header write, and the clients' view from then on. Afterwards the disk is
        what clients see, and nothing is pinned. */
    method Commit()
      requires Valid() && Idle() && Room()
      modifies this, bc, bc.lru
      ensures Valid() && n == 0 && Idle() && bc.g.refs == old(bc.g.refs)
      ensures bc.g.dirty == {} && forall i :: 0 <= i < |bc.g.pins| ==> bc.g.pins[i] == 0
      ensures SameHome(y, bc.g.view, old(bc.g.view)) && SameHome(y, bc.disk, old(bc.g.view))
      ensures CommitRecovers(y, old(bc.trace), bc.trace, old(n), old(bc.disk), old(bc.g.view))
    {
      hide Lru.RingOk, Mapped, Pinned, Contents, CommitTrace, DirtyFrom, AllListed, Held, Elements, CommitRecovers,
           Recovered, Committed, SameHome;
      ghost var bs := block[..n];
      DirtyListedSees(bc.nbuf, bc.t, bc.g, bc.disk, y, bs);
      LogClean(bc.nbuf, bc.t, bc.g, bc.disk, y, bs, 0);
      if n > 0 {
        ghost var s := SpareBuffer(bc.nbuf, bc.t, bc.g, bc.disk, y, bs, slot);
        ghost var vals := Contents(y, bc.g.view, bs);
        CommitHistory(bc.trace, y, bc.disk, bc.g.view, bs, vals);
        CommitEnds(y, bc.disk, bc.g.view, bs, vals);
        CommitSome(s, bs, vals);
      } else {
        AllListedNone(y, bc.disk, bc.g.view);
        RecoversNone(y, bc.trace, bc.disk, bc.g.view);
      }
      assert block[..n] == [];
      NothingLeft(y, bc.t, bc.g, [], slot);
    }

    /** read_head: the in-memory header becomes the list on the disk. */
    method ReadHead(ghost s: nat, ghost p: nat)
      requires bc.Valid() && bc.g.dirty == {} && WellFormed(y, bc.disk) && y.dev != 0
      requires Distinct(Blocks(y, bc.disk)) && |block| == y.logsize && s < bc.nbuf && bc.t.refcnt[s] == 0
      requires forall i :: 0 <= i < |bc.g.pins| ==> bc.g.pins[i] == 0
      modifies this, bc, bc.lru
      ensures bc.disk == old(bc.disk) && bc.g.view == old(bc.g.view) && bc.trace == old(bc.trace)
      ensures ValidFrom(n) && Quiet(s) && block[..n] == Blocks(y, bc.disk) && Listable(y, bc.disk, block[..n])
      ensures bc.g.pins == old(bc.g.pins)
      ensures p < bc.nbuf && old(bc.t.refcnt)[p] == 0 ==> bc.t.refcnt[p] == 0
    {
      hide Lru.RingOk, Mapped;
      CleanView(bc.nbuf, bc.t, bc.g, bc.disk);
      var buf := bc.Bread(At(y, y.start));
      var h := bc.t.data[buf.value];
      n, block := CopyList(h, block);
      slot := seq(n, _ => 0);
      bc.Brelse(buf.value);
    }

    // The loop of read_head, into the array blk.
    static method CopyList(h: Block, blk: seq<int>) returns (m: nat, r: seq<int>)
      requires |h| > |blk| && 0 <= h[0] <= |blk|
      ensures m == h[0] && |r| == |blk| && r[..m] == Listed(h) && r[m..] == blk[m..]
    {
      m, r := h[0], blk;
      var i := 0;
      while i < m
        invariant 0 <= i <= m && |r| == |blk|
        invariant forall j :: 0 <= j < i ==> r[j] == h[1 + j]
        invariant forall j :: i <= j < |blk| ==> r[j] == blk[j]
      {
        r := r[i := h[1 + i]];
        i := i + 1;
      }
    }

    /** recover_from_log: replays the log; every disk on the way recovers to the same homes.
        It runs at boot, when nothing is pinned or changed. */
    method RecoverFromLog()
      requires bc.Valid() && bc.g.dirty == {} && WellFormed(y, bc.disk) && y.dev != 0
      requires Distinct(Blocks(y, bc.disk)) && |block| == y.logsize && |Held(bc.g.refs)| + 1 < bc.nbuf
      requires forall i :: 0 <= i < |bc.g.pins| ==> bc.g.pins[i] == 0
      modifies this, bc, bc.lru
      ensures Valid() && n == 0 && Idle() && bc.g.refs == old(bc.g.refs)
      ensures bc.g.dirty == {} && forall i :: 0 <= i < |bc.g.pins| ==> bc.g.pins[i] == 0
      ensures bc.disk == Recovered(y, old(bc.disk)) && bc.g.view == bc.disk
      ensures bc.trace == RecoveryTrace(old(bc.trace), y, old(bc.disk))
    {
      hide Lru.RingOk, Mapped, Installed, InstallTrace, DirtyFrom, Pinned;
      RecoveredWellFormed(y, bc.disk);
      CleanView(bc.nbuf, bc.t, bc.g, bc.disk);
      NonePinned(y, bc.t, bc.g, bc.nbuf);
      ghost var s, p := TwoSpare(bc.nbuf, bc.t, bc.g, bc.disk);
      ReadHead(s, p);
      InstallTrans(true, s, p, block[..n]);
      NothingLeft(y, bc.t, bc.g, block[..n], slot);
      n, slot := 0, [];
      assert block[..n] == [];
      WriteHead(s, 0);
      NothingLeft(y, bc.t, bc.g, [], slot);
      CleanView(bc.nbuf, bc.t, bc.g, bc.disk);
    }

    // The absorption loop of log_write.
    method FindLogged(b: int) returns (i: nat)
      requires n <= |block|
      ensures i <= n && (i < n ==> block[i] == b) && (i == n ==> b !in block[..n])
    {
      i := 0;
      while i < n
        invariant 0 <= i <= n && b !in block[..i]
      {
        if block[i] == b {
          assert block[..n][i] == b;
          break;
        }
        i := i + 1;
      }
    }

    // The append of log_write: the buffer is pinned, so that it stays cached until commit.
    method Append(i: nat)
      requires Core(0) && i < bc.nbuf && bc.g.refs[i] > 0 && n < y.logsize && n + 1 < y.size
      requires var l := bc.t.loc[i]; l.dev == y.dev && l in bc.disk && !InLog(y, l) && l.bno !in block[..n]
      modifies this, bc
      ensures Core(0) && block[..n] == old(block[..n]) + [bc.t.loc[i].bno]
      ensures bc.g == old(bc.g).(pins := old(bc.g.pins)[i := old(bc.g.pins)[i] + 1]) && bc.t == Counted(old(bc.t), i, 1)
      ensures bc.disk == old(bc.disk) && bc.trace == old(bc.trace) && n == old(n) + 1
    {
      hide Lru.RingOk, Mapped, Pinned;
      ghost var bs, t, g := block[..n], bc.t, bc.g;
      bc.Bpin(i);
      block := block[n := bc.t.loc[i].bno];
      PinnedMore(y, t, g, bs, slot, i, bc.t, bc.g, bc.t.loc[i].bno);
      n, slot := n + 1, slot + [i];
      assert block[..n] == bs + [bc.t.loc[i].bno];
    }

    /** log_write of a buffer that may have been changed: record the block, absorbing a second
        write. False is the panic "too big a transaction", or with no operation outstanding
        "log_write outside of trans". */
    method LogWrite(i: nat, outstanding: nat) returns (ok: bool)
      requires Core(0) && i < bc.nbuf && bc.g.refs[i] > 0
      requires DirtyFrom(y, bc.g.(dirty := bc.g.dirty - {bc.t.loc[i]}), block[..n], 0)
      requires var l := bc.t.loc[i]; l.dev == y.dev && l in bc.disk && !InLog(y, l)
      modifies this, bc
      ensures Core(0) && bc.disk == old(bc.disk) && bc.trace == old(bc.trace) && bc.t.loc == old(bc.t.loc)
      ensures ok <==> old(n) < y.logsize && old(n) < y.size - 1 && outstanding >= 1
      ensures bc.g == old(bc.g).(pins := bc.g.pins)
      ensures ok ==> Valid() && bc.g.pins[i] == 1
      ensures var b := bc.t.loc[i].bno;
              block[..n] == if ok && b !in old(block[..n]) then old(block[..n]) + [b] else old(block[..n])
    {
      hide Lru.RingOk, Mapped, Pinned, DirtyFrom;
      if n >= y.logsize || n >= y.size - 1 {
        return false;
      }
      if outstanding < 1 {
        return false;
      }
      ghost var g, bs := bc.g, block[..n];
      var j := FindLogged(bc.t.loc[i].bno);
      if j == n {
        Append(i);
        PinnedAt(y, bc.t, bc.g, block[..n], slot, 0, n - 1);
        SlotOf(bc.nbuf, bc.t, bc.g, bc.disk, slot[n - 1], i);
      } else {
        PinnedAt(y, bc.t, bc.g, block[..n], slot, 0, j);
        SlotOf(bc.nbuf, bc.t, bc.g, bc.disk, slot[j], i);
        block := block[j := bc.t.loc[i].bno];
        assert block == old(block);
        assert bs[j] == bc.t.loc[i].bno;
      }
      DirtyMore(y, g, bc.g, bs, block[..n], bc.t.loc[i]);
      return true;
    }

    // log_write and brelse of an open buffer, in an operation.
    method LogAndRelease(i: nat) returns (ok: bool)
      requires Core(0) && i < bc.nbuf && bc.g.refs[i] > 0
      requires DirtyFrom(y, bc.g.(dirty := bc.g.dirty - {bc.t.loc[i]}), block[..n], 0)
      requires var l := bc.t.loc[i]; l.dev == y.dev && l in bc.disk && !InLog(y, l)
      modifies this, bc, bc.lru
      ensures bc.disk == old(bc.disk) && bc.trace == old(bc.trace) && bc.t.loc == old(bc.t.loc)
      ensures ok <==> old(n) < y.logsize && old(n) < y.size - 1
      ensures ok ==> Valid() && bc.g.view == old(bc.g.view)
      ensures ok ==> bc.g.refs == old(bc.g.refs)[i := old(bc.g.refs)[i] - 1]
      ensures var b := old(bc.t.loc)[i].bno;
              ok ==> block[..n] == if b in old(block[..n]) then old(block[..n]) else old(block[..n]) + [b]
    {
      hide Lru.RingOk, Mapped, Pinned, DirtyFrom, Listable;
      ok := LogWrite(i, 1);
      if ok {
        ghost var t, g := bc.t, bc.g;
        bc.Brelse(i);
        PinnedSame(y, t, g, block[..n], slot, 0, bc.t, bc.g);
        DirtyLess(y, g, bc.g, block[..n], 0);
      }
    }

    /** What a file system function does to one block: bread, modify, log_write, brelse.
        Clients see the change at once; the disk does not change. */
    method Update(l: Loc, blk: Block) returns (ok: bool)
      requires Valid() && Room() && l.dev == y.dev && l in bc.disk && !InLog(y, l)
      modifies this, bc, bc.lru
      ensures ok <==> old(n) < y.logsize && old(n) < y.size - 1
      ensures bc.disk == old(bc.disk) && bc.trace == old(bc.trace)
      ensures ok ==> Valid() && bc.g.view == old(bc.g.view)[l := blk] && bc.g.refs == old(bc.g.refs)
      ensures ok ==> block[..n] == if l.bno in old(block[..n]) then old(block[..n]) else old(block[..n]) + [l.bno]
    {
      hide Lru.RingOk, Mapped, Pinned, DirtyFrom, Listable, Held, Elements;
      ghost var bs := block[..n];
      ListableDev(y, bc.g.view, bs);
      ghost var s := SpareBuffer(bc.nbuf, bc.t, bc.g, bc.disk, y, bs, slot);
      ghost var t, g := bc.t, bc.g;
      var i := bc.ReadAndModify(l, blk, s);
      PinnedSame(y, t, g, bs, slot, 0, bc.t, bc.g);
      DirtyLess(y, g, bc.g.(dirty := bc.g.dirty - {l}), bs, 0);
      ListableHome(y, g.view, bs, l, blk);
      ok := LogAndRelease(i);
    }

    /** What a file system function does to look at a block: bread, brelse. */
    method Look(l: Loc) returns (blk: Block)
      requires Valid() && Room() && l.dev == y.dev && l in bc.disk
      modifies this, bc, bc.lru
      ensures Valid() && bc.g.refs == old(bc.g.refs) && n == old(n) && block == old(block)
      ensures bc.g.view == old(bc.g.view) && bc.disk == old(bc.disk) && bc.trace == old(bc.trace)
      ensures l in old(bc.g.view) && blk == old(bc.g.view)[l]
    {
      hide Lru.RingOk, Mapped, Pinned, DirtyFrom, Listable, Held, Elements;
      ghost var bs := block[..n];
      ListableDev(y, bc.g.view, bs);
      ghost var s := SpareBuffer(bc.nbuf, bc.t, bc.g, bc.disk, y, bs, slot);
      ghost var t, g := bc.t, bc.g;
      var buf := bc.Bread(l);
      PinnedSame(y, t, g, bs, slot, 0, bc.t, bc.g);
      DirtyLess(y, g, bc.g, bs, 0);
      blk := bc.t.data[buf.value];
      DirtyPinned(bc.nbuf, bc.t, bc.g, bc.disk, y, bs, slot, buf.value);
      ghost var t1, g1 := bc.t, bc.g;
      bc.Brelse(buf.value);
      PinnedSame(y, t1, g1, bs, slot, 0, bc.t, bc.g);
      DirtyLess(y, g1, bc.g, bs, 0);
    }
  }
}
