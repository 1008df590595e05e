/** The buffer cache of kernel/bio.c: a fixed table of buffers on an LRU ring,
    with reference counts, in front of a disk that is written one block at a time. */
module BufferCache {
  import opened Common
  import opened Ring
  import opened Lru

  /** The contents of one disk block, as 32-bit words. */
  type Block = seq<int>

  datatype Loc = Loc(dev: nat, bno: nat)

  type Disk = map<Loc, Block>

  /** The fields of struct buf, one entry per buffer. */
  datatype Bufs = Bufs(loc: seq<Loc>, valid: seq<bool>, refcnt: seq<nat>, data: seq<Block>)

  /** What the table stands for: the logical disk that clients see, the one buffer
      of each cached block, the blocks whose buffers differ from the disk, and the
      two kinds of reference that refcnt adds up. */
  datatype Meaning = Meaning(view: Disk, where: map<Loc, nat>, dirty: set<Loc>, refs: seq<nat>, pins: seq<nat>)

  ghost predicate Shape(n: nat, t: Bufs, g: Meaning) {
    && |t.loc| == |t.valid| == |t.refcnt| == |t.data| == |g.refs| == |g.pins| == n
    && forall i :: 0 <= i < n ==> t.refcnt[i] == g.refs[i] + g.pins[i]
  }

  /** where is the index of the table: every block of a real device has at most one buffer. */
  ghost predicate Indexed(t: Bufs, where: map<Loc, nat>)
  {
    && (forall l :: l in where ==> l.dev != 0 && where[l] < |t.loc| && t.loc[where[l]] == l)
    && (forall i :: 0 <= i < |t.loc| && t.loc[i].dev != 0 ==> t.loc[i] in where && where[t.loc[i]] == i)
  }

  /** Valid buffers hold the logical disk; the logical disk differs from the
      physical one only at dirty blocks, whose buffers are referenced. */
  ghost predicate Coherent(t: Bufs, g: Meaning, disk: Disk)
    requires |t.valid| == |t.refcnt| == |t.data| && forall l :: l in g.where ==> g.where[l] < |t.valid|
    requires g.view.Keys == disk.Keys
  {
    && (forall l :: l in g.where && t.valid[g.where[l]] ==> l in g.view && t.data[g.where[l]] == g.view[l])
    && (forall l :: l in g.dirty ==> l in g.where && t.valid[g.where[l]] && t.refcnt[g.where[l]] > 0)
    && (forall l :: l in disk && l !in g.dirty ==> g.view[l] == disk[l])
  }

  ghost predicate Mapped(n: nat, t: Bufs, g: Meaning, disk: Disk)
    requires Shape(n, t, g) && g.view.Keys == disk.Keys
  {
    Indexed(t, g.where) && Coherent(t, g, disk)
  }

  ghost predicate Ok(n: nat, t: Bufs, g: Meaning, disk: Disk) {
    Shape(n, t, g) && g.view.Keys == disk.Keys && Mapped(n, t, g, disk)
  }

  // What each operation does to the table and to its meaning.

  function Counted(t: Bufs, i: nat, inc: int): (r: Bufs)
    requires i < |t.refcnt| && t.refcnt[i] + inc >= 0
  {
    t.(refcnt := t.refcnt[i := t.refcnt[i] + inc])
  }

  ghost function Referenced(g: Meaning, i: nat, inc: int): (r: Meaning)
    requires i < |g.refs| && g.refs[i] + inc >= 0
  {
    g.(refs := g.refs[i := g.refs[i] + inc])
  }

  function Assigned(t: Bufs, i: nat, l: Loc): (r: Bufs)
    requires i < |t.loc| == |t.valid| == |t.refcnt|
  {
    t.(loc := t.loc[i := l], valid := t.valid[i := false], refcnt := t.refcnt[i := 1])
  }

  ghost function Reassigned(t: Bufs, g: Meaning, i: nat, l: Loc): (r: Meaning)
    requires i < |g.refs| && i < |t.loc|
  {
    g.(where := (g.where - {t.loc[i]})[l := i], refs := g.refs[i := g.refs[i] + 1])
  }

  function WithData(t: Bufs, i: nat, blk: Block): (r: Bufs)
    requires i < |t.data| == |t.valid|
  {
    t.(valid := t.valid[i := true], data := t.data[i := blk])
  }

  /** At most one buffer per block of a real device. */
  lemma AtMostOneBuffer(n: nat, t: Bufs, g: Meaning, disk: Disk, i: nat, j: nat)
    requires Ok(n, t, g, disk) && i < j < n && t.loc[i].dev != 0 && t.loc[i].dev == t.loc[j].dev
    ensures t.loc[i].bno != t.loc[j].bno
  {
    assert g.where[t.loc[i]] == i && g.where[t.loc[j]] == j;
  }

  /** The index finds the one buffer of a block, if there is one. */
  lemma IndexFinds(n: nat, t: Bufs, g: Meaning, disk: Disk, l: Loc)
    requires Ok(n, t, g, disk) && l.dev != 0
    ensures l in g.where ==>
              g.where[l] < n && t.loc[g.where[l]] == l &&
              (t.valid[g.where[l]] ==> l in g.view && t.data[g.where[l]] == g.view[l])
    ensures forall i :: 0 <= i < n && t.loc[i] == l ==> l in g.where && g.where[l] == i
  {
  }

  /** A dirty block's buffer is referenced. */
  lemma DirtyInUse(n: nat, t: Bufs, g: Meaning, disk: Disk, l: Loc)
    requires Ok(n, t, g, disk) && l in g.dirty
    ensures exists i :: 0 <= i < n && t.loc[i] == l && t.refcnt[i] > 0
  {
    assert t.loc[g.where[l]] == l;
  }

  lemma CountedKeeps(n: nat, t: Bufs, g: Meaning, disk: Disk, i: nat, inc: int)
    requires Ok(n, t, g, disk) && i < n && g.refs[i] + inc >= 0
    requires t.loc[i].dev != 0 && t.loc[i] in g.dirty ==> t.refcnt[i] + inc > 0
    ensures Ok(n, Counted(t, i, inc), Referenced(g, i, inc), disk)
  {
    var t', g' := Counted(t, i, inc), Referenced(g, i, inc);
    forall l | l in g'.dirty ensures t'.refcnt[g'.where[l]] > 0 {
      assert t.loc[g.where[l]] == l;
    }
  }

  lemma AssignedKeeps(n: nat, t: Bufs, g: Meaning, disk: Disk, i: nat, l: Loc)
    requires Ok(n, t, g, disk) && i < n && t.refcnt[i] == 0 && l.dev != 0 && l !in g.where
    ensures Ok(n, Assigned(t, i, l), Reassigned(t, g, i, l), disk)
  {
    var t', g' := Assigned(t, i, l), Reassigned(t, g, i, l);
    forall k | k in g'.where && k != l ensures g'.where[k] == g.where[k] != i && t'.loc[g'.where[k]] == k {
      assert t.loc[g.where[k]] == k;
    }
  }

  lemma FilledKeeps(n: nat, t: Bufs, g: Meaning, disk: Disk, i: nat)
    requires Ok(n, t, g, disk) && i < n && t.loc[i].dev != 0 && t.loc[i] in disk && !t.valid[i]
    ensures Ok(n, WithData(t, i, disk[t.loc[i]]), g, disk) && g.view[t.loc[i]] == disk[t.loc[i]]
  {
    assert g.where[t.loc[i]] == i;
  }

  lemma ModifiedKeeps(n: nat, t: Bufs, g: Meaning, disk: Disk, i: nat, blk: Block)
    requires Ok(n, t, g, disk) && i < n && t.loc[i].dev != 0 && t.valid[i] && t.refcnt[i] > 0
    ensures t.loc[i] in g.view
    ensures var l := t.loc[i];
            Ok(n, WithData(t, i, blk), g.(view := g.view[l := blk], dirty := g.dirty + {l}), disk)
  {
    assert g.where[t.loc[i]] == i;
  }

  lemma WrittenKeeps(n: nat, t: Bufs, g: Meaning, disk: Disk, i: nat)
    requires Ok(n, t, g, disk) && i < n && t.loc[i].dev != 0 && t.valid[i]
    ensures var l := t.loc[i]; Ok(n, t, g.(dirty := g.dirty - {l}), disk[l := t.data[i]])
  {
    assert g.where[t.loc[i]] == i;
  }

  lemma PinnedKeeps(n: nat, t: Bufs, g: Meaning, disk: Disk, i: nat, inc: int)
    requires Ok(n, t, g, disk) && i < n && g.refs[i] > 0 && g.pins[i] + inc >= 0
    ensures Ok(n, Counted(t, i, inc), g.(pins := g.pins[i := g.pins[i] + inc]), disk)
  {
  }

  class Cache {
    const nbuf: nat
    const lru: Lru
    var t: Bufs
    var disk: Disk
    ghost var g: Meaning
    // Every state the disk has gone through, oldest first.
    ghost var trace: seq<Disk>

    ghost predicate Valid()
      reads this, lru
    {
      && Ok(nbuf, t, g, disk)
      && lru.n == nbuf && lru.Valid()
      && |trace| > 0 && trace[|trace| - 1] == disk
    }

    // binit, on a cache of n buffers in zeroed memory.
    constructor (n: nat, d: Disk, junk: Block)
      ensures Valid() && fresh(lru)
      ensures nbuf == n && disk == d && trace == [d]
      ensures g == Meaning(d, map[], {}, seq(n, i => 0), seq(n, i => 0))
      ensures forall i :: 0 <= i < n ==> t.refcnt[i] == 0
      ensures forall k :: 0 < k <= n ==> lru.ring[k] == n - k
    {
      nbuf := n;
      lru := new Lru(n);
      t := Bufs(seq(n, i => Loc(0, 0)), seq(n, i => false), seq(n, i => 0), seq(n, i => junk));
      disk, trace := d, [d];
      g := Meaning(d, map[], {}, seq(n, i => 0), seq(n, i => 0));
    }

    // The first loop of bget; nbuf when the block is not cached.
    method FindCached(l: Loc) returns (k: nat)
      requires Valid() && l.dev != 0
      ensures k == if l in g.where then g.where[l] else nbuf
    {
      k := lru.next[nbuf];
      ghost var p := Succ(lru.ring, 0);
      while k != nbuf
        invariant 0 <= p < |lru.ring| && k == lru.ring[p]
        invariant forall q :: 0 < q < (if p == 0 then |lru.ring| else p) ==> t.loc[lru.ring[q]] != l
        decreases if p == 0 then 0 else |lru.ring| - p
      {
        if t.loc[k] == l {
          return;
        }
        k := lru.next[k];
        p := Succ(lru.ring, p);
      }
      if l in g.where { Covers(lru.ring, g.where[l]); }
    }

    // The second loop of bget; nbuf when every buffer is in use.
    method FindUnused() returns (k: nat)
      requires Valid()
      ensures k <= nbuf
      ensures k < nbuf ==> t.refcnt[k] == 0 && forall j :: 0 <= j < nbuf && t.refcnt[j] == 0 ==>
              lru.stamp[k] <= lru.stamp[j]
      ensures k == nbuf ==> forall i :: 0 <= i < nbuf ==> t.refcnt[i] > 0
    {
      k := lru.prev[nbuf];
      ghost var p := |lru.ring| - 1;
      assert Succ(lru.ring, p) == 0;
      while k != nbuf
        invariant 0 <= p < |lru.ring| && k == lru.ring[p]
        invariant forall q :: p < q < |lru.ring| ==> t.refcnt[lru.ring[q]] > 0
        decreases p
      {
        if t.refcnt[k] == 0 {
          break;
        }
        assert Succ(lru.ring, p - 1) == p;
        k := lru.prev[k];
        p := p - 1;
      }
      forall i: nat | i < nbuf && t.refcnt[i] == 0 ensures k < nbuf && lru.stamp[k] <= lru.stamp[i] {
        Covers(lru.ring, i);
        var q :| 0 <= q < |lru.ring| && lru.ring[q] == i;
      }
    }

    /** bget: find the block's buffer, or recycle the least recently used one.
        None is the panic "bget: no buffers". */
    method Bget(l: Loc) returns (r: Option<nat>)
      requires Valid() && l.dev != 0
      modifies this`t, this`g
      ensures Valid()
      ensures r.None? <==> l !in old(g).where && forall i :: 0 <= i < nbuf ==> old(t).refcnt[i] > 0
      ensures r.None? ==> t == old(t) && g == old(g)
      ensures r.Some? && l in old(g).where ==>
                && r.value == old(g).where[l] < nbuf
                && t == Counted(old(t), r.value, 1) && g == Referenced(old(g), r.value, 1)
      ensures r.Some? && l !in old(g).where ==>
                && r.value < nbuf && old(t).refcnt[r.value] == 0
                && (forall j :: 0 <= j < nbuf && old(t).refcnt[j] == 0 ==> lru.stamp[r.value] <= lru.stamp[j])
                && t == Assigned(old(t), r.value, l) && g == Reassigned(old(t), old(g), r.value, l)
    {
      hide RingOk;
      var k := FindCached(l);
      if k != nbuf {
        CountedKeeps(nbuf, t, g, disk, k, 1);
        t, g := Counted(t, k, 1), Referenced(g, k, 1);
        return Some(k);
      }
      k := FindUnused();
      if k != nbuf {
        AssignedKeeps(nbuf, t, g, disk, k, l);
        t, g := Assigned(t, k, l), Reassigned(t, g, k, l);
        return Some(k);
      }
      return None;
    }

    // The read that bread does on a miss, by the holder of the buffer.
    method Fill(i: nat)
      requires Valid() && i < nbuf && t.loc[i].dev != 0 && t.loc[i] in disk
      modifies this`t
      ensures Valid()
      ensures t == WithData(old(t), i, g.view[t.loc[i]])
    {
      hide RingOk, Mapped;
      IndexFinds(nbuf, t, g, disk, t.loc[i]);
      if !t.valid[i] {
        FilledKeeps(nbuf, t, g, disk, i);
        t := WithData(t, i, disk[t.loc[i]]);
      } else {
        assert t.valid[i := true] == t.valid && t.data[i := t.data[i]] == t.data;
      }
    }

    /** bread: a buffer holding the block's latest logical contents. */
    method Bread(l: Loc) returns (r: Option<nat>)
      requires Valid() && l.dev != 0 && l in disk
      modifies this`t, this`g
      ensures Valid()
      ensures r.None? <==> forall i :: 0 <= i < nbuf ==> old(t).loc[i] != l && old(t).refcnt[i] > 0
      ensures r.None? ==> t == old(t) && g == old(g)
      ensures g.view == old(g).view && g.dirty == old(g).dirty && g.pins == old(g).pins
      ensures r.Some? ==>
                && r.value < nbuf && t.loc[r.value] == l
                && t.valid[r.value] && t.data[r.value] == g.view[l]
                && g.refs == old(g).refs[r.value := old(g).refs[r.value] + 1]
                && (old(t).loc[r.value] == l || old(t).refcnt[r.value] == 0)
                && (forall i :: 0 <= i < nbuf && old(t).loc[i] == l ==> i == r.value)
      ensures forall j :: 0 <= j < nbuf && (r.None? || j != r.value) ==>
                t.valid[j] == old(t).valid[j] && t.loc[j] == old(t).loc[j] && t.data[j] == old(t).data[j]
    {
      hide RingOk, Mapped;
      IndexFinds(nbuf, t, g, disk, l);
      r := Bget(l);
      if r.Some? {
        Fill(r.value);
      }
    }

    // The holder of a buffer changes its contents.
    method Modify(i: nat, blk: Block)
      requires Valid() && i < nbuf && t.loc[i].dev != 0 && t.valid[i] && g.refs[i] > 0
      modifies this`t, this`g
      ensures Valid() && t == WithData(old(t), i, blk)
      ensures var l := t.loc[i]; g == old(g).(view := old(g).view[l := blk], dirty := old(g).dirty + {l})
    {
      hide RingOk;
      ModifiedKeeps(nbuf, t, g, disk, i, blk);
      g := g.(view := g.view[t.loc[i] := blk], dirty := g.dirty + {t.loc[i]});
      t := WithData(t, i, blk);
    }

    /** bwrite: the only operation that changes the disk, one block at a time. */
    method Bwrite(i: nat)
      requires Valid() && i < nbuf && t.loc[i].dev != 0 && t.valid[i] && g.refs[i] > 0
      modifies this`disk, this`trace, this`g
      ensures Valid()
      ensures disk == old(disk)[t.loc[i] := t.data[i]] && trace == old(trace) + [disk]
      ensures g == old(g).(dirty := old(g).dirty - {t.loc[i]})
    {
      hide RingOk;
      WrittenKeeps(nbuf, t, g, disk, i);
      disk := disk[t.loc[i] := t.data[i]];
      trace := trace + [disk];
      g := g.(dirty := g.dirty - {t.loc[i]});
    }

    /** brelse: a buffer that becomes unused moves to the front of the ring. The
        holder of a dirty buffer must have pinned it. */
    method Brelse(i: nat)
      requires Valid() && i < nbuf && g.refs[i] > 0
      requires t.loc[i] in g.dirty ==> t.refcnt[i] > 1
      modifies this`t, this`g, lru
      ensures Valid()
      ensures t == Counted(old(t), i, -1) && g == Referenced(old(g), i, -1)
      ensures t.refcnt[i] > 0 ==> lru.ring == old(lru.ring) && lru.stamp == old(lru.stamp)
      ensures t.refcnt[i] == 0 ==>
                && Moved(old(lru.ring), lru.ring, i)
                && lru.stamp == old(lru.stamp)[i := old(lru.clock)]
    {
      hide RingOk;
      CountedKeeps(nbuf, t, g, disk, i, -1);
      t, g := Counted(t, i, -1), Referenced(g, i, -1);
      if t.refcnt[i] == 0 {
        lru.ToFront(i);
      }
    }

    method Bpin(i: nat)
      requires Valid() && i < nbuf && g.refs[i] > 0
      modifies this`t, this`g
      ensures Valid() && t == Counted(old(t), i, 1) && g == old(g).(pins := old(g).pins[i := old(g).pins[i] + 1])
    {
      hide RingOk;
      PinnedKeeps(nbuf, t, g, disk, i, 1);
      t, g := Counted(t, i, 1), g.(pins := g.pins[i := g.pins[i] + 1]);
    }

    method Bunpin(i: nat)
      requires Valid() && i < nbuf && g.refs[i] > 0 && g.pins[i] > 0
      modifies this`t, this`g
      ensures Valid() && t == Counted(old(t), i, -1) && g == old(g).(pins := old(g).pins[i := old(g).pins[i] - 1])
    {
      hide RingOk;
      PinnedKeeps(nbuf, t, g, disk, i, -1);
      t, g := Counted(t, i, -1), g.(pins := g.pins[i := g.pins[i] - 1]);
    }

    // bread two blocks at once, as the copy loops of the log do. Buffer s is unused,
    // and p is another one that is unused or already caches the second block.
    method OpenTwo(a: Loc, b: Loc, ghost s: nat, ghost p: nat) returns (i: nat, j: nat)
      requires Valid() && a != b && a.dev != 0 && b.dev != 0 && a in disk && b in disk
      requires s < nbuf && t.refcnt[s] == 0 && p < nbuf && p != s && (t.loc[p] == b || t.refcnt[p] == 0)
      modifies this`t, this`g
      ensures Valid() && i < nbuf && j < nbuf && i != j
      ensures t.loc[i] == a && t.loc[j] == b && t.valid[i] && t.valid[j] && t.data[i] == g.view[a]
      ensures t.data[j] == g.view[b]
      ensures g.view == old(g).view && g.dirty == old(g).dirty && g.pins == old(g).pins
      ensures forall k :: 0 <= k < nbuf ==> g.refs[k] == old(g).refs[k] + (if k == i || k == j then 1 else 0)
      ensures forall k :: 0 <= k < nbuf && old(t).refcnt[k] > 0 ==> t.loc[k] == old(t).loc[k]
      ensures forall k :: 0 <= k < nbuf && old(t).loc[k] == b && old(t).refcnt[k] > 0 ==> k == j
    {
      hide RingOk, Mapped;
      var r := Bread(a);
      i := r.value;
      assert if i == p then t.refcnt[s] == 0 else t.loc[p] == b || t.refcnt[p] == 0;
      r := Bread(b);
      j := r.value;
    }

    // The holder changes a buffer and writes it to the disk.
    method WriteThrough(i: nat, blk: Block)
      requires Valid() && i < nbuf && t.loc[i].dev != 0 && t.valid[i] && g.refs[i] > 0
      modifies this`t, this`g, this`disk, this`trace
      ensures Valid() && disk == old(disk)[t.loc[i] := blk] && trace == old(trace) + [disk]
      ensures t == WithData(old(t), i, blk)
      ensures g == old(g).(view := old(g).view[t.loc[i] := blk], dirty := old(g).dirty - {t.loc[i]})
    {
      hide RingOk, Mapped;
      Modify(i, blk);
      Bwrite(i);
    }

    method CloseTwo(i: nat, j: nat)
      requires Valid() && i < nbuf && j < nbuf && i != j && g.refs[i] > 0 && g.refs[j] > 0
      requires t.loc[i] in g.dirty ==> t.refcnt[i] > 1
      requires t.loc[j] in g.dirty ==> t.refcnt[j] > 1
      modifies this`t, this`g, lru
      ensures Valid() && t.loc == old(t).loc
      ensures g.view == old(g).view && g.dirty == old(g).dirty && g.pins == old(g).pins
      ensures forall k :: 0 <= k < nbuf ==> g.refs[k] == old(g).refs[k] - (if k == i || k == j then 1 else 0)
    {
      hide RingOk, Mapped;
      Brelse(i);
      Brelse(j);
    }

    /** bread both, copy src over dst, bwrite dst, brelse both. */
    method CopyBlock(dst: Loc, src: Loc, ghost s: nat, ghost p: nat)
      requires Valid() && dst != src && dst.dev != 0 && src.dev != 0 && dst in disk && src in disk
      requires s < nbuf && t.refcnt[s] == 0 && p < nbuf && p != s && (t.loc[p] == src || t.refcnt[p] == 0)
      modifies this, lru
      ensures Valid() && disk == old(disk)[dst := old(g).view[src]] && trace == old(trace) + [disk]
      ensures g.view == old(g).view[dst := old(g).view[src]] && g.pins == old(g).pins
      ensures g.dirty == old(g).dirty - {dst}
      ensures forall k :: 0 <= k < nbuf ==> g.refs[k] == old(g).refs[k]
      ensures forall k :: 0 <= k < nbuf && old(t).refcnt[k] > 0 ==> t.loc[k] == old(t).loc[k]
    {
      hide RingOk, Mapped;
      if src in g.dirty { DirtyInUse(nbuf, t, g, disk, src); }
      var to, from := OpenTwo(dst, src, s, p);
      WriteThrough(to, t.data[from]);
      CloseTwo(from, to);
    }

    /** The body of install_trans: bread both, source first, copy, bwrite dst, bunpin
        dst unless recovering, brelse both. */
    method InstallBlock(dst: Loc, src: Loc, unpin: bool, ghost s: nat, ghost p: nat)
      requires Valid() && dst != src && dst.dev != 0 && src.dev != 0 && dst in disk && src in disk
      requires s < nbuf && t.refcnt[s] == 0 && p < nbuf && p != s && (t.loc[p] == dst || t.refcnt[p] == 0)
      requires unpin ==> t.loc[p] == dst && g.pins[p] > 0
      requires src !in g.dirty
      modifies this, lru
      ensures Valid() && disk == old(disk)[dst := old(g).view[src]] && trace == old(trace) + [disk]
      ensures g.view == old(g).view[dst := old(g).view[src]] && g.dirty == old(g).dirty - {dst}
      ensures g.pins == if unpin then old(g).pins[p := old(g).pins[p] - 1] else old(g).pins
      ensures forall k :: 0 <= k < nbuf ==> g.refs[k] == old(g).refs[k]
      ensures forall k :: 0 <= k < nbuf && old(t).refcnt[k] > 0 ==> t.loc[k] == old(t).loc[k]
    {
      hide RingOk, Mapped;
      var lbuf, dbuf := OpenTwo(src, dst, s, p);
      WriteThrough(dbuf, t.data[lbuf]);
      if unpin {
        assert dbuf == p;
        Bunpin(dbuf);
      }
      CloseTwo(lbuf, dbuf);
    }

    /** bread a block, replace its contents, bwrite, brelse. */
    method Rewrite(i: nat, blk: Block)
      requires Valid() && i < nbuf && t.loc[i].dev != 0 && t.valid[i] && g.refs[i] > 0
      modifies this, lru
      ensures Valid() && disk == old(disk)[old(t).loc[i] := blk] && trace == old(trace) + [disk]
      ensures g == Referenced(old(g).(view := old(g).view[old(t).loc[i] := blk],
              dirty := old(g).dirty - {old(t).loc[i]}), i, -1)
      ensures t.loc == old(t).loc
    {
      hide RingOk, Mapped;
      WriteThrough(i, blk);
      Brelse(i);
    }

    // bread a block and change its contents; the buffer stays open.
    method ReadAndModify(l: Loc, blk: Block, ghost s: nat) returns (i: nat)
      requires Valid() && l.dev != 0 && l in disk && s < nbuf && t.refcnt[s] == 0
      modifies this`t, this`g
      ensures Valid() && i < nbuf && t.loc[i] == l && g.refs[i] > 0
      ensures g.view == old(g).view[l := blk] && g.dirty == old(g).dirty + {l} && g.pins == old(g).pins
      ensures forall k :: 0 <= k < nbuf && old(t).refcnt[k] > 0 ==> t.loc[k] == old(t).loc[k]
      ensures forall k :: 0 <= k < nbuf && k != i ==> g.refs[k] == old(g).refs[k]
      ensures g.refs[i] == old(g).refs[i] + 1
    {
      hide RingOk, Mapped;
      var r := Bread(l);
      i := r.value;
      Modify(i, blk);
    }
  }
}
