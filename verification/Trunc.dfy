/** itrunc of kernel/fs.c: the blocks of one inode, and no others, become free. */
module Trunc {
  import opened Blocks
  import opened Fs

  /** Direct pointer k of inode i is dropped, and its block freed. */
  function DropDirect(g: Geometry, d: Disk, i: nat, k: nat): (r: Disk)
    requires Shaped(d, i) && k < NDIRECT && d.inodes[i].addrs[k] < |d.bits|
  {
    var ip := d.inodes[i];
    d.(bits := d.bits[ip.addrs[k] := false], inodes := d.inodes[i := ip.(addrs := ip.addrs[k := 0])],
       logged := d.logged + {BBlock(g, ip.addrs[k])})
  }

  lemma DropDirectOwned(g: Geometry, d: Disk, i: nat, k: nat)
    requires Owned(g, d) && Shaped(d, i) && k < NDIRECT && At(d, Ref(i, k)) != 0
    ensures d.inodes[i].addrs[k] < |d.bits| && d.bits[d.inodes[i].addrs[k]]
    ensures var d' := DropDirect(g, d, i, k);
            Owned(g, d') && Shaped(d', i) && forall s :: At(d', s) == if s == Ref(i, k) then 0 else At(d, s)
  {
    var b := At(d, Ref(i, k));
    assert RefOk(g, d, Ref(i, k));
    var d' := DropDirect(g, d, i, k);
    forall s
      ensures At(d', s) == (if s == Ref(i, k) then 0 else At(d, s)) && RefOk(g, d', s)
    {
      assert RefOk(g, d, s);
      assert At(d, s) == b ==> s == Ref(i, k);
    }
    forall x | g.datastart <= x < g.size && d'.bits[x]
      ensures Reached(d', x)
    {
      var s :| At(d, s) == x;
      assert At(d', s) == x;
    }
  }

  /** Block b is among the first n nonzero pointers. */
  predicate Hit(ptrs: seq<nat>, n: nat, b: nat) {
    b != 0 && exists j :: 0 <= j < n && j < |ptrs| && ptrs[j] == b
  }

  /** The bits of the first n pointers are cleared. */
  ghost predicate Unmarked(bits: seq<bool>, bits': seq<bool>, ptrs: seq<nat>, n: nat) {
    |bits'| == |bits| && forall b :: 0 <= b < |bits| ==> (bits'[b] <==> bits[b] && !Hit(ptrs, n, b))
  }

  lemma UnmarkNext(bits: seq<bool>, bits': seq<bool>, ptrs: seq<nat>, n: nat)
    requires Unmarked(bits, bits', ptrs, n) && n < |ptrs|
    ensures ptrs[n] == 0 ==> Unmarked(bits, bits', ptrs, n + 1)
    ensures 0 < ptrs[n] < |bits| ==> Unmarked(bits, bits'[ptrs[n] := false], ptrs, n + 1)
  {
    forall b
      ensures Hit(ptrs, n + 1, b) <==> Hit(ptrs, n, b) || (b != 0 && b == ptrs[n])
    {
      if Hit(ptrs, n, b) {
        var j :| 0 <= j < n && j < |ptrs| && ptrs[j] == b;
        assert 0 <= j < n + 1 && ptrs[j] == b;
      }
      if b != 0 && b == ptrs[n] {
        assert 0 <= n < n + 1 && ptrs[n] == b;
      }
    }
  }

  /** The pointers in the indirect block of i are those of the file from NDIRECT on. */
  lemma PtrsAt(g: Geometry, d: Disk, i: nat)
    requires Apart(g, d) && Shaped(d, i) && At(d, Ref(i, IND)) != 0
    ensures IsPtrs(d, d.inodes[i].addrs[NDIRECT]) && d.inodes[i].addrs[NDIRECT] == At(d, Ref(i, IND)) < |d.bits|
    ensures d.bits[At(d, Ref(i, IND))]
    ensures var ptrs := d.blocks[At(d, Ref(i, IND))].ptrs;
            forall j :: 0 <= j < NINDIRECT ==>
              ptrs[j] == At(d, Ref(i, NDIRECT + j)) && (ptrs[j] != 0 ==> ptrs[j] < |d.bits| && d.bits[ptrs[j]])
  {
    assert RefOk(g, d, Ref(i, IND));
    var ptrs := d.blocks[At(d, Ref(i, IND))].ptrs;
    forall j | 0 <= j < NINDIRECT
      ensures ptrs[j] == At(d, Ref(i, NDIRECT + j)) && (ptrs[j] != 0 ==> ptrs[j] < |d.bits| && d.bits[ptrs[j]])
    {
      assert RefOk(g, d, Ref(i, NDIRECT + j));
    }
  }

  /** A pointer not freed yet still has its bit. */
  lemma StillMarked(g: Geometry, d: Disk, i: nat, bits': seq<bool>, n: nat)
    requires Apart(g, d) && Shaped(d, i) && At(d, Ref(i, IND)) != 0 && n < NINDIRECT
    requires IsPtrs(d, At(d, Ref(i, IND))) && Unmarked(d.bits, bits', d.blocks[At(d, Ref(i, IND))].ptrs, n)
    ensures var b := At(d, Ref(i, NDIRECT + n)); b != 0 ==> b < |bits'| && bits'[b]
  {
    PtrsAt(g, d, i);
    var ptrs := d.blocks[At(d, Ref(i, IND))].ptrs;
    var b := At(d, Ref(i, NDIRECT + n));
    forall j | 0 <= j < n
      ensures b != 0 ==> ptrs[j] != b
    {
      assert ptrs[j] == At(d, Ref(i, NDIRECT + j));
    }
    assert ptrs[n] == b;
  }

  /** All pointers from NDIRECT on and the indirect block itself are dropped. */
  function DropIndirect(d: Disk, i: nat, bits': seq<bool>, log: set<nat>): (r: Disk)
    requires Shaped(d, i)
  {
    var ip := d.inodes[i];
    d.(bits := bits', inodes := d.inodes[i := ip.(addrs := ip.addrs[NDIRECT := 0])], logged := log)
  }

  /** The blocks freed are those of the file, and nobody else's. */
  lemma Freed(g: Geometry, d: Disk, i: nat, bits1: seq<bool>, s: Ref)
    requires Apart(g, d) && Shaped(d, i) && At(d, Ref(i, IND)) != 0 && IsPtrs(d, At(d, Ref(i, IND)))
    requires Unmarked(d.bits, bits1, d.blocks[At(d, Ref(i, IND))].ptrs, NINDIRECT) && At(d, Ref(i, IND)) < |bits1|
    ensures At(d, s) != 0 && !(s.i == i && s.k >= NDIRECT) ==>
              At(d, s) < |bits1| && bits1[At(d, Ref(i, IND)) := false][At(d, s)]
  {
    PtrsAt(g, d, i);
    assert RefOk(g, d, s);
    var ptrs := d.blocks[At(d, Ref(i, IND))].ptrs;
    forall j | 0 <= j < NINDIRECT
      ensures At(d, s) != 0 && ptrs[j] == At(d, s) ==> s == Ref(i, NDIRECT + j)
    {
      assert ptrs[j] == At(d, Ref(i, NDIRECT + j));
    }
    assert At(d, s) != 0 && At(d, s) == At(d, Ref(i, IND)) ==> s == Ref(i, IND);
  }

  lemma DropIndirectAt(g: Geometry, d: Disk, i: nat, bits': seq<bool>, log: set<nat>, s: Ref)
    requires Shaped(d, i)
    ensures At(DropIndirect(d, i, bits', log), s) == if s.i == i && s.k >= NDIRECT then 0 else At(d, s)
  {
  }

  /** The bits of the file's indirect blocks are clear. */
  lemma Gone(g: Geometry, d: Disk, i: nat, bits1: seq<bool>, s: Ref)
    requires Apart(g, d) && Shaped(d, i) && At(d, Ref(i, IND)) != 0 && IsPtrs(d, At(d, Ref(i, IND)))
    requires Unmarked(d.bits, bits1, d.blocks[At(d, Ref(i, IND))].ptrs, NINDIRECT)
    ensures At(d, s) != 0 && s.i == i && NDIRECT <= s.k < IND ==> At(d, s) < |bits1| && !bits1[At(d, s)]
  {
    PtrsAt(g, d, i);
    if At(d, s) != 0 && s.i == i && NDIRECT <= s.k < IND {
      assert RefOk(g, d, s);
      assert d.blocks[At(d, Ref(i, IND))].ptrs[s.k - NDIRECT] == At(d, s);
    }
  }

  lemma DropIndirectOwned(g: Geometry, d: Disk, i: nat, bits1: seq<bool>, log: set<nat>)
    requires Owned(g, d) && Shaped(d, i) && At(d, Ref(i, IND)) != 0 && IsPtrs(d, At(d, Ref(i, IND)))
    requires Unmarked(d.bits, bits1, d.blocks[At(d, Ref(i, IND))].ptrs, NINDIRECT) && At(d, Ref(i, IND)) < |bits1|
    ensures Owned(g, DropIndirect(d, i, bits1[At(d, Ref(i, IND)) := false], log))
  {
    var d' := DropIndirect(d, i, bits1[At(d, Ref(i, IND)) := false], log);
    PtrsAt(g, d, i);
    forall s
      ensures At(d', s) == (if s.i == i && s.k >= NDIRECT then 0 else At(d, s)) && RefOk(g, d', s)
    {
      assert RefOk(g, d, s);
      DropIndirectAt(g, d, i, d'.bits, log, s);
      Freed(g, d, i, bits1, s);
    }
    var ptrs := d.blocks[At(d, Ref(i, IND))].ptrs;
    assert RefOk(g, d, Ref(i, IND));
    forall b | 0 <= b < g.datastart
      ensures d'.bits[b]
    {
      LowUnhit(g, d, i, b);
    }
    forall x | g.datastart <= x < g.size && d'.bits[x]
      ensures Reached(d', x)
    {
      var s :| At(d, s) == x;
      Gone(g, d, i, bits1, s);
      assert At(d', s) == x;
    }
  }

  /** Metadata is pointed to by nobody. */
  lemma LowUnhit(g: Geometry, d: Disk, i: nat, b: nat)
    requires Apart(g, d) && Shaped(d, i) && At(d, Ref(i, IND)) != 0 && IsPtrs(d, At(d, Ref(i, IND))) && b < g.datastart
    ensures !Hit(d.blocks[At(d, Ref(i, IND))].ptrs, NINDIRECT, b) && At(d, Ref(i, IND)) != b
  {
    PtrsAt(g, d, i);
    assert RefOk(g, d, Ref(i, IND));
    forall j | 0 <= j < NINDIRECT
      ensures d.blocks[At(d, Ref(i, IND))].ptrs[j] == b ==> b == 0
    {
      assert RefOk(g, d, Ref(i, NDIRECT + j));
    }
  }

  /** itrunc: afterwards inode i has no blocks and size 0, on disk as well, and all others
      have the blocks they had; "freeing free block" cannot happen. */
  method Itrunc(fs: Fs, i: nat)
    requires Owned(fs.g, fs.d) && Shaped(fs.d, i)
    modifies fs`d
    ensures Owned(fs.g, fs.d) && Shaped(fs.d, i)
    ensures forall s :: At(fs.d, s) == if s.i == i then 0 else At(old(fs.d), s)
    ensures fs.d.blocks == old(fs.d).blocks && fs.d.inodes.Keys == old(fs.d).inodes.Keys
    ensures fs.d.inodes[i].size == 0
    ensures (forall j :: j in fs.d.inodes && j != i ==> fs.d.inodes[j] == old(fs.d).inodes[j])
    ensures fs.d.dinodes == old(fs.d).dinodes[i := fs.d.inodes[i]]
    ensures Covered(fs.g, old(fs.d), fs.d, {})
  {
    hide Owned, Covered;
    FreeDirect(fs, i);
    ghost var d1 := fs.d;
    FreeIndirect(fs, i);
    ghost var d2 := fs.d;
    EmptyInode(old(fs.d), d1, fs.d, i);
    UpdatedOwned(fs.g, fs.d, i);
    fs.d := fs.d.(inodes := fs.d.inodes[i := fs.d.inodes[i].(size := 0)]);
    fs.d := fs.d.(dinodes := fs.d.dinodes[i := fs.d.inodes[i]], logged := fs.d.logged + {IBlock(fs.g, i)});
    StoredCovered(fs.g, d2, fs.d, i);
    CoveredTrans(fs.g, d1, d2, fs.d, {});
    CoveredTrans(fs.g, old(fs.d), d1, fs.d, {});
  }

  lemma StoredCovered(g: Geometry, d: Disk, d': Disk, i: nat)
    requires i in d'.inodes && d' == d.(inodes := d'.inodes, dinodes := d.dinodes[i := d'.inodes[i]],
                                        logged := d.logged + {IBlock(g, i)})
    ensures Covered(g, d, d', {})
  {
  }

  /** bfree covers what it changes, and in-memory inodes are not on the disk. */
  lemma ClearedCovered(g: Geometry, d: Disk, b: nat, inodes: map<nat, Inode>)
    requires b < |d.bits|
    ensures Covered(g, d, d.(bits := d.bits[b := false], inodes := inodes, logged := d.logged + {BBlock(g, b)}), {})
  {
  }


  /** Sizes, on-disk inodes and the log do not matter for ownership. */
  lemma UpdatedOwned(g: Geometry, d: Disk, i: nat)
    requires Owned(g, d) && Shaped(d, i)
    ensures var d1 := d.(inodes := d.inodes[i := d.inodes[i].(size := 0)]);
            var d2 := d1.(dinodes := d1.dinodes[i := d1.inodes[i]], logged := d1.logged + {IBlock(g, i)});
            Owned(g, d2) && Shaped(d2, i) && forall s :: At(d2, s) == At(d, s)
  {
    var d1 := d.(inodes := d.inodes[i := d.inodes[i].(size := 0)]);
    var d2 := d1.(dinodes := d1.dinodes[i := d1.inodes[i]], logged := d1.logged + {IBlock(g, i)});
    assert forall s :: At(d2, s) == At(d, s);
    assert forall s :: RefOk(g, d, s) ==> RefOk(g, d2, s);
    forall b | Reached(d, b)
      ensures Reached(d2, b)
    {
      var s :| At(d, s) == b;
      assert At(d2, s) == b;
    }
  }

  lemma EmptyInode(d0: Disk, d1: Disk, d2: Disk, i: nat)
    requires forall s: Ref :: At(d1, s) == if s.i == i && s.k < NDIRECT then 0 else At(d0, s)
    requires forall s: Ref :: At(d2, s) == if s.i == i && s.k >= NDIRECT then 0 else At(d1, s)
    ensures forall s :: At(d2, s) == if s.i == i then 0 else At(d0, s)
  {
  }

  /** The fields of other inodes, and what does not concern pointers. */
  predicate SameRest(d: Disk, d': Disk, i: nat) {
    && d'.blocks == d.blocks && d'.dinodes == d.dinodes && d'.inodes.Keys == d.inodes.Keys
    && (forall j :: j in d.inodes && j != i ==> j in d'.inodes && d'.inodes[j] == d.inodes[j])
  }

  method FreeDirect(fs: Fs, i: nat)
    requires Owned(fs.g, fs.d) && Shaped(fs.d, i)
    modifies fs`d
    ensures Owned(fs.g, fs.d) && Shaped(fs.d, i) && SameRest(old(fs.d), fs.d, i)
    ensures forall s: Ref :: At(fs.d, s) == if s.i == i && s.k < NDIRECT then 0 else At(old(fs.d), s)
    ensures Covered(fs.g, old(fs.d), fs.d, {})
  {
    hide Owned, At, Covered;
    CoveredSelf(fs.g, fs.d, {});
    var k := 0;
    while k < NDIRECT
      invariant 0 <= k <= NDIRECT && Owned(fs.g, fs.d) && Shaped(fs.d, i) && SameRest(old(fs.d), fs.d, i)
      invariant forall s: Ref :: At(fs.d, s) == if s.i == i && s.k < k then 0 else At(old(fs.d), s)
      invariant Covered(fs.g, old(fs.d), fs.d, {})
    {
      DirectAt(fs.d, i, k);
      var b := fs.d.inodes[i].addrs[k];
      if b != 0 {
        DropDirectOwned(fs.g, fs.d, i, k);
        ghost var d1 := fs.d;
        fs.Bfree(b);
        fs.d := fs.d.(inodes := fs.d.inodes[i := fs.d.inodes[i].(addrs := fs.d.inodes[i].addrs[k := 0])]);
        ClearedCovered(fs.g, d1, b, fs.d.inodes);
        CoveredTrans(fs.g, old(fs.d), d1, fs.d, {});
      }
      k := k + 1;
    }
  }

  lemma DirectAt(d: Disk, i: nat, k: nat)
    requires Shaped(d, i) && k < NDIRECT
    ensures At(d, Ref(i, k)) == d.inodes[i].addrs[k]
  {
  }

  method FreeIndirect(fs: Fs, i: nat)
    requires Owned(fs.g, fs.d) && Shaped(fs.d, i)
    modifies fs`d
    ensures Owned(fs.g, fs.d) && Shaped(fs.d, i) && SameRest(old(fs.d), fs.d, i)
    ensures forall s: Ref :: At(fs.d, s) == if s.i == i && s.k >= NDIRECT then 0 else At(old(fs.d), s)
    ensures Covered(fs.g, old(fs.d), fs.d, {})
  {
    hide Owned, Apart, Covered;
    ghost var d0 := fs.d;
    CoveredSelf(fs.g, d0, {});
    OwnedApart(fs.g, fs.d);
    var ind := fs.d.inodes[i].addrs[NDIRECT];
    if ind == 0 {
      return;
    }
    PtrsAt(fs.g, d0, i);
    var ptrs := fs.d.blocks[ind].ptrs;
    var j := 0;
    while j < NINDIRECT
      invariant 0 <= j <= NINDIRECT && fs.d == d0.(bits := fs.d.bits, logged := fs.d.logged)
      invariant Unmarked(d0.bits, fs.d.bits, ptrs, j) && Covered(fs.g, d0, fs.d, {})
    {
      ghost var d1 := fs.d;
      StillMarked(fs.g, d0, i, fs.d.bits, j);
      UnmarkNext(d0.bits, fs.d.bits, ptrs, j);
      if ptrs[j] != 0 {
        fs.Bfree(ptrs[j]);
        ClearedCovered(fs.g, d1, ptrs[j], d1.inodes);
        CoveredTrans(fs.g, d0, d1, fs.d, {});
      }
      j := j + 1;
    }
    StillIndirect(fs.g, d0, i, fs.d.bits);
    ghost var bits1, d2 := fs.d.bits, fs.d;
    fs.Bfree(ind);
    DropIndirectOwned(fs.g, d0, i, bits1, fs.d.logged);
    forall s: Ref
      ensures At(DropIndirect(d0, i, bits1[ind := false], fs.d.logged), s) == if s.i == i && s.k >= NDIRECT
              then 0 else At(d0, s)
    {
      DropIndirectAt(fs.g, d0, i, bits1[ind := false], fs.d.logged, s);
    }
    fs.d := fs.d.(inodes := fs.d.inodes[i := fs.d.inodes[i].(addrs := fs.d.inodes[i].addrs[NDIRECT := 0])]);
    ClearedCovered(fs.g, d2, ind, fs.d.inodes);
    CoveredTrans(fs.g, d0, d2, fs.d, {});
  }

  lemma StillIndirect(g: Geometry, d: Disk, i: nat, bits1: seq<bool>)
    requires Apart(g, d) && Shaped(d, i) && At(d, Ref(i, IND)) != 0 && IsPtrs(d, At(d, Ref(i, IND)))
    requires Unmarked(d.bits, bits1, d.blocks[At(d, Ref(i, IND))].ptrs, NINDIRECT)
    ensures At(d, Ref(i, IND)) < |bits1| && bits1[At(d, Ref(i, IND))]
  {
    PtrsAt(g, d, i);
    forall j | 0 <= j < NINDIRECT
      ensures d.blocks[At(d, Ref(i, IND))].ptrs[j] != At(d, Ref(i, IND))
    {
      assert Ref(i, NDIRECT + j) != Ref(i, IND);
    }
  }
}
