/** balloc, bfree, bmap and itrunc of kernel/fs.c, updating the logical disk in place. */
module Fs {
  import opened Blocks

  /** A new block of the file, as far as the log is concerned: 0 or 1. */
  function New(d: Disk, d': Disk, r: Ref): (n: nat) {
    if At(d, r) == 0 && At(d', r) != 0 then 1 else 0
  }

  function NonZero(b: nat): (r: set<nat>) {
    if b == 0 then {} else {b}
  }

  /** d' has at most pointers r and ind more than d, to new blocks; the contents of blocks
      in use before are the same, but for the indirect block. */
  ghost predicate Extends(d: Disk, d': Disk, r: Ref, ind: Ref) {
    && d'.dinodes == d.dinodes && d'.inodes.Keys == d.inodes.Keys && |d'.bits| == |d.bits|
    && (forall i :: i in d.inodes ==> d'.inodes[i].size == d.inodes[i].size)
    && (forall s: Ref :: s != r && s != ind ==> At(d', s) == At(d, s))
    && (At(d, r) != 0 ==> At(d', r) == At(d, r)) && (At(d, ind) != 0 ==> At(d', ind) == At(d, ind))
    && (forall s: Ref :: s.k != IND && At(d, s) != 0 ==>
       At(d', s) in d'.blocks && At(d', s) in d.blocks && d'.blocks[At(d', s)] == d.blocks[At(d, s)])
  }

  /** If pointer r is new, its block and the bitmap block that covers it are in the log. */
  predicate Noted(g: Geometry, d: Disk, d': Disk, r: Ref) {
    At(d', r) != At(d, r) ==> At(d', r) in d'.logged && BBlock(g, At(d', r)) in d'.logged
  }

  /** What differs between d and d' on the disk lies in blocks that are in the log, but for the
      blocks in but. */
  ghost predicate Covered(g: Geometry, d: Disk, d': Disk, but: set<nat>) {
    && d.logged <= d'.logged && |d'.bits| == |d.bits| && d.dinodes.Keys <= d'.dinodes.Keys
    && (forall b :: 0 <= b < |d.bits| && d'.bits[b] != d.bits[b] ==> BBlock(g, b) in d'.logged)
    && (forall b :: b in d'.blocks && b !in d'.logged + but ==> b in d.blocks && d'.blocks[b] == d.blocks[b])
    && (forall i :: i in d'.dinodes && IBlock(g, i) !in d'.logged ==>
          i in d.dinodes && d'.dinodes[i] == d.dinodes[i])
  }

  class Fs {
    const g: Geometry
    var d: Disk

    constructor (g: Geometry, d: Disk)
      ensures this.g == g && this.d == d
    {
      this.g, this.d := g, d;
    }

    /** balloc: the first block whose bit is clear, marked and zeroed as the kind of block
        it will be; 0 when all bits are set. */
    method Balloc(kind: nat) returns (b: nat)
      requires Apart(g, d)
      modifies this`d
      ensures b == 0 ==> d == old(d) && forall x :: 0 <= x < g.size ==> d.bits[x]
      ensures b != 0 ==>
                b < g.size && !old(d).bits[b] && (forall x :: 0 <= x < b ==> old(d).bits[x]) &&
                d == Taken(g, old(d), b, ZeroFor(kind))
    {
      hide Apart;
      MetadataSet(g, d);
      var base := 0;
      while base < g.size
        invariant d == old(d) && 0 <= base && forall x :: 0 <= x < base && x < g.size ==> d.bits[x]
      {
        var bi := 0;
        while bi < BPB && base + bi < g.size
          invariant d == old(d) && 0 <= bi <= BPB && forall x :: 0 <= x < base + bi && x < g.size ==> d.bits[x]
        {
          if !d.bits[base + bi] {
            d := d.(bits := d.bits[base + bi := true], logged := d.logged + {BBlock(g, base + bi)});
            d := d.(blocks := d.blocks[base + bi := ZeroFor(kind)], logged := d.logged + {base + bi});
            assert d.logged == old(d).logged + {BBlock(g, base + bi), base + bi};
            return base + bi;
          }
          bi := bi + 1;
        }
        base := base + BPB;
      }
      b := 0;
    }

    /** bfree: it panics when the bit is clear already. */
    method Bfree(b: nat)
      requires b < |d.bits| && d.bits[b]
      modifies this`d
      ensures d == old(d).(bits := old(d).bits[b := false], logged := old(d).logged + {BBlock(g, b)})
    {
      d := d.(bits := d.bits[b := false], logged := d.logged + {BBlock(g, b)});
    }

    /** One pointer of an inode is filled, if it is not yet. marks is the bitmap block, if
        one was written. */
    method Fill(r: Ref) returns (b: nat, ghost marks: set<nat>)
      requires Owned(g, d) && Shaped(d, r.i) && r.k <= IND && (NDIRECT <= r.k < IND ==> At(d, Ref(r.i, IND)) != 0)
      modifies this`d
      ensures Owned(g, d) && b == At(d, r) && Extends(old(d), d, r, r)
      ensures b == 0 ==> d == old(d) && forall x :: 0 <= x < g.size ==> d.bits[x]
      ensures old(At(d, r)) != 0 ==> d == old(d)
      ensures old(At(d, r)) == 0 && b != 0 ==>
              b < g.size == |old(d).bits| && !old(d).bits[b] && b in d.blocks && d.blocks[b] == ZeroFor(r.k)
      ensures |marks| == New(old(d), d, r)
      ensures d.logged <= old(d).logged + marks + NonZero(b) + NonZero(At(d, Ref(r.i, IND)))
      ensures Covered(g, old(d), d, {}) && old(d).logged <= d.logged && Noted(g, old(d), d, r)
    {
      hide Owned, Pointed, Apart, Extends, Covered;
      CoveredSelf(g, d, {});
      OwnedApart(g, d);
      MetadataSet(g, d);
      ExtendsSelf(g, d, r);
      marks := {};
      b := Pointer(r);
      if b == 0 {
        b := Balloc(r.k);
        if b != 0 {
          GrantedOwned(g, old(d), r, b);
          GrantedExtends(g, old(d), r, b);
          GrantedCovered(g, old(d), r, b);
          marks := {BBlock(g, b)};
          d := Pointed(d, r, b);
          if NDIRECT <= r.k < IND {
            IndirectAt(g, d, r.i);
            SameButLogged(g, old(d), d, r, d.logged + {d.inodes[r.i].addrs[NDIRECT]});
            d := d.(logged := d.logged + {d.inodes[r.i].addrs[NDIRECT]});
          }
        }
      }
    }

    /** bmap: the block with index bn of the file, allocated if need be; 0 when the disk is
        full, possibly after an indirect block was still found. It panics for bn beyond
        MAXFILE. marks are the bitmap blocks written. */
    method Bmap(i: nat, bn: nat) returns (b: nat, ghost marks: set<nat>)
      requires Owned(g, d) && Shaped(d, i) && bn < MAXFILE
      modifies this`d
      ensures Owned(g, d) && b == At(d, Ref(i, bn)) && Extends(old(d), d, Ref(i, bn), Ref(i, IND))
      ensures bn < NDIRECT ==> At(d, Ref(i, IND)) == At(old(d), Ref(i, IND))
      ensures b == 0 ==> DiskFull(d)
      ensures old(At(d, Ref(i, bn))) != 0 ==> d == old(d)
      ensures old(At(d, Ref(i, bn))) == 0 && b != 0 ==> b in d.blocks && d.blocks[b] == ZeroFor(bn)
      ensures |marks| <= New(old(d), d, Ref(i, bn)) + New(old(d), d, Ref(i, IND))
      ensures d.logged <= old(d).logged + marks + NonZero(b) + NonZero(At(d, Ref(i, IND)))
      ensures Covered(g, old(d), d, {}) && old(d).logged <= d.logged
      ensures Noted(g, old(d), d, Ref(i, bn)) && Noted(g, old(d), d, Ref(i, IND))
    {
      hide Owned, Extends, At, Covered;
      OwnedApart(g, d);
      MetadataSet(g, d);
      if bn < NDIRECT {
        b, marks := Fill(Ref(i, bn));
        ExtendsAlone(old(d), d, Ref(i, bn), Ref(i, IND));
        return;
      }
      ghost var marks1;
      b, marks1 := Fill(Ref(i, IND));
      marks := marks1;
      ghost var d1 := d;
      if b == 0 {
        NoIndirect(g, d, i, bn);
        ExtendsAlone(old(d), d, Ref(i, IND), Ref(i, bn));
        ExtendsSwap(old(d), d, Ref(i, IND), Ref(i, bn));
        return;
      }
      OwnedApart(g, d);
      InShape(g, d);
      StillShaped(old(d), d, i, Ref(i, IND));
      HadIndirect(g, old(d), i, bn);
      ghost var marks2;
      b, marks2 := Fill(Ref(i, bn));
      ExtendsTrans(old(d), d1, d, Ref(i, bn), Ref(i, IND));
      CoveredTrans(g, old(d), d1, d, {});
      marks := marks1 + marks2;
      OwnedApart(g, d);
      MetadataSet(g, d);
    }

    /** The pointer as the code reads it. */
    method Pointer(r: Ref) returns (b: nat)
      requires Apart(g, d) && Shaped(d, r.i) && r.k <= IND && (NDIRECT <= r.k < IND ==> At(d, Ref(r.i, IND)) != 0)
      ensures b == At(d, r)
    {
      assert RefOk(g, d, Ref(r.i, IND));
      var a := d.inodes[r.i].addrs;
      if r.k < NDIRECT {
        b := a[r.k];
      } else if r.k == IND {
        b := a[NDIRECT];
      } else {
        b := d.blocks[a[NDIRECT]].ptrs[r.k - NDIRECT];
      }
    }
  }

  lemma MetadataSet(g: Geometry, d: Disk)
    requires Apart(g, d)
    ensures |d.bits| == g.size && 0 < g.datastart <= g.size && (forall b :: 0 <= b < g.datastart ==> d.bits[b])
  {
  }

  lemma InShape(g: Geometry, d: Disk)
    requires Apart(g, d)
    ensures forall j :: j in d.inodes ==> Shaped(d, j)
  {
  }

  lemma OwnedApart(g: Geometry, d: Disk)
    requires Owned(g, d)
    ensures Apart(g, d)
  {
  }

  lemma CoveredSelf(g: Geometry, d: Disk, but: set<nat>)
    ensures Covered(g, d, d, but)
  {
  }

  lemma CoveredTrans(g: Geometry, d0: Disk, d1: Disk, d2: Disk, but: set<nat>)
    requires Covered(g, d0, d1, {}) && Covered(g, d1, d2, but)
    ensures Covered(g, d0, d2, but) && d0.logged <= d1.logged <= d2.logged
  {
  }

  lemma ExtendsSelf(g: Geometry, d: Disk, r: Ref)
    requires Apart(g, d)
    ensures Extends(d, d, r, r)
  {
    forall s: Ref | s.k != IND && At(d, s) != 0
      ensures At(d, s) in d.blocks
    {
      assert RefOk(g, d, s);
    }
  }

  lemma ExtendsTrans(d0: Disk, d1: Disk, d2: Disk, r: Ref, ind: Ref)
    requires Extends(d0, d1, ind, ind) && Extends(d1, d2, r, r) && r != ind
    ensures Extends(d0, d2, r, ind) && At(d1, r) == At(d0, r) && At(d2, ind) == At(d1, ind)
  {
    assert At(d2, ind) == At(d1, ind) && At(d1, r) == At(d0, r);
    forall s: Ref | s.k != IND && At(d0, s) != 0
      ensures At(d2, s) in d2.blocks && At(d2, s) in d0.blocks && d2.blocks[At(d2, s)] == d0.blocks[At(d0, s)]
    {
      assert At(d1, s) == At(d0, s);
      assert At(d2, s) == At(d1, s);
    }
  }

  lemma ExtendsAlone(d0: Disk, d1: Disk, r: Ref, ind: Ref)
    requires Extends(d0, d1, r, r)
    ensures Extends(d0, d1, r, ind) && (r != ind ==> At(d1, ind) == At(d0, ind))
  {
    assert r != ind ==> At(d1, ind) == At(d0, ind);
  }

  lemma ExtendsSwap(d0: Disk, d1: Disk, r: Ref, ind: Ref)
    requires Extends(d0, d1, r, ind)
    ensures Extends(d0, d1, ind, r)
  {
  }

  /** Without an indirect block the pointers in it are not set. */
  lemma NoIndirect(g: Geometry, d: Disk, i: nat, bn: nat)
    requires At(d, Ref(i, IND)) == 0 && NDIRECT <= bn < MAXFILE
    ensures At(d, Ref(i, bn)) == 0
  {
  }

  lemma HadIndirect(g: Geometry, d: Disk, i: nat, bn: nat)
    requires Owned(g, d) && NDIRECT <= bn < MAXFILE
    ensures At(d, Ref(i, bn)) != 0 ==> At(d, Ref(i, IND)) != 0
  {
  }

  lemma StillShaped(d0: Disk, d1: Disk, i: nat, r: Ref)
    requires Extends(d0, d1, r, r) && Shaped(d0, i) && (forall j :: j in d1.inodes ==> Shaped(d1, j))
    ensures Shaped(d1, i)
  {
  }

  lemma GrantedExtends(g: Geometry, d: Disk, r: Ref, b: nat)
    requires Owned(g, d) && Vacant(d, r) && b < g.size && !d.bits[b]
    requires NDIRECT <= r.k < IND ==> IsPtrs(Taken(g, d, b, ZeroFor(r.k)), d.inodes[r.i].addrs[NDIRECT])
    ensures Extends(d, Granted(g, d, r, b), r, r)
    ensures Granted(g, d, r, b).logged == d.logged + {BBlock(g, b), b}
    ensures b in Granted(g, d, r, b).blocks && Granted(g, d, r, b).blocks[b] == ZeroFor(r.k)
    ensures Shaped(Granted(g, d, r, b), r.i)
  {
    GrantedOwned(g, d, r, b);
    var d' := Granted(g, d, r, b);
    forall s: Ref | s.k != IND && At(d, s) != 0
      ensures At(d', s) in d'.blocks && At(d', s) in d.blocks && d'.blocks[At(d', s)] == d.blocks[At(d, s)]
    {
      assert RefOk(g, d, s) && RefOk(g, d, Ref(r.i, IND));
      FreeUnreached(g, d, b, s);
    }
    FreeUnreached(g, d, b, Ref(r.i, IND));
  }

  lemma GrantedCovered(g: Geometry, d: Disk, r: Ref, b: nat)
    requires Shaped(d, r.i) && r.k <= IND && b < |d.bits|
    requires NDIRECT <= r.k < IND ==> IsPtrs(Taken(g, d, b, ZeroFor(r.k)), d.inodes[r.i].addrs[NDIRECT])
    ensures var d' := Granted(g, d, r, b);
            if NDIRECT <= r.k < IND then
              Covered(g, d, d'.(logged := d'.logged + {d'.inodes[r.i].addrs[NDIRECT]}), {})
            else Covered(g, d, d', {})
  {
  }

  /** The log is not part of the file system. */
  lemma SameButLogged(g: Geometry, d0: Disk, d: Disk, r: Ref, log: set<nat>)
    ensures Owned(g, d) ==> Owned(g, d.(logged := log))
    ensures Extends(d0, d, r, r) ==> Extends(d0, d.(logged := log), r, r)
    ensures forall s :: At(d.(logged := log), s) == At(d, s)
  {
    var d' := d.(logged := log);
    assert forall s :: At(d', s) == At(d, s);
    assert forall s :: RefOk(g, d, s) ==> RefOk(g, d', s);
    forall b | Reached(d, b)
      ensures Reached(d', b)
    {
      var s :| At(d, s) == b;
      assert At(d', s) == b;
    }
  }

  lemma IndirectAt(g: Geometry, d: Disk, i: nat)
    requires Shaped(d, i)
    ensures At(d, Ref(i, IND)) == d.inodes[i].addrs[NDIRECT]
  {
  }
}
