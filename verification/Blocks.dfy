/** Disk blocks and who owns them: balloc and bfree, and the block pointers of inodes, as in
    kernel/fs.c. The blocks are those of the logical disk, as bread returns them. */
module Blocks {
  import opened Common

  const BSIZE := 1024
  const BPB := 8192
  const IPB := 16
  const NDIRECT := 12
  const NINDIRECT := 256
  const MAXFILE := NDIRECT + NINDIRECT

  /** A block holds bytes, or the numbers of other blocks. */
  datatype Block = Bytes(bytes: seq<byte>) | Ptrs(ptrs: seq<nat>)

  /** struct superblock; datastart is the first block after the bitmap. */
  datatype Geometry = Geometry(size: nat, bmapstart: nat, inodestart: nat, datastart: nat)

  /** An inode: its NDIRECT + 1 block numbers and its size in bytes. */
  datatype Inode = Inode(addrs: seq<nat>, size: nat)

  /** bits is the free map; inodes are the in-memory inodes and dinodes their copies in the
      inode blocks; logged are the blocks log_write was called for. */
  datatype Disk = Disk(bits: seq<bool>, blocks: map<nat, Block>, inodes: map<nat, Inode>, dinodes: map<nat, Inode>,
                       logged: set<nat>)

  function BBlock(g: Geometry, b: nat): (r: nat) {
    b / BPB + g.bmapstart
  }

  function IBlock(g: Geometry, inum: nat): (r: nat) {
    inum / IPB + g.inodestart
  }

  function ZeroBytes(): (r: seq<byte>) {
    seq(BSIZE, _ => 0)
  }

  function ZeroPtrs(): (r: seq<nat>) {
    seq(NINDIRECT, _ => 0)
  }

  // Pointers.

  /** Pointer k of inode i: the block with index k of the file, or for k == IND the
      indirect block. */
  datatype Ref = Ref(i: nat, k: nat)

  const IND := MAXFILE

  predicate IsPtrs(d: Disk, b: nat) {
    b in d.blocks && d.blocks[b].Ptrs? && |d.blocks[b].ptrs| == NINDIRECT
  }

  predicate IsData(d: Disk, b: nat) {
    b in d.blocks && d.blocks[b].Bytes? && |d.blocks[b].bytes| == BSIZE
  }

  predicate Shaped(d: Disk, i: nat) {
    i in d.inodes && |d.inodes[i].addrs| == NDIRECT + 1
  }

  /** No block is left to allocate. */
  predicate DiskFull(d: Disk) {
    forall b :: 0 <= b < |d.bits| ==> d.bits[b]
  }

  /** Where a pointer points, or 0. */
  function At(d: Disk, r: Ref): (b: nat) {
    if !Shaped(d, r.i) || r.k > IND then 0
    else
      var a := d.inodes[r.i].addrs;
      if r.k < NDIRECT then a[r.k]
      else if r.k == IND then a[NDIRECT]
      else if a[NDIRECT] != 0 && IsPtrs(d, a[NDIRECT]) then d.blocks[a[NDIRECT]].ptrs[r.k - NDIRECT]
      else 0
  }

  /** Pointers lead to blocks of the right kind that are in use, after the metadata. */
  ghost predicate RefOk(g: Geometry, d: Disk, r: Ref) {
    At(d, r) != 0 ==>
      && g.datastart <= At(d, r) < g.size && At(d, r) < |d.bits| && d.bits[At(d, r)]
      && (if r.k == IND then IsPtrs(d, At(d, r)) else IsData(d, At(d, r)))
  }

  ghost predicate Reached(d: Disk, b: nat) {
    exists r :: At(d, r) == b
  }

  /** Every pointer leads to a block in use, and no block is pointed to twice. */
  ghost predicate Apart(g: Geometry, d: Disk) {
    && |d.bits| == g.size && 0 < g.datastart <= g.size
    && (forall i :: i in d.inodes ==> Shaped(d, i))
    && (forall r :: RefOk(g, d, r))
    && (forall r, s :: At(d, r) != 0 && At(d, r) == At(d, s) ==> r == s)
    && (forall b :: 0 <= b < g.datastart ==> d.bits[b])
  }

  /** The bitmap marks exactly the metadata and the blocks the inodes point to, and no
      block is pointed to twice. */
  ghost predicate Owned(g: Geometry, d: Disk) {
    Apart(g, d) && forall b :: g.datastart <= b < g.size && d.bits[b] ==> Reached(d, b)
  }

  // How the pointers change.

  /** Block b is taken into use, filled with zeros. */
  function Taken(g: Geometry, d: Disk, b: nat, zero: Block): (r: Disk)
    requires b < |d.bits|
  {
    d.(bits := d.bits[b := true], blocks := d.blocks[b := zero], logged := d.logged + {BBlock(g, b), b})
  }

  /** Pointer r is set. */
  function Pointed(d: Disk, r: Ref, b: nat): (d': Disk)
    requires Shaped(d, r.i) && r.k <= IND && (NDIRECT <= r.k < IND ==> IsPtrs(d, d.inodes[r.i].addrs[NDIRECT]))
  {
    var ip := d.inodes[r.i];
    if r.k < NDIRECT then d.(inodes := d.inodes[r.i := ip.(addrs := ip.addrs[r.k := b])])
    else if r.k == IND then d.(inodes := d.inodes[r.i := ip.(addrs := ip.addrs[NDIRECT := b])])
    else
      var ind := ip.addrs[NDIRECT];
      d.(blocks := d.blocks[ind := Ptrs(d.blocks[ind].ptrs[r.k - NDIRECT := b])])
  }

  /** A free block is pointed to by nobody. */
  lemma FreeUnreached(g: Geometry, d: Disk, b: nat, r: Ref)
    requires Apart(g, d) && b < g.size && !d.bits[b]
    ensures b != 0 && b >= g.datastart && At(d, r) != b
  {
    assert RefOk(g, d, r);
  }

  /** Writing a free block changes no pointer. */
  lemma TakenAt(g: Geometry, d: Disk, b: nat, zero: Block, r: Ref)
    requires Apart(g, d) && b < g.size && !d.bits[b]
    ensures At(Taken(g, d, b, zero), r) == At(d, r)
  {
    FreeUnreached(g, d, b, Ref(r.i, IND));
  }

  /** Setting one pointer changes no other, unless a new indirect block brings its own. */
  lemma PointedAt(g: Geometry, d: Disk, r: Ref, b: nat, s: Ref)
    requires Apart(g, d) && Shaped(d, r.i) && r.k <= IND && At(d, r) == 0
    requires (NDIRECT <= r.k < IND ==> At(d, Ref(r.i, IND)) != 0)
    requires r.k == IND ==> b in d.blocks && d.blocks[b] == Ptrs(ZeroPtrs())
    ensures NDIRECT <= r.k < IND ==> IsPtrs(d, d.inodes[r.i].addrs[NDIRECT])
    ensures At(Pointed(d, r, b), s) == if s == r then b else At(d, s)
  {
    assert RefOk(g, d, Ref(r.i, IND)) && RefOk(g, d, Ref(s.i, IND));
    assert At(d, Ref(r.i, IND)) != 0 && At(d, Ref(r.i, IND)) == At(d, Ref(s.i, IND)) ==> r.i == s.i;
  }

  lemma TakenApart(g: Geometry, d: Disk, b: nat, zero: Block)
    requires Apart(g, d) && b < g.size && !d.bits[b]
    ensures Apart(g, Taken(g, d, b, zero))
  {
    var d' := Taken(g, d, b, zero);
    forall r
      ensures At(d', r) == At(d, r) && RefOk(g, d', r)
    {
      assert RefOk(g, d, r);
      FreeUnreached(g, d, b, r);
      TakenAt(g, d, b, zero, r);
    }
  }

  /** Pointer r, not set so far, may be given block b. */
  ghost predicate Vacant(d: Disk, r: Ref) {
    Shaped(d, r.i) && r.k <= IND && At(d, r) == 0 && (NDIRECT <= r.k < IND ==> At(d, Ref(r.i, IND)) != 0)
  }

  function ZeroFor(k: nat): (r: Block) {
    if k == IND then Ptrs(ZeroPtrs()) else Bytes(ZeroBytes())
  }

  lemma PointedApart(g: Geometry, d: Disk, r: Ref, b: nat)
    requires Apart(g, d) && Vacant(d, r) && g.datastart <= b < g.size && d.bits[b] && b in d.blocks
    requires d.blocks[b] == ZeroFor(r.k)
    requires forall s :: At(d, s) != b
    ensures NDIRECT <= r.k < IND ==> IsPtrs(d, d.inodes[r.i].addrs[NDIRECT])
    ensures Apart(g, Pointed(d, r, b)) && forall s :: At(Pointed(d, r, b), s) == if s == r then b else At(d, s)
  {
    PointedAt(g, d, r, b, r);
    var d' := Pointed(d, r, b);
    forall s
      ensures At(d', s) == (if s == r then b else At(d, s)) && RefOk(g, d', s)
    {
      assert RefOk(g, d, s) && RefOk(g, d, Ref(r.i, IND));
      PointedAt(g, d, r, b, s);
      assert At(d, s) != 0 && At(d, s) == At(d, Ref(r.i, IND)) ==> s == Ref(r.i, IND);
    }
  }

  /** The state after a free block was taken and pointed to. */
  function Granted(g: Geometry, d: Disk, r: Ref, b: nat): (d': Disk)
    requires b < |d.bits| && Shaped(d, r.i) && r.k <= IND
    requires NDIRECT <= r.k < IND ==> IsPtrs(Taken(g, d, b, ZeroFor(r.k)), d.inodes[r.i].addrs[NDIRECT])
  {
    Pointed(Taken(g, d, b, ZeroFor(r.k)), r, b)
  }

  lemma GrantedOwned(g: Geometry, d: Disk, r: Ref, b: nat)
    requires Owned(g, d) && Vacant(d, r) && b < g.size && !d.bits[b]
    ensures NDIRECT <= r.k < IND ==> IsPtrs(Taken(g, d, b, ZeroFor(r.k)), d.inodes[r.i].addrs[NDIRECT])
    ensures Owned(g, Granted(g, d, r, b)) && forall s :: At(Granted(g, d, r, b), s) == if s == r then b else At(d, s)
  {
    var d1 := Taken(g, d, b, ZeroFor(r.k));
    TakenApart(g, d, b, ZeroFor(r.k));
    FreeUnreached(g, d, b, r);
    forall s
      ensures At(d1, s) == At(d, s) && At(d1, s) != b
    {
      TakenAt(g, d, b, ZeroFor(r.k), s);
      FreeUnreached(g, d, b, s);
    }
    PointedApart(g, d1, r, b);
    var d' := Pointed(d1, r, b);
    forall x | g.datastart <= x < g.size && d'.bits[x]
      ensures Reached(d', x)
    {
      if x == b {
        assert At(d', r) == x;
      } else {
        var s :| At(d, s) == x;
        assert At(d', s) == x;
      }
    }
  }
}
