/** The block budget of a transaction is tight: there is a disk on which a single chunk of
    filewrite logs MAXOPBLOCKS blocks. */
module TightBudget {
  import opened Common
  import opened Blocks
  import opened Fs
  import opened FileBytes
  import opened FileWrite
  import opened FileCalls

  /** Four blocks are free, and no two free blocks have their bits in the same bitmap block;
      the metadata comes first, and inode i shares no block with the bitmap. */
  ghost predicate Sparse(g: Geometry, d: Disk, i: nat, b: seq<nat>) {
    && |b| == 4 && (forall k :: 0 <= k < 4 ==> b[k] < |d.bits| && !d.bits[b[k]])
    && b[0] != b[1] && b[0] != b[2] && b[0] != b[3] && b[1] != b[2] && b[1] != b[3] && b[2] != b[3]
    && (forall x, y :: 0 <= x < y < |d.bits| && !d.bits[x] && !d.bits[y] ==> BBlock(g, x) != BBlock(g, y))
    && (forall x :: 0 <= x < |d.bits| ==> BBlock(g, x) < g.datastart && BBlock(g, x) != IBlock(g, i))
    && IBlock(g, i) < g.datastart
  }

  /** File i ends inside its last direct block, and off is its end. */
  ghost predicate AtLastDirect(d: Disk, i: nat, off: nat) {
    FileOk(d, i) && d.inodes[i].size == off && off / BSIZE == NDIRECT - 1 && off % BSIZE != 0 && At(d, Ref(i, IND)) == 0
  }

  /** The pointers that writing a whole chunk there needs. */
  function Needed(i: nat): (r: seq<Ref>) {
    [Ref(i, NDIRECT), Ref(i, NDIRECT + 1), Ref(i, NDIRECT + 2), Ref(i, IND)]
  }

  /** What a chunk written at the end of file i leaves, as writei promises it. */
  ghost predicate Written(g: Geometry, d: Disk, d': Disk, i: nat, off: nat, r: nat) {
    && Owned(g, d') && r <= MAXWRITE && Marked(g, d, d', i, off, r)
    && (forall s: Ref :: At(d, s) != 0 || s.i != i ==> At(d', s) == At(d, s))
    && (r < MAXWRITE ==> At(d', Ref(i, (off + r) / BSIZE)) == 0 && forall x :: 0 <= x < |d'.bits| ==> d'.bits[x])
  }

  lemma BlockOf(off: nat, r: nat)
    requires off / BSIZE == NDIRECT - 1 && off % BSIZE != 0 && r <= MAXWRITE
    ensures NDIRECT - 1 <= (off + r) / BSIZE <= NDIRECT + 2 && BlockCount(off + MAXWRITE) == NDIRECT + 3
    ensures r == 0 ==> (off + r) / BSIZE == NDIRECT - 1
  {
  }

  lemma Unset(g: Geometry, d: Disk, i: nat, off: nat)
    requires Owned(g, d) && AtLastDirect(d, i, off)
    ensures forall k :: 0 <= k < 4 ==> At(d, Needed(i)[k]) == 0
    ensures At(d, Ref(i, NDIRECT - 1)) != 0
  {
    assert NDIRECT - 1 < BlockCount(off);
  }

  /** A free block that is in use afterwards is where a needed pointer leads. */
  lemma Newly(g: Geometry, d: Disk, d': Disk, i: nat, off: nat, r: nat, x: nat) returns (k: nat)
    requires Owned(g, d) && AtLastDirect(d, i, off) && Written(g, d, d', i, off, r)
    requires x < |d.bits| && !d.bits[x] && x < |d'.bits| && d'.bits[x]
    ensures k < 4 && At(d', Needed(i)[k]) == x
  {
    hide At, FileOk;
    OwnedApart(g, d);
    OwnedApart(g, d');
    MetadataSet(g, d);
    MetadataSet(g, d');
    Unset(g, d, i, off);
    BlockOf(off, r);
    var s :| At(d', s) == x;
    FreeUnreached(g, d, x, s);
    assert At(d', s) != At(d, s);
    k := if s.k == IND then 3 else s.k - NDIRECT;
  }

  lemma Pigeons(k0: nat, k1: nat, k2: nat, k3: nat, k: nat)
    requires k0 < 4 && k1 < 4 && k2 < 4 && k3 < 4 && k < 4
    requires k0 != k1 && k0 != k2 && k0 != k3 && k1 != k2 && k1 != k3 && k2 != k3
    ensures k == k0 || k == k1 || k == k2 || k == k3
  {
  }

  /** When no block is free any more, every needed pointer has got one. */
  lemma AllTaken(g: Geometry, d: Disk, d': Disk, i: nat, off: nat, r: nat, b: seq<nat>, k: nat)
    requires Owned(g, d) && AtLastDirect(d, i, off) && Written(g, d, d', i, off, r) && Sparse(g, d, i, b) && k < 4
    requires forall x :: 0 <= x < |d'.bits| ==> d'.bits[x]
    ensures At(d', Needed(i)[k]) != 0
  {
    OwnedApart(g, d);
    OwnedApart(g, d');
    MetadataSet(g, d);
    MetadataSet(g, d');
    hide At, FileOk, Marked, Owned, Needed, BBlock, IBlock;
    assert b[0] != 0 && b[1] != 0 && b[2] != 0 && b[3] != 0;
    var k0 := Newly(g, d, d', i, off, r, b[0]);
    var k1 := Newly(g, d, d', i, off, r, b[1]);
    var k2 := Newly(g, d, d', i, off, r, b[2]);
    var k3 := Newly(g, d, d', i, off, r, b[3]);
    Pigeons(k0, k1, k2, k3, k);
  }

  /** The chunk is written whole: four free blocks are enough. */
  lemma Whole(g: Geometry, d: Disk, d': Disk, i: nat, off: nat, r: nat, b: seq<nat>)
    requires Owned(g, d) && AtLastDirect(d, i, off) && Written(g, d, d', i, off, r) && Sparse(g, d, i, b)
    ensures r == MAXWRITE
  {
    hide At, FileOk, Marked, Owned, Sparse;
    Unset(g, d, i, off);
    BlockOf(off, r);
    var z := (off + r) / BSIZE;
    if r < MAXWRITE && z >= NDIRECT {
      AllTaken(g, d, d', i, off, r, b, z - NDIRECT);
      assert false;
    }
  }

  /** Two pointers that are set lead to two blocks, which are data blocks. */
  lemma Apart2(g: Geometry, d: Disk, s: Ref, t: Ref)
    requires Owned(g, d)
    ensures At(d, s) != 0 ==> At(d, s) >= g.datastart && At(d, s) < |d.bits|
    ensures s != t && At(d, s) != 0 ==> At(d, s) != At(d, t)
  {
    hide At;
    assert RefOk(g, d, s);
  }

  /** Every needed pointer is set to a block that was free, and logged with its bitmap block. */
  lemma Placed(g: Geometry, d: Disk, d': Disk, i: nat, off: nat, k: nat)
    requires Owned(g, d) && AtLastDirect(d, i, off) && Written(g, d, d', i, off, MAXWRITE) && k < 4
    requires At(d', Needed(i)[k]) != 0
    ensures var x := At(d', Needed(i)[k]);
            x < |d.bits| && !d.bits[x] && x >= g.datastart && x in d'.logged && BBlock(g, x) in d'.logged
  {
    hide At, FileOk;
    Unset(g, d, i, off);
    OwnedApart(g, d);
    OwnedApart(g, d');
    MetadataSet(g, d);
    MetadataSet(g, d');
    var s := Needed(i)[k];
    var x := At(d', s);
    Apart2(g, d', s, s);
    forall t
      ensures At(d, t) != x
    {
      Apart2(g, d', s, t);
    }
  }

  lemma AllPlaced(g: Geometry, d': Disk, i: nat, off: nat)
    requires Owned(g, d') && FileOk(d', i) && d'.inodes[i].size >= off + MAXWRITE
    requires off / BSIZE == NDIRECT - 1 && off % BSIZE != 0
    ensures forall k :: 0 <= k < 4 ==> At(d', Needed(i)[k]) != 0
    ensures At(d', Ref(i, NDIRECT - 1)) != 0
  {
    BlockOf(off, 0);
    assert BlockCount(d'.inodes[i].size) >= NDIRECT + 3;
    HadIndirect(g, d', i, NDIRECT);
    hide At;
    assert At(d', Ref(i, NDIRECT)) != 0;
  }

  lemma CountTen(g: Geometry, i: nat, a: nat, b: seq<nat>, all: set<nat>)
    requires |b| == 4 && a >= g.datastart && (forall k :: 0 <= k < 4 ==> b[k] >= g.datastart && b[k] != a)
    requires forall k :: 0 <= k < 4 ==> BBlock(g, b[k]) < g.datastart && BBlock(g, b[k]) != IBlock(g, i)
    requires IBlock(g, i) < g.datastart
    requires (forall j, k :: 0 <= j < k < 4 ==> BBlock(g, b[j]) != BBlock(g, b[k]) && b[j] != b[k])
    requires a in all && IBlock(g, i) in all && forall k :: 0 <= k < 4 ==> b[k] in all && BBlock(g, b[k]) in all
    ensures |all| >= MAXOPBLOCKS
  {
    hide BBlock, IBlock;
    var high := {a, b[0], b[1], b[2], b[3]};
    var low := {BBlock(g, b[0]), BBlock(g, b[1]), BBlock(g, b[2]), BBlock(g, b[3]), IBlock(g, i)};
    assert |high| == 5 && |low| == 5 && high !! low;
    assert |high + low| == 10;
    SubsetSize(high + low, all);
  }

  lemma FirstLogged(g: Geometry, d: Disk, d': Disk, i: nat, off: nat)
    requires Marked(g, d, d', i, off, MAXWRITE) && off / BSIZE == NDIRECT - 1 && off % BSIZE != 0
    ensures At(d', Ref(i, NDIRECT - 1)) in d'.logged
  {
    hide At;
    BlockOf(off, 0);
  }

  lemma TenLogged(g: Geometry, d: Disk, d': Disk, i: nat, off: nat, b: seq<nat>)
    requires Owned(g, d) && AtLastDirect(d, i, off) && Written(g, d, d', i, off, MAXWRITE) && Sparse(g, d, i, b)
    requires FileOk(d', i) && d'.inodes[i].size >= off + MAXWRITE && IBlock(g, i) in d'.logged
    ensures |d'.logged| >= MAXOPBLOCKS
  {
    hide At, FileOk, BBlock, IBlock, Owned, Marked, Needed;
    AllPlaced(g, d', i, off);
    FirstLogged(g, d, d', i, off);
    var n := Needed(i);
    NeededApart(i);
    var c := [At(d', n[0]), At(d', n[1]), At(d', n[2]), At(d', n[3])];
    var a := At(d', Ref(i, NDIRECT - 1));
    forall k | 0 <= k < 4
      ensures c[k] == At(d', n[k]) && c[k] != a && a >= g.datastart && c[k] >= g.datastart
      ensures c[k] < |d.bits| && !d.bits[c[k]] && c[k] in d'.logged && BBlock(g, c[k]) in d'.logged
    {
      Placed(g, d, d', i, off, k);
      Apart2(g, d', Ref(i, NDIRECT - 1), n[k]);
    }
    forall j, k | 0 <= j < k < 4
      ensures c[j] != c[k] && BBlock(g, c[j]) != BBlock(g, c[k])
    {
      Apart2(g, d', n[j], n[k]);
    }
    CountTen(g, i, a, c, d'.logged);
  }

  lemma NeededApart(i: nat)
    ensures |Needed(i)| == 4
    ensures forall k :: 0 <= k < 4 ==> Needed(i)[k] != Ref(i, NDIRECT - 1)
    ensures forall j, k :: 0 <= j < k < 4 ==> Needed(i)[j] != Needed(i)[k]
  {
  }

  /** A whole chunk written at the end of a file that ends inside its last direct block, on
      such a disk, logs exactly MAXOPBLOCKS blocks. */
  method TenBlocks(fs: Fs, i: nat, src: seq<byte>, off: nat, ghost b: seq<nat>) returns (r: int)
    requires Owned(fs.g, fs.d) && AtLastDirect(fs.d, i, off) && Sparse(fs.g, fs.d, i, b) && fs.d.logged == {}
    requires |src| == MAXWRITE
    modifies fs`d
    ensures r == MAXWRITE && |fs.d.logged| == MAXOPBLOCKS
  {
    hide Owned, FileOk, At, Sparse, Overwritten, Smeared, ChunkStart, Marked, OthersKept;
    HasShape(fs.d, i);
    ghost var before;
    ghost var c := Contents(fs.d, i);
    r, before := Writei(fs, i, src, off, MAXWRITE);
    assert Written(fs.g, old(fs.d), fs.d, i, off, r);
    Whole(fs.g, old(fs.d), fs.d, i, off, r, b);
    OverwrittenSize(c, off, src[..r]);
    TenLogged(fs.g, old(fs.d), fs.d, i, off, b);
    assert fs.d.logged - {} == fs.d.logged;
  }

  lemma OverwrittenSize(c: seq<byte>, off: nat, s: seq<byte>)
    requires off <= |c|
    ensures |Overwritten(c, off, s)| >= off + |s|
  {
  }

  // Such a disk. Block x from 216 on belongs to inode x / 12 - 17, as its direct block number
  // x % 12, but for the four that are free; inode 1 is a file of 11 blocks and one byte.

  const LAYOUT := Geometry(32784, 202, 32, 216)
  const FREE: seq<nat> := [8000, 16000, 24000, 32000]

  predicate IsFree(x: nat) {
    x == 8000 || x == 16000 || x == 24000 || x == 32000
  }

  function Pointer(j: nat, k: nat): (b: nat) {
    if k < NDIRECT && !IsFree(12 * (j + 17) + k) then 12 * (j + 17) + k else 0
  }

  function InodeOf(j: nat): (r: Inode) {
    Inode(seq(NDIRECT + 1, k requires 0 <= k => Pointer(j, k)), if j == 1 then 11 * BSIZE + 1 else 0)
  }

  function Zeros(x: nat): (r: Block) {
    Bytes(ZeroBytes())
  }

  function NearlyFull(): (d: Disk) {
    var inodes := map j: nat | 1 <= j < 2715 :: InodeOf(j);
    Disk(seq(32784, x requires 0 <= x => !IsFree(x)), map x: nat | 216 <= x < 32784 :: Zeros(x), inodes, inodes, {})
  }

  lemma NearlyFullAt(r: Ref)
    ensures At(NearlyFull(), r) == if 1 <= r.i < 2715 then Pointer(r.i, r.k) else 0
  {
    var d := NearlyFull();
    assert Shaped(d, r.i) <==> 1 <= r.i < 2715;
  }

  lemma NearlyFullRef(r: Ref)
    ensures var d := NearlyFull();
            At(d, r) != 0 ==>
                1 <= r.i < 2715 && r.k < NDIRECT && At(d, r) == 12 * (r.i + 17) + r.k &&
                RefOk(LAYOUT, d, r)
    ensures At(NearlyFull(), r) == 0 ==> RefOk(LAYOUT, NearlyFull(), r)
  {
    NearlyFullAt(r);
    assert |ZeroBytes()| == BSIZE;
    assert forall x :: 216 <= x < 32784 ==> NearlyFull().blocks[x] == Zeros(x);
  }

  lemma NearlyFullOwned()
    ensures Owned(LAYOUT, NearlyFull())
  {
    var d := NearlyFull();
    assert forall i :: i in d.inodes ==> Shaped(d, i);
    forall r
      ensures RefOk(LAYOUT, d, r)
    {
      NearlyFullRef(r);
    }
    forall r, s | At(d, r) != 0 && At(d, r) == At(d, s)
      ensures r == s
    {
      NearlyFullRef(r);
      NearlyFullRef(s);
    }
    forall b | LAYOUT.datastart <= b < LAYOUT.size && d.bits[b]
      ensures Reached(d, b)
    {
      var r := Ref(b / 12 - 17, b % 12);
      NearlyFullAt(r);
      assert At(d, r) == b;
    }
  }

  lemma NearlyFullSparse()
    ensures Sparse(LAYOUT, NearlyFull(), 1, FREE)
  {
    var d := NearlyFull();
    assert |d.bits| == 32784 && forall x :: 0 <= x < 32784 ==> d.bits[x] == !IsFree(x);
    hide NearlyFull;
  }

  /** The conditions of TenBlocks can be met. */
  lemma TightDisk()
    ensures Owned(LAYOUT, NearlyFull()) && Sparse(LAYOUT, NearlyFull(), 1, FREE) && NearlyFull().logged == {}
    ensures AtLastDirect(NearlyFull(), 1, 11 * BSIZE + 1)
  {
    hide Owned, Sparse;
    NearlyFullOwned();
    NearlyFullSparse();
    var d := NearlyFull();
    forall k | 0 <= k < NDIRECT
      ensures At(d, Ref(1, k)) != 0
    {
      NearlyFullAt(Ref(1, k));
    }
    NearlyFullAt(Ref(1, IND));
    assert Shaped(d, 1) && d.inodes[1].size == 11 * BSIZE + 1;
  }
}
