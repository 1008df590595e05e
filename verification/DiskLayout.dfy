/** How the file system lies on the disk, as mkfs/mkfs.c and kernel/fs.h have it: inode blocks,
    bitmap blocks and data blocks as 32-bit words. */
module DiskLayout {
  import opened Common
  import opened Blocks
  import opened Fs
  import opened FileBytes
  import BufferCache
  import RedoLog

  // Words.

  const WORDS := 256
  const DINODE := 16

  /** Digits, the lowest first. */
  function Packed(base: nat, s: seq<nat>): (r: nat) {
    if s == [] then 0 else s[0] + base * Packed(base, s[1..])
  }

  lemma {:induction false} PackedApart(base: nat, s: seq<nat>, t: seq<nat>)
    requires |s| == |t| && forall k :: 0 <= k < |s| ==> s[k] < base && t[k] < base
    requires Packed(base, s) == Packed(base, t)
    ensures s == t
  {
    if s != [] {
      OneDigit(base, s[0], Packed(base, s[1..]), t[0], Packed(base, t[1..]));
      PackedApart(base, s[1..], t[1..]);
      assert s == [s[0]] + s[1..] && t == [t[0]] + t[1..];
    }
  }

  lemma OneDigit(base: nat, a: nat, m: nat, b: nat, n: nat)
    requires a < base && b < base && a + base * m == b + base * n
    ensures a == b && m == n
  {
    OneMore(base, m, n);
    OneMore(base, n, m);
  }

  lemma OneMore(base: nat, m: nat, n: nat)
    ensures m < n ==> base * n >= base * m + base
  {
    if m < n {
      assert base * n >= base * (m + 1) == base * m + base;
    }
  }

  function BitDigits(bits: seq<bool>, from: nat): (r: seq<nat>)
    ensures |r| == 32 && forall k :: 0 <= k < 32 ==> r[k] < 2
  {
    seq(32, k requires 0 <= k => if from + k < |bits| && bits[from + k] then 1 else 0)
  }

  function ByteDigits(bytes: seq<byte>, from: nat): (r: seq<nat>)
    ensures |r| == 4 && forall k :: 0 <= k < 4 ==> r[k] < 256
  {
    seq(4, k requires 0 <= k => if from + k < |bytes| then bytes[from + k] else 0)
  }

  // Blocks.

  /** Block k of the bitmap. */
  function BitmapBlock(bits: seq<bool>, k: nat): (r: seq<int>) {
    seq(WORDS, w requires 0 <= w => Packed(2, BitDigits(bits, k * BPB + 32 * w)))
  }

  /** Word w of struct dinode number i: in use or not, the size, the block numbers. */
  function InodeWord(dinodes: map<nat, Inode>, i: nat, w: nat): (r: int) {
    if i !in dinodes then 0
    else if w == 0 then 1
    else if w == 2 then dinodes[i].size
    else if 3 <= w < 3 + |dinodes[i].addrs| then dinodes[i].addrs[w - 3]
    else 0
  }

  function InodeBlock(dinodes: map<nat, Inode>, k: nat): (r: seq<int>) {
    seq(WORDS, x requires 0 <= x => InodeWord(dinodes, k * IPB + x / DINODE, x % DINODE))
  }

  function DataBlock(b: Block): (r: seq<int>) {
    match b
    case Ptrs(ptrs) => ptrs
    case Bytes(bytes) => seq(WORDS, w requires 0 <= w => Packed(256, ByteDigits(bytes, 4 * w)))
  }

  /** The log, the inode blocks, the bitmap and the data, in this order. */
  predicate LaidOut(g: Geometry, y: RedoLog.Layout) {
    y.start + y.size <= g.inodestart <= g.bmapstart < g.datastart < g.size && BBlock(g, g.size - 1) < g.datastart
  }

  /** Block b is one in which d keeps something. */
  predicate Used(g: Geometry, d: Disk, b: nat) {
    g.inodestart <= b < g.datastart || (g.datastart <= b < g.size && b in d.blocks)
  }

  function Image(g: Geometry, d: Disk, b: nat): (r: seq<int>)
    requires Used(g, d, b)
  {
    if b < g.datastart then
      if g.bmapstart <= b then BitmapBlock(d.bits, b - g.bmapstart) else InodeBlock(d.dinodes, b - g.inodestart)
    else DataBlock(d.blocks[b])
  }

  predicate Holds(y: RedoLog.Layout, v: BufferCache.Disk, b: nat, blk: seq<int>) {
    BufferCache.Loc(y.dev, b) in v && v[BufferCache.Loc(y.dev, b)] == blk
  }

  /** The disk v holds the file system d. */
  ghost predicate Stored(g: Geometry, y: RedoLog.Layout, d: Disk, v: BufferCache.Disk) {
    forall b: nat :: Used(g, d, b) ==> Holds(y, v, b, Image(g, d, b))
  }

  lemma StoredSame(g: Geometry, y: RedoLog.Layout, d: Disk, v: BufferCache.Disk, w: BufferCache.Disk)
    requires Stored(g, y, d, v) && RedoLog.SameHome(y, v, w) && LaidOut(g, y)
    ensures Stored(g, y, d, w)
  {
    forall b: nat | Used(g, d, b)
      ensures Holds(y, w, b, Image(g, d, b))
    {
      assert Holds(y, v, b, Image(g, d, b));
      assert !RedoLog.InLog(y, BufferCache.Loc(y.dev, b));
    }
  }

  // What is on the disk changes only in blocks that are logged.

  lemma SameBits(g: Geometry, d: Disk, d': Disk, k: nat)
    requires Covered(g, d, d', {}) && g.bmapstart + k !in d'.logged
    ensures BitmapBlock(d'.bits, k) == BitmapBlock(d.bits, k)
  {
    forall w | 0 <= w < WORDS
      ensures BitDigits(d'.bits, k * BPB + 32 * w) == BitDigits(d.bits, k * BPB + 32 * w)
    {
      forall x | k * BPB + 32 * w <= x < k * BPB + 32 * w + 32 && x < |d.bits|
        ensures d'.bits[x] == d.bits[x]
      {
        assert BBlock(g, x) == g.bmapstart + k;
      }
    }
  }

  lemma SameInodes(g: Geometry, d: Disk, d': Disk, k: nat)
    requires Covered(g, d, d', {}) && g.inodestart + k !in d'.logged
    ensures InodeBlock(d'.dinodes, k) == InodeBlock(d.dinodes, k)
  {
    forall x | 0 <= x < WORDS
      ensures InodeWord(d'.dinodes, k * IPB + x / DINODE, x % DINODE) ==
              InodeWord(d.dinodes, k * IPB + x / DINODE, x % DINODE)
    {
      assert IBlock(g, k * IPB + x / DINODE) == g.inodestart + k;
    }
  }

  lemma SameHomeBlock(g: Geometry, d: Disk, d': Disk, b: nat)
    requires Covered(g, d, d', {}) && Used(g, d', b) && b !in d'.logged
    ensures Used(g, d, b) && Image(g, d', b) == Image(g, d, b)
  {
    hide BitmapBlock, InodeBlock;
    if b < g.datastart {
      if g.bmapstart <= b {
        SameBits(g, d, d', b - g.bmapstart);
      } else {
        SameInodes(g, d, d', b - g.inodestart);
      }
    }
  }

  /** So when the logged blocks are on the disk, the whole file system is. */
  lemma LoggedSuffice(g: Geometry, y: RedoLog.Layout, d: Disk, d': Disk, v: BufferCache.Disk, v': BufferCache.Disk)
    requires Stored(g, y, d, v) && Covered(g, d, d', {})
    requires forall b: nat :: Used(g, d', b) && b in d'.logged ==> Holds(y, v', b, Image(g, d', b))
    requires forall b: nat, blk :: b !in d'.logged && Holds(y, v, b, blk) ==> Holds(y, v', b, blk)
    ensures Stored(g, y, d', v')
  {
    hide Image, Covered, Holds;
    forall b: nat | Used(g, d', b)
      ensures Holds(y, v', b, Image(g, d', b))
    {
      if b !in d'.logged {
        SameHomeBlock(g, d, d', b);
        assert Holds(y, v, b, Image(g, d, b));
      }
    }
  }

  // A disk holds only one file system.

  /** The inodes in memory are those on the disk, which has room for them. */
  ghost predicate Synced(g: Geometry, d: Disk) {
    d.dinodes == d.inodes && forall i :: i in d.inodes ==> IBlock(g, i) < g.bmapstart
  }

  lemma BitBack(bits: seq<bool>, bits': seq<bool>, x: nat)
    requires BitmapBlock(bits, x / BPB) == BitmapBlock(bits', x / BPB) && x < |bits| == |bits'|
    ensures bits[x] == bits'[x]
  {
    var k, w := x / BPB, x % BPB / 32;
    var from := k * BPB + 32 * w;
    assert Packed(2, BitDigits(bits, from)) == BitmapBlock(bits, k)[w] == BitmapBlock(bits', k)[w];
    PackedApart(2, BitDigits(bits, from), BitDigits(bits', from));
    assert x == from + x % 32 && BitDigits(bits, from)[x % 32] == BitDigits(bits', from)[x % 32];
  }

  lemma WordBack(m: map<nat, Inode>, m': map<nat, Inode>, i: nat, w: nat)
    requires InodeBlock(m, i / IPB) == InodeBlock(m', i / IPB) && w < DINODE
    ensures InodeWord(m, i, w) == InodeWord(m', i, w)
  {
    var x := i % IPB * DINODE + w;
    assert x / DINODE == i % IPB && x % DINODE == w && i / IPB * IPB + i % IPB == i;
    assert InodeBlock(m, i / IPB)[x] == InodeBlock(m', i / IPB)[x];
  }

  lemma InodeBack(m: map<nat, Inode>, m': map<nat, Inode>, i: nat)
    requires InodeBlock(m, i / IPB) == InodeBlock(m', i / IPB)
    requires (i in m ==> |m[i].addrs| == NDIRECT + 1) && (i in m' ==> |m'[i].addrs| == NDIRECT + 1)
    ensures (i in m <==> i in m') && (i in m ==> m[i] == m'[i])
  {
    hide InodeBlock;
    forall w: nat | w < DINODE
      ensures InodeWord(m, i, w) == InodeWord(m', i, w)
    {
      WordBack(m, m', i, w);
    }
    assert InodeWord(m, i, 0) == InodeWord(m', i, 0) && InodeWord(m, i, 2) == InodeWord(m', i, 2);
    if i in m && i in m' {
      forall k | 0 <= k < NDIRECT + 1
        ensures m[i].addrs[k] == m'[i].addrs[k]
      {
        assert InodeWord(m, i, k + 3) == InodeWord(m', i, k + 3);
      }
    }
  }

  lemma DataBack(b: Block, c: Block)
    requires DataBlock(b) == DataBlock(c) && (b.Bytes? <==> c.Bytes?)
    requires b.Bytes? ==> |b.bytes| == |c.bytes| == BSIZE
    ensures b == c
  {
    if b.Bytes? {
      forall o | 0 <= o < BSIZE
        ensures b.bytes[o] == c.bytes[o]
      {
        var w := o / 4;
        assert Packed(256, ByteDigits(b.bytes, 4 * w)) == DataBlock(b)[w] == DataBlock(c)[w];
        PackedApart(256, ByteDigits(b.bytes, 4 * w), ByteDigits(c.bytes, 4 * w));
        assert ByteDigits(b.bytes, 4 * w)[o % 4] == ByteDigits(c.bytes, 4 * w)[o % 4];
      }
    }
  }

  lemma MetadataBack(g: Geometry, y: RedoLog.Layout, d: Disk, d': Disk, v: BufferCache.Disk)
    requires LaidOut(g, y) && Stored(g, y, d, v) && Stored(g, y, d', v)
    requires Apart(g, d) && Synced(g, d) && Apart(g, d') && Synced(g, d')
    ensures d'.bits == d.bits && d'.inodes == d.inodes
  {
    hide BitmapBlock, InodeBlock, RefOk, At;
    forall x | 0 <= x < g.size
      ensures d'.bits[x] == d.bits[x]
    {
      BitmapReaches(g, x);
      assert Holds(y, v, BBlock(g, x), Image(g, d, BBlock(g, x)));
      assert Holds(y, v, BBlock(g, x), Image(g, d', BBlock(g, x)));
      BitBack(d.bits, d'.bits, x);
    }
    forall i | i in d.inodes || i in d'.inodes
      ensures i in d.inodes && i in d'.inodes && d'.inodes[i] == d.inodes[i]
    {
      assert Shaped(d, i) || Shaped(d', i);
      assert Holds(y, v, IBlock(g, i), Image(g, d, IBlock(g, i)));
      assert Holds(y, v, IBlock(g, i), Image(g, d', IBlock(g, i)));
      InodeBack(d.dinodes, d'.dinodes, i);
    }
  }

  lemma BitmapReaches(g: Geometry, x: nat)
    requires x < g.size
    ensures BBlock(g, x) <= BBlock(g, g.size - 1)
  {
  }

  lemma BlockBack(g: Geometry, y: RedoLog.Layout, d: Disk, d': Disk, v: BufferCache.Disk, b: nat)
    requires Stored(g, y, d, v) && Stored(g, y, d', v) && g.datastart <= b < g.size
    requires (IsPtrs(d, b) && IsPtrs(d', b)) || (IsData(d, b) && IsData(d', b))
    ensures d'.blocks[b] == d.blocks[b]
  {
    hide DataBlock;
    assert Holds(y, v, b, Image(g, d, b)) && Holds(y, v, b, Image(g, d', b));
    DataBack(d.blocks[b], d'.blocks[b]);
  }

  /** Two file systems whose ownership is exact and that lie on the same disk have the same
      free blocks and the same inodes, pointing to the same blocks with the same bytes. */
  lemma Unambiguous(g: Geometry, y: RedoLog.Layout, d: Disk, d': Disk, v: BufferCache.Disk, i: nat)
    requires LaidOut(g, y) && Stored(g, y, d, v) && Stored(g, y, d', v)
    requires Owned(g, d) && Synced(g, d) && Owned(g, d') && Synced(g, d')
    ensures d'.bits == d.bits && d'.inodes == d.inodes && forall k :: At(d', Ref(i, k)) == At(d, Ref(i, k))
    ensures i in d.inodes ==> Contents(d', i) == Contents(d, i)
  {
    hide Stored;
    MetadataBack(g, y, d, d', v);
    assert RefOk(g, d, Ref(i, IND)) && RefOk(g, d', Ref(i, IND));
    if At(d, Ref(i, IND)) != 0 {
      BlockBack(g, y, d, d', v, At(d, Ref(i, IND)));
    }
    forall o: nat
      ensures ByteAt(d', i, o) == ByteAt(d, i, o)
    {
      var r := Ref(i, o / BSIZE);
      assert RefOk(g, d, r) && RefOk(g, d', r);
      if o / BSIZE < IND && At(d, r) != 0 {
        BlockBack(g, y, d, d', v, At(d, r));
      }
    }
    if i in d.inodes {
      SameContents(d, d', i);
    }
  }

  lemma SameContents(d: Disk, d': Disk, i: nat)
    requires i in d.inodes && i in d'.inodes && d'.inodes[i].size == d.inodes[i].size
    requires forall o: nat :: ByteAt(d', i, o) == ByteAt(d, i, o)
    ensures Contents(d', i) == Contents(d, i)
  {
    hide ByteAt;
  }
}
