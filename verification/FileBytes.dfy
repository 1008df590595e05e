/** readi and writei of kernel/fs.c: a file is a sequence of bytes. */
module FileBytes {
  import opened Common
  import opened Blocks
  import opened Fs

  /** The number of blocks for sz bytes. */
  function BlockCount(sz: nat): (r: nat) {
    (sz + BSIZE - 1) / BSIZE
  }

  /** No holes: every block below the size is there. */
  ghost predicate Filled(d: Disk, i: nat, n: nat) {
    forall k :: 0 <= k < n ==> At(d, Ref(i, k)) != 0
  }

  ghost predicate FileOk(d: Disk, i: nat) {
    Shaped(d, i) && d.inodes[i].size <= MAXFILE * BSIZE && Filled(d, i, BlockCount(d.inodes[i].size))
  }

  /** Byte o of file i, when its block is there. */
  function ByteAt(d: Disk, i: nat, o: nat): (r: byte) {
    var b := At(d, Ref(i, o / BSIZE));
    if b != 0 && IsData(d, b) then d.blocks[b].bytes[o % BSIZE] else 0
  }

  ghost function Contents(d: Disk, i: nat): (r: seq<byte>)
    requires i in d.inodes
    ensures |r| == d.inodes[i].size && forall o :: 0 <= o < |r| ==> r[o] == ByteAt(d, i, o)
  {
    seq(d.inodes[i].size, o requires 0 <= o => ByteAt(d, i, o))
  }

  /** memmove of s into block b from offset lo on, and log_write. */
  function PutChunk(d: Disk, b: nat, lo: nat, s: seq<byte>): (r: Disk)
    requires IsData(d, b) && lo + |s| <= BSIZE
  {
    d.(blocks := d.blocks[b := Bytes(d.blocks[b].bytes[..lo] + s + d.blocks[b].bytes[lo + |s|..])],
      logged := d.logged + {b})
  }

  /** Writing into a data block moves no pointer. */
  lemma PutChunkAt(g: Geometry, d: Disk, i: nat, k: nat, lo: nat, s: seq<byte>, r: Ref)
    requires Apart(g, d) && k < MAXFILE && At(d, Ref(i, k)) != 0 && IsData(d, At(d, Ref(i, k))) && lo + |s| <= BSIZE
    ensures At(PutChunk(d, At(d, Ref(i, k)), lo, s), r) == At(d, r) && RefOk(g, PutChunk(d, At(d, Ref(i, k)), lo, s), r)
  {
    assert RefOk(g, d, r) && RefOk(g, d, Ref(r.i, IND)) && RefOk(g, d, Ref(i, k));
    assert At(d, Ref(r.i, IND)) != At(d, Ref(i, k));
  }

  lemma PutChunkOwned(g: Geometry, d: Disk, i: nat, k: nat, lo: nat, s: seq<byte>)
    requires Owned(g, d) && k < MAXFILE && At(d, Ref(i, k)) != 0 && lo + |s| <= BSIZE
    ensures IsData(d, At(d, Ref(i, k))) && Owned(g, PutChunk(d, At(d, Ref(i, k)), lo, s))
    ensures forall r :: At(PutChunk(d, At(d, Ref(i, k)), lo, s), r) == At(d, r)
  {
    assert RefOk(g, d, Ref(i, k));
    var d' := PutChunk(d, At(d, Ref(i, k)), lo, s);
    forall r
      ensures At(d', r) == At(d, r) && RefOk(g, d', r)
    {
      PutChunkAt(g, d, i, k, lo, s, r);
    }
    forall b | Reached(d, b)
      ensures Reached(d', b)
    {
      var r :| At(d, r) == b;
      assert At(d', r) == b;
    }
  }

  /** It changes the bytes it is meant to, and no byte of any other file or place. */
  lemma PutChunkByte(g: Geometry, d: Disk, i: nat, k: nat, lo: nat, s: seq<byte>, j: nat, o: nat)
    requires Owned(g, d) && k < MAXFILE && At(d, Ref(i, k)) != 0 && lo + |s| <= BSIZE
    ensures IsData(d, At(d, Ref(i, k)))
    ensures ByteAt(PutChunk(d, At(d, Ref(i, k)), lo, s), j, o) ==
            if j == i && k * BSIZE + lo <= o < k * BSIZE + lo + |s| then s[o - (k * BSIZE + lo)] else ByteAt(d, j, o)
  {
    PutChunkOwned(g, d, i, k, lo, s);
    assert RefOk(g, d, Ref(i, k)) && RefOk(g, d, Ref(j, o / BSIZE));
    assert At(d, Ref(j, o / BSIZE)) == At(d, Ref(i, k)) ==> Ref(j, o / BSIZE) == Ref(i, k);
    assert o == o / BSIZE * BSIZE + o % BSIZE;
  }

  /** Allocating blocks changes no byte that is there. */
  lemma ExtendsByte(g: Geometry, d: Disk, d': Disk, i: nat, bn: nat, j: nat, o: nat)
    requires Owned(g, d) && Owned(g, d') && Extends(d, d', Ref(i, bn), Ref(i, IND)) && bn < MAXFILE
    requires o / BSIZE < MAXFILE
    ensures At(d, Ref(j, o / BSIZE)) != 0 ==>
            ByteAt(d', j, o) == ByteAt(d, j, o) && At(d', Ref(j, o / BSIZE)) == At(d, Ref(j, o / BSIZE))
  {
    assert RefOk(g, d, Ref(j, o / BSIZE)) && RefOk(g, d', Ref(j, o / BSIZE));
  }

  const WORD := 0x1_0000_0000

  function Min(a: nat, b: nat): (r: nat) {
    if a < b then a else b
  }

  function Max(a: nat, b: nat): (r: nat) {
    if a < b then b else a
  }

  /** Reading from a block that is there. */
  lemma BlockBytes(g: Geometry, d: Disk, i: nat, o: nat, m: nat)
    requires Owned(g, d) && o / BSIZE < MAXFILE && At(d, Ref(i, o / BSIZE)) != 0 && o % BSIZE + m <= BSIZE
    ensures IsData(d, At(d, Ref(i, o / BSIZE)))
    ensures var t := d.blocks[At(d, Ref(i, o / BSIZE))].bytes[o % BSIZE..o % BSIZE + m];
            forall x :: 0 <= x < m ==> t[x] == ByteAt(d, i, o + x)
  {
    assert RefOk(g, d, Ref(i, o / BSIZE));
    var t := d.blocks[At(d, Ref(i, o / BSIZE))].bytes[o % BSIZE..o % BSIZE + m];
    forall x | 0 <= x < m
      ensures t[x] == ByteAt(d, i, o + x)
    {
      SameBlock(o, x);
    }
  }

  lemma SameBlock(o: nat, x: nat)
    requires o % BSIZE + x < BSIZE
    ensures (o + x) / BSIZE == o / BSIZE && (o + x) % BSIZE == o % BSIZE + x
  {
    assert o + x == o / BSIZE * BSIZE + (o % BSIZE + x);
  }

  lemma BelowSize(d: Disk, i: nat, o: nat)
    requires FileOk(d, i) && o < d.inodes[i].size
    ensures o / BSIZE < MAXFILE && At(d, Ref(i, o / BSIZE)) != 0
  {
    assert o / BSIZE < BlockCount(d.inodes[i].size);
  }

  /** readi of n bytes from off on; room is how many bytes the destination can take. It
      returns exactly the slice of the contents, clipped to the size, and allocates
      nothing. */
  method Readi(fs: Fs, i: nat, off: nat, n: nat, room: nat) returns (ok: bool, out: seq<byte>)
    requires Owned(fs.g, fs.d) && FileOk(fs.d, i) && off < WORD && n < WORD
    modifies fs`d
    ensures fs.d == old(fs.d)
    ensures off > fs.d.inodes[i].size || off + n >= WORD ==> ok && out == []
    ensures off <= fs.d.inodes[i].size && off + n < WORD ==>
              var m := Min(n, fs.d.inodes[i].size - off);
              (ok <==> m <= room) && (ok ==> out == Contents(fs.d, i)[off..off + m])
  {
    hide Owned, FileOk, At, ByteAt;
    out, ok := [], true;
    HasShape(fs.d, i);
    var size := fs.d.inodes[i].size;
    if off > size || off + n >= WORD {
      return;
    }
    var m := if off + n > size then size - off else n;
    while |out| < m
      invariant fs.d == old(fs.d) && |out| <= m && |out| <= room
      invariant forall x :: 0 <= x < |out| ==> out[x] == ByteAt(fs.d, i, off + x)
      decreases m - |out|
    {
      var o := off + |out|;
      BelowSize(fs.d, i, o);
      var b, _ := fs.Bmap(i, o / BSIZE);
      var c := Min(m - |out|, BSIZE - o % BSIZE);
      if |out| + c > room {
        ok := false;
        return;
      }
      BlockBytes(fs.g, fs.d, i, o, c);
      var chunk := fs.d.blocks[b].bytes[o % BSIZE..o % BSIZE + c];
      JoinBytes(fs.d, i, off, out, chunk);
      out := out + chunk;
    }
  }

  lemma JoinBytes(d: Disk, i: nat, off: nat, s: seq<byte>, t: seq<byte>)
    requires forall x :: 0 <= x < |s| ==> s[x] == ByteAt(d, i, off + x)
    requires forall x :: 0 <= x < |t| ==> t[x] == ByteAt(d, i, off + |s| + x)
    ensures forall x :: 0 <= x < |s + t| ==> (s + t)[x] == ByteAt(d, i, off + x)
  {
    hide ByteAt;
    forall x | 0 <= x < |s + t|
      ensures (s + t)[x] == ByteAt(d, i, off + x)
    {
      if x >= |s| {
        assert t[x - |s|] == ByteAt(d, i, off + |s| + (x - |s|));
      }
    }
  }

  lemma HasShape(d: Disk, i: nat)
    requires FileOk(d, i)
    ensures Shaped(d, i) && d.inodes[i].size <= MAXFILE * BSIZE
  {
  }
}
