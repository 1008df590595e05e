/** writei of kernel/fs.c and the loop of filewrite in kernel/file.c: what is written, and
    how many blocks of the log it takes. */
module FileWrite {
  import opened Common
  import opened Blocks
  import opened Fs
  import opened FileBytes

  /** tot bytes of src have been written to file i from off on; nothing else has changed
      but for blocks added to the file. */
  ghost predicate Progress(g: Geometry, d0: Disk, d: Disk, i: nat, src: seq<byte>, off: nat, tot: nat) {
    && Owned(g, d) && d.dinodes == d0.dinodes && d.inodes.Keys == d0.inodes.Keys
    && (forall j :: j in d0.inodes ==> d.inodes[j].size == d0.inodes[j].size)
    && (forall s: Ref :: At(d0, s) != 0 || s.i != i ==> At(d, s) == At(d0, s))
    && i in d0.inodes && tot <= |src| && Filled(d, i, BlockCount(Max(d0.inodes[i].size, off + tot)))
    && BytesOk(d0, d, i, src, off, tot)
  }

  /** Every byte that was there, or has been written. */
  ghost predicate BytesOk(d0: Disk, d: Disk, i: nat, src: seq<byte>, off: nat, tot: nat)
    requires tot <= |src|
  {
    && (forall o :: off <= o < off + tot ==> ByteAt(d, i, o) == src[o - off])
    && (forall j, o: nat ::
          At(d0, Ref(j, o / BSIZE)) != 0 && o / BSIZE < MAXFILE && !(j == i && off <= o < off + tot) ==>
            ByteAt(d, j, o) == ByteAt(d0, j, o))
  }

  lemma ProgressStart(g: Geometry, d: Disk, i: nat, src: seq<byte>, off: nat)
    requires Owned(g, d) && FileOk(d, i) && off <= d.inodes[i].size
    ensures Progress(g, d, d, i, src, off, 0)
  {
  }

  /** bmap for the next block. */
  lemma ProgressMap(g: Geometry, d0: Disk, d1: Disk, d2: Disk, i: nat, src: seq<byte>, off: nat, tot: nat)
    requires Progress(g, d0, d1, i, src, off, tot) && Owned(g, d2) && (off + tot) / BSIZE < MAXFILE
    requires Extends(d1, d2, Ref(i, (off + tot) / BSIZE), Ref(i, IND))
    ensures Progress(g, d0, d2, i, src, off, tot)
  {
    var bn := (off + tot) / BSIZE;
    forall s: Ref | At(d1, s) != 0 || s.i != i
      ensures At(d2, s) == At(d1, s)
    {
    }
    forall o | off <= o < off + tot
      ensures ByteAt(d2, i, o) == src[o - off]
    {
      WrittenBlock(d0, d1, i, off, tot, o);
      ExtendsByte(g, d1, d2, i, bn, i, o);
    }
    forall j, o: nat | At(d0, Ref(j, o / BSIZE)) != 0 && o / BSIZE < MAXFILE && !(j == i && off <= o < off + tot)
      ensures ByteAt(d2, j, o) == ByteAt(d0, j, o)
    {
      ExtendsByte(g, d1, d2, i, bn, j, o);
    }
  }

  lemma WrittenBlock(d0: Disk, d: Disk, i: nat, off: nat, tot: nat, o: nat)
    requires i in d0.inodes && Filled(d, i, BlockCount(Max(d0.inodes[i].size, off + tot))) && off <= o < off + tot
    requires (off + tot) / BSIZE < MAXFILE
    ensures At(d, Ref(i, o / BSIZE)) != 0 && o / BSIZE < MAXFILE
  {
    assert o / BSIZE < BlockCount(off + tot) <= BlockCount(Max(d0.inodes[i].size, off + tot));
  }

  /** The next m bytes are stored in their block. */
  lemma ProgressPut(g: Geometry, d0: Disk, d1: Disk, i: nat, src: seq<byte>, off: nat, tot: nat, m: nat)
    requires Progress(g, d0, d1, i, src, off, tot) && 0 < m && tot + m <= |src|
    requires (off + tot) / BSIZE < MAXFILE && (off + tot) % BSIZE + m <= BSIZE
    requires At(d1, Ref(i, (off + tot) / BSIZE)) != 0
    ensures IsData(d1, At(d1, Ref(i, (off + tot) / BSIZE)))
    ensures Progress(g, d0, PutChunk(d1, At(d1, Ref(i, (off + tot) / BSIZE)), (off + tot) % BSIZE, src[tot..tot + m]),
            i, src, off, tot + m)
  {
    hide At, ByteAt, Owned;
    var k, lo, s := (off + tot) / BSIZE, (off + tot) % BSIZE, src[tot..tot + m];
    PutChunkOwned(g, d1, i, k, lo, s);
    var d2 := PutChunk(d1, At(d1, Ref(i, k)), lo, s);
    assert k * BSIZE + lo == off + tot;
    forall o | off <= o < off + tot + m
      ensures ByteAt(d2, i, o) == src[o - off]
    {
      PutChunkByte(g, d1, i, k, lo, s, i, o);
    }
    forall j, o: nat | At(d0, Ref(j, o / BSIZE)) != 0 && o / BSIZE < MAXFILE && !(j == i && off <= o < off + tot + m)
      ensures ByteAt(d2, j, o) == ByteAt(d0, j, o)
    {
      PutChunkByte(g, d1, i, k, lo, s, j, o);
    }
    MoreBlocks(Max(d0.inodes[i].size, off + tot), off + tot, m);
    assert Max(d0.inodes[i].size, off + tot + m) == Max(Max(d0.inodes[i].size, off + tot), off + tot + m);
  }

  lemma MoreBlocks(sz: nat, o: nat, m: nat)
    requires o <= sz && 0 < m && o % BSIZE + m <= BSIZE
    ensures BlockCount(Max(sz, o + m)) <= Max(BlockCount(sz), o / BSIZE + 1) && o / BSIZE <= BlockCount(sz)
  {
  }

  // The log.

  /** The data blocks with index from first up to first + n. */
  ghost function Touched(d: Disk, i: nat, first: nat, n: nat): (r: set<nat>) {
    set k | first <= k < first + n :: At(d, Ref(i, k))
  }

  lemma {:induction false} TouchedFew(d: Disk, i: nat, first: nat, n: nat)
    ensures |Touched(d, i, first, n)| <= n
  {
    if n == 0 {
      assert Touched(d, i, first, 0) == {};
    } else {
      TouchedFew(d, i, first, n - 1);
      assert Touched(d, i, first, n) == Touched(d, i, first, n - 1) + {At(d, Ref(i, first + n - 1))};
    }
  }

  /** The number of blocks tot bytes from off on lie in. */
  function Span(off: nat, tot: nat): (r: int) {
    if tot == 0 then 0 else BlockCount(off + tot) - off / BSIZE
  }

  /** Of these, the ones that may be new: a write that starts inside a block finds it. */
  function MayBeNew(off: nat, tot: nat): (r: int) {
    if tot > 0 && off % BSIZE != 0 then Span(off, tot) - 1 else Span(off, tot)
  }

  /** What has been logged: the data blocks, bitmap blocks marks, and the indirect block. */
  ghost predicate Spent(d0: Disk, d: Disk, i: nat, off: nat, tot: nat, marks: set<nat>) {
    && 0 <= Span(off, tot)
    && d.logged <= d0.logged + marks + Touched(d, i, off / BSIZE, Span(off, tot)) + NonZero(At(d, Ref(i, IND)))
    && |marks| <= MayBeNew(off, tot) + New(d0, d, Ref(i, IND))
  }

  /** bmap adds the bitmap blocks it wrote; the block itself comes next. */
  /** What is logged after bmap was asked for one more block, given as b. */
  ghost predicate Asked(d0: Disk, d1: Disk, d2: Disk, i: nat, off: nat, tot: nat, marks: set<nat>, b: nat) {
    && 0 <= Span(off, tot)
    && d2.logged <= d0.logged + marks + Touched(d2, i, off / BSIZE, Span(off, tot)) + NonZero(b) +
                    NonZero(At(d2, Ref(i, IND)))
    && |marks| <= MayBeNew(off, tot) + New(d1, d2, Ref(i, (off + tot) / BSIZE)) + New(d0, d2, Ref(i, IND))
  }

  lemma SpentMap(g: Geometry, d0: Disk, d1: Disk, d2: Disk, i: nat, off: nat, tot: nat, marks: set<nat>,
                 more: set<nat>, b: nat, src: seq<byte>)
    requires Spent(d0, d1, i, off, tot, marks) && Progress(g, d0, d1, i, src, off, tot)
    requires (off + tot) / BSIZE < MAXFILE && Extends(d1, d2, Ref(i, (off + tot) / BSIZE), Ref(i, IND))
    requires d2.logged <= d1.logged + more + NonZero(b) + NonZero(At(d2, Ref(i, IND)))
    requires |more| <= New(d1, d2, Ref(i, (off + tot) / BSIZE)) + New(d1, d2, Ref(i, IND))
    ensures Asked(d0, d1, d2, i, off, tot, marks + more, b)
  {
    hide ByteAt, Owned;
    assert Touched(d1, i, off / BSIZE, Span(off, tot)) == Touched(d2, i, off / BSIZE, Span(off, tot)) by {
      forall k | off / BSIZE <= k < off / BSIZE + Span(off, tot)
        ensures At(d2, Ref(i, k)) == At(d1, Ref(i, k))
      {
        assert k < BlockCount(off + tot);
      }
    }
    assert |marks + more| <= |marks| + |more|;
  }

  /** A turn of the loop ends at a block boundary or at the end of the write. */
  lemma SpanNext(off: nat, tot: nat, m: nat)
    requires 0 < m && (off + tot) % BSIZE + m <= BSIZE && (tot == 0 || (off + tot) % BSIZE == 0)
    ensures 0 <= Span(off, tot) && Span(off, tot + m) == Span(off, tot) + 1
    ensures off / BSIZE + Span(off, tot) == (off + tot) / BSIZE
    ensures MayBeNew(off, tot + m) == MayBeNew(off, tot) + (if tot == 0 && off % BSIZE != 0 then 0 else 1)
  {
  }

  /** The data block counts as soon as bmap has returned it, stored into or not. */
  lemma SpentNext(d0: Disk, d1: Disk, d2: Disk, d3: Disk, i: nat, off: nat, tot: nat, m: nat, marks: set<nat>)
    requires 0 < m && (off + tot) % BSIZE + m <= BSIZE && (tot == 0 || (off + tot) % BSIZE == 0)
    requires var bn := (off + tot) / BSIZE;
             && At(d2, Ref(i, bn)) != 0 && Asked(d0, d1, d2, i, off, tot, marks, At(d2, Ref(i, bn)))
             && (tot == 0 && off % BSIZE != 0 ==> At(d1, Ref(i, bn)) != 0)
    requires (forall r :: At(d3, r) == At(d2, r)) && d3.logged <= d2.logged + {At(d2, Ref(i, (off + tot) / BSIZE))}
    ensures Spent(d0, d3, i, off, tot + m, marks)
  {
    hide At;
    SpanNext(off, tot, m);
    var bn := (off + tot) / BSIZE;
    assert Touched(d3, i, off / BSIZE, Span(off, tot + m)) == Touched(d2, i, off / BSIZE,
           Span(off, tot)) + {At(d2, Ref(i, bn))};
  }

  lemma SpentNone(d: Disk, i: nat, off: nat)
    ensures Spent(d, d, i, off, 0, {})
  {
  }

  /** A write that starts inside a block finds that block. */
  lemma StartsInside(d: Disk, i: nat, off: nat)
    requires FileOk(d, i) && off <= d.inodes[i].size && off % BSIZE != 0
    ensures At(d, Ref(i, off / BSIZE)) != 0
  {
    assert off / BSIZE < BlockCount(d.inodes[i].size);
  }

  lemma SpentSame(d0: Disk, d1: Disk, d2: Disk, i: nat, off: nat, tot: nat, marks: set<nat>)
    requires At(d2, Ref(i, (off + tot) / BSIZE)) == 0 && Asked(d0, d1, d2, i, off, tot, marks, 0)
    ensures Spent(d0, d2, i, off, tot, marks)
  {
    hide At;
  }

  lemma ProgressFacts(g: Geometry, d0: Disk, d: Disk, i: nat, src: seq<byte>, off: nat, tot: nat)
    requires Progress(g, d0, d, i, src, off, tot)
    ensures Owned(g, d) && Shaped(d, i) && tot <= |src|
    ensures forall s: Ref :: At(d0, s) != 0 || s.i != i ==> At(d, s) == At(d0, s)
  {
  }

  lemma PutChunkLogs(d: Disk, b: nat, lo: nat, s: seq<byte>)
    requires IsData(d, b) && lo + |s| <= BSIZE
    ensures PutChunk(d, b, lo, s).logged == d.logged + {b}
  {
  }

  /** What must have been logged: every block written, and of every new block also the bitmap
      block. New are only blocks that the write has come to, and the indirect block. */
  ghost predicate Marked(g: Geometry, d0: Disk, d: Disk, i: nat, off: nat, tot: nat) {
    && d0.logged <= d.logged
    && (forall s: Ref :: At(d, s) != At(d0, s) ==>
          s.i == i && (s.k == IND || off / BSIZE <= s.k <= (off + tot) / BSIZE) && Noted(g, d0, d, s))
    && (forall k: nat :: 0 < tot && off / BSIZE <= k < BlockCount(off + tot) ==> At(d, Ref(i, k)) in d.logged)
  }

  lemma MarkedStart(g: Geometry, d: Disk, i: nat, off: nat)
    ensures Marked(g, d, d, i, off, 0)
  {
  }

  lemma MarkedMap(g: Geometry, d0: Disk, d1: Disk, d2: Disk, i: nat, off: nat, tot: nat)
    requires Marked(g, d0, d1, i, off, tot) && Extends(d1, d2, Ref(i, (off + tot) / BSIZE), Ref(i, IND))
    requires d1.logged <= d2.logged
    requires Noted(g, d1, d2, Ref(i, (off + tot) / BSIZE)) && Noted(g, d1, d2, Ref(i, IND))
    requires (off + tot) / BSIZE < MAXFILE
    requires 0 < tot ==> forall k :: off / BSIZE <= k < BlockCount(off + tot) ==> At(d1, Ref(i, k)) != 0
    ensures Marked(g, d0, d2, i, off, tot) && d0.logged <= d1.logged
  {
    hide At;
    forall s: Ref | At(d2, s) != At(d0, s)
      ensures s.i == i && (s.k == IND || off / BSIZE <= s.k <= (off + tot) / BSIZE) && Noted(g, d0, d2, s)
    {
      if s == Ref(i, (off + tot) / BSIZE) || s == Ref(i, IND) {
        assert off / BSIZE <= (off + tot) / BSIZE;
        assert At(d1, s) != At(d0, s) ==> At(d1, s) in d1.logged && BBlock(g, At(d1, s)) in d1.logged;
      } else {
        assert At(d2, s) == At(d1, s);
      }
    }
    forall k: nat | 0 < tot && off / BSIZE <= k < BlockCount(off + tot)
      ensures At(d2, Ref(i, k)) in d2.logged
    {
      assert At(d2, Ref(i, k)) == At(d1, Ref(i, k));
    }
  }

  lemma WrittenThere(g: Geometry, d0: Disk, d: Disk, i: nat, src: seq<byte>, off: nat, tot: nat)
    requires Progress(g, d0, d, i, src, off, tot)
    ensures 0 < tot ==> forall k :: off / BSIZE <= k < BlockCount(off + tot) ==> At(d, Ref(i, k)) != 0
  {
    hide At, BytesOk, Owned;
    assert BlockCount(off + tot) <= BlockCount(Max(d0.inodes[i].size, off + tot));
  }

  lemma MarkedPut(g: Geometry, d0: Disk, d1: Disk, d2: Disk, i: nat, off: nat, tot: nat, m: nat)
    requires Marked(g, d0, d1, i, off, tot) && (forall s :: At(d2, s) == At(d1, s))
    requires d2.logged == d1.logged + {At(d1, Ref(i, (off + tot) / BSIZE))}
    requires 0 < m && (off + tot) % BSIZE + m <= BSIZE && (tot == 0 || (off + tot) % BSIZE == 0)
    ensures Marked(g, d0, d2, i, off, tot + m)
  {
    hide At;
    assert (off + tot) / BSIZE <= (off + tot + m) / BSIZE;
    assert BlockCount(off + tot + m) == (off + tot) / BSIZE + 1;
    assert 0 < tot ==> BlockCount(off + tot) == (off + tot) / BSIZE;
  }

  lemma MarkedMore(g: Geometry, d0: Disk, d1: Disk, d2: Disk, i: nat, off: nat, tot: nat)
    requires Marked(g, d0, d1, i, off, tot) && (forall s :: At(d2, s) == At(d1, s)) && d1.logged <= d2.logged
    ensures Marked(g, d0, d2, i, off, tot) && d0.logged <= d1.logged
  {
    hide At;
  }

  lemma PutChunkCovered(g: Geometry, d: Disk, b: nat, lo: nat, s: seq<byte>)
    requires IsData(d, b) && lo + |s| <= BSIZE
    ensures Covered(g, d, PutChunk(d, b, lo, s), {})
  {
  }

  /** One chunk copied and logged. */
  lemma ChunkPut(g: Geometry, d0: Disk, d: Disk, i: nat, src: seq<byte>, off: nat, tot: nat, m: nat)
    requires Progress(g, d0, d, i, src, off, tot) && Marked(g, d0, d, i, off, tot) && Covered(g, d0, d, {})
    requires 0 < m && tot + m <= |src| && (off + tot) / BSIZE < MAXFILE && (off + tot) % BSIZE + m <= BSIZE
    requires At(d, Ref(i, (off + tot) / BSIZE)) != 0 && (tot == 0 || (off + tot) % BSIZE == 0)
    ensures IsData(d, At(d, Ref(i, (off + tot) / BSIZE)))
    ensures var b := At(d, Ref(i, (off + tot) / BSIZE));
            var d' := PutChunk(d, b, (off + tot) % BSIZE, src[tot..tot + m]);
            && Progress(g, d0, d', i, src, off, tot + m) && Marked(g, d0, d', i, off, tot + m)
            && Covered(g, d0, d', {}) && (forall r :: At(d', r) == At(d, r)) && d'.logged == d.logged + {b}
  {
    hide At, Owned, Progress, PutChunk, IsData, Marked, Covered;
    var o := off + tot;
    var b, s := At(d, Ref(i, o / BSIZE)), src[tot..tot + m];
    ProgressFacts(g, d0, d, i, src, off, tot);
    ProgressPut(g, d0, d, i, src, off, tot, m);
    PutChunkOwned(g, d, i, o / BSIZE, o % BSIZE, s);
    PutChunkLogs(d, b, o % BSIZE, s);
    MarkedPut(g, d0, d, PutChunk(d, b, o % BSIZE, s), i, off, tot, m);
    PutChunkCovered(g, d, b, o % BSIZE, s);
    CoveredTrans(g, d0, d, PutChunk(d, b, o % BSIZE, s), {});
  }

  /** bmap for the next chunk. */
  method MapChunk(fs: Fs, i: nat, src: seq<byte>, off: nat, tot: nat, ghost d0: Disk, ghost marks: set<nat>)
    returns (b: nat, ghost marks': set<nat>)
    requires Progress(fs.g, d0, fs.d, i, src, off, tot) && Spent(d0, fs.d, i, off, tot, marks)
    requires Marked(fs.g, d0, fs.d, i, off, tot) && Covered(fs.g, d0, fs.d, {}) && (off + tot) / BSIZE < MAXFILE
    modifies fs`d
    ensures Progress(fs.g, d0, fs.d, i, src, off, tot) && Asked(d0, old(fs.d), fs.d, i, off, tot, marks', b)
    ensures Marked(fs.g, d0, fs.d, i, off, tot) && Covered(fs.g, d0, fs.d, {})
    ensures b == At(fs.d, Ref(i, (off + tot) / BSIZE)) && (b == 0 ==> Spent(d0, fs.d, i, off, tot, marks'))
    ensures b == 0 ==> DiskFull(fs.d)
    ensures At(d0, Ref(i, (off + tot) / BSIZE)) != 0 ==> b != 0
    ensures At(old(fs.d), Ref(i, (off + tot) / BSIZE)) != 0 ==> fs.d == old(fs.d)
  {
    hide At, Owned, Progress, Spent, Asked, NonZero, New, Extends, Marked, Noted, BlockCount, Covered;
    ghost var d1 := fs.d;
    ProgressFacts(fs.g, d0, d1, i, src, off, tot);
    ghost var more;
    b, more := fs.Bmap(i, (off + tot) / BSIZE);
    marks' := marks + more;
    SpentMap(fs.g, d0, d1, fs.d, i, off, tot, marks, more, b, src);
    ProgressMap(fs.g, d0, d1, fs.d, i, src, off, tot);
    WrittenThere(fs.g, d0, d1, i, src, off, tot);
    MarkedMap(fs.g, d0, d1, fs.d, i, off, tot);
    CoveredTrans(fs.g, d0, d1, fs.d, {});
    ProgressFacts(fs.g, d0, fs.d, i, src, off, tot);
    if b == 0 {
      SpentSame(d0, d1, fs.d, i, off, tot, marks');
    }
  }

  /** The loop of writei: it stops short only when the disk is full or the source cannot be
      read any further; then stuck is the block that the copy was for. top is the end of the
      last block it asked bmap for. */
  method WriteLoop(fs: Fs, i: nat, src: seq<byte>, off: nat, n: nat)
    returns (tot: nat, stuck: nat, ghost marks: set<nat>, ghost top: nat)
    requires Owned(fs.g, fs.d) && FileOk(fs.d, i) && off <= fs.d.inodes[i].size && off + n <= MAXFILE * BSIZE
    requires |src| <= n
    modifies fs`d
    ensures tot <= top <= n && Progress(fs.g, old(fs.d), fs.d, i, src, off, tot)
    ensures Spent(old(fs.d), fs.d, i, off, top, marks)
    ensures Marked(fs.g, old(fs.d), fs.d, i, off, tot) && Covered(fs.g, old(fs.d), fs.d, {})
    ensures tot < n && stuck == 0 ==> DiskFull(fs.d)
    ensures tot < n && stuck == 0 ==> At(fs.d, Ref(i, (off + tot) / BSIZE)) == 0
    ensures stuck != 0 ==> stuck == At(fs.d, Ref(i, (off + tot) / BSIZE)) && (off + tot) / BSIZE < MAXFILE
    ensures stuck != 0 ==> tot <= |src| < n && (off + tot) % BSIZE + |src| - tot < BSIZE
    ensures tot == n || tot == 0 || (off + tot) % BSIZE == 0
    ensures tot < n && |src| == n ==> At(old(fs.d), Ref(i, (off + tot) / BSIZE)) == 0
    ensures tot == 0 && At(old(fs.d), Ref(i, off / BSIZE)) != 0 ==> fs.d == old(fs.d)
  {
    hide At, ByteAt, Owned, Progress, Spent, FileOk, Asked, PutChunk, IsData, Marked, Covered;
    ghost var d0 := fs.d;
    tot, stuck, marks, top := 0, 0, {}, 0;
    CoveredSelf(fs.g, d0, {});
    ProgressStart(fs.g, d0, i, src, off);
    SpentNone(d0, i, off);
    MarkedStart(fs.g, d0, i, off);
    while tot < n
      invariant tot == top <= n && stuck == 0 && Progress(fs.g, d0, fs.d, i, src, off, tot)
      invariant Spent(d0, fs.d, i, off, tot, marks)
      invariant tot == n || (off + tot) % BSIZE == 0 || tot == 0
      invariant Marked(fs.g, d0, fs.d, i, off, tot) && Covered(fs.g, d0, fs.d, {})
      invariant tot == 0 ==> fs.d == d0
    {
      var o := off + tot;
      ghost var d1 := fs.d;
      var b;
      b, marks := MapChunk(fs, i, src, off, tot, d0, marks);
      if b == 0 {
        return;
      }
      var m := Min(n - tot, BSIZE - o % BSIZE);
      if tot == 0 && off % BSIZE != 0 {
        StartsInside(d0, i, off);
      }
      if tot + m > |src| {
        SpentNext(d0, d1, fs.d, fs.d, i, off, tot, m, marks);
        top, stuck := tot + m, b;
        ProgressFacts(fs.g, d0, fs.d, i, src, off, tot);
        return;
      }
      ChunkPut(fs.g, d0, fs.d, i, src, off, tot, m);
      SpentNext(d0, d1, fs.d, PutChunk(fs.d, b, o % BSIZE, src[tot..tot + m]), i, off, tot, m, marks);
      fs.d := PutChunk(fs.d, b, o % BSIZE, src[tot..tot + m]);
      tot, top := tot + m, tot + m;
    }
  }

  // The end of writei.

  function Overwritten(c: seq<byte>, off: nat, s: seq<byte>): (r: seq<byte>)
    requires off <= |c|
  {
    c[..off] + s + (if off + |s| < |c| then c[off + |s|..] else [])
  }

  /** c with the bytes s from at on, as far as it goes. */
  function Smeared(c: seq<byte>, at: nat, s: seq<byte>): (r: seq<byte>) {
    seq(|c|, o requires 0 <= o < |c| => if at <= o < at + |s| then s[o - at] else c[o])
  }

  /** Where the chunk starts in which a write at off runs out of its len readable bytes. */
  function ChunkStart(off: nat, len: nat): nat {
    if (off + len) / BSIZE == off / BSIZE then off else (off + len) / BSIZE * BSIZE
  }

  /** A write of n bytes at off, of which len can be read, would copy part of a chunk in vain. */
  predicate InVain(off: nat, len: nat, n: nat) {
    len < n && ChunkStart(off, len) < off + len
  }

  /** And that chunk starts inside a file of this size. */
  predicate Torn(size: nat, off: nat, len: nat, n: nat) {
    InVain(off, len, n) && ChunkStart(off, len) < size
  }

  /** The block that a write changes without logging it. */
  function Unlogged(d: Disk, i: nat, off: nat, len: nat, n: nat): (r: set<nat>) {
    if InVain(off, len, n) then {At(d, Ref(i, ChunkStart(off, len) / BSIZE))} else {}
  }

  /** The bytes after a write at off that reported r bytes. */
  ghost function AfterWrite(c: seq<byte>, off: nat, src: seq<byte>, r: nat, torn: bool): seq<byte>
    requires off <= |c| && r <= |src|
  {
    var w := Overwritten(c, off, src[..r]);
    if torn then Smeared(w, off + r, src[r..]) else w
  }

  /** A write at off that reports r bytes takes c to c': it stores exactly those, unless it is
      torn; then it stops at at, inside the file, and the bytes copied from there on show. */
  ghost predicate Leaves(c: seq<byte>, c': seq<byte>, off: nat, src: seq<byte>, r: nat, torn: bool, at: nat) {
    && off <= |c| && r <= |src| && c' == AfterWrite(c, off, src, r, torn)
    && (torn ==> off + r == at < off + |src| && at < |c'| == |c| && c'[at] == src[r])
  }

  /** A copy that failed in a chunk, after some bytes or none, failed in the chunk in which the
      readable bytes end; what it copied is seen if and only if the write is torn. */
  lemma TornSeen(c: seq<byte>, off: nat, src: seq<byte>, n: nat, r: nat, failed: bool)
    requires off <= |c| && r <= |src| <= n
    requires failed ==> |src| < n && (off + r) % BSIZE + |src| - r < BSIZE
    requires r == n || r == 0 || (off + r) % BSIZE == 0
    requires r < n && !failed ==> off + r >= |c|
    ensures failed ==> off + r == ChunkStart(off, |src|)
    ensures Leaves(c, AfterWrite(c, off, src, r, failed), off, src, r, Torn(|c|, off, |src|, n),
                   ChunkStart(off, |src|))
  {
  }

  /** The buffer of a block changed, without logging it. */
  function Smudged(d: Disk, b: nat, lo: nat, s: seq<byte>): (r: Disk)
    requires IsData(d, b) && lo + |s| <= BSIZE
    ensures r == d.(blocks := r.blocks)
  {
    PutChunk(d, b, lo, s).(logged := d.logged)
  }

  lemma SameBlocks(g: Geometry, d: Disk, d': Disk)
    requires Owned(g, d) && d' == d.(logged := d'.logged)
    ensures Owned(g, d') && (forall r :: At(d', r) == At(d, r)) && forall j,
            o: nat :: ByteAt(d', j, o) == ByteAt(d, j, o)
  {
    forall r
      ensures At(d', r) == At(d, r) && RefOk(g, d', r)
    {
      assert RefOk(g, d, r);
    }
    forall b | Reached(d, b)
      ensures Reached(d', b)
    {
      var r :| At(d, r) == b;
      assert At(d', r) == b;
    }
  }

  lemma SmudgedByte(g: Geometry, d: Disk, i: nat, at: nat, s: seq<byte>)
    requires Owned(g, d) && at / BSIZE < MAXFILE && At(d, Ref(i, at / BSIZE)) != 0 && at % BSIZE + |s| <= BSIZE
    ensures IsData(d, At(d, Ref(i, at / BSIZE)))
    ensures var d' := Smudged(d, At(d, Ref(i, at / BSIZE)), at % BSIZE, s);
            && Owned(g, d') && (forall r :: At(d', r) == At(d, r))
            && forall j, o: nat :: ByteAt(d', j, o) == if j == i && at <= o < at + |s| then s[o - at]
               else ByteAt(d, j, o)
  {
    hide Owned, At, ByteAt;
    var k, lo := at / BSIZE, at % BSIZE;
    PutChunkOwned(g, d, i, k, lo, s);
    var d1 := PutChunk(d, At(d, Ref(i, k)), lo, s);
    SameBlocks(g, d1, Smudged(d, At(d, Ref(i, k)), lo, s));
    assert k * BSIZE + lo == at;
    forall j, o: nat
      ensures ByteAt(d1, j, o) == if j == i && at <= o < at + |s| then s[o - at] else ByteAt(d, j, o)
    {
      PutChunkByte(g, d, i, k, lo, s, j, o);
    }
  }

  /** What was copied in vain shows in the file, as far as it goes, and nowhere else. */
  lemma SmudgedFile(g: Geometry, d: Disk, i: nat, at: nat, s: seq<byte>, j: nat)
    requires Owned(g, d) && at / BSIZE < MAXFILE && At(d, Ref(i, at / BSIZE)) != 0 && at % BSIZE + |s| <= BSIZE
    requires j in d.inodes && FileOk(d, j)
    ensures IsData(d, At(d, Ref(i, at / BSIZE)))
    ensures var d' := Smudged(d, At(d, Ref(i, at / BSIZE)), at % BSIZE, s);
            FileOk(d', j) && Contents(d', j) == if j == i then Smeared(Contents(d, j), at, s) else Contents(d, j)
  {
    hide Owned, At, ByteAt;
    SmudgedByte(g, d, i, at, s);
    var d' := Smudged(d, At(d, Ref(i, at / BSIZE)), at % BSIZE, s);
    assert forall k :: At(d', Ref(j, k)) == At(d, Ref(j, k));
    assert |Contents(d', j)| == |Contents(d, j)|;
  }

  /** The new size, and iupdate. */
  function Updated(g: Geometry, d: Disk, i: nat, sz: nat): (r: Disk)
    requires i in d.inodes
  {
    var ip := d.inodes[i].(size := sz);
    d.(inodes := d.inodes[i := ip], dinodes := d.dinodes[i := ip], logged := d.logged + {IBlock(g, i)})
  }

  lemma UpdatedAt(g: Geometry, d: Disk, i: nat, sz: nat, s: Ref)
    requires i in d.inodes
    ensures At(Updated(g, d, i, sz), s) == At(d, s) && (RefOk(g, d, s) ==> RefOk(g, Updated(g, d, i, sz), s))
  {
  }

  lemma UpdatedOwned(g: Geometry, d: Disk, i: nat, sz: nat)
    requires Owned(g, d) && i in d.inodes
    ensures Owned(g, Updated(g, d, i, sz))
    ensures forall s :: At(Updated(g, d, i, sz), s) == At(d, s)
    ensures forall j, o: nat :: ByteAt(Updated(g, d, i, sz), j, o) == ByteAt(d, j, o)
  {
    var d' := Updated(g, d, i, sz);
    forall s
      ensures At(d', s) == At(d, s) && RefOk(g, d', s)
    {
      UpdatedAt(g, d, i, sz, s);
    }
    forall b | Reached(d, b)
      ensures Reached(d', b)
    {
      var r :| At(d, r) == b;
      assert At(d', r) == b;
    }
  }

  /** The file written: its bytes are replaced, and it has no holes. */
  lemma WrittenFile(g: Geometry, d0: Disk, d: Disk, i: nat, src: seq<byte>, off: nat, tot: nat)
    requires FileOk(d0, i) && Progress(g, d0, d, i, src, off, tot) && off <= d0.inodes[i].size
    requires off + tot <= MAXFILE * BSIZE
    ensures var d' := Updated(g, d, i, Max(d0.inodes[i].size, off + tot));
            FileOk(d', i) && Contents(d', i) == Overwritten(Contents(d0, i), off, src[..tot])
  {
    hide Owned, At, ByteAt, RefOk;
    ProgressFacts(g, d0, d, i, src, off, tot);
    var sz := Max(d0.inodes[i].size, off + tot);
    UpdatedOwned(g, d, i, sz);
    var d' := Updated(g, d, i, sz);
    var c, c' := Contents(d0, i), Contents(d', i);
    forall o | 0 <= o < sz
      ensures c'[o] == Overwritten(c, off, src[..tot])[o]
    {
      if o < d0.inodes[i].size {
        BelowSize(d0, i, o);
      }
      assert ByteAt(d', i, o) == ByteAt(d, i, o);
      assert off <= o < off + tot ==> ByteAt(d, i, o) == src[o - off];
    }
  }

  /** The other files are as they were. */
  lemma OtherFile(g: Geometry, d0: Disk, d: Disk, i: nat, src: seq<byte>, off: nat, tot: nat, sz: nat, j: nat)
    requires Progress(g, d0, d, i, src, off, tot) && j in d0.inodes && j != i && FileOk(d0, j)
    ensures var d' := Updated(g, d, i, sz);
            j in d'.inodes && FileOk(d', j) && Contents(d', j) == Contents(d0, j) &&
              d'.inodes[j].size == d0.inodes[j].size
  {
    hide Owned, At, ByteAt, RefOk;
    UpdatedOwned(g, d, i, sz);
    var d' := Updated(g, d, i, sz);
    AllShaped(g, d, j);
    forall o | 0 <= o < d0.inodes[j].size
      ensures ByteAt(d', j, o) == ByteAt(d0, j, o)
    {
      BelowSize(d0, j, o);
      assert ByteAt(d', j, o) == ByteAt(d, j, o);
    }
    assert forall k :: 0 <= k < BlockCount(d0.inodes[j].size) ==>
           At(d', Ref(j, k)) == At(d, Ref(j, k)) == At(d0, Ref(j, k));
  }

  lemma AllShaped(g: Geometry, d: Disk, j: nat)
    requires Owned(g, d) && j in d.inodes
    ensures Shaped(d, j)
  {
  }

  const MAXOPBLOCKS := 10

  /** The bound: data blocks, as many bitmap blocks as may be new ones, and the indirect
      block, its bitmap block and the inode. */
  lemma Budget(g: Geometry, d0: Disk, d: Disk, i: nat, off: nat, top: nat, marks: set<nat>, sz: nat)
    requires Spent(d0, d, i, off, top, marks) && i in d.inodes
    ensures |Updated(g, d, i, sz).logged - d0.logged| <= Span(off, top) + MayBeNew(off, top) + 3
    ensures top <= 3 * BSIZE ==>
              |d.logged - d0.logged| < MAXOPBLOCKS && |Updated(g, d, i, sz).logged - d0.logged| <= MAXOPBLOCKS
  {
    hide At;
    var t, ind := Touched(d, i, off / BSIZE, Span(off, top)), NonZero(At(d, Ref(i, IND)));
    TouchedFew(d, i, off / BSIZE, Span(off, top));
    var all := marks + t + ind;
    assert |all| <= |marks| + |t| + |ind|;
    SubsetSize(d.logged - d0.logged, all);
    SubsetSize(Updated(g, d, i, sz).logged - d0.logged, all + {IBlock(g, i)});
    SpanBound(off, top);
  }

  lemma SpanBound(off: nat, top: nat)
    ensures top <= 3 * BSIZE ==> Span(off, top) + MayBeNew(off, top) <= 7
  {
  }

  /** Every other file of d0 is in d as it was. */
  ghost predicate OthersKept(d0: Disk, d: Disk, i: nat) {
    forall j :: j in d0.inodes && j != i && FileOk(d0, j) ==>
      j in d.inodes && FileOk(d, j) && Contents(d, j) == Contents(d0, j)
  }

  lemma OthersWritten(g: Geometry, d0: Disk, d: Disk, i: nat, src: seq<byte>, off: nat, tot: nat, sz: nat)
    requires Progress(g, d0, d, i, src, off, tot) && i in d.inodes
    ensures OthersKept(d0, Updated(g, d, i, sz), i)
  {
    hide Progress, FileOk, Contents, At, ByteAt;
    forall j | j in d0.inodes && j != i && FileOk(d0, j)
      ensures j in Updated(g, d, i, sz).inodes && FileOk(Updated(g, d, i, sz), j)
      ensures Contents(Updated(g, d, i, sz), j) == Contents(d0, j)
    {
      OtherFile(g, d0, d, i, src, off, tot, sz, j);
    }
  }

  /** The last block that writei looked at, with what was copied in vain. */
  lemma SmudgedUpdate(g: Geometry, d0: Disk, d: Disk, i: nat, sz: nat, at: nat, s: seq<byte>)
    requires Owned(g, d) && i in d.inodes && at / BSIZE < MAXFILE && At(d, Ref(i, at / BSIZE)) != 0
    requires at % BSIZE + |s| <= BSIZE
    requires FileOk(Updated(g, d, i, sz), i) && OthersKept(d0, Updated(g, d, i, sz), i)
    ensures IsData(d, At(d, Ref(i, at / BSIZE)))
    ensures var d' := Updated(g, Smudged(d, At(d, Ref(i, at / BSIZE)), at % BSIZE, s), i, sz);
            && Owned(g, d') && FileOk(d', i) && OthersKept(d0, d', i) && (forall s :: At(d', s) == At(d, s))
            && Contents(d', i) == Smeared(Contents(Updated(g, d, i, sz), i), at, s)
  {
    hide Owned, At, ByteAt, FileOk, Contents, Smeared;
    UpdatedOwned(g, d, i, sz);
    SmudgedByte(g, d, i, at, s);
    var u, b := Updated(g, d, i, sz), At(d, Ref(i, at / BSIZE));
    assert At(u, Ref(i, at / BSIZE)) == b;
    SmudgedByte(g, u, i, at, s);
    assert Smudged(u, b, at % BSIZE, s) == Updated(g, Smudged(d, b, at % BSIZE, s), i, sz);
    SmudgedFile(g, u, i, at, s, i);
    forall j | j in d0.inodes && j != i && FileOk(d0, j)
      ensures j in Smudged(u, b, at % BSIZE, s).inodes && FileOk(Smudged(u, b, at % BSIZE, s), j)
      ensures Contents(Smudged(u, b, at % BSIZE, s), j) == Contents(d0, j)
    {
      SmudgedFile(g, u, i, at, s, j);
    }
  }

  lemma UpdatedCovered(g: Geometry, d: Disk, i: nat, sz: nat)
    requires i in d.inodes
    ensures Covered(g, d, Updated(g, d, i, sz), {})
  {
  }

  lemma SmudgedCovered(g: Geometry, d: Disk, b: nat, lo: nat, s: seq<byte>)
    requires IsData(d, b) && lo + |s| <= BSIZE
    ensures Covered(g, d, Smudged(d, b, lo, s), if s == [] then {} else {b})
  {
  }

  lemma CoveredMore(g: Geometry, d: Disk, d': Disk, but: set<nat>, more: set<nat>)
    requires Covered(g, d, d', but) && but <= more
    ensures Covered(g, d, d', more)
  {
  }

  lemma CoveredLater(g: Geometry, d0: Disk, d1: Disk, d2: Disk, but: set<nat>)
    requires (Covered(g, d0, d1, {}) || Covered(g, d0, d1, but)) && Covered(g, d1, d2, {})
    ensures Covered(g, d0, d2, but)
  {
  }

  /** How writei ends, after its loop wrote tot bytes to a disk that was d0: the buffer in which
      the last copy failed, if any, is left as it is; the file's size and inode are updated. */
  method Finish(fs: Fs, i: nat, src: seq<byte>, off: nat, tot: nat, stuck: nat, ghost d0: Disk)
    requires FileOk(d0, i) && off <= d0.inodes[i].size && off + tot <= MAXFILE * BSIZE
    requires Progress(fs.g, d0, fs.d, i, src, off, tot) && i in fs.d.inodes
    requires stuck != 0 ==> stuck == At(fs.d, Ref(i, (off + tot) / BSIZE)) && (off + tot) / BSIZE < MAXFILE
    requires stuck != 0 ==> tot <= |src| && (off + tot) % BSIZE + |src| - tot < BSIZE
    modifies fs`d
    ensures Owned(fs.g, fs.d) && FileOk(fs.d, i) && OthersKept(d0, fs.d, i) && tot <= |src|
    ensures Contents(fs.d, i) == AfterWrite(Contents(d0, i), off, src, tot, stuck != 0)
    ensures fs.d.inodes.Keys == d0.inodes.Keys && fs.d.dinodes == d0.dinodes[i := fs.d.inodes[i]]
    ensures forall s :: At(fs.d, s) == At(old(fs.d), s)
    ensures forall s: Ref :: At(d0, s) != 0 || s.i != i ==> At(fs.d, s) == At(d0, s)
    ensures fs.d.logged == old(fs.d).logged + {IBlock(fs.g, i)} && fs.d.bits == old(fs.d).bits
    ensures fs.d.inodes[i].size == Max(d0.inodes[i].size, off + tot)
    ensures Covered(fs.g, old(fs.d), fs.d, if src[tot..] == [] then {} else NonZero(stuck))
  {
    hide At, ByteAt, Owned, Progress, FileOk, Contents, Overwritten, Smeared, IsData, OthersKept, Smudged, Covered;
    ghost var d1 := fs.d;
    CoveredSelf(fs.g, d1, {});
    ProgressFacts(fs.g, d0, d1, i, src, off, tot);
    ProgressSizes(fs.g, d0, d1, i, src, off, tot);
    ghost var sz := Max(d0.inodes[i].size, off + tot);
    WrittenFile(fs.g, d0, d1, i, src, off, tot);
    UpdatedOwned(fs.g, d1, i, sz);
    OthersWritten(fs.g, d0, d1, i, src, off, tot, sz);
    if stuck != 0 {
      SmudgedUpdate(fs.g, d0, d1, i, sz, off + tot, src[tot..]);
      SmudgedCovered(fs.g, d1, stuck, (off + tot) % BSIZE, src[tot..]);
      fs.d := Smudged(fs.d, stuck, (off + tot) % BSIZE, src[tot..]);
    }
    ghost var d2 := fs.d;
    if off + tot > fs.d.inodes[i].size {
      fs.d := fs.d.(inodes := fs.d.inodes[i := fs.d.inodes[i].(size := off + tot)]);
    }
    fs.d := fs.d.(dinodes := fs.d.dinodes[i := fs.d.inodes[i]], logged := fs.d.logged + {IBlock(fs.g, i)});
    assert fs.d == Updated(fs.g, d2, i, sz);
    UpdatedCovered(fs.g, d2, i, sz);
    CoveredLater(fs.g, d1, d2, fs.d, if src[tot..] == [] then {} else NonZero(stuck));
  }

  /** writei of n bytes at off; src is as much of them as can be read. It returns how many
      were written, or -1 when the range is not allowed. What the last copy stored in a buffer
      before it failed stays there: that buffer is released without being logged. The inode
      is logged last, before is what was logged until then. */
  method Writei(fs: Fs, i: nat, src: seq<byte>, off: nat, n: nat) returns (r: int, ghost before: set<nat>)
    requires Owned(fs.g, fs.d) && FileOk(fs.d, i) && |src| <= n < WORD && off < WORD
    modifies fs`d
    ensures Owned(fs.g, fs.d)
    ensures r == -1 <==> off > old(fs.d).inodes[i].size || off + n >= WORD || off + n > MAXFILE * BSIZE
    ensures r == -1 ==> fs.d == old(fs.d) && before == fs.d.logged
    ensures r != -1 ==>
              && 0 <= r <= |src| && i in fs.d.inodes && FileOk(fs.d, i)
              && Leaves(Contents(old(fs.d), i), Contents(fs.d, i), off, src, r,
                        Torn(old(fs.d).inodes[i].size, off, |src|, n), ChunkStart(off, |src|))
              && fs.d.inodes.Keys == old(fs.d).inodes.Keys && fs.d.dinodes == old(fs.d).dinodes[i := fs.d.inodes[i]]
    ensures -1 != r < n ==>
              if At(fs.d, Ref(i, (off + r) / BSIZE)) == 0 then DiskFull(fs.d)
              else |src| < n && off + r == ChunkStart(off, |src|)
    ensures -1 != r < n && |src| == n ==> At(old(fs.d), Ref(i, (off + r) / BSIZE)) == 0
    ensures r == -1 || r == n || r == 0 || (off + r) % BSIZE == 0
    ensures OthersKept(old(fs.d), fs.d, i)
    ensures r != -1 ==> Marked(fs.g, old(fs.d), fs.d, i, off, r)
    ensures forall s: Ref :: At(old(fs.d), s) != 0 || s.i != i ==> At(fs.d, s) == At(old(fs.d), s)
    ensures Covered(fs.g, old(fs.d), fs.d, Unlogged(fs.d, i, off, |src|, n))
    ensures r != -1 ==> old(fs.d).logged <= before && fs.d.logged == before + {IBlock(fs.g, i)}
    ensures r == 0 && At(old(fs.d), Ref(i, off / BSIZE)) != 0 ==> before == old(fs.d).logged
    ensures n <= 3 * BSIZE ==>
              |before - old(fs.d).logged| < MAXOPBLOCKS && |fs.d.logged - old(fs.d).logged| <= MAXOPBLOCKS
  {
    hide At, ByteAt, Owned, Progress, Spent, FileOk, Contents, Overwritten, Smeared, IsData, OthersKept, PutChunk,
         Marked, Smudged, ChunkStart, Torn, Leaves, Covered;
    ghost var d0 := fs.d;
    HasShape(fs.d, i);
    var size := fs.d.inodes[i].size;
    if off > size || off + n >= WORD || off + n > MAXFILE * BSIZE {
      assert d0.logged - d0.logged == {};
      OthersSame(d0, i);
      CoveredSelf(fs.g, d0, Unlogged(d0, i, off, |src|, n));
      return -1, d0.logged;
    }
    var tot, stuck;
    ghost var marks, top;
    tot, stuck, marks, top := WriteLoop(fs, i, src, off, n);
    ghost var d1 := fs.d;
    before := d1.logged;
    ProgressSizes(fs.g, d0, d1, i, src, off, tot);
    Budget(fs.g, d0, d1, i, off, top, marks, Max(size, off + tot));
    Finish(fs, i, src, off, tot, stuck, d0);
    MarkedMore(fs.g, d0, d1, fs.d, i, off, tot);
    StopsOutside(d0, fs.d, i, off, tot);
    TornSeen(Contents(d0, i), off, src, n, tot, stuck != 0);
    CoveredTrans(fs.g, d0, d1, fs.d, if src[tot..] == [] then {} else NonZero(stuck));
    CoveredMore(fs.g, d0, fs.d, if src[tot..] == [] then {} else NonZero(stuck), Unlogged(fs.d, i, off, |src|, n));
    r := tot;
  }

  /** A write that stops for want of a block stops at or behind the end of the file. */
  lemma StopsOutside(d0: Disk, d: Disk, i: nat, off: nat, tot: nat)
    requires FileOk(d0, i) && forall s: Ref :: At(d0, s) != 0 ==> At(d, s) == At(d0, s)
    ensures At(d, Ref(i, (off + tot) / BSIZE)) == 0 ==> off + tot >= d0.inodes[i].size
  {
    hide At, Filled;
    if off + tot < d0.inodes[i].size {
      BelowSize(d0, i, off + tot);
    }
  }

  lemma OthersSame(d: Disk, i: nat)
    ensures OthersKept(d, d, i)
  {
  }

  lemma ProgressSizes(g: Geometry, d0: Disk, d: Disk, i: nat, src: seq<byte>, off: nat, tot: nat)
    requires Progress(g, d0, d, i, src, off, tot)
    ensures i in d0.inodes && i in d.inodes && d.inodes[i].size == d0.inodes[i].size
    ensures d.inodes.Keys == d0.inodes.Keys && d.dinodes == d0.dinodes
  {
  }

  /** A write of two bytes at the start of a file, of which only the first can be read, reports
      that nothing was written; but readers see that byte. Its block is not logged. */
  method FailedWriteShows(fs: Fs, i: nat, b: byte) returns (r: int)
    requires Owned(fs.g, fs.d) && FileOk(fs.d, i) && fs.d.inodes[i].size > 0 && Contents(fs.d, i)[0] != b
    modifies fs`d
    ensures r == 0 && Owned(fs.g, fs.d) && FileOk(fs.d, i) && |Contents(fs.d, i)| == |Contents(old(fs.d), i)|
    ensures Contents(fs.d, i)[0] == b
    ensures At(fs.d, Ref(i, 0)) == At(old(fs.d), Ref(i, 0)) != 0
    ensures fs.d.logged == old(fs.d).logged + {IBlock(fs.g, i)}
  {
    hide At, ByteAt, Owned, Marked, OthersKept, Covered;
    BelowSize(fs.d, i, 0);
    var tot, _ := Writei(fs, i, [b], 0, 2);
    r := tot;
  }
}
