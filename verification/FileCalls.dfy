/** The inode case of filewrite in kernel/file.c: a long write is cut into transactions that
    fit the log. */
module FileCalls {
  import opened Common
  import opened Blocks
  import opened Fs
  import opened FileBytes
  import opened FileWrite

  const MAXWRITE := (MAXOPBLOCKS - 1 - 1 - 2) / 2 * BSIZE

  /** Where the piece starts in which len readable bytes end. */
  function PieceStart(len: nat): nat {
    len / MAXWRITE * MAXWRITE
  }

  /** A whole number of pieces. */
  predicate Pieces(done: nat) {
    done % MAXWRITE == 0
  }

  lemma PiecesMore(done: nat)
    ensures Pieces(0) && (Pieces(done) ==> Pieces(done + MAXWRITE))
  {
  }

  function PieceSize(n: int, done: nat): int {
    if n - done > MAXWRITE then MAXWRITE else n - done
  }

  /** The piece in which the readable bytes end is one that writei admits, and is torn. */
  predicate TornWrite(size: nat, off: nat, len: nat, n: int) {
    && var ps := PieceStart(len);
       && len < n && off + ps + PieceSize(n, ps) <= MAXFILE * BSIZE
       && Torn(size, off + ps, len - ps, PieceSize(n, ps))
  }

  lemma PieceAt(len: nat, done: nat)
    requires Pieces(done) && done <= len
    ensures done <= PieceStart(len) <= len < PieceStart(len) + MAXWRITE
    ensures PieceStart(len) == done || done + MAXWRITE <= PieceStart(len)
  {
    var q, k := len / MAXWRITE, done / MAXWRITE;
    assert MAXWRITE == 3072 && done == k * 3072 && q * 3072 <= len < q * 3072 + 3072;
  }

  lemma ChunkFrom(off: nat, len: nat)
    ensures off <= ChunkStart(off, len)
  {
  }

  function TornAt(off: nat, len: nat): nat {
    ChunkStart(off + PieceStart(len), len - PieceStart(len))
  }

  /** After whole pieces, the next piece is torn if and only if the write
      is and the readable bytes end there. */
  lemma NextPiece(size: nat, off: nat, len: nat, n: int, done: nat)
    requires size <= MAXFILE * BSIZE && Pieces(done) && done <= len <= n && done < n
    ensures var n1 := PieceSize(n, done); var m := if done + n1 < len then n1 else len - done;
            && (off + done + n1 <= MAXFILE * BSIZE && Torn(Max(size, off + done), off + done, m, n1) <==>
                TornWrite(size, off, len, n) && PieceStart(len) == done)
            && (TornWrite(size, off, len, n) && PieceStart(len) != done ==>
                done + n1 < len && off + done + n1 < size)
  {
    hide PieceStart, ChunkStart, Pieces;
    PieceAt(len, done);
    ChunkFrom(off + PieceStart(len), len - PieceStart(len));
  }

  /** The piece of src from done on, of n1 bytes or what is left. */
  function Piece(src: seq<byte>, done: nat, n1: nat): (r: seq<byte>)
    requires done <= |src|
    ensures |r| == if done + n1 < |src| then n1 else |src| - done
  {
    src[done..if done + n1 < |src| then done + n1 else |src|]
  }

  lemma PieceWritten(c: seq<byte>, off: nat, src: seq<byte>, done: nat, n1: nat, r: nat, torn: bool)
    requires off <= |c| && done <= |src| && r <= |Piece(src, done, n1)|
    ensures var c1 := Overwritten(c, off, src[..done]);
            && |c1| == Max(|c|, off + done)
            && ((torn ==> done + n1 >= |src|) ==>
                AfterWrite(c1, off + done, Piece(src, done, n1), r, torn) == AfterWrite(c, off, src, done + r, torn))
  {
  }

  /** One piece of n1 bytes, written from done on, ends the write unless it is whole. */
  lemma PieceEnds(c: seq<byte>, c1: seq<byte>, c2: seq<byte>, off: nat, src: seq<byte>, n: int, done: nat, r: nat,
                  n1: nat)
    requires off <= |c| <= MAXFILE * BSIZE && Pieces(done) && done <= |src| <= n && done < n
    requires n1 == PieceSize(n, done) && off + done + n1 <= MAXFILE * BSIZE && r <= n1
    requires c1 == Overwritten(c, off, src[..done])
    requires Leaves(c1, c2, off + done, Piece(src, done, n1), r, Torn(|c1|, off + done, |Piece(src, done, n1)|, n1),
                    ChunkStart(off + done, |Piece(src, done, n1)|))
    requires r < n1 == |Piece(src, done, n1)| ==> off + done + r >= |c1|
    ensures r == n1 ==> c2 == Overwritten(c, off, src[..done + r])
    ensures r < n1 ==> Leaves(c, c2, off, src, done + r, TornWrite(|c|, off, |src|, n), TornAt(off, |src|))
  {
    hide Overwritten, AfterWrite, TornWrite, ChunkStart, PieceStart, Pieces;
    NextPiece(|c|, off, |src|, n, done);
    PieceWritten(c, off, src, done, n1, r, Torn(|c1|, off + done, |Piece(src, done, n1)|, n1));
    Untorn(c, off, src, done + r);
  }

  lemma Untorn(c: seq<byte>, off: nat, src: seq<byte>, k: nat)
    requires k <= |src| && off <= |c|
    ensures var c' := Overwritten(c, off, src[..k]);
            Leaves(c, c', off, src, k, false, TornAt(off, |src|)) && |c'| == Max(|c|, off + k)
    ensures Overwritten(c, off, src[..0]) == c
  {
  }

  lemma TornInside(size: nat, off: nat, len: nat, n: int)
    requires TornWrite(size, off, len, n)
    ensures off < size && len < n
  {
    hide PieceStart, ChunkStart;
    PieceAt(len, 0);
    ChunkFrom(off + PieceStart(len), len - PieceStart(len));
  }

  /** One transaction of filewrite, of n bytes at off; before is what it logged until it came to
      the inode. */
  method WritePiece(fs: Fs, i: nat, src: seq<byte>, off: nat, n: nat) returns (r: int, ghost before: set<nat>)
    requires Owned(fs.g, fs.d) && FileOk(fs.d, i) && |src| <= n <= MAXWRITE && off + n < WORD
    modifies fs`d
    ensures Owned(fs.g, fs.d) && FileOk(fs.d, i) && i in fs.d.inodes
    ensures |before| < MAXOPBLOCKS && fs.d.logged == before + if r == -1 then {} else {IBlock(fs.g, i)}
    ensures OthersKept(old(fs.d), fs.d, i)
    ensures r == -1 <==> off > old(fs.d).inodes[i].size || off + n > MAXFILE * BSIZE
    ensures r == -1 ==> Contents(fs.d, i) == Contents(old(fs.d), i)
    ensures r != -1 ==>
              && 0 <= r <= |src|
              && Leaves(Contents(old(fs.d), i), Contents(fs.d, i), off, src, r,
                        Torn(old(fs.d).inodes[i].size, off, |src|, n), ChunkStart(off, |src|))
    ensures -1 != r < n == |src| ==> off + r >= old(fs.d).inodes[i].size && DiskFull(fs.d)
  {
    hide Owned, FileOk, Contents, Shaped, Leaves, Torn, ChunkStart, OthersKept, Marked, At;
    ghost var d0 := fs.d;
    HasShape(d0, i);
    BeginOp(fs.g, d0);
    fs.d := fs.d.(logged := {});
    ghost var d1 := fs.d;
    OthersSame(d0, i);
    OthersBegin(d0, d0, i);
    r, before := Writei(fs, i, src, off, n);
    OthersMore(d0, d1, fs.d, i);
    assert before - {} == before;
    if r != -1 {
      StopsOutside(d1, d1, i, off, r);
    }
  }

  /** filewrite of n bytes at offset off; src is as much of them as can be read. logs is
      history: what each transaction logged, besides the inode at its end. */
  method Filewrite(fs: Fs, i: nat, off: nat, src: seq<byte>, n: int)
    returns (ret: int, off': nat, ghost logs: seq<set<nat>>)
    requires Owned(fs.g, fs.d) && FileOk(fs.d, i) && n < 0x8000_0000 && |src| <= (if n < 0 then 0 else n)
    requires off < 0x8000_0000
    modifies fs`d
    ensures Owned(fs.g, fs.d) && FileOk(fs.d, i) && off <= off' <= off + |src|
    ensures ret == if 0 <= n == off' - off then n else -1
    ensures forall k :: 0 <= k < |logs| ==> |logs[k]| < MAXOPBLOCKS
    ensures if off <= old(fs.d).inodes[i].size then
              Leaves(Contents(old(fs.d), i), Contents(fs.d, i), off, src, off' - off,
                     TornWrite(old(fs.d).inodes[i].size, off, |src|, n), TornAt(off, |src|))
            else off' == off && Contents(fs.d, i) == Contents(old(fs.d), i)
    ensures off <= old(fs.d).inodes[i].size && off' - off < n == |src| ==>
              DiskFull(fs.d) || off' + PieceSize(n, off' - off) > MAXFILE * BSIZE
    ensures OthersKept(old(fs.d), fs.d, i)
  {
    hide Owned, FileOk, Contents, Overwritten, Shaped, Leaves, TornWrite, Torn, TornAt,
         ChunkStart, PieceStart, Piece, Pieces, OthersKept, Marked, At;
    ghost var d0 := fs.d;
    HasShape(d0, i);
    OthersSame(d0, i);
    ghost var c, size := Contents(d0, i), d0.inodes[i].size;
    ContentsSize(d0, i);
    ghost var fits := off <= size;
    if fits {
      Untorn(c, off, src, 0);
    }
    if TornWrite(size, off, |src|, n) {
      TornInside(size, off, |src|, n);
    }
    var done := 0;
    PiecesMore(0);
    off', logs := off, [];
    while done < n
      invariant 0 <= done == off' - off <= |src| && Owned(fs.g, fs.d) && FileOk(fs.d, i) && i in fs.d.inodes
      invariant done == n || Pieces(done)
      invariant fits ==> Contents(fs.d, i) == Overwritten(c, off, src[..done])
      invariant !fits ==> done == 0 && Contents(fs.d, i) == c
      invariant OthersKept(d0, fs.d, i)
      invariant forall k :: 0 <= k < |logs| ==> |logs[k]| < MAXOPBLOCKS
    {
      var n1 := PieceSize(n, done);
      ghost var d1 := fs.d;
      if fits {
        Untorn(c, off, src, done);
      }
      ContentsSize(d1, i);
      var r;
      ghost var before;
      r, before := WritePiece(fs, i, Piece(src, done, n1), off', n1);
      logs := logs + [before];
      OthersMore(d0, d1, fs.d, i);
      if r == -1 {
        NextPiece(size, off, |src|, n, done);
        ret := -1;
        return;
      }
      if fits {
        PieceEnds(c, Contents(d1, i), Contents(fs.d, i), off, src, n, done, r, n1);
      }
      off' := off' + r;
      if r != n1 {
        ret := -1;
        return;
      }
      PiecesMore(done);
      done := done + r;
    }
    if fits {
      Untorn(c, off, src, done);
    }
    ret := if done == n then n else -1;
  }

  lemma OthersBegin(d0: Disk, d: Disk, i: nat)
    requires OthersKept(d0, d, i)
    requires forall j :: j in d.inodes && FileOk(d, j) ==>
               FileOk(d.(logged := {}), j) && Contents(d.(logged := {}), j) == Contents(d, j)
    ensures OthersKept(d0, d.(logged := {}), i)
  {
    hide FileOk, Contents;
  }

  lemma OthersMore(d0: Disk, d1: Disk, d2: Disk, i: nat)
    requires OthersKept(d0, d1, i) && OthersKept(d1, d2, i)
    ensures OthersKept(d0, d2, i)
  {
    hide FileOk, Contents;
  }

  lemma ContentsSize(d: Disk, i: nat)
    requires i in d.inodes
    ensures |Contents(d, i)| == d.inodes[i].size
  {
  }

  /** begin_op: a new transaction with nothing logged. */
  lemma BeginOp(g: Geometry, d: Disk)
    requires Owned(g, d)
    ensures Owned(g, d.(logged := {}))
    ensures forall j :: j in d.inodes && FileOk(d, j) ==>
              FileOk(d.(logged := {}), j) && Contents(d.(logged := {}), j) == Contents(d, j)
  {
    var d' := d.(logged := {});
    SameButLogged(g, d, d, Ref(0, 0), {});
    forall j, o: nat
      ensures ByteAt(d', j, o) == ByteAt(d, j, o)
    {
    }
  }
}
