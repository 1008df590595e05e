/** Transactions of the file system: file operations between two commits of the log. */
module FsRuns {
  import opened Common
  import opened Blocks
  import opened Fs
  import opened FileBytes
  import opened FileWrite
  import opened DiskLayout
  import Trunc

  /** writei of n bytes of which src can be read, and itrunc. */
  datatype Call = Write(i: nat, off: nat, src: seq<byte>, n: nat) | Trunc(i: nat)

  /** What holds between operations: ownership is exact, every file has its blocks, and the
      inodes in memory are those on the disk. */
  ghost predicate Ready(g: Geometry, d: Disk) {
    Owned(g, d) && Synced(g, d) && forall i :: i in d.inodes ==> FileOk(d, i)
  }

  /** The call is for a file, and copies nothing in vain. */
  predicate Allowed(d: Disk, c: Call) {
    c.i in d.inodes && (c.Write? ==> |c.src| <= c.n < WORD && c.off < WORD && !InVain(c.off, |c.src|, c.n))
  }

  /** What a call does to the files: a write is whole unless the disk is full. */
  ghost predicate Does(d: Disk, d': Disk, c: Call) {
    && d'.inodes.Keys == d.inodes.Keys && c.i in d.inodes
    && (forall j :: j in d.inodes && j != c.i ==> Contents(d', j) == Contents(d, j))
    && (match c
        case Trunc(i) => Contents(d', i) == []
        case Write(i, off, src, n) =>
          if off > d.inodes[i].size || off + n >= WORD || off + n > MAXFILE * BSIZE then d' == d
          else exists r :: 0 <= r <= |src| && Contents(d', i) == Overwritten(Contents(d, i), off, src[..r]) &&
                           (r < |src| ==> DiskFull(d')))
  }

  /** Everything that the operations between two commits change is in the log. */
  ghost predicate Transaction(g: Geometry, d: Disk, d': Disk) {
    Ready(g, d') && Covered(g, d.(logged := {}), d', {}) && d'.inodes.Keys == d.inodes.Keys
  }

  lemma OtherInode(g: Geometry, d: Disk, d': Disk, i: nat, j: nat)
    requires Apart(g, d) && Apart(g, d') && d'.inodes.Keys == d.inodes.Keys && j in d.inodes && i != j
    requires forall s: Ref :: s.i != i ==> At(d', s) == At(d, s)
    requires d'.inodes[j].size == d.inodes[j].size
    ensures d'.inodes[j] == d.inodes[j]
  {
    assert Shaped(d, j) && Shaped(d', j);
    forall k | 0 <= k < NDIRECT + 1
      ensures d'.inodes[j].addrs[k] == d.inodes[j].addrs[k]
    {
      var s := Ref(j, if k < NDIRECT then k else IND);
      assert At(d, s) == d.inodes[j].addrs[k] && At(d', s) == d'.inodes[j].addrs[k];
    }
  }

  lemma WriteReady(g: Geometry, d: Disk, d': Disk, i: nat)
    requires Ready(g, d) && Owned(g, d') && OthersKept(d, d', i) && i in d.inodes && d'.inodes.Keys == d.inodes.Keys
    requires FileOk(d', i) && d'.dinodes == d.dinodes[i := d'.inodes[i]]
    requires forall s: Ref :: s.i != i ==> At(d', s) == At(d, s)
    ensures Ready(g, d') && forall j :: j in d.inodes && j != i ==> Contents(d', j) == Contents(d, j)
  {
    hide At, RefOk, FileOk;
    forall j | j in d.inodes && j != i
      ensures d'.inodes[j] == d.inodes[j] && FileOk(d', j) && Contents(d', j) == Contents(d, j)
    {
      assert FileOk(d, j);
      assert |Contents(d', j)| == |Contents(d, j)|;
      OtherInode(g, d, d', i, j);
    }
    assert d'.dinodes == d'.inodes;
  }

  lemma TruncReady(g: Geometry, d: Disk, d': Disk, i: nat)
    requires Ready(g, d) && Owned(g, d') && i in d.inodes && d'.inodes.Keys == d.inodes.Keys && Shaped(d', i)
    requires d'.inodes[i].size == 0 && d'.dinodes == d.dinodes[i := d'.inodes[i]] && d'.blocks == d.blocks
    requires forall j :: j in d'.inodes && j != i ==> d'.inodes[j] == d.inodes[j]
    requires forall s: Ref :: At(d', s) == if s.i == i then 0 else At(d, s)
    ensures Ready(g, d') && Contents(d', i) == []
    ensures forall j :: j in d.inodes && j != i ==> Contents(d', j) == Contents(d, j)
  {
    hide At, Owned;
    forall j | j in d'.inodes && j != i
      ensures FileOk(d', j) && Contents(d', j) == Contents(d, j)
    {
      assert FileOk(d, j);
    }
    assert d'.dinodes == d'.inodes;
  }

  lemma WholeOrFull(off: nat, len: nat, n: nat, r: nat)
    requires !InVain(off, len, n)
    ensures len < n && off + r == ChunkStart(off, len) ==> r >= len
  {
  }

  /** One call. */
  method Apply(fs: Fs, c: Call)
    requires Ready(fs.g, fs.d) && Allowed(fs.d, c)
    modifies fs`d
    ensures Ready(fs.g, fs.d) && Does(old(fs.d), fs.d, c) && Covered(fs.g, old(fs.d), fs.d, {})
  {
    hide Owned, At, ByteAt, Marked, OthersKept, Covered, Overwritten, InVain, ChunkStart;
    ghost var d0 := fs.d;
    assert FileOk(d0, c.i);
    match c
    case Trunc(i) =>
      Trunc.Itrunc(fs, i);
      TruncReady(fs.g, d0, fs.d, i);
    case Write(i, off, src, n) =>
      var r, _ := Writei(fs, i, src, off, n);
      if r != -1 {
        WriteReady(fs.g, d0, fs.d, i);
        WholeOrFull(off, |src|, n, r);
      }
  }

  /** A write that copies in vain need not be covered: a commit after it does not put on the
      disk what readers have seen. */
  method VainUncovered(fs: Fs, i: nat, b: byte) returns (r: int)
    requires Ready(fs.g, fs.d) && fs.g.bmapstart <= fs.g.datastart && fs.d.logged == {}
    requires i in fs.d.inodes && fs.d.inodes[i].size > 0 && Contents(fs.d, i)[0] != b
    modifies fs`d
    ensures r == 0 && !Covered(fs.g, old(fs.d), fs.d, {})
  {
    hide Owned, At;
    ghost var d0 := fs.d;
    OwnedApart(fs.g, d0);
    assert FileOk(d0, i);
    assert RefOk(fs.g, d0, Ref(i, 0));
    r := FailedWriteShows(fs, i, b);
    OwnedApart(fs.g, fs.d);
    assert RefOk(fs.g, fs.d, Ref(i, 0));
    assert ByteAt(fs.d, i, 0) != ByteAt(d0, i, 0);
    assert At(d0, Ref(i, 0)) !in fs.d.logged;
  }

  /** A transaction of any number of calls, one after the other; ds is the history. */
  method Group(fs: Fs, cs: seq<Call>) returns (ghost ds: seq<Disk>)
    requires Ready(fs.g, fs.d) && forall k :: 0 <= k < |cs| ==> Allowed(fs.d, cs[k])
    modifies fs`d
    ensures Transaction(fs.g, old(fs.d), fs.d)
    ensures |ds| == |cs| + 1 && ds[0] == old(fs.d).(logged := {}) && ds[|cs|] == fs.d
    ensures forall k :: 0 <= k < |cs| ==> Does(ds[k], ds[k + 1], cs[k])
  {
    hide Ready, Covered, Does;
    ghost var d0 := fs.d;
    fs.d := fs.d.(logged := {});
    BeginReady(fs.g, d0);
    ds := [fs.d];
    CoveredSelf(fs.g, fs.d, {});
    for k := 0 to |cs|
      invariant |ds| == k + 1 && ds[0] == d0.(logged := {}) && ds[k] == fs.d
      invariant Ready(fs.g, fs.d) && Covered(fs.g, ds[0], fs.d, {}) && fs.d.inodes.Keys == d0.inodes.Keys
      invariant forall j :: 0 <= j < k ==> Does(ds[j], ds[j + 1], cs[j])
    {
      ghost var d1 := fs.d;
      Apply(fs, cs[k]);
      DoesKeys(d1, fs.d, cs[k]);
      CoveredTrans(fs.g, ds[0], d1, fs.d, {});
      ds := ds + [fs.d];
    }
  }

  lemma DoesKeys(d: Disk, d': Disk, c: Call)
    requires Does(d, d', c)
    ensures d'.inodes.Keys == d.inodes.Keys
  {
  }

  lemma BeginReady(g: Geometry, d: Disk)
    requires Ready(g, d)
    ensures Ready(g, d.(logged := {}))
  {
    var d' := d.(logged := {});
    assert forall s :: At(d', s) == At(d, s);
    assert forall s :: RefOk(g, d, s) ==> RefOk(g, d', s);
    forall b | Reached(d, b)
      ensures Reached(d', b)
    {
      var s :| At(d, s) == b;
      assert At(d', s) == b;
    }
    forall i | i in d'.inodes
      ensures FileOk(d', i)
    {
      assert FileOk(d, i);
    }
  }
}
