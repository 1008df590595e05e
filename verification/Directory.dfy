/** Directories as in kernel/fs.c: a file of 16-byte entries that stands for a finite map
    from names to inode numbers. */
module Directory {
  import opened Common
  import opened Blocks
  import opened Fs
  import opened FileBytes
  import opened FileWrite
  import opened Paths

  const DIRENT := 16

  predicate NoNul(s: Str) {
    forall i :: 0 <= i < |s| ==> s[i] != 0
  }

  /** The name in a field of DIRSIZ bytes: up to the first NUL, if there is one. */
  function NameOf(field: Str): (r: Str)
    ensures NoNul(r) && |r| <= |field| && field[..|r|] == r && (|r| < |field| ==> field[|r|] == 0)
  {
    if field == [] || field[0] == 0 then []
    else [field[0]] + NameOf(field[1..])
  }

  /** strncpy into such a field. */
  function Field(name: Str): (r: Str)
    ensures |r| == DIRSIZ
  {
    var t := Trunc(name);
    t + seq(DIRSIZ - |t|, _ => 0)
  }

  lemma NameIs(field: Str, t: Str)
    requires NoNul(t) && |t| <= |field| && field[..|t|] == t && (|t| < |field| ==> field[|t|] == 0)
    ensures NameOf(field) == t
  {
    var r := NameOf(field);
    assert forall i :: 0 <= i < |r| ==> r[i] == field[i];
    assert forall i :: 0 <= i < |t| ==> t[i] == field[i];
  }

  lemma FieldName(name: Str)
    requires NoNul(name)
    ensures NameOf(Field(name)) == Trunc(name)
  {
    NameIs(Field(name), Trunc(name));
  }

  /** namecmp, as strncmp does it: a name against a field; at the end of the name there is
      its NUL. */
  method NameCmp(name: Str, field: Str) returns (same: bool)
    requires NoNul(name) && |field| == DIRSIZ
    ensures same <==> Trunc(name) == NameOf(field)
  {
    var n := 0;
    while n < DIRSIZ && n < |name| && name[n] == field[n]
      invariant 0 <= n <= DIRSIZ && n <= |name| && name[..n] == field[..n]
    {
      n := n + 1;
    }
    same := n == DIRSIZ || (if n < |name| then name[n] else 0) == field[n];
    CmpStop(name, field, n);
  }

  lemma CmpStop(name: Str, field: Str, n: nat)
    requires NoNul(name) && |field| == DIRSIZ && n <= DIRSIZ && n <= |name| && name[..n] == field[..n]
    requires !(n < DIRSIZ && n < |name| && name[n] == field[n])
    ensures (n == DIRSIZ || (if n < |name| then name[n] else 0) == field[n]) <==> Trunc(name) == NameOf(field)
  {
    var r := NameOf(field);
    if n == DIRSIZ {
      assert Trunc(name) == name[..n] == field;
      NameIs(field, field);
    } else if n == |name| {
      assert Trunc(name) == name == field[..n];
      if field[n] == 0 {
        NameIs(field, name);
      } else {
        assert forall i :: 0 <= i < n ==> field[i] == name[i];
      }
    } else {
      assert |r| > n ==> r[n] == field[n];
      assert Trunc(name)[n] == name[n];
    }
  }

  // Entries.

  function Inum(c: seq<byte>, k: nat): (r: nat)
    requires (k + 1) * DIRENT <= |c|
  {
    c[k * DIRENT] as int + 256 * c[k * DIRENT + 1] as int
  }

  function EntryName(c: seq<byte>, k: nat): (r: Str)
    requires (k + 1) * DIRENT <= |c|
  {
    NameOf(c[k * DIRENT + 2..(k + 1) * DIRENT])
  }

  function Count(c: seq<byte>): (r: nat) {
    |c| / DIRENT
  }

  lemma InRange(c: seq<byte>, k: nat)
    requires k < Count(c)
    ensures (k + 1) * DIRENT <= |c|
  {
  }

  /** Entry k is in use, with this name and inode number. */
  predicate Names(c: seq<byte>, k: nat, name: Str, inum: nat) {
    (k + 1) * DIRENT <= |c| && Inum(c, k) == inum != 0 && EntryName(c, k) == name
  }

  /** Whole entries, and no name twice. */
  ghost predicate DirOk(c: seq<byte>) {
    |c| % DIRENT == 0 && forall j, k, name, x, y :: Names(c, j, name, x) && Names(c, k, name, y) ==> j == k
  }

  /** The first n entries as a finite map. */
  ghost function ViewUpTo(c: seq<byte>, n: nat): (m: map<Str, nat>)
    requires n <= Count(c)
  {
    if n == 0 then map[]
    else
      InRange(c, n - 1);
      var m := ViewUpTo(c, n - 1);
      if Inum(c, n - 1) == 0 then m else m[EntryName(c, n - 1) := Inum(c, n - 1)]
  }

  /** The directory as a finite map. */
  ghost function View(c: seq<byte>): (m: map<Str, nat>) {
    ViewUpTo(c, Count(c))
  }

  lemma {:induction false} ViewWitness(c: seq<byte>, n: nat, name: Str) returns (k: nat)
    requires n <= Count(c) && name in ViewUpTo(c, n)
    ensures k < n && Names(c, k, name, ViewUpTo(c, n)[name])
  {
    InRange(c, n - 1);
    if Inum(c, n - 1) != 0 && EntryName(c, n - 1) == name {
      k := n - 1;
    } else {
      k := ViewWitness(c, n - 1, name);
    }
  }

  lemma {:induction false} ViewOf(c: seq<byte>, n: nat, k: nat, name: Str, inum: nat)
    requires DirOk(c) && k < n <= Count(c) && Names(c, k, name, inum)
    ensures name in ViewUpTo(c, n) && ViewUpTo(c, n)[name] == inum
  {
    InRange(c, n - 1);
    if k < n - 1 {
      ViewOf(c, n - 1, k, name, inum);
      assert Inum(c, n - 1) != 0 && EntryName(c, n - 1) == name ==> Names(c, n - 1, name, Inum(c, n - 1));
    }
  }

  /** The map has a name exactly when an entry does. */
  lemma ViewExact(c: seq<byte>, name: Str, inum: nat)
    requires DirOk(c)
    ensures name in View(c) && View(c)[name] == inum <==> exists k: nat :: Names(c, k, name, inum)
  {
    if name in View(c) {
      var k := ViewWitness(c, Count(c), name);
    }
    forall k: nat, x: nat | Names(c, k, name, x)
      ensures name in View(c) && View(c)[name] == x
    {
      ViewOf(c, Count(c), k, name, x);
    }
  }

  /** The bytes of an entry. */
  function Dirent(name: Str, inum: nat): (r: seq<byte>)
    requires inum < 65536
    ensures |r| == DIRENT
  {
    [inum % 256, inum / 256] + Field(name)
  }

  // Writing an entry.

  lemma EntryBytes(c: seq<byte>, c': seq<byte>, k: nat)
    requires (k + 1) * DIRENT <= |c| && (k + 1) * DIRENT <= |c'|
    requires c[k * DIRENT..(k + 1) * DIRENT] == c'[k * DIRENT..(k + 1) * DIRENT]
    ensures Inum(c, k) == Inum(c', k) && EntryName(c, k) == EntryName(c', k)
  {
    var e, e' := c[k * DIRENT..(k + 1) * DIRENT], c'[k * DIRENT..(k + 1) * DIRENT];
    assert c[k * DIRENT] == e[0] && c[k * DIRENT + 1] == e[1] && c'[k * DIRENT] == e'[0] && c'[k * DIRENT + 1] == e'[1];
    assert c[k * DIRENT + 2..(k + 1) * DIRENT] == e[2..] && c'[k * DIRENT + 2..(k + 1) * DIRENT] == e'[2..];
  }

  lemma NewEntry(c: seq<byte>, k: nat, name: Str, inum: nat)
    requires (k + 1) * DIRENT <= |c| && inum < 65536 && NoNul(name)
    requires c[k * DIRENT..(k + 1) * DIRENT] == Dirent(name, inum)
    ensures Inum(c, k) == inum && EntryName(c, k) == Trunc(name)
  {
    var e := c[k * DIRENT..(k + 1) * DIRENT];
    assert c[k * DIRENT] == e[0] && c[k * DIRENT + 1] == e[1];
    assert c[k * DIRENT + 2..(k + 1) * DIRENT] == e[2..] == Field(name);
    FieldName(name);
  }

  /** Entry k is written: the others stay. */
  lemma PutEntry(c: seq<byte>, k: nat, e: seq<byte>)
    requires |c| % DIRENT == 0 && k <= Count(c) && |e| == DIRENT
    ensures k * DIRENT <= |c|
    ensures var c' := Overwritten(c, k * DIRENT, e);
            && |c'| == (if k == Count(c) then |c| + DIRENT else |c|) && |c'| % DIRENT == 0
            && (k + 1) * DIRENT <= |c'| && c'[k * DIRENT..(k + 1) * DIRENT] == e
            && forall j: nat :: j != k && (j + 1) * DIRENT <= |c'| ==>
               (j + 1) * DIRENT <= |c| && Inum(c', j) == Inum(c, j) && EntryName(c', j) == EntryName(c, j)
  {
    var c' := Overwritten(c, k * DIRENT, e);
    forall j: nat | j != k && (j + 1) * DIRENT <= |c'|
      ensures (j + 1) * DIRENT <= |c| && Inum(c', j) == Inum(c, j) && EntryName(c', j) == EntryName(c, j)
    {
      if j < k {
        assert c'[j * DIRENT..(j + 1) * DIRENT] == c[j * DIRENT..(j + 1) * DIRENT];
      } else {
        assert c'[j * DIRENT..(j + 1) * DIRENT] == c[j * DIRENT..(j + 1) * DIRENT];
      }
      EntryBytes(c, c', j);
    }
  }

  /** A free slot, or the one behind the last. */
  predicate FreeSlot(c: seq<byte>, k: nat) {
    k == Count(c) || (k < Count(c) && (k + 1) * DIRENT <= |c| && Inum(c, k) == 0)
  }

  /** The first n entries are in use. */
  predicate UsedTo(c: seq<byte>, n: nat) {
    n <= Count(c) && forall k :: 0 <= k < n ==> (k + 1) * DIRENT <= |c| && Inum(c, k) != 0
  }

  /** Linking a name that is not there: the map has one entry more. */
  lemma LinkedNames(c: seq<byte>, k: nat, name: Str, inum: nat, j: nat, n: Str, x: nat)
    requires |c| % DIRENT == 0 && FreeSlot(c, k) && 0 < inum < 65536 && NoNul(name)
    ensures k * DIRENT <= |c|
    ensures Names(Overwritten(c, k * DIRENT, Dirent(name, inum)), j, n, x) <==>
            if j == k then n == Trunc(name) && x == inum else Names(c, j, n, x)
  {
    PutEntry(c, k, Dirent(name, inum));
    var c' := Overwritten(c, k * DIRENT, Dirent(name, inum));
    NewEntry(c', k, name, inum);
  }

  lemma LinkedOk(c: seq<byte>, k: nat, name: Str, inum: nat)
    requires DirOk(c) && FreeSlot(c, k) && 0 < inum < 65536 && NoNul(name) && Trunc(name) !in View(c)
    ensures k * DIRENT <= |c| && DirOk(Overwritten(c, k * DIRENT, Dirent(name, inum)))
  {
    PutEntry(c, k, Dirent(name, inum));
    var c' := Overwritten(c, k * DIRENT, Dirent(name, inum));
    forall i, j, n, x, y | Names(c', i, n, x) && Names(c', j, n, y)
      ensures i == j
    {
      hide DirOk, Overwritten, Dirent, Names;
      LinkedNames(c, k, name, inum, i, n, x);
      LinkedNames(c, k, name, inum, j, n, y);
      if i != k && j != k {
        OneEntry(c, i, j, n, x, y);
      }
      if i != k {
        NotNamed(c, i, n, x, name);
      }
      if j != k {
        NotNamed(c, j, n, y, name);
      }
    }
  }

  lemma OneEntry(c: seq<byte>, i: nat, j: nat, n: Str, x: nat, y: nat)
    requires DirOk(c) && Names(c, i, n, x) && Names(c, j, n, y)
    ensures i == j
  {
  }

  lemma NotNamed(c: seq<byte>, i: nat, n: Str, x: nat, name: Str)
    requires DirOk(c) && Names(c, i, n, x) && Trunc(name) !in View(c)
    ensures n != Trunc(name)
  {
    ViewExact(c, n, x);
  }

  lemma LinkedView(c: seq<byte>, k: nat, name: Str, inum: nat)
    requires DirOk(c) && FreeSlot(c, k) && 0 < inum < 65536 && NoNul(name) && Trunc(name) !in View(c)
    ensures k * DIRENT <= |c| && DirOk(Overwritten(c, k * DIRENT, Dirent(name, inum)))
    ensures View(Overwritten(c, k * DIRENT, Dirent(name, inum))) == View(c)[Trunc(name) := inum]
  {
    LinkedOk(c, k, name, inum);
    var c' := Overwritten(c, k * DIRENT, Dirent(name, inum));
    hide DirOk, Overwritten, Dirent;
    var m, m' := View(c)[Trunc(name) := inum], View(c');
    forall n: Str, x: nat
      ensures MapsTo(m', n, x) <==> MapsTo(m, n, x)
    {
      LinkedHas(c, k, name, inum, n, x);
    }
    SameMaps(m, m');
  }

  predicate MapsTo(m: map<Str, nat>, n: Str, x: nat) {
    n in m && m[n] == x
  }

  lemma SameMaps(m: map<Str, nat>, m': map<Str, nat>)
    requires forall n: Str, x: nat :: MapsTo(m', n, x) <==> MapsTo(m, n, x)
    ensures m' == m
  {
    forall n: Str
      ensures (n in m' <==> n in m) && (n in m ==> m'[n] == m[n])
    {
      assert n in m ==> MapsTo(m, n, m[n]);
      assert n in m' ==> MapsTo(m', n, m'[n]);
    }
  }

  lemma LinkedHas(c: seq<byte>, k: nat, name: Str, inum: nat, n: Str, x: nat)
    requires DirOk(c) && FreeSlot(c, k) && 0 < inum < 65536 && NoNul(name) && Trunc(name) !in View(c)
    requires k * DIRENT <= |c| && DirOk(Overwritten(c, k * DIRENT, Dirent(name, inum)))
    ensures var m, m' := View(c)[Trunc(name) := inum], View(Overwritten(c, k * DIRENT, Dirent(name, inum)));
            n in m' && m'[n] == x <==> n in m && m[n] == x
  {
    var c' := Overwritten(c, k * DIRENT, Dirent(name, inum));
    ViewExact(c, n, x);
    ViewExact(c', n, x);
    hide DirOk, Overwritten, Dirent, Names, View;
    if j: nat :| Names(c', j, n, x) {
      LinkedNames(c, k, name, inum, j, n, x);
      if j != k {
        NotNamed(c, j, n, x, name);
      }
    }
    if j: nat :| Names(c, j, n, x) {
      LinkedNames(c, k, name, inum, j, n, x);
      NotNamed(c, j, n, x, name);
      SlotFree(c, k, j, n, x);
    }
    LinkedNames(c, k, name, inum, k, n, x);
  }

  lemma SlotFree(c: seq<byte>, k: nat, j: nat, n: Str, x: nat)
    requires FreeSlot(c, k) && Names(c, j, n, x) && |c| % DIRENT == 0
    ensures j != k
  {
  }

  // The code.

  ghost predicate DirFile(fs: Fs, i: nat)
    reads fs
  {
    Owned(fs.g, fs.d) && FileOk(fs.d, i) && i in fs.d.inodes && DirOk(Contents(fs.d, i))
  }

  /** The entry at offset off, as readi delivers it. */
  method ReadEntry(fs: Fs, i: nat, off: nat) returns (inum: nat, field: Str)
    requires DirFile(fs, i) && off % DIRENT == 0 && off < fs.d.inodes[i].size
    modifies fs`d
    ensures fs.d == old(fs.d) && |field| == DIRSIZ
    ensures off / DIRENT < Count(Contents(fs.d, i)) && (off / DIRENT + 1) * DIRENT <= |Contents(fs.d, i)|
    ensures inum == Inum(Contents(fs.d, i), off / DIRENT) && NameOf(field) == EntryName(Contents(fs.d, i), off / DIRENT)
  {
    hide Owned, FileOk, Contents, Inum, EntryName;
    HasShape(fs.d, i);
    ghost var c := Contents(fs.d, i);
    ContentsLength(fs.d, i);
    var ok, de := Readi(fs, i, off, DIRENT, DIRENT);
    ghost var k := off / DIRENT;
    assert off == k * DIRENT && (k + 1) * DIRENT <= |c|;
    assert de == c[k * DIRENT..(k + 1) * DIRENT];
    EntryIn(c, k, de);
    inum := de[0] as int + 256 * de[1] as int;
    field := de[2..];
  }

  lemma EntryIn(c: seq<byte>, k: nat, de: seq<byte>)
    requires (k + 1) * DIRENT <= |c| && de == c[k * DIRENT..(k + 1) * DIRENT]
    ensures |de| == DIRENT && Inum(c, k) == de[0] as int + 256 * de[1] as int && EntryName(c, k) == NameOf(de[2..])
  {
    assert c[k * DIRENT + 2..(k + 1) * DIRENT] == de[2..];
  }

  lemma ContentsLength(d: Disk, i: nat)
    requires i in d.inodes
    ensures |Contents(d, i)| == d.inodes[i].size
  {
  }

  /** dirlookup: the inode number the map has for the name, or 0; off is where its entry is. */
  method DirLookup(fs: Fs, i: nat, name: Str) returns (inum: nat, off: nat)
    requires DirFile(fs, i) && NoNul(name)
    modifies fs`d
    ensures fs.d == old(fs.d)
    ensures inum == 0 <==> Trunc(name) !in View(Contents(fs.d, i))
    ensures inum != 0 ==> View(Contents(fs.d, i))[Trunc(name)] == inum
    ensures inum != 0 ==> off % DIRENT == 0 && Names(Contents(fs.d, i), off / DIRENT, Trunc(name), inum)
  {
    hide Owned, FileOk, Contents, View, Inum, EntryName;
    ghost var c := Contents(fs.d, i);
    HasShape(fs.d, i);
    ContentsLength(fs.d, i);
    off := 0;
    while off < fs.d.inodes[i].size
      invariant fs.d == old(fs.d) && off % DIRENT == 0 && off <= |c|
      invariant forall k: nat, x: nat :: k < off / DIRENT ==> !Names(c, k, Trunc(name), x)
    {
      var field;
      inum, field := ReadEntry(fs, i, off);
      if inum != 0 {
        var same := NameCmp(name, field);
        if same {
          ViewExact(c, Trunc(name), inum);
          assert Names(c, off / DIRENT, Trunc(name), inum);
          return;
        }
      }
      off := off + DIRENT;
    }
    inum := 0;
    NotThere(c, Trunc(name));
  }

  lemma NotThere(c: seq<byte>, name: Str)
    requires DirOk(c) && forall k: nat, x: nat :: k < Count(c) ==> !Names(c, k, name, x)
    ensures name !in View(c)
  {
    if name in View(c) {
      var k := ViewWitness(c, Count(c), name);
    }
  }

  /** The loop of dirlink that looks for an empty entry. */
  method FindSlot(fs: Fs, i: nat) returns (off: nat)
    requires DirFile(fs, i)
    modifies fs`d
    ensures fs.d == old(fs.d) && off % DIRENT == 0 && off <= fs.d.inodes[i].size
    ensures FreeSlot(Contents(fs.d, i), off / DIRENT) && UsedTo(Contents(fs.d, i), off / DIRENT)
  {
    hide Owned, FileOk, Contents, Inum, EntryName;
    HasShape(fs.d, i);
    ContentsLength(fs.d, i);
    off := 0;
    while off < fs.d.inodes[i].size
      invariant fs.d == old(fs.d) && off % DIRENT == 0 && off <= fs.d.inodes[i].size
      invariant UsedTo(Contents(fs.d, i), off / DIRENT)
    {
      var inum, _ := ReadEntry(fs, i, off);
      if inum == 0 {
        return;
      }
      off := off + DIRENT;
    }
  }

  /** dirlink: the map gets the name, unless it has it or the disk is full; then nothing
      changes. */
  method DirLink(fs: Fs, i: nat, name: Str, inum: nat) returns (r: int)
    requires DirFile(fs, i) && NoNul(name) && 0 < inum < 65536
    modifies fs`d
    ensures DirFile(fs, i) && (r == 0 || r == -1)
    ensures r == 0 ==>
              Trunc(name) !in View(Contents(old(fs.d), i)) &&
              View(Contents(fs.d, i)) == View(Contents(old(fs.d), i))[Trunc(name) := inum]
    ensures r == -1 ==> Contents(fs.d, i) == Contents(old(fs.d), i)
    ensures r == -1 ==>
              var c := Contents(old(fs.d), i);
              Trunc(name) in View(c) ||
              (UsedTo(c, Count(c)) && |c| % BSIZE == 0 && (DiskFull(fs.d) || |c| + DIRENT > MAXFILE * BSIZE))
    ensures forall j :: j in old(fs.d).inodes && j != i && FileOk(old(fs.d), j) ==>
              j in fs.d.inodes && FileOk(fs.d, j) && Contents(fs.d, j) == Contents(old(fs.d), j)
    ensures Covered(fs.g, old(fs.d), fs.d, {})
  {
    hide Owned, FileOk, Contents, View, Inum, EntryName, Dirent, Overwritten, Covered;
    CoveredSelf(fs.g, fs.d, {});
    ghost var c := Contents(fs.d, i);
    HasShape(fs.d, i);
    ContentsLength(fs.d, i);
    var ino, _ := DirLookup(fs, i, name);
    if ino != 0 {
      return -1;
    }
    var off := FindSlot(fs, i);
    ghost var k := off / DIRENT;
    LinkedView(c, k, name, inum);
    var de := Dirent(name, inum);
    var tot, _ := Writei(fs, i, de, off, DIRENT);
    if tot != DIRENT {
      r := -1;
      OneChunk(c, off, de, tot);
      assert tot == 0 || tot == -1;
      NoSlot(old(fs.d), i, off);
      return;
    }
    assert de[..DIRENT] == de && off == k * DIRENT;
    r := 0;
  }

  lemma NoSlot(d: Disk, i: nat, off: nat)
    requires FileOk(d, i) && i in d.inodes && off <= d.inodes[i].size && off % DIRENT == 0
    requires d.inodes[i].size % DIRENT == 0
    ensures At(d, Ref(i, off / BSIZE)) == 0 ==> off == d.inodes[i].size && off % BSIZE == 0
    ensures off + DIRENT > MAXFILE * BSIZE ==> off == d.inodes[i].size == MAXFILE * BSIZE
  {
    hide At, Filled;
    StopsOutside(d, d, i, off, 0);
    if At(d, Ref(i, off / BSIZE)) == 0 && off % BSIZE != 0 {
      StopsOutside(d, d, i, off / BSIZE * BSIZE, 0);
    }
  }

  lemma OneChunk(c: seq<byte>, off: nat, de: seq<byte>, tot: int)
    requires off <= |c| && |de| == DIRENT
    ensures Overwritten(c, off, de[..0]) == c
  {
  }

  // Taking an entry out.

  function NoEntry(): (r: seq<byte>)
    ensures |r| == DIRENT
  {
    seq(DIRENT, _ => 0)
  }

  lemma ClearedNames(c: seq<byte>, k: nat, j: nat, n: Str, x: nat)
    requires |c| % DIRENT == 0 && k < Count(c)
    ensures k * DIRENT <= |c|
    ensures Names(Overwritten(c, k * DIRENT, NoEntry()), j, n, x) <==> j != k && Names(c, j, n, x)
  {
    PutEntry(c, k, NoEntry());
    var c' := Overwritten(c, k * DIRENT, NoEntry());
    var e := c'[k * DIRENT..(k + 1) * DIRENT];
    assert c'[k * DIRENT] == e[0] && c'[k * DIRENT + 1] == e[1];
  }

  lemma ClearedView(c: seq<byte>, k: nat, name: Str, inum: nat)
    requires DirOk(c) && Names(c, k, name, inum)
    ensures k * DIRENT <= |c| && DirOk(Overwritten(c, k * DIRENT, NoEntry()))
    ensures View(Overwritten(c, k * DIRENT, NoEntry())) == View(c) - {name}
  {
    PutEntry(c, k, NoEntry());
    var c' := Overwritten(c, k * DIRENT, NoEntry());
    forall i, j, n, x, y | Names(c', i, n, x) && Names(c', j, n, y)
      ensures i == j
    {
      ClearedNames(c, k, i, n, x);
      ClearedNames(c, k, j, n, y);
    }
    assert DirOk(c');
    hide DirOk, Overwritten, Names;
    forall n: Str, x: nat
      ensures MapsTo(View(c'), n, x) <==> MapsTo(View(c) - {name}, n, x)
    {
      ClearedHas(c, k, name, inum, n, x);
    }
    SameMaps(View(c) - {name}, View(c'));
  }

  lemma ClearedHas(c: seq<byte>, k: nat, name: Str, inum: nat, n: Str, x: nat)
    requires DirOk(c) && Names(c, k, name, inum) && k * DIRENT <= |c| && DirOk(Overwritten(c, k * DIRENT, NoEntry()))
    ensures MapsTo(View(Overwritten(c, k * DIRENT, NoEntry())), n, x) <==> MapsTo(View(c) - {name}, n, x)
  {
    var c' := Overwritten(c, k * DIRENT, NoEntry());
    ViewExact(c, n, x);
    ViewExact(c', n, x);
    hide Overwritten, View;
    if j: nat :| Names(c', j, n, x) {
      ClearedNames(c, k, j, n, x);
      assert n != name;
    }
    if j: nat :| Names(c, j, n, x) {
      ClearedNames(c, k, j, n, x);
    }
  }

  /** The writei of sys_unlink that clears the entry at off: the map loses the name, and
      "unlink: writei" cannot happen, as the block is there. */
  method ClearEntry(fs: Fs, i: nat, off: nat, ghost name: Str, ghost inum: nat) returns (ok: bool)
    requires DirFile(fs, i) && off % DIRENT == 0 && Names(Contents(fs.d, i), off / DIRENT, name, inum)
    modifies fs`d
    ensures ok && DirFile(fs, i) && View(Contents(fs.d, i)) == View(Contents(old(fs.d), i)) - {name}
    ensures forall j :: j in old(fs.d).inodes && j != i && FileOk(old(fs.d), j) ==>
              j in fs.d.inodes && FileOk(fs.d, j) && Contents(fs.d, j) == Contents(old(fs.d), j)
    ensures Covered(fs.g, old(fs.d), fs.d, {})
  {
    hide Owned, FileOk, Contents, View, Inum, EntryName, Overwritten, At, Covered;
    ghost var c := Contents(fs.d, i);
    HasShape(fs.d, i);
    ContentsLength(fs.d, i);
    ghost var k := off / DIRENT;
    ClearedView(c, k, name, inum);
    assert off == k * DIRENT && off + DIRENT <= |c|;
    BelowSize(fs.d, i, off);
    var zeros := NoEntry();
    var tot, _ := Writei(fs, i, zeros, off, DIRENT);
    SameEntryBlock(off, tot);
    assert zeros[..DIRENT] == zeros;
    ok := tot == DIRENT;
  }

  lemma SameEntryBlock(off: nat, r: int)
    requires off % DIRENT == 0 && (r == -1 || r == DIRENT || r == 0 || (off + r) % BSIZE == 0) && -1 <= r <= DIRENT
    ensures r == -1 || r == 0 || r == DIRENT
  {
  }
}
