/** copyout and copyin of kernel/vm.c: moving whole chunks of pages is the same as moving
    one byte after the other through the flat map. */
module UserCopy {
  import opened Common
  import opened PageTable
  import opened Vm

  predicate IsBytes(mem: Memory, p: nat) {
    p in mem && mem[p].Bytes? && |mem[p].bytes| == PGSIZE
  }

  /** The user pages are in memory, and hold bytes. */
  ghost predicate UserFrames(mem: Memory, leaf: map<nat, nat>) {
    forall v :: v in leaf && UserPage(leaf[v]) ==> IsBytes(mem, PageOf(leaf[v]))
  }

  /** The page of address a can be read, or written, by the user. */
  predicate Readable(leaf: map<nat, nat>, a: nat) {
    var v := a / PGSIZE;
    v < MAXPAGE && v in leaf && Valid(leaf[v]) && UserPage(leaf[v])
  }

  predicate Storable(leaf: map<nat, nat>, a: nat) {
    Readable(leaf, a) && Writable(leaf[a / PGSIZE])
  }

  predicate AllReadable(leaf: map<nat, nat>, a: nat, n: nat) {
    forall i :: a <= i < a + n ==> Readable(leaf, i)
  }

  predicate AllStorable(leaf: map<nat, nat>, a: nat, n: nat) {
    forall i :: a <= i < a + n ==> Storable(leaf, i)
  }

  function Frame(leaf: map<nat, nat>, a: nat): (r: nat)
    requires Readable(leaf, a)
  {
    PageOf(leaf[a / PGSIZE])
  }

  // One byte at a time.

  function Poke(mem: Memory, p: nat, i: nat, b: byte): (r: Memory)
    requires IsBytes(mem, p) && i < PGSIZE
  {
    mem[p := Bytes(mem[p].bytes[i := b])]
  }

  ghost function WriteBytes(mem: Memory, leaf: map<nat, nat>, a: nat, src: seq<byte>): (r: Memory)
    requires UserFrames(mem, leaf) && AllReadable(leaf, a, |src|)
    ensures UserFrames(r, leaf) && r.Keys == mem.Keys
    decreases |src|
  {
    if src == [] then mem
    else WriteBytes(Poke(mem, Frame(leaf, a), a % PGSIZE, src[0]), leaf, a + 1, src[1..])
  }

  ghost function ReadBytes(mem: Memory, leaf: map<nat, nat>, a: nat, n: nat): (r: seq<byte>)
    requires UserFrames(mem, leaf) && AllReadable(leaf, a, n)
    ensures |r| == n
    ensures forall i :: 0 <= i < n ==> r[i] == mem[Frame(leaf, a + i)].bytes[(a + i) % PGSIZE]
  {
    seq(n, i requires 0 <= i < n => mem[Frame(leaf, a + i)].bytes[(a + i) % PGSIZE])
  }

  lemma {:induction false} WriteAppend(mem: Memory, leaf: map<nat, nat>, a: nat, s: seq<byte>, t: seq<byte>)
    requires UserFrames(mem, leaf) && AllReadable(leaf, a, |s| + |t|)
    ensures WriteBytes(mem, leaf, a, s + t) == WriteBytes(WriteBytes(mem, leaf, a, s), leaf, a + |s|, t)
    decreases |s|
  {
    if s == [] {
      assert s + t == t;
    } else {
      assert (s + t)[1..] == s[1..] + t;
      WriteAppend(Poke(mem, Frame(leaf, a), a % PGSIZE, s[0]), leaf, a + 1, s[1..], t);
    }
  }

  /** memmove of s into a page. */
  function Chunk(mem: Memory, p: nat, i: nat, s: seq<byte>): (r: Memory)
    requires IsBytes(mem, p) && i + |s| <= PGSIZE
  {
    mem[p := Bytes(mem[p].bytes[..i] + s + mem[p].bytes[i + |s|..])]
  }

  lemma {:induction false} ChunkWrites(mem: Memory, leaf: map<nat, nat>, a: nat, s: seq<byte>)
    requires UserFrames(mem, leaf) && a % PGSIZE + |s| <= PGSIZE && s != [] && Readable(leaf, a)
    ensures AllReadable(leaf, a, |s|)
    ensures WriteBytes(mem, leaf, a, s) == Chunk(mem, Frame(leaf, a), a % PGSIZE, s)
    decreases |s|
  {
    var p, i := Frame(leaf, a), a % PGSIZE;
    SamePage(leaf, a, |s|);
    var mem' := Poke(mem, p, i, s[0]);
    var bytes := mem[p].bytes;
    if |s| == 1 {
      assert bytes[i := s[0]] == bytes[..i] + s + bytes[i + 1..];
      assert WriteBytes(mem', leaf, a + 1, s[1..]) == mem';
    } else {
      assert (a + 1) % PGSIZE == i + 1 && (a + 1) / PGSIZE == a / PGSIZE;
      ChunkWrites(mem', leaf, a + 1, s[1..]);
      assert bytes[i := s[0]][..i + 1] + s[1..] + bytes[i := s[0]][i + |s|..] == bytes[..i] + s + bytes[i + |s|..];
    }
  }

  lemma SamePage(leaf: map<nat, nat>, a: nat, n: nat)
    requires a % PGSIZE + n <= PGSIZE
    ensures forall i :: a <= i < a + n ==> i / PGSIZE == a / PGSIZE && i % PGSIZE == a % PGSIZE + (i - a)
    ensures forall i :: a <= i < a + n ==>
              (Readable(leaf, i) <==> Readable(leaf, a)) && (Storable(leaf, i) <==> Storable(leaf, a))
  {
    forall i | a <= i < a + n
      ensures i / PGSIZE == a / PGSIZE && i % PGSIZE == a % PGSIZE + (i - a)
    {
      assert i == (a / PGSIZE) * PGSIZE + (a % PGSIZE + (i - a));
    }
  }

  // Round trip.

  /** Where address a lies in physical memory. */
  function Cell(leaf: map<nat, nat>, a: nat): (r: (nat, nat))
    requires Readable(leaf, a)
  {
    (Frame(leaf, a), a % PGSIZE)
  }

  function Peek(mem: Memory, leaf: map<nat, nat>, a: nat): (r: byte)
    requires Readable(leaf, a) && IsBytes(mem, Frame(leaf, a))
  {
    mem[Frame(leaf, a)].bytes[a % PGSIZE]
  }

  /** No two addresses of the stretch are the same physical byte. */
  ghost predicate Unaliased(leaf: map<nat, nat>, a: nat, n: nat)
    requires AllReadable(leaf, a, n)
  {
    forall i, j :: a <= i < j < a + n ==> Cell(leaf, i) != Cell(leaf, j)
  }

  /** A write reaches the bytes of its stretch and no others. */
  lemma {:induction false} WrittenAt(mem: Memory, leaf: map<nat, nat>, a: nat, src: seq<byte>, b: nat)
    requires UserFrames(mem, leaf) && AllReadable(leaf, a, |src|) && Readable(leaf, b)
    requires forall i :: a <= i < a + |src| && Cell(leaf, i) == Cell(leaf, b) ==> i == b
    ensures Peek(WriteBytes(mem, leaf, a, src), leaf, b) == if a <= b < a + |src| then src[b - a]
            else Peek(mem, leaf, b)
    decreases |src|
  {
    if src != [] {
      assert Cell(leaf, a) == Cell(leaf, b) ==> a == b;
      WrittenAt(Poke(mem, Frame(leaf, a), a % PGSIZE, src[0]), leaf, a + 1, src[1..], b);
    }
  }

  /** A byte written to more than once, always with the same value. */
  lemma {:induction false} WrittenOver(mem: Memory, leaf: map<nat, nat>, a: nat, src: seq<byte>, b: nat, x: byte)
    requires UserFrames(mem, leaf) && AllReadable(leaf, a, |src|) && Readable(leaf, b)
    requires forall k :: 0 <= k < |src| ==> src[k] == x
    requires Peek(mem, leaf, b) == x || exists i :: a <= i < a + |src| && Cell(leaf, i) == Cell(leaf, b)
    ensures Peek(WriteBytes(mem, leaf, a, src), leaf, b) == x
    decreases |src|
  {
    if src != [] {
      var mem' := Poke(mem, Frame(leaf, a), a % PGSIZE, src[0]);
      assert Cell(leaf, a) == Cell(leaf, b) ==> Peek(mem', leaf, b) == x;
      WrittenOver(mem', leaf, a + 1, src[1..], b, x);
    }
  }

  /** What copyout stored, copyin returns: for every content, exactly when no two addresses
      of the stretch are the same physical byte. */
  lemma RoundTrip(mem: Memory, leaf: map<nat, nat>, a: nat, src: seq<byte>)
    requires UserFrames(mem, leaf) && AllReadable(leaf, a, |src|) && Unaliased(leaf, a, |src|)
    ensures ReadBytes(WriteBytes(mem, leaf, a, src), leaf, a, |src|) == src
  {
    forall i | 0 <= i < |src|
      ensures ReadBytes(WriteBytes(mem, leaf, a, src), leaf, a, |src|)[i] == src[i]
    {
      WrittenAt(mem, leaf, a, src, a + i);
    }
  }

  lemma AliasBreaks(mem: Memory, leaf: map<nat, nat>, a: nat, n: nat, i: nat, j: nat)
    requires UserFrames(mem, leaf) && AllReadable(leaf, a, n)
    requires a <= i < j < a + n && Cell(leaf, i) == Cell(leaf, j)
    ensures var src: seq<byte> := seq(n, k => if k == i - a then 1 else 0);
            ReadBytes(WriteBytes(mem, leaf, a, src), leaf, a, n)[i - a] != src[i - a]
  {
    var src: seq<byte> := seq(n, k => if k == i - a then 1 else 0);
    var s, t := src[..i - a + 1], src[i - a + 1..];
    assert src == s + t;
    WriteAppend(mem, leaf, a, s, t);
    assert j in set k | a + |s| <= k < a + |s| + |t| && Cell(leaf, k) == Cell(leaf, i);
    WrittenOver(WriteBytes(mem, leaf, a, s), leaf, a + |s|, t, i, 0);
  }

  ghost predicate ReadsBack(mem: Memory, leaf: map<nat, nat>, a: nat, src: seq<byte>)
    requires UserFrames(mem, leaf) && AllReadable(leaf, a, |src|)
  {
    ReadBytes(WriteBytes(mem, leaf, a, src), leaf, a, |src|) == src
  }

  lemma RoundTripExactly(mem: Memory, leaf: map<nat, nat>, a: nat, n: nat)
    requires UserFrames(mem, leaf) && AllReadable(leaf, a, n)
    ensures Unaliased(leaf, a, n) <==> forall src: seq<byte> :: |src| == n ==> ReadsBack(mem, leaf, a, src)
  {
    hide WriteBytes, ReadBytes, UserFrames, Readable;
    if Unaliased(leaf, a, n) {
      forall src: seq<byte> | |src| == n
        ensures ReadsBack(mem, leaf, a, src)
      {
        RoundTrip(mem, leaf, a, src);
      }
    } else {
      var i, j :| a <= i < j < a + n && Cell(leaf, i) == Cell(leaf, j);
      AliasBreaks(mem, leaf, a, n, i, j);
      var src: seq<byte> := seq(n, k => if k == i - a then 1 else 0);
      assert !ReadsBack(mem, leaf, a, src);
    }
  }

  // The code.

  ghost predicate UserSpace(vm: Vm, used: set<nat>, sp: Space)
    reads vm
  {
    SpaceOk(vm.mem, vm.free, used, sp) && UserFrames(vm.mem, sp.leaf)
  }

  /** copyout: all of src is stored when every address can be; otherwise it stops at the
      first page that cannot. */
  method CopyOut(vm: Vm, root: nat, dstva: nat, src: seq<byte>, ghost sp: Space, ghost used: set<nat>)
    returns (ok: bool, ghost done: nat)
    requires UserSpace(vm, used, sp) && root == sp.dirs[ROOT]
    modifies vm
    ensures UserSpace(vm, used, sp) && vm.free == old(vm.free)
    ensures done <= |src| && AllStorable(sp.leaf, dstva, done) && AllReadable(sp.leaf, dstva, done)
    ensures if ok then done == |src| else done < |src| && !Storable(sp.leaf, dstva + done)
    ensures vm.mem == WriteBytes(old(vm.mem), sp.leaf, dstva, src[..done])
  {
    hide SpaceOk, UserFrames, WriteBytes, Storable, Readable;
    var i := 0;
    done := 0;
    WriteNone(vm.mem, sp.leaf, dstva);
    while i < |src|
      invariant done == i <= |src| && UserSpace(vm, used, sp) && vm.free == old(vm.free)
      invariant AllStorable(sp.leaf, dstva, done) && AllReadable(sp.leaf, dstva, done)
      invariant vm.mem == WriteBytes(old(vm.mem), sp.leaf, dstva, src[..done])
    {
      var n := CopyChunkOut(vm, root, dstva + i, src[i..], sp, used);
      if n == 0 {
        return false, done;
      }
      WriteAppend(old(vm.mem), sp.leaf, dstva, src[..i], src[i..][..n]);
      assert src[..i] + src[i..][..n] == src[..i + n];
      i := i + n;
      done := i;
    }
    ok := true;
  }

  lemma WriteNone(mem: Memory, leaf: map<nat, nat>, a: nat)
    requires UserFrames(mem, leaf)
    ensures WriteBytes(mem, leaf, a, []) == mem
  {
  }

  /** The entry of v, when there is a table for it. */
  method PteOf(vm: Vm, root: nat, v: nat, ghost sp: Space, ghost used: set<nat>) returns (pte: nat)
    requires SpaceOk(vm.mem, vm.free, used, sp) && root == sp.dirs[ROOT]
    modifies vm
    ensures vm.mem == old(vm.mem) && vm.free == old(vm.free)
    ensures pte == if v < MAXPAGE then LeafEntry(sp.leaf, v) else 0
  {
    hide Tree;
    pte := 0;
    if v < MAXPAGE {
      var found, pt, _, _ := vm.Walk(root, v, false, sp, used);
      if found {
        ReadLeaf(vm.mem, sp, v);
        pte := vm.mem[pt].ptes[v % ENTRIES];
      } else {
        NoLeaf(vm.mem, sp, v);
      }
    }
  }

  lemma NoLeaf(mem: Memory, sp: Space, v: nat)
    requires Tree(mem, sp) && Dir(0, v / ENTRIES) !in sp.dirs
    ensures v !in sp.leaf
  {
    assert v in sp.leaf ==> HasTable(sp, v);
  }

  /** A chunk within a user page leaves the page tables alone. */
  lemma ChunkAside(mem: Memory, free: seq<nat>, used: set<nat>, sp: Space, p: nat, i: nat, s: seq<byte>)
    requires SpaceOk(mem, free, used, sp) && UserFrames(mem, sp.leaf) && IsBytes(mem, p) && i + |s| <= PGSIZE
    ensures SpaceOk(Chunk(mem, p, i, s), free, used, sp) && UserFrames(Chunk(mem, p, i, s), sp.leaf)
  {
    forall d | d in sp.dirs
      ensures sp.dirs[d] != p
    {
      assert TableOk(mem, sp, d);
    }
    TreeAside(mem, Chunk(mem, p, i, s), sp, p);
  }

  /** One turn of its loop: n bytes, up to the end of the page; 0 if the page is not there. */
  method CopyChunkOut(vm: Vm, root: nat, va: nat, src: seq<byte>, ghost sp: Space,
                      ghost used: set<nat>) returns (n: nat)
    requires UserSpace(vm, used, sp) && root == sp.dirs[ROOT] && src != []
    modifies vm
    ensures UserSpace(vm, used, sp) && vm.free == old(vm.free)
    ensures n <= |src| && (n == 0 <==> !Storable(sp.leaf, va)) && (n == 0 ==> vm.mem == old(vm.mem))
    ensures AllStorable(sp.leaf, va, n) && AllReadable(sp.leaf, va, n)
    ensures vm.mem == WriteBytes(old(vm.mem), sp.leaf, va, src[..n])
  {
    hide SpaceOk, WriteBytes;
    n := 0;
    WriteNone(vm.mem, sp.leaf, va);
    var pte := PteOf(vm, root, va / PGSIZE, sp, used);
    if !Valid(pte) || !UserPage(pte) || !Writable(pte) {
      return;
    }
    n := PGSIZE - va % PGSIZE;
    if n > |src| {
      n := |src|;
    }
    SamePage(sp.leaf, va, n);
    ChunkWrites(vm.mem, sp.leaf, va, src[..n]);
    ChunkAside(vm.mem, vm.free, used, sp, PageOf(pte), va % PGSIZE, src[..n]);
    vm.mem := Chunk(vm.mem, PageOf(pte), va % PGSIZE, src[..n]);
  }

  /** copyin: all n bytes when every address can be read. */
  method CopyIn(vm: Vm, root: nat, srcva: nat, len: nat, ghost sp: Space, ghost used: set<nat>)
    returns (ok: bool, out: seq<byte>)
    requires UserSpace(vm, used, sp) && root == sp.dirs[ROOT] && 0 !in vm.mem
    modifies vm
    ensures vm.mem == old(vm.mem) && vm.free == old(vm.free)
    ensures |out| <= len && AllReadable(sp.leaf, srcva, |out|) && out == ReadBytes(vm.mem, sp.leaf, srcva, |out|)
    ensures if ok then |out| == len else |out| < len && !Readable(sp.leaf, srcva + |out|)
  {
    hide SpaceOk;
    out := [];
    while |out| < len
      invariant vm.mem == old(vm.mem) && vm.free == old(vm.free)
      invariant |out| <= len && AllReadable(sp.leaf, srcva, |out|) && out == ReadBytes(vm.mem, sp.leaf, srcva, |out|)
      decreases len - |out|
    {
      var va := srcva + |out|;
      var pte := PteOf(vm, root, va / PGSIZE, sp, used);
      if !Valid(pte) || !UserPage(pte) || PageOf(pte) == 0 {
        return false, out;
      }
      var n := PGSIZE - va % PGSIZE;
      if n > len - |out| {
        n := len - |out|;
      }
      SamePage(sp.leaf, va, n);
      out := out + vm.mem[PageOf(pte)].bytes[va % PGSIZE..va % PGSIZE + n];
    }
    ok := true;
  }
}
