/** uvmalloc, uvmdealloc, uvmcopy and uvmfree of kernel/vm.c: the user part of an address
    space grows, shrinks, is copied and is torn down, and no page is lost or shared. */
module UserMemory {
  import opened Common
  import opened PageTable
  import opened Vm
  import opened PageFree
  import opened UserCopy

  const TRAMPOLINE := MAXPAGE - 1
  const TRAPFRAME := MAXPAGE - 2
  /** The pages between KERNBASE and PHYSTOP. */
  const NPAGES := 32768

  /** PGROUNDUP(sz) / PGSIZE. */
  function Pages(sz: nat): (r: nat) {
    (sz + PGSIZE - 1) / PGSIZE
  }

  lemma PagesGrow(a: nat, b: nat)
    requires a <= b
    ensures Pages(a) <= Pages(b)
  {
  }

  lemma PagesReach(a: nat, sz: nat)
    ensures a * PGSIZE < sz <==> a < Pages(sz)
  {
  }

  /** The pages that belong to the space: its tables and its first n user pages. */
  ghost function Own(sp: Space, n: nat): (r: set<nat>) {
    sp.dirs.Values + Frames(sp.leaf, 0, n)
  }

  /** The first n pages are mapped and the extra ones at the top, all as leaves. */
  ghost predicate Layout(leaf: map<nat, nat>, n: nat, extra: set<nat>) {
    && n <= TRAPFRAME
    && (forall v: nat :: v in leaf <==> v < n || v in extra)
    && (forall v :: v in extra ==> TRAPFRAME <= v < MAXPAGE)
    && (forall v :: v in leaf ==> Flags(leaf[v]) != 1)
    && (forall v :: v in extra && v in leaf ==> !UserPage(leaf[v]))
  }

  ghost predicate HoldBytes(mem: Memory, leaf: map<nat, nat>, n: nat) {
    forall v :: 0 <= v < n && v in leaf ==> IsBytes(mem, PageOf(leaf[v]))
  }

  /** A user address space of n pages from 0 on, with extra pages mapped at the top whose
      frames it does not own. */
  ghost predicate UserOk(mem: Memory, free: seq<nat>, used: set<nat>, sp: Space, n: nat, extra: set<nat>) {
    SpaceOk(mem, free, used, sp) && |mem| <= NPAGES && Layout(sp.leaf, n, extra) && OwnFrames(used, sp, 0, n) &&
    HoldBytes(mem, sp.leaf, n)
  }

  /** The pages in use change hands only between the free list and one owner, who has own
      before and own' after; what others have in use stays, with its contents. */
  ghost predicate Step(mem: Memory, free: seq<nat>, used: set<nat>, own: set<nat>,
                       mem': Memory, free': seq<nat>, used': set<nat>, own': set<nat>) {
    && mem'.Keys == mem.Keys && own <= used && own' <= used'
    && used' - own' == used - own
    && FreeSet(free') + used' == FreeSet(free) + used
    && (forall p :: p in used && p !in own && p in mem ==> mem'[p] == mem[p])
  }

  lemma StepTrans(m0: Memory, f0: seq<nat>, u0: set<nat>, o0: set<nat>, m1: Memory, f1: seq<nat>, u1: set<nat>,
                  o1: set<nat>,
                  m2: Memory, f2: seq<nat>, u2: set<nat>, o2: set<nat>)
    requires Step(m0, f0, u0, o0, m1, f1, u1, o1) && Step(m1, f1, u1, o1, m2, f2, u2, o2)
    ensures Step(m0, f0, u0, o0, m2, f2, u2, o2)
  {
    forall p | p in u0 && p !in o0 && p in m0
      ensures m2[p] == m0[p]
    {
      assert p in u0 - o0;
      assert p in u1 - o1;
    }
  }

  lemma StepSelf(mem: Memory, free: seq<nat>, used: set<nat>, own: set<nat>)
    requires own <= used
    ensures Step(mem, free, used, own, mem, free, used, own)
  {
  }

  /** n frames of one's own fit into memory: user space never reaches TRAPFRAME. */
  lemma {:induction false} FramesFit(used: set<nat>, sp: Space, n: nat)
    requires OwnFrames(used, sp, 0, n)
    ensures |Frames(sp.leaf, 0, n)| == n && Frames(sp.leaf, 0, n) <= used
  {
    if n == 0 {
      assert Frames(sp.leaf, 0, 0) == {};
    } else {
      FramesFit(used, sp, n - 1);
      assert Frames(sp.leaf, 0, n) == Frames(sp.leaf, 0, n - 1) + {PageOf(sp.leaf[n - 1])};
    }
  }

  lemma RoomToGrow(mem: Memory, free: seq<nat>, used: set<nat>, sp: Space, n: nat, extra: set<nat>)
    requires UserOk(mem, free, used, sp, n, extra)
    ensures n <= NPAGES < TRAPFRAME
  {
    FramesFit(used, sp, n);
    SubsetSize(Frames(sp.leaf, 0, n), mem.Keys);
  }

  // How many pages are free.

  lemma {:induction false} FreeCount(free: seq<nat>)
    requires forall i, j :: 0 <= i < j < |free| ==> free[i] != free[j]
    ensures |FreeSet(free)| == |free|
  {
    if free == [] {
      assert FreeSet(free) == {};
    } else {
      var n := |free| - 1;
      FreeCount(free[..n]);
      assert free == free[..n] + [free[n]];
      assert FreeSet(free) == FreeSet(free[..n]) + {free[n]};
    }
  }

  /** What the owner gains the free list loses. */
  lemma StepCounts(m0: Memory, f0: seq<nat>, u0: set<nat>, o0: set<nat>, m1: Memory, f1: seq<nat>, u1: set<nat>,
                   o1: set<nat>)
    requires Step(m0, f0, u0, o0, m1, f1, u1, o1) && Apart(m0, f0, u0) && Apart(m1, f1, u1)
    ensures |f1| + |o1| == |f0| + |o0|
  {
    FreeCount(f0);
    FreeCount(f1);
    assert FreeSet(f0) !! u0 && FreeSet(f1) !! u1;
    assert |FreeSet(f0) + u0| == |f0| + |u0| && |FreeSet(f1) + u1| == |f1| + |u1|;
    assert u0 == (u0 - o0) + o0 && u1 == (u1 - o1) + o1;
    assert |u0| == |u0 - o0| + |o0| && |u1| == |u1 - o1| + |o1|;
  }

  lemma {:induction false} TableCount(dirs: map<Dir, nat>)
    requires Injective(dirs)
    ensures |dirs.Values| == |dirs.Keys|
  {
    if dirs.Keys == {} {
      assert dirs.Values == {};
    } else {
      var d :| d in dirs.Keys;
      var rest := dirs - {d};
      TableCount(rest);
      assert dirs == rest[d := dirs[d]];
      ValuesWith(rest, d, dirs[d]);
      assert dirs.Keys == rest.Keys + {d} && dirs[d] !in rest.Values;
    }
  }

  /** A space owns its page tables and its n user pages. */
  lemma OwnSize(mem: Memory, free: seq<nat>, used: set<nat>, sp: Space, n: nat, extra: set<nat>)
    requires UserOk(mem, free, used, sp, n, extra)
    ensures |Own(sp, n)| == |sp.dirs.Keys| + n && Apart(mem, free, used)
  {
    OwnUsed(mem, free, used, sp, n, extra);
    FramesFit(used, sp, n);
    TableCount(sp.dirs);
  }

  /** A step of one owner, from n pages to n': the free list pays for pages and tables. */
  lemma SpaceCounts(m0: Memory, f0: seq<nat>, u0: set<nat>, sp0: Space, n0: nat, e0: set<nat>,
                    m1: Memory, f1: seq<nat>, u1: set<nat>, sp1: Space, n1: nat, e1: set<nat>)
    requires UserOk(m0, f0, u0, sp0, n0, e0) && UserOk(m1, f1, u1, sp1, n1, e1)
    requires Step(m0, f0, u0, Own(sp0, n0), m1, f1, u1, Own(sp1, n1))
    ensures |f1| + |sp1.dirs.Keys| + n1 == |f0| + |sp0.dirs.Keys| + n0
  {
    hide UserOk, Step, Own, Apart;
    OwnSize(m0, f0, u0, sp0, n0, e0);
    OwnSize(m1, f1, u1, sp1, n1, e1);
    StepCounts(m0, f0, u0, Own(sp0, n0), m1, f1, u1, Own(sp1, n1));
  }

  /** The pages that it takes to map the pages from k up to n, with these tables there. */
  ghost function Need(keys: set<Dir>, k: nat, n: nat): (r: nat) {
    if n <= k then 0 else n - k + |TablesOf(k, n) - keys|
  }

  lemma {:induction false} TablesSplit(k: nat, a: nat, n: nat)
    requires k <= a <= n
    ensures TablesOf(k, n) == TablesOf(k, a) + TablesOf(a, n)
  {
    hide TablesFor;
    if a < n {
      TablesSplit(k, a, n - 1);
    }
  }

  /** Mapping up to a and then page a: where this is too much, so is all up to n. */
  lemma NeedMore(keys: set<Dir>, k: nat, a: nat, n: nat, keys': set<Dir>)
    requires k <= a < n && keys' == keys + TablesOf(k, a)
    ensures Need(keys, k, n) >= a + 1 - k + |keys'| - |keys| + |TablesFor(a) - keys'|
  {
    hide TablesFor;
    TablesSplit(k, a + 1, n);
    var all := keys + TablesOf(k, n);
    MoreKeys(keys, TablesOf(k, n), all);
    MoreKeys(keys', TablesFor(a), keys' + TablesFor(a));
    assert TablesOf(k, a + 1) == TablesOf(k, a) + TablesFor(a);
    SubsetSize(keys' + TablesFor(a), all);
  }

  lemma NeedExact(keys: set<Dir>, k: nat, n: nat, keys': set<Dir>)
    requires k <= n && keys' == keys + TablesOf(k, n)
    ensures Need(keys, k, n) == n - k + |keys'| - |keys|
  {
    MoreKeys(keys, TablesOf(k, n), keys');
  }

  /** keys' are keys and the tables for the pages from k up to a. */
  ghost predicate Tabled(keys: set<Dir>, k: nat, a: nat, keys': set<Dir>) {
    keys' == keys + TablesOf(k, a)
  }

  lemma TabledMore(keys: set<Dir>, k: nat, a: nat, keys': set<Dir>)
    ensures Tabled(keys, k, k, keys)
    ensures k <= a && Tabled(keys, k, a, keys') ==> Tabled(keys, k, a + 1, keys' + TablesFor(a))
  {
    hide TablesFor;
  }

  /** If there are too few free pages for page a, there were too few for all up to n. */
  lemma TooFew(m0: Memory, f0: seq<nat>, u0: set<nat>, sp0: Space, k: nat, extra: set<nat>,
               m1: Memory, f1: seq<nat>, u1: set<nat>, sp1: Space, a: nat, n: nat)
    requires UserOk(m0, f0, u0, sp0, k, extra) && UserOk(m1, f1, u1, sp1, a, extra) && k <= a < n
    requires Step(m0, f0, u0, Own(sp0, k), m1, f1, u1, Own(sp1, a)) && Tabled(sp0.dirs.Keys, k, a, sp1.dirs.Keys)
    ensures |f1| < 1 + |TablesFor(a) - sp1.dirs.Keys| ==> |f0| < Need(sp0.dirs.Keys, k, n)
  {
    hide UserOk, Step, Own, TablesFor, TablesOf, Need;
    SpaceCounts(m0, f0, u0, sp0, k, extra, m1, f1, u1, sp1, a, extra);
    NeedMore(sp0.dirs.Keys, k, a, n, sp1.dirs.Keys);
  }

  lemma WereEnough(m0: Memory, f0: seq<nat>, u0: set<nat>, sp0: Space, k: nat, extra: set<nat>,
                   m1: Memory, f1: seq<nat>, u1: set<nat>, sp1: Space, n: nat)
    requires UserOk(m0, f0, u0, sp0, k, extra) && UserOk(m1, f1, u1, sp1, n, extra) && k <= n
    requires Step(m0, f0, u0, Own(sp0, k), m1, f1, u1, Own(sp1, n)) && Tabled(sp0.dirs.Keys, k, n, sp1.dirs.Keys)
    ensures |f0| >= Need(sp0.dirs.Keys, k, n)
  {
    hide UserOk, Step, Own, TablesFor, TablesOf, Need;
    SpaceCounts(m0, f0, u0, sp0, k, extra, m1, f1, u1, sp1, n, extra);
    NeedExact(sp0.dirs.Keys, k, n, sp1.dirs.Keys);
  }

  lemma MoreKeys(keys: set<Dir>, more: set<Dir>, keys': set<Dir>)
    requires keys <= keys' <= keys + more
    ensures |keys'| <= |keys| + |more - keys|
    ensures more <= keys' ==> |keys'| == |keys| + |more - keys|
    ensures (exists d :: d in more && d !in keys') ==> |keys'| < |keys| + |more - keys|
  {
    assert keys' == keys + (keys' - keys) && |keys'| == |keys| + |keys' - keys|;
    SubsetSize(keys' - keys, more - keys);
    if more <= keys' {
      assert keys' - keys == more - keys;
    }
    if d :| d in more && d !in keys' {
      SubsetSize(keys' - keys, more - keys - {d});
    }
  }

  // What the steps of growing do to a user address space.

  /** The frames of the first n pages keep their contents. */
  ghost predicate SameFrames(mem: Memory, mem': Memory, leaf: map<nat, nat>, n: nat) {
    forall v :: 0 <= v < n && v in leaf && PageOf(leaf[v]) in mem ==>
      PageOf(leaf[v]) in mem' && mem'[PageOf(leaf[v])] == mem[PageOf(leaf[v])]
  }

  /** A page p taken from the free list belongs to nobody yet. */
  lemma TookPage(mem: Memory, free: seq<nat>, used: set<nat>, sp: Space, n: nat, extra: set<nat>, p: nat, mem': Memory,
                 free': seq<nat>)
    requires UserOk(mem, free, used, sp, n, extra) && p !in used && p in mem && mem'.Keys == mem.Keys
    requires (forall q :: q in mem && q != p ==> mem'[q] == mem[q]) && Apart(mem', free', used + {p})
    ensures UserOk(mem', free', used + {p}, sp, n, extra) && SameFrames(mem, mem', sp.leaf, n) && p !in Own(sp, n)
  {
    hide Tree;
    TreeUnder(mem, mem', sp, p, used);
    SameSize(mem, mem');
    OwnUsed(mem, free, used, sp, n, extra);
  }

  lemma SameSize(mem: Memory, mem': Memory)
    requires mem'.Keys == mem.Keys
    ensures |mem'| == |mem|
  {
    assert |mem.Keys| == |mem| && |mem'.Keys| == |mem'|;
  }

  lemma OwnUsed(mem: Memory, free: seq<nat>, used: set<nat>, sp: Space, n: nat, extra: set<nat>)
    requires UserOk(mem, free, used, sp, n, extra)
    ensures Own(sp, n) <= used && Frames(sp.leaf, 0, n) !! sp.dirs.Values
  {
  }

  /** Page tables are added: frames in use that are not tables stay so. */
  lemma TablesAside(m1: Memory, f1: seq<nat>, u1: set<nat>, sp: Space, n: nat, m2: Memory, f2: seq<nat>, u2: set<nat>,
                    sp2: Space)
    requires OwnFrames(u1, sp, 0, n) && u1 <= m1.Keys && Grown(m1, f1, u1, sp, m2, f2, u2, sp2, sp.dirs.Values)
    ensures OwnFrames(u2, sp2.(leaf := sp.leaf), 0, n) && SameFrames(m1, m2, sp.leaf, n)
    ensures HoldBytes(m1, sp.leaf, n) ==> HoldBytes(m2, sp.leaf, n)
  {
    hide PageOf;
  }

  lemma MoreTables(m1: Memory, f1: seq<nat>, u1: set<nat>, sp: Space, n: nat, extra: set<nat>,
                   m2: Memory, f2: seq<nat>, u2: set<nat>, sp2: Space)
    requires UserOk(m1, f1, u1, sp, n, extra) && Grown(m1, f1, u1, sp, m2, f2, u2, sp2, sp.dirs.Values)
    requires SpaceOk(m2, f2, u2, sp2) && sp2.leaf == sp.leaf
    ensures UserOk(m2, f2, u2, sp2, n, extra) && SameFrames(m1, m2, sp.leaf, n)
  {
    TablesAside(m1, f1, u1, sp, n, m2, f2, u2, sp2);
    SameSize(m1, m2);
    hide Tree, Layout, OwnFrames, HoldBytes, SameFrames;
    assert sp2.(leaf := sp.leaf) == sp2;
  }

  /** Page n is mapped as well. */
  lemma LayoutMore(leaf: map<nat, nat>, n: nat, extra: set<nat>, pte: nat)
    requires Layout(leaf, n, extra) && n < TRAPFRAME && Flags(pte) != 1
    ensures Layout(leaf[n := pte], n + 1, extra) && n !in leaf
  {
    hide Flags, UserPage;
  }

  lemma FramesMore(u: set<nat>, sp: Space, n: nat, pte: nat)
    requires OwnFrames(u, sp, 0, n) && PageOf(pte) in u && PageOf(pte) !in Own(sp, n)
    ensures OwnFrames(u, sp.(leaf := sp.leaf[n := pte]), 0, n + 1)
  {
    hide PageOf;
    assert forall v :: 0 <= v < n ==> PageOf(sp.leaf[v]) in Frames(sp.leaf, 0, n);
  }

  lemma BytesMore(mem: Memory, leaf: map<nat, nat>, n: nat, pte: nat)
    requires HoldBytes(mem, leaf, n) && IsBytes(mem, PageOf(pte))
    ensures HoldBytes(mem, leaf[n := pte], n + 1)
  {
    hide PageOf;
  }

  lemma KeptPage(m1: Memory, f1: seq<nat>, u1: set<nat>, sp: Space, m2: Memory, f2: seq<nat>, u2: set<nat>, sp2: Space,
                 p: nat)
    requires Grown(m1, f1, u1, sp, m2, f2, u2, sp2, sp.dirs.Values) && p in u1 && p in m1 && p !in sp.dirs.Values
    ensures p in m2 && m2[p] == m1[p] && p in u2 && p !in sp2.dirs.Values && m2.Keys == m1.Keys
  {
  }

  lemma MorePages(m1: Memory, f1: seq<nat>, u1: set<nat>, sp: Space, n: nat, extra: set<nat>,
                  m2: Memory, f2: seq<nat>, u2: set<nat>, sp2: Space, pte: nat)
    requires UserOk(m1, f1, u1, sp, n, extra) && Grown(m1, f1, u1, sp, m2, f2, u2, sp2, sp.dirs.Values) && n < TRAPFRAME
    requires SpaceOk(m2, f2, u2, sp2) && sp2.leaf == sp.leaf[n := pte] && Flags(pte) != 1
    requires PageOf(pte) in u1 && PageOf(pte) !in Own(sp, n) && IsBytes(m1, PageOf(pte))
    ensures UserOk(m2, f2, u2, sp2, n + 1, extra) && SameFrames(m1, m2, sp.leaf, n)
  {
    hide PageOf, Flags, Tree, Layout, OwnFrames, SameFrames, HoldBytes, Grown, Frames;
    LayoutMore(sp.leaf, n, extra, pte);
    TablesAside(m1, f1, u1, sp, n, m2, f2, u2, sp2);
    KeptPage(m1, f1, u1, sp, m2, f2, u2, sp2, PageOf(pte));
    SameSize(m1, m2);
    var sp1 := sp2.(leaf := sp.leaf);
    FramesMore(u2, sp1, n, pte);
    assert sp1.(leaf := sp1.leaf[n := pte]) == sp2;
    BytesMore(m2, sp.leaf, n, pte);
  }

  lemma FramesNext(leaf: map<nat, nat>, n: nat, pte: nat)
    requires n !in leaf
    ensures Frames(leaf[n := pte], 0, n + 1) == Frames(leaf, 0, n) + {PageOf(pte)}
  {
    hide PageOf;
    var leaf' := leaf[n := pte];
    assert leaf'[n] == pte;
    assert forall v :: v in leaf && v < n ==> v in leaf' && leaf'[v] == leaf[v];
    assert forall v :: v in leaf' && v < n ==> v in leaf && leaf'[v] == leaf[v];
  }

  /** Taking page p, adding tables and mapping page n to p. */
  lemma StepAdded(m0: Memory, f0: seq<nat>, u0: set<nat>, sp: Space, n: nat, p: nat, m1: Memory, f1: seq<nat>,
                  m2: Memory, f2: seq<nat>, u2: set<nat>, sp2: Space, pte: nat)
    requires Own(sp, n) <= u0 && p !in u0 && m1.Keys == m0.Keys && (forall q :: q in m0 && q != p ==> m1[q] == m0[q])
    requires FreeSet(f1) + {p} == FreeSet(f0) && Grown(m1, f1, u0 + {p}, sp, m2, f2, u2, sp2, sp.dirs.Values)
    requires PageOf(pte) == p && n !in sp.leaf && sp2.leaf == sp.leaf[n := pte]
    ensures Step(m0, f0, u0, Own(sp, n), m2, f2, u2, Own(sp2, n + 1))
  {
    hide PageOf, Frames;
    FramesNext(sp.leaf, n, pte);
  }

  /** Taking page p, adding tables and giving p back. */
  lemma StepFailed(m0: Memory, f0: seq<nat>, u0: set<nat>, sp: Space, n: nat, p: nat, m1: Memory, f1: seq<nat>,
                   m2: Memory, f2: seq<nat>, u2: set<nat>, sp2: Space)
    requires Own(sp, n) <= u0 && p !in u0 && m1.Keys == m0.Keys && (forall q :: q in m0 && q != p ==> m1[q] == m0[q])
    requires FreeSet(f1) + {p} == FreeSet(f0) && Grown(m1, f1, u0 + {p}, sp, m2, f2, u2, sp2, sp.dirs.Values)
    requires sp2.leaf == sp.leaf && p in m0
    ensures Step(m0, f0, u0, Own(sp, n), m2[p := FREED], [p] + f2, u2 - {p}, Own(sp2, n))
  {
    hide PageOf, Frames;
    assert FreeSet([p] + f2) == FreeSet(f2) + {p};
  }

  /** A frame that is not the space's own goes back to the free list. */
  lemma GavePage(mem: Memory, free: seq<nat>, used: set<nat>, sp: Space, n: nat, extra: set<nat>, p: nat)
    requires UserOk(mem, free, used, sp, n, extra) && p in used && p !in Own(sp, n)
    ensures Apart(mem[p := FREED], [p] + free, used - {p})
    ensures UserOk(mem[p := FREED], [p] + free, used - {p}, sp, n, extra)
    ensures SameFrames(mem, mem[p := FREED], sp.leaf, n)
  {
    hide PageOf, Tree, Layout;
    TreeAside(mem, mem[p := FREED], sp, p);
    SameSize(mem, mem[p := FREED]);
    assert forall v :: 0 <= v < n ==> PageOf(sp.leaf[v]) in Frames(sp.leaf, 0, n);
  }

  lemma SameFramesTrans(m0: Memory, m1: Memory, m2: Memory, leaf: map<nat, nat>, n: nat)
    requires SameFrames(m0, m1, leaf, n) && SameFrames(m1, m2, leaf, n)
    ensures SameFrames(m0, m2, leaf, n)
  {
    hide PageOf;
  }

  lemma OwnAfter(m1: Memory, f1: seq<nat>, u1: set<nat>, sp: Space, m2: Memory, f2: seq<nat>, u2: set<nat>, sp2: Space,
                 n: nat)
    requires Grown(m1, f1, u1, sp, m2, f2, u2, sp2, sp.dirs.Values) && sp2.leaf == sp.leaf
    ensures Own(sp2, n) == Own(sp, n) + (u2 - u1) && u1 <= u2
  {
  }

  lemma MappedOne(leaf: map<nat, nat>, v: nat, ppn: nat, perm: nat)
    requires 2 <= perm < 1024
    ensures Mapped(leaf, v, 0, ppn, perm) == leaf && Mapped(leaf, v, 1, ppn, perm) == leaf[v := MakePte(ppn, perm)]
    ensures PageOf(MakePte(ppn, perm)) == ppn && Flags(MakePte(ppn, perm)) != 1
  {
    assert Mapped(leaf, v, 1, ppn, perm) == Mapped(leaf, v, 0, ppn, perm)[v + 1 - 1 := MakePte(ppn + 1 - 1, perm)];
  }

  /** kalloc and mappages, or kfree again. */
  method PlacePage(vm: Vm, root: nat, n: nat, content: seq<byte>, perm: nat, ghost sp: Space, ghost used: set<nat>,
                 ghost extra: set<nat>)
    returns (ok: bool, ghost sp': Space, ghost used': set<nat>, ghost p: nat)
    requires UserOk(vm.mem, vm.free, used, sp, n, extra) && root == sp.dirs[ROOT] && |content| == PGSIZE
    requires 2 <= perm < 1024
    modifies vm
    ensures UserOk(vm.mem, vm.free, used', sp', if ok then n + 1 else n, extra)
    ensures sp'.leaf == if ok then sp.leaf[n := MakePte(p, perm)] else sp.leaf
    ensures used <= used' && (ok ==> p !in used && p in vm.mem && vm.mem[p] == Bytes(content))
    ensures SameFrames(old(vm.mem), vm.mem, sp.leaf, n) && ROOT in sp'.dirs && sp'.dirs[ROOT] == root
    ensures Step(old(vm.mem), old(vm.free), used, Own(sp, n), vm.mem, vm.free, used', Own(sp', if ok then n + 1 else n))
    ensures sp.dirs.Keys <= sp'.dirs.Keys <= sp.dirs.Keys + TablesFor(n) && (ok ==> TablesFor(n) <= sp'.dirs.Keys)
    ensures !ok ==> old(vm.free) == [] || (|vm.free| == 1 && Dir(0, n / ENTRIES) !in sp'.dirs)
  {
    hide Tree, PageOf, Flags, Layout, OwnFrames, HoldBytes, SameFrames, Grown, Frames, Mapped, MakePte, Step, FreeSet,
         TablesFor, Own;
    sp', used', p := sp, used, 0;
    RoomToGrow(vm.mem, vm.free, used, sp, n, extra);
    OwnUsed(vm.mem, vm.free, used, sp, n, extra);
    GrownSelf(vm.mem, vm.free, used, sp);
    var frame;
    ok, frame := vm.KAlloc(used);
    if !ok {
      StepSelf(vm.mem, vm.free, used, Own(sp, n));
      MoreTables(vm.mem, vm.free, used, sp, n, extra, vm.mem, vm.free, used, sp);
      return;
    }
    p := frame;
    vm.mem := vm.mem[frame := Bytes(content)];
    TookPage(old(vm.mem), old(vm.free), used, sp, n, extra, p, vm.mem, vm.free);
    ghost var m1, f1, u1 := vm.mem, vm.free, used + {p};
    MappedOne(sp.leaf, n, p, perm);
    LayoutMore(sp.leaf, n, extra, MakePte(p, perm));
    ghost var k;
    ok, sp', used', k := vm.MapPages(root, n, 1, frame, perm, sp, u1);
    OneTable(n);
    GrownValues(m1, f1, u1, sp, vm.mem, vm.free, used', sp', sp.dirs.Values);
    KeptPage(m1, f1, u1, sp, vm.mem, vm.free, used', sp', p);
    if ok {
      MorePages(m1, f1, u1, sp, n, extra, vm.mem, vm.free, used', sp', MakePte(p, perm));
      StepAdded(old(vm.mem), old(vm.free), used, sp, n, p, m1, f1, vm.mem, vm.free, used', sp', MakePte(p, perm));
      SameFramesTrans(old(vm.mem), m1, vm.mem, sp.leaf, n);
    } else {
      MoreTables(m1, f1, u1, sp, n, extra, vm.mem, vm.free, used', sp');
      OwnAfter(m1, f1, u1, sp, vm.mem, vm.free, used', sp', n);
      StepFailed(old(vm.mem), old(vm.free), used, sp, n, p, m1, f1, vm.mem, vm.free, used', sp');
      GavePage(vm.mem, vm.free, used', sp', n, extra, p);
      ghost var m2 := vm.mem;
      vm.KFree(frame, used');
      used' := used' - {p};
      SameFramesTrans(old(vm.mem), m1, m2, sp.leaf, n);
      SameFramesTrans(old(vm.mem), m2, vm.mem, sp.leaf, n);
    }
  }

  /** uvmalloc's and uvmcopy's way to give page n a frame filled with content. It succeeds if
      and only if there are pages for the frame and the tables that are missing. */
  method AddPage(vm: Vm, root: nat, n: nat, content: seq<byte>, perm: nat, ghost sp: Space, ghost used: set<nat>,
                 ghost extra: set<nat>)
    returns (ok: bool, ghost sp': Space, ghost used': set<nat>, ghost p: nat)
    requires UserOk(vm.mem, vm.free, used, sp, n, extra) && root == sp.dirs[ROOT] && |content| == PGSIZE
    requires 2 <= perm < 1024
    modifies vm
    ensures UserOk(vm.mem, vm.free, used', sp', if ok then n + 1 else n, extra)
    ensures sp'.leaf == if ok then sp.leaf[n := MakePte(p, perm)] else sp.leaf
    ensures used <= used' && (ok ==> p !in used && p in vm.mem && vm.mem[p] == Bytes(content))
    ensures SameFrames(old(vm.mem), vm.mem, sp.leaf, n) && ROOT in sp'.dirs && sp'.dirs[ROOT] == root
    ensures Step(old(vm.mem), old(vm.free), used, Own(sp, n), vm.mem, vm.free, used', Own(sp', if ok then n + 1 else n))
    ensures ok ==> sp'.dirs.Keys == sp.dirs.Keys + TablesFor(n)
    ensures ok <==> |old(vm.free)| >= 1 + |TablesFor(n) - sp.dirs.Keys|
  {
    hide UserOk, Step, Own, SameFrames, MakePte, TablesFor;
    OneTable(n);
    ok, sp', used', p := PlacePage(vm, root, n, content, perm, sp, used, extra);
    MoreKeys(sp.dirs.Keys, TablesFor(n), sp'.dirs.Keys);
    SpaceCounts(old(vm.mem), old(vm.free), used, sp, n, extra, vm.mem, vm.free, used', sp', if ok then n + 1 else n,
                extra);
  }

  lemma OneTable(v: nat)
    ensures TablesOf(v, v + 1) == TablesFor(v) && TablesOf(v, v) == {} && Dir(0, v / ENTRIES) in TablesFor(v)
  {
  }

  // What unmapping the top pages does to it.

  lemma FramesSplit(leaf: map<nat, nat>, k: nat, n: nat)
    requires k <= n
    ensures Frames(leaf, 0, n) == Frames(leaf, 0, k) + Frames(leaf, k, n - k)
    ensures Frames(Unmapped(leaf, k, n - k), 0, k) == Frames(leaf, 0, k)
  {
    hide PageOf;
    var leaf' := Unmapped(leaf, k, n - k);
    assert forall v :: v in leaf && v < k ==> v in leaf' && leaf'[v] == leaf[v];
    assert forall v :: v in leaf' && v < k ==> v in leaf && leaf'[v] == leaf[v];
  }

  lemma FramesApart(used: set<nat>, sp: Space, k: nat, n: nat)
    requires OwnFrames(used, sp, 0, n) && k <= n
    ensures Frames(sp.leaf, 0, k) !! Frames(sp.leaf, k, n - k)
    ensures OwnFrames(used, sp, k, n - k) && OwnFrames(used - Frames(sp.leaf, k, n - k), sp, 0, k)
  {
    hide PageOf;
    forall v | 0 <= v < k
      ensures PageOf(sp.leaf[v]) !in Frames(sp.leaf, k, n - k)
    {
      assert forall w :: k <= w < n ==> PageOf(sp.leaf[v]) != PageOf(sp.leaf[w]);
    }
  }

  lemma LayoutLess(leaf: map<nat, nat>, k: nat, n: nat, extra: set<nat>)
    requires Layout(leaf, n, extra) && k <= n
    ensures Layout(Unmapped(leaf, k, n - k), k, extra)
  {
    hide Flags, UserPage;
    var leaf' := Unmapped(leaf, k, n - k);
    assert forall v :: v in leaf' ==> leaf'[v] == leaf[v];
  }

  lemma SameBelow(used: set<nat>, sp: Space, k: nat, n: nat)
    requires OwnFrames(used, sp, 0, k) && k <= n
    ensures OwnFrames(used, sp.(leaf := Unmapped(sp.leaf, k, n - k)), 0, k)
  {
    hide PageOf;
    var leaf' := Unmapped(sp.leaf, k, n - k);
    assert forall v :: 0 <= v < k ==> v in leaf' && leaf'[v] == sp.leaf[v];
  }

  lemma BytesBelow(m0: Memory, f0: seq<nat>, u0: set<nat>, sp: Space, k: nat, n: nat, m1: Memory, f1: seq<nat>,
                   u1: set<nat>)
    requires HoldBytes(m0, sp.leaf, n) && k <= n && u0 <= m0.Keys && OwnFrames(u1, sp, 0, k)
    requires Shrunk(m0, f0, u0, m1, f1, u1, sp.dirs.Values)
    ensures SameFrames(m0, m1, sp.leaf, k) && HoldBytes(m1, Unmapped(sp.leaf, k, n - k), k)
  {
    hide PageOf;
  }

  lemma StepDropped(m0: Memory, f0: seq<nat>, u0: set<nat>, sp: Space, k: nat, n: nat, m1: Memory, f1: seq<nat>,
                    u1: set<nat>)
    requires Own(sp, n) <= u0 && k <= n && Frames(sp.leaf, 0, n) !! sp.dirs.Values
    requires Frames(sp.leaf, 0, k) !! Frames(sp.leaf, k, n - k)
    requires u1 == u0 - Frames(sp.leaf, k, n - k) && Shrunk(m0, f0, u0, m1, f1, u1, sp.dirs.Values)
    ensures Step(m0, f0, u0, Own(sp, n), m1, f1, u1, Own(sp.(leaf := Unmapped(sp.leaf, k, n - k)), k))
  {
    FramesSplit(sp.leaf, k, n);
    hide Frames, Unmapped;
  }

  lemma FewerPages(m0: Memory, f0: seq<nat>, u0: set<nat>, sp: Space, k: nat, n: nat, extra: set<nat>,
                   m1: Memory, f1: seq<nat>, u1: set<nat>, sp1: Space)
    requires UserOk(m0, f0, u0, sp, n, extra) && k <= n
    requires sp1 == sp.(leaf := Unmapped(sp.leaf, k, n - k)) && SpaceOk(m1, f1, u1, sp1)
    requires u1 == u0 - Frames(sp.leaf, k, n - k) && Shrunk(m0, f0, u0, m1, f1, u1, sp.dirs.Values)
    ensures UserOk(m1, f1, u1, sp1, k, extra) && SameFrames(m0, m1, sp.leaf, k)
    ensures Step(m0, f0, u0, Own(sp, n), m1, f1, u1, Own(sp1, k))
  {
    hide PageOf, Tree, Layout, OwnFrames, HoldBytes, SameFrames, Unmapped, Frames, Step, Own;
    LayoutLess(sp.leaf, k, n, extra);
    FramesApart(u0, sp, k, n);
    SameBelow(u1, sp, k, n);
    BytesBelow(m0, f0, u0, sp, k, n, m1, f1, u1);
    OwnUsed(m0, f0, u0, sp, n, extra);
    StepDropped(m0, f0, u0, sp, k, n, m1, f1, u1);
    SameSize(m0, m1);
  }

  method DropPages(vm: Vm, root: nat, k: nat, n: nat, ghost sp: Space, ghost used: set<nat>, ghost extra: set<nat>)
    returns (ghost sp': Space, ghost used': set<nat>)
    requires UserOk(vm.mem, vm.free, used, sp, n, extra) && root == sp.dirs[ROOT] && k <= n
    modifies vm
    ensures UserOk(vm.mem, vm.free, used', sp', k, extra) && sp' == sp.(leaf := Unmapped(sp.leaf, k, n - k))
    ensures SameFrames(old(vm.mem), vm.mem, sp.leaf, k)
    ensures Step(old(vm.mem), old(vm.free), used, Own(sp, n), vm.mem, vm.free, used', Own(sp', k))
  {
    hide PageOf, Tree, HoldBytes, Frames, Unmapped, Step, Shrunk, SameFrames, UserPage, Own;
    FramesApart(used, sp, k, n);
    sp', used' := vm.Unmap(root, k, n - k, true, sp, used);
    FewerPages(old(vm.mem), old(vm.free), used, sp, k, n, extra, vm.mem, vm.free, used', sp');
  }

  /** Every page of a process that its user can reach holds bytes. */
  lemma UserFramesOk(mem: Memory, free: seq<nat>, used: set<nat>, sp: Space, n: nat, extra: set<nat>)
    requires UserOk(mem, free, used, sp, n, extra)
    ensures UserFrames(mem, sp.leaf)
  {
    hide SpaceOk, PageOf, UserPage, Flags;
  }

  /** No two addresses of a process that its user can reach are the same physical byte. */
  lemma OwnUnaliased(mem: Memory, free: seq<nat>, used: set<nat>, sp: Space, n: nat, extra: set<nat>, a: nat, len: nat)
    requires UserOk(mem, free, used, sp, n, extra) && AllReadable(sp.leaf, a, len)
    ensures Unaliased(sp.leaf, a, len)
  {
    hide SpaceOk, PageOf, UserPage, Flags, HoldBytes;
    forall i, j | a <= i < j < a + len
      ensures Cell(sp.leaf, i) != Cell(sp.leaf, j)
    {
      var v, w := i / PGSIZE, j / PGSIZE;
      assert Readable(sp.leaf, i) && Readable(sp.leaf, j);
      assert v < n && w < n;
      if v == w {
        assert i == v * PGSIZE + i % PGSIZE && j == v * PGSIZE + j % PGSIZE;
      }
    }
  }

  /** In every process, what copyout stores in memory that its user can reach comes back
      from copyin. */
  lemma OwnRoundTrip(mem: Memory, free: seq<nat>, used: set<nat>, sp: Space, n: nat, extra: set<nat>, a: nat,
                     src: seq<byte>)
    requires UserOk(mem, free, used, sp, n, extra) && AllReadable(sp.leaf, a, |src|)
    ensures UserFrames(mem, sp.leaf)
    ensures ReadBytes(WriteBytes(mem, sp.leaf, a, src), sp.leaf, a, |src|) == src
  {
    UserFramesOk(mem, free, used, sp, n, extra);
    OwnUnaliased(mem, free, used, sp, n, extra, a, |src|);
    RoundTrip(mem, sp.leaf, a, src);
  }
}
