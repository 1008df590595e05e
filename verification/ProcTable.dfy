/** proc_pagetable, proc_freepagetable and uvmfree: an address space from its first page
    table to its last. */
module ProcTable {
  import opened Common
  import opened PageTable
  import opened Vm
  import opened PageFree
  import opened UserCopy
  import opened UserMemory
  import opened Uvm

  lemma AllUnder(sp: Space)
    requires DirsOk(sp)
    ensures SubPages(sp, ROOT) == sp.dirs.Values
  {
    forall e | e in sp.dirs
      ensures sp.dirs[e] in SubPages(sp, ROOT)
    {
      UnderRoot(sp, e);
    }
  }

  lemma NoLeaves(mem: Memory, free: seq<nat>, used: set<nat>, sp: Space)
    requires UserOk(mem, free, used, sp, 0, {})
    ensures sp.leaf == map[] && SpaceOk(mem, free, used, sp) && ROOT in sp.dirs && SubPages(sp, ROOT) == sp.dirs.Values
    ensures Own(sp, 0) == sp.dirs.Values <= used
  {
    AllUnder(sp);
    assert Frames(sp.leaf, 0, 0) == {};
  }

  lemma ShrunkStep(m0: Memory, f0: seq<nat>, u0: set<nat>, own: set<nat>, m1: Memory, f1: seq<nat>, u1: set<nat>)
    requires Shrunk(m0, f0, u0, m1, f1, u1, {}) && own <= u0 && u1 == u0 - own
    ensures Step(m0, f0, u0, own, m1, f1, u1, {})
  {
  }

  /** uvmfree: all pages of the space go back to the free list. */
  method UvmFree(vm: Vm, root: nat, sz: nat, ghost sp: Space, ghost used: set<nat>) returns (ghost used': set<nat>)
    requires UserOk(vm.mem, vm.free, used, sp, Pages(sz), {}) && root == sp.dirs[ROOT]
    modifies vm
    ensures Apart(vm.mem, vm.free, used') && used' == used - Own(sp, Pages(sz))
    ensures Step(old(vm.mem), old(vm.free), used, Own(sp, Pages(sz)), vm.mem, vm.free, used', {})
  {
    hide UserOk, Step, Own, SubPages, Shrunk, Unmapped, SameFrames, SpaceOk, Apart;
    ghost var n := Pages(sz);
    ghost var sp1, u1 := sp, used;
    Unchanged(vm.mem, vm.free, used, sp, n, {});
    if sz > 0 {
      sp1, u1 := DropPages(vm, root, 0, Pages(sz), sp, used, {});
    }
    ghost var m1, f1 := vm.mem, vm.free;
    NoLeaves(m1, f1, u1, sp1);
    used' := FreeWalk(vm, root, ROOT, sp1, u1);
    ShrunkStep(m1, f1, u1, Own(sp1, 0), vm.mem, vm.free, used');
    StepTrans(old(vm.mem), old(vm.free), used, Own(sp, n), m1, f1, u1, Own(sp1, 0), vm.mem, vm.free, used', {});
    StepGone(old(vm.mem), old(vm.free), used, Own(sp, n), vm.mem, vm.free, used');
  }

  lemma StepGone(m0: Memory, f0: seq<nat>, u0: set<nat>, own: set<nat>, m1: Memory, f1: seq<nat>, u1: set<nat>)
    requires Step(m0, f0, u0, own, m1, f1, u1, {})
    ensures u1 == u0 - own
  {
    assert u1 - {} == u1;
  }

  // The two pages at the top.

  /** Without the user bit among its permissions, a page is not the user's. */
  lemma KernelPage(ppn: nat, perm: nat)
    requires 2 <= perm < 16
    ensures !UserPage(MakePte(ppn, perm)) && Flags(MakePte(ppn, perm)) != 1
  {
    var low := perm - perm % 2 + 1;
    assert MakePte(ppn, perm) == (ppn * 64) * 16 + low && low < 16;
    assert (ppn * 64 * 16 + low) / 16 == ppn * 64;
  }

  lemma TopLayout(leaf: map<nat, nat>, n: nat, extra: set<nat>, v: nat, pte: nat)
    requires Layout(leaf, n, extra) && TRAPFRAME <= v < MAXPAGE
    ensures Flags(pte) != 1 && !UserPage(pte) ==> Layout(leaf[v := pte], n, extra + {v})
    ensures Layout(Unmapped(leaf, v, 1), n, extra - {v})
    ensures v !in leaf <==> v !in extra
    ensures Frames(leaf[v := pte], 0, n) == Frames(leaf, 0, n)
    ensures Frames(Unmapped(leaf, v, 1), 0, n) == Frames(leaf, 0, n)
  {
    hide Flags, PageOf;
    var l1, l2 := leaf[v := pte], Unmapped(leaf, v, 1);
    assert forall w :: w in leaf && w < n ==> w in l1 && l1[w] == leaf[w] && w in l2 && l2[w] == leaf[w];
    assert forall w :: (w in l1 || w in l2) && w < n ==> w in leaf;
  }

  lemma TopFrames(mem: Memory, used: set<nat>, sp: Space, n: nat, v: nat, pte: nat)
    requires OwnFrames(used, sp, 0, n) && HoldBytes(mem, sp.leaf, n) && n <= TRAPFRAME <= v
    ensures OwnFrames(used, sp.(leaf := sp.leaf[v := pte]), 0, n) && HoldBytes(mem, sp.leaf[v := pte], n)
    ensures OwnFrames(used, sp.(leaf := Unmapped(sp.leaf, v, 1)), 0, n) && HoldBytes(mem, Unmapped(sp.leaf, v, 1), n)
  {
    hide PageOf;
  }

  // Maps a page at the top to a frame that is not the space's own.
  method PlaceTop(vm: Vm, root: nat, v: nat, ppn: nat, perm: nat, ghost sp: Space, ghost used: set<nat>, ghost n: nat,
                ghost extra: set<nat>)
    returns (ok: bool, ghost sp': Space, ghost used': set<nat>)
    requires UserOk(vm.mem, vm.free, used, sp, n, extra) && root == sp.dirs[ROOT] && TRAPFRAME <= v < MAXPAGE
    requires v !in extra && 2 <= perm < 16
    modifies vm
    ensures UserOk(vm.mem, vm.free, used', sp', n, if ok then extra + {v} else extra)
    ensures ROOT in sp'.dirs && sp'.dirs[ROOT] == root && (ok ==> v in sp'.leaf && PageOf(sp'.leaf[v]) == ppn)
    ensures Step(old(vm.mem), old(vm.free), used, Own(sp, n), vm.mem, vm.free, used', Own(sp', n))
    ensures sp.dirs.Keys <= sp'.dirs.Keys <= sp.dirs.Keys + TablesFor(v)
    ensures if ok then TablesFor(v) <= sp'.dirs.Keys else vm.free == [] && Dir(0, v / ENTRIES) !in sp'.dirs
  {
    hide Tree, PageOf, Flags, Layout, OwnFrames, HoldBytes, Grown, Frames, Mapped, MakePte, Step, Unmapped,
         SameFrames, UserPage, TablesFor;
    KernelPage(ppn, perm);
    TopLayout(sp.leaf, n, extra, v, MakePte(ppn, perm));
    OwnUsed(vm.mem, vm.free, used, sp, n, extra);
    MappedOne(sp.leaf, v, ppn, perm);
    GrownSelf(vm.mem, vm.free, used, sp);
    ghost var k;
    OneTable(v);
    ok, sp', used', k := vm.MapPages(root, v, 1, ppn, perm, sp, used);
    GrownValues(old(vm.mem), old(vm.free), used, sp, vm.mem, vm.free, used', sp', sp.dirs.Values);
    TablesAside(old(vm.mem), old(vm.free), used, sp, n, vm.mem, vm.free, used', sp');
    BytesKept(old(vm.mem), vm.mem, sp.leaf, n);
    SameSizeGrown(old(vm.mem), old(vm.free), used, sp, vm.mem, vm.free, used', sp');
    ghost var sp1 := sp'.(leaf := sp.leaf);
    LayoutBound(sp.leaf, n, extra);
    TopFrames(vm.mem, used', sp1, n, v, MakePte(ppn, perm));
    GrownStep(old(vm.mem), old(vm.free), used, sp, vm.mem, vm.free, used', sp', n);
    assert ok ==> sp' == sp1.(leaf := sp1.leaf[v := MakePte(ppn, perm)]);
    assert !ok ==> sp' == sp1;
  }

  /** The same; it succeeds if and only if there are pages for the tables that are missing. */
  method MapTop(vm: Vm, root: nat, v: nat, ppn: nat, perm: nat, ghost sp: Space, ghost used: set<nat>, ghost n: nat,
                ghost extra: set<nat>)
    returns (ok: bool, ghost sp': Space, ghost used': set<nat>)
    requires UserOk(vm.mem, vm.free, used, sp, n, extra) && root == sp.dirs[ROOT] && TRAPFRAME <= v < MAXPAGE
    requires v !in extra && 2 <= perm < 16
    modifies vm
    ensures UserOk(vm.mem, vm.free, used', sp', n, if ok then extra + {v} else extra)
    ensures ROOT in sp'.dirs && sp'.dirs[ROOT] == root && (ok ==> v in sp'.leaf && PageOf(sp'.leaf[v]) == ppn)
    ensures Step(old(vm.mem), old(vm.free), used, Own(sp, n), vm.mem, vm.free, used', Own(sp', n))
    ensures ok ==> sp'.dirs.Keys == sp.dirs.Keys + TablesFor(v)
    ensures ok <==> |old(vm.free)| >= |TablesFor(v) - sp.dirs.Keys|
  {
    hide UserOk, Step, Own, PageOf, TablesFor;
    OneTable(v);
    ok, sp', used' := PlaceTop(vm, root, v, ppn, perm, sp, used, n, extra);
    MoreKeys(sp.dirs.Keys, TablesFor(v), sp'.dirs.Keys);
    SpaceCounts(old(vm.mem), old(vm.free), used, sp, n, extra, vm.mem, vm.free, used', sp', n,
                if ok then extra + {v} else extra);
  }

  lemma LayoutBound(leaf: map<nat, nat>, n: nat, extra: set<nat>)
    requires Layout(leaf, n, extra)
    ensures n <= TRAPFRAME
  {
  }

  lemma BytesKept(m0: Memory, m1: Memory, leaf: map<nat, nat>, n: nat)
    requires HoldBytes(m0, leaf, n) && SameFrames(m0, m1, leaf, n)
    ensures HoldBytes(m1, leaf, n)
  {
    hide PageOf;
  }

  lemma SameSizeGrown(m1: Memory, f1: seq<nat>, u1: set<nat>, sp: Space, m2: Memory, f2: seq<nat>, u2: set<nat>,
                      sp2: Space)
    requires Grown(m1, f1, u1, sp, m2, f2, u2, sp2, sp.dirs.Values)
    ensures |m2| == |m1|
  {
    SameSize(m1, m2);
  }

  lemma GrownStep(m1: Memory, f1: seq<nat>, u1: set<nat>, sp: Space, m2: Memory, f2: seq<nat>, u2: set<nat>,
                  sp2: Space, n: nat)
    requires Grown(m1, f1, u1, sp, m2, f2, u2, sp2, sp.dirs.Values) && Own(sp, n) <= u1
    requires Frames(sp2.leaf, 0, n) == Frames(sp.leaf, 0, n)
    ensures Step(m1, f1, u1, Own(sp, n), m2, f2, u2, Own(sp2, n))
  {
    hide Frames;
  }

  /** Unmaps one of them, leaving its frame alone. */
  method UnmapTop(vm: Vm, root: nat, v: nat, ghost sp: Space, ghost used: set<nat>, ghost n: nat, ghost extra: set<nat>)
    returns (ghost sp': Space)
    requires UserOk(vm.mem, vm.free, used, sp, n, extra) && root == sp.dirs[ROOT] && v in extra
    modifies vm
    ensures UserOk(vm.mem, vm.free, used, sp', n, extra - {v}) && sp' == sp.(leaf := Unmapped(sp.leaf, v, 1))
    ensures Own(sp', n) == Own(sp, n)
    ensures Step(old(vm.mem), old(vm.free), used, Own(sp, n), vm.mem, vm.free, used, Own(sp', n))
  {
    hide Tree, PageOf, Flags, Layout, OwnFrames, HoldBytes, Frames, Step, Unmapped, SameFrames, Shrunk;
    TopFlags(sp.leaf, n, extra, v);
    TopLayout(sp.leaf, n, extra, v, 0);
    OwnUsed(vm.mem, vm.free, used, sp, n, extra);
    LayoutBound(sp.leaf, n, extra);
    ghost var u1;
    sp', u1 := vm.Unmap(root, v, 1, false, sp, used);
    TopFrames(old(vm.mem), used, sp, n, v, 0);
    ShrunkFrames(old(vm.mem), old(vm.free), used, vm.mem, vm.free, sp, sp', n);
  }

  lemma TopFlags(leaf: map<nat, nat>, n: nat, extra: set<nat>, v: nat)
    requires Layout(leaf, n, extra) && v in extra
    ensures v in leaf && Flags(leaf[v]) != 1 && TRAPFRAME <= v < MAXPAGE
  {
  }

  lemma ShrunkFrames(m0: Memory, f0: seq<nat>, u: set<nat>, m1: Memory, f1: seq<nat>, sp: Space, sp1: Space, n: nat)
    requires Shrunk(m0, f0, u, m1, f1, u, sp.dirs.Values) && sp1.dirs == sp.dirs && u <= m0.Keys
    requires OwnFrames(u, sp1, 0, n) && HoldBytes(m0, sp1.leaf, n) && Own(sp1, n) == Own(sp, n) <= u
    ensures HoldBytes(m1, sp1.leaf, n) && |m1| == |m0| && Step(m0, f0, u, Own(sp, n), m1, f1, u, Own(sp1, n))
  {
    SameSize(m0, m1);
    hide PageOf, Frames;
  }

  /** An address space that is one empty page table. */
  lemma NewRoot(m0: Memory, f0: seq<nat>, u0: set<nat>, p: nat, m1: Memory, f1: seq<nat>)
    requires p !in u0 && p in m0 && m1 == m0[p := Table(ZEROS)] && |m0| <= NPAGES
    requires Apart(m1, f1, u0 + {p}) && FreeSet(f1) + {p} == FreeSet(f0)
    ensures var sp := Space(map[ROOT := p], map[]);
            && UserOk(m1, f1, u0 + {p}, sp, 0, {}) && Own(sp, 0) == {p}
            && Step(m0, f0, u0, {}, m1, f1, u0 + {p}, {p})
  {
    var sp := Space(map[ROOT := p], map[]);
    var none: map<Dir, nat> := map[];
    ValuesWith(none, ROOT, p);
    assert sp.dirs == none[ROOT := p] && none.Values == {};
    SameSize(m0, m1);
    EmptyTable(m1, sp, ROOT);
    assert DirsOk(sp);
    assert Tree(m1, sp);
    assert Frames(sp.leaf, 0, 0) == {};
  }

  /** The tables of a process without user memory. */
  ghost function TopTables(): (r: set<Dir>) {
    {ROOT} + TablesFor(TRAMPOLINE)
  }

  lemma TopSize()
    ensures |TopTables()| == 3 && |TablesFor(TRAMPOLINE) - {ROOT}| == 2
    ensures TopTables() + TablesFor(TRAPFRAME) == TopTables() && |TablesFor(TRAPFRAME) - TopTables()| == 0
  {
    assert TablesFor(TRAPFRAME) == TablesFor(TRAMPOLINE) == {Dir(1, 255), Dir(0, 131071)};
    assert TablesFor(TRAPFRAME) - TopTables() == {};
    assert TopTables() == {ROOT, Dir(1, 255), Dir(0, 131071)};
    assert TablesFor(TRAMPOLINE) - {ROOT} == TablesFor(TRAMPOLINE);
  }

  // The tables of n user pages.

  lemma {:induction false} TablesBelow(n: nat, d: Dir)
    ensures d in TablesOf(0, n) <==> (d.l == 0 && d.k * 0x200 < n) || (d.l == 1 && d.k * 0x4_0000 < n)
  {
    if n > 0 {
      TablesBelow(n - 1, d);
    }
  }

  /** Rounded up: one table for every 512 pages, and one for every 512 of these. */
  function TableTotal(n: nat): (r: nat) {
    (n + 0x1ff) / 0x200 + (n + 0x3_ffff) / 0x4_0000
  }

  lemma {:induction false} TablesCount(n: nat)
    ensures |TablesOf(0, n)| == TableTotal(n)
  {
    if n > 0 {
      TablesCount(n - 1);
      var a, b := Dir(1, Prefix(n - 1, 2)), Dir(0, Prefix(n - 1, 1));
      TablesBelow(n - 1, a);
      TablesBelow(n - 1, b);
      PlusTwo(TablesOf(0, n - 1), a, b);
      Rounds(n);
    }
  }

  lemma PlusTwo(t: set<Dir>, a: Dir, b: Dir)
    requires a != b
    ensures |t + {a, b}| == |t| + (if a in t then 0 else 1) + (if b in t then 0 else 1)
  {
    assert t + {a, b} == (t + {a}) + {b};
    assert |t + {a}| == |t| + (if a in t then 0 else 1) by {
      assert a in t ==> t + {a} == t;
    }
    assert b in t ==> (t + {a}) + {b} == t + {a};
  }

  lemma Rounds(n: nat)
    requires n > 0
    ensures (n + 0x1ff) / 0x200 == (n - 1 + 0x1ff) / 0x200 + if (n - 1) / 0x200 * 0x200 < n - 1 then 0 else 1
    ensures (n + 0x3_ffff) / 0x4_0000 == (n - 1 + 0x3_ffff) / 0x4_0000 +
            if (n - 1) / 0x4_0000 * 0x4_0000 < n - 1 then 0 else 1
  {
    var q, r := (n - 1) / 0x200, (n - 1) % 0x200;
    var t, u := (n - 1) / 0x4_0000, (n - 1) % 0x4_0000;
    assert n - 1 == q * 0x200 + r && n - 1 == t * 0x4_0000 + u;
  }

  /** What it takes to give a process without user memory n pages. */
  function UserNeed(n: nat): (r: nat) {
    n + TableTotal(n)
  }

  lemma TopApart(n: nat)
    requires n <= NPAGES
    ensures TablesOf(0, n) - TopTables() == TablesOf(0, n)
  {
    assert TopTables() == {ROOT, Dir(1, 255), Dir(0, 131071)};
    TablesBelow(n, ROOT);
    TablesBelow(n, Dir(1, 255));
    TablesBelow(n, Dir(0, 131071));
  }

  lemma NeedFromNothing(n: nat)
    requires n <= NPAGES
    ensures Need(TopTables(), 0, n) == UserNeed(n)
  {
    hide TopTables, TablesFor;
    TablesCount(n);
    TopApart(n);
  }

  /** What a copy of an address space takes. */
  lemma CopyNeeds(mem: Memory, free: seq<nat>, used: set<nat>, sp: Space, n: nat, extra: set<nat>)
    requires UserOk(mem, free, used, sp, n, extra)
    ensures Need(TopTables(), 0, n) == UserNeed(n)
  {
    RoomToGrow(mem, free, used, sp, n, extra);
    NeedFromNothing(n);
  }

  lemma NeedGrows(k: nat, n: nat)
    requires k <= n
    ensures UserNeed(k) <= UserNeed(n)
  {
  }

  /** A space made from nothing has cost its tables and its pages. */
  lemma MadeCounts(m0: Memory, f0: seq<nat>, u0: set<nat>, m1: Memory, f1: seq<nat>, u1: set<nat>, sp: Space, n: nat,
                   extra: set<nat>)
    requires Apart(m0, f0, u0) && UserOk(m1, f1, u1, sp, n, extra) && Step(m0, f0, u0, {}, m1, f1, u1, Own(sp, n))
    ensures |f0| == |f1| + |sp.dirs.Keys| + n
  {
    hide UserOk, Step, Own, Apart;
    OwnSize(m1, f1, u1, sp, n, extra);
    StepCounts(m0, f0, u0, {}, m1, f1, u1, Own(sp, n));
  }

  // Maps the trampoline and the trapframe into an empty space, or nothing.
  method PlaceBoth(vm: Vm, root: nat, tramp: nat, tf: nat, ghost sp: Space, ghost used: set<nat>)
    returns (ok: bool, ghost sp': Space, ghost used': set<nat>)
    requires UserOk(vm.mem, vm.free, used, sp, 0, {}) && root == sp.dirs[ROOT] && sp.dirs.Keys == {ROOT}
    modifies vm
    ensures UserOk(vm.mem, vm.free, used', sp', 0, if ok then FIXED else {}) && ROOT in sp'.dirs
    ensures sp'.dirs[ROOT] == root
    ensures ok ==> TRAPFRAME in sp'.leaf && PageOf(sp'.leaf[TRAPFRAME]) == tf && sp'.dirs.Keys == TopTables()
    ensures Step(old(vm.mem), old(vm.free), used, Own(sp, 0), vm.mem, vm.free, used', Own(sp', 0))
    ensures ok ==> |old(vm.free)| >= |TablesFor(TRAMPOLINE) - {ROOT}|
    ensures !ok ==> |old(vm.free)| < |TablesFor(TRAMPOLINE) - {ROOT}| || 0 < |TablesFor(TRAPFRAME) - TopTables()|
  {
    hide UserOk, Step, Own, Tree, PageOf, Unmapped, TablesFor;
    assert {} + {TRAMPOLINE} == {TRAMPOLINE} && {TRAMPOLINE} + {TRAPFRAME} == FIXED &&
           {TRAMPOLINE} - {TRAMPOLINE} == {};
    ok, sp', used' := MapTop(vm, root, TRAMPOLINE, tramp, 2 + 8, sp, used, 0, {});
    if ok {
      ghost var m1, f1, u1, s1 := vm.mem, vm.free, used', sp';
      ok, sp', used' := MapTop(vm, root, TRAPFRAME, tf, 2 + 4, sp', used', 0, {TRAMPOLINE});
      StepTrans(old(vm.mem), old(vm.free), used, Own(sp, 0), m1, f1, u1, Own(s1, 0), vm.mem, vm.free, used',
                Own(sp', 0));
      if ok {
        TopSize();
      } else {
        m1, f1, s1 := vm.mem, vm.free, sp';
        sp' := UnmapTop(vm, root, TRAMPOLINE, sp', used', 0, {TRAMPOLINE});
        StepTrans(old(vm.mem), old(vm.free), used, Own(sp, 0), m1, f1, used', Own(s1, 0), vm.mem, vm.free, used',
                  Own(sp', 0));
      }
    }
  }

  // The same; it takes two pages, for the tables both share.
  method MapBoth(vm: Vm, root: nat, tramp: nat, tf: nat, ghost sp: Space, ghost used: set<nat>)
    returns (ok: bool, ghost sp': Space, ghost used': set<nat>)
    requires UserOk(vm.mem, vm.free, used, sp, 0, {}) && root == sp.dirs[ROOT] && sp.dirs.Keys == {ROOT}
    modifies vm
    ensures UserOk(vm.mem, vm.free, used', sp', 0, if ok then FIXED else {}) && ROOT in sp'.dirs
    ensures sp'.dirs[ROOT] == root
    ensures ok ==> TRAPFRAME in sp'.leaf && PageOf(sp'.leaf[TRAPFRAME]) == tf && sp'.dirs.Keys == TopTables()
    ensures Step(old(vm.mem), old(vm.free), used, Own(sp, 0), vm.mem, vm.free, used', Own(sp', 0))
    ensures ok <==> |old(vm.free)| >= 2
  {
    hide UserOk, Step, Own, PageOf, TablesFor, TopTables;
    ok, sp', used' := PlaceBoth(vm, root, tramp, tf, sp, used);
    TopSize();
  }

  lemma EmptyCosts(m0: Memory, f0: seq<nat>, u0: set<nat>, m1: Memory, f1: seq<nat>, u1: set<nat>, sp: Space,
                   extra: set<nat>)
    requires Apart(m0, f0, u0) && UserOk(m1, f1, u1, sp, 0, extra) && Step(m0, f0, u0, {}, m1, f1, u1, Own(sp, 0))
    requires sp.dirs.Keys == TopTables()
    ensures |f1| == |f0| - 3
  {
    hide UserOk, Step, Own, Apart, TopTables;
    TopSize();
    MadeCounts(m0, f0, u0, m1, f1, u1, sp, 0, extra);
  }

  /** proc_pagetable: tramp is the frame of the trampoline code, tf the trapframe. It takes
      three pages; without them nothing has changed hands. */
  method ProcPagetable(vm: Vm, tramp: nat, tf: nat, ghost used: set<nat>)
    returns (ok: bool, root: nat, ghost sp: Space, ghost used': set<nat>)
    requires Apart(vm.mem, vm.free, used) && |vm.mem| <= NPAGES
    modifies vm
    ensures ok ==> UserOk(vm.mem, vm.free, used', sp, 0, FIXED) && ROOT in sp.dirs && sp.dirs[ROOT] == root
    ensures ok ==> TRAPFRAME in sp.leaf && PageOf(sp.leaf[TRAPFRAME]) == tf && sp.dirs.Keys == TopTables()
    ensures Apart(vm.mem, vm.free, used') && (!ok ==> used' == used)
    ensures Step(old(vm.mem), old(vm.free), used, {}, vm.mem, vm.free, used', if ok then Own(sp, 0) else {})
    ensures ok <==> |old(vm.free)| >= 3
  {
    hide UserOk, Step, Own, Tree, PageOf, Frames, Unmapped, Apart, FreeSet, TopTables, TablesFor;
    sp, used' := Space(map[], map[]), used;
    NothingDone(vm.mem, vm.free, used);
    ok, root := vm.KAlloc(used);
    if !ok {
      return;
    }
    vm.mem := vm.mem[root := Table(ZEROS)];
    ApartTable(old(vm.mem), vm.mem, vm.free, used + {root}, root);
    NewRoot(old(vm.mem), old(vm.free), used, root, vm.mem, vm.free);
    sp, used' := Space(map[ROOT := root], map[]), used + {root};
    ghost var m1, f1, u1, s1 := vm.mem, vm.free, used', sp;
    assert sp.dirs.Keys == {ROOT};
    ok, sp, used' := MapBoth(vm, root, tramp, tf, sp, used');
    StepTrans(old(vm.mem), old(vm.free), used, {}, m1, f1, u1, Own(s1, 0), vm.mem, vm.free, used', Own(sp, 0));
    if ok {
      SpaceOf(vm.mem, vm.free, used', sp, 0, FIXED);
      return;
    }
    m1, f1, u1 := vm.mem, vm.free, used';
    used' := UvmFree(vm, root, 0, sp, used');
    StepTrans(old(vm.mem), old(vm.free), used, {}, m1, f1, u1, Own(sp, 0), vm.mem, vm.free, used', {});
    StepGone(old(vm.mem), old(vm.free), used, {}, vm.mem, vm.free, used');
  }

  lemma NothingDone(mem: Memory, free: seq<nat>, used: set<nat>)
    ensures Step(mem, free, used, {}, mem, free, used, {})
  {
  }

  lemma ApartTable(m0: Memory, m1: Memory, free: seq<nat>, used: set<nat>, p: nat)
    requires p in m0 && m1 == m0[p := Table(ZEROS)] && Apart(m0[p := JUNK], free, used)
    ensures Apart(m1, free, used)
  {
  }

  /** proc_freepagetable: every page of the space goes back to the free list; the frames
      of the trampoline and the trapframe do not. */
  method ProcFreePagetable(vm: Vm, root: nat, sz: nat, ghost sp: Space,
                           ghost used: set<nat>) returns (ghost used': set<nat>)
    requires UserOk(vm.mem, vm.free, used, sp, Pages(sz), FIXED) && root == sp.dirs[ROOT]
    modifies vm
    ensures Apart(vm.mem, vm.free, used') && used' == used - Own(sp, Pages(sz))
    ensures Step(old(vm.mem), old(vm.free), used, Own(sp, Pages(sz)), vm.mem, vm.free, used', {})
  {
    hide UserOk, Step, Own, Unmapped, Apart;
    ghost var n := Pages(sz);
    assert FIXED - {TRAMPOLINE} == {TRAPFRAME} && {TRAPFRAME} - {TRAPFRAME} == {};
    ghost var s1 := UnmapTop(vm, root, TRAMPOLINE, sp, used, n, FIXED);
    ghost var m1, f1 := vm.mem, vm.free;
    ghost var s2 := UnmapTop(vm, root, TRAPFRAME, s1, used, n, {TRAPFRAME});
    StepTrans(old(vm.mem), old(vm.free), used, Own(sp, n), m1, f1, used, Own(s1, n), vm.mem, vm.free, used, Own(s2, n));
    m1, f1 := vm.mem, vm.free;
    used' := UvmFree(vm, root, sz, s2, used);
    StepTrans(old(vm.mem), old(vm.free), used, Own(sp, n), m1, f1, used, Own(s2, n), vm.mem, vm.free, used', {});
  }
}
