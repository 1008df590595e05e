/** growproc and exec as far as they allocate memory: exec builds the new image beside the
    old one and drops one of the two. */
module ExecImages {
  import opened Common
  import opened PageTable
  import opened Vm
  import opened PageFree
  import opened UserCopy
  import opened UserMemory
  import opened Uvm
  import opened ProcTable
  import opened PageOwners
  import opened ProcImages

  const PTE_W := 4

  /** A program header of type LOAD: whether it can be read, its fields, and whether loadseg can
      read the contents. */
  datatype Seg = Seg(read: bool, vaddr: nat, filesz: nat, memsz: nat, flags: nat, loads: bool)

  /** The checks of exec on a header. */
  predicate Fine(x: Seg) {
    x.read && x.filesz <= x.memsz && x.vaddr + x.memsz < 0x1_0000_0000_0000_0000 && x.vaddr % PGSIZE == 0
  }

  function End(x: Seg): (r: nat) {
    x.vaddr + x.memsz
  }

  /** flags2perm. */
  function Perm(flags: nat): (r: nat)
    ensures r in {0, 4, 8, 12}
  {
    (if flags % 2 == 1 then 8 else 0) + if flags / 2 % 2 == 1 then PTE_W else 0
  }

  predicate Executable(pte: nat) { pte / 8 % 2 == 1 }

  /** A page mapped with these flags is the user's, writable and executable as the header says. */
  lemma PermMeans(pte: nat, flags: nat)
    requires Flags(pte) == 2 + 16 + Perm(flags) + 1
    ensures UserPage(pte) && Valid(pte)
    ensures Writable(pte) <==> flags / 2 % 2 == 1
    ensures Executable(pte) <==> flags % 2 == 1
  {
    LowFlags(pte / 1024, Perm(flags));
    assert pte == pte / 1024 * 1024 + Flags(pte);
  }

  lemma LowFlags(q: nat, perm: nat)
    requires perm in {0, 4, 8, 12}
    ensures var pte := q * 1024 + 19 + perm;
            && pte % 2 == 1 && pte / 16 % 2 == 1
            && (pte / 4 % 2 == 1 <==> perm == 4 || perm == 12) && (pte / 8 % 2 == 1 <==> perm == 8 || perm == 12)
  {
    var pte := q * 1024 + 19 + perm;
    assert pte == (q * 64 + 1) * 16 + (3 + perm) && pte / 16 == q * 64 + 1;
    assert pte == (q * 256 + 4 + perm / 4) * 4 + 3 && pte / 4 == q * 256 + 4 + perm / 4;
    assert pte == (q * 128 + 2 + perm / 8) * 8 + (3 + perm % 8) && pte / 8 == q * 128 + 2 + perm / 8;
  }

  /** What growing or shrinking from sz to sz' does to the mapping: exactly the pages in between
      come, writable and filled with zero, or go. */
  ghost predicate Resized(mem: Memory, used: set<nat>, leaf: map<nat, nat>, leaf': map<nat, nat>, sz: nat, sz': nat,
                          zero: seq<byte>) {
    if Pages(sz) <= Pages(sz') then
      && Unmapped(leaf', Pages(sz), Pages(sz') - Pages(sz)) == leaf
      && Fresh(mem, used, leaf', Pages(sz), Pages(sz'), 2 + 16 + PTE_W + 1, zero)
    else leaf' == Unmapped(leaf, Pages(sz'), Pages(sz) - Pages(sz'))
  }

  // The calls of uvmalloc and uvmdealloc in growproc.
  method Resize(vm: Vm, root: nat, sz: nat, n: int, ghost sp: Space, ghost used: set<nat>)
    returns (ok: bool, sz': nat, ghost sp': Space, ghost used': set<nat>)
    requires UserOk(vm.mem, vm.free, used, sp, Pages(sz), FIXED) && root == sp.dirs[ROOT]
    requires -0x8000_0000 <= n < 0x8000_0000
    modifies vm
    ensures UserOk(vm.mem, vm.free, used', sp', Pages(sz'), FIXED) && ROOT in sp'.dirs && sp'.dirs[ROOT] == root
    ensures ok ==> sz' == if sz + n < 0 then sz else sz + n
    ensures !ok ==> n > 0 && sz' == sz && sp'.leaf == sp.leaf
    ensures ok <==> n <= 0 || |old(vm.free)| >= Need(sp.dirs.Keys, Pages(sz), Pages(sz + n))
    ensures Resized(vm.mem, used, sp.leaf, sp'.leaf, sz, sz', ZEROPAGE)
    ensures SameFrames(old(vm.mem), vm.mem, sp.leaf, if sz' < sz then Pages(sz') else Pages(sz))
    ensures Step(old(vm.mem), old(vm.free), used, Own(sp, Pages(sz)), vm.mem, vm.free, used', Own(sp', Pages(sz')))
  {
    hide UserOk, Step, Own, Frames, PageOf, SameFrames, Unmapped, Fresh, Pages, Need, Tabled;
    SmallMemory(vm.mem, vm.free, used, sp, Pages(sz), FIXED);
    Unchanged(vm.mem, vm.free, used, sp, Pages(sz), FIXED);
    NothingFresh(vm.mem, used, sp.leaf, Pages(sz), 2 + 16 + PTE_W + 1);
    sp', used', sz', ok := sp, used, sz, true;
    if n > 0 {
      var r, fits;
      r, fits, sp', used' := UvmAlloc(vm, root, sz, sz + n, PTE_W, sp, used, FIXED);
      ok := r != 0;
      sz' := if ok then r else sz;
    } else if n < 0 {
      var newsz := if sz + n < 0 then sz + n + 0x1_0000_0000_0000_0000 else sz + n;
      SmallSize(sz, n);
      sz', sp', used' := UvmDealloc(vm, root, sz, newsz, sp, used, FIXED);
      NothingGone(vm.mem, used, sp.leaf, sp'.leaf, sz, sz', ZEROPAGE);
    }
  }

  lemma NothingGone(mem: Memory, used: set<nat>, leaf: map<nat, nat>, leaf': map<nat, nat>, sz: nat, sz': nat,
                    zero: seq<byte>)
    requires Pages(sz') <= Pages(sz) && leaf' == Unmapped(leaf, Pages(sz'), Pages(sz) - Pages(sz'))
    ensures Resized(mem, used, leaf, leaf', sz, sz', zero)
  {
    hide Pages;
  }

  /** growproc(n): a size that would be negative wraps around and changes nothing. */
  method GrowImage(vm: Vm, root: nat, sz: nat, tf: nat, n: int, ghost sp: Space, ghost used: set<nat>)
    returns (ok: bool, sz': nat, ghost sp': Space, ghost used': set<nat>)
    requires ImageOk(vm.mem, vm.free, used, Image(root, sz, tf, sp)) && -0x8000_0000 <= n < 0x8000_0000
    modifies vm
    ensures Apart(vm.mem, vm.free, used') && ImageOk(vm.mem, vm.free, used', Image(root, sz', tf, sp'))
    ensures ok ==> sz' == if sz + n < 0 then sz else sz + n
    ensures !ok ==> n > 0 && sz' == sz && sp'.leaf == sp.leaf
    ensures ok <==> n <= 0 || |old(vm.free)| >= Need(sp.dirs.Keys, Pages(sz), Pages(sz + n))
    ensures Resized(vm.mem, used, sp.leaf, sp'.leaf, sz, sz', ZEROPAGE)
    ensures SameFrames(old(vm.mem), vm.mem, sp.leaf, if sz' < sz then Pages(sz') else Pages(sz))
    ensures Step(old(vm.mem), old(vm.free), used, Foot(Image(root, sz, tf, sp)), vm.mem, vm.free, used',
            Foot(Image(root, sz', tf, sp')))
  {
    hide UserOk, Step, Own, Frames, PageOf, Apart, SameFrames, Resized, Pages, Need;
    SmallMemory(vm.mem, vm.free, used, sp, Pages(sz), FIXED);
    ok, sz', sp', used' := Resize(vm, root, sz, n, sp, used);
    TrapframeKept(vm.mem, used, sp.leaf, sp'.leaf, sz, sz', ZEROPAGE);
    SpaceOf(vm.mem, vm.free, used', sp', Pages(sz'), FIXED);
    StepWith(old(vm.mem), old(vm.free), used, Own(sp, Pages(sz)), vm.mem, vm.free, used', Own(sp', Pages(sz')), {tf});
  }

  lemma TrapframeKept(mem: Memory, used: set<nat>, leaf: map<nat, nat>, leaf': map<nat, nat>, sz: nat, sz': nat,
                      zero: seq<byte>)
    requires Resized(mem, used, leaf, leaf', sz, sz', zero) && TRAPFRAME in leaf && Pages(sz) <= TRAPFRAME
    ensures TRAPFRAME in leaf' && leaf'[TRAPFRAME] == leaf[TRAPFRAME]
  {
    hide Pages, Unmapped, Fresh;
    if Pages(sz) <= Pages(sz') {
      TopKept2(leaf, leaf', Pages(sz), Pages(sz'));
    } else {
      TopKept3(leaf, leaf', Pages(sz'), Pages(sz));
    }
  }

  lemma SmallSize(sz: nat, n: int)
    requires Pages(sz) <= TRAPFRAME && -0x8000_0000 <= n < 0
    ensures sz + n < 0 ==> sz + n + 0x1_0000_0000_0000_0000 >= sz
  {
  }

  lemma TopKept2(leaf: map<nat, nat>, leaf': map<nat, nat>, k: nat, n: nat)
    requires k <= n && Unmapped(leaf', k, n - k) == leaf && TRAPFRAME in leaf
    ensures TRAPFRAME in leaf' && leaf'[TRAPFRAME] == leaf[TRAPFRAME]
  {
    assert TRAPFRAME in Unmapped(leaf', k, n - k);
  }

  lemma TopKept3(leaf: map<nat, nat>, leaf': map<nat, nat>, k: nat, n: nat)
    requires k <= n <= TRAPFRAME && Unmapped(leaf, k, n - k) == leaf' && TRAPFRAME in leaf
    ensures TRAPFRAME in leaf' && leaf'[TRAPFRAME] == leaf[TRAPFRAME]
  {
  }

  // The stack guard.

  lemma ClearUser(pte: nat)
    requires Flags(pte) == 2 + 16 + PTE_W + 1
    ensures UserPage(pte) && pte >= 16 && Valid(pte - 16) && PageOf(pte - 16) == PageOf(pte) && Flags(pte - 16) != 1
  {
    var q := pte / 1024;
    assert pte == q * 1024 + 23;
    ClearBit(q);
  }

  lemma ClearBit(q: nat)
    ensures (q * 1024 + 23) / 16 % 2 == 1 && (q * 1024 + 7) / 1024 == q && (q * 1024 + 7) % 1024 == 7
    ensures (q * 1024 + 7) % 2 == 1
  {
    UserBit(q);
    LowBits(q);
  }

  lemma UserBit(q: nat)
    ensures (q * 1024 + 23) / 16 % 2 == 1
  {
    assert q * 1024 + 23 == (q * 64 + 1) * 16 + 7;
    assert (q * 1024 + 23) / 16 == q * 64 + 1;
  }

  lemma LowBits(q: nat)
    ensures (q * 1024 + 7) / 1024 == q && (q * 1024 + 7) % 1024 == 7 && (q * 1024 + 7) % 2 == 1
  {
  }

  lemma ClearLayout(leaf: map<nat, nat>, n: nat, extra: set<nat>, v: nat, pte: nat)
    requires Layout(leaf, n, extra) && v < n && Flags(pte) != 1 && PageOf(pte) == PageOf(leaf[v])
    ensures Layout(leaf[v := pte], n, extra) && Frames(leaf[v := pte], 0, n) == Frames(leaf, 0, n)
  {
    hide Flags, PageOf;
    var leaf' := leaf[v := pte];
    assert forall w :: w in leaf ==> w in leaf' && PageOf(leaf'[w]) == PageOf(leaf[w]);
    assert forall w :: w in leaf' ==> w in leaf;
  }

  lemma InLayout(leaf: map<nat, nat>, n: nat, extra: set<nat>, v: nat)
    requires Layout(leaf, n, extra) && v < n
    ensures v in leaf
  {
  }

  lemma ClearFrames(mem: Memory, used: set<nat>, sp: Space, n: nat, v: nat, pte: nat)
    requires OwnFrames(used, sp, 0, n) && HoldBytes(mem, sp.leaf, n) && v < n && PageOf(pte) == PageOf(sp.leaf[v])
    ensures OwnFrames(used, sp.(leaf := sp.leaf[v := pte]), 0, n) && HoldBytes(mem, sp.leaf[v := pte], n)
  {
    hide PageOf;
  }

  lemma AfterTables(m1: Memory, f: seq<nat>, u: set<nat>, sp: Space, m2: Memory, sp2: Space, n: nat)
    requires Grown(m1, f, u, sp, m2, f, u, sp2, sp.dirs.Values) && u <= m1.Keys && HoldBytes(m1, sp2.leaf, n)
    requires OwnFrames(u, sp2, 0, n)
    requires sp2.dirs == sp.dirs
    ensures HoldBytes(m2, sp2.leaf, n) && |m2| == |m1|
  {
    SameSize(m1, m2);
    hide PageOf;
  }

  /** uvmclear of page v. */
  method UvmClear(vm: Vm, root: nat, v: nat, ghost sp: Space, ghost used: set<nat>, ghost n: nat, ghost extra: set<nat>)
    returns (ghost sp': Space)
    requires UserOk(vm.mem, vm.free, used, sp, n, extra) && root == sp.dirs[ROOT] && v < n
    requires Flags(sp.leaf[v]) == 2 + 16 + PTE_W + 1
    modifies vm
    ensures UserOk(vm.mem, vm.free, used, sp', n, extra) && sp' == sp.(leaf := sp.leaf[v := sp.leaf[v] - 16])
    ensures vm.free == old(vm.free)
    ensures Step(old(vm.mem), old(vm.free), used, Own(sp, n), vm.mem, vm.free, used, Own(sp', n))
  {
    hide Tree, PageOf, Flags, Layout, OwnFrames, HoldBytes, Grown, Frames, Step, Valid, UserPage;
    InLayout(sp.leaf, n, extra, v);
    ghost var pte0 := sp.leaf[v];
    ClearUser(pte0);
    ClearLayout(sp.leaf, n, extra, v, pte0 - 16);
    ClearFrames(vm.mem, used, sp, n, v, pte0 - 16);
    OwnUsed(vm.mem, vm.free, used, sp, n, extra);
    LeafTable(vm.mem, sp, v);
    LayoutBound(sp.leaf, n, extra);
    var found, pt, _, _ := vm.Walk(root, v, false, sp, used);
    ReadLeaf(vm.mem, sp, v);
    var pte := vm.mem[pt].ptes[v % ENTRIES];
    PutLeaf(vm.mem, vm.free, used, sp, v, if UserPage(pte) then pte - 16 else pte);
    ghost var m1 := vm.mem;
    vm.mem := SetEntry(vm.mem, pt, v % ENTRIES, if UserPage(pte) then pte - 16 else pte);
    sp' := WithLeaf(sp, v, pte0 - 16);
    AfterTables(m1, vm.free, used, sp, vm.mem, sp', n);
    GrownStep(m1, vm.free, used, sp, vm.mem, vm.free, used, sp', n);
  }

  /** A new image in the making, from nothing. */
  ghost predicate Making(m0: Memory, f0: seq<nat>, u0: set<nat>, mem: Memory, free: seq<nat>, used: set<nat>,
                         root: nat, sz: nat, tf: nat, sp: Space) {
    && UserOk(mem, free, used, sp, Pages(sz), FIXED) && ROOT in sp.dirs && sp.dirs[ROOT] == root
    && TRAPFRAME in sp.leaf && PageOf(sp.leaf[TRAPFRAME]) == tf
    && Step(m0, f0, u0, {}, mem, free, used, Own(sp, Pages(sz)))
  }

  // What exec is asked to build.

  /** Where the segments end. */
  function Top(segs: seq<Seg>): (r: nat) {
    if segs == [] then 0 else Max(Top(segs[..|segs| - 1]), End(segs[|segs| - 1]))
  }

  function Max(a: nat, b: nat): (r: nat) {
    if a < b then b else a
  }

  /** Every segment passes the checks and can be read; and uvmalloc does not take a first
      segment that ends at 0 for a failure. */
  predicate Loadable(segs: seq<Seg>) {
    (forall i :: 0 <= i < |segs| ==> Fine(segs[i]) && segs[i].loads) && (segs != [] ==> End(segs[0]) > 0)
  }

  /** Page v belongs to segment i: it lies above the ends of those before. */
  predicate SegPage(segs: seq<Seg>, i: nat, v: nat) {
    i < |segs| && Pages(Top(segs[..i])) <= v < Pages(End(segs[i]))
  }

  /** Every page of a segment is mapped for the user with the segment's permissions. */
  ghost predicate Loaded(segs: seq<Seg>, leaf: map<nat, nat>) {
    forall i: nat, v: nat :: SegPage(segs, i, v) ==> v in leaf && Flags(leaf[v]) == 2 + 16 + Perm(segs[i].flags) + 1
  }

  lemma {:induction false} TopOf(segs: seq<Seg>, i: nat)
    requires i <= |segs|
    ensures Top(segs[..i]) <= Top(segs) && (i > 0 ==> End(segs[0]) <= Top(segs[..i]))
    ensures i < |segs| ==> Top(segs[..i + 1]) == Max(Top(segs[..i]), End(segs[i]))
    decreases |segs| - i, i
  {
    if i < |segs| {
      assert segs[..i + 1][..i] == segs[..i];
      TopOf(segs, i + 1);
    } else {
      assert segs[..i] == segs;
    }
    if 0 < i {
      FirstEnd(segs[..i]);
    }
  }

  lemma {:induction false} FirstEnd(segs: seq<Seg>)
    requires segs != []
    ensures End(segs[0]) <= Top(segs)
  {
    if |segs| > 1 {
      FirstEnd(segs[..|segs| - 1]);
    }
  }

  /** Pages that stay, and the new ones of segment i. */
  lemma LoadedMore(segs: seq<Seg>, i: nat, leaf: map<nat, nat>, leaf': map<nat, nat>)
    requires i < |segs| && Loaded(segs[..i], leaf)
    requires forall v: nat :: v < Pages(Top(segs[..i])) && v in leaf ==> v in leaf' && leaf'[v] == leaf[v]
    requires forall v: nat :: Pages(Top(segs[..i])) <= v < Pages(End(segs[i])) ==>
               v in leaf' && Flags(leaf'[v]) == 2 + 16 + Perm(segs[i].flags) + 1
    ensures Loaded(segs[..i + 1], leaf')
  {
    hide Flags, Pages;
    forall j: nat, v: nat | SegPage(segs[..i + 1], j, v)
      ensures v in leaf' && Flags(leaf'[v]) == 2 + 16 + Perm(segs[j].flags) + 1
    {
      assert segs[..i + 1][..j] == segs[..j];
      if j < i {
        assert segs[..i][..j] == segs[..j];
        assert SegPage(segs[..i], j, v);
        EndsBelow(segs, j, i);
      }
    }
  }

  lemma EndsBelow(segs: seq<Seg>, j: nat, i: nat)
    requires j < i <= |segs|
    ensures Pages(End(segs[j])) <= Pages(Top(segs[..i]))
  {
    TopOf(segs[..i], j + 1);
    TopOf(segs, j);
    assert segs[..i][..j + 1] == segs[..j + 1];
    PagesGrow(End(segs[j]), Top(segs[..i]));
  }

  lemma LoadedKept(segs: seq<Seg>, leaf: map<nat, nat>, leaf': map<nat, nat>)
    requires Loaded(segs, leaf)
    requires forall v: nat :: v < Pages(Top(segs)) && v in leaf ==> v in leaf' && leaf'[v] == leaf[v]
    ensures Loaded(segs, leaf')
  {
    hide Flags, Pages;
    forall j: nat, v: nat | SegPage(segs, j, v)
      ensures v in leaf' && Flags(leaf'[v]) == 2 + 16 + Perm(segs[j].flags) + 1
    {
      assert segs[..|segs|] == segs;
      EndsBelow(segs, j, |segs|);
    }
  }

  lemma LoadedNothing(leaf: map<nat, nat>)
    ensures Loaded([], leaf)
  {
  }

  /** uvmalloc on an image in the making; 0 means failure, also when nothing was asked. */
  method Enlarge(vm: Vm, root: nat, sz: nat, newsz: nat, xperm: nat, ghost tf: nat, ghost sp: Space,
                 ghost used: set<nat>,
                 ghost m0: Memory, ghost f0: seq<nat>, ghost u0: set<nat>)
    returns (r: nat, sz': nat, ghost sp': Space, ghost used': set<nat>)
    requires Making(m0, f0, u0, vm.mem, vm.free, used, root, sz, tf, sp) && xperm in {0, 4, 8, 12}
    modifies vm
    ensures sz' == (if r == 0 then sz else r) && Pages(sz) <= Pages(sz')
    ensures Making(m0, f0, u0, vm.mem, vm.free, used', root, sz', tf, sp')
    ensures r == 0 <==> (sz == 0 && newsz == 0) || |old(vm.free)| < Need(sp.dirs.Keys, Pages(sz), Pages(newsz))
    ensures r != 0 ==> r == Max(sz, newsz) && Tabled(sp.dirs.Keys, Pages(sz), Pages(sz'), sp'.dirs.Keys)
    ensures forall v: nat :: v < Pages(sz) && v in sp.leaf ==> v in sp'.leaf && sp'.leaf[v] == sp.leaf[v]
    ensures r != 0 ==> forall v: nat :: Pages(sz) <= v < Pages(newsz) ==>
              v in sp'.leaf && Flags(sp'.leaf[v]) == 2 + 16 + xperm + 1
  {
    hide UserOk, Step, Own, Frames, PageOf, SameFrames, Unmapped, Flags, Need, Tabled, Fresh, Pages;
    var fits;
    r, fits, sp', used' := UvmAlloc(vm, root, sz, newsz, xperm, sp, used, FIXED);
    sz' := if r == 0 then sz else r;
    if r == 0 {
      SameEnd(sz, newsz, fits);
    }
    TopKept2(sp.leaf, sp'.leaf, Pages(sz), Pages(sz'));
    StepTrans(m0, f0, u0, {}, old(vm.mem), old(vm.free), used, Own(sp, Pages(sz)), vm.mem, vm.free, used',
              Own(sp', Pages(sz')));
    BelowKept(sp.leaf, sp'.leaf, Pages(sz), Pages(sz'));
    if r != 0 {
      NewPages(vm.mem, vm.free, used', sp', used, sz, newsz, xperm);
    }
  }

  lemma BelowKept(leaf: map<nat, nat>, leaf': map<nat, nat>, k: nat, n: nat)
    requires k <= n && Unmapped(leaf', k, n - k) == leaf
    ensures forall v: nat :: v < k && v in leaf ==> v in leaf' && leaf'[v] == leaf[v]
  {
  }

  lemma NewPages(mem: Memory, free: seq<nat>, used': set<nat>, sp: Space, used: set<nat>, sz: nat, newsz: nat,
                 xperm: nat)
    requires UserOk(mem, free, used', sp, Pages(Max(sz, newsz)), FIXED)
    requires Fresh(mem, used, sp.leaf, Pages(sz), Pages(Max(sz, newsz)), 2 + 16 + xperm + 1, ZEROPAGE)
    ensures forall v: nat :: Pages(sz) <= v < Pages(newsz) ==>
              v in sp.leaf && Flags(sp.leaf[v]) == 2 + 16 + xperm + 1
  {
    hide Flags, PageOf, SpaceOk, OwnFrames, HoldBytes, Pages;
    PagesGrow(newsz, Max(sz, newsz));
  }

  lemma SameEnd(sz: nat, newsz: nat, fits: bool)
    requires fits ==> (if newsz < sz then sz else newsz) == 0
    ensures fits ==> sz == 0 && newsz == 0
  {
  }

  /** An image in the making of sz bytes, with the tables for its pages and no others. */
  ghost predicate Neat(sp: Space, sz: nat) {
    Tabled(TopTables(), 0, Pages(sz), sp.dirs.Keys)
  }

  lemma NeatMore(sp: Space, sz: nat, sp': Space, sz': nat)
    requires Neat(sp, sz) && Pages(sz) <= Pages(sz') && Tabled(sp.dirs.Keys, Pages(sz), Pages(sz'), sp'.dirs.Keys)
    ensures Neat(sp', sz')
  {
    hide Pages, TopTables;
    TablesSplit(0, Pages(sz), Pages(sz'));
  }

  /** If there are too few pages to get to n, there were too few for three and these. */
  lemma TooFewFor(m0: Memory, f0: seq<nat>, u0: set<nat>, mem: Memory, free: seq<nat>, used: set<nat>, root: nat,
                  sz: nat, tf: nat, sp: Space, n: nat)
    requires Apart(m0, f0, u0) && Making(m0, f0, u0, mem, free, used, root, sz, tf, sp) && Neat(sp, sz)
    requires |free| < Need(sp.dirs.Keys, Pages(sz), n)
    ensures |f0| < 3 + UserNeed(n)
  {
    hide UserOk, Step, Own, Apart, PageOf, Pages, TopTables;
    var k, keys := Pages(sz), sp.dirs.Keys;
    MadeCounts(m0, f0, u0, mem, free, used, sp, k, FIXED);
    NeedExact(keys, k, n, keys + TablesOf(k, n));
    TablesSplit(0, k, n);
    assert keys + TablesOf(k, n) == TopTables() + TablesOf(0, n);
    TopSize();
    TablesCount(n);
    assert |TopTables() + TablesOf(0, n)| <= |TopTables()| + |TablesOf(0, n)|;
  }

  lemma CostOf(m0: Memory, f0: seq<nat>, u0: set<nat>, mem: Memory, free: seq<nat>, used: set<nat>, root: nat,
               sz: nat, tf: nat, sp: Space)
    requires Apart(m0, f0, u0) && Making(m0, f0, u0, mem, free, used, root, sz, tf, sp) && Neat(sp, sz)
    ensures |f0| >= 3 + UserNeed(Pages(sz))
  {
    hide UserOk, Step, Own, Apart, PageOf, Pages, TopTables, TablesOf, TableTotal;
    var n := Pages(sz);
    MadeCounts(m0, f0, u0, mem, free, used, sp, n, FIXED);
    RoomToGrow(mem, free, used, sp, n, FIXED);
    TopSize();
    TablesCount(n);
    TopApart(n);
    MoreKeys(TopTables(), TablesOf(0, n), sp.dirs.Keys);
  }

  /** The program's segments, until one fails. */
  method BuildSegments(vm: Vm, root: nat, ghost tf: nat, segs: seq<Seg>, ghost sp: Space, ghost used: set<nat>,
                       ghost m0: Memory, ghost f0: seq<nat>, ghost u0: set<nat>)
    returns (ok: bool, sz: nat, ghost sp': Space, ghost used': set<nat>)
    requires Apart(m0, f0, u0) && Making(m0, f0, u0, vm.mem, vm.free, used, root, 0, tf, sp) && Neat(sp, 0)
    modifies vm
    ensures Making(m0, f0, u0, vm.mem, vm.free, used', root, sz, tf, sp')
    ensures ok ==> sz == Top(segs) && Loaded(segs, sp'.leaf) && Neat(sp', sz) && Loadable(segs)
    ensures !ok ==> !Loadable(segs) || |f0| < 3 + UserNeed(Pages(Top(segs)))
  {
    hide UserOk, Step, Own, Frames, PageOf, Apart, Making, Flags, Pages, Need, Tabled, Neat, UserNeed, Top, Loaded;
    sz, sp', used', ok := 0, sp, used, true;
    LoadedNothing(sp.leaf);
    var i := 0;
    assert segs[..0] == [] && Top([]) == 0 by { TopOf([], 0); TopNothing(); }
    while i < |segs| && ok
      invariant 0 <= i <= |segs| && Making(m0, f0, u0, vm.mem, vm.free, used', root, sz, tf, sp')
      invariant ok ==> sz == Top(segs[..i]) && Loaded(segs[..i], sp'.leaf) && Neat(sp', sz)
      invariant ok ==> (forall j :: 0 <= j < i ==> Fine(segs[j]) && segs[j].loads) && (i > 0 ==> End(segs[0]) > 0)
      invariant !ok ==> !Loadable(segs) || |f0| < 3 + UserNeed(Pages(Top(segs)))
      decreases |segs| - i, ok
    {
      if !Fine(segs[i]) {
        ok := false;
      } else {
        TopOf(segs, i);
        TopOf(segs, i + 1);
        ghost var m1, f1, u1, s1, z1 := vm.mem, vm.free, used', sp', sz;
        var r;
        r, sz, sp', used' := Enlarge(vm, root, sz, End(segs[i]), Perm(segs[i].flags), tf, sp', used', m0, f0, u0);
        if r == 0 {
          FailedAt(m0, f0, u0, m1, f1, u1, root, z1, tf, s1, segs, i);
        } else {
          NeatMore(s1, z1, sp', sz);
          LoadedMore(segs, i, s1.leaf, sp'.leaf);
        }
        ok := r != 0 && segs[i].loads;
        i := i + 1;
      }
    }
    assert ok ==> segs[..i] == segs;
  }

  lemma TopNothing()
    ensures Top([]) == 0
  {
  }

  lemma FailedAt(m0: Memory, f0: seq<nat>, u0: set<nat>, mem: Memory, free: seq<nat>, used: set<nat>, root: nat,
                 sz: nat, tf: nat, sp: Space, segs: seq<Seg>, i: nat)
    requires Apart(m0, f0, u0) && Making(m0, f0, u0, mem, free, used, root, sz, tf, sp) && Neat(sp, sz)
    requires i < |segs| && sz == Top(segs[..i])
    requires (sz == 0 && End(segs[i]) == 0) || |free| < Need(sp.dirs.Keys, Pages(sz), Pages(End(segs[i])))
    ensures !Loadable(segs) || |f0| < 3 + UserNeed(Pages(Top(segs)))
  {
    hide UserOk, Step, Own, Apart, Making, Neat, Need, Pages, UserNeed;
    TopOf(segs, i);
    TopOf(segs, i + 1);
    if |free| < Need(sp.dirs.Keys, Pages(sz), Pages(End(segs[i]))) {
      TooFewFor(m0, f0, u0, mem, free, used, root, sz, tf, sp, Pages(End(segs[i])));
      PagesGrow(End(segs[i]), Top(segs));
      NeedGrows(Pages(End(segs[i])), Pages(Top(segs)));
    }
  }

  // The arguments on the stack.

  const MAXARG := 32

  function Round16(n: nat): (r: nat) {
    (n + 15) / 16 * 16
  }

  /** The room that strings of these lengths take, each with its NUL and aligned. */
  function ArgBytes(lens: seq<nat>): (r: nat) {
    if lens == [] then 0 else ArgBytes(lens[..|lens| - 1]) + Round16(lens[|lens| - 1] + 1)
  }

  /** The strings and the array of pointers to them fit the stack page. */
  predicate ArgsFit(lens: seq<nat>) {
    |lens| <= MAXARG && ArgBytes(lens) + Round16((|lens| + 1) * 8) <= PGSIZE
  }

  predicate Is16(x: int) {
    x % 16 == 0
  }

  /** String k lies below the one before it, or below sz, and is aligned. */
  ghost predicate InPlace(sz: nat, lens: seq<nat>, at: seq<int>, k: nat)
    requires k < |at| <= |lens|
  {
    Is16(at[k]) && at[k] + lens[k] + 1 <= if k == 0 then sz else at[k - 1]
  }

  ghost predicate Strings(sz: nat, lens: seq<nat>, at: seq<int>) {
    |at| <= |lens| && forall k: nat :: k < |at| ==> InPlace(sz, lens, at, k)
  }

  function Lowest(sz: nat, at: seq<int>): (r: int) {
    if at == [] then sz else at[|at| - 1]
  }

  /** On the stack page are the strings, and below them at sp the pointers. */
  ghost predicate Pushed(sz: nat, lens: seq<nat>, at: seq<int>, sp: int) {
    |at| == |lens| && Strings(sz, lens, at) && Is16(sp) && sz - PGSIZE <= sp <= Lowest(sz, at) - (|at| + 1) * 8
  }

  /** The stack pointer after room for n bytes, aligned. */
  function Push(sp: int, n: nat): (r: int) {
    (sp - n) - (sp - n) % 16
  }

  lemma PushIs(sp: int, n: nat)
    requires Is16(sp)
    ensures Is16(Push(sp, n)) && Push(sp, n) == sp - Round16(n) <= sp - n
  {
    var q := sp / 16;
    assert sp == 16 * q;
  }

  lemma {:induction false} ArgBytesMore(lens: seq<nat>, k: nat)
    requires k < |lens|
    ensures ArgBytes(lens[..k + 1]) == ArgBytes(lens[..k]) + Round16(lens[k] + 1) <= ArgBytes(lens)
    ensures k + 1 <= |lens|
    decreases |lens|
  {
    assert lens[..k + 1][..k] == lens[..k];
    if k + 1 < |lens| {
      var init := lens[..|lens| - 1];
      ArgBytesMore(init, k);
      assert init[..k + 1] == lens[..k + 1];
    } else {
      assert lens[..k + 1] == lens;
    }
  }

  /** Pushing the argument strings, of these lengths, and the pointers to them onto the stack
      page that ends at sz; at are the addresses of the strings. */
  method PushArgs(sz: nat, lens: seq<nat>) returns (ok: bool, at: seq<int>, sp: int)
    requires sz % PGSIZE == 0
    ensures ok <==> ArgsFit(lens)
    ensures ok ==> Pushed(sz, lens, at, sp)
  {
    hide Round16, Push, Is16, ArgBytes;
    sp, at := sz, [];
    PageAligned(sz);
    var base := sz - PGSIZE;
    while |at| < |lens|
      invariant |at| <= MAXARG && base <= sp && Is16(sp) && Strings(sz, lens, at) && sp == Lowest(sz, at)
      invariant sp == sz - ArgBytes(lens[..|at|])
    {
      var n := |at|;
      ArgBytesMore(lens, n);
      if n >= MAXARG {
        return false, at, sp;
      }
      PushIs(sp, lens[n] + 1);
      sp := Push(sp, lens[n] + 1);
      if sp < base {
        return false, at, sp;
      }
      StringsMore(sz, lens, at, sp);
      at := at + [sp];
    }
    assert lens[..|at|] == lens;
    PushIs(sp, (|at| + 1) * 8);
    sp := Push(sp, (|at| + 1) * 8);
    ok := sp >= base;
  }

  lemma StringsMore(sz: nat, lens: seq<nat>, at: seq<int>, sp: int)
    requires Strings(sz, lens, at) && |at| < |lens| && Is16(sp) && sp + lens[|at|] + 1 <= Lowest(sz, at)
    ensures Strings(sz, lens, at + [sp]) && Lowest(sz, at + [sp]) == sp
  {
    var at' := at + [sp];
    forall k: nat | k < |at'|
      ensures InPlace(sz, lens, at', k)
    {
      if k < |at| {
        assert InPlace(sz, lens, at, k);
      } else if k == 0 {
        assert at == [];
      } else {
        assert Lowest(sz, at) == at[k - 1];
      }
    }
  }

  lemma PageAligned(sz: nat)
    requires sz % PGSIZE == 0
    ensures Is16(sz) && ArgBytes([]) == 0
  {
    assert sz == 16 * (sz / PGSIZE * 256);
  }

  /** The memory part of exec up to the point of no return: the program's segments, two
      pages for the stack and its guard, and the arguments; or nothing at all. */
  method BuildImage(vm: Vm, tramp: nat, tf: nat, segs: seq<Seg>, lens: seq<nat>, ghost used: set<nat>)
    returns (ok: bool, root: nat, sz: nat, at: seq<int>, stack: int, ghost sp: Space, ghost used': set<nat>)
    requires Apart(vm.mem, vm.free, used) && |vm.mem| <= NPAGES
    modifies vm
    ensures Apart(vm.mem, vm.free, used') && (!ok ==> used' == used)
    ensures ok ==> Making(old(vm.mem), old(vm.free), used, vm.mem, vm.free, used', root, sz, tf, sp)
    ensures !ok ==> Step(old(vm.mem), old(vm.free), used, {}, vm.mem, vm.free, used', {})
    ensures ok ==> sz == Pages(Top(segs)) * PGSIZE + 2 * PGSIZE && Loaded(segs, sp.leaf) && Stacked(sp.leaf, Top(segs))
    ensures ok ==> Pushed(sz, lens, at, stack)
    ensures ok <==> Loadable(segs) && ArgsFit(lens) && |old(vm.free)| >= 3 + UserNeed(Pages(Top(segs)) + 2)
  {
    hide UserOk, Step, Own, Frames, PageOf, Apart, Making, Flags, Pages, Top, Loaded, Stacked, Neat, UserNeed,
         TopTables, ArgsFit, Pushed;
    ghost var m0, f0 := vm.mem, vm.free;
    sz, at, stack := 0, [], 0;
    PagesOfNothing();
    NeedGrows(Pages(Top(segs)), Pages(Top(segs)) + 2);
    ok, root, sp, used' := ProcPagetable(vm, tramp, tf, used);
    if !ok {
      return;
    }
    StartMaking(m0, f0, used, vm.mem, vm.free, used', root, tf, sp);
    ok, sz, sp, used' := BuildSegments(vm, root, tf, segs, sp, used', m0, f0, used);
    if ok {
      ghost var leaf := sp.leaf;
      ok, sz, sp, used' := BuildStack(vm, root, sz, tf, sp, used', m0, f0, used);
      if ok {
        LoadedKept(segs, leaf, sp.leaf);
        ok, at, stack := PushArgs(sz, lens);
      }
    }
    if ok {
      MadeApart(m0, f0, used, vm.mem, vm.free, used', root, sz, tf, sp);
      return;
    }
    Unmake(m0, f0, used, vm.mem, vm.free, used', root, sz, tf, sp);
    ghost var m1, f1, u1 := vm.mem, vm.free, used';
    used' := ProcFreePagetable(vm, root, sz, sp, used');
    StepTrans(m0, f0, used, {}, m1, f1, u1, Own(sp, Pages(sz)), vm.mem, vm.free, used', {});
    StepGone(m0, f0, used, {}, vm.mem, vm.free, used');
  }

  lemma StartMaking(m0: Memory, f0: seq<nat>, u0: set<nat>, mem: Memory, free: seq<nat>, used: set<nat>, root: nat,
                    tf: nat, sp: Space)
    requires UserOk(mem, free, used, sp, 0, FIXED) && ROOT in sp.dirs && sp.dirs[ROOT] == root
    requires TRAPFRAME in sp.leaf && PageOf(sp.leaf[TRAPFRAME]) == tf
    requires Step(m0, f0, u0, {}, mem, free, used, Own(sp, 0)) && sp.dirs.Keys == TopTables()
    ensures Making(m0, f0, u0, mem, free, used, root, 0, tf, sp) && Neat(sp, 0)
  {
    hide UserOk, Step;
  }

  lemma MadeApart(m0: Memory, f0: seq<nat>, u0: set<nat>, mem: Memory, free: seq<nat>, used: set<nat>, root: nat,
                  sz: nat, tf: nat, sp: Space)
    requires Making(m0, f0, u0, mem, free, used, root, sz, tf, sp)
    ensures Apart(mem, free, used)
  {
    SpaceOf(mem, free, used, sp, Pages(sz), FIXED);
  }

  lemma Unmake(m0: Memory, f0: seq<nat>, u0: set<nat>, mem: Memory, free: seq<nat>, used: set<nat>, root: nat, sz: nat,
               tf: nat, sp: Space)
    requires Making(m0, f0, u0, mem, free, used, root, sz, tf, sp)
    ensures UserOk(mem, free, used, sp, Pages(sz), FIXED) && ROOT in sp.dirs && sp.dirs[ROOT] == root
    ensures Step(m0, f0, u0, {}, mem, free, used, Own(sp, Pages(sz)))
  {
  }

  /** Above the segments: a page out of the user's reach, and the stack, which is writable. */
  ghost predicate Stacked(leaf: map<nat, nat>, top: nat) {
    && Pages(top) in leaf && !UserPage(leaf[Pages(top)])
    && Pages(top) + 1 in leaf && Flags(leaf[Pages(top) + 1]) == 2 + 16 + PTE_W + 1
  }

  /** Two pages at the next page boundary, the first of them out of the user's reach. */
  method BuildStack(vm: Vm, root: nat, sz: nat, ghost tf: nat, ghost sp: Space, ghost used: set<nat>,
                    ghost m0: Memory, ghost f0: seq<nat>, ghost u0: set<nat>)
    returns (ok: bool, sz': nat, ghost sp': Space, ghost used': set<nat>)
    requires Apart(m0, f0, u0) && Making(m0, f0, u0, vm.mem, vm.free, used, root, sz, tf, sp) && Neat(sp, sz)
    modifies vm
    ensures Making(m0, f0, u0, vm.mem, vm.free, used', root, sz', tf, sp')
    ensures ok ==> sz' == Pages(sz) * PGSIZE + 2 * PGSIZE && Pages(sz') == Pages(sz) + 2 && Stacked(sp'.leaf, sz)
    ensures forall v: nat :: v < Pages(sz) && v in sp.leaf ==> v in sp'.leaf && sp'.leaf[v] == sp.leaf[v]
    ensures ok <==> |f0| >= 3 + UserNeed(Pages(sz) + 2)
  {
    hide UserOk, Step, Own, Frames, PageOf, Flags, Apart, Neat, UserNeed, Need, Tabled, UserPage, Pages;
    var up := Pages(sz) * PGSIZE;
    RoundedUp(sz);
    SameNeat(sp, sz, up);
    ghost var m1, f1, s1 := vm.mem, vm.free, sp;
    var r;
    r, sz', sp', used' := Enlarge(vm, root, up, up + 2 * PGSIZE, PTE_W, tf, sp, used, m0, f0, u0);
    ok := r != 0;
    if ok {
      NeatMore(sp, up, sp', sz');
      CostOf(m0, f0, u0, vm.mem, vm.free, used', root, sz', tf, sp');
      m1, f1, s1 := vm.mem, vm.free, sp';
      Guarded(vm.mem, vm.free, used', sp', Pages(sz'), FIXED, Pages(sz));
      sp' := UvmClear(vm, root, Pages(sz), sp', used', Pages(sz'), FIXED);
      StepTrans(m0, f0, u0, {}, m1, f1, used', Own(s1, Pages(sz')), vm.mem, vm.free, used', Own(sp', Pages(sz')));
      ClearUserBit(s1.leaf[Pages(sz)]);
    } else {
      TooFewFor(m0, f0, u0, m1, f1, used, root, up, tf, sp, Pages(up + 2 * PGSIZE));
    }
  }

  lemma SameNeat(sp: Space, sz: nat, up: nat)
    requires Neat(sp, sz) && Pages(up) == Pages(sz)
    ensures Neat(sp, up)
  {
  }

  lemma Guarded(mem: Memory, free: seq<nat>, used: set<nat>, sp: Space, n: nat, extra: set<nat>, v: nat)
    requires UserOk(mem, free, used, sp, n, extra) && v < n
    ensures v in sp.leaf && v < TRAPFRAME
  {
  }

  lemma ClearUserBit(pte: nat)
    requires Flags(pte) == 2 + 16 + PTE_W + 1
    ensures pte >= 16 && !UserPage(pte - 16)
  {
    var q := pte / 1024;
    assert pte == q * 1024 + 23;
    assert (q * 1024 + 7) / 16 == q * 64;
  }

  lemma RoundedUp(sz: nat)
    ensures Pages(Pages(sz) * PGSIZE) == Pages(sz) && Pages(Pages(sz) * PGSIZE + 2 * PGSIZE) == Pages(sz) + 2
  {
  }
}
