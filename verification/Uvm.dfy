/** The user side of kernel/vm.c and the page-table part of kernel/proc.c, with every way
    they can fail for lack of memory. Sizes are in bytes. */
module Uvm {
  import opened Common
  import opened PageTable
  import opened Vm
  import opened PageFree
  import opened UserCopy
  import opened UserMemory

  const ZEROPAGE: seq<byte> := seq(PGSIZE, _ => 0)
  const FIXED: set<nat> := {TRAPFRAME, TRAMPOLINE}

  /** uvmdealloc: down to newsz, unless that is not less. */
  method UvmDealloc(vm: Vm, root: nat, oldsz: nat, newsz: nat, ghost sp: Space, ghost used: set<nat>,
                    ghost extra: set<nat>)
    returns (sz: nat, ghost sp': Space, ghost used': set<nat>)
    requires UserOk(vm.mem, vm.free, used, sp, Pages(oldsz), extra) && root == sp.dirs[ROOT]
    modifies vm
    ensures sz == if newsz < oldsz then newsz else oldsz
    ensures UserOk(vm.mem, vm.free, used', sp', Pages(sz), extra) && sp'.dirs == sp.dirs
    ensures Pages(sz) <= Pages(oldsz) && sp'.leaf == Unmapped(sp.leaf, Pages(sz), Pages(oldsz) - Pages(sz))
    ensures SameFrames(old(vm.mem), vm.mem, sp.leaf, Pages(sz))
    ensures Step(old(vm.mem), old(vm.free), used, Own(sp, Pages(oldsz)), vm.mem, vm.free, used', Own(sp', Pages(sz)))
  {
    hide UserOk, Step, SameFrames, Own, Frames, Unmapped;
    sp', used', sz := sp, used, oldsz;
    Unchanged(vm.mem, vm.free, used, sp, Pages(oldsz), extra);
    if newsz >= oldsz {
      return;
    }
    sz := newsz;
    if Pages(newsz) < Pages(oldsz) {
      sp', used' := DropPages(vm, root, Pages(newsz), Pages(oldsz), sp, used, extra);
    }
  }

  lemma Unchanged(mem: Memory, free: seq<nat>, used: set<nat>, sp: Space, n: nat, extra: set<nat>)
    requires UserOk(mem, free, used, sp, n, extra)
    ensures Unmapped(sp.leaf, n, 0) == sp.leaf && SameFrames(mem, mem, sp.leaf, n)
    ensures Step(mem, free, used, Own(sp, n), mem, free, used, Own(sp, n)) && ROOT in sp.dirs
  {
    OwnUsed(mem, free, used, sp, n, extra);
  }

  /** The pages from k up to n are new: frames not in use before, with these flags and
      contents. */
  ghost predicate Fresh(mem: Memory, used: set<nat>, leaf: map<nat, nat>, k: nat, n: nat, flags: nat,
                        content: seq<byte>) {
    forall v :: k <= v < n && v in leaf ==>
      PageOf(leaf[v]) !in used && Flags(leaf[v]) == flags && PageOf(leaf[v]) in mem &&
        mem[PageOf(leaf[v])] == Bytes(content)
  }

  lemma FreshMore(m0: Memory, m1: Memory, used: set<nat>, leaf: map<nat, nat>, k: nat, n: nat, flags: nat,
                  content: seq<byte>, pte: nat)
    requires Fresh(m0, used, leaf, k, n, flags, content) && SameFrames(m0, m1, leaf, n)
    requires PageOf(pte) !in used && Flags(pte) == flags && PageOf(pte) in m1 && m1[PageOf(pte)] == Bytes(content)
    ensures Fresh(m1, used, leaf[n := pte], k, n + 1, flags, content)
  {
    hide PageOf, Flags;
  }

  lemma RollBack(leaf: map<nat, nat>, k: nat, n: nat, pte: nat)
    requires k <= n && n !in leaf
    ensures Unmapped(leaf[n := pte], k, n + 1 - k) == Unmapped(leaf, k, n - k)
  {
  }

  lemma SameBelowK(m0: Memory, m1: Memory, leaf: map<nat, nat>, leaf': map<nat, nat>, k: nat, n: nat)
    requires SameFrames(m0, m1, leaf', n) && k <= n && Unmapped(leaf', k, n - k) == leaf
    ensures SameFrames(m0, m1, leaf, k)
  {
    hide PageOf;
    assert forall v :: v in leaf ==> v in leaf' && leaf'[v] == leaf[v];
  }

  lemma NotMapped(mem: Memory, free: seq<nat>, used: set<nat>, sp: Space, n: nat, extra: set<nat>)
    requires UserOk(mem, free, used, sp, n, extra)
    ensures n !in sp.leaf && n < TRAPFRAME
  {
    RoomToGrow(mem, free, used, sp, n, extra);
  }

  /** uvmalloc: grows from oldsz to newsz with zeroed pages. If memory runs out, the
      mapping is the old one again. */
  method UvmAlloc(vm: Vm, root: nat, oldsz: nat, newsz: nat, xperm: nat, ghost sp: Space, ghost used: set<nat>,
                  ghost extra: set<nat>)
    returns (sz: nat, ok: bool, ghost sp': Space, ghost used': set<nat>)
    requires UserOk(vm.mem, vm.free, used, sp, Pages(oldsz), extra) && root == sp.dirs[ROOT] && xperm in {0, 4, 8, 12}
    modifies vm
    ensures ok ==> sz == if newsz < oldsz then oldsz else newsz
    ensures !ok ==> sz == 0 && sp'.leaf == sp.leaf && oldsz < newsz
    ensures var n := if ok then Pages(sz) else Pages(oldsz);
            && UserOk(vm.mem, vm.free, used', sp', n, extra) && ROOT in sp'.dirs && sp'.dirs[ROOT] == root
            && Pages(oldsz) <= n && Unmapped(sp'.leaf, Pages(oldsz), n - Pages(oldsz)) == sp.leaf
            && Fresh(vm.mem, used, sp'.leaf, Pages(oldsz), n, 2 + 16 + xperm + 1, ZEROPAGE)
            && Step(old(vm.mem), old(vm.free), used, Own(sp, Pages(oldsz)), vm.mem, vm.free, used', Own(sp', n))
    ensures SameFrames(old(vm.mem), vm.mem, sp.leaf, Pages(oldsz))
    ensures ok ==> Tabled(sp.dirs.Keys, Pages(oldsz), Pages(sz), sp'.dirs.Keys)
    ensures ok <==> |old(vm.free)| >= Need(sp.dirs.Keys, Pages(oldsz), Pages(newsz))
  {
    hide UserOk, Step, SameFrames, Own, Frames, Unmapped, Fresh, MakePte, PageOf, Flags, TablesFor, Tabled,
         Need, Pages;
    sp', used', ok, sz := sp, used, true, oldsz;
    NoNeed(sp.dirs.Keys, oldsz, newsz);
    TabledMore(sp.dirs.Keys, Pages(oldsz), 0, {});
    var k := Pages(oldsz);
    Unchanged(vm.mem, vm.free, used, sp, k, extra);
    NothingFresh(vm.mem, used, sp.leaf, k, 2 + 16 + xperm + 1);
    if newsz < oldsz {
      return;
    }
    var a := k;
    PagesGrow(oldsz, newsz);
    while a * PGSIZE < newsz
      invariant k <= a <= Pages(newsz) && UserOk(vm.mem, vm.free, used', sp', a, extra) && ROOT in sp'.dirs
      invariant sp'.dirs[ROOT] == root
      invariant Unmapped(sp'.leaf, k, a - k) == sp.leaf && SameFrames(old(vm.mem), vm.mem, sp.leaf, k)
      invariant Fresh(vm.mem, used, sp'.leaf, k, a, 2 + 16 + xperm + 1, ZEROPAGE)
      invariant Step(old(vm.mem), old(vm.free), used, Own(sp, k), vm.mem, vm.free, used', Own(sp', a))
      invariant used <= used' && Tabled(sp.dirs.Keys, k, a, sp'.dirs.Keys)
      decreases newsz - a * PGSIZE
    {
      PagesReach(a, newsz);
      NotMapped(vm.mem, vm.free, used', sp', a, extra);
      ghost var m1, f1, u1, s1 := vm.mem, vm.free, used', sp';
      ghost var p;
      TooFew(old(vm.mem), old(vm.free), used, sp, k, extra, m1, f1, u1, s1, a, Pages(newsz));
      TabledMore(sp.dirs.Keys, k, a, s1.dirs.Keys);
      ok, sp', used', p := AddPage(vm, root, a, ZEROPAGE, 2 + 16 + xperm, sp', used', extra);
      ghost var n := if ok then a + 1 else a;
      StepTrans(old(vm.mem), old(vm.free), used, Own(sp, k), m1, f1, u1, Own(s1, a), vm.mem, vm.free, used',
                Own(sp', n));
      SameBelowK(m1, vm.mem, sp.leaf, s1.leaf, k, a);
      SameFramesTrans(old(vm.mem), m1, vm.mem, sp.leaf, k);
      if !ok {
        ghost var m2, f2, u2, s2 := vm.mem, vm.free, used', sp';
        sp', used' := DropPages(vm, root, k, a, sp', used', extra);
        StepTrans(old(vm.mem), old(vm.free), used, Own(sp, k), m2, f2, u2, Own(s2, a), vm.mem, vm.free, used',
                  Own(sp', k));
        SameLeaf(m2, vm.mem, s2.leaf, sp.leaf, k, a);
        SameFramesTrans(old(vm.mem), m2, vm.mem, sp.leaf, k);
        NothingFresh(vm.mem, used, sp'.leaf, k, 2 + 16 + xperm + 1);
        Unchanged(vm.mem, vm.free, used', sp', k, extra);
        sz := 0;
        return;
      }
      MappedOne(s1.leaf, a, p, 2 + 16 + xperm);
      MadeFlags(p, 2 + 16 + xperm);
      FreshMore(m1, vm.mem, used, s1.leaf, k, a, 2 + 16 + xperm + 1, ZEROPAGE, MakePte(p, 2 + 16 + xperm));
      RollBack(s1.leaf, k, a, MakePte(p, 2 + 16 + xperm));
      a := a + 1;
    }
    PagesReach(a, newsz);
    sz := newsz;
    WereEnough(old(vm.mem), old(vm.free), used, sp, k, extra, vm.mem, vm.free, used', sp', a);
  }

  lemma NoNeed(keys: set<Dir>, oldsz: nat, newsz: nat)
    ensures newsz < oldsz ==> Need(keys, Pages(oldsz), Pages(newsz)) == 0
  {
  }

  lemma NothingFresh(mem: Memory, used: set<nat>, leaf: map<nat, nat>, k: nat, flags: nat)
    ensures Fresh(mem, used, leaf, k, k, flags, ZEROPAGE)
  {
  }

  lemma MadeFlags(p: nat, perm: nat)
    requires perm < 1024
    ensures PageOf(MakePte(p, perm)) == p && Flags(MakePte(p, perm)) == perm - perm % 2 + 1
  {
  }

  lemma SameLeaf(m0: Memory, m1: Memory, leaf': map<nat, nat>, leaf: map<nat, nat>, k: nat, n: nat)
    requires SameFrames(m0, m1, leaf', k) && k <= n && Unmapped(leaf', k, n - k) == leaf
    ensures SameFrames(m0, m1, leaf, k)
  {
    hide PageOf;
    assert forall v :: v in leaf ==> v in leaf' && leaf'[v] == leaf[v];
  }

  // Two address spaces side by side.

  /** What one owner does leaves another's space alone. */
  lemma Beside(m0: Memory, f0: seq<nat>, u0: set<nat>, o0: set<nat>, m1: Memory, f1: seq<nat>, u1: set<nat>,
               o1: set<nat>,
               sp: Space, n: nat, extra: set<nat>)
    requires Step(m0, f0, u0, o0, m1, f1, u1, o1) && Apart(m1, f1, u1)
    requires UserOk(m0, f0, u0, sp, n, extra) && Own(sp, n) !! o0
    ensures UserOk(m1, f1, u1, sp, n, extra) && Own(sp, n) !! o1 && SameFrames(m0, m1, sp.leaf, n)
  {
    OwnUsed(m0, f0, u0, sp, n, extra);
    KeptSet(m0, f0, u0, o0, m1, f1, u1, o1, Own(sp, n));
    SameSize(m0, m1);
    BesideTree(m0, m1, sp);
    BesideFrames(m0, m1, u0, u1, sp, n);
    hide Tree, OwnFrames, HoldBytes, SameFrames, Frames, Layout, Step;
  }

  lemma KeptSet(m0: Memory, f0: seq<nat>, u0: set<nat>, o0: set<nat>, m1: Memory, f1: seq<nat>, u1: set<nat>,
                o1: set<nat>, x: set<nat>)
    requires Step(m0, f0, u0, o0, m1, f1, u1, o1) && x <= u0 && x !! o0
    ensures x <= u1 && x !! o1 && (forall p :: p in x && p in m0 ==> p in m1 && m1[p] == m0[p])
  {
    assert x <= u0 - o0;
  }

  lemma BesideTree(m0: Memory, m1: Memory, sp: Space)
    requires Tree(m0, sp) && forall p :: p in sp.dirs.Values && p in m0 ==> p in m1 && m1[p] == m0[p]
    ensures Tree(m1, sp)
  {
    forall d | d in sp.dirs
      ensures sp.dirs[d] in m1 && m1[sp.dirs[d]] == m0[sp.dirs[d]]
    {
      assert sp.dirs[d] in sp.dirs.Values;
      assert TableOk(m0, sp, d);
    }
    TreeFrame(m0, m1, sp);
  }

  lemma BesideFrames(m0: Memory, m1: Memory, u0: set<nat>, u1: set<nat>, sp: Space, n: nat)
    requires OwnFrames(u0, sp, 0, n) && HoldBytes(m0, sp.leaf, n) && Own(sp, n) <= u1
    requires forall p :: p in Own(sp, n) && p in m0 ==> p in m1 && m1[p] == m0[p]
    ensures OwnFrames(u1, sp, 0, n) && HoldBytes(m1, sp.leaf, n) && SameFrames(m0, m1, sp.leaf, n)
  {
    hide PageOf;
    assert forall v :: 0 <= v < n ==> PageOf(sp.leaf[v]) in Frames(sp.leaf, 0, n);
  }

  /** The first n pages of leaf are copies of those of from: the same flags and contents,
      in frames not in use before. */
  ghost predicate Copied(mem: Memory, used: set<nat>, from: map<nat, nat>, leaf: map<nat, nat>, n: nat) {
    forall v :: 0 <= v < n && v in leaf && v in from ==>
      && PageOf(leaf[v]) !in used && Flags(leaf[v]) == Flags(from[v])
      && PageOf(leaf[v]) in mem && PageOf(from[v]) in mem && mem[PageOf(leaf[v])] == mem[PageOf(from[v])]
  }

  lemma CopiedMore(m0: Memory, m1: Memory, used: set<nat>, from: map<nat, nat>, leaf: map<nat, nat>, n: nat, k: nat,
                   pte: nat)
    requires Copied(m0, used, from, leaf, n) && SameFrames(m0, m1, leaf, n) && SameFrames(m0, m1, from, k) && n < k
    requires n in from && PageOf(pte) !in used && Flags(pte) == Flags(from[n])
    requires PageOf(pte) in m1 && PageOf(from[n]) in m0 && m1[PageOf(pte)] == m0[PageOf(from[n])]
    ensures Copied(m1, used, from, leaf[n := pte], n + 1)
  {
    hide PageOf, Flags;
  }

  lemma FromFlags(mem: Memory, free: seq<nat>, used: set<nat>, sp: Space, n: nat, extra: set<nat>, v: nat)
    requires UserOk(mem, free, used, sp, n, extra) && v < n
    ensures v in sp.leaf && LeafEntry(sp.leaf, v) == sp.leaf[v] && IsBytes(mem, PageOf(sp.leaf[v])) && v < MAXPAGE
    ensures 2 <= Flags(sp.leaf[v]) < 1024 && Flags(MakePte(0, Flags(sp.leaf[v]))) == Flags(sp.leaf[v])
  {
    hide Tree, Flags, PageOf, Valid, OwnFrames;
    LeafTable(mem, sp, v);
    ValidFlags(sp.leaf[v]);
  }

  lemma ValidFlags(pte: nat)
    requires Valid(pte)
    ensures Flags(pte) < 1024 && Flags(MakePte(0, Flags(pte))) == Flags(pte) && (Flags(pte) != 1 ==> 2 <= Flags(pte))
  {
    OddRest(pte / 1024, Flags(pte));
    SmallFlags(Flags(pte));
  }

  lemma OddRest(q: nat, f: nat)
    requires (q * 1024 + f) % 2 == 1
    ensures f % 2 == 1
  {
    assert q * 1024 + f == 2 * (q * 512) + f;
  }

  lemma SmallFlags(f: nat)
    requires f < 1024 && f % 2 == 1
    ensures Flags(MakePte(0, f)) == f && (f != 1 ==> 2 <= f)
  {
  }

  /** uvmcopy: the child, empty so far, gets a copy of the parent's n pages, or is left
      empty when memory runs out. */
  method UvmCopy(vm: Vm, oldRoot: nat, newRoot: nat, sz: nat, ghost sp: Space, ghost extra: set<nat>,
                 ghost child: Space, ghost cextra: set<nat>,
                 ghost used: set<nat>)
    returns (ok: bool, ghost child': Space, ghost used': set<nat>)
    requires UserOk(vm.mem, vm.free, used, sp, Pages(sz), extra) && oldRoot == sp.dirs[ROOT]
    requires UserOk(vm.mem, vm.free, used, child, 0, cextra) && newRoot == child.dirs[ROOT]
    requires Own(sp, Pages(sz)) !! Own(child, 0)
    modifies vm
    ensures var n := if ok then Pages(sz) else 0;
            && UserOk(vm.mem, vm.free, used', child', n, cextra) && ROOT in child'.dirs && child'.dirs[ROOT] == newRoot
            && Unmapped(child'.leaf, 0, n) == child.leaf && Copied(vm.mem, used, sp.leaf, child'.leaf, n)
            && Step(old(vm.mem), old(vm.free), used, Own(child, 0), vm.mem, vm.free, used', Own(child', n))
    ensures ok ==> Tabled(child.dirs.Keys, 0, Pages(sz), child'.dirs.Keys)
    ensures ok <==> |old(vm.free)| >= Need(child.dirs.Keys, 0, Pages(sz))
  {
    hide UserOk, Step, SameFrames, Own, Frames, Unmapped, Copied, MakePte, PageOf, Flags, IsBytes, Pages, SpaceOk,
         Apart, LeafEntry, TablesFor, Tabled, Need;
    TabledMore(child.dirs.Keys, 0, 0, {});
    child', used', ok := child, used, true;
    Unchanged(vm.mem, vm.free, used, child, 0, cextra);
    Unchanged(vm.mem, vm.free, used, sp, Pages(sz), extra);
    NothingCopied(vm.mem, used, sp.leaf, child.leaf);
    var i := 0;
    while i < Pages(sz)
      invariant 0 <= i <= Pages(sz) && UserOk(vm.mem, vm.free, used', child', i, cextra) && ROOT in child'.dirs
      invariant child'.dirs[ROOT] == newRoot
      invariant UserOk(vm.mem, vm.free, used', sp, Pages(sz), extra) && Own(sp, Pages(sz)) !! Own(child', i)
      invariant used <= used' && Tabled(child.dirs.Keys, 0, i, child'.dirs.Keys)
      invariant Unmapped(child'.leaf, 0, i) == child.leaf && Copied(vm.mem, used, sp.leaf, child'.leaf, i)
      invariant Step(old(vm.mem), old(vm.free), used, Own(child, 0), vm.mem, vm.free, used', Own(child', i))
    {
      FromFlags(vm.mem, vm.free, used', sp, Pages(sz), extra, i);
      SpaceOf(vm.mem, vm.free, used', sp, Pages(sz), extra);
      var pte := PteOf(vm, oldRoot, i, sp, used');
      NotMapped(vm.mem, vm.free, used', child', i, cextra);
      ghost var m1, f1, u1, c1 := vm.mem, vm.free, used', child';
      var content := PageBytes(vm.mem, PageOf(pte));
      TooFew(old(vm.mem), old(vm.free), used, child, 0, cextra, m1, f1, u1, c1, i, Pages(sz));
      TabledMore(child.dirs.Keys, 0, i, c1.dirs.Keys);
      ghost var p;
      ok, child', used', p := AddPage(vm, newRoot, i, content, Flags(pte), child', used', cextra);
      ghost var n := if ok then i + 1 else i;
      StepTrans(old(vm.mem), old(vm.free), used, Own(child, 0), m1, f1, u1, Own(c1, i), vm.mem, vm.free, used',
                Own(child', n));
      SpaceOf(vm.mem, vm.free, used', child', n, cextra);
      Beside(m1, f1, u1, Own(c1, i), vm.mem, vm.free, used', Own(child', n), sp, Pages(sz), extra);
      if !ok {
        ghost var m2, f2, u2, c2 := vm.mem, vm.free, used', child';
        child', used' := DropPages(vm, newRoot, 0, i, child', used', cextra);
        StepTrans(old(vm.mem), old(vm.free), used, Own(child, 0), m2, f2, u2, Own(c2, i), vm.mem, vm.free, used',
                  Own(child', 0));
        NothingCopied(vm.mem, used, sp.leaf, child'.leaf);
        Unchanged(vm.mem, vm.free, used', child', 0, cextra);
        return;
      }
      MadeCopy(p, Flags(pte));
      CopiedMore(m1, vm.mem, used, sp.leaf, c1.leaf, i, Pages(sz), MakePte(p, Flags(pte)));
      RollBack(c1.leaf, 0, i, MakePte(p, Flags(pte)));
      i := i + 1;
    }
    WereEnough(old(vm.mem), old(vm.free), used, child, 0, cextra, vm.mem, vm.free, used', child', i);
  }

  function PageBytes(mem: Memory, p: nat): (r: seq<byte>)
    requires IsBytes(mem, p)
    ensures |r| == PGSIZE && p in mem && Bytes(r) == mem[p]
  {
    mem[p].bytes
  }

  lemma MadeCopy(p: nat, flags: nat)
    requires flags < 1024
    ensures PageOf(MakePte(p, flags)) == p && Flags(MakePte(p, flags)) == Flags(MakePte(0, flags))
  {
  }

  lemma NothingCopied(mem: Memory, used: set<nat>, from: map<nat, nat>, leaf: map<nat, nat>)
    ensures Copied(mem, used, from, leaf, 0)
  {
  }

  lemma SpaceOf(mem: Memory, free: seq<nat>, used: set<nat>, sp: Space, n: nat, extra: set<nat>)
    requires UserOk(mem, free, used, sp, n, extra)
    ensures SpaceOk(mem, free, used, sp) && Apart(mem, free, used) && ROOT in sp.dirs
  {
  }
}
