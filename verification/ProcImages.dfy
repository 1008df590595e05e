/** allocproc, freeproc, fork, growproc and exec as far as they allocate memory. */
module ProcImages {
  import opened PageTable
  import opened Vm
  import opened PageFree
  import opened UserCopy
  import opened UserMemory
  import opened Uvm
  import opened ProcTable
  import opened PageOwners

  /** allocproc: a trapframe and a page table with nothing in it, or nothing at all. */
  method AllocImage(vm: Vm, tramp: nat, ghost used: set<nat>)
    returns (ok: bool, root: nat, tf: nat, ghost sp: Space, ghost used': set<nat>)
    requires Apart(vm.mem, vm.free, used) && |vm.mem| <= NPAGES
    modifies vm
    ensures Apart(vm.mem, vm.free, used') && (!ok ==> used' == used)
    ensures ok ==> ImageOk(vm.mem, vm.free, used', Image(root, 0, tf, sp)) && sp.dirs.Keys == TopTables()
    ensures Step(old(vm.mem), old(vm.free), used, {}, vm.mem, vm.free, used', if ok
            then Foot(Image(root, 0, tf, sp)) else {})
    ensures (ok <==> |old(vm.free)| >= 4) && (ok ==> |vm.free| == |old(vm.free)| - 4)
  {
    hide UserOk, Step, Own, Frames, PageOf, Apart, FreeSet, TopTables;
    root, sp, used' := 0, Space(map[], map[]), used;
    NothingDone(vm.mem, vm.free, used);
    ok, tf := vm.KAlloc(used);
    if !ok {
      return;
    }
    TookStep(old(vm.mem), old(vm.free), used, vm.mem, vm.free, tf);
    ghost var m1, f1 := vm.mem, vm.free;
    ok, root, sp, used' := ProcPagetable(vm, tramp, tf, used + {tf});
    if ok {
      EmptyCosts(m1, f1, used + {tf}, vm.mem, vm.free, used', sp, FIXED);
    }
    ghost var own := if ok then Own(sp, 0) else {};
    StepWith(m1, f1, used + {tf}, {}, vm.mem, vm.free, used', own, {tf});
    assert {} + {tf} == {tf};
    StepTrans(old(vm.mem), old(vm.free), used, {}, m1, f1, used + {tf}, {tf}, vm.mem, vm.free, used', own + {tf});
    if !ok {
      ghost var m2, f2 := vm.mem, vm.free;
      vm.KFree(tf, used');
      GaveStep(m2, f2, used + {tf}, vm.mem, vm.free, tf);
      used' := used' - {tf};
      StepTrans(old(vm.mem), old(vm.free), used, {}, m2, f2, used + {tf}, {tf}, vm.mem, vm.free, used', {});
    }
  }

  lemma TookStep(m0: Memory, f0: seq<nat>, u0: set<nat>, m1: Memory, f1: seq<nat>, p: nat)
    requires p in m0 && m1 == m0[p := JUNK] && p !in u0 && FreeSet(f1) + {p} == FreeSet(f0)
    ensures Step(m0, f0, u0, {}, m1, f1, u0 + {p}, {p}) && |m1| == |m0|
  {
    SameSize(m0, m1);
  }

  lemma GaveStep(m0: Memory, f0: seq<nat>, u0: set<nat>, m1: Memory, f1: seq<nat>, p: nat)
    requires p in u0 && p in m0 && m1 == m0[p := FREED] && FreeSet(f1) == FreeSet(f0) + {p}
    ensures Step(m0, f0, u0, {p}, m1, f1, u0 - {p}, {})
  {
  }

  /** freeproc: everything goes back. */
  method FreeImage(vm: Vm, root: nat, sz: nat, tf: nat, ghost sp: Space,
                   ghost used: set<nat>) returns (ghost used': set<nat>)
    requires ImageOk(vm.mem, vm.free, used, Image(root, sz, tf, sp))
    modifies vm
    ensures Apart(vm.mem, vm.free, used') && used' == used - Foot(Image(root, sz, tf, sp))
    ensures Step(old(vm.mem), old(vm.free), used, Foot(Image(root, sz, tf, sp)), vm.mem, vm.free, used', {})
  {
    hide UserOk, Step, Own, Frames, PageOf, Apart, FreeSet, SameFrames;
    SpaceOf(vm.mem, vm.free, used, sp, Pages(sz), FIXED);
    UsedInMemory(vm.mem, vm.free, used, tf);
    GavePage(vm.mem, vm.free, used, sp, Pages(sz), FIXED, tf);
    ghost var own := Own(sp, Pages(sz));
    OwnUsed(vm.mem, vm.free, used, sp, Pages(sz), FIXED);
    vm.KFree(tf, used);
    ghost var m1, f1, u1 := vm.mem, vm.free, used - {tf};
    GaveStep(old(vm.mem), old(vm.free), used, m1, f1, tf);
    StepWith(old(vm.mem), old(vm.free), used, {tf}, m1, f1, u1, {}, own);
    assert {} + own == own && {tf} + own == own + {tf};
    used' := ProcFreePagetable(vm, root, sz, sp, u1);
    StepTrans(old(vm.mem), old(vm.free), used, own + {tf}, m1, f1, u1, own, vm.mem, vm.free, used', {});
    StepGone(old(vm.mem), old(vm.free), used, own + {tf}, vm.mem, vm.free, used');
  }

  lemma UsedInMemory(mem: Memory, free: seq<nat>, used: set<nat>, p: nat)
    requires Apart(mem, free, used) && p in used
    ensures p in mem
  {
  }

  /** fork: the child has copies of the parent's pages, or does not exist. */
  method ForkImage(vm: Vm, tramp: nat, root: nat, sz: nat, ghost parent: Image, ghost used: set<nat>)
    returns (ok: bool, croot: nat, ctf: nat, ghost child: Space, ghost used': set<nat>)
    requires ImageOk(vm.mem, vm.free, used, parent) && root == parent.root && sz == parent.sz
    modifies vm
    ensures Apart(vm.mem, vm.free, used') && (!ok ==> used' == used)
    ensures ok ==> ImageOk(vm.mem, vm.free, used', Image(croot, sz, ctf, child))
    ensures ok ==> Copied(vm.mem, used, parent.sp.leaf, child.leaf, Pages(sz))
    ensures Step(old(vm.mem), old(vm.free), used, {}, vm.mem, vm.free, used', if ok
            then Foot(Image(croot, sz, ctf, child)) else {})
    ensures ok <==> |old(vm.free)| >= 4 + UserNeed(Pages(sz))
  {
    hide UserOk, Step, Own, Frames, PageOf, Apart, FreeSet, SameFrames, Copied, Unmapped, Pages, Need, Tabled,
         TopTables, UserNeed;
    CopyNeeds(vm.mem, vm.free, used, parent.sp, Pages(sz), FIXED);
    SpaceOf(vm.mem, vm.free, used, parent.sp, Pages(sz), FIXED);
    SmallMemory(vm.mem, vm.free, used, parent.sp, Pages(sz), FIXED);
    PagesOfNothing();
    ok, croot, ctf, child, used' := AllocImage(vm, tramp, used);
    if !ok {
      return;
    }
    ghost var m1, f1, u1, c1 := vm.mem, vm.free, used', child;
    ghost var foot := Foot(Image(croot, 0, ctf, c1));
    OtherImage(old(vm.mem), old(vm.free), used, {}, m1, f1, u1, foot, parent);
    FreshUsed(old(vm.mem), old(vm.free), used, m1, f1, u1, foot);
    ok, child, used' := UvmCopy(vm, root, croot, sz, parent.sp, FIXED, c1, FIXED, u1);
    ghost var n := if ok then Pages(sz) else 0;
    SpaceOf(vm.mem, vm.free, used', child, n, FIXED);
    ghost var own := Own(child, n);
    StepWith(m1, f1, u1, Own(c1, 0), vm.mem, vm.free, used', own, {ctf});
    StepTrans(old(vm.mem), old(vm.free), used, {}, m1, f1, u1, foot, vm.mem, vm.free, used', own + {ctf});
    TopKept(c1.leaf, child.leaf, n);
    if ok {
      CopiedFewer(vm.mem, used, u1, parent.sp.leaf, child.leaf, Pages(sz));
      return;
    }
    ghost var m2, f2, u2 := vm.mem, vm.free, used';
    used' := FreeImage(vm, croot, 0, ctf, child, used');
    StepTrans(old(vm.mem), old(vm.free), used, {}, m2, f2, u2, own + {ctf}, vm.mem, vm.free, used', {});
    StepGone(old(vm.mem), old(vm.free), used, {}, vm.mem, vm.free, used');
  }

  lemma PagesOfNothing()
    ensures Pages(0) == 0
  {
  }

  lemma SmallMemory(mem: Memory, free: seq<nat>, used: set<nat>, sp: Space, n: nat, extra: set<nat>)
    requires UserOk(mem, free, used, sp, n, extra)
    ensures |mem| <= NPAGES && n <= TRAPFRAME
  {
  }

  lemma FreshUsed(m0: Memory, f0: seq<nat>, u0: set<nat>, m1: Memory, f1: seq<nat>, u1: set<nat>, own: set<nat>)
    requires Step(m0, f0, u0, {}, m1, f1, u1, own)
    ensures u0 <= u1
  {
    assert u0 - {} == u0;
  }

  lemma CopiedFewer(mem: Memory, used: set<nat>, used': set<nat>, from: map<nat, nat>, leaf: map<nat, nat>, n: nat)
    requires Copied(mem, used', from, leaf, n) && used <= used'
    ensures Copied(mem, used, from, leaf, n)
  {
    hide PageOf, Flags;
  }

  lemma TopKept(leaf: map<nat, nat>, leaf': map<nat, nat>, n: nat)
    requires Unmapped(leaf', 0, n) == leaf && TRAPFRAME in leaf
    ensures TRAPFRAME in leaf' && leaf'[TRAPFRAME] == leaf[TRAPFRAME]
  {
    assert TRAPFRAME in Unmapped(leaf', 0, n);
  }
}
