/** The partition of physical memory over the system calls that create, grow, replace and
    end processes. ps is the process table as history; the code works on the fields of the
    process at hand. */
module Conservation {
  import opened Common
  import opened PageTable
  import opened Vm
  import opened PageFree
  import opened UserCopy
  import opened UserMemory
  import opened Uvm
  import opened ProcTable
  import opened PageOwners
  import opened ProcImages
  import opened ExecImages

  /** The pages in use besides own still are, and hold what they did. */
  ghost predicate Untouched(m0: Memory, u0: set<nat>, own: set<nat>, mem: Memory, used: set<nat>) {
    forall p :: p in u0 && p !in own ==> p in used && (p in m0 ==> p in mem && mem[p] == m0[p])
  }

  /** The partition is there again, over the same pages; nobody else's contents changed. */
  ghost predicate Kept(m0: Memory, f0: seq<nat>, u0: set<nat>, own: set<nat>, mem: Memory, free: seq<nat>,
                       used: set<nat>, ps: map<nat, Image>, other: set<nat>) {
    && Whole(mem, free, used, ps, other) && FreeSet(free) + used == FreeSet(f0) + u0
    && Untouched(m0, u0, own, mem, used)
  }

  lemma StepUntouched(m0: Memory, f0: seq<nat>, u0: set<nat>, o0: set<nat>, m1: Memory, f1: seq<nat>, u1: set<nat>,
                      o1: set<nat>)
    requires Step(m0, f0, u0, o0, m1, f1, u1, o1)
    ensures FreeSet(f1) + u1 == FreeSet(f0) + u0 && Untouched(m0, u0, o0, m1, u1)
  {
    forall p | p in u0 && p !in o0
      ensures p in u1
    {
      assert p in u0 - o0;
    }
  }

  lemma KeptStep(m0: Memory, f0: seq<nat>, u0: set<nat>, ps: map<nat, Image>, other: set<nat>, i: nat, x: Option<Image>,
                 m1: Memory, f1: seq<nat>, u1: set<nat>)
    requires Whole(m0, f0, u0, ps, other) && Apart(m1, f1, u1)
    requires Step(m0, f0, u0, FootAt(ps, i), m1, f1, u1, if x.Some? then Foot(x.value) else {})
    requires x.Some? ==> ImageOk(m1, f1, u1, x.value)
    ensures Kept(m0, f0, u0, FootAt(ps, i), m1, f1, u1, With(ps, i, x), other)
  {
    hide Whole, Foot, FootAt, ImageOk, With, Untouched;
    WholeStep(m0, f0, u0, ps, other, i, x, m1, f1, u1);
    StepUntouched(m0, f0, u0, FootAt(ps, i), m1, f1, u1, if x.Some? then Foot(x.value) else {});
  }

  /** Nothing in use was touched: everybody has what they had. */
  lemma KeptIdle(m0: Memory, f0: seq<nat>, u0: set<nat>, ps: map<nat, Image>, other: set<nat>, i: nat, m1: Memory,
                 f1: seq<nat>)
    requires Whole(m0, f0, u0, ps, other) && Apart(m1, f1, u0) && Step(m0, f0, u0, {}, m1, f1, u0, {})
    ensures Kept(m0, f0, u0, {}, m1, f1, u0, ps, other)
  {
    hide Foot, ImageOk, Untouched;
    SizeOf(m0, f0, u0, {}, m1, f1, u0, {});
    StepUntouched(m0, f0, u0, {}, m1, f1, u0, {});
    forall j | j in ps
      ensures ImageOk(m1, f1, u0, ps[j])
    {
      OtherImage(m0, f0, u0, {}, m1, f1, u0, {}, ps[j]);
    }
  }

  lemma ImageOf(mem: Memory, free: seq<nat>, used: set<nat>, ps: map<nat, Image>, other: set<nat>, i: nat)
    requires Whole(mem, free, used, ps, other) && i in ps
    ensures ImageOk(mem, free, used, ps[i]) && FootAt(ps, i) == Foot(ps[i]) && Apart(mem, free, used) && |mem| <= NPAGES
  {
  }

  /** fork of process i into the unused slot j. */
  method Fork(vm: Vm, tramp: nat, ghost i: nat, ghost j: nat, root: nat, sz: nat, ghost ps: map<nat, Image>,
              ghost other: set<nat>, ghost used: set<nat>)
    returns (ok: bool, croot: nat, ctf: nat, ghost ps': map<nat, Image>, ghost used': set<nat>)
    requires Whole(vm.mem, vm.free, used, ps, other) && i in ps && j !in ps && root == ps[i].root && sz == ps[i].sz
    modifies vm
    ensures if ok then j in ps' && ps' == ps[j := ps'[j]] && ps'[j].sz == sz &&
            Copied(vm.mem, used, ps[i].sp.leaf, ps'[j].sp.leaf, Pages(sz))
            else ps' == ps
    ensures ok <==> |old(vm.free)| >= 4 + UserNeed(Pages(sz))
    ensures Kept(old(vm.mem), old(vm.free), used, {}, vm.mem, vm.free, used', ps', other)
  {
    hide Whole, Kept, Foot, ImageOk, Step, Copied, Apart, UserNeed, Pages;
    ImageOf(vm.mem, vm.free, used, ps, other, i);
    ghost var child;
    ok, croot, ctf, child, used' := ForkImage(vm, tramp, root, sz, ps[i], used);
    if ok {
      ghost var x := Image(croot, sz, ctf, child);
      assert FootAt(ps, j) == {};
      KeptStep(old(vm.mem), old(vm.free), used, ps, other, j, Some(x), vm.mem, vm.free, used');
      ps' := With(ps, j, Some(x));
    } else {
      KeptIdle(old(vm.mem), old(vm.free), used, ps, other, i, vm.mem, vm.free);
      ps' := ps;
    }
  }

  /** growproc of process i. */
  method Grow(vm: Vm, ghost i: nat, root: nat, sz: nat, tf: nat, n: int, ghost ps: map<nat, Image>,
              ghost other: set<nat>, ghost used: set<nat>)
    returns (ok: bool, sz': nat, ghost ps': map<nat, Image>, ghost used': set<nat>)
    requires Whole(vm.mem, vm.free, used, ps, other) && i in ps && ps[i] == Image(root, sz, tf, ps[i].sp)
    requires -0x8000_0000 <= n < 0x8000_0000
    modifies vm
    ensures SameFrames(old(vm.mem), vm.mem, ps[i].sp.leaf, if sz' < sz then Pages(sz') else Pages(sz))
    ensures i in ps' && ps' == ps[i := ps'[i]] && ps'[i].sz == sz'
    ensures ok ==> sz' == if sz + n < 0 then sz else sz + n
    ensures !ok ==> sz' == sz && ps'[i].sp.leaf == ps[i].sp.leaf
    ensures ok <==> n <= 0 || |old(vm.free)| >= Need(ps[i].sp.dirs.Keys, Pages(sz), Pages(sz + n))
    ensures Resized(vm.mem, used, ps[i].sp.leaf, ps'[i].sp.leaf, sz, sz', ZEROPAGE)
    ensures Kept(old(vm.mem), old(vm.free), used, Foot(ps[i]), vm.mem, vm.free, used', ps', other)
  {
    hide Whole, Kept, Foot, ImageOk, Step, Apart, SameFrames, Resized, Need, Pages;
    ImageOf(vm.mem, vm.free, used, ps, other, i);
    ghost var sp';
    ok, sz', sp', used' := GrowImage(vm, root, sz, tf, n, ps[i].sp, used);
    ghost var x := Image(root, sz', tf, sp');
    KeptStep(old(vm.mem), old(vm.free), used, ps, other, i, Some(x), vm.mem, vm.free, used');
    ps' := With(ps, i, Some(x));
  }

  /** freeproc of process i. */
  method Free(vm: Vm, ghost i: nat, root: nat, sz: nat, tf: nat, ghost ps: map<nat, Image>, ghost other: set<nat>,
              ghost used: set<nat>)
    returns (ghost used': set<nat>)
    requires Whole(vm.mem, vm.free, used, ps, other) && i in ps && ps[i] == Image(root, sz, tf, ps[i].sp)
    modifies vm
    ensures Kept(old(vm.mem), old(vm.free), used, Foot(ps[i]), vm.mem, vm.free, used', ps - {i}, other)
  {
    hide Whole, Kept, Foot, ImageOk, Step, Apart;
    ImageOf(vm.mem, vm.free, used, ps, other, i);
    used' := FreeImage(vm, root, sz, tf, ps[i].sp, used);
    KeptStep(old(vm.mem), old(vm.free), used, ps, other, i, None, vm.mem, vm.free, used');
  }

  /** exec of process i: the new image replaces the old one, or everything is as before. */
  method Exec(vm: Vm, tramp: nat, ghost i: nat, root: nat, sz: nat, tf: nat, segs: seq<Seg>, lens: seq<nat>,
              ghost ps: map<nat, Image>, ghost other: set<nat>, ghost used: set<nat>)
    returns (ok: bool, root': nat, sz': nat, at: seq<int>, stack: int, ghost ps': map<nat, Image>,
             ghost used': set<nat>)
    requires Whole(vm.mem, vm.free, used, ps, other) && i in ps && ps[i] == Image(root, sz, tf, ps[i].sp)
    modifies vm
    ensures ok ==> i in ps' && ps' == ps[i := Image(root', sz', tf, ps'[i].sp)]
    ensures ok ==>
              && sz' == Pages(Top(segs)) * PGSIZE + 2 * PGSIZE
              && Loaded(segs, ps'[i].sp.leaf) && Stacked(ps'[i].sp.leaf, Top(segs))
              && Pushed(sz', lens, at, stack)
    ensures !ok ==> ps' == ps && root' == root && sz' == sz
    ensures ok <==> Loadable(segs) && ArgsFit(lens) && |old(vm.free)| >= 3 + UserNeed(Pages(Top(segs)) + 2)
    ensures Kept(old(vm.mem), old(vm.free), used, if ok then Foot(ps[i]) else {}, vm.mem, vm.free, used', ps', other)
  {
    hide Whole, Kept, Foot, ImageOk, Step, Apart, Making, UserOk, Own, Top, Loaded, Loadable, Stacked, Pages, UserNeed,
         ArgsFit, Pushed;
    ImageOf(vm.mem, vm.free, used, ps, other, i);
    ghost var sp';
    ok, root', sz', at, stack, sp', used' := BuildImage(vm, tramp, tf, segs, lens, used);
    if !ok {
      KeptIdle(old(vm.mem), old(vm.free), used, ps, other, i, vm.mem, vm.free);
      root', sz', ps' := root, sz, ps;
      return;
    }
    ghost var m1, f1, u1 := vm.mem, vm.free, used';
    Replace(old(vm.mem), old(vm.free), used, ps[i], m1, f1, u1, root', sz', tf, sp');
    used' := ProcFreePagetable(vm, root, sz, ps[i].sp, used');
    Replaced(old(vm.mem), old(vm.free), used, ps[i], m1, f1, u1, root', sz', tf, sp', vm.mem, vm.free, used');
    ghost var x := Image(root', sz', tf, sp');
    KeptStep(old(vm.mem), old(vm.free), used, ps, other, i, Some(x), vm.mem, vm.free, used');
    ps' := With(ps, i, Some(x));
  }

  /** With both images there, the old one can go. */
  lemma Replace(m0: Memory, f0: seq<nat>, u0: set<nat>, x: Image, m1: Memory, f1: seq<nat>, u1: set<nat>, root: nat,
                sz: nat, tf: nat, sp: Space)
    requires ImageOk(m0, f0, u0, x) && x.tf == tf && Making(m0, f0, u0, m1, f1, u1, root, sz, tf, sp)
    ensures UserOk(m1, f1, u1, x.sp, Pages(x.sz), FIXED) && x.root == x.sp.dirs[ROOT]
  {
    hide UserOk, Step, Own, PageOf;
    SpaceOf(m1, f1, u1, sp, Pages(sz), FIXED);
    Beside(m0, f0, u0, {}, m1, f1, u1, Own(sp, Pages(sz)), x.sp, Pages(x.sz), FIXED);
    SpaceOf(m1, f1, u1, x.sp, Pages(x.sz), FIXED);
  }

  lemma Replaced(m0: Memory, f0: seq<nat>, u0: set<nat>, x: Image, m1: Memory, f1: seq<nat>, u1: set<nat>,
                 root: nat, sz: nat, tf: nat, sp: Space, m2: Memory, f2: seq<nat>, u2: set<nat>)
    requires ImageOk(m0, f0, u0, x) && x.tf == tf && Making(m0, f0, u0, m1, f1, u1, root, sz, tf, sp)
    requires Step(m1, f1, u1, Own(x.sp, Pages(x.sz)), m2, f2, u2, {}) && Apart(m2, f2, u2)
    ensures ImageOk(m2, f2, u2, Image(root, sz, tf, sp))
    ensures Step(m0, f0, u0, Foot(x), m2, f2, u2, Foot(Image(root, sz, tf, sp)))
  {
    hide UserOk, Step, Own, PageOf;
    var old_, new_ := Own(x.sp, Pages(x.sz)), Own(sp, Pages(sz));
    FootUsed(m0, f0, u0, x);
    StepWith(m0, f0, u0, {}, m1, f1, u1, new_, old_ + {tf});
    StepWith(m1, f1, u1, old_, m2, f2, u2, {}, new_ + {tf});
    assert {} + (old_ + {tf}) == Foot(x) && new_ + (old_ + {tf}) == old_ + (new_ + {tf}) &&
           {} + (new_ + {tf}) == new_ + {tf};
    StepTrans(m0, f0, u0, Foot(x), m1, f1, u1, old_ + (new_ + {tf}), m2, f2, u2, new_ + {tf});
    Beside(m1, f1, u1, old_, m2, f2, u2, {}, sp, Pages(sz), FIXED);
  }

  // The argument pages of sys_exec.

  ghost predicate Distinct(args: seq<nat>) {
    forall i, j :: 0 <= i < j < |args| ==> args[i] != args[j]
  }

  /** Pages more in use by the kernel, or fewer. */
  lemma OtherMore(m0: Memory, f0: seq<nat>, u0: set<nat>, ps: map<nat, Image>, other: set<nat>, m1: Memory,
                  f1: seq<nat>, u1: set<nat>, more: set<nat>)
    requires Whole(m0, f0, u0, ps, other) && Apart(m1, f1, u1) && Step(m0, f0, u0, {}, m1, f1, u1, more)
    ensures Kept(m0, f0, u0, {}, m1, f1, u1, ps, other + more)
  {
    hide Foot, ImageOk, Untouched;
    StepUntouched(m0, f0, u0, {}, m1, f1, u1, more);
    SizeOf(m0, f0, u0, {}, m1, f1, u1, more);
    forall j | j in ps
      ensures ImageOk(m1, f1, u1, ps[j]) && Foot(ps[j]) !! more
    {
      OtherImage(m0, f0, u0, {}, m1, f1, u1, more, ps[j]);
    }
    assert u1 - more == u0 - {};
    assert other + more <= u1 by {
      assert other <= u1 - more;
    }
    forall p | p in u1 && p !in other + more
      ensures exists i :: i in ps && p in Foot(ps[i])
    {
      assert p in u0 - {};
    }
  }

  lemma OtherLess(m0: Memory, f0: seq<nat>, u0: set<nat>, ps: map<nat, Image>, other: set<nat>, m1: Memory,
                  f1: seq<nat>, u1: set<nat>, more: set<nat>)
    requires Whole(m0, f0, u0, ps, other + more) && more !! other && Apart(m1, f1, u1)
    requires Step(m0, f0, u0, more, m1, f1, u1, {})
    ensures Kept(m0, f0, u0, more, m1, f1, u1, ps, other)
  {
    hide Foot, ImageOk, Untouched;
    StepUntouched(m0, f0, u0, more, m1, f1, u1, {});
    SizeOf(m0, f0, u0, more, m1, f1, u1, {});
    forall j | j in ps
      ensures ImageOk(m1, f1, u1, ps[j])
    {
      OtherImage(m0, f0, u0, more, m1, f1, u1, {}, ps[j]);
    }
    assert u1 - {} == u0 - more;
    forall p | p in u1 && p !in other
      ensures exists i :: i in ps && p in Foot(ps[i])
    {
      assert p in u1 - {};
    }
    assert other <= u1 by {
      assert other <= u0 - more;
    }
  }

  lemma WholeApart(mem: Memory, free: seq<nat>, used: set<nat>, ps: map<nat, Image>, other: set<nat>)
    requires Whole(mem, free, used, ps, other)
    ensures Apart(mem, free, used)
  {
  }

  predicate Fetchable(argc: nat, strings: seq<bool>) {
    argc < MAXARG && argc <= |strings| && forall k :: 0 <= k < argc ==> strings[k]
  }

  /** Fetching argc argument strings, a page for each; strings tells which can be read. */
  method FetchArgs(vm: Vm, argc: nat, strings: seq<bool>, ghost used: set<nat>)
    returns (ok: bool, args: seq<nat>, ghost used': set<nat>)
    requires Apart(vm.mem, vm.free, used)
    modifies vm
    ensures Apart(vm.mem, vm.free, used') && Distinct(args)
    ensures (forall i :: 0 <= i < |args| ==> args[i] in used' && args[i] !in used)
    ensures Step(old(vm.mem), old(vm.free), used, {}, vm.mem, vm.free, used', FreeSet(args))
    ensures ok <==> Fetchable(argc, strings) && |old(vm.free)| >= argc
    ensures ok ==> |args| == argc && |vm.free| == |old(vm.free)| - argc
  {
    hide Step, Apart;
    args, used', ok := [], used, true;
    NothingDone(vm.mem, vm.free, used);
    assert FreeSet([]) == {};
    while ok && |args| < argc
      invariant |args| <= argc && Apart(vm.mem, vm.free, used') && Distinct(args)
      invariant (forall i :: 0 <= i < |args| ==> args[i] in used' && args[i] !in used)
      invariant Step(old(vm.mem), old(vm.free), used, {}, vm.mem, vm.free, used', FreeSet(args)) && used <= used'
      invariant |vm.free| == |old(vm.free)| - |args| && |args| <= MAXARG
      invariant ok ==> |args| <= |strings| && forall k :: 0 <= k < |args| ==> strings[k]
      invariant !ok ==> !Fetchable(argc, strings) || |old(vm.free)| < argc
      decreases argc - |args|, ok
    {
      if |args| >= MAXARG || |args| >= |strings| {
        ok := false;
      } else {
        var p;
        ghost var m1, f1 := vm.mem, vm.free;
        ok, p := vm.KAlloc(used');
        if ok {
          TookStep(m1, f1, used', vm.mem, vm.free, p);
          StepMore(old(vm.mem), old(vm.free), used, m1, f1, used', FreeSet(args), vm.mem, vm.free, p);
          assert FreeSet(args + [p]) == FreeSet(args) + {p};
          args, used' := args + [p], used' + {p};
          ok := strings[|args| - 1];
        }
      }
    }
    ok := ok && |args| < MAXARG;
  }

  lemma StepMore(m0: Memory, f0: seq<nat>, u0: set<nat>, m1: Memory, f1: seq<nat>, u1: set<nat>, own: set<nat>,
                 m2: Memory, f2: seq<nat>, p: nat)
    requires Step(m0, f0, u0, {}, m1, f1, u1, own) && Step(m1, f1, u1, {}, m2, f2, u1 + {p}, {p})
    ensures Step(m0, f0, u0, {}, m2, f2, u1 + {p}, own + {p})
  {
    assert own <= u1;
    StepWith(m1, f1, u1, {}, m2, f2, u1 + {p}, {p}, own);
    assert {} + own == own && {p} + own == own + {p};
    StepTrans(m0, f0, u0, {}, m1, f1, u1, own, m2, f2, u1 + {p}, own + {p});
  }

  method FreeArgs(vm: Vm, args: seq<nat>, ghost used: set<nat>) returns (ghost used': set<nat>)
    requires Apart(vm.mem, vm.free, used) && Distinct(args) && (forall i :: 0 <= i < |args| ==> args[i] in used)
    modifies vm
    ensures Apart(vm.mem, vm.free, used')
    ensures Step(old(vm.mem), old(vm.free), used, FreeSet(args), vm.mem, vm.free, used', {})
  {
    hide Step, Apart;
    used' := used;
    var i := 0;
    StepSelf(vm.mem, vm.free, used, FreeSet(args));
    assert args[0..] == args;
    while i < |args|
      invariant 0 <= i <= |args| && Apart(vm.mem, vm.free, used') && (forall k :: i <= k < |args| ==> args[k] in used')
      invariant Step(old(vm.mem), old(vm.free), used, FreeSet(args), vm.mem, vm.free, used', FreeSet(args[i..]))
    {
      ghost var m1, f1 := vm.mem, vm.free;
      UsedInMemory(vm.mem, vm.free, used', args[i]);
      vm.KFree(args[i], used');
      GaveStep(m1, f1, used', vm.mem, vm.free, args[i]);
      StepLess(old(vm.mem), old(vm.free), used, FreeSet(args), m1, f1, used', args[i..], vm.mem, vm.free);
      used' := used' - {args[i]};
      assert args[i..][1..] == args[i + 1..];
      i := i + 1;
    }
    assert FreeSet(args[i..]) == {};
  }

  lemma StepLess(m0: Memory, f0: seq<nat>, u0: set<nat>, own: set<nat>, m1: Memory, f1: seq<nat>, u1: set<nat>,
                 rest: seq<nat>, m2: Memory, f2: seq<nat>)
    requires Step(m0, f0, u0, own, m1, f1, u1, FreeSet(rest)) && rest != [] && Distinct(rest)
    requires Step(m1, f1, u1, {rest[0]}, m2, f2, u1 - {rest[0]}, {})
    ensures Step(m0, f0, u0, own, m2, f2, u1 - {rest[0]}, FreeSet(rest[1..]))
  {
    var x := FreeSet(rest[1..]);
    assert rest == [rest[0]] + rest[1..];
    assert FreeSet(rest) == x + {rest[0]} && rest[0] !in x;
    StepWith(m1, f1, u1, {rest[0]}, m2, f2, u1 - {rest[0]}, {}, x);
    assert {rest[0]} + x == FreeSet(rest) && {} + x == x;
    StepTrans(m0, f0, u0, own, m1, f1, u1, FreeSet(rest), m2, f2, u1 - {rest[0]}, x);
  }

  /** sys_exec: the argument pages come and go; the rest is exec, if it gets that far. */
  method SysExec(vm: Vm, tramp: nat, ghost i: nat, root: nat, sz: nat, tf: nat, argc: nat, strings: seq<bool>,
                 segs: seq<Seg>, lens: seq<nat>,
                 ghost ps: map<nat, Image>, ghost other: set<nat>, ghost used: set<nat>)
    returns (ok: bool, root': nat, sz': nat, at: seq<int>, stack: int, ghost ps': map<nat, Image>,
             ghost used': set<nat>)
    requires Whole(vm.mem, vm.free, used, ps, other) && i in ps && ps[i] == Image(root, sz, tf, ps[i].sp)
    modifies vm
    ensures ok ==> i in ps' && ps' == ps[i := Image(root', sz', tf, ps'[i].sp)]
    ensures ok ==>
              && sz' == Pages(Top(segs)) * PGSIZE + 2 * PGSIZE
              && Loaded(segs, ps'[i].sp.leaf) && Stacked(ps'[i].sp.leaf, Top(segs))
              && Pushed(sz', lens, at, stack)
    ensures !ok ==> ps' == ps && root' == root && sz' == sz
    ensures ok <==> Fetchable(argc, strings) && Loadable(segs) && ArgsFit(lens) &&
                    |old(vm.free)| >= argc + 3 + UserNeed(Pages(Top(segs)) + 2)
    ensures Kept(old(vm.mem), old(vm.free), used, if ok then Foot(ps[i]) else {}, vm.mem, vm.free, used', ps', other)
  {
    hide Whole, Step, Apart, FreeSet, Untouched, Foot, Top, Loaded, Loadable, Stacked, Pages, UserNeed, Fetchable,
         ArgsFit, Pushed;
    root', sz', at, stack, ps' := root, sz, [], 0, ps;
    WholeApart(vm.mem, vm.free, used, ps, other);
    OtherUsed(vm.mem, vm.free, used, ps, other);
    var args;
    ok, args, used' := FetchArgs(vm, argc, strings, used);
    ghost var more := FreeSet(args);
    OtherMore(old(vm.mem), old(vm.free), used, ps, other, vm.mem, vm.free, used', more);
    ArgsApart(args, used, other);
    ghost var m0, own := old(vm.mem), {};
    if ok {
      ghost var m, u := vm.mem, used';
      ok, root', sz', at, stack, ps', used' := Exec(vm, tramp, i, root, sz, tf, segs, lens, ps, other + more,
                                                      used');
      own := if ok then Foot(ps[i]) else {};
      UntouchedThen(m0, used, m, u, own, vm.mem, used');
    }
    WholeApart(vm.mem, vm.free, used', ps', other + more);
    OtherUsed(vm.mem, vm.free, used', ps', other + more);
    ArgsIn(args, used', other);
    ghost var m1, f1, u1 := vm.mem, vm.free, used';
    used' := FreeArgs(vm, args, used');
    OtherLess(m1, f1, u1, ps', other, vm.mem, vm.free, used', more);
    UntouchedTwice(m0, used, own, more, m1, u1, vm.mem, used');
  }

  lemma UntouchedThen(m0: Memory, u0: set<nat>, m1: Memory, u1: set<nat>, own: set<nat>, m2: Memory, u2: set<nat>)
    requires Untouched(m0, u0, {}, m1, u1) && Untouched(m1, u1, own, m2, u2)
    ensures Untouched(m0, u0, own, m2, u2)
  {
  }

  /** The argument pages were not in use before. */
  lemma UntouchedTwice(m0: Memory, u0: set<nat>, own: set<nat>, more: set<nat>, m1: Memory, u1: set<nat>,
                       m2: Memory, u2: set<nat>)
    requires Untouched(m0, u0, own, m1, u1) && Untouched(m1, u1, more, m2, u2) && more !! u0
    ensures Untouched(m0, u0, own, m2, u2)
  {
  }

  lemma OtherUsed(mem: Memory, free: seq<nat>, used: set<nat>, ps: map<nat, Image>, other: set<nat>)
    requires Whole(mem, free, used, ps, other)
    ensures other <= used
  {
  }

  lemma ArgsApart(args: seq<nat>, used: set<nat>, other: set<nat>)
    requires other <= used && forall i :: 0 <= i < |args| ==> args[i] !in used
    ensures FreeSet(args) !! other && FreeSet(args) !! used
  {
  }

  lemma ArgsIn(args: seq<nat>, used: set<nat>, other: set<nat>)
    requires other + FreeSet(args) <= used
    ensures forall i :: 0 <= i < |args| ==> args[i] in used
  {
    assert forall i :: 0 <= i < |args| ==> args[i] in FreeSet(args);
  }
}
