/** Page conservation: through fork, growproc, exec and the death of a process, on every
    path of success and failure, the free pages, the pages of each process and the pages
    the rest of the kernel has in use stay a partition of physical memory. */
module PageOwners {
  import opened Common
  import opened PageTable
  import opened Vm
  import opened PageFree
  import opened UserCopy
  import opened UserMemory
  import opened Uvm
  import opened ProcTable

  /** p->pagetable, p->sz and p->trapframe, with the space the page table stands for. */
  datatype Image = Image(root: nat, sz: nat, tf: nat, sp: Space)

  ghost function Foot(x: Image): (r: set<nat>) {
    Own(x.sp, Pages(x.sz)) + {x.tf}
  }

  ghost predicate ImageOk(mem: Memory, free: seq<nat>, used: set<nat>, x: Image) {
    && UserOk(mem, free, used, x.sp, Pages(x.sz), FIXED) && x.root == x.sp.dirs[ROOT]
    && x.tf in used && x.tf !in Own(x.sp, Pages(x.sz))
    && TRAPFRAME in x.sp.leaf && PageOf(x.sp.leaf[TRAPFRAME]) == x.tf
  }

  ghost predicate Images(mem: Memory, free: seq<nat>, used: set<nat>, ps: map<nat, Image>) {
    forall i :: i in ps ==> ImageOk(mem, free, used, ps[i])
  }

  /** Nobody shares a page. */
  ghost predicate Disjoint(ps: map<nat, Image>, other: set<nat>) {
    && (forall i :: i in ps ==> Foot(ps[i]) !! other)
    && (forall i, j :: i in ps && j in ps && i != j ==> Foot(ps[i]) !! Foot(ps[j]))
  }

  /** Every page in use is somebody's. */
  ghost predicate Covered(used: set<nat>, ps: map<nat, Image>, other: set<nat>) {
    forall p :: p in used && p !in other ==> exists i :: i in ps && p in Foot(ps[i])
  }

  /** The partition: ps are the processes, other the pages in use by anything else. */
  ghost predicate Whole(mem: Memory, free: seq<nat>, used: set<nat>, ps: map<nat, Image>, other: set<nat>) {
    && Apart(mem, free, used) && |mem| <= NPAGES && other <= used
    && Images(mem, free, used, ps) && Disjoint(ps, other) && Covered(used, ps, other)
  }

  /** A page the owner has besides its space. */
  lemma StepWith(m0: Memory, f0: seq<nat>, u0: set<nat>, o0: set<nat>, m1: Memory, f1: seq<nat>, u1: set<nat>,
                 o1: set<nat>, x: set<nat>)
    requires Step(m0, f0, u0, o0, m1, f1, u1, o1) && x <= u0 && x !! o0
    ensures Step(m0, f0, u0, o0 + x, m1, f1, u1, o1 + x) && x !! o1 && x <= u1
  {
    assert x <= u0 - o0;
    assert u1 - (o1 + x) == u1 - o1 - x && u0 - (o0 + x) == u0 - o0 - x;
  }

  lemma FootUsed(mem: Memory, free: seq<nat>, used: set<nat>, x: Image)
    requires ImageOk(mem, free, used, x)
    ensures Foot(x) <= used
  {
    OwnUsed(mem, free, used, x.sp, Pages(x.sz), FIXED);
  }

  /** Another process is untouched. */
  lemma OtherImage(m0: Memory, f0: seq<nat>, u0: set<nat>, o0: set<nat>, m1: Memory, f1: seq<nat>, u1: set<nat>,
                   o1: set<nat>, x: Image)
    requires Step(m0, f0, u0, o0, m1, f1, u1, o1) && Apart(m1, f1, u1) && ImageOk(m0, f0, u0, x) && Foot(x) !! o0
    ensures ImageOk(m1, f1, u1, x) && Foot(x) !! o1
  {
    hide UserOk, Step, Frames, PageOf;
    FootUsed(m0, f0, u0, x);
    Beside(m0, f0, u0, o0, m1, f1, u1, o1, x.sp, Pages(x.sz), FIXED);
    KeptSet(m0, f0, u0, o0, m1, f1, u1, o1, Foot(x));
  }

  /** The table with entry i replaced, added or removed. */
  function With(ps: map<nat, Image>, i: nat, x: Option<Image>): (r: map<nat, Image>) {
    if x.None? then ps - {i} else ps[i := x.value]
  }

  ghost function FootAt(ps: map<nat, Image>, i: nat): (r: set<nat>) {
    if i in ps then Foot(ps[i]) else {}
  }

  lemma ImagesStep(m0: Memory, f0: seq<nat>, u0: set<nat>, ps: map<nat, Image>, other: set<nat>, i: nat,
                   x: Option<Image>,
                   m1: Memory, f1: seq<nat>, u1: set<nat>, o1: set<nat>)
    requires Images(m0, f0, u0, ps) && Disjoint(ps, other) && Apart(m1, f1, u1)
    requires Step(m0, f0, u0, FootAt(ps, i), m1, f1, u1, o1)
    requires (x.Some? ==> o1 == Foot(x.value) && ImageOk(m1, f1, u1, x.value))
    requires other !! o1
    ensures Images(m1, f1, u1, With(ps, i, x)) && Disjoint(With(ps, i, x), other)
  {
    hide UserOk, Foot, ImageOk, Step;
    var o0 := FootAt(ps, i);
    forall j | j in ps && j != i
      ensures ImageOk(m1, f1, u1, ps[j]) && Foot(ps[j]) !! o1
    {
      OtherImage(m0, f0, u0, o0, m1, f1, u1, o1, ps[j]);
    }
  }

  lemma CoveredStep(u0: set<nat>, ps: map<nat, Image>, other: set<nat>, i: nat, x: Option<Image>, u1: set<nat>,
                    o1: set<nat>)
    requires Covered(u0, ps, other) && u1 - o1 == u0 - FootAt(ps, i) && o1 == (if x.Some? then Foot(x.value) else {})
    ensures Covered(u1, With(ps, i, x), other)
  {
    hide Foot;
    var ps' := With(ps, i, x);
    forall p | p in u1 && p !in other
      ensures exists j :: j in ps' && p in Foot(ps'[j])
    {
      if p in o1 {
        assert i in ps' && p in Foot(ps'[i]);
      } else {
        assert p in u1 - o1;
        var j :| j in ps && p in Foot(ps[j]);
        assert j in ps' && p in Foot(ps'[j]);
      }
    }
  }

  /** A step of the owner of slot i keeps the partition. */
  lemma WholeStep(m0: Memory, f0: seq<nat>, u0: set<nat>, ps: map<nat, Image>, other: set<nat>, i: nat,
                  x: Option<Image>,
                  m1: Memory, f1: seq<nat>, u1: set<nat>)
    requires Whole(m0, f0, u0, ps, other) && Apart(m1, f1, u1)
    requires Step(m0, f0, u0, FootAt(ps, i), m1, f1, u1, if x.Some? then Foot(x.value) else {})
    requires x.Some? ==> ImageOk(m1, f1, u1, x.value)
    ensures Whole(m1, f1, u1, With(ps, i, x), other)
  {
    hide Foot, ImageOk, Images, Disjoint, Covered, With;
    var o0, o1 := FootAt(ps, i), if x.Some? then Foot(x.value) else {};
    SizeOf(m0, f0, u0, o0, m1, f1, u1, o1);
    OtherApart(ps, other, i);
    KeptSet(m0, f0, u0, o0, m1, f1, u1, o1, other);
    ImagesStep(m0, f0, u0, ps, other, i, x, m1, f1, u1, o1);
    CoveredStep(u0, ps, other, i, x, u1, o1);
  }

  lemma OtherApart(ps: map<nat, Image>, other: set<nat>, i: nat)
    requires Disjoint(ps, other)
    ensures other !! FootAt(ps, i)
  {
  }

  lemma SizeOf(m0: Memory, f0: seq<nat>, u0: set<nat>, o0: set<nat>, m1: Memory, f1: seq<nat>, u1: set<nat>,
               o1: set<nat>)
    requires Step(m0, f0, u0, o0, m1, f1, u1, o1)
    ensures |m1| == |m0|
  {
    SameSize(m0, m1);
  }
}
