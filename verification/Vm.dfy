/** The page allocator of kernel/kalloc.c and the page-table operations of kernel/vm.c, on
    physical memory. used is history: the pages in use by anybody. */
module Vm {
  import opened PageTable

  /** The free list holds pages of memory, each once, and none in use. */
  ghost predicate Apart(mem: Memory, free: seq<nat>, used: set<nat>) {
    && (forall i, j :: 0 <= i < j < |free| ==> free[i] != free[j])
    && (forall i :: 0 <= i < |free| ==> free[i] in mem && free[i] !in used)
    && used <= mem.Keys
  }

  ghost function FreeSet(free: seq<nat>): (r: set<nat>) {
    set p | p in free
  }

  /** An address space whose page tables are in use. */
  ghost predicate SpaceOk(mem: Memory, free: seq<nat>, used: set<nat>, sp: Space) {
    Tree(mem, sp) && Apart(mem, free, used) && sp.dirs.Values <= used
  }

  /** Page tables may have been added to the space, taken from the free list; otherwise
      only pages in changed are different. */
  ghost predicate Grown(mem: Memory, free: seq<nat>, used: set<nat>, sp: Space,
                        mem': Memory, free': seq<nat>, used': set<nat>, sp': Space, changed: set<nat>) {
    && mem'.Keys == mem.Keys
    && used <= used' && FreeSet(free') + used' == FreeSet(free) + used
    && sp'.dirs.Values == sp.dirs.Values + (used' - used)
    && (forall d :: d in sp.dirs ==> d in sp'.dirs && sp'.dirs[d] == sp.dirs[d])
    && (forall p :: p in used && p in mem && p !in changed ==> mem'[p] == mem[p])
  }

  lemma GrownTrans(m0: Memory, f0: seq<nat>, u0: set<nat>, s0: Space, m1: Memory, f1: seq<nat>, u1: set<nat>, s1: Space,
                   m2: Memory, f2: seq<nat>, u2: set<nat>, s2: Space, c: set<nat>, c': set<nat>)
    requires Grown(m0, f0, u0, s0, m1, f1, u1, s1, c) && Grown(m1, f1, u1, s1, m2, f2, u2, s2, c')
    requires c' <= c + (u1 - u0)
    ensures Grown(m0, f0, u0, s0, m2, f2, u2, s2, c)
  {
  }

  // The page tables that mappings need.

  /** The page tables below the root on the way to page v. */
  ghost function TablesFor(v: nat): (r: set<Dir>) {
    {Dir(1, Prefix(v, 2)), Dir(0, Prefix(v, 1))}
  }

  /** Those on the way to the pages from k up to n. */
  ghost function TablesOf(k: nat, n: nat): (r: set<Dir>) {
    if n <= k then {} else TablesOf(k, n - 1) + TablesFor(n - 1)
  }

  const JUNK: Content := Bytes(seq(PGSIZE, _ => 5))
  const FREED: Content := Bytes(seq(PGSIZE, _ => 1))

  class Vm {
    var mem: Memory
    var free: seq<nat>

    constructor (mem: Memory, free: seq<nat>)
      ensures this.mem == mem && this.free == free
    {
      this.mem, this.free := mem, free;
    }

    method KAlloc(ghost used: set<nat>) returns (ok: bool, p: nat)
      requires Apart(mem, free, used)
      modifies this
      ensures ok == (old(free) != [])
      ensures !ok ==> mem == old(mem) && free == old(free)
      ensures ok ==> p == old(free)[0] && free == old(free)[1..] && p in old(mem) && mem == old(mem)[p := JUNK]
      ensures ok ==> p !in used && Apart(mem, free, used + {p}) && FreeSet(free) + {p} == FreeSet(old(free))
    {
      ok, p := free != [], 0;
      if ok {
        p := free[0];
        free := free[1..];
        mem := mem[p := JUNK];
        assert old(free) == [p] + free;
      }
    }

    /** kfree panics unless p is a page of memory, which being in use implies. */
    method KFree(p: nat, ghost used: set<nat>)
      requires Apart(mem, free, used) && p in used
      modifies this
      ensures free == [p] + old(free) && mem == old(mem)[p := FREED]
      ensures Apart(mem, free, used - {p}) && FreeSet(free) == FreeSet(old(free)) + {p}
    {
      mem := mem[p := FREED];
      free := [p] + free;
    }

    /** The part of walk that adds a page table under entry j of the table d. */
    method Hook(pt: nat, j: nat, ghost d: Dir, ghost sp: Space, ghost used: set<nat>)
      returns (ok: bool, p: nat, ghost sp': Space, ghost used': set<nat>)
      requires SpaceOk(mem, free, used, sp) && d in sp.dirs && d.l > 0 && pt == sp.dirs[d] && j < ENTRIES
      requires Dir(d.l - 1, Below(d, j)) !in sp.dirs
      modifies this
      ensures SpaceOk(mem, free, used', sp') && sp'.leaf == sp.leaf
      ensures Grown(old(mem), old(free), used, sp, mem, free, used', sp', sp.dirs.Values)
      ensures ok ==> Dir(d.l - 1, Below(d, j)) in sp'.dirs && p == sp'.dirs[Dir(d.l - 1, Below(d, j))]
      ensures ok ==> sp'.dirs.Keys == sp.dirs.Keys + {Dir(d.l - 1, Below(d, j))}
      ensures !ok ==> old(free) == [] && sp' == sp && mem == old(mem) && free == old(free)
    {
      hide Tree;
      sp', used' := sp, used;
      ok, p := KAlloc(used);
      if !ok {
        return;
      }
      assert Tree(mem, sp) by {
        TreeUnder(old(mem), mem, sp, p, used);
      }
      assert forall e :: e in sp.dirs ==> sp.dirs[e] in sp.dirs.Values;
      AddDir(mem, sp, d, j, p);
      mem := mem[p := Table(ZEROS)];
      mem := SetEntry(mem, pt, j, p * 1024 + 1);
      sp', used' := WithDir(sp, Dir(d.l - 1, Below(d, j)), p), used + {p};
      ValuesWith(sp.dirs, Dir(d.l - 1, Below(d, j)), p);
    }

    /** walk: the table that has the entry for virtual page v. Without alloc it is found
        exactly when it exists; with alloc it is missing only for lack of memory. */
    method Walk(root: nat, v: nat, alloc: bool, ghost sp: Space, ghost used: set<nat>)
      returns (found: bool, pt: nat, ghost sp': Space, ghost used': set<nat>)
      requires SpaceOk(mem, free, used, sp) && root == sp.dirs[ROOT] && v < MAXPAGE
      modifies this
      ensures SpaceOk(mem, free, used', sp') && sp'.leaf == sp.leaf
      ensures Grown(old(mem), old(free), used, sp, mem, free, used', sp', sp.dirs.Values)
      ensures found ==> Dir(0, v / ENTRIES) in sp'.dirs && pt == sp'.dirs[Dir(0, v / ENTRIES)]
      ensures !alloc ==> mem == old(mem) && free == old(free) && sp' == sp && used' == used
      ensures !found ==> Dir(0, v / ENTRIES) !in sp'.dirs && (alloc ==> free == [])
      ensures sp'.dirs.Keys <= sp.dirs.Keys + TablesFor(v) && (found ==> TablesFor(v) <= sp'.dirs.Keys)
    {
      hide Tree, Grown, Prefix, Index, TablesFor;
      sp', used', pt := sp, used, root;
      var level := 2;
      PrefixStep(v, 2);
      HasRoot(mem, sp);
      OnTheWay(v);
      GrownSelf(mem, free, used, sp);
      while level > 0
        invariant 0 <= level <= 2 && SpaceOk(mem, free, used', sp') && sp'.leaf == sp.leaf
        invariant Grown(old(mem), old(free), used, sp, mem, free, used', sp', sp.dirs.Values)
        invariant Dir(level, Prefix(v, level + 1)) in sp'.dirs && pt == sp'.dirs[Dir(level, Prefix(v, level + 1))]
        invariant !alloc ==> mem == old(mem) && free == old(free) && sp' == sp && used' == used
        invariant sp'.dirs.Keys <= sp.dirs.Keys + TablesFor(v)
        invariant level == 0 ==> Dir(1, Prefix(v, 2)) in sp'.dirs
      {
        ghost var d := Dir(level, Prefix(v, level + 1));
        var j := Index(v, level);
        PrefixStep(v, level);
        assert Below(d, j) == Prefix(v, level);
        ReadDir(mem, sp', d, j);
        var pte := mem[pt].ptes[j];
        if Valid(pte) {
          pt := PageOf(pte);
        } else {
          if !alloc {
            Unwalked(mem, sp', d, v);
            return false, pt, sp', used';
          }
          ghost var m1, f1, u1, s1 := mem, free, used', sp';
          var ok;
          GrownValues(old(mem), old(free), used, sp, m1, f1, u1, s1, sp.dirs.Values);
          ok, pt, sp', used' := Hook(pt, j, d, sp', used');
          GrownKeys(m1, f1, u1, s1, mem, free, used', sp', s1.dirs.Values);
          GrownTrans(old(mem), old(free), used, sp, m1, f1, u1, s1, mem, free, used', sp', sp.dirs.Values,
                     s1.dirs.Values);
          if !ok {
            Unwalked(mem, sp', d, v);
            return false, pt, sp', used';
          }
        }
        level := level - 1;
      }
      found := true;
    }

    /** One turn of the loop in mappages. */
    method MapOne(root: nat, v: nat, pte: nat, ghost sp: Space, ghost used: set<nat>)
      returns (ok: bool, ghost sp': Space, ghost used': set<nat>)
      requires SpaceOk(mem, free, used, sp) && root == sp.dirs[ROOT] && v < MAXPAGE && v !in sp.leaf && Valid(pte)
      modifies this
      ensures SpaceOk(mem, free, used', sp')
      ensures Grown(old(mem), old(free), used, sp, mem, free, used', sp', sp.dirs.Values)
      ensures sp'.leaf == if ok then sp.leaf[v := pte] else sp.leaf
      ensures !ok ==> free == [] && Dir(0, v / ENTRIES) !in sp'.dirs
      ensures sp'.dirs.Keys <= sp.dirs.Keys + TablesFor(v) && (ok ==> TablesFor(v) <= sp'.dirs.Keys)
    {
      hide Tree, Grown, Apart;
      var pt;
      ok, pt, sp', used' := Walk(root, v, true, sp, used);
      if ok {
        PutLeaf(mem, free, used', sp', v, pte);
        GrownValues(old(mem), old(free), used, sp, mem, free, used', sp', sp.dirs.Values);
        GrownTrans(old(mem), old(free), used, sp, mem, free, used', sp',
                   SetEntry(mem, pt, v % ENTRIES, pte), free, used', WithLeaf(sp', v,
                            pte), sp.dirs.Values, sp'.dirs.Values);
        mem := SetEntry(mem, pt, v % ENTRIES, pte);
        sp' := WithLeaf(sp', v, pte);
      }
    }

    /** mappages of n pages from v on. It panics at a page that is mapped already. When it
        runs out of memory, some pages at the front stay mapped. */
    method MapPages(root: nat, v: nat, n: nat, ppn: nat, perm: nat, ghost sp: Space, ghost used: set<nat>)
      returns (ok: bool, ghost sp': Space, ghost used': set<nat>, ghost k: nat)
      requires SpaceOk(mem, free, used, sp) && root == sp.dirs[ROOT] && 0 < n && v + n <= MAXPAGE && perm < 1024
      requires forall w :: v <= w < v + n ==> w !in sp.leaf
      modifies this
      ensures SpaceOk(mem, free, used', sp')
      ensures Grown(old(mem), old(free), used, sp, mem, free, used', sp', sp.dirs.Values)
      ensures k <= n && sp'.leaf == Mapped(sp.leaf, v, k, ppn, perm)
      ensures if ok then k == n else k < n && free == [] && Dir(0, (v + k) / ENTRIES) !in sp'.dirs
      ensures sp.dirs.Keys <= sp'.dirs.Keys <= sp.dirs.Keys + TablesOf(v, v + k + if ok then 0 else 1)
      ensures TablesOf(v, v + k) <= sp'.dirs.Keys
    {
      hide SpaceOk, Grown, Mapped, MakePte, Valid, TablesFor;
      sp', used', k := sp, used, 0;
      MappedStart(sp.leaf, v, ppn, perm);
      GrownSelf(mem, free, used, sp);
      var a := v;
      while a < v + n
        invariant k == a - v <= n && SpaceOk(mem, free, used', sp') && ROOT in sp.dirs
        invariant Grown(old(mem), old(free), used, sp, mem, free, used', sp', sp.dirs.Values)
        invariant sp'.leaf == Mapped(sp.leaf, v, k, ppn, perm)
        invariant TablesOf(v, a) <= sp'.dirs.Keys && sp.dirs.Keys <= sp'.dirs.Keys <= sp.dirs.Keys + TablesOf(v, a)
      {
        MappedStep(sp.leaf, v, k, ppn, perm);
        GrownValues(old(mem), old(free), used, sp, mem, free, used', sp', sp.dirs.Values);
        ghost var m1, f1, u1, s1 := mem, free, used', sp';
        ok, sp', used' := MapOne(root, a, MakePte(ppn + (a - v), perm), sp', used');
        GrownKeys(m1, f1, u1, s1, mem, free, used', sp', s1.dirs.Values);
        GrownTrans(old(mem), old(free), used, sp, m1, f1, u1, s1, mem, free, used', sp', sp.dirs.Values,
                   s1.dirs.Values);
        if !ok {
          return;
        }
        a, k := a + 1, k + 1;
      }
      ok := true;
    }

    /** One turn of the loop in uvmunmap. It panics at a page that is not mapped. */
    method UnmapOne(root: nat, v: nat, doFree: bool, ghost sp: Space,
                    ghost used: set<nat>) returns (ghost used': set<nat>)
      requires SpaceOk(mem, free, used, sp) && root == sp.dirs[ROOT] && v < MAXPAGE && v in sp.leaf
      requires Flags(sp.leaf[v]) != 1
      requires doFree ==> PageOf(sp.leaf[v]) in used && PageOf(sp.leaf[v]) !in sp.dirs.Values
      modifies this
      ensures SpaceOk(mem, free, used', WithLeaf(sp, v, 0))
      ensures used' == if doFree then used - {PageOf(sp.leaf[v])} else used
      ensures Shrunk(old(mem), old(free), used, mem, free, used', sp.dirs.Values)
    {
      hide Tree, Grown;
      used' := used;
      LeafTable(mem, sp, v);
      var found, pt, _, _ := Walk(root, v, false, sp, used);
      ReadLeaf(mem, sp, v);
      var pte := mem[pt].ptes[v % ENTRIES];
      if doFree {
        KFree(PageOf(pte), used);
        used' := used - {PageOf(pte)};
        TreeAside(old(mem), mem, sp, PageOf(pte));
      }
      PutLeaf(mem, free, used', sp, v, 0);
      mem := SetEntry(mem, pt, v % ENTRIES, 0);
    }

    /** uvmunmap of n pages from v on: exactly they go, and with doFree their frames. */
    method Unmap(root: nat, v: nat, n: nat, doFree: bool, ghost sp: Space, ghost used: set<nat>)
      returns (ghost sp': Space, ghost used': set<nat>)
      requires SpaceOk(mem, free, used, sp) && root == sp.dirs[ROOT] && v + n <= MAXPAGE
      requires forall w :: v <= w < v + n ==> w in sp.leaf && Flags(sp.leaf[w]) != 1
      requires doFree ==> OwnFrames(used, sp, v, n)
      modifies this
      ensures sp' == sp.(leaf := Unmapped(sp.leaf, v, n)) && SpaceOk(mem, free, used', sp')
      ensures used' == if doFree then used - Frames(sp.leaf, v, n) else used
      ensures Shrunk(old(mem), old(free), used, mem, free, used', sp.dirs.Values)
    {
      hide SpaceOk, Unmapped, Frames, Shrunk;
      sp', used' := sp, used;
      UnmapStart(sp, v);
      ShrunkSelf(mem, free, used, sp.dirs.Values);
      var a := v;
      while a < v + n
        invariant v <= a <= v + n && SpaceOk(mem, free, used', sp') && sp' == sp.(leaf := Unmapped(sp.leaf, v, a - v))
        invariant used' == if doFree then used - Frames(sp.leaf, v, a - v) else used
        invariant Shrunk(old(mem), old(free), used, mem, free, used', sp.dirs.Values)
      {
        UnmapStep(used, sp, v, a - v);
        if doFree {
          FramesStep(used, sp, v, a - v, n);
        }
        ghost var m1, f1, u1 := mem, free, used';
        used' := UnmapOne(root, a, doFree, sp', used');
        ShrunkTrans(old(mem), old(free), used, m1, f1, u1, mem, free, used', sp.dirs.Values);
        sp' := WithLeaf(sp', a, 0);
        a := a + 1;
      }
    }
  }

  /** Pages may have been given back to the free list; otherwise only pages in changed are
      different. */
  ghost predicate Shrunk(mem: Memory, free: seq<nat>, used: set<nat>, mem': Memory, free': seq<nat>, used': set<nat>,
                         changed: set<nat>) {
    && mem'.Keys == mem.Keys
    && used' <= used && FreeSet(free') + used' == FreeSet(free) + used
    && (forall p :: p in used' && p in mem && p !in changed ==> mem'[p] == mem[p])
  }

  lemma ShrunkSelf(mem: Memory, free: seq<nat>, used: set<nat>, changed: set<nat>)
    ensures Shrunk(mem, free, used, mem, free, used, changed)
  {
  }

  lemma ShrunkTrans(m0: Memory, f0: seq<nat>, u0: set<nat>, m1: Memory, f1: seq<nat>, u1: set<nat>,
                    m2: Memory, f2: seq<nat>, u2: set<nat>, changed: set<nat>)
    requires Shrunk(m0, f0, u0, m1, f1, u1, changed) && Shrunk(m1, f1, u1, m2, f2, u2, changed)
    ensures Shrunk(m0, f0, u0, m2, f2, u2, changed)
  {
  }

  lemma LeafTable(mem: Memory, sp: Space, v: nat)
    requires Tree(mem, sp) && v in sp.leaf
    ensures Dir(0, v / ENTRIES) in sp.dirs && Valid(sp.leaf[v])
  {
    assert HasTable(sp, v);
  }

  /** Writing a page that is not a table leaves the tree alone. */
  lemma TreeAside(mem: Memory, mem': Memory, sp: Space, p: nat)
    requires Tree(mem, sp) && p !in sp.dirs.Values && mem'.Keys == mem.Keys + {p}
    requires forall q :: q in mem && q != p ==> mem'[q] == mem[q]
    ensures Tree(mem', sp)
  {
    forall d | d in sp.dirs
      ensures sp.dirs[d] in mem' && mem'[sp.dirs[d]] == mem[sp.dirs[d]]
    {
      assert sp.dirs[d] in sp.dirs.Values;
      assert TableOk(mem, sp, d);
    }
    TreeFrame(mem, mem', sp);
  }

  lemma UnmapStart(sp: Space, v: nat)
    ensures Unmapped(sp.leaf, v, 0) == sp.leaf && Frames(sp.leaf, v, 0) == {}
    ensures sp == sp.(leaf := Unmapped(sp.leaf, v, 0))
  {
  }

  lemma UnmapStep(used: set<nat>, sp: Space, v: nat, n: nat)
    requires v + n in sp.leaf
    ensures v + n in Unmapped(sp.leaf, v, n) && Unmapped(sp.leaf, v, n)[v + n] == sp.leaf[v + n]
    ensures WithLeaf(sp.(leaf := Unmapped(sp.leaf, v, n)), v + n, 0) == sp.(leaf := Unmapped(sp.leaf, v, n + 1))
  {
  }

  lemma FramesStep(used: set<nat>, sp: Space, v: nat, n: nat, all: nat)
    requires OwnFrames(used, sp, v, all) && n < all
    ensures PageOf(sp.leaf[v + n]) !in sp.dirs.Values && PageOf(sp.leaf[v + n]) in used - Frames(sp.leaf, v, n)
    ensures used - Frames(sp.leaf, v, n) - {PageOf(sp.leaf[v + n])} == used - Frames(sp.leaf, v, n + 1)
  {
    assert Frames(sp.leaf, v, n + 1) == Frames(sp.leaf, v, n) + {PageOf(sp.leaf[v + n])};
  }

  lemma GrownSelf(mem: Memory, free: seq<nat>, used: set<nat>, sp: Space)
    requires SpaceOk(mem, free, used, sp)
    ensures Grown(mem, free, used, sp, mem, free, used, sp, sp.dirs.Values) && ROOT in sp.dirs
  {
    HasRoot(mem, sp);
    hide Tree;
  }

  lemma GrownValues(mem: Memory, free: seq<nat>, used: set<nat>, sp: Space,
                    mem': Memory, free': seq<nat>, used': set<nat>, sp': Space, changed: set<nat>)
    requires Grown(mem, free, used, sp, mem', free', used', sp', changed)
    ensures sp'.dirs.Values == sp.dirs.Values + (used' - used) && used <= used'
    ensures ROOT in sp.dirs ==> ROOT in sp'.dirs && sp'.dirs[ROOT] == sp.dirs[ROOT]
  {
  }

  lemma OnTheWay(v: nat)
    ensures Prefix(v, 1) == v / ENTRIES && TablesFor(v) == {Dir(1, Prefix(v, 2)), Dir(0, Prefix(v, 1))}
  {
  }

  lemma GrownKeys(mem: Memory, free: seq<nat>, used: set<nat>, sp: Space,
                  mem': Memory, free': seq<nat>, used': set<nat>, sp': Space, changed: set<nat>)
    requires Grown(mem, free, used, sp, mem', free', used', sp', changed)
    ensures sp.dirs.Keys <= sp'.dirs.Keys
  {
  }

  /** A directory entry is valid exactly when the table below exists, and points to it. */
  lemma ReadDir(mem: Memory, sp: Space, d: Dir, j: nat)
    requires Tree(mem, sp) && d in sp.dirs && d.l > 0 && j < ENTRIES
    ensures IsTable(mem, sp.dirs[d])
    ensures var pte, c := mem[sp.dirs[d]].ptes[j], Dir(d.l - 1, Below(d, j));
            (Valid(pte) <==> c in sp.dirs) && (c in sp.dirs ==> PageOf(pte) == sp.dirs[c])
  {
    assert TableOk(mem, sp, d);
    hide Valid, PageOf, DirEntry, Below, DirsOk;
    DirEntryMeans(sp.dirs, Dir(d.l - 1, Below(d, j)));
  }

  lemma DirEntryMeans(dirs: map<Dir, nat>, d: Dir)
    ensures (Valid(DirEntry(dirs, d)) <==> d in dirs) && (d in dirs ==> PageOf(DirEntry(dirs, d)) == dirs[d])
  {
    hide Valid, PageOf;
    if d in dirs {
      EntryParts(dirs[d]);
    } else {
      ZeroParts();
    }
  }

  lemma EntryParts(p: nat)
    ensures Valid(p * 1024 + 1) && PageOf(p * 1024 + 1) == p
  {
    Odd(p * 512);
    assert p * 1024 + 1 == 2 * (p * 512) + 1;
  }

  lemma ZeroParts()
    ensures !Valid(0)
  {
  }

  lemma Odd(k: nat)
    ensures (2 * k + 1) % 2 == 1
  {
  }

  /** Where the walk stops short, the last table does not exist. */
  lemma Unwalked(mem: Memory, sp: Space, d: Dir, v: nat)
    requires Tree(mem, sp) && 0 < d.l <= 2 && d.k == Prefix(v, d.l + 1) && Dir(d.l - 1, Prefix(v, d.l)) !in sp.dirs
    ensures Dir(0, v / ENTRIES) !in sp.dirs
  {
    PrefixStep(v, 1);
    assert Dir(0, v / ENTRIES) in sp.dirs ==> HasParent(sp, Dir(0, v / ENTRIES));
  }

  lemma HasRoot(mem: Memory, sp: Space)
    requires Tree(mem, sp)
    ensures ROOT in sp.dirs
  {
  }

  lemma ReadLeaf(mem: Memory, sp: Space, v: nat)
    requires Tree(mem, sp) && Dir(0, v / ENTRIES) in sp.dirs
    ensures var p := sp.dirs[Dir(0, v / ENTRIES)];
            IsTable(mem, p) && mem[p].ptes[v % ENTRIES] == LeafEntry(sp.leaf, v)
    ensures LeafEntry(sp.leaf, v) != 0 <==> v in sp.leaf
  {
    var d := Dir(0, v / ENTRIES);
    assert TableOk(mem, sp, d);
    assert Below(d, v % ENTRIES) == v;
  }

  /** A leaf entry changes: the space stays well formed, and only one page is written. */
  lemma PutLeaf(mem: Memory, free: seq<nat>, used: set<nat>, sp: Space, v: nat, pte: nat)
    requires SpaceOk(mem, free, used, sp) && Dir(0, v / ENTRIES) in sp.dirs && (pte == 0 || Valid(pte))
    ensures var p := sp.dirs[Dir(0, v / ENTRIES)];
            IsTable(mem, p) && p in sp.dirs.Values &&
            var mem', sp' := SetEntry(mem, p, v % ENTRIES, pte), WithLeaf(sp, v, pte);
            SpaceOk(mem', free, used, sp') && Grown(mem, free, used, sp, mem', free, used, sp', sp.dirs.Values)
  {
    hide Tree;
    SetLeaf(mem, sp, v, pte);
    var p := sp.dirs[Dir(0, v / ENTRIES)];
    assert p in sp.dirs.Values && p in used;
  }

  /** The flat map with n pages from v on mapped to consecutive frames. */
  ghost function Mapped(leaf: map<nat, nat>, v: nat, n: nat, ppn: nat, perm: nat): (r: map<nat, nat>)
    requires perm < 1024
  {
    if n == 0 then leaf else Mapped(leaf, v, n - 1, ppn, perm)[v + n - 1 := MakePte(ppn + n - 1, perm)]
  }

  lemma {:induction false} MappedAt(leaf: map<nat, nat>, v: nat, n: nat, ppn: nat, perm: nat)
    requires perm < 1024
    ensures var r := Mapped(leaf, v, n, ppn, perm);
            && (forall w :: w in r <==> w in leaf || v <= w < v + n)
            && (forall w :: w in r ==> r[w] == if v <= w < v + n then MakePte(ppn + (w - v), perm) else leaf[w])
  {
    if n > 0 {
      MappedAt(leaf, v, n - 1, ppn, perm);
    }
  }

  lemma MappedStart(leaf: map<nat, nat>, v: nat, ppn: nat, perm: nat)
    requires perm < 1024
    ensures Mapped(leaf, v, 0, ppn, perm) == leaf
  {
  }

  lemma MadeValid(ppn: nat, perm: nat)
    requires perm < 1024
    ensures Valid(MakePte(ppn, perm))
  {
    var k := ppn * 512 + perm / 2;
    Odd(k);
    assert MakePte(ppn, perm) == 2 * k + 1 by {
      assert perm == 2 * (perm / 2) + perm % 2;
    }
  }

  lemma MappedStep(leaf: map<nat, nat>, v: nat, n: nat, ppn: nat, perm: nat)
    requires perm < 1024
    ensures Valid(MakePte(ppn + n, perm)) && (v + n in Mapped(leaf, v, n, ppn, perm) <==> v + n in leaf)
    ensures Mapped(leaf, v, n + 1, ppn, perm) == Mapped(leaf, v, n, ppn, perm)[v + n := MakePte(ppn + n, perm)]
  {
    MadeValid(ppn + n, perm);
    hide MakePte, Valid, PageOf, Flags;
    MappedAt(leaf, v, n, ppn, perm);
  }

  /** The flat map without n pages from v on. */
  ghost function Unmapped(leaf: map<nat, nat>, v: nat, n: nat): (r: map<nat, nat>) {
    map w | w in leaf && !(v <= w < v + n) :: leaf[w]
  }

  /** The frames of n pages from v on. */
  ghost function Frames(leaf: map<nat, nat>, v: nat, n: nat): (r: set<nat>) {
    set w | w in leaf && v <= w < v + n :: PageOf(leaf[w])
  }

  /** The pages from v on are mapped, each to a frame of its own that is in use and not a
      page table. */
  ghost predicate OwnFrames(used: set<nat>, sp: Space, v: nat, n: nat) {
    && (forall w :: v <= w < v + n ==>
       w in sp.leaf && PageOf(sp.leaf[w]) in used && PageOf(sp.leaf[w]) !in sp.dirs.Values)
    && (forall w, x :: v <= w < x < v + n ==> PageOf(sp.leaf[w]) != PageOf(sp.leaf[x]))
  }

  /** Writing a page not in use leaves the tree alone. */
  lemma TreeUnder(mem: Memory, mem': Memory, sp: Space, p: nat, used: set<nat>)
    requires Tree(mem, sp) && sp.dirs.Values <= used && p !in used && mem'.Keys == mem.Keys
    requires forall q :: q in mem && q != p ==> mem'[q] == mem[q]
    ensures Tree(mem', sp)
  {
    forall d | d in sp.dirs
      ensures sp.dirs[d] in mem' && mem'[sp.dirs[d]] == mem[sp.dirs[d]]
    {
      assert sp.dirs[d] in sp.dirs.Values;
      assert TableOk(mem, sp, d);
    }
    TreeFrame(mem, mem', sp);
  }

  lemma ValuesWith(dirs: map<Dir, nat>, d: Dir, p: nat)
    requires d !in dirs
    ensures dirs[d := p].Values == dirs.Values + {p}
  {
    var dirs' := dirs[d := p];
    assert dirs'[d] in dirs'.Values;
    forall x | x in dirs.Values
      ensures x in dirs'.Values
    {
      var e :| e in dirs && dirs[e] == x;
      assert dirs'[e] == x;
    }
  }
}
