/** freewalk of kernel/vm.c: the page tables of an address space without leaves are given
    back, each once. */
module PageFree {
  import opened PageTable
  import opened Vm

  /** e is d or lies below it. */
  predicate Under(e: Dir, d: Dir)
    decreases d.l - e.l
  {
    e == d || (e.l < d.l && Under(Dir(e.l + 1, e.k / ENTRIES), d))
  }

  ghost function SubPages(sp: Space, d: Dir): (r: set<nat>) {
    set e | e in sp.dirs && Under(e, d) :: sp.dirs[e]
  }

  /** The space without the tables from c downwards. */
  ghost function Pruned(sp: Space, c: Dir): (r: Space) {
    sp.(dirs := map e | e in sp.dirs && !Under(e, c) :: sp.dirs[e])
  }

  /** What lies strictly below d lies under one of its entries. */
  lemma {:induction false} ByChild(e: Dir, d: Dir)
    requires Under(e, d) && e != d
    ensures exists j :: 0 <= j < ENTRIES && Under(e, Dir(d.l - 1, Below(d, j)))
    decreases d.l - e.l
  {
    var parent := Dir(e.l + 1, e.k / ENTRIES);
    if parent == d {
      var j := e.k % ENTRIES;
      assert Below(d, j) == e.k;
      assert Under(e, Dir(d.l - 1, Below(d, j)));
    } else {
      ByChild(parent, d);
      var j :| 0 <= j < ENTRIES && Under(parent, Dir(d.l - 1, Below(d, j)));
      assert Under(e, Dir(d.l - 1, Below(d, j)));
    }
  }

  lemma {:induction false} UnderRoot(sp: Space, e: Dir)
    requires DirsOk(sp) && e in sp.dirs
    ensures Under(e, ROOT)
    decreases 2 - e.l
  {
    assert HasParent(sp, e);
    if e.l < 2 {
      UnderRoot(sp, Dir(e.l + 1, e.k / ENTRIES));
    }
  }

  /** Cutting at an entry of d cuts nothing else that d has below it. */
  lemma PrunedPages(sp: Space, c: Dir)
    requires Injective(sp.dirs)
    ensures Pruned(sp, c).dirs.Values == sp.dirs.Values - SubPages(sp, c)
  {
    var dirs' := Pruned(sp, c).dirs;
    forall p
      ensures p in dirs'.Values <==> p in sp.dirs.Values - SubPages(sp, c)
    {
      if p in sp.dirs.Values {
        var e :| e in sp.dirs && sp.dirs[e] == p;
        if Under(e, c) {
          assert p in SubPages(sp, c);
        } else {
          assert dirs'[e] == p;
        }
      }
    }
  }

  lemma PrunedDirs(sp: Space, d: Dir, c: Dir)
    requires DirsOk(sp) && sp.leaf == map[] && d in sp.dirs && d.l == c.l + 1
    ensures DirsOk(Pruned(sp, c)) && d in Pruned(sp, c).dirs
  {
    var sp' := Pruned(sp, c);
    assert HasParent(sp, d);
    forall e | e in sp'.dirs
      ensures HasParent(sp', e)
    {
      assert HasParent(sp, e);
    }
  }

  /** After the tables under entry j of d are gone and the entry is cleared, what is left
      is a tree again. */
  lemma PrunedTable(mem: Memory, mem': Memory, sp: Space, d: Dir, j: nat, e: Dir)
    requires Tree(mem, sp) && sp.leaf == map[] && d in sp.dirs && d.l > 0 && j < ENTRIES && IsTable(mem, sp.dirs[d])
    requires e in Pruned(sp, Dir(d.l - 1, Below(d, j))).dirs && sp.dirs[e] in mem'
    requires mem'[sp.dirs[e]] == if e == d then Table(mem[sp.dirs[d]].ptes[j := 0]) else mem[sp.dirs[e]]
    ensures TableOk(mem', Pruned(sp, Dir(d.l - 1, Below(d, j))), e)
  {
    hide DirsOk;
    var c := Dir(d.l - 1, Below(d, j));
    var sp' := Pruned(sp, c);
    assert TableOk(mem, sp, e);
    if e.l > 0 {
      forall i | 0 <= i < ENTRIES
        ensures DirEntry(sp'.dirs, Dir(e.l - 1, Below(e, i))) ==
                if e == d && i == j then 0 else DirEntry(sp.dirs, Dir(e.l - 1, Below(e, i)))
      {
        var x := Dir(e.l - 1, Below(e, i));
        assert Below(e, i) / ENTRIES == e.k && Below(e, i) % ENTRIES == i;
        assert Below(d, j) / ENTRIES == d.k && Below(d, j) % ENTRIES == j;
        assert Dir(x.l + 1, x.k / ENTRIES) == e;
        assert x == c <==> e == d && i == j;
      }
    }
  }

  lemma PrunedTree(mem: Memory, mem': Memory, sp: Space, d: Dir, j: nat)
    requires Tree(mem, sp) && sp.leaf == map[] && d in sp.dirs && d.l > 0 && j < ENTRIES && IsTable(mem, sp.dirs[d])
    requires forall e :: e in sp.dirs && !Under(e, Dir(d.l - 1, Below(d, j))) ==>
               sp.dirs[e] in mem' && mem'[sp.dirs[e]] == if e == d then Table(mem[sp.dirs[d]].ptes[j := 0])
                 else mem[sp.dirs[e]]
    ensures Tree(mem', Pruned(sp, Dir(d.l - 1, Below(d, j))))
  {
    var c := Dir(d.l - 1, Below(d, j));
    PrunedDirs(sp, d, c);
    hide DirsOk, TableOk;
    forall e | e in Pruned(sp, c).dirs
      ensures TableOk(mem', Pruned(sp, c), e)
    {
      PrunedTable(mem, mem', sp, d, j, e);
    }
  }

  /** cur is sp without what lies under the first i entries of d. */
  ghost predicate Cleared(sp: Space, cur: Space, d: Dir, i: nat) {
    && cur.leaf == map[]
    && (forall e :: e in cur.dirs ==> e in sp.dirs && cur.dirs[e] == sp.dirs[e])
    && (forall e :: e in sp.dirs && e !in cur.dirs ==> Under(e, d) && e != d)
    && (d.l > 0 ==> forall e, j :: e in cur.dirs && 0 <= j < i ==> !Under(e, Dir(d.l - 1, Below(d, j))))
  }

  lemma ClearNext(sp: Space, cur: Space, d: Dir, i: nat)
    requires Cleared(sp, cur, d, i) && 0 < d.l <= 2 && i < ENTRIES
    ensures var c := Dir(d.l - 1, Below(d, i));
            Cleared(sp, Pruned(cur, c), d, i + 1) && (c !in cur.dirs && DirsOk(cur) ==> Cleared(sp, cur, d, i + 1))
  {
    var c := Dir(d.l - 1, Below(d, i));
    assert Below(d, i) / ENTRIES == d.k;
    assert Under(Dir(c.l + 1, c.k / ENTRIES), d) && Under(c, d);
    forall e | e in cur.dirs && Under(e, c)
      ensures DirsOk(cur) ==> c in cur.dirs
    {
      if DirsOk(cur) {
        UpTo(cur, e, c);
      }
    }
    forall e | e in sp.dirs && Under(e, c)
      ensures Under(e, d) && e != d
    {
      UnderTrans(e, c, d);
    }
  }

  lemma {:induction false} UpTo(sp: Space, e: Dir, c: Dir)
    requires DirsOk(sp) && e in sp.dirs && Under(e, c) && c.l <= 2
    ensures c in sp.dirs
    decreases c.l - e.l
  {
    if e != c {
      assert HasParent(sp, e);
      UpTo(sp, Dir(e.l + 1, e.k / ENTRIES), c);
    }
  }

  lemma {:induction false} UnderTrans(e: Dir, c: Dir, d: Dir)
    requires Under(e, c) && c.l < d.l && Under(c, d)
    ensures Under(e, d) && e.l < d.l
    decreases c.l - e.l
  {
    if e != c {
      UnderTrans(Dir(e.l + 1, e.k / ENTRIES), c, d);
    }
  }

  /** With all entries cleared, d is the last of its pages. */
  lemma LastPage(sp: Space, cur: Space, d: Dir)
    requires Cleared(sp, cur, d, ENTRIES) && Injective(sp.dirs) && d in sp.dirs && d in cur.dirs
    ensures SubPages(sp, d) == (sp.dirs.Values - cur.dirs.Values) + {sp.dirs[d]}
  {
    forall e | e in sp.dirs && Under(e, d) && e != d
      ensures e !in cur.dirs
    {
      ByChild(e, d);
    }
    forall e | e in sp.dirs
      ensures sp.dirs[e] in cur.dirs.Values <==> e in cur.dirs
    {
      assert e in cur.dirs ==> cur.dirs[e] in cur.dirs.Values;
    }
    assert forall e :: e in sp.dirs ==> sp.dirs[e] in sp.dirs.Values;
    assert forall e :: e in sp.dirs && Under(e, d) ==> sp.dirs[e] in SubPages(sp, d);
  }

  /** Without leaves an entry is valid exactly when there is a table below it. */
  lemma EntryKinds(mem: Memory, free: seq<nat>, used: set<nat>, sp: Space, d: Dir, i: nat)
    requires SpaceOk(mem, free, used, sp) && sp.leaf == map[] && d in sp.dirs && i < ENTRIES
    ensures IsTable(mem, sp.dirs[d]) && d.l <= 2 && Injective(sp.dirs) && DirsOk(sp)
    ensures var pte := mem[sp.dirs[d]].ptes[i];
            && (Valid(pte) <==> d.l > 0 && Dir(d.l - 1, Below(d, i)) in sp.dirs)
            && (Valid(pte) ==> pte / 2 % 8 == 0 && PageOf(pte) == sp.dirs[Dir(d.l - 1, Below(d, i))])
  {
    assert TableOk(mem, sp, d) && HasParent(sp, d);
  }

  /** The child is freed and then the entry cleared. */
  lemma FreedEntry(m1: Memory, f1: seq<nat>, u1: set<nat>, sp: Space, d: Dir, i: nat, m2: Memory, f2: seq<nat>,
                   u2: set<nat>)
    requires SpaceOk(m1, f1, u1, sp) && sp.leaf == map[] && d in sp.dirs && i < ENTRIES && d.l > 0
    requires u2 == u1 - SubPages(sp, Dir(d.l - 1, Below(d, i))) && Apart(m2, f2, u2)
    requires Shrunk(m1, f1, u1, m2, f2, u2, {})
    ensures IsTable(m2, sp.dirs[d]) && d in Pruned(sp, Dir(d.l - 1, Below(d, i))).dirs
    ensures var m3 := SetEntry(m2, sp.dirs[d], i, 0);
            && SpaceOk(m3, f2, u2, Pruned(sp, Dir(d.l - 1, Below(d, i))))
            && Shrunk(m1, f1, u1, m3, f2, u2, {sp.dirs[d]})
  {
    EntryKinds(m1, f1, u1, sp, d, i);
    var c := Dir(d.l - 1, Below(d, i));
    PrunedPages(sp, c);
    hide Tree, TableOk;
    hide DirsOk;
    forall e | e in sp.dirs && !Under(e, c)
      ensures sp.dirs[e] in u2 && sp.dirs[e] in m2 && m2[sp.dirs[e]] == m1[sp.dirs[e]]
    {
      assert Pruned(sp, c).dirs[e] in Pruned(sp, c).dirs.Values;
      assert sp.dirs[e] in u1;
    }
    assert d in Pruned(sp, c).dirs;
    PrunedTree(m1, SetEntry(m2, sp.dirs[d], i, 0), sp, d, i);
  }

  lemma ShrunkMore(m0: Memory, f0: seq<nat>, u0: set<nat>, m1: Memory, f1: seq<nat>, u1: set<nat>, p: nat)
    requires Shrunk(m0, f0, u0, m1, f1, u1, {p}) && Apart(m1, f1, u1) && p in u1
    ensures Shrunk(m0, f0, u0, m1[p := FREED], [p] + f1, u1 - {p}, {})
  {
  }

  /** Frees the tables from d downwards. "freewalk: leaf" cannot happen: without leaves
      every valid entry points to a table. */
  method FreeWalk(vm: Vm, pt: nat, ghost d: Dir, ghost sp: Space, ghost used: set<nat>) returns (ghost used': set<nat>)
    requires SpaceOk(vm.mem, vm.free, used, sp) && sp.leaf == map[] && d in sp.dirs && pt == sp.dirs[d]
    modifies vm
    ensures used' == used - SubPages(sp, d) && Apart(vm.mem, vm.free, used')
    ensures Shrunk(old(vm.mem), old(vm.free), used, vm.mem, vm.free, used', {})
    decreases d.l
  {
    hide SpaceOk, Shrunk, SubPages, Pruned, Cleared, DirsOk, Apart;
    ghost var cur := sp;
    used' := used;
    ClearStart(sp, d);
    ShrunkSelf(vm.mem, vm.free, used, {pt});
    EntryKinds(vm.mem, vm.free, used, sp, d, 0);
    var i := 0;
    while i < ENTRIES
      invariant 0 <= i <= ENTRIES && SpaceOk(vm.mem, vm.free, used', cur) && d in cur.dirs && cur.dirs[d] == pt
      invariant cur.leaf == map[]
      invariant Cleared(sp, cur, d, i) && used' == used - (sp.dirs.Values - cur.dirs.Values)
      invariant Shrunk(old(vm.mem), old(vm.free), used, vm.mem, vm.free, used', {pt})
    {
      EntryKinds(vm.mem, vm.free, used', cur, d, i);
      var pte := vm.mem[pt].ptes[i];
      if Valid(pte) && pte / 2 % 8 == 0 {
        ghost var c := Dir(d.l - 1, Below(d, i));
        ghost var m1, f1, u1 := vm.mem, vm.free, used';
        used' := FreeWalk(vm, PageOf(pte), c, cur, used');
        FreedEntry(m1, f1, u1, cur, d, i, vm.mem, vm.free, used');
        vm.mem := SetEntry(vm.mem, pt, i, 0);
        ShrunkTrans(old(vm.mem), old(vm.free), used, m1, f1, u1, vm.mem, vm.free, used', {pt});
        ClearNext(sp, cur, d, i);
        PrunedUsed(sp, cur, c, d, i, used);
        cur := Pruned(cur, c);
      } else {
        assert !Valid(pte);
        ClearSame(sp, cur, d, i);
      }
      i := i + 1;
    }
    LastPage(sp, cur, d);
    LastUsed(vm.mem, vm.free, used', cur, d);
    ShrunkMore(old(vm.mem), old(vm.free), used, vm.mem, vm.free, used', pt);
    vm.KFree(pt, used');
    used' := used' - {pt};
  }

  lemma ClearStart(sp: Space, d: Dir)
    requires sp.leaf == map[]
    ensures Cleared(sp, sp, d, 0)
  {
  }

  lemma ClearSame(sp: Space, cur: Space, d: Dir, i: nat)
    requires Cleared(sp, cur, d, i) && DirsOk(cur) && d.l <= 2 && i < ENTRIES
    requires d.l == 0 || Dir(d.l - 1, Below(d, i)) !in cur.dirs
    ensures Cleared(sp, cur, d, i + 1)
  {
    if d.l > 0 {
      ClearNext(sp, cur, d, i);
    }
  }

  lemma PrunedUsed(sp: Space, cur: Space, c: Dir, d: Dir, i: nat, used: set<nat>)
    requires Cleared(sp, cur, d, i) && Injective(cur.dirs) && d in cur.dirs && d.l == c.l + 1
    ensures used - (sp.dirs.Values - cur.dirs.Values) - SubPages(cur,
            c) == used - (sp.dirs.Values - Pruned(cur, c).dirs.Values)
    ensures Pruned(cur, c).leaf == map[] && (d in Pruned(cur, c).dirs ==> Pruned(cur, c).dirs[d] == cur.dirs[d])
  {
    PrunedPages(cur, c);
    assert cur.dirs.Values <= sp.dirs.Values by {
      forall p | p in cur.dirs.Values
        ensures p in sp.dirs.Values
      {
        var e :| e in cur.dirs && cur.dirs[e] == p;
        assert sp.dirs[e] == p;
      }
    }
    assert SubPages(cur, c) <= cur.dirs.Values;
  }

  lemma LastUsed(mem: Memory, free: seq<nat>, used: set<nat>, sp: Space, d: Dir)
    requires SpaceOk(mem, free, used, sp) && d in sp.dirs
    ensures sp.dirs[d] in used && Apart(mem, free, used)
  {
    assert sp.dirs[d] in sp.dirs.Values;
  }
}
