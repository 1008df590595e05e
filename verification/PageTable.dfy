/** Sv39 page tables as kernel/vm.c builds them: a radix tree of pages with 512 entries,
    three levels deep, that stands for a flat map from virtual to physical pages.
    Addresses are in pages: virtual page v is address v * PGSIZE, and shifts and masks are
    written as divisions and remainders. */
module PageTable {
  import opened Common

  const PGSIZE := 4096
  const ENTRIES := 512
  /** MAXVA in pages. */
  const MAXPAGE := 0x400_0000

  /** What a page of physical memory holds. */
  datatype Content = Table(ptes: seq<nat>) | Bytes(bytes: seq<byte>)

  type Memory = map<nat, Content>

  // Page-table entries.

  function PageOf(pte: nat): (r: nat) {
    pte / 1024
  }

  function Flags(pte: nat): (r: nat) {
    pte % 1024
  }

  /** PA2PTE(pa) | perm | PTE_V. */
  function MakePte(ppn: nat, perm: nat): (r: nat)
    requires perm < 1024
    ensures PageOf(r) == ppn && Flags(r) == perm - perm % 2 + 1
  {
    ppn * 1024 + perm - perm % 2 + 1
  }

  predicate Valid(pte: nat) { pte % 2 == 1 }
  predicate Writable(pte: nat) { pte / 4 % 2 == 1 }
  predicate UserPage(pte: nat) { pte / 16 % 2 == 1 }

  // Addresses.

  /** The virtual page without its last l digits in base 512. */
  function Prefix(v: nat, l: nat): (r: nat)
    requires l <= 3
  {
    if l == 0 then v else if l == 1 then v / 0x200 else if l == 2 then v / 0x4_0000 else v / 0x800_0000
  }

  /** PX(level, va). */
  function Index(v: nat, l: nat): (r: nat)
    requires l <= 2
    ensures r < ENTRIES
  {
    Prefix(v, l) % ENTRIES
  }

  lemma PrefixStep(v: nat, l: nat)
    requires l <= 2
    ensures Prefix(v, l + 1) * ENTRIES + Index(v, l) == Prefix(v, l)
    ensures v < MAXPAGE ==> Prefix(v, 3) == 0
  {
  }

  /** Distinct pages differ in an index: the three indices determine the page. */
  lemma IndicesDetermine(v: nat, w: nat)
    requires v < MAXPAGE && w < MAXPAGE
    requires forall l :: 0 <= l <= 2 ==> Index(v, l) == Index(w, l)
    ensures v == w
  {
    PrefixStep(v, 0); PrefixStep(v, 1); PrefixStep(v, 2);
    PrefixStep(w, 0); PrefixStep(w, 1); PrefixStep(w, 2);
    assert Index(v, 0) == Index(w, 0) && Index(v, 1) == Index(w, 1) && Index(v, 2) == Index(w, 2);
  }

  // The tree.

  /** The page table at level l for the pages with prefix k. */
  datatype Dir = Dir(l: nat, k: nat)

  /** An address space: where its page tables are, and the flat map they stand for. */
  datatype Space = Space(dirs: map<Dir, nat>, leaf: map<nat, nat>)

  const ROOT := Dir(2, 0)

  /** The prefix that entry j of table d stands for. */
  function Below(d: Dir, j: nat): (r: nat) {
    d.k * ENTRIES + j
  }

  function DirEntry(dirs: map<Dir, nat>, d: Dir): (r: nat) {
    if d in dirs then dirs[d] * 1024 + 1 else 0
  }

  function LeafEntry(leaf: map<nat, nat>, v: nat): (r: nat) {
    if v in leaf then leaf[v] else 0
  }

  predicate IsTable(mem: Memory, p: nat) {
    p in mem && mem[p].Table? && |mem[p].ptes| == ENTRIES
  }

  /** The table of d holds its stretch of the tree. */
  ghost predicate TableOk(mem: Memory, sp: Space, d: Dir)
    requires d in sp.dirs
  {
    IsTable(mem, sp.dirs[d]) &&
    var ptes := mem[sp.dirs[d]].ptes;
    if d.l == 0 then forall j :: 0 <= j < ENTRIES ==> ptes[j] == LeafEntry(sp.leaf, Below(d, j))
    else forall j :: 0 <= j < ENTRIES ==> ptes[j] == DirEntry(sp.dirs, Dir(d.l - 1, Below(d, j)))
  }

  ghost predicate Injective(dirs: map<Dir, nat>) {
    forall d, e :: d in dirs && e in dirs && d != e ==> dirs[d] != dirs[e]
  }

  ghost predicate DirsOk(sp: Space) {
    && ROOT in sp.dirs && Injective(sp.dirs)
    && (forall d :: d in sp.dirs ==> HasParent(sp, d))
    && (forall v :: v in sp.leaf ==> HasTable(sp, v) && Valid(sp.leaf[v]))
  }

  predicate HasParent(sp: Space, d: Dir) {
    if d.l < 2 then Dir(d.l + 1, d.k / ENTRIES) in sp.dirs else d == ROOT
  }

  predicate HasTable(sp: Space, v: nat) {
    Dir(0, v / ENTRIES) in sp.dirs
  }

  /** The pages in memory under root stand for the flat map. */
  ghost predicate Tree(mem: Memory, sp: Space) {
    DirsOk(sp) && forall d :: d in sp.dirs ==> TableOk(mem, sp, d)
  }

  /** Only the pages of the tables matter. */
  lemma TreeFrame(mem: Memory, mem': Memory, sp: Space)
    requires Tree(mem, sp)
    requires forall d :: d in sp.dirs ==> sp.dirs[d] in mem' && mem'[sp.dirs[d]] == mem[sp.dirs[d]]
    ensures Tree(mem', sp)
  {
    hide DirsOk;
    forall d | d in sp.dirs
      ensures TableOk(mem', sp, d)
    {
      assert TableOk(mem, sp, d);
    }
  }

  /** One table page with one entry changed. */
  function SetEntry(mem: Memory, p: nat, j: nat, pte: nat): (r: Memory)
    requires IsTable(mem, p) && j < ENTRIES
  {
    mem[p := Table(mem[p].ptes[j := pte])]
  }

  const ZEROS: seq<nat> := seq(ENTRIES, _ => 0)

  /** A leaf entry is written: the flat map changes at that page and nowhere else. */
  function WithLeaf(sp: Space, v: nat, pte: nat): (r: Space) {
    sp.(leaf := if pte == 0 then sp.leaf - {v} else sp.leaf[v := pte])
  }

  lemma TreeInjective(mem: Memory, sp: Space)
    requires Tree(mem, sp)
    ensures Injective(sp.dirs)
  {
  }

  lemma SetLeafTable(mem: Memory, sp: Space, v: nat, pte: nat, d: Dir)
    requires Tree(mem, sp) && Dir(0, v / ENTRIES) in sp.dirs && d in sp.dirs
    requires IsTable(mem, sp.dirs[Dir(0, v / ENTRIES)])
    ensures TableOk(SetEntry(mem, sp.dirs[Dir(0, v / ENTRIES)], v % ENTRIES, pte), WithLeaf(sp, v, pte), d)
  {
    hide DirsOk;
    assert Injective(sp.dirs) by {
      TreeInjective(mem, sp);
    }
    assert TableOk(mem, sp, d);
    var sp' := WithLeaf(sp, v, pte);
    if d.l == 0 {
      forall j | 0 <= j < ENTRIES
        ensures LeafEntry(sp'.leaf, Below(d, j)) ==
                if d.k == v / ENTRIES && j == v % ENTRIES then pte else LeafEntry(sp.leaf, Below(d, j))
      {
        assert Below(d, j) == v <==> d.k == v / ENTRIES && j == v % ENTRIES;
      }
    }
  }

  lemma SetLeaf(mem: Memory, sp: Space, v: nat, pte: nat)
    requires Tree(mem, sp) && Dir(0, v / ENTRIES) in sp.dirs && (pte == 0 || Valid(pte))
    ensures var p := sp.dirs[Dir(0, v / ENTRIES)];
            IsTable(mem, p) && Tree(SetEntry(mem, p, v % ENTRIES, pte), WithLeaf(sp, v, pte))
  {
    var d0 := Dir(0, v / ENTRIES);
    assert TableOk(mem, sp, d0);
    var mem', sp' := SetEntry(mem, sp.dirs[d0], v % ENTRIES, pte), WithLeaf(sp, v, pte);
    assert DirsOk(sp');
    forall d | d in sp'.dirs
      ensures TableOk(mem', sp', d)
    {
      hide DirsOk, TableOk;
      SetLeafTable(mem, sp, v, pte, d);
    }
  }

  /** A new, empty table is hooked in. */
  function WithDir(sp: Space, d: Dir, p: nat): (r: Space) {
    sp.(dirs := sp.dirs[d := p])
  }

  /** There is room for a table p under entry j of the table d. */
  ghost predicate Gap(mem: Memory, sp: Space, d: Dir, j: nat, p: nat) {
    && Tree(mem, sp) && d in sp.dirs && d.l > 0 && j < ENTRIES
    && Dir(d.l - 1, Below(d, j)) !in sp.dirs && p in mem && (forall e :: e in sp.dirs ==> sp.dirs[e] != p)
  }

  lemma AddDirTable(mem: Memory, sp: Space, d: Dir, j: nat, p: nat, e: Dir)
    requires Gap(mem, sp, d, j, p) && IsTable(mem, sp.dirs[d]) && e in sp.dirs
    ensures TableOk(SetEntry(mem[p := Table(ZEROS)], sp.dirs[d], j, p * 1024 + 1),
            WithDir(sp, Dir(d.l - 1, Below(d, j)), p), e)
  {
    assert TableOk(mem, sp, e);
    assert e.l == d.l && e != d ==> e.k != d.k;
  }

  /** Nothing lies below a table that is not there. */
  lemma UnderGap(sp: Space, c: Dir, j: nat)
    requires DirsOk(sp) && c !in sp.dirs && c.l <= 1 && j < ENTRIES
    ensures c.l > 0 ==> Dir(c.l - 1, Below(c, j)) !in sp.dirs
    ensures c.l == 0 ==> Below(c, j) !in sp.leaf
  {
    assert Below(c, j) / ENTRIES == c.k;
    assert c.l > 0 && Dir(c.l - 1, Below(c, j)) in sp.dirs ==> HasParent(sp, Dir(c.l - 1, Below(c, j)));
    assert c.l == 0 && Below(c, j) in sp.leaf ==> HasTable(sp, Below(c, j));
  }

  lemma NewTable(mem: Memory, sp: Space, d: Dir, j: nat, p: nat)
    requires Gap(mem, sp, d, j, p) && IsTable(mem, sp.dirs[d])
    ensures var c := Dir(d.l - 1, Below(d, j));
            TableOk(SetEntry(mem[p := Table(ZEROS)], sp.dirs[d], j, p * 1024 + 1), WithDir(sp, c, p), c)
  {
    var c := Dir(d.l - 1, Below(d, j));
    NewTableEmpty(sp, d, c);
    hide DirsOk, TableOk;
    var mem' := SetEntry(mem[p := Table(ZEROS)], sp.dirs[d], j, p * 1024 + 1);
    assert mem'[p] == Table(ZEROS);
    EmptyTable(mem', WithDir(sp, c, p), c);
  }

  lemma NewTableEmpty(sp: Space, d: Dir, c: Dir)
    requires DirsOk(sp) && d in sp.dirs && c !in sp.dirs && d.l == c.l + 1
    ensures forall i :: 0 <= i < ENTRIES ==>
              (c.l > 0 ==> Dir(c.l - 1, Below(c, i)) !in sp.dirs) && (c.l == 0 ==> Below(c, i) !in sp.leaf)
  {
    assert HasParent(sp, d);
    forall i | 0 <= i < ENTRIES
      ensures (c.l > 0 ==> Dir(c.l - 1, Below(c, i)) !in sp.dirs) && (c.l == 0 ==> Below(c, i) !in sp.leaf)
    {
      UnderGap(sp, c, i);
    }
  }

  lemma EmptyTable(mem: Memory, sp: Space, c: Dir)
    requires c in sp.dirs && sp.dirs[c] in mem && mem[sp.dirs[c]] == Table(ZEROS)
    requires forall i :: 0 <= i < ENTRIES ==>
               (c.l > 0 ==> Dir(c.l - 1, Below(c, i)) !in sp.dirs) && (c.l == 0 ==> Below(c, i) !in sp.leaf)
    ensures TableOk(mem, sp, c)
  {
  }

  lemma AddDirOk(sp: Space, d: Dir, j: nat, p: nat)
    requires DirsOk(sp) && d in sp.dirs && d.l > 0 && j < ENTRIES && (forall e :: e in sp.dirs ==> sp.dirs[e] != p)
    requires Dir(d.l - 1, Below(d, j)) !in sp.dirs
    ensures DirsOk(WithDir(sp, Dir(d.l - 1, Below(d, j)), p))
  {
    var c := Dir(d.l - 1, Below(d, j));
    var sp' := WithDir(sp, c, p);
    assert HasParent(sp, d);
    forall e | e in sp'.dirs
      ensures HasParent(sp', e)
    {
      assert e == c || HasParent(sp, e);
      assert c.k / ENTRIES == d.k;
    }
    forall v | v in sp'.leaf
      ensures HasTable(sp', v)
    {
      assert HasTable(sp, v);
    }
  }

  lemma AddDir(mem: Memory, sp: Space, d: Dir, j: nat, p: nat)
    requires Gap(mem, sp, d, j, p)
    ensures IsTable(mem, sp.dirs[d]) && p != sp.dirs[d]
    ensures Tree(SetEntry(mem[p := Table(ZEROS)], sp.dirs[d], j, p * 1024 + 1),
            WithDir(sp, Dir(d.l - 1, Below(d, j)), p))
  {
    assert TableOk(mem, sp, d);
    var c := Dir(d.l - 1, Below(d, j));
    var mem' := SetEntry(mem[p := Table(ZEROS)], sp.dirs[d], j, p * 1024 + 1);
    var sp' := WithDir(sp, c, p);
    AddDirOk(sp, d, j, p);
    forall e | e in sp'.dirs
      ensures TableOk(mem', sp', e)
    {
      hide DirsOk, TableOk;
      if e == c {
        NewTable(mem, sp, d, j, p);
      } else {
        AddDirTable(mem, sp, d, j, p, e);
      }
    }
  }
}
