/** Link counts: sys_link, sys_unlink and create of kernel/sysfile.c, with their ways back.
    Directories are the finite maps that dirlookup and dirlink make of them. */
module Links {
  type Name = seq<int>

  const DOT: Name := [46]
  const DOTDOT: Name := [46, 46]
  const ROOT := 1

  datatype Kind = Dir | File | Device

  datatype Node = Node(kind: Kind, nlink: int, entries: map<Name, nat>)

  /** The inodes that are not free. */
  type Nodes = map<nat, Node>

  /** A directory that can still be reached. */
  predicate Linked(s: Nodes, d: nat) {
    d in s && s[d].kind.Dir? && s[d].nlink >= 1
  }

  /** The entries naming inode i in directories still linked, ".." but not ".". */
  ghost function Naming(s: Nodes, i: nat): (r: set<(nat, Name)>) {
    set d, n | d in s && Linked(s, d) && n in s[d].entries && n != DOT && s[d].entries[n] == i :: (d, n)
  }

  ghost predicate LinksOk(s: Nodes) {
    forall i :: i in s ==> s[i].nlink == |Naming(s, i)|
  }

  predicate Plain(n: Name) {
    n != DOT && n != DOTDOT
  }

  /** Directories have their dot entries, and those removed nothing else. */
  ghost predicate NodeOk(s: Nodes, d: nat)
    requires d in s
  {
    if s[d].kind.Dir? then
      DOT in s[d].entries && s[d].entries[DOT] == d && DOTDOT in s[d].entries &&
      (s[d].nlink >= 1 || forall n :: n in s[d].entries ==> !Plain(n))
    else s[d].entries == map[]
  }

  /** Entry n of the linked directory d, not a dot entry, names x. */
  predicate Entry(s: Nodes, d: nat, n: Name, x: nat) {
    Linked(s, d) && n in s[d].entries && Plain(n) && s[d].entries[n] == x
  }

  predicate IsDir(s: Nodes, x: nat) {
    x in s && s[x].kind.Dir?
  }

  /** What it names is there, and if it is a directory has d for its parent. */
  predicate TargetOk(s: Nodes, d: nat, x: nat) {
    x in s && x != ROOT && x != d && (s[x].kind.Dir? ==> DOTDOT in s[x].entries && s[x].entries[DOTDOT] == d)
  }

  /** A linked directory has an entry in the one that is its "..". */
  ghost predicate HasParent(s: Nodes, x: nat)
    requires Linked(s, x)
  {
    DOTDOT in s[x].entries && exists n :: Entry(s, s[x].entries[DOTDOT], n, x)
  }

  ghost predicate TreeOk(s: Nodes) {
    && Linked(s, ROOT) && DOTDOT in s[ROOT].entries && s[ROOT].entries[DOTDOT] == ROOT
    && (forall x :: Linked(s, x) && x != ROOT ==> HasParent(s, x))
    && (forall d :: d in s ==> NodeOk(s, d))
    && (forall d, n, x :: Entry(s, d, n, x) ==> TargetOk(s, d, x))
    && (forall d, n, e, m, x :: Entry(s, d, n, x) && Entry(s, e, m, x) && IsDir(s, x) ==> d == e && n == m)
  }

  ghost predicate Sound(s: Nodes) {
    TreeOk(s) && LinksOk(s)
  }

  // Changes.

  /** Directory d gets a plain entry for i, and i one link more. */
  function AddLink(s: Nodes, d: nat, n: Name, i: nat): (r: Nodes)
    requires d in s && i in s && d != i
  {
    s[d := s[d].(entries := s[d].entries[n := i])][i := s[i].(nlink := s[i].nlink + 1)]
  }

  lemma AddLinkNaming(s: Nodes, d: nat, n: Name, i: nat, j: nat)
    requires Linked(s, d) && i in s && d != i && !s[i].kind.Dir? && n !in s[d].entries && Plain(n)
    ensures Naming(AddLink(s, d, n, i), j) == (if j == i then Naming(s, j) + {(d, n)} else Naming(s, j))
    ensures (d, n) !in Naming(s, j)
  {
    var s' := AddLink(s, d, n, i);
    forall e, m
      ensures (e, m) in Naming(s', j) <==> (e, m) in Naming(s, j) || (j == i && e == d && m == n)
    {
    }
  }

  lemma AddLinkTree(s: Nodes, d: nat, n: Name, i: nat)
    requires TreeOk(s) && Linked(s, d) && i in s && i != ROOT && d != i && !s[i].kind.Dir? && n !in s[d].entries
    requires Plain(n)
    ensures TreeOk(AddLink(s, d, n, i))
  {
    var s' := AddLink(s, d, n, i);
    forall e, m, x
      ensures Entry(s', e, m, x) <==> Entry(s, e, m, x) || (e == d && m == n && x == i)
      ensures Entry(s', e, m, x) ==> TargetOk(s', e, x)
    {
      assert Entry(s, e, m, x) ==> TargetOk(s, e, x);
    }
    assert forall x :: IsDir(s', x) <==> IsDir(s, x);
    forall e | e in s'
      ensures NodeOk(s', e)
    {
      assert NodeOk(s, e);
    }
    forall x | Linked(s', x) && x != ROOT
      ensures HasParent(s', x)
    {
      assert Linked(s, x) && HasParent(s, x);
      var m :| Entry(s, s[x].entries[DOTDOT], m, x);
      assert Entry(s', s'[x].entries[DOTDOT], m, x);
    }
  }

  lemma AddLinkSound(s: Nodes, d: nat, n: Name, i: nat)
    requires Sound(s) && Linked(s, d) && i in s && i != ROOT && d != i && !s[i].kind.Dir? && n !in s[d].entries
    requires Plain(n)
    ensures Sound(AddLink(s, d, n, i))
  {
    hide TreeOk, Naming;
    AddLinkTree(s, d, n, i);
    var s' := AddLink(s, d, n, i);
    forall j | j in s'
      ensures s'[j].nlink == |Naming(s', j)|
    {
      AddLinkNaming(s, d, n, i, j);
    }
  }

  /** What is named is there. */
  lemma NamedIsThere(s: Nodes, d: nat, n: Name, i: nat)
    requires TreeOk(s) && (d, n) in Naming(s, i)
    ensures i in s
  {
    if Plain(n) {
      assert Entry(s, d, n, i) ==> TargetOk(s, d, i);
    } else if d != ROOT {
      assert HasParent(s, d);
    }
  }

  lemma FreeUnnamed(s: Nodes, i: nat)
    requires TreeOk(s) && i !in s
    ensures Naming(s, i) == {}
  {
    if p :| p in Naming(s, i) {
      NamedIsThere(s, p.0, p.1, i);
    }
  }

  /** The directories keep what they have in them, and their links. */
  lemma SameEntries(s: Nodes, s': Nodes)
    requires TreeOk(s) && (forall x :: Linked(s', x) <==> Linked(s, x))
    requires (forall x :: Linked(s, x) ==> x in s' && s'[x].entries == s[x].entries)
    ensures forall e, m, x :: Entry(s', e, m, x) <==> Entry(s, e, m, x)
    ensures forall j :: Naming(s', j) == Naming(s, j)
    ensures forall x :: Linked(s', x) && x != ROOT ==> HasParent(s', x)
  {
    forall e, m, x
      ensures Entry(s', e, m, x) <==> Entry(s, e, m, x)
    {
    }
    forall x | Linked(s', x) && x != ROOT
      ensures HasParent(s', x)
    {
      assert HasParent(s, x);
      var m :| Entry(s, s[x].entries[DOTDOT], m, x);
      assert Entry(s', s'[x].entries[DOTDOT], m, x);
    }
    forall j
      ensures Naming(s', j) == Naming(s, j)
    {
      assert forall e, m :: (e, m) in Naming(s', j) <==> (e, m) in Naming(s, j);
    }
  }

  lemma AddNodeTree(s: Nodes, i: nat, kind: Kind)
    requires TreeOk(s) && i !in s && !kind.Dir?
    ensures TreeOk(s[i := Node(kind, 0, map[])]) && forall j :: Naming(s[i := Node(kind, 0, map[])], j) == Naming(s, j)
  {
    var s' := s[i := Node(kind, 0, map[])];
    SameEntries(s, s');
    hide Naming, HasParent;
    forall e, m, x | Entry(s', e, m, x)
      ensures TargetOk(s', e, x)
    {
      assert TargetOk(s, e, x);
    }
    forall e | e in s'
      ensures NodeOk(s', e)
    {
      assert e != i ==> NodeOk(s, e);
    }
    forall d, n, e, m, x | Entry(s', d, n, x) && Entry(s', e, m, x) && IsDir(s', x)
      ensures d == e && n == m
    {
      assert Entry(s, d, n, x) && Entry(s, e, m, x) && IsDir(s, x);
    }
  }

  /** ialloc: a new inode that nothing names. */
  lemma AddNode(s: Nodes, i: nat, kind: Kind)
    requires Sound(s) && i !in s && !kind.Dir?
    ensures Sound(s[i := Node(kind, 0, map[])])
  {
    hide TreeOk, Naming;
    AddNodeTree(s, i, kind);
    FreeUnnamed(s, i);
  }

  // A new directory.

  function MakeDir(s: Nodes, d: nat, n: Name, i: nat): (r: Nodes)
    requires d in s && d != i
  {
    s[i := Node(Dir, 1, map[DOT := i, DOTDOT := d])][d := s[d].(nlink := s[d].nlink + 1,
      entries := s[d].entries[n := i])]
  }

  lemma MakeDirNaming(s: Nodes, d: nat, n: Name, i: nat, j: nat)
    requires TreeOk(s) && Linked(s, d) && i !in s && n !in s[d].entries && Plain(n)
    ensures Naming(MakeDir(s, d, n, i), j) ==
            if j == i then Naming(s, j) + {(d, n)} else if j == d then Naming(s, j) + {(i, DOTDOT)} else Naming(s, j)
    ensures (d, n) !in Naming(s, j) && (i, DOTDOT) !in Naming(s, j)
  {
    var s' := MakeDir(s, d, n, i);
    forall e, m
      ensures (e, m) in Naming(s', j) <==>
              (e, m) in Naming(s, j) || (j == i && e == d && m == n) || (j == d && e == i && m == DOTDOT)
    {
    }
  }

  lemma MakeDirEntries(s: Nodes, d: nat, n: Name, i: nat, e: nat, m: Name, x: nat)
    requires TreeOk(s) && Linked(s, d) && i !in s && n !in s[d].entries && Plain(n)
    ensures Entry(MakeDir(s, d, n, i), e, m, x) <==> Entry(s, e, m, x) || (e == d && m == n && x == i)
    ensures Entry(s, e, m, x) ==> x != i
  {
    assert Entry(s, e, m, x) ==> TargetOk(s, e, x);
  }

  lemma MakeDirTree(s: Nodes, d: nat, n: Name, i: nat)
    requires TreeOk(s) && Linked(s, d) && i !in s && n !in s[d].entries && Plain(n)
    ensures TreeOk(MakeDir(s, d, n, i))
  {
    var s' := MakeDir(s, d, n, i);
    forall e, m, x
      ensures Entry(s', e, m, x) <==> Entry(s, e, m, x) || (e == d && m == n && x == i)
      ensures Entry(s, e, m, x) ==> x != i
      ensures Entry(s', e, m, x) ==> TargetOk(s', e, x)
    {
      MakeDirEntries(s, d, n, i, e, m, x);
      assert Entry(s, e, m, x) ==> TargetOk(s, e, x);
    }
    forall e | e in s'
      ensures NodeOk(s', e)
    {
      assert e != i ==> NodeOk(s, e);
    }
    forall x | Linked(s', x) && x != ROOT
      ensures HasParent(s', x)
    {
      if x == i {
        assert Entry(s', d, n, i);
      } else {
        assert HasParent(s, x);
        var m :| Entry(s, s[x].entries[DOTDOT], m, x);
        assert Entry(s', s'[x].entries[DOTDOT], m, x);
      }
    }
    forall c, k, e, m, x | Entry(s', c, k, x) && Entry(s', e, m, x) && IsDir(s', x)
      ensures c == e && k == m
    {
      assert x != i ==> Entry(s, c, k, x) && Entry(s, e, m, x) && IsDir(s, x);
    }
  }

  lemma MakeDirSound(s: Nodes, d: nat, n: Name, i: nat)
    requires Sound(s) && Linked(s, d) && i !in s && n !in s[d].entries && Plain(n)
    ensures Sound(MakeDir(s, d, n, i))
  {
    hide TreeOk, Naming;
    MakeDirTree(s, d, n, i);
    FreeUnnamed(s, i);
    var s' := MakeDir(s, d, n, i);
    forall j | j in s'
      ensures s'[j].nlink == |Naming(s', j)|
    {
      MakeDirNaming(s, d, n, i, j);
    }
  }

  // An entry is taken out.

  /** The entry goes; a directory it names no longer has the other for its parent. */
  function DropEntry(s: Nodes, d: nat, n: Name): (r: Nodes)
    requires d in s && n in s[d].entries && s[d].entries[n] in s && s[d].entries[n] != d
  {
    var x := s[d].entries[n];
    var lost := if s[x].kind.Dir? then 1 else 0;
    s[d := s[d].(nlink := s[d].nlink - lost, entries := s[d].entries - {n})][x := s[x].(nlink := s[x].nlink - 1)]
  }

  /** isdirempty: nothing but the dot entries. */
  predicate EmptyDir(s: Nodes, x: nat)
    requires x in s
  {
    s[x].kind.Dir? ==> forall m :: m in s[x].entries ==> !Plain(m)
  }

  /** A directory without entries is named once, by the entry in its parent. */
  lemma EmptyNamedOnce(s: Nodes, d: nat, n: Name, x: nat)
    requires TreeOk(s) && Entry(s, d, n, x) && IsDir(s, x) && EmptyDir(s, x)
    ensures Naming(s, x) == {(d, n)}
  {
    assert TargetOk(s, d, x);
    forall e, m | (e, m) in Naming(s, x)
      ensures e == d && m == n
    {
      NoSubdir(s, x, e);
      assert Entry(s, e, m, x);
    }
    assert (d, n) in Naming(s, x);
  }

  lemma NoSubdir(s: Nodes, x: nat, e: nat)
    requires TreeOk(s) && x in s && x != ROOT && s[x].kind.Dir? && EmptyDir(s, x) && Linked(s, e)
    ensures DOTDOT in s[e].entries && s[e].entries[DOTDOT] != x
  {
    if e != ROOT {
      assert HasParent(s, e);
    }
  }

  /** A directory with a subdirectory is named at least twice. */
  lemma NamedTwice(s: Nodes, d: nat, n: Name, x: nat)
    requires TreeOk(s) && Entry(s, d, n, x) && IsDir(s, x) && Linked(s, x)
    ensures (x, DOTDOT) in Naming(s, d) && |Naming(s, d)| >= 2
  {
    assert TargetOk(s, d, x);
    assert (x, DOTDOT) in Naming(s, d);
    var other: (nat, Name);
    if d == ROOT {
      other := (ROOT, DOTDOT);
    } else {
      assert HasParent(s, d);
      var m :| Entry(s, s[d].entries[DOTDOT], m, d);
      other := (s[d].entries[DOTDOT], m);
    }
    assert other in Naming(s, d) && other != (x, DOTDOT);
    assert |{other, (x, DOTDOT)}| == 2;
    Larger({other, (x, DOTDOT)}, Naming(s, d));
  }

  lemma {:induction false} Larger(a: set<(nat, Name)>, b: set<(nat, Name)>)
    requires a <= b
    ensures |a| <= |b|
  {
    if a != {} {
      var x :| x in a;
      Larger(a - {x}, b - {x});
    }
  }

  lemma LinksAt(s: Nodes, i: nat)
    requires LinksOk(s) && i in s
    ensures s[i].nlink == |Naming(s, i)|
  {
    hide Naming;
  }

  /** What unlink needs to find: an entry that is not a dot entry, naming a file or an
      empty directory. */
  ghost predicate Droppable(s: Nodes, d: nat, n: Name, x: nat) {
    TreeOk(s) && Entry(s, d, n, x) && x in s && EmptyDir(s, x)
  }

  lemma EntryCounts(s: Nodes, d: nat, n: Name, x: nat)
    requires Entry(s, d, n, x)
    ensures (d, n) in Naming(s, x) && |Naming(s, x)| >= 1
  {
    assert (d, n) in Naming(s, x);
    Larger({(d, n)}, Naming(s, x));
  }

  /** "unlink: nlink < 1" cannot happen; and a directory to be removed has one link, and its
      parent at least two. */
  lemma DropFacts(s: Nodes, d: nat, n: Name, x: nat)
    requires Droppable(s, d, n, x) && LinksOk(s)
    ensures x != d && x != ROOT && s[x].nlink >= 1
    ensures IsDir(s, x) ==> s[x].nlink == 1 && s[d].nlink >= 2 && DOTDOT in s[x].entries && s[x].entries[DOTDOT] == d
  {
    hide LinksOk, Naming;
    assert TargetOk(s, d, x);
    EntryCounts(s, d, n, x);
    LinksAt(s, x);
    LinksAt(s, d);
    if IsDir(s, x) {
      EmptyNamedOnce(s, d, n, x);
      NamedTwice(s, d, n, x);
    }
  }

  /** How the pieces that matter look after an entry is dropped. */
  ghost predicate DropShape(s: Nodes, d: nat, n: Name, x: nat) {
    && Entry(s, d, n, x) && x in s && x != d && x != ROOT
    && (IsDir(s, x) ==>
         EmptyDir(s, x) && s[x].nlink == 1 && s[d].nlink >= 2 && DOTDOT in s[x].entries &&
         s[x].entries[DOTDOT] == d)
  }

  lemma DropNaming(s: Nodes, d: nat, n: Name, x: nat, j: nat)
    requires DropShape(s, d, n, x)
    ensures Naming(DropEntry(s, d, n), j) ==
            if j == x then Naming(s, j) - {(d, n)} else if j == d && IsDir(s, x)
              then Naming(s, j) - {(x, DOTDOT)} else Naming(s, j)
    ensures (d, n) in Naming(s, x) && (IsDir(s, x) ==> (x, DOTDOT) in Naming(s, d))
  {
    var s' := DropEntry(s, d, n);
    forall e, m
      ensures (e, m) in Naming(s', j) <==>
              (e, m) in Naming(s, j) && !(j == x && e == d && m == n) &&
                !(j == d && IsDir(s, x) && e == x && m == DOTDOT)
    {
    }
  }

  lemma DropEntries(s: Nodes, d: nat, n: Name, x: nat, e: nat, m: Name, y: nat)
    requires DropShape(s, d, n, x)
    ensures Entry(DropEntry(s, d, n), e, m, y) <==> Entry(s, e, m, y) && !(e == d && m == n)
  {
  }

  lemma DropParents(s: Nodes, d: nat, n: Name, x: nat, y: nat)
    requires TreeOk(s) && DropShape(s, d, n, x) && Linked(DropEntry(s, d, n), y) && y != ROOT
    ensures HasParent(DropEntry(s, d, n), y)
  {
    var s' := DropEntry(s, d, n);
    assert Linked(s, y) && HasParent(s, y);
    var m :| Entry(s, s[y].entries[DOTDOT], m, y);
    DropEntries(s, d, n, x, s[y].entries[DOTDOT], m, y);
    assert Entry(s', s'[y].entries[DOTDOT], m, y);
  }

  lemma DropTargets(s: Nodes, d: nat, n: Name, x: nat, e: nat, m: Name, y: nat)
    requires TreeOk(s) && DropShape(s, d, n, x)
    ensures Entry(DropEntry(s, d, n), e, m, y) ==> Entry(s, e, m, y) && TargetOk(DropEntry(s, d, n), e, y)
  {
    DropEntries(s, d, n, x, e, m, y);
    assert Entry(s, e, m, y) ==> TargetOk(s, e, y);
    assert NodeOk(s, d);
  }

  lemma DropNodes(s: Nodes, d: nat, n: Name, x: nat, e: nat)
    requires TreeOk(s) && DropShape(s, d, n, x) && e in s
    ensures NodeOk(DropEntry(s, d, n), e)
  {
    assert NodeOk(s, e) && NodeOk(s, d) && NodeOk(s, x);
  }

  lemma DropKinds(s: Nodes, d: nat, n: Name, x: nat, y: nat)
    requires TreeOk(s) && DropShape(s, d, n, x)
    ensures IsDir(DropEntry(s, d, n), y) <==> IsDir(s, y)
    ensures DropEntry(s, d, n).Keys == s.Keys && Linked(DropEntry(s, d, n), ROOT)
    ensures DOTDOT in DropEntry(s, d, n)[ROOT].entries && DropEntry(s, d, n)[ROOT].entries[DOTDOT] == ROOT
  {
  }

  lemma DropTree(s: Nodes, d: nat, n: Name, x: nat)
    requires TreeOk(s) && DropShape(s, d, n, x)
    ensures TreeOk(DropEntry(s, d, n))
  {
    var s' := DropEntry(s, d, n);
    hide Entry, HasParent, NodeOk, TargetOk, IsDir, DropEntry, DropShape, Linked;
    DropKinds(s, d, n, x, x);
    forall e | e in s'
      ensures NodeOk(s', e)
    {
      DropNodes(s, d, n, x, e);
    }
    forall e: nat, m: Name, y: nat | Entry(s', e, m, y)
      ensures TargetOk(s', e, y)
    {
      DropTargets(s, d, n, x, e, m, y);
    }
    forall y | Linked(s', y) && y != ROOT
      ensures HasParent(s', y)
    {
      DropParents(s, d, n, x, y);
    }
    forall c: nat, k: Name, e: nat, m: Name, y: nat | Entry(s', c, k, y) && Entry(s', e, m, y) && IsDir(s', y)
      ensures c == e && k == m
    {
      DropTargets(s, d, n, x, c, k, y);
      DropTargets(s, d, n, x, e, m, y);
      DropKinds(s, d, n, x, y);
    }
  }

  lemma DropSound(s: Nodes, d: nat, n: Name, x: nat)
    requires Droppable(s, d, n, x) && LinksOk(s)
    ensures x != d && Sound(DropEntry(s, d, n))
  {
    hide TreeOk, Naming, EmptyDir;
    DropFacts(s, d, n, x);
    DropTree(s, d, n, x);
    var s' := DropEntry(s, d, n);
    forall j | j in s'
      ensures s'[j].nlink == |Naming(s', j)|
    {
      DropNaming(s, d, n, x, j);
    }
  }

  /** iput of an inode without links: it becomes free. */
  lemma FreeNodeTree(s: Nodes, i: nat)
    requires TreeOk(s) && i in s && s[i].nlink == 0 && Naming(s, i) == {}
    ensures TreeOk(s - {i}) && forall j :: Naming(s - {i}, j) == Naming(s, j)
  {
    var s' := s - {i};
    SameEntries(s, s');
    forall e: nat, m: Name, x: nat | Entry(s', e, m, x)
      ensures TargetOk(s', e, x)
    {
      assert TargetOk(s, e, x);
      assert x == i ==> (e, m) in Naming(s, i);
    }
    hide Naming, HasParent;
    forall e | e in s'
      ensures NodeOk(s', e)
    {
      assert NodeOk(s, e);
    }
    forall d, n, e, m, x | Entry(s', d, n, x) && Entry(s', e, m, x) && IsDir(s', x)
      ensures d == e && n == m
    {
      assert Entry(s, d, n, x) && Entry(s, e, m, x) && IsDir(s, x);
    }
  }

  lemma FreeNode(s: Nodes, i: nat)
    requires Sound(s) && i in s && s[i].nlink == 0
    ensures Sound(s - {i})
  {
    hide TreeOk, Naming;
    LinksAt(s, i);
    FreeNodeTree(s, i);
  }
}
