/** sys_link, sys_unlink and create, on the inodes in memory. What namei, nameiparent and
    ialloc return, and whether the disk is full, are given. */
module LinkCalls {
  import opened Common
  import opened Links

  /** Linking into a directory keeps the counts, and counts and tree together, exactly when
      the directory is still linked; the code does not look. */
  lemma AddLinkExactly(s: Nodes, d: nat, n: Name, i: nat)
    requires Sound(s) && IsDir(s, d) && i in s && !s[i].kind.Dir? && n !in s[d].entries
    ensures d != i && (LinksOk(AddLink(s, d, n, i)) <==> Linked(s, d)) && (Sound(AddLink(s, d, n, i)) <==> Linked(s, d))
  {
    hide TreeOk, Naming;
    NamePlain(s, d, n);
    if Linked(s, d) {
      RootDir(s);
      AddLinkSound(s, d, n, i);
    } else {
      var s' := AddLink(s, d, n, i);
      UnlinkedNaming(s, d, n, i);
      LinksAt(s, i);
    }
  }

  lemma RootDir(s: Nodes)
    requires TreeOk(s)
    ensures IsDir(s, ROOT)
  {
  }

  /** Every directory has its dot entries, so any other name is plain. */
  lemma NamePlain(s: Nodes, d: nat, n: Name)
    requires TreeOk(s) && IsDir(s, d) && n !in s[d].entries
    ensures Plain(n)
  {
    assert NodeOk(s, d);
  }

  lemma UnlinkedNaming(s: Nodes, d: nat, n: Name, i: nat)
    requires IsDir(s, d) && !Linked(s, d) && i in s && d != i && !s[i].kind.Dir?
    ensures Naming(AddLink(s, d, n, i), i) == Naming(s, i)
  {
    var s' := AddLink(s, d, n, i);
    assert forall e, m :: (e, m) in Naming(s', i) <==> (e, m) in Naming(s, i);
  }

  /** A new directory in one that was removed revives it, with its "..": the counts then
      survive exactly when the inode that ".." names is gone, and is not the new one. */
  predicate CountsSurvive(s: Nodes, d: nat, i: nat)
    requires IsDir(s, d)
  {
    Linked(s, d) || (DOTDOT in s[d].entries && s[d].entries[DOTDOT] !in s && s[d].entries[DOTDOT] != i)
  }

  /** A new directory keeps tree and counts exactly when its parent is still linked, and the
      counts alone exactly when they survive. */
  lemma MakeDirExactly(s: Nodes, d: nat, n: Name, i: nat)
    requires Sound(s) && IsDir(s, d) && i !in s && n !in s[d].entries
    ensures d != i && (Sound(MakeDir(s, d, n, i)) <==> Linked(s, d))
    ensures LinksOk(MakeDir(s, d, n, i)) <==> CountsSurvive(s, d, i)
  {
    hide TreeOk, Naming;
    NamePlain(s, d, n);
    if Linked(s, d) {
      MakeDirSound(s, d, n, i);
    } else {
      LinksAt(s, d);
      NonNegative(s, d);
      OrphanDir(s, d, n, i);
      OrphanCounts(s, d, n, i);
    }
  }

  lemma OrphanNaming(s: Nodes, d: nat, n: Name, i: nat, j: nat)
    requires TreeOk(s) && IsDir(s, d) && s[d].nlink == 0 && i !in s && n !in s[d].entries && Plain(n)
    ensures d != i && DOTDOT in s[d].entries
    ensures Naming(MakeDir(s, d, n, i), j) ==
            Naming(s, j) + (if j == s[d].entries[DOTDOT] then {(d, DOTDOT)} else {}) +
            (if j == i then {(d, n)} else {}) + (if j == d then {(i, DOTDOT)} else {})
    ensures (d, DOTDOT) !in Naming(s, j) && (d, n) !in Naming(s, j) && (i, DOTDOT) !in Naming(s, j)
  {
    assert NodeOk(s, d);
    var s' := MakeDir(s, d, n, i);
    forall e, m
      ensures (e, m) in Naming(s', j) <==>
              || (e, m) in Naming(s, j) || (j == s[d].entries[DOTDOT] && e == d && m == DOTDOT)
              || (j == i && e == d && m == n) || (j == d && e == i && m == DOTDOT)
    {
    }
  }

  lemma OrphanCounts(s: Nodes, d: nat, n: Name, i: nat)
    requires Sound(s) && IsDir(s, d) && s[d].nlink == 0 && Naming(s, d) == {} && i !in s && n !in s[d].entries
    requires Plain(n)
    ensures d != i && (LinksOk(MakeDir(s, d, n, i)) <==> CountsSurvive(s, d, i))
  {
    hide TreeOk, Naming;
    var s' := MakeDir(s, d, n, i);
    FreeUnnamed(s, i);
    OrphanNaming(s, d, n, i, d);
    var p := s[d].entries[DOTDOT];
    OrphanNaming(s, d, n, i, p);
    if p == i {
      assert |Naming(s', i)| == 2;
      assert !LinksOk(s') by { assert i in s' && s'[i].nlink == 1; }
    } else if p in s {
      LinksAt(s, p);
      assert !LinksOk(s') by { assert p in s'; }
    } else {
      forall j | j in s'
        ensures s'[j].nlink == |Naming(s', j)|
      {
        OrphanNaming(s, d, n, i, j);
        if j in s {
          LinksAt(s, j);
        }
      }
    }
  }

  lemma NonNegative(s: Nodes, d: nat)
    requires IsDir(s, d) && !Linked(s, d) && s[d].nlink == |Naming(s, d)|
    ensures s[d].nlink == 0 && Naming(s, d) == {}
  {
  }

  lemma OrphanDir(s: Nodes, d: nat, n: Name, i: nat)
    requires TreeOk(s) && IsDir(s, d) && s[d].nlink == 0 && Naming(s, d) == {} && i !in s && n !in s[d].entries
    requires Plain(n)
    ensures d != i && !TreeOk(MakeDir(s, d, n, i))
  {
    var s' := MakeDir(s, d, n, i);
    assert NodeOk(s, d) && d != ROOT;
    assert Linked(s', d);
    forall p: nat, m: Name
      ensures !Entry(s', p, m, d)
    {
      assert Entry(s, p, m, d) ==> (p, m) in Naming(s, d);
    }
    assert !HasParent(s', d);
  }

  /** The inodes with a new one of the given kind, named n in directory d. */
  function WithNew(s: Nodes, d: nat, n: Name, i: nat, kind: Kind): (r: Nodes)
    requires d in s && d != i
  {
    if kind.Dir? then MakeDir(s, d, n, i) else AddLink(s[i := Node(kind, 0, map[])], d, n, i)
  }

  /** All inodes but those in but are the same. */
  predicate SameBut(s: Nodes, s': Nodes, but: set<nat>) {
    forall j :: j in s && j !in but ==> j in s' && s'[j] == s[j]
  }

  /** Between was and now, directory d has got the entry n for a new inode i, and a link more
      if this is a directory. */
  predicate Created(was: Nodes, now: Nodes, d: nat, n: Name, kind: Kind, i: nat) {
    && d in was && i !in was && now.Keys == was.Keys + {i} && SameBut(was, now, {d, i})
    && now[d] == was[d].(entries := was[d].entries[n := i], nlink := was[d].nlink + if kind.Dir? then 1 else 0)
    && now[i] == Node(kind, 1, if kind.Dir? then map[DOT := i, DOTDOT := d] else map[])
  }

  // The calls, and what they do.

  /** sys_link with what its two paths lead to; sys_unlink, where last tells whether ours is
      the only reference to what the name stands for; create, where spare is what ialloc
      finds; and the last iput of an inode. full tells of each dirlink whether the disk is
      full. */
  datatype Call =
    | LinkCall(ip: Option<nat>, d: Option<nat>, n: Name, fails: bool)
    | UnlinkCall(dir: nat, n: Name, last: bool)
    | CreateCall(dir: nat, n: Name, kind: Kind, spare: Option<nat>, full: (bool, bool, bool))
    | PutCall(i: nat)

  predicate Possible(s: Nodes, c: Call) {
    match c
    case LinkCall(ip, d, n, fails) => (ip.Some? ==> ip.value in s) && (d.Some? ==> IsDir(s, d.value))
    case UnlinkCall(d, n, last) => IsDir(s, d)
    case CreateCall(d, n, kind, spare, full) => IsDir(s, d) && (spare.Some? ==> spare.value !in s)
    case PutCall(i) => i in s
  }

  /** Whether the call changes anything. */
  predicate Works(s: Nodes, c: Call)
    requires Possible(s, c)
  {
    match c
    case LinkCall(ip, d, n, fails) =>
      ip.Some? && !s[ip.value].kind.Dir? && d.Some? && n !in s[d.value].entries && !fails
    case UnlinkCall(d, n, last) =>
      Plain(n) && n in s[d].entries && s[d].entries[n] in s && s[d].entries[n] != d && EmptyDir(s, s[d].entries[n])
    case CreateCall(d, n, kind, spare, full) =>
      n !in s[d].entries && spare.Some? && !full.2 && (kind.Dir? ==> !full.0 && !full.1)
    case PutCall(i) => s[i].nlink == 0
  }

  function After(s: Nodes, c: Call): (r: Nodes)
    requires Possible(s, c)
  {
    if !Works(s, c) then s
    else match c
      case LinkCall(ip, d, n, fails) => AddLink(s, d.value, n, ip.value)
      case UnlinkCall(d, n, last) =>
        var x, s' := s[d].entries[n], DropEntry(s, d, n);
        if last && s'[x].nlink == 0 then s' - {x} else s'
      case CreateCall(d, n, kind, spare, full) => WithNew(s, d, n, spare.value, kind)
      case PutCall(i) => s - {i}
  }

  /** The directory that a call puts a name into, if it does. */
  function Target(s: Nodes, c: Call): (d: Option<nat>)
    requires Possible(s, c)
  {
    match c
    case LinkCall(ip, d, n, fails) => if Works(s, c) then d else None
    case CreateCall(d, n, kind, spare, full) => if Works(s, c) then Some(d) else None
    case _ => None
  }

  /** The directory that a call puts a name into, if any, is still linked. */
  predicate IntoLinked(s: Nodes, c: Call)
    requires Possible(s, c)
  {
    Target(s, c).Some? ==> Linked(s, Target(s, c).value)
  }

  /** unlink finds an entry whose count is at least 1, and keeps tree and counts. */
  lemma UnlinkSound(s: Nodes, d: nat, n: Name, last: bool)
    requires Possible(s, UnlinkCall(d, n, last)) && Works(s, UnlinkCall(d, n, last)) && Sound(s)
    ensures s[s[d].entries[n]].nlink >= 1 && Sound(After(s, UnlinkCall(d, n, last)))
  {
    hide Sound, TreeOk, LinksOk, Droppable, Naming;
    var x := s[d].entries[n];
    Found(s, d, n);
    DropReady(s, d, n, x);
    DropFacts(s, d, n, x);
    DropSound(s, d, n, x);
    var s' := DropEntry(s, d, n);
    if last && s'[x].nlink == 0 {
      FreeNode(s', x);
    }
  }

  lemma NoTarget(s: Nodes, d: nat, n: Name, last: bool)
    requires IsDir(s, d)
    ensures IntoLinked(s, UnlinkCall(d, n, last))
  {
  }

  /** A call keeps tree and counts if and only if the directory that it puts a name into, if
      any, is still linked; a new directory keeps the counts alone in one more case; and
      unlink meets no count below 1. */
  lemma CallExactly(s: Nodes, c: Call)
    requires Sound(s) && Possible(s, c)
    ensures Sound(After(s, c)) <==> IntoLinked(s, c)
    ensures LinksOk(After(s, c)) <==>
            if c.CreateCall? && c.kind.Dir? && Works(s, c) then CountsSurvive(s, c.dir, c.spare.value)
              else IntoLinked(s, c)
    ensures c.UnlinkCall? && Works(s, c) ==> s[s[c.dir].entries[c.n]].nlink >= 1
  {
    hide Sound, TreeOk, LinksOk, EmptyDir, MakeDir, AddLink, Naming, CountsSurvive;
    SoundCounts(After(s, c));
    SoundCounts(s);
    if Works(s, c) {
      match c
      case LinkCall(ip, d, n, fails) => AddLinkExactly(s, d.value, n, ip.value);
      case UnlinkCall(d, n, last) => UnlinkSound(s, d, n, last);
      case CreateCall(d, n, kind, spare, full) => CreateExactly(s, d, n, spare.value, kind);
      case PutCall(i) => FreeNode(s, i);
    }
  }

  lemma SoundCounts(s: Nodes)
    ensures Sound(s) ==> LinksOk(s)
  {
  }

  lemma DropAdded(s: Nodes, d: nat, n: Name, i: nat)
    requires d in s && i in s && d != i && n !in s[d].entries && !s[i].kind.Dir?
    ensures var s' := AddLink(s, d, n, i);
            && n in s'[d].entries && s'[d].entries[n] == i
            && i in s' && EmptyDir(s', i) && s'[i].nlink == s[i].nlink + 1
            && DropEntry(s', d, n) == s
  {
    assert s[d].entries[n := i] - {n} == s[d].entries;
  }

  lemma DropMade(s: Nodes, d: nat, n: Name, i: nat)
    requires d in s && i !in s && n !in s[d].entries
    ensures var s' := MakeDir(s, d, n, i);
            && n in s'[d].entries && s'[d].entries[n] == i && i in s' && EmptyDir(s', i) && s'[i].nlink == 1
            && DropEntry(s', d, n)[i].nlink == 0 && DropEntry(s', d, n) - {i} == s
  {
    assert s[d].entries[n := i] - {n} == s[d].entries;
  }

  lemma NameSound(s: Nodes, d: nat, n: Name)
    requires Sound(s) && IsDir(s, d) && n !in s[d].entries
    ensures Plain(n)
  {
    hide LinksOk, TreeOk, Plain;
    NamePlain(s, d, n);
  }

  /** Linking a file and unlinking the new name again changes nothing. */
  lemma LinkUnlink(s: Nodes, i: nat, d: nat, n: Name, last: bool)
    requires Sound(s) && i in s && !s[i].kind.Dir? && IsDir(s, d) && n !in s[d].entries && (last ==> s[i].nlink >= 1)
    ensures var link, unlink := LinkCall(Some(i), Some(d), n, false), UnlinkCall(d, n, last);
            && Possible(s, link) && Works(s, link)
            && Possible(After(s, link), unlink) && Works(After(s, link), unlink)
            && After(After(s, link), unlink) == s
  {
    hide Sound, DropEntry, EmptyDir, Plain;
    NameSound(s, d, n);
    DropAdded(s, d, n, i);
    assert IsDir(AddLink(s, d, n, i), d);
  }

  /** Creating a file, a device or a directory and removing it again changes nothing. */
  lemma CreateUnlink(s: Nodes, d: nat, n: Name, kind: Kind, i: nat)
    requires Sound(s) && IsDir(s, d) && n !in s[d].entries && i !in s
    ensures var create, unlink := CreateCall(d, n, kind, Some(i), (false, false, false)), UnlinkCall(d, n, true);
            && Possible(s, create) && Works(s, create)
            && Possible(After(s, create), unlink) && Works(After(s, create), unlink)
            && After(After(s, create), unlink) == s
  {
    hide Sound, DropEntry, EmptyDir, Plain;
    NameSound(s, d, n);
    if kind.Dir? {
      DropMade(s, d, n, i);
    } else {
      DropAdded(s[i := Node(kind, 0, map[])], d, n, i);
      assert s[i := Node(kind, 0, map[])] - {i} == s;
    }
    assert IsDir(WithNew(s, d, n, i, kind), d);
  }

  /** A disk with nothing on it but the root directory. */
  function Boot(): (s: Nodes) {
    map[ROOT := Node(Dir, 1, map[DOT := ROOT, DOTDOT := ROOT])]
  }

  lemma BootSound()
    ensures Sound(Boot())
  {
    var s := Boot();
    assert forall e, m :: (e, m) in Naming(s, ROOT) <==> e == ROOT && m == DOTDOT;
    assert Naming(s, ROOT) == {(ROOT, DOTDOT)};
    assert NodeOk(s, ROOT);
  }

  /** The inodes after a run of calls; one that is not possible ends it. */
  function Run(s: Nodes, cs: seq<Call>): (r: Option<Nodes>)
    decreases |cs|
  {
    if cs == [] then Some(s)
    else if !Possible(s, cs[0]) then None
    else Run(After(s, cs[0]), cs[1..])
  }

  /** No call of the run puts a name into a directory that was removed. */
  ghost predicate InLinked(s: Nodes, cs: seq<Call>)
    decreases |cs|
  {
    cs != [] && Possible(s, cs[0]) ==>
      IntoLinked(s, cs[0]) && InLinked(After(s, cs[0]), cs[1..])
  }

  /** In every run that puts names only into linked directories, all counts stay exact. */
  lemma {:induction false} RunSound(s: Nodes, cs: seq<Call>)
    requires Sound(s) && InLinked(s, cs) && Run(s, cs).Some?
    ensures Sound(Run(s, cs).value)
    decreases |cs|
  {
    hide Sound, Possible, IntoLinked, After;
    if cs != [] {
      CallExactly(s, cs[0]);
      RunSound(After(s, cs[0]), cs[1..]);
    }
  }

  // Two runs: what goes wrong in a removed directory, and what need not.

  const A: Name := [97]
  const B: Name := [98]

  function Empty(d: nat, up: nat, nlink: int): (r: Node) {
    Node(Dir, nlink, map[DOT := d, DOTDOT := up])
  }

  function Mkdir(d: nat, n: Name, i: nat): (c: Call) {
    CreateCall(d, n, Dir, Some(i), (false, false, false))
  }

  lemma MkdirA()
    ensures Possible(Boot(), Mkdir(ROOT, A, 5))
    ensures After(Boot(), Mkdir(ROOT, A, 5)) ==
            map[ROOT := Node(Dir, 2, map[DOT := ROOT, DOTDOT := ROOT, A := 5]), 5 := Empty(5, ROOT, 1)]
  {
  }

  /** Directory a is made, and removed while somebody is in it. */
  lemma RemoveA(s: Nodes)
    requires s == map[ROOT := Node(Dir, 2, map[DOT := ROOT, DOTDOT := ROOT, A := 5]), 5 := Empty(5, ROOT, 1)]
    ensures Possible(s, UnlinkCall(ROOT, A, false))
    ensures After(s, UnlinkCall(ROOT, A, false)) == map[ROOT := Empty(ROOT, ROOT, 1), 5 := Empty(5, ROOT, 0)]
  {
    assert Works(s, UnlinkCall(ROOT, A, false));
    assert DropEntry(s, ROOT, A) == map[ROOT := Empty(ROOT, ROOT, 1), 5 := Empty(5, ROOT, 0)] by {
      assert s[ROOT].entries - {A} == map[DOT := ROOT, DOTDOT := ROOT];
    }
  }

  lemma {:induction false} RunStep(s: Nodes, c: Call, cs: seq<Call>)
    requires Possible(s, c)
    ensures Run(s, [c] + cs) == Run(After(s, c), cs)
    ensures InLinked(s, [c] + cs) <==> IntoLinked(s, c) && InLinked(After(s, c), cs)
  {
    assert ([c] + cs)[1..] == cs;
  }

  /** In a reachable state, with every count exact, a file or a directory made in a removed
      directory breaks a count. */
  lemma RemovedDirBreaks(kind: Kind)
    ensures var cs := [Mkdir(ROOT, A, 5)] + ([UnlinkCall(ROOT, A, false)] + []);
            var c := CreateCall(5, B, kind, Some(6), (false, false, false));
            && InLinked(Boot(), cs) && Run(Boot(), cs).Some?
            && var s := Run(Boot(), cs).value; Sound(s) && Possible(s, c) && !LinksOk(After(s, c))
  {
    hide Sound, LinksOk, TreeOk, Naming;
    BootSound();
    var c0, c1 := Mkdir(ROOT, A, 5), UnlinkCall(ROOT, A, false);
    var s0 := Boot();
    MkdirA();
    RunStep(s0, c0, [c1] + []);
    var s1 := After(s0, c0);
    RemoveA(s1);
    RunStep(s1, c1, []);
    assert InLinked(After(s1, c1), []);
    RunSound(s0, [c0] + ([c1] + []));
    CallExactly(After(s1, c1), CreateCall(5, B, kind, Some(6), (false, false, false)));
  }

  lemma MkdirB(s: Nodes)
    requires s == map[ROOT := Node(Dir, 2, map[DOT := ROOT, DOTDOT := ROOT, A := 5]), 5 := Empty(5, ROOT, 1)]
    ensures Possible(s, Mkdir(5, B, 6))
    ensures After(s, Mkdir(5, B, 6)) ==
            map[ROOT := s[ROOT], 5 := Node(Dir, 2, map[DOT := 5, DOTDOT := ROOT, B := 6]), 6 := Empty(6, 5, 1)]
  {
  }

  lemma RemoveB(s: Nodes)
    requires ROOT in s && 5 in s && 6 in s && s.Keys == {ROOT, 5, 6}
    requires s[5] == Node(Dir, 2, map[DOT := 5, DOTDOT := ROOT, B := 6]) && s[6] == Empty(6, 5, 1)
    ensures Possible(s, UnlinkCall(5, B, false))
    ensures After(s, UnlinkCall(5, B, false)) == map[ROOT := s[ROOT], 5 := Empty(5, ROOT, 1), 6 := Empty(6, 5, 0)]
  {
    var s' := DropEntry(s, 5, B);
    assert s[5].entries - {B} == map[DOT := 5, DOTDOT := ROOT];
    assert s'.Keys == {ROOT, 5, 6};
  }

  lemma RemoveLast(s: Nodes)
    requires ROOT in s && 5 in s && 6 in s && s.Keys == {ROOT, 5, 6}
    requires s[ROOT] == Node(Dir, 2, map[DOT := ROOT, DOTDOT := ROOT, A := 5]) && s[5] == Empty(5, ROOT, 1)
    ensures Possible(s, UnlinkCall(ROOT, A, true))
    ensures After(s, UnlinkCall(ROOT, A, true)) == map[ROOT := Empty(ROOT, ROOT, 1), 6 := s[6]]
  {
    var s' := DropEntry(s, ROOT, A);
    assert s[ROOT].entries - {A} == map[DOT := ROOT, DOTDOT := ROOT];
    assert s'.Keys == {ROOT, 5, 6} && s'[ROOT] == Empty(ROOT, ROOT, 1) && s'[5].nlink == 0;
  }

  /** The run mkdir a, mkdir a/b, rmdir a/b while somebody is in it, rmdir a. */
  function OrphanRun(): (cs: seq<Call>) {
    [Mkdir(ROOT, A, 5)] + ([Mkdir(5, B, 6)] + ([UnlinkCall(5, B, false)] + ([UnlinkCall(ROOT, A, true)] + [])))
  }

  lemma OrphanState()
    ensures Run(Boot(), OrphanRun()) == Some(map[ROOT := Empty(ROOT, ROOT, 1), 6 := Empty(6, 5, 0)])
    ensures InLinked(Boot(), OrphanRun())
  {
    hide After, Works, Possible;
    var c0, c1, c2, c3 := Mkdir(ROOT, A, 5), Mkdir(5, B, 6), UnlinkCall(5, B, false), UnlinkCall(ROOT, A, true);
    MkdirA();
    var s1 := After(Boot(), c0);
    MkdirB(s1);
    var s2 := After(s1, c1);
    RemoveB(s2);
    var s3 := After(s2, c2);
    RemoveLast(s3);
    RunStep(Boot(), c0, [c1] + ([c2] + ([c3] + [])));
    RunStep(s1, c1, [c2] + ([c3] + []));
    RunStep(s2, c2, [c3] + []);
    RunStep(s3, c3, []);
    assert InLinked(After(s3, c3), []);
  }

  /** A directory made in a removed one whose parent is gone breaks no count, though it is
      not in the tree; it does when it gets the inode number of the parent. */
  lemma OrphanSurvives()
    ensures Run(Boot(), OrphanRun()).Some?
    ensures var s := Run(Boot(), OrphanRun()).value;
            && Sound(s) && Possible(s, Mkdir(6, A, 7)) && Possible(s, Mkdir(6, A, 5))
            && LinksOk(After(s, Mkdir(6, A, 7))) && !Sound(After(s, Mkdir(6, A, 7)))
            && !LinksOk(After(s, Mkdir(6, A, 5)))
  {
    hide Sound, LinksOk, TreeOk, Naming;
    BootSound();
    OrphanState();
    RunSound(Boot(), OrphanRun());
    var s := Run(Boot(), OrphanRun()).value;
    CallExactly(s, Mkdir(6, A, 7));
    CallExactly(s, Mkdir(6, A, 5));
  }

  class Files {
    var nodes: Nodes

    constructor (nodes: Nodes)
      ensures this.nodes == nodes
    {
      this.nodes := nodes;
    }

    /** dirlink: it fails when the name is there or the disk is full. */
    method DirLink(d: nat, n: Name, i: nat, full: bool) returns (ok: bool)
      requires IsDir(nodes, d)
      modifies this
      ensures ok == (n !in old(nodes)[d].entries && !full)
      ensures nodes == if ok then old(nodes)[d := old(nodes)[d].(entries := old(nodes)[d].entries[n := i])]
              else old(nodes)
    {
      ok := n !in nodes[d].entries && !full;
      if ok {
        nodes := nodes[d := nodes[d].(entries := nodes[d].entries[n := i])];
      }
    }

    /** sys_link: ip is the old path, d the parent of the new one. */
    method Link(ip: Option<nat>, d: Option<nat>, n: Name, full: bool) returns (r: int)
      requires Possible(nodes, LinkCall(ip, d, n, full)) && Sound(nodes)
      modifies this
      ensures r == 0 || r == -1
      ensures r == 0 <==>
              ip.Some? && !old(nodes)[ip.value].kind.Dir? && d.Some? && n !in old(nodes)[d.value].entries && !full
      ensures r == 0 ==>
                && nodes.Keys == old(nodes).Keys && SameBut(old(nodes), nodes, {d.value, ip.value})
                && nodes[d.value] == old(nodes)[d.value].(entries := old(nodes)[d.value].entries[n := ip.value])
                && nodes[ip.value] == old(nodes)[ip.value].(nlink := old(nodes)[ip.value].nlink + 1)
      ensures r != 0 ==> nodes == old(nodes)
      ensures nodes == After(old(nodes), LinkCall(ip, d, n, full))
      ensures Sound(nodes) <==> IntoLinked(old(nodes), LinkCall(ip, d, n, full))
    {
      hide Sound, TreeOk, LinksOk, Naming, EmptyDir, IntoLinked, Target;
      CallExactly(nodes, LinkCall(ip, d, n, full));
      if ip.None? || nodes[ip.value].kind.Dir? {
        return -1;
      }
      var i := ip.value;
      nodes := nodes[i := nodes[i].(nlink := nodes[i].nlink + 1)];
      var ok := false;
      if d.Some? {
        ok := DirLink(d.value, n, i, full);
      }
      if ok {
        assert nodes == AddLink(old(nodes), d.value, n, i);
        return 0;
      }
      nodes := nodes[i := nodes[i].(nlink := nodes[i].nlink - 1)];
      assert nodes == old(nodes);
      r := -1;
    }

    /** sys_unlink of name n in directory d; last tells whether ours is the only reference
        to what it names. */
    method Unlink(d: nat, n: Name, last: bool) returns (r: int)
      requires Possible(nodes, UnlinkCall(d, n, last)) && Sound(nodes)
      modifies this
      ensures r == 0 || r == -1
      ensures r == 0 ==> n in old(nodes)[d].entries && old(nodes)[d].entries[n] in old(nodes)
      ensures r == 0 <==>
              && n != DOT && n != DOTDOT && n in old(nodes)[d].entries
              && var x := old(nodes)[d].entries[n];
                 x in old(nodes) && (old(nodes)[x].kind.Dir? ==> forall m :: m in old(nodes)[x].entries ==> !Plain(m))
      ensures r == 0 ==>
                var x, was := old(nodes)[d].entries[n], old(nodes);
                && x != d && was[x].nlink >= 1 && SameBut(was, nodes, {d, x}) && d in nodes
                && nodes[d] == was[d].(entries := was[d].entries - {n},
                                       nlink := was[d].nlink - if was[x].kind.Dir? then 1 else 0)
                && (if last && was[x].nlink == 1 then nodes.Keys == was.Keys - {x}
                    else nodes.Keys == was.Keys && nodes[x] == was[x].(nlink := was[x].nlink - 1))
      ensures r != 0 ==> nodes == old(nodes)
      ensures nodes == After(old(nodes), UnlinkCall(d, n, last))
      ensures Sound(nodes)
    {
      hide Sound, TreeOk, LinksOk, Naming, EmptyDir, IntoLinked;
      NoTarget(nodes, d, n, last);
      CallExactly(nodes, UnlinkCall(d, n, last));
      if n == DOT || n == DOTDOT || n !in nodes[d].entries {
        return -1;
      }
      var x := nodes[d].entries[n];
      Found(nodes, d, n);
      EmptyMeans(nodes, x);
      if nodes[x].kind.Dir? && !IsEmpty(x) {
        return -1;
      }
      assert nodes[x].nlink >= 1;
      var gone := nodes[x].kind.Dir?;
      nodes := nodes[d := nodes[d].(entries := nodes[d].entries - {n})];
      if gone {
        nodes := nodes[d := nodes[d].(nlink := nodes[d].nlink - 1)];
      }
      nodes := nodes[x := nodes[x].(nlink := nodes[x].nlink - 1)];
      assert nodes == DropEntry(old(nodes), d, n);
      if last && nodes[x].nlink == 0 {
        nodes := nodes - {x};
      }
      r := 0;
    }

    /** create of name n in directory d; spare is what ialloc finds, and full tells for each
        of the three calls of dirlink whether the disk is full. A new inode that cannot be
        linked is freed again. */
    method Create(d: nat, n: Name, kind: Kind, spare: Option<nat>, full: (bool, bool, bool)) returns (r: Option<nat>)
      requires Possible(nodes, CreateCall(d, n, kind, spare, full)) && Sound(nodes)
      modifies this
      ensures n in old(nodes)[d].entries ==>
                var x := old(nodes)[d].entries[n];
                && nodes == old(nodes)
                && r == if kind.File? && x in nodes && !nodes[x].kind.Dir? then Some(x) else None
      ensures n !in old(nodes)[d].entries ==>
                r == if !full.2 && (kind.Dir? ==> !full.0 && !full.1) then spare else None
      ensures n !in old(nodes)[d].entries && r.Some? ==> Created(old(nodes), nodes, d, n, kind, r.value)
      ensures n !in old(nodes)[d].entries && r.None? ==> nodes == old(nodes)
      ensures nodes == After(old(nodes), CreateCall(d, n, kind, spare, full))
      ensures Sound(nodes) <==> IntoLinked(old(nodes), CreateCall(d, n, kind, spare, full))
    {
      hide Sound, TreeOk, LinksOk, Naming, EmptyDir, IntoLinked, Target;
      CallExactly(nodes, CreateCall(d, n, kind, spare, full));
      if n in nodes[d].entries {
        var x := nodes[d].entries[n];
        r := if kind.File? && x in nodes && !nodes[x].kind.Dir? then Some(x) else None;
        return;
      }
      if spare.None? {
        return None;
      }
      var i := spare.value;
      nodes := nodes[i := Node(kind, 1, map[])];
      var ok := true;
      if kind.Dir? {
        ok := DirLink(i, DOT, i, full.0);
        if ok {
          ok := DirLink(i, DOTDOT, d, full.1);
        }
      }
      if ok {
        ok := DirLink(d, n, i, full.2);
      }
      if !ok {
        nodes := nodes[i := nodes[i].(nlink := 0)];
        nodes := nodes - {i};
        assert nodes == old(nodes);
        return None;
      }
      if kind.Dir? {
        nodes := nodes[d := nodes[d].(nlink := nodes[d].nlink + 1)];
        assert nodes[i] == MakeDir(old(nodes), d, n, i)[i];
        assert nodes == MakeDir(old(nodes), d, n, i);
      } else {
        assert nodes == AddLink(old(nodes)[i := Node(kind, 0, map[])], d, n, i);
      }
      r := Some(i);
    }

    /** isdirempty. */
    predicate IsEmpty(x: nat)
      requires x in nodes
      reads this
    {
      forall m :: m in nodes[x].entries ==> !Plain(m)
    }
  }

  lemma CreateExactly(s: Nodes, d: nat, n: Name, i: nat, kind: Kind)
    requires Sound(s) && IsDir(s, d) && i !in s && n !in s[d].entries
    ensures d != i && (Sound(WithNew(s, d, n, i, kind)) <==> Linked(s, d))
    ensures LinksOk(WithNew(s, d, n, i, kind)) <==> if kind.Dir? then CountsSurvive(s, d, i) else Linked(s, d)
  {
    hide Sound, LinksOk;
    MakeDirExactly(s, d, n, i);
    if !kind.Dir? {
      AddNode(s, i, kind);
      AddLinkExactly(s[i := Node(kind, 0, map[])], d, n, i);
    }
  }

  lemma Found(s: Nodes, d: nat, n: Name)
    requires Sound(s) && IsDir(s, d) && n in s[d].entries && Plain(n)
    ensures Linked(s, d) && s[d].entries[n] in s && Entry(s, d, n, s[d].entries[n])
  {
    assert NodeOk(s, d);
    assert Entry(s, d, n, s[d].entries[n]);
    assert TargetOk(s, d, s[d].entries[n]);
  }

  lemma EmptyMeans(s: Nodes, x: nat)
    requires x in s
    ensures EmptyDir(s, x) <==> (s[x].kind.Dir? ==> forall m :: m in s[x].entries ==> !Plain(m))
  {
  }

  lemma DropReady(s: Nodes, d: nat, n: Name, x: nat)
    requires Sound(s) && Entry(s, d, n, x) && x in s && EmptyDir(s, x)
    ensures Droppable(s, d, n, x) && LinksOk(s)
  {
  }
}
