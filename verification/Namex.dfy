/** namex of kernel/fs.c: resolving a path is looking up its components one after the
    other. dirs are the inodes of type T_DIR. */
module Namex {
  import opened Common
  import opened Blocks
  import opened Fs
  import opened FileBytes
  import opened Paths
  import opened Directory

  const ROOTINO := 1

  ghost predicate Dirs(fs: Fs, dirs: set<nat>)
    reads fs
  {
    forall i :: i in dirs ==> DirFile(fs, i)
  }

  /** One component from directory at. */
  ghost function Step(d: Disk, dirs: set<nat>, at: nat, name: Str): (r: Option<nat>)
    requires at in dirs ==> at in d.inodes
  {
    if at !in dirs then None
    else
      var m := View(Contents(d, at));
      if Trunc(name) in m then Some(m[Trunc(name)]) else None
  }

  /** The lookup folded along the components. */
  ghost function Resolve(d: Disk, dirs: set<nat>, at: nat, elems: seq<Str>): (r: Option<nat>)
    requires forall i :: i in dirs ==> i in d.inodes
    decreases |elems|
  {
    if elems == [] then Some(at)
    else
      var next := Step(d, dirs, at, elems[0]);
      if next.None? then None else Resolve(d, dirs, next.value, elems[1..])
  }

  lemma {:induction false} ResolveLast(d: Disk, dirs: set<nat>, at: nat, elems: seq<Str>)
    requires (forall i :: i in dirs ==> i in d.inodes) && |elems| >= 2
    ensures Resolve(d, dirs, at, elems[..|elems| - 1]) ==
            var next := Step(d, dirs, at, elems[0]);
            if next.None? then None else Resolve(d, dirs, next.value, elems[1..][..|elems| - 2])
  {
    assert elems[..|elems| - 1][1..] == elems[1..][..|elems| - 2];
  }

  /** The directory that holds the last component. */
  ghost function ParentOf(d: Disk, dirs: set<nat>, at: nat, elems: seq<Str>): (r: Option<nat>)
    requires forall i :: i in dirs ==> i in d.inodes
  {
    if elems == [] then None
    else
      var p := Resolve(d, dirs, at, elems[..|elems| - 1]);
      if p.Some? && p.value in dirs then p else None
  }

  // A path as a chain of directories.

  /** Directory a has this name for b. */
  ghost predicate Leads(d: Disk, dirs: set<nat>, a: nat, name: Str, b: nat) {
    a in dirs && a in d.inodes && Trunc(name) in View(Contents(d, a)) && View(Contents(d, a))[Trunc(name)] == b
  }

  /** One inode after the other, by the names in elems. */
  ghost predicate Chain(d: Disk, dirs: set<nat>, ns: seq<nat>, elems: seq<Str>) {
    |ns| == |elems| + 1 && forall k :: 0 <= k < |elems| ==> Leads(d, dirs, ns[k], elems[k], ns[k + 1])
  }

  ghost predicate Reaches(d: Disk, dirs: set<nat>, a: nat, elems: seq<Str>, b: nat) {
    exists ns :: Chain(d, dirs, ns, elems) && ns[0] == a && ns[|elems|] == b
  }

  lemma ChainStep(d: Disk, dirs: set<nat>, a: nat, next: nat, elems: seq<Str>, b: nat)
    requires elems != [] && Leads(d, dirs, a, elems[0], next)
    ensures Reaches(d, dirs, a, elems, b) <==> Reaches(d, dirs, next, elems[1..], b)
  {
    hide View, Contents;
    if Reaches(d, dirs, a, elems, b) {
      var ns :| Chain(d, dirs, ns, elems) && ns[0] == a && ns[|elems|] == b;
      assert Leads(d, dirs, ns[0], elems[0], ns[1]);
      forall k | 0 <= k < |elems[1..]|
        ensures Leads(d, dirs, ns[1..][k], elems[1..][k], ns[1..][k + 1])
      {
        assert Leads(d, dirs, ns[k + 1], elems[k + 1], ns[k + 2]);
      }
      assert Chain(d, dirs, ns[1..], elems[1..]);
    }
    if Reaches(d, dirs, next, elems[1..], b) {
      var ns :| Chain(d, dirs, ns, elems[1..]) && ns[0] == next && ns[|elems[1..]|] == b;
      var all := [a] + ns;
      forall k | 0 <= k < |elems|
        ensures Leads(d, dirs, all[k], elems[k], all[k + 1])
      {
        assert k > 0 ==> Leads(d, dirs, ns[k - 1], elems[1..][k - 1], ns[k]);
      }
      assert Chain(d, dirs, all, elems);
    }
  }

  lemma ChainStarts(d: Disk, dirs: set<nat>, a: nat, elems: seq<Str>, b: nat)
    requires elems != [] && Reaches(d, dirs, a, elems, b)
    ensures a in dirs && a in d.inodes && Trunc(elems[0]) in View(Contents(d, a))
  {
    hide View, Contents;
    var ns :| Chain(d, dirs, ns, elems) && ns[0] == a && ns[|elems|] == b;
    assert Leads(d, dirs, ns[0], elems[0], ns[1]);
  }

  /** A path names b exactly if its components lead there, through directories all the way. */
  lemma {:induction false} ResolveExactly(d: Disk, dirs: set<nat>, a: nat, elems: seq<Str>, b: nat)
    requires forall i :: i in dirs ==> i in d.inodes
    ensures Resolve(d, dirs, a, elems) == Some(b) <==> Reaches(d, dirs, a, elems, b)
    decreases |elems|
  {
    hide View, Contents;
    if elems == [] {
      assert a == b ==> Chain(d, dirs, [a], elems);
    } else {
      var m := if a in dirs then View(Contents(d, a)) else map[];
      if a in dirs && Trunc(elems[0]) in m {
        var next := m[Trunc(elems[0])];
        ChainStep(d, dirs, a, next, elems, b);
        ResolveExactly(d, dirs, next, elems[1..], b);
      } else if Reaches(d, dirs, a, elems, b) {
        ChainStarts(d, dirs, a, elems, b);
      }
    }
  }

  /** And its parent is the directory that all its components but the last lead to. */
  lemma ParentExactly(d: Disk, dirs: set<nat>, a: nat, elems: seq<Str>, b: nat)
    requires forall i :: i in dirs ==> i in d.inodes
    ensures ParentOf(d, dirs, a, elems) == Some(b) <==>
            elems != [] && b in dirs && Reaches(d, dirs, a, elems[..|elems| - 1], b)
  {
    hide Reaches, Resolve;
    if elems != [] {
      ResolveExactly(d, dirs, a, elems[..|elems| - 1], b);
    }
  }

  lemma InInodes(fs: Fs, dirs: set<nat>)
    requires Dirs(fs, dirs)
    ensures forall i :: i in dirs ==> i in fs.d.inodes
  {
  }

  lemma {:induction false} ElementsNoNul(path: Str)
    requires NoNul(path)
    ensures forall k :: 0 <= k < |Elements(path)| ==> NoNul(Elements(path)[k])
    decreases |path|
  {
    if path != [] {
      if path[0] == SLASH {
        SkipSlash(path);
        ElementsNoNul(path[1..]);
      } else {
        var n := FirstSlash(path);
        TakeElement(path, n);
        ElementsNoNul(path[n..]);
      }
    } else {
      NoElements();
    }
  }

  /** namex: with parent, the directory that is to hold the last component, and that
      component; otherwise what the whole path names. */
  method Namex(fs: Fs, dirs: set<nat>, path: Str, cwd: nat, parent: bool) returns (ino: Option<nat>, name: Str)
    requires Dirs(fs, dirs) && NoNul(path)
    modifies fs`d
    ensures fs.d == old(fs.d) && forall i :: i in dirs ==> i in fs.d.inodes
    ensures var start := if path != [] && path[0] == SLASH then ROOTINO else cwd;
            ino == if parent then ParentOf(fs.d, dirs, start, Elements(path))
              else Resolve(fs.d, dirs, start, Elements(path))
    ensures parent && ino.Some? ==> Elements(path) != [] && name == Trunc(Elements(path)[|Elements(path)| - 1])
  {
    hide Elements, View, DirFile, Contents, Resolve, ParentOf, NoNul;
    InInodes(fs, dirs);
    var start: nat := if path != [] && path[0] == SLASH then ROOTINO else cwd;
    var ip: nat, at: nat := start, 0;
    name := [];
    ghost var all := Elements(path);
    ghost var done: nat := 0;
    assert path[0..] == path && all[0..] == all;
    while true
      invariant at <= |path| && done <= |all| && all[done..] == Elements(path[at..])
      invariant fs.d == old(fs.d) && Resolve(fs.d, dirs, start, all) == Resolve(fs.d, dirs, ip, all[done..])
      invariant all[done..] != [] ==> ParentOf(fs.d, dirs, start, all) == ParentOf(fs.d, dirs, ip, all[done..])
      invariant all[done..] == [] && all != [] ==> !parent
      decreases |path| - at
    {
      var found, elem, next := SkipElem(path, at);
      if !found {
        break;
      }
      name := elem;
      LastOf(all, done);
      if ip !in dirs {
        NotDir(fs.d, dirs, ip, all[done..]);
        return None, name;
      }
      if parent && next == |path| {
        OnlyOne(fs.d, dirs, ip, all[done..]);
        return Some(ip), name;
      }
      ElementsNoNul(path);
      TruncNoNul(all[done]);
      var inum, _ := DirLookup(fs, ip, elem);
      TruncTwice(all[done]);
      if inum == 0 {
        Missing(fs.d, dirs, ip, all[done..]);
        return None, name;
      }
      Onward(fs.d, dirs, ip, inum, all[done..]);
      assert all[done..][1..] == all[done + 1..];
      ip, at, done := inum, next, done + 1;
    }
    Arrived(fs.d, dirs, start, ip, all);
    ino := if parent then None else Some(ip);
  }

  lemma Arrived(d: Disk, dirs: set<nat>, start: nat, at: nat, all: seq<Str>)
    requires forall i :: i in dirs ==> i in d.inodes
    ensures Resolve(d, dirs, at, []) == Some(at) && (all == [] ==> ParentOf(d, dirs, start, all) == None)
  {
  }

  /** One component further. */
  lemma Onward(d: Disk, dirs: set<nat>, at: nat, next: nat, elems: seq<Str>)
    requires (forall i :: i in dirs ==> i in d.inodes) && elems != [] && Step(d, dirs, at, elems[0]) == Some(next)
    ensures Resolve(d, dirs, at, elems) == Resolve(d, dirs, next, elems[1..])
    ensures |elems| >= 2 ==> ParentOf(d, dirs, at, elems) == ParentOf(d, dirs, next, elems[1..])
  {
    if |elems| >= 2 {
      ResolveLast(d, dirs, at, elems);
      assert elems[1..][..|elems[1..]| - 1] == elems[1..][..|elems| - 2];
    }
  }

  lemma LastOf(all: seq<Str>, done: nat)
    requires done < |all|
    ensures |all[done..]| == 1 ==> all[done] == all[|all| - 1]
  {
  }

  lemma TruncTwice(s: Str)
    ensures Trunc(Trunc(s)) == Trunc(s)
  {
  }

  lemma TruncNoNul(s: Str)
    requires NoNul(s)
    ensures NoNul(Trunc(s))
  {
  }

  lemma NotDir(d: Disk, dirs: set<nat>, at: nat, elems: seq<Str>)
    requires (forall i :: i in dirs ==> i in d.inodes) && at !in dirs && elems != []
    ensures Resolve(d, dirs, at, elems) == None && ParentOf(d, dirs, at, elems) == None
  {
  }

  lemma OnlyOne(d: Disk, dirs: set<nat>, at: nat, elems: seq<Str>)
    requires (forall i :: i in dirs ==> i in d.inodes) && at in dirs && |elems| == 1
    ensures ParentOf(d, dirs, at, elems) == Some(at)
  {
    assert elems[..0] == [];
  }

  lemma Missing(d: Disk, dirs: set<nat>, at: nat, elems: seq<Str>)
    requires (forall i :: i in dirs ==> i in d.inodes) && at in dirs && elems != []
    requires Step(d, dirs, at, elems[0]) == None
    ensures Resolve(d, dirs, at, elems) == None && (|elems| >= 2 ==> ParentOf(d, dirs, at, elems) == None)
  {
    if |elems| >= 2 {
      ResolveLast(d, dirs, at, elems);
    }
  }
}
