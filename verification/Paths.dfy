/** Path names as in kernel/fs.c: skipelem takes a path apart. Strings are bytes without the
    NUL that ends them. */
module Paths {
  import opened Common
  import opened Blocks

  const DIRSIZ := 14
  const SLASH: byte := 47

  type Str = seq<byte>

  /** What a directory entry keeps of a name. */
  function Trunc(s: Str): (r: Str) {
    if |s| > DIRSIZ then s[..DIRSIZ] else s
  }

  predicate NoSlash(s: Str) {
    forall i :: 0 <= i < |s| ==> s[i] != SLASH
  }

  /** The index of the first slash, or the length. */
  function FirstSlash(s: Str): (n: nat)
    ensures n <= |s| && NoSlash(s[..n]) && (n < |s| ==> s[n] == SLASH)
  {
    if s == [] || s[0] == SLASH then 0
    else
      var n := 1 + FirstSlash(s[1..]);
      assert forall i :: 0 < i < n ==> s[i] == s[1..][i - 1];
      n
  }

  /** The path cut at every slash, empty pieces and all. */
  function Pieces(path: Str): (r: seq<Str>)
    decreases |path|
  {
    var n := FirstSlash(path);
    if n == |path| then [path] else [path[..n]] + Pieces(path[n + 1..])
  }

  function NonEmpty(pieces: seq<Str>): (r: seq<Str>)
    ensures forall k :: 0 <= k < |r| ==> r[k] != []
  {
    if pieces == [] then []
    else if pieces[0] == [] then NonEmpty(pieces[1..])
    else [pieces[0]] + NonEmpty(pieces[1..])
  }

  /** The components of a path. */
  function Elements(path: Str): (r: seq<Str>) {
    NonEmpty(Pieces(path))
  }

  lemma FirstSlashOf(s: Str, n: nat)
    requires n <= |s| && NoSlash(s[..n]) && (n < |s| ==> s[n] == SLASH)
    ensures FirstSlash(s) == n
  {
    var m := FirstSlash(s);
    assert forall i :: 0 <= i < n ==> s[i] == s[..n][i];
    assert forall i :: 0 <= i < m ==> s[i] == s[..m][i];
  }

  /** Leading slashes do not matter. */
  lemma SkipSlash(path: Str)
    requires path != [] && path[0] == SLASH
    ensures Elements(path) == Elements(path[1..])
  {
    FirstSlashOf(path, 0);
    assert path[..0] == [];
    assert Pieces(path) == [[]] + Pieces(path[1..]);
    assert Pieces(path)[1..] == Pieces(path[1..]);
  }

  /** A path that starts with a component. */
  lemma TakeElement(path: Str, n: nat)
    requires 0 < n <= |path| && NoSlash(path[..n]) && (n < |path| ==> path[n] == SLASH)
    ensures Elements(path) == [path[..n]] + Elements(path[n..])
  {
    FirstSlashOf(path, n);
    if n == |path| {
      assert path[..n] == path && path[n..] == [];
      NoElements();
      assert [path][1..] == [];
    } else {
      SkipSlash(path[n..]);
      assert path[n..][1..] == path[n + 1..];
      assert Pieces(path) == [path[..n]] + Pieces(path[n + 1..]);
      assert Pieces(path)[1..] == Pieces(path[n + 1..]);
    }
  }

  lemma NoElements()
    ensures Elements([]) == []
  {
    var one: seq<Str> := [[]];
    assert Pieces([]) == one;
    assert one[1..] == [];
  }

  /** The names with this many slashes before each. */
  function Joined(names: seq<Str>, slashes: seq<nat>): (r: Str)
    requires |names| == |slashes|
  {
    if names == [] then [] else seq(slashes[0], _ => SLASH) + names[0] + Joined(names[1..], slashes[1..])
  }

  lemma {:induction false} SlashesFirst(n: nat, path: Str)
    ensures Elements(seq(n, _ => SLASH) + path) == Elements(path)
  {
    var all := seq(n, _ => SLASH) + path;
    if n == 0 {
      assert all == path;
    } else {
      SkipSlash(all);
      assert all[1..] == seq(n - 1, _ => SLASH) + path;
      SlashesFirst(n - 1, path);
    }
  }

  /** Taking apart undoes joining, however many slashes there are. */
  lemma {:induction false} JoinedElements(names: seq<Str>, slashes: seq<nat>)
    requires |names| == |slashes| && forall k :: 0 < k < |names| ==> slashes[k] > 0
    requires forall k :: 0 <= k < |names| ==> names[k] != [] && NoSlash(names[k])
    ensures Elements(Joined(names, slashes)) == names
    decreases |names|
  {
    hide Elements;
    if names == [] {
      NoElements();
    } else {
      var rest := Joined(names[1..], slashes[1..]);
      var s := names[0] + rest;
      assert Joined(names, slashes) == seq(slashes[0], _ => SLASH) + s;
      SlashesFirst(slashes[0], s);
      assert s[..|names[0]|] == names[0] && s[|names[0]|..] == rest;
      assert rest != [] ==> rest[0] == SLASH;
      TakeElement(s, |names[0]|);
      JoinedElements(names[1..], slashes[1..]);
    }
  }

  method SkipSlashes(path: Str, at: nat) returns (p: nat)
    requires at <= |path|
    ensures at <= p <= |path| && (p < |path| ==> path[p] != SLASH) && Elements(path[p..]) == Elements(path[at..])
  {
    p := at;
    while p < |path| && path[p] == SLASH
      invariant at <= p <= |path| && Elements(path[p..]) == Elements(path[at..])
    {
      SkipSlash(path[p..]);
      assert path[p..][1..] == path[p + 1..];
      p := p + 1;
    }
  }

  method SkipName(path: Str, s: nat) returns (p: nat)
    requires s < |path| && path[s] != SLASH
    ensures s < p <= |path| && NoSlash(path[s..p]) && (p < |path| ==> path[p] == SLASH)
  {
    p := s;
    while p < |path| && path[p] != SLASH
      invariant s <= p <= |path| && forall i :: s <= i < p ==> path[i] != SLASH
    {
      p := p + 1;
    }
  }

  /** skipelem from position at: the next component, truncated, and the position behind it
      and its slashes; that is the end exactly when it was the last component. */
  method SkipElem(path: Str, at: nat) returns (found: bool, name: Str, next: nat)
    requires at <= |path|
    ensures at <= next <= |path|
    ensures found <==> Elements(path[at..]) != []
    ensures found ==>
              at < next && name == Trunc(Elements(path[at..])[0]) &&
              Elements(path[next..]) == Elements(path[at..])[1..]
    ensures found ==> (next == |path| <==> |Elements(path[at..])| == 1)
  {
    hide Elements, NoSlash;
    name := [];
    var s := SkipSlashes(path, at);
    if s == |path| {
      NoElements();
      assert path[s..] == [];
      return false, name, s;
    }
    var p := SkipName(path, s);
    var len := p - s;
    name := if len >= DIRSIZ then path[s..s + DIRSIZ] else path[s..p];
    assert path[s..][..len] == path[s..p] && path[s..][len..] == path[p..];
    TakeElement(path[s..], len);
    next := SkipSlashes(path, p);
    found := true;
    if next == |path| {
      NoElements();
      assert path[next..] == [];
    } else {
      HasElement(path[next..]);
    }
  }

  lemma HasElement(path: Str)
    requires path != [] && path[0] != SLASH
    ensures Elements(path) != []
  {
    var n := FirstSlash(path);
    TakeElement(path, n);
  }
}
