/** The line buffering of grep in user/grep.c: a 1024-byte buffer, filled by reads of
    any size, edited in place. */
module Grep {
  import opened Regex

  const BUFSIZE: nat := 1024

  /** Position of the first newline or NUL, or the length. */
  function LineEnd(s: string): (q: nat)
    ensures q <= |s| && (q < |s| ==> s[q] == '\n' || s[q] == '\0')
    ensures forall i :: 0 <= i < q ==> s[i] != '\n' && s[i] != '\0'
  {
    if s == "" || s[0] == '\n' || s[0] == '\0' then 0 else 1 + LineEnd(s[1..])
  }

  /** A first line that grep can see: newline-terminated, free of NULs, and no longer
      than the buffer with its newline. */
  predicate HasLine(s: string) {
    var q := LineEnd(s);
    q < |s| && s[q] == '\n' && q + 1 < BUFSIZE
  }

  /** The matching lines of the input, up to the first one that grep cannot see. */
  ghost function Selected(pattern: string, s: string): (out: string) {
    if !HasLine(s) then ""
    else
      var q := LineEnd(s);
      (if Matches(Parse(pattern), s[..q]) then s[..q + 1] else "") + Selected(pattern, s[q + 1..])
  }

  lemma LineEndOf(s: string, q: nat)
    requires q < |s| && (s[q] == '\n' || s[q] == '\0')
    requires forall i :: 0 <= i < q ==> s[i] != '\n' && s[i] != '\0'
    ensures LineEnd(s) == q
  {
  }

  /** No newline before the end or the first NUL. */
  predicate NoLine(t: string) {
    LineEnd(t) == |t| || t[LineEnd(t)] == '\0'
  }

  /** A buffer without a complete line, at end of input or full, selects nothing more. */
  lemma NothingMore(pattern: string, pending: string, rest: string)
    requires NoLine(pending)
    requires rest == "" || |pending| + 1 >= BUFSIZE
    ensures Selected(pattern, pending + rest) == ""
  {
    var s, q := pending + rest, LineEnd(pending);
    if q < |pending| {
      LineEndOf(s, q);
    } else {
      assert forall i :: 0 <= i < q ==> s[i] == pending[i];
      if LineEnd(s) < q {
        assert s[LineEnd(s)] == pending[LineEnd(s)];
      }
    }
  }

  // strchr(buf + p, '\n'): the position, or m when a NUL comes first.
  method StrChr(buf: array<char>, p: nat, m: nat) returns (q: nat)
    requires p <= m < buf.Length && buf[m] == '\0'
    ensures p <= q <= m && (q < m ==> buf[q] == '\n')
    ensures q < m ==> q - p == LineEnd(buf[p..m])
    ensures q == m ==> LineEnd(buf[p..m]) == m - p || buf[p..m][LineEnd(buf[p..m])] == '\0'
  {
    q := p;
    while buf[q] != '\n'
      invariant p <= q <= m
      invariant forall i :: p <= i < q ==> buf[i] != '\n' && buf[i] != '\0'
      decreases m - q
    {
      if buf[q] == '\0' {
        if q < m {
          LineEndOf(buf[p..m], q - p);
        }
        return m;
      }
      q := q + 1;
    }
    LineEndOf(buf[p..m], q - p);
  }

  // memmove(buf, buf + p, n).
  method MoveDown(buf: array<char>, p: nat, n: nat)
    requires p + n <= buf.Length
    modifies buf
    ensures buf[..n] == old(buf[p..p + n])
  {
    var i := 0;
    while i < n
      invariant 0 <= i <= n
      invariant forall j :: 0 <= j < i ==> buf[j] == old(buf[p + j])
      invariant forall j :: i <= j < buf.Length ==> buf[j] == old(buf[j])
    {
      buf[i] := buf[p + i];
      i := i + 1;
    }
  }

  // read(fd, buf + m, room): the next n bytes of the input.
  method Read(buf: array<char>, m: nat, n: nat, input: string, pos: nat)
    requires m + n <= buf.Length && pos + n <= |input|
    modifies buf
    ensures buf[..m] == old(buf[..m]) && buf[m..m + n] == input[pos..pos + n]
  {
    var i := 0;
    while i < n
      invariant 0 <= i <= n
      invariant forall j :: m <= j < m + i ==> buf[j] == input[pos + j - m]
      invariant forall j :: 0 <= j < m ==> buf[j] == old(buf[j])
    {
      buf[m + i] := input[pos + i];
      i := i + 1;
    }
  }

  /** The first line of t ends at e: selection takes it, or not, and goes on behind it. */
  lemma SelectLine(pattern: string, t: string, e: nat)
    requires e < |t| && t[e] == '\n' && e + 1 < BUFSIZE && forall i :: 0 <= i < e ==> t[i] != '\n' && t[i] != '\0'
    ensures Selected(pattern, t) == (if Matches(Parse(pattern), t[..e]) then t[..e + 1] else "") + Selected(pattern,
            t[e + 1..])
  {
    LineEndOf(t, e);
  }

  // The body of the inner loop: the line buf[p..q] is matched and maybe printed.
  method OneLine(pattern: string, buf: array<char>, p: nat, q: nat, m: nat, ghost rest: string) returns (out: string)
    requires CString(pattern) && p <= q < m < buf.Length == BUFSIZE && buf[q] == '\n'
    requires forall i :: p <= i < q ==> buf[i] != '\n' && buf[i] != '\0'
    modifies buf
    ensures forall i :: q < i < buf.Length ==> buf[i] == old(buf[i])
    ensures Selected(pattern, old(buf[p..m]) + rest) == out + Selected(pattern, buf[q + 1..m] + rest)
  {
    hide Selected, Matches, Parse;
    ghost var t := buf[p..m] + rest;
    SelectLine(pattern, t, q - p);
    assert t[q - p + 1..] == buf[q + 1..m] + rest && t[..q - p] == buf[p..q] && t[..q - p + 1] == buf[p..q + 1];
    ghost var tail := buf[q + 1..m];
    out := "";
    buf[q] := '\0';
    assert buf[p..q] == t[..q - p];
    var b := Match(pattern, buf[p..q]);
    if b {
      buf[q] := '\n';
      out := buf[p..q + 1];
      assert out == t[..q - p + 1];
    }
    assert buf[q + 1..m] == tail;
  }

  // The inner loop: every complete line in the buffer is matched and maybe printed.
  method Lines(pattern: string, buf: array<char>, m: nat, ghost rest: string) returns (p: nat, out: string)
    requires CString(pattern) && m < buf.Length == BUFSIZE && buf[m] == '\0'
    modifies buf
    ensures p <= m
    ensures Selected(pattern, old(buf[..m]) + rest) == out + Selected(pattern, buf[p..m] + rest)
    ensures LineEnd(buf[p..m]) == m - p || buf[p..m][LineEnd(buf[p..m])] == '\0'
  {
    hide Selected;
    p, out := 0, "";
    ghost var s := buf[..m] + rest;
    assert buf[0..m] == buf[..m];
    var q := StrChr(buf, p, m);
    while q < m
      invariant p <= q <= m && buf[m] == '\0'
      invariant q < m ==> buf[q] == '\n' && q - p == LineEnd(buf[p..m])
      invariant q == m ==> LineEnd(buf[p..m]) == m - p || buf[p..m][LineEnd(buf[p..m])] == '\0'
      invariant Selected(pattern, s) == out + Selected(pattern, buf[p..m] + rest)
      decreases m - p
    {
      assert forall i :: p <= i < q ==> buf[i] == buf[p..m][i - p];
      var more := OneLine(pattern, buf, p, q, m, rest);
      out := out + more;
      p := q + 1;
      q := StrChr(buf, p, m);
    }
  }

  /** grep: whatever sizes the reads return, the output is the selected lines. The k-th
      read asks for as much as fits, and returns want(k) bytes of it if there are that many. */
  method Grep(pattern: string, input: string, want: nat -> nat) returns (out: string)
    requires CString(pattern)
    ensures out == Selected(pattern, input)
  {
    hide Selected, NoLine;
    var buf := new char[BUFSIZE](_ => '\0');
    NoLineInNothing();
    out := "";
    var m: nat, pos: nat, k: nat := 0, 0, 0;
    assert buf[..0] + input[0..] == input;
    while pos < |input| && m < BUFSIZE - 1
      invariant m < BUFSIZE && pos <= |input|
      invariant NoLine(buf[..m])
      invariant Selected(pattern, input) == out + Selected(pattern, buf[..m] + input[pos..])
      decreases |input| - pos
    {
      var n := Clamp(want(k), BUFSIZE - m - 1, |input| - pos);
      var more;
      m, more := Round(pattern, buf, m, n, input, pos);
      out := out + more;
      pos, k := pos + n, k + 1;
    }
    NothingMore(pattern, buf[..m], input[pos..]);
  }

  lemma NoLineInNothing()
    ensures NoLine("")
  {
  }

  function Clamp(want: nat, room: nat, left: nat): (n: nat)
    requires room > 0 && left > 0
    ensures 0 < n <= room && n <= left
  {
    var n := if want == 0 then 1 else want;
    if n > room then (if room > left then left else room) else if n > left then left else n
  }

  // One round of the outer loop, on a read that returned n bytes.
  method Round(pattern: string, buf: array<char>, m: nat, n: nat, input: string, pos: nat) returns (m': nat,
               out: string)
    requires CString(pattern) && buf.Length == BUFSIZE && m + n < BUFSIZE && pos + n <= |input|
    modifies buf
    ensures m' < BUFSIZE && NoLine(buf[..m'])
    ensures Selected(pattern, old(buf[..m]) + input[pos..]) == out + Selected(pattern, buf[..m'] + input[pos + n..])
  {
    hide Selected;
    ghost var pending := buf[..m];
    Read(buf, m, n, input, pos);
    m' := m + n;
    assert buf[..m'] == pending + input[pos..pos + n];
    buf[m'] := '\0';
    assert buf[..m'] + input[pos + n..] == pending + input[pos..];
    var p;
    p, out := Lines(pattern, buf, m', input[pos + n..]);
    ghost var kept := buf[p..m'];
    m' := m' - p;
    MoveDown(buf, p, m');
    assert buf[..m'] == kept;
  }

  /** Every newline-terminated line of s is free of NULs and fits the buffer. */
  predicate AllFit(s: string) {
    '\n' in s ==> HasLine(s) && AllFit(s[LineEnd(s) + 1..])
  }

  /** All matching newline-terminated lines, whatever their length. */
  ghost function AllMatching(pattern: string, s: string): (out: string) {
    if '\n' !in s then ""
    else
      var q := FirstNewline(s);
      (if Matches(Parse(pattern), s[..q]) then s[..q + 1] else "") + AllMatching(pattern, s[q + 1..])
  }

  function FirstNewline(s: string): (q: nat)
    requires '\n' in s
    ensures q < |s| && s[q] == '\n' && forall i :: 0 <= i < q ==> s[i] != '\n'
  {
    if s[0] == '\n' then 0 else 1 + FirstNewline(s[1..])
  }

  /** What grep never looks at: the input from the first line on that it cannot see. */
  function Hidden(s: string): (r: string) {
    if HasLine(s) then Hidden(s[LineEnd(s) + 1..]) else s
  }

  /** The first line of s, when it matches. */
  ghost function FirstMatch(pattern: string, s: string): (r: string)
    requires HasLine(s)
  {
    if Matches(Parse(pattern), s[..LineEnd(s)]) then s[..LineEnd(s) + 1] else ""
  }

  lemma MatchingStep(pattern: string, s: string)
    requires HasLine(s)
    ensures AllMatching(pattern, s) == FirstMatch(pattern, s) + AllMatching(pattern, s[LineEnd(s) + 1..])
    ensures Selected(pattern, s) == FirstMatch(pattern, s) + Selected(pattern, s[LineEnd(s) + 1..])
  {
    hide Matches, Parse;
    assert FirstNewline(s) == LineEnd(s);
  }

  lemma Regroup(a: string, b: string, c: string)
    ensures (a + b) + c == a + (b + c)
    ensures a == a + c <==> c == ""
  {
  }

  lemma NothingShown(pattern: string, s: string)
    requires !HasLine(s)
    ensures Selected(pattern, s) == "" && Hidden(s) == s
  {
  }

  /** grep prints the matching lines of all but the hidden part. */
  lemma {:induction false} HiddenLost(pattern: string, s: string)
    ensures AllMatching(pattern, s) == Selected(pattern, s) + AllMatching(pattern, Hidden(s))
    ensures Selected(pattern, s) == AllMatching(pattern, s) <==> AllMatching(pattern, Hidden(s)) == ""
  {
    hide AllMatching, Selected, FirstMatch;
    var rest := AllMatching(pattern, Hidden(s));
    if HasLine(s) {
      MatchingStep(pattern, s);
      HiddenLost(pattern, s[LineEnd(s) + 1..]);
      Regroup(FirstMatch(pattern, s), Selected(pattern, s[LineEnd(s) + 1..]), rest);
    } else {
      NothingShown(pattern, s);
    }
    Regroup(Selected(pattern, s), "", rest);
  }

  lemma {:induction false} FitsShown(s: string)
    ensures AllFit(s) <==> '\n' !in Hidden(s)
  {
    if HasLine(s) {
      FitsShown(s[LineEnd(s) + 1..]);
    }
  }

  lemma EmptyPatternMatches(text: string)
    ensures Matches(Parse(""), text)
  {
    assert InLanguage(Parse("").items, text[0..0]);
  }

  /** grep prints exactly the matching lines, whatever the pattern, if and only if every
      line fits. */
  lemma AllFitExactly(s: string)
    ensures AllFit(s) <==> forall pattern :: CString(pattern) ==> Selected(pattern, s) == AllMatching(pattern, s)
  {
    FitsShown(s);
    forall pattern: string
      ensures AllFit(s) ==> Selected(pattern, s) == AllMatching(pattern, s)
    {
      HiddenLost(pattern, s);
    }
    if !AllFit(s) {
      HiddenLost("", s);
      EmptyPatternMatches(Hidden(s)[..FirstNewline(Hidden(s))]);
      assert CString("") && Selected("", s) != AllMatching("", s);
    }
  }

  lemma Unseen(w: string)
    requires '\n' !in w && (|w| >= BUFSIZE - 1 || '\0' in w)
    ensures !HasLine(w + "\n")
  {
    var s := w + "\n";
    assert s[|w|] == '\n' && forall i :: 0 <= i < |w| ==> s[i] == w[i];
    if '\0' in w {
      var k :| 0 <= k < |w| && w[k] == '\0';
      assert s[k] == '\0';
    }
  }

  lemma OneMatching(w: string)
    requires '\n' !in w
    ensures AllMatching("", w + "\n") == w + "\n"
  {
    hide Matches, Parse;
    var s := w + "\n";
    assert s[|w|] == '\n' && forall i :: 0 <= i < |w| ==> s[i] == w[i];
    assert FirstNewline(s) == |w| && s[..|w| + 1] == s && s[|w| + 1..] == "";
    EmptyPatternMatches(s[..|w|]);
  }

  /** A line of 1023 bytes or more is lost, and so is one with a NUL in it. */
  lemma LineLost(w: string)
    requires '\n' !in w && (|w| >= BUFSIZE - 1 || '\0' in w)
    ensures Selected("", w + "\n") == "" && AllMatching("", w + "\n") == w + "\n"
  {
    Unseen(w);
    OneMatching(w);
    NothingShown("", w + "\n");
  }
}
