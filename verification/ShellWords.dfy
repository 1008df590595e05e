/** Where the words of a parsed line are, and nulterminate of user/sh.c, which ends
    them with NULs in place. */
module ShellWords {
  import opened Shell
  import opened ShellRoundTrip
  import ShellCode

  /** x is a run of word characters that ends where the run ends. */
  ghost predicate WordSpan(s: string, x: Span) {
    && x.q < x.eq <= |s|
    && (forall k :: x.q <= k < x.eq ==> IsWordChar(s[k]))
    && (x.eq < |s| ==> !IsWordChar(s[x.eq]))
  }

  /** All the words of a tree: arguments and file names. */
  ghost function Spans(c: Cmd<Span>): (xs: seq<Span>) {
    match c
    case Exec(argv) => argv
    case Redir(d, f, m) => Spans(d) + [f]
    case Pipe(l, r) => Spans(l) + Spans(r)
    case List(l, r) => Spans(l) + Spans(r)
    case Back(d) => Spans(d)
  }

  /** Words of s between lo and hi, no two of which overlap. */
  ghost predicate Tidy(s: string, xs: seq<Span>, lo: nat, hi: nat) {
    && (forall a :: 0 <= a < |xs| ==> WordSpan(s, xs[a]) && lo <= xs[a].q && xs[a].eq <= hi)
    && (forall a, b :: 0 <= a < b < |xs| ==> xs[a].eq <= xs[b].q || xs[b].eq <= xs[a].q)
  }

  lemma TidyJoin(s: string, xs: seq<Span>, lo: nat, mid: nat, ys: seq<Span>, mid': nat, hi: nat)
    requires Tidy(s, xs, lo, mid) && Tidy(s, ys, mid', hi) && lo <= mid <= mid' <= hi
    ensures Tidy(s, xs + ys, lo, hi)
  {
  }

  lemma TidyInsert(s: string, xs: seq<Span>, ys: seq<Span>, x: Span, lo: nat, mid: nat, hi: nat)
    requires Tidy(s, xs + ys, lo, mid) && WordSpan(s, x) && lo <= mid <= x.q && x.eq <= hi
    ensures Tidy(s, xs + [x] + ys, lo, hi)
  {
    var zs := xs + [x] + ys;
    forall a | 0 <= a < |zs| && a != |xs| ensures zs[a] == (xs + ys)[if a < |xs| then a else a - 1] {
    }
    forall a, b | 0 <= a < b < |zs| ensures zs[a].eq <= zs[b].q || zs[b].eq <= zs[a].q {
      if a != |xs| && b != |xs| {
        var a', b' := if a < |xs| then a else a - 1, if b < |xs| then b else b - 1;
        assert (xs + ys)[a'] == zs[a] && (xs + ys)[b'] == zs[b];
      }
    }
  }

  lemma TidyWiden(s: string, xs: seq<Span>, lo: nat, hi: nat, lo': nat, hi': nat)
    requires Tidy(s, xs, lo, hi) && lo' <= lo && hi <= hi'
    ensures Tidy(s, xs, lo', hi')
  {
  }

  lemma TokenSpan(s: string, i: nat)
    requires i <= |s| && TokenAt(s, i).kind == 'a'
    ensures var t := TokenAt(s, i); WordSpan(s, Span(t.q, t.eq)) && i <= t.q && t.eq <= t.next
  {
  }

  function Files(rs: seq<(Span, Mode)>): (xs: seq<Span>)
    ensures |xs| == |rs| && forall k :: 0 <= k < |rs| ==> xs[k] == rs[k].0
  {
    seq(|rs|, k requires 0 <= k < |rs| => rs[k].0)
  }

  lemma {:induction false} WrapSpans(c: Cmd<Span>, rs: seq<(Span, Mode)>)
    ensures Spans(Wrap(c, rs)) == Spans(c) + Files(rs)
  {
    if rs == [] {
      assert Spans(c) + Files(rs) == Spans(c);
    } else {
      var init, last := rs[..|rs| - 1], rs[|rs| - 1];
      WrapSpans(c, init);
      assert Files(rs) == Files(init) + [last.0];
    }
  }

  lemma {:induction false} RedirsTidy(s: string, i: nat)
    requires i <= |s| && ParseRedirs(s, i).Ok?
    ensures Tidy(s, Files(ParseRedirs(s, i).value), i, ParseRedirs(s, i).pos)
    decreases |s| - i
  {
    if Sees(s, i, "<>") {
      var tok := TokenAt(s, i);
      var word := TokenAt(s, tok.next);
      var x, rest := Span(word.q, word.eq), ParseRedirs(s, word.next);
      TokenSpan(s, tok.next);
      RedirsTidy(s, word.next);
      TidyJoin(s, [x], i, word.next, Files(rest.value), word.next, rest.pos);
      assert Files(ParseRedirs(s, i).value) == [x] + Files(rest.value);
    }
  }

  lemma {:induction false} ArgsTidy(s: string, args: seq<Span>, rs: seq<(Span, Mode)>, lo: nat, i: nat)
    requires lo <= i <= |s| && ParseArgs(s, args, rs, i).Ok? && Tidy(s, args + Files(rs), lo, i)
    ensures Tidy(s, Spans(ParseArgs(s, args, rs, i).value), lo, ParseArgs(s, args, rs, i).pos)
    decreases |s| - i
  {
    hide Skip, TokenAt, Sees, ParseRedirs, Tidy, Wrap;
    var tok := TokenAt(s, i);
    if Sees(s, i, "|)&;") || tok.kind == '\0' {
      WrapSpans(Exec(args), rs);
      TidyWiden(s, args + Files(rs), lo, i, lo, ParseArgs(s, args, rs, i).pos);
    } else {
      var x, more := Span(tok.q, tok.eq), ParseRedirs(s, tok.next);
      TokenSpan(s, i);
      TidyInsert(s, args, Files(rs), x, lo, i, tok.next);
      RedirsTidy(s, tok.next);
      TidyJoin(s, args + [x] + Files(rs), lo, tok.next, Files(more.value), tok.next, more.pos);
      assert args + [x] + Files(rs) + Files(more.value) == (args + [x]) + Files(rs + more.value);
      ArgsTidy(s, args + [x], rs + more.value, lo, more.pos);
    }
  }

  /** The words of a parsed command are words of the line, and no two overlap. */
  lemma {:induction false} ExecTidy(s: string, i: nat)
    requires i <= |s| && ParseExec(s, i).Ok?
    ensures Tidy(s, Spans(ParseExec(s, i).value), i, ParseExec(s, i).pos)
    decreases |s| - i, 1
  {
    if Sees(s, i, "(") {
      var o := Skip(s, i);
      var line := ParseLine(s, TokenAt(s, o).next);
      LineTidy(s, TokenAt(s, o).next);
      var close := TokenAt(s, line.pos);
      var rs := ParseRedirs(s, close.next);
      RedirsTidy(s, close.next);
      TidyWiden(s, Spans(line.value), TokenAt(s, o).next, line.pos, i, line.pos);
      TidyJoin(s, Spans(line.value), i, line.pos, Files(rs.value), close.next, rs.pos);
      WrapSpans(line.value, rs.value);
    } else {
      var rs := ParseRedirs(s, i);
      RedirsTidy(s, i);
      assert [] + Files(rs.value) == Files(rs.value);
      ArgsTidy(s, [], rs.value, i, rs.pos);
    }
  }

  lemma {:induction false} PipeTidy(s: string, i: nat)
    requires i <= |s| && ParsePipe(s, i).Ok?
    ensures Tidy(s, Spans(ParsePipe(s, i).value), i, ParsePipe(s, i).pos)
    decreases |s| - i, 2
  {
    hide ParseExec, Tidy;
    ExecTidy(s, i);
    var c := ParseExec(s, i);
    if Sees(s, c.pos, "|") {
      var n := TokenAt(s, c.pos).next;
      PipeTidy(s, n);
      TidyJoin(s, Spans(c.value), i, c.pos, Spans(ParsePipe(s, n).value), n, ParsePipe(s, n).pos);
    } else {
      TidyWiden(s, Spans(c.value), i, c.pos, i, ParsePipe(s, i).pos);
    }
  }

  lemma {:induction false} BacksTidy(s: string, c: Cmd<Span>, lo: nat, i: nat)
    requires lo <= i <= |s| && Tidy(s, Spans(c), lo, i)
    ensures Tidy(s, Spans(ParseBacks(s, c, i).value), lo, ParseBacks(s, c, i).pos)
    decreases |s| - i
  {
    if Sees(s, i, "&") {
      TidyWiden(s, Spans(c), lo, i, lo, TokenAt(s, i).next);
      BacksTidy(s, Back(c), lo, TokenAt(s, i).next);
    } else {
      TidyWiden(s, Spans(c), lo, i, lo, Skip(s, i));
    }
  }

  lemma {:induction false} LineTidy(s: string, i: nat)
    requires i <= |s| && ParseLine(s, i).Ok?
    ensures Tidy(s, Spans(ParseLine(s, i).value), i, ParseLine(s, i).pos)
    decreases |s| - i, 3
  {
    PipeTidy(s, i);
    var c := ParsePipe(s, i);
    BacksTidy(s, c.value, i, c.pos);
    var b := ParseBacks(s, c.value, c.pos);
    if Sees(s, b.pos, ";") {
      var n := TokenAt(s, b.pos).next;
      LineTidy(s, n);
      TidyJoin(s, Spans(b.value), i, b.pos, Spans(ParseLine(s, n).value), n, ParseLine(s, n).pos);
    } else {
      TidyWiden(s, Spans(b.value), i, b.pos, i, ParseLine(s, i).pos);
    }
  }

  // nulterminate.

  /** The positions at which some word ends. */
  ghost predicate EndsWord(xs: seq<Span>, p: nat) {
    exists a :: 0 <= a < |xs| && xs[a].eq == p
  }

  ghost predicate Terminated(before: seq<char>, after: seq<char>, xs: seq<Span>) {
    |after| == |before| && forall p :: 0 <= p < |before| ==> after[p] == if EndsWord(xs, p) then '\0' else before[p]
  }

  lemma TerminatedJoin(a: seq<char>, b: seq<char>, c: seq<char>, xs: seq<Span>, ys: seq<Span>)
    requires Terminated(a, b, xs) && Terminated(b, c, ys)
    ensures Terminated(a, c, xs + ys)
  {
    forall p | 0 <= p < |a| ensures EndsWord(xs + ys, p) <==> EndsWord(xs, p) || EndsWord(ys, p) {
      if i :| 0 <= i < |xs| && xs[i].eq == p { assert (xs + ys)[i].eq == p; }
      if i :| 0 <= i < |ys| && ys[i].eq == p { assert (xs + ys)[|xs| + i].eq == p; }
    }
  }

  // The write *eargv[i] = 0 or *efile = 0.
  method EndWord(buf: array<char>, x: Span)
    requires x.eq < buf.Length
    modifies buf
    ensures Terminated(old(buf[..]), buf[..], [x])
  {
    buf[x.eq] := '\0';
    assert EndsWord([x], x.eq) by { assert [x][0].eq == x.eq; }
  }

  ghost predicate InBuffer(xs: seq<Span>, n: nat) {
    forall a :: 0 <= a < |xs| ==> xs[a].eq < n
  }

  /** nulterminate: a NUL goes behind every word of the tree, and nothing else changes. */
  method NulTerminate(buf: array<char>, c: Cmd<Span>)
    requires InBuffer(Spans(c), buf.Length)
    modifies buf
    ensures Terminated(old(buf[..]), buf[..], Spans(c))
    decreases c
  {
    match c
    case Exec(argv) =>
      ghost var b0 := buf[..];
      var i := 0;
      while i < |argv|
        invariant 0 <= i <= |argv|
        invariant Terminated(b0, buf[..], argv[..i])
      {
        ghost var b1 := buf[..];
        EndWord(buf, argv[i]);
        TerminatedJoin(b0, b1, buf[..], argv[..i], [argv[i]]);
        assert argv[..i] + [argv[i]] == argv[..i + 1];
        i := i + 1;
      }
      assert argv[..i] == argv;
    case Redir(d, f, m) =>
      assert forall a :: 0 <= a < |Spans(d)| ==> Spans(c)[a] == Spans(d)[a];
      assert Spans(c)[|Spans(d)|] == f;
      NulTerminate(buf, d);
      ghost var b1 := buf[..];
      EndWord(buf, f);
      TerminatedJoin(old(buf[..]), b1, buf[..], Spans(d), [f]);
    case Pipe(l, r) =>
      TwoSides(l, r, buf.Length);
      NulTerminate(buf, l);
      ghost var b1 := buf[..];
      NulTerminate(buf, r);
      TerminatedJoin(old(buf[..]), b1, buf[..], Spans(l), Spans(r));
    case List(l, r) =>
      TwoSides(l, r, buf.Length);
      NulTerminate(buf, l);
      ghost var b1 := buf[..];
      NulTerminate(buf, r);
      TerminatedJoin(old(buf[..]), b1, buf[..], Spans(l), Spans(r));
    case Back(d) =>
      NulTerminate(buf, d);
  }

  lemma TwoSides(l: Cmd<Span>, r: Cmd<Span>, n: nat)
    requires InBuffer(Spans(l) + Spans(r), n)
    ensures InBuffer(Spans(l), n) && InBuffer(Spans(r), n)
  {
    var xs := Spans(l) + Spans(r);
    assert forall a :: 0 <= a < |Spans(l)| ==> xs[a] == Spans(l)[a];
    assert forall a :: 0 <= a < |Spans(r)| ==> xs[|Spans(l)| + a] == Spans(r)[a];
  }

  /** The C string that starts at position q of the buffer is w. */
  ghost predicate ReadsAs(buf: seq<char>, q: nat, w: string) {
    q + |w| < |buf| && buf[q..q + |w|] == w && buf[q + |w|] == '\0' && '\0' !in w
  }

  /** Writing the NULs makes every word read back as the text the lexer saw. */
  lemma WordsReadBack(s: string, before: seq<char>, after: seq<char>, xs: seq<Span>, lo: nat, hi: nat, a: nat)
    requires '\0' !in s && |s| < |before| && before[..|s|] == s
    requires Tidy(s, xs, lo, hi) && Terminated(before, after, xs) && a < |xs|
    ensures ReadsAs(after, xs[a].q, Word(s, xs[a]))
  {
    var x := xs[a];
    forall p | x.q <= p < x.eq ensures after[p] == s[p] {
      assert before[..|s|][p] == before[p];
      assert forall b :: 0 <= b < |xs| && WordSpan(s, xs[b]) && IsWordChar(s[p]) ==> xs[b].eq != p;
    }
    assert EndsWord(xs, x.eq);
  }

  /** The whole of parsecmd on a buffer that holds the line: after nulterminate every
      argument and file name reads back exactly as it stands in the line. */
  method ParseCommand(buf: array<char>, s: string) returns (r: Result<Cmd<Span>>)
    requires '\0' !in s && |s| < buf.Length && buf[..|s|] == s && buf[|s|] == '\0'
    modifies buf
    ensures r == ParseCmd(s)
    ensures r.Ok? ==> forall a :: 0 <= a < |Spans(r.value)| ==>
            ReadsAs(buf[..], Spans(r.value)[a].q, Word(s, Spans(r.value)[a]))
  {
    r := ShellCode.ParseCmdCode(s);
    if r.Ok? {
      ghost var line := ParseLine(s, 0);
      LineTidy(s, 0);
      ghost var before := buf[..];
      assert before[..|s|] == s;
      NulTerminate(buf, r.value);
      forall a | 0 <= a < |Spans(r.value)| ensures ReadsAs(buf[..], Spans(r.value)[a].q, Word(s, Spans(r.value)[a])) {
        WordsReadBack(s, before, buf[..], Spans(r.value), 0, line.pos, a);
      }
    }
  }
}
