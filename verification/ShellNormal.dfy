/** Which command trees the parser of user/sh.c yields: exactly those that can be printed. */
module ShellNormal {
  import opened Shell
  import opened ShellRoundTrip
  import opened ShellWords

  /** No command has too many arguments. */
  predicate Few(c: Cmd<Span>) {
    match c
    case Exec(argv) => |argv| < MAXARGS
    case Redir(d, f, m) => Few(d)
    case Pipe(l, r) => Few(l) && Few(r)
    case List(l, r) => Few(l) && Few(r)
    case Back(d) => Few(d)
  }

  lemma {:induction false} WrapFew(c: Cmd<Span>, rs: seq<(Span, Mode)>)
    requires Few(c)
    ensures Few(Wrap(c, rs))
  {
    if rs != [] {
      WrapFew(c, rs[..|rs| - 1]);
    }
  }

  lemma {:induction false} ArgsFew(s: string, args: seq<Span>, rs: seq<(Span, Mode)>, i: nat)
    requires i <= |s| && ParseArgs(s, args, rs, i).Ok? && |args| < MAXARGS
    ensures Few(ParseArgs(s, args, rs, i).value)
    decreases |s| - i
  {
    hide ParseRedirs, Skip, Wrap;
    var tok := TokenAt(s, i);
    if Sees(s, i, "|)&;") || tok.kind == '\0' {
      WrapFew(Exec(args), rs);
    } else {
      var more := ParseRedirs(s, tok.next);
      ArgsFew(s, args + [Span(tok.q, tok.eq)], rs + more.value, more.pos);
    }
  }

  lemma {:induction false} ExecFew(s: string, i: nat)
    requires i <= |s| && ParseExec(s, i).Ok?
    ensures Few(ParseExec(s, i).value)
    decreases |s| - i, 1
  {
    if Sees(s, i, "(") {
      var o := Skip(s, i);
      var line := ParseLine(s, TokenAt(s, o).next);
      LineFew(s, TokenAt(s, o).next);
      WrapFew(line.value, ParseRedirs(s, TokenAt(s, line.pos).next).value);
    } else {
      ArgsFew(s, [], ParseRedirs(s, i).value, ParseRedirs(s, i).pos);
    }
  }

  lemma {:induction false} PipeFew(s: string, i: nat)
    requires i <= |s| && ParsePipe(s, i).Ok?
    ensures Few(ParsePipe(s, i).value)
    decreases |s| - i, 2
  {
    ExecFew(s, i);
    var j := ParseExec(s, i).pos;
    if Sees(s, j, "|") {
      PipeFew(s, TokenAt(s, j).next);
    }
  }

  lemma {:induction false} BacksFew(s: string, c: Cmd<Span>, i: nat)
    requires i <= |s| && Few(c)
    ensures Few(ParseBacks(s, c, i).value)
    decreases |s| - i
  {
    if Sees(s, i, "&") {
      BacksFew(s, Back(c), TokenAt(s, i).next);
    }
  }

  lemma {:induction false} LineFew(s: string, i: nat)
    requires i <= |s| && ParseLine(s, i).Ok?
    ensures Few(ParseLine(s, i).value)
    decreases |s| - i, 3
  {
    PipeFew(s, i);
    var c := ParsePipe(s, i);
    BacksFew(s, c.value, c.pos);
    var b := ParseBacks(s, c.value, c.pos);
    if Sees(s, b.pos, ";") {
      LineFew(s, TokenAt(s, b.pos).next);
    }
  }

  /** All words of the tree are words of the line. */
  ghost predicate AllWords(s: string, xs: seq<Span>) {
    forall a :: 0 <= a < |xs| ==> WordSpan(s, xs[a])
  }

  lemma AllWordsOf(s: string, xs: seq<Span>, ys: seq<Span>)
    requires AllWords(s, xs + ys)
    ensures AllWords(s, xs) && AllWords(s, ys)
  {
    assert forall a :: 0 <= a < |xs| ==> (xs + ys)[a] == xs[a];
    assert forall a :: 0 <= a < |ys| ==> (xs + ys)[|xs| + a] == ys[a];
  }

  lemma ProperWord(s: string, x: Span)
    requires WordSpan(s, x)
    ensures IsWord(Word(s, x))
  {
  }

  lemma ProperWords(s: string, xs: seq<Span>)
    requires AllWords(s, xs)
    ensures forall a :: 0 <= a < |xs| ==> IsWord(Word(s, xs[a]))
  {
    hide IsWord, Word, WordSpan;
    forall a | 0 <= a < |xs|
      ensures IsWord(Word(s, xs[a]))
    {
      ProperWord(s, xs[a]);
    }
  }

  lemma {:induction false} WordsPrintable(s: string, c: Cmd<Span>)
    requires Few(c) && AllWords(s, Spans(c))
    ensures Printable(Words(s, c))
    decreases c
  {
    hide AllWords, IsWord, Word;
    match c
    case Exec(argv) =>
      ProperWords(s, argv);
    case Redir(d, f, m) =>
      AllWordsOf(s, Spans(d), [f]);
      ProperWords(s, [f]);
      assert IsWord(Word(s, [f][0]));
      WordsPrintable(s, d);
    case Pipe(l, r) =>
      AllWordsOf(s, Spans(l), Spans(r));
      WordsPrintable(s, l);
      WordsPrintable(s, r);
    case List(l, r) =>
      AllWordsOf(s, Spans(l), Spans(r));
      WordsPrintable(s, l);
      WordsPrintable(s, r);
    case Back(d) =>
      WordsPrintable(s, d);
  }

  /** What the parser accepts can be printed, and parses back to the same tree. */
  lemma NormalForm(s: string)
    requires ParseCmd(s).Ok?
    ensures var t := Words(s, ParseCmd(s).value);
            Printable(t) && ParseCmd(Print(t)).Ok? && Words(Print(t), ParseCmd(Print(t)).value) == t
  {
    hide ParseLine, Words, Spans, Few, Print, Printable;
    LineTidy(s, 0);
    LineFew(s, 0);
    WordsPrintable(s, ParseCmd(s).value);
    RoundTrip(Words(s, ParseCmd(s).value));
  }

  /** A tree is what some line parses to if and only if its words are proper and no command has
      too many arguments. */
  lemma ParsedExactly(t: Cmd<string>)
    ensures (exists s :: ParseCmd(s).Ok? && Words(s, ParseCmd(s).value) == t) <==> Printable(t)
  {
    hide ParseCmd, Words, Print, Printable;
    if Printable(t) {
      RoundTrip(t);
    }
    forall s | ParseCmd(s).Ok? && Words(s, ParseCmd(s).value) == t
      ensures Printable(t)
    {
      NormalForm(s);
    }
  }
}
