/** Printing command trees, and the round trip through the parser of user/sh.c. */
module ShellRoundTrip {
  import opened Shell

  predicate IsWord(w: string) {
    w != "" && forall k :: 0 <= k < |w| ==> IsWordChar(w[k])
  }

  /** The trees that can be written down: proper words, and not too many arguments. */
  predicate Printable(t: Cmd<string>) {
    match t
    case Exec(argv) => |argv| < MAXARGS && forall k :: 0 <= k < |argv| ==> IsWord(argv[k])
    case Redir(c, f, m) => Printable(c) && IsWord(f)
    case Pipe(l, r) => Printable(l) && Printable(r)
    case List(l, r) => Printable(l) && Printable(r)
    case Back(c) => Printable(c)
  }

  function Join(ws: seq<string>): (r: string) {
    if ws == [] then "" else if |ws| == 1 then ws[0] else ws[0] + " " + Join(ws[1..])
  }

  function ModeText(m: Mode): (r: string) {
    match m case Read => "<" case Truncate => ">" case Append => ">>"
  }

  function Block(t: Cmd<string>): (r: string)
    decreases t, 1
  {
    "(" + Print(t) + ")"
  }

  /** Fully parenthesised text of a tree. */
  function Print(t: Cmd<string>): (r: string)
    decreases t, 0
  {
    match t
    case Exec(argv) => Join(argv)
    case Redir(c, f, m) => Block(c) + ModeText(m) + f
    case Pipe(l, r) => Block(l) + "|" + Block(r)
    case List(l, r) => Block(l) + ";" + Block(r)
    case Back(c) => Block(c) + "&"
  }

  ghost function Word(s: string, x: Span): (w: string) {
    if x.q <= x.eq <= |s| then s[x.q..x.eq] else ""
  }

  /** The tree of strings that a tree of spans stands for. */
  ghost function Words(s: string, c: Cmd<Span>): (t: Cmd<string>) {
    match c
    case Exec(argv) => Exec(seq(|argv|, k requires 0 <= k < |argv| => Word(s, argv[k])))
    case Redir(d, f, m) => Redir(Words(s, d), Word(s, f), m)
    case Pipe(l, r) => Pipe(Words(s, l), Words(s, r))
    case List(l, r) => List(Words(s, l), Words(s, r))
    case Back(d) => Back(Words(s, d))
  }

  /** The line s has text p at position i. */
  ghost predicate Has(s: string, i: nat, p: string) {
    i + |p| <= |s| && s[i..i + |p|] == p
  }

  lemma HasParts(s: string, i: nat, p: string, q: string)
    requires Has(s, i, p + q)
    ensures Has(s, i, p) && Has(s, i + |p|, q)
  {
    assert s[i..i + |p|] == (p + q)[..|p|];
    assert s[i + |p|..i + |p| + |q|] == (p + q)[|p|..];
  }

  lemma HasChar(s: string, i: nat, c: char)
    requires Has(s, i, [c])
    ensures i < |s| && s[i] == c
  {
    assert s[i] == s[i..i + 1][0];
  }

  /** Behind a printed command there is a closing parenthesis, or nothing. */
  ghost predicate Closed(s: string, j: nat) {
    j <= |s| && (j < |s| ==> s[j] == ')')
  }

  lemma NoSkip(s: string, i: nat)
    requires i <= |s| && (i < |s| ==> !IsSpace(s[i]))
    ensures Skip(s, i) == i
  {
  }

  lemma WordToken(s: string, i: nat, w: string)
    requires IsWord(w) && Has(s, i, w) && (i + |w| < |s| ==> !IsWordChar(s[i + |w|]))
    ensures TokenAt(s, i) == Token('a', i, i + |w|, Skip(s, i + |w|)) && Word(s, Span(i, i + |w|)) == w
    ensures IsWordChar(s[i]) && Skip(s, i) == i
  {
    assert forall k :: i <= k < i + |w| ==> s[k] == w[k - i];
    assert s[i] == w[0];
    var e := WordEnd(s, i);
    assert e == i + |w|;
  }

  lemma NoRedirs(s: string, i: nat)
    requires i <= |s| && (i < |s| ==> !IsSpace(s[i]) && s[i] != '<' && s[i] != '>')
    ensures ParseRedirs(s, i) == Ok([], i)
  {
    NoSkip(s, i);
  }

  /** At a character that is not whitespace, peek looks at that character. */
  lemma SeesHere(s: string, i: nat, toks: string)
    requires i <= |s| && (i < |s| ==> !IsSpace(s[i]))
    ensures Sees(s, i, toks) <==> i < |s| && s[i] in toks
  {
    NoSkip(s, i);
  }

  lemma SymbolToken(s: string, i: nat)
    requires i < |s| && IsSymbol(s[i]) && s[i] != '>' && (i + 1 < |s| ==> !IsSpace(s[i + 1]))
    ensures TokenAt(s, i) == Token(s[i], i, i + 1, i + 1)
  {
    NoSkip(s, i);
    NoSkip(s, i + 1);
  }

  // One unfolding of each parsing function.

  lemma RedirsMore(s: string, i: nat, rs: seq<(Span, Mode)>, j: nat)
    requires i <= |s| && Sees(s, i, "<>") && TokenAt(s, TokenAt(s, i).next).kind == 'a'
    requires ParseRedirs(s, TokenAt(s, TokenAt(s, i).next).next) == Ok(rs, j)
    ensures var tok := TokenAt(s, i);
            var word := TokenAt(s, tok.next);
            var m := if tok.kind == '<' then Read else if tok.kind == '>' then Truncate else Append;
            ParseRedirs(s, i) == Ok([(Span(word.q, word.eq), m)] + rs, j)
  {
    hide TokenAt, Skip, Sees;
  }

  lemma BlockStep(s: string, i: nat, c: Cmd<Span>, j: nat, rs: seq<(Span, Mode)>, k: nat)
    requires i <= |s| && Sees(s, i, "(") && Skip(s, i) == i && ParseLine(s, TokenAt(s, i).next) == Ok(c, j)
    requires Sees(s, j, ")") && ParseRedirs(s, TokenAt(s, j).next) == Ok(rs, k)
    ensures ParseExec(s, i) == Ok(Wrap(c, rs), k)
  {
    assert i < |s| && s[i] == '(';
    hide TokenAt, Skip, Sees, ParseLine, ParseRedirs, Wrap;
  }

  lemma PipeDone(s: string, i: nat, c: Cmd<Span>, j: nat)
    requires i <= |s| && ParseExec(s, i) == Ok(c, j) && !Sees(s, j, "|") && Skip(s, j) == j
    ensures ParsePipe(s, i) == Ok(c, j)
  {
    hide TokenAt, Skip, Sees, ParseExec;
  }

  lemma PipeMore(s: string, i: nat, c: Cmd<Span>, j: nat, d: Cmd<Span>, k: nat)
    requires i <= |s| && ParseExec(s, i) == Ok(c, j) && Sees(s, j, "|") && ParsePipe(s, TokenAt(s, j).next) == Ok(d, k)
    ensures ParsePipe(s, i) == Ok(Pipe(c, d), k)
  {
    hide TokenAt, Skip, Sees, ParseExec;
  }

  lemma LineDone(s: string, i: nat, c: Cmd<Span>, j: nat)
    requires i <= |s| && ParsePipe(s, i) == Ok(c, j) && !Sees(s, j, "&") && !Sees(s, j, ";") && Skip(s, j) == j
    ensures ParseLine(s, i) == Ok(c, j)
  {
    assert ParseBacks(s, c, j) == Ok(c, j);
    hide TokenAt, Skip, Sees, ParsePipe;
  }

  lemma LineBacks(s: string, i: nat, c: Cmd<Span>, j: nat, k: nat)
    requires i <= |s| && ParsePipe(s, i) == Ok(c, j) && Sees(s, j, "&") && TokenAt(s, j).next == k
    requires !Sees(s, k, "&") && !Sees(s, k, ";") && Skip(s, k) == k
    ensures ParseLine(s, i) == Ok(Back(c), k)
  {
    hide TokenAt, Skip, Sees, ParsePipe;
    assert ParseBacks(s, Back(c), k) == Ok(Back(c), k);
    assert ParseBacks(s, c, j) == Ok(Back(c), k);
  }

  lemma LineMore(s: string, i: nat, c: Cmd<Span>, j: nat, d: Cmd<Span>, k: nat)
    requires i <= |s| && ParsePipe(s, i) == Ok(c, j) && !Sees(s, j, "&") && Sees(s, j, ";") && Skip(s, j) == j
    requires ParseLine(s, TokenAt(s, j).next) == Ok(d, k)
    ensures ParseLine(s, i) == Ok(List(c, d), k)
  {
    hide TokenAt, Skip, Sees, ParsePipe;
    assert ParseBacks(s, c, j) == Ok(c, j);
  }

  // Words and arguments.

  ghost predicate SpansAre(s: string, spans: seq<Span>, ws: seq<string>) {
    |spans| == |ws| && forall k :: 0 <= k < |ws| ==> Word(s, spans[k]) == ws[k]
  }

  lemma ArgsEnd(s: string, acc: seq<Span>, i: nat)
    requires Closed(s, i)
    ensures ParseArgs(s, acc, [], i) == Ok(Exec(acc), i)
  {
    NoSkip(s, i);
    SeesHere(s, i, "|)&;");
  }

  lemma FirstChar(s: string, i: nat, ws: seq<string>)
    requires ws != [] && Has(s, i, Join(ws)) && IsWord(ws[0])
    ensures i < |s| && IsWordChar(s[i])
  {
    assert Join(ws)[0] == ws[0][0];
    assert s[i] == s[i..i + |Join(ws)|][0];
  }

  // Where the word behind ws[0] starts.
  lemma ArgStep(s: string, ws: seq<string>, i: nat) returns (n: nat)
    requires ws != [] && Has(s, i, Join(ws)) && Closed(s, i + |Join(ws)|) && forall k :: 0 <= k < |ws| ==> IsWord(ws[k])
    ensures Has(s, i, ws[0]) && (i + |ws[0]| < |s| ==> !IsWordChar(s[i + |ws[0]|]))
    ensures n == Skip(s, i + |ws[0]|) && Has(s, n, Join(ws[1..])) && n + |Join(ws[1..])| == i + |Join(ws)|
    ensures n < |s| ==> !IsSpace(s[n]) && s[n] != '<' && s[n] != '>'
  {
    var w, rest := ws[0], ws[1..];
    if |ws| == 1 {
      n := i + |w|;
      NoSkip(s, n);
    } else {
      assert Join(ws) == w + (" " + Join(rest));
      HasParts(s, i, w, " " + Join(rest));
      HasParts(s, i + |w|, " ", Join(rest));
      HasChar(s, i + |w|, ' ');
      n := i + |w| + 1;
      FirstChar(s, n, rest);
      NoSkip(s, n);
    }
  }

  lemma OneArg(s: string, acc: seq<Span>, i: nat, w: string, n: nat)
    requires IsWord(w) && Has(s, i, w) && (i + |w| < |s| ==> !IsWordChar(s[i + |w|])) && n == Skip(s, i + |w|)
    requires |acc| + 1 < MAXARGS && (n < |s| ==> !IsSpace(s[n]) && s[n] != '<' && s[n] != '>')
    ensures ParseArgs(s, acc, [], i) == ParseArgs(s, acc + [Span(i, i + |w|)], [], n)
    ensures Word(s, Span(i, i + |w|)) == w
  {
    WordToken(s, i, w);
    SeesHere(s, i, "|)&;");
    NoRedirs(s, n);
  }

  /** The argument loop reads back the words that Join wrote. */
  lemma {:induction false} ArgsBack(s: string, acc: seq<Span>, done: seq<string>, ws: seq<string>, i: nat)
    requires Has(s, i, Join(ws)) && Closed(s, i + |Join(ws)|) && SpansAre(s, acc, done)
    requires |acc| + |ws| < MAXARGS && forall k :: 0 <= k < |ws| ==> IsWord(ws[k])
    ensures var r := ParseArgs(s, acc, [], i);
            r.Ok? && r.pos == i + |Join(ws)| && r.value.Exec? && SpansAre(s, r.value.argv, done + ws)
    decreases |ws|
  {
    hide IsWord, Has, Closed, ParseArgs, Skip, Word;
    if ws == [] {
      ArgsEnd(s, acc, i);
      assert done + ws == done && Join(ws) == "";
    } else {
      var w, rest := ws[0], ws[1..];
      var n := ArgStep(s, ws, i);
      var acc' := acc + [Span(i, i + |w|)];
      OneArg(s, acc, i, w, n);
      ArgsBack(s, acc', done + [w], rest, n);
      assert done + [w] + rest == done + ws;
    }
  }

  lemma ExecBack(s: string, i: nat, argv: seq<string>)
    requires Printable(Exec(argv)) && Has(s, i, Join(argv)) && Closed(s, i + |Join(argv)|)
    ensures ExecIs(s, i, Exec(argv), i + |Join(argv)|)
  {
    hide ParseArgs, ParseRedirs, Sees, Has, Join, TokenAt, Skip, Word;
    if argv != [] {
      FirstChar(s, i, argv);
    } else {
      assert Join(argv) == "" by { JoinNone(); }
    }
    SeesHere(s, i, "(");
    NoRedirs(s, i);
    ArgsBack(s, [], [], argv, i);
    assert [] + argv == argv;
  }

  lemma JoinNone()
    ensures Join([]) == ""
  {
  }

  /** A printed tree starts with a word character or a parenthesis, or is empty. */
  lemma PrintStarts(t: Cmd<string>)
    requires Printable(t)
    ensures Print(t) != "" ==> !IsSpace(Print(t)[0])
  {
    match t
    case Exec(argv) => if argv != [] { assert Join(argv)[0] == argv[0][0]; }
    case _ =>
  }

  // Parses that give back a tree.

  ghost predicate LineIs(s: string, i: nat, t: Cmd<string>, j: nat) {
    i <= |s| && ParseLine(s, i).Ok? && ParseLine(s, i).pos == j && Words(s, ParseLine(s, i).value) == t
  }

  ghost predicate PipeIs(s: string, i: nat, t: Cmd<string>, j: nat) {
    i <= |s| && ParsePipe(s, i).Ok? && ParsePipe(s, i).pos == j && Words(s, ParsePipe(s, i).value) == t
  }

  ghost predicate ExecIs(s: string, i: nat, t: Cmd<string>, j: nat) {
    i <= |s| && ParseExec(s, i).Ok? && ParseExec(s, i).pos == j && Words(s, ParseExec(s, i).value) == t
  }

  lemma BlockEdges(s: string, i: nat, t: Cmd<string>)
    requires Printable(t) && Has(s, i, Block(t))
    ensures var j := i + |Block(t)|; i + 1 < j <= |s| && s[i] == '(' && s[j - 1] == ')' && !IsSpace(s[i + 1])
    ensures Has(s, i + 1, Print(t)) && i + 1 + |Print(t)| == i + |Block(t)| - 1
  {
    HasParts(s, i, "(" + Print(t), ")");
    HasParts(s, i, "(", Print(t));
    HasChar(s, i, '(');
    HasChar(s, i + |Block(t)| - 1, ')');
    PrintStarts(t);
    if Print(t) != "" { assert s[i + 1] == s[i + 1..i + 1 + |Print(t)|][0]; }
  }

  /** A block whose inside parses back, followed by the redirections rs. */
  lemma BlockBack(s: string, i: nat, t: Cmd<string>, j: nat, rs: seq<(Span, Mode)>, k: nat)
    requires Printable(t) && Has(s, i, Block(t)) && j == i + |Block(t)| && LineIs(s, i + 1, t, j - 1)
    requires (j < |s| ==> !IsSpace(s[j])) && ParseRedirs(s, j) == Ok(rs, k)
    ensures ParseExec(s, i) == Ok(Wrap(ParseLine(s, i + 1).value, rs), k)
  {
    hide ParseLine, ParseExec, ParseRedirs, Wrap, Words, TokenAt, Skip, Sees, Print, Block, Has;
    BlockEdges(s, i, t);
    SeesHere(s, i, "(");
    NoSkip(s, i);
    SymbolToken(s, i);
    SeesHere(s, j - 1, ")");
    SymbolToken(s, j - 1);
    BlockStep(s, i, ParseLine(s, i + 1).value, j - 1, rs, k);
  }

  /** A bare block, followed by something that is not a redirection. */
  lemma PlainBlock(s: string, i: nat, t: Cmd<string>, j: nat)
    requires Printable(t) && Has(s, i, Block(t)) && j == i + |Block(t)| && LineIs(s, i + 1, t, j - 1)
    requires j < |s| ==> s[j] in ")|&;"
    ensures ExecIs(s, i, t, j)
  {
    NoRedirs(s, j);
    hide ParseLine, ParseExec, ParseRedirs, Has;
    BlockBack(s, i, t, j, [], j);
  }

  /** What parsepipe and parseline add when the line ends there. */
  lemma PipeEnds(s: string, i: nat, t: Cmd<string>, j: nat)
    requires ExecIs(s, i, t, j) && Closed(s, j)
    ensures PipeIs(s, i, t, j)
  {
    hide ParseExec, ParsePipe, Words;
    SeesHere(s, j, "|");
    NoSkip(s, j);
    PipeDone(s, i, ParseExec(s, i).value, j);
  }

  lemma LineEnds(s: string, i: nat, t: Cmd<string>, j: nat)
    requires PipeIs(s, i, t, j) && Closed(s, j)
    ensures LineIs(s, i, t, j)
  {
    hide ParseLine, ParsePipe, Words;
    SeesHere(s, j, "&");
    SeesHere(s, j, ";");
    NoSkip(s, j);
    LineDone(s, i, ParsePipe(s, i).value, j);
  }

  lemma ModeHere(s: string, j: nat, m: Mode, f: string)
    requires Has(s, j, ModeText(m) + f) && IsWord(f) && Closed(s, j + |ModeText(m)| + |f|)
    ensures var q := j + |ModeText(m)|;
            && j < |s| && !IsSpace(s[j]) && s[j] in "<>" && Has(s, q, f) && q < |s|
            && TokenAt(s, j).next == q &&
               TokenAt(s, j).kind == (match m case Read => '<' case Truncate => '>' case Append => '+')
  {
    var q := j + |ModeText(m)|;
    HasParts(s, j, ModeText(m), f);
    assert s[j] == s[j..q][0];
    assert s[q] == s[q..q + |f|][0] && IsWordChar(s[q]);
    if m == Append { assert s[j + 1] == s[j..q][1]; }
    NoSkip(s, j);
    NoSkip(s, q);
  }

  lemma ModeBack(s: string, j: nat, m: Mode, f: string)
    requires Has(s, j, ModeText(m) + f) && IsWord(f) && Closed(s, j + |ModeText(m)| + |f|)
    ensures var q := j + |ModeText(m)|;
            && j < |s| && !IsSpace(s[j])
            && ParseRedirs(s, j) == Ok([(Span(q, q + |f|), m)], q + |f|)
            && Word(s, Span(q, q + |f|)) == f
  {
    hide TokenAt, Skip, Sees, Has, ParseRedirs, Word;
    var q := j + |ModeText(m)|;
    ModeHere(s, j, m, f);
    WordToken(s, q, f);
    NoSkip(s, q + |f|);
    NoRedirs(s, q + |f|);
    SeesHere(s, j, "<>");
    RedirsMore(s, j, [], q + |f|);
    assert [(Span(q, q + |f|), m)] + [] == [(Span(q, q + |f|), m)];
  }

  lemma RedirJoins(s: string, i: nat, c: Cmd<string>, k: nat, f: string, m: Mode)
    requires Printable(c) && Has(s, i, Block(c)) && k == i + |Block(c)| && LineIs(s, i + 1, c, k - 1)
    requires Has(s, k, ModeText(m) + f) && IsWord(f) && Closed(s, k + |ModeText(m)| + |f|)
    ensures ExecIs(s, i, Redir(c, f, m), k + |ModeText(m)| + |f|)
  {
    hide ParseLine, ParseExec, ParseRedirs, Skip, IsSpace, IsSymbol, Has, Closed;
    ModeBack(s, k, m, f);
    var q := k + |ModeText(m)|;
    BlockBack(s, i, c, k, [(Span(q, q + |f|), m)], q + |f|);
    var d := ParseLine(s, i + 1).value;
    assert Wrap(d, []) == d && [(Span(q, q + |f|), m)][..0] == [];
  }

  lemma PipeJoins(s: string, i: nat, l: Cmd<string>, k: nat, r: Cmd<string>, j: nat)
    requires ExecIs(s, i, l, k) && k + 1 < |s| && s[k] == '|' && s[k + 1] == '(' && PipeIs(s, k + 1, r, j)
    ensures PipeIs(s, i, Pipe(l, r), j)
  {
    hide ParseExec, ParsePipe;
    SeesHere(s, k, "|");
    SymbolToken(s, k);
    PipeMore(s, i, ParseExec(s, i).value, k, ParsePipe(s, k + 1).value, j);
  }

  lemma ListJoins(s: string, i: nat, l: Cmd<string>, k: nat, r: Cmd<string>, j: nat)
    requires ExecIs(s, i, l, k) && k + 1 < |s| && s[k] == ';' && s[k + 1] == '(' && LineIs(s, k + 1, r, j)
    ensures LineIs(s, i, List(l, r), j)
  {
    hide ParseExec, ParsePipe, ParseLine;
    SeesHere(s, k, "|");
    SeesHere(s, k, "&");
    SeesHere(s, k, ";");
    NoSkip(s, k);
    SymbolToken(s, k);
    PipeDone(s, i, ParseExec(s, i).value, k);
    LineMore(s, i, ParsePipe(s, i).value, k, ParseLine(s, k + 1).value, j);
  }

  lemma BackJoins(s: string, i: nat, c: Cmd<string>, k: nat)
    requires ExecIs(s, i, c, k) && k < |s| && s[k] == '&' && Closed(s, k + 1)
    ensures LineIs(s, i, Back(c), k + 1)
  {
    hide ParseExec, ParsePipe, ParseLine;
    SeesHere(s, k, "|");
    SeesHere(s, k, "&");
    NoSkip(s, k);
    SymbolToken(s, k);
    SeesHere(s, k + 1, "&");
    SeesHere(s, k + 1, ";");
    NoSkip(s, k + 1);
    PipeDone(s, i, ParseExec(s, i).value, k);
    LineBacks(s, i, ParsePipe(s, i).value, k, k + 1);
  }

  /** Two blocks around a separator. */
  lemma TwoBlocks(s: string, i: nat, l: Cmd<string>, sep: char, r: Cmd<string>)
    requires Printable(r) && Has(s, i, Block(l) + [sep] + Block(r))
    ensures var k := i + |Block(l)|;
            Has(s, i, Block(l)) && k + 1 < |s| && s[k] == sep && s[k + 1] == '(' && Has(s, k + 1, Block(r))
  {
    hide Has, Block, Printable;
    HasParts(s, i, Block(l) + [sep], Block(r));
    HasParts(s, i, Block(l), [sep]);
    HasChar(s, i + |Block(l)|, sep);
    BlockEdges(s, i + |Block(l)| + 1, r);
  }

  lemma PipeBack(s: string, i: nat, l: Cmd<string>, r: Cmd<string>)
    requires Printable(l) && Printable(r) && Has(s, i, Block(l) + "|" + Block(r))
    requires Closed(s, i + |Block(l) + "|" + Block(r)|)
    requires var k := i + |Block(l)|; LineIs(s, i + 1, l, k - 1) && LineIs(s, k + 2, r, k + |Block(r)|)
    ensures LineIs(s, i, Pipe(l, r), i + |Block(l) + "|" + Block(r)|)
  {
    hide Has, LineIs, ExecIs, PipeIs, Printable, Block;
    var k, j := i + |Block(l)|, i + |Block(l) + "|" + Block(r)|;
    TwoBlocks(s, i, l, '|', r);
    PlainBlock(s, i, l, k);
    PlainBlock(s, k + 1, r, j);
    PipeEnds(s, k + 1, r, j);
    PipeJoins(s, i, l, k, r, j);
    LineEnds(s, i, Pipe(l, r), j);
  }

  lemma ListBack(s: string, i: nat, l: Cmd<string>, r: Cmd<string>)
    requires Printable(l) && Printable(r) && Has(s, i, Block(l) + ";" + Block(r))
    requires Closed(s, i + |Block(l) + ";" + Block(r)|)
    requires var k := i + |Block(l)|; LineIs(s, i + 1, l, k - 1) && LineIs(s, k + 2, r, k + |Block(r)|)
    ensures LineIs(s, i, List(l, r), i + |Block(l) + ";" + Block(r)|)
  {
    hide Has, LineIs, ExecIs, PipeIs, Printable, Block;
    var k, j := i + |Block(l)|, i + |Block(l) + ";" + Block(r)|;
    TwoBlocks(s, i, l, ';', r);
    PlainBlock(s, i, l, k);
    PlainBlock(s, k + 1, r, j);
    PipeEnds(s, k + 1, r, j);
    LineEnds(s, k + 1, r, j);
    ListJoins(s, i, l, k, r, j);
  }

  /** Printed text parses back to the tree it was printed from, at any place in a line
      where a closing parenthesis or the end follows. */
  lemma {:induction false} PrintedLine(s: string, i: nat, t: Cmd<string>)
    requires Printable(t) && Has(s, i, Print(t)) && Closed(s, i + |Print(t)|)
    ensures LineIs(s, i, t, i + |Print(t)|)
    decreases t, 0
  {
    hide Has, LineIs, ExecIs, PipeIs, IsWord, Block, Join, ModeText;
    var j := i + |Print(t)|;
    match t
    case Exec(argv) =>
      ExecBack(s, i, argv);
      PipeEnds(s, i, t, j);
      LineEnds(s, i, t, j);
    case Redir(c, f, m) =>
      assert Print(t) == Block(c) + (ModeText(m) + f);
      HasParts(s, i, Block(c), ModeText(m) + f);
      PrintedInside(s, i, c);
      RedirJoins(s, i, c, i + |Block(c)|, f, m);
      PipeEnds(s, i, t, j);
      LineEnds(s, i, t, j);
    case Pipe(l, r) =>
      TwoBlocks(s, i, l, '|', r);
      PrintedInside(s, i, l);
      PrintedInside(s, i + |Block(l)| + 1, r);
      PipeBack(s, i, l, r);
    case List(l, r) =>
      TwoBlocks(s, i, l, ';', r);
      PrintedInside(s, i, l);
      PrintedInside(s, i + |Block(l)| + 1, r);
      ListBack(s, i, l, r);
    case Back(c) =>
      HasParts(s, i, Block(c), "&");
      HasChar(s, i + |Block(c)|, '&');
      PrintedInside(s, i, c);
      PlainBlock(s, i, c, i + |Block(c)|);
      BackJoins(s, i, c, i + |Block(c)|);
  }

  lemma PrintedInside(s: string, i: nat, t: Cmd<string>)
    requires Printable(t) && Has(s, i, Block(t))
    ensures LineIs(s, i + 1, t, i + |Block(t)| - 1)
    decreases t, 1
  {
    BlockEdges(s, i, t);
    PrintedLine(s, i + 1, t);
  }

  /** Parsing a printed tree yields the tree. */
  lemma RoundTrip(t: Cmd<string>)
    requires Printable(t)
    ensures var r := ParseCmd(Print(t)); r.Ok? && Words(Print(t), r.value) == t
  {
    var s := Print(t);
    assert s[0..0 + |s|] == s;
    PrintedLine(s, 0, t);
    NoSkip(s, |s|);
  }
}
