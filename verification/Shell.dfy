/** The command parser of user/sh.c. A line is a C string s of length |s|; its
    terminating NUL is at position |s|. Positions stand for pointers into it. */
module Shell {

  const MAXARGS: nat := 10

  predicate IsSpace(c: char) {
    c in [' ', '\t', '\r', '\n', 11 as char]
  }

  predicate IsSymbol(c: char) {
    c in ['<', '|', '>', '&', ';', '(', ')']
  }

  predicate IsWordChar(c: char) {
    !IsSpace(c) && !IsSymbol(c)
  }

  /** A word of the line: positions q .. eq - 1. */
  datatype Span = Span(q: nat, eq: nat)

  datatype Mode = Read | Truncate | Append

  /** Command trees, over words W: spans of the line when parsed, strings when printed. */
  datatype Cmd<+W> =
    | Exec(argv: seq<W>)
    | Redir(cmd: Cmd<W>, file: W, mode: Mode)
    | Pipe(left: Cmd<W>, right: Cmd<W>)
    | List(left: Cmd<W>, right: Cmd<W>)
    | Back(cmd: Cmd<W>)

  datatype Error = MissingFile | Syntax | MissingParen | TooManyArgs | Leftovers

  /** A parsed value and the position behind it, or a panic. */
  datatype Result<+T> = Ok(value: T, pos: nat) | Err(error: Error)

  // Lexing.

  function Skip(s: string, i: nat): (j: nat)
    requires i <= |s|
    ensures i <= j <= |s| && (j < |s| ==> !IsSpace(s[j])) && forall k :: i <= k < j ==> IsSpace(s[k])
    decreases |s| - i
  {
    if i < |s| && IsSpace(s[i]) then Skip(s, i + 1) else i
  }

  function WordEnd(s: string, i: nat): (j: nat)
    requires i <= |s|
    ensures i <= j <= |s| && (j < |s| ==> !IsWordChar(s[j])) && forall k :: i <= k < j ==> IsWordChar(s[k])
    decreases |s| - i
  {
    if i < |s| && IsWordChar(s[i]) then WordEnd(s, i + 1) else i
  }

  /** peek: the next character behind whitespace is one of toks. */
  predicate Sees(s: string, i: nat, toks: string)
    requires i <= |s|
  {
    Skip(s, i) < |s| && s[Skip(s, i)] in toks
  }

  /** A token: its kind as gettoken returns it, its extent, and where the next one starts. */
  datatype Token = Token(kind: char, q: nat, eq: nat, next: nat)

  function TokenAt(s: string, i: nat): (t: Token)
    requires i <= |s|
    ensures i <= t.q <= t.eq <= t.next <= |s|
    ensures Skip(s, i) < |s| ==> t.q < t.eq
    ensures t.kind == 'a' && Skip(s, i) < |s| && IsWordChar(s[t.q]) ==> forall k :: t.q <= k < t.eq ==> IsWordChar(s[k])
  {
    var q := Skip(s, i);
    if q == |s| then Token('\0', q, q, q)
    else if s[q] == '>' then
      if q + 1 < |s| && s[q + 1] == '>' then Token('+', q, q + 2, Skip(s, q + 2))
      else Token('>', q, q + 1, Skip(s, q + 1))
    else if IsSymbol(s[q]) then Token(s[q], q, q + 1, Skip(s, q + 1))
    else Token('a', q, WordEnd(s, q), Skip(s, WordEnd(s, q)))
  }

  // Parsing.

  function Wrap(c: Cmd<Span>, rs: seq<(Span, Mode)>): (r: Cmd<Span>) {
    if rs == [] then c else Redir(Wrap(c, rs[..|rs| - 1]), rs[|rs| - 1].0, rs[|rs| - 1].1)
  }

  /** parseredirs: the redirections that follow, in order. */
  function ParseRedirs(s: string, i: nat): (r: Result<seq<(Span, Mode)>>)
    requires i <= |s|
    ensures r.Ok? ==> i <= r.pos <= |s|
    decreases |s| - i
  {
    if !Sees(s, i, "<>") then Ok([], Skip(s, i))
    else
      var tok := TokenAt(s, i);
      var word := TokenAt(s, tok.next);
      if word.kind != 'a' then Err(MissingFile)
      else
        var mode := if tok.kind == '<' then Read else if tok.kind == '>' then Truncate else Append;
        match ParseRedirs(s, word.next)
        case Ok(rs, j) => Ok([(Span(word.q, word.eq), mode)] + rs, j)
        case Err(e) => Err(e)
  }

  /** The argument loop of parseexec, with the arguments and redirections so far. */
  function ParseArgs(s: string, args: seq<Span>, rs: seq<(Span, Mode)>, i: nat): (r: Result<Cmd<Span>>)
    requires i <= |s|
    ensures r.Ok? ==> i <= r.pos <= |s|
    decreases |s| - i
  {
    if Sees(s, i, "|)&;") then Ok(Wrap(Exec(args), rs), Skip(s, i))
    else
      var tok := TokenAt(s, i);
      if tok.kind == '\0' then Ok(Wrap(Exec(args), rs), tok.next)
      else if tok.kind != 'a' then Err(Syntax)
      else if |args| + 1 >= MAXARGS then Err(TooManyArgs)
      else
        match ParseRedirs(s, tok.next)
        case Ok(more, j) => ParseArgs(s, args + [Span(tok.q, tok.eq)], rs + more, j)
        case Err(e) => Err(e)
  }

  function ParseExec(s: string, i: nat): (r: Result<Cmd<Span>>)
    requires i <= |s|
    ensures r.Ok? ==> i <= r.pos <= |s|
    decreases |s| - i, 1
  {
    if Sees(s, i, "(") then ParseBlock(s, Skip(s, i))
    else
      match ParseRedirs(s, i)
      case Ok(rs, j) => ParseArgs(s, [], rs, j)
      case Err(e) => Err(e)
  }

  /** parseblock, at an opening parenthesis. */
  function ParseBlock(s: string, i: nat): (r: Result<Cmd<Span>>)
    requires i < |s| && s[i] == '('
    ensures r.Ok? ==> i <= r.pos <= |s|
    decreases |s| - i, 0
  {
    match ParseLine(s, TokenAt(s, i).next)
    case Ok(c, j) =>
      if !Sees(s, j, ")") then Err(MissingParen)
      else
        (match ParseRedirs(s, TokenAt(s, j).next)
         case Ok(rs, k) => Ok(Wrap(c, rs), k)
         case Err(e) => Err(e))
    case Err(e) => Err(e)
  }

  function ParsePipe(s: string, i: nat): (r: Result<Cmd<Span>>)
    requires i <= |s|
    ensures r.Ok? ==> i <= r.pos <= |s|
    decreases |s| - i, 2
  {
    match ParseExec(s, i)
    case Ok(c, j) =>
      if !Sees(s, j, "|") then Ok(c, Skip(s, j))
      else
        (match ParsePipe(s, TokenAt(s, j).next)
         case Ok(d, k) => Ok(Pipe(c, d), k)
         case Err(e) => Err(e))
    case Err(e) => Err(e)
  }

  /** The '&' loop of parseline. */
  function ParseBacks(s: string, c: Cmd<Span>, i: nat): (r: Result<Cmd<Span>>)
    requires i <= |s|
    ensures r.Ok? && i <= r.pos <= |s|
    decreases |s| - i
  {
    if Sees(s, i, "&") then ParseBacks(s, Back(c), TokenAt(s, i).next) else Ok(c, Skip(s, i))
  }

  function ParseLine(s: string, i: nat): (r: Result<Cmd<Span>>)
    requires i <= |s|
    ensures r.Ok? ==> i <= r.pos <= |s|
    decreases |s| - i, 3
  {
    match ParsePipe(s, i)
    case Ok(c, j) =>
      var b := ParseBacks(s, c, j);
      if !Sees(s, b.pos, ";") then Ok(b.value, Skip(s, b.pos))
      else
        (match ParseLine(s, TokenAt(s, b.pos).next)
         case Ok(d, k) => Ok(List(b.value, d), k)
         case Err(e) => Err(e))
    case Err(e) => Err(e)
  }

  /** parsecmd, before nulterminate. */
  function ParseCmd(s: string): (r: Result<Cmd<Span>>) {
    match ParseLine(s, 0)
    case Ok(c, j) => if Skip(s, j) == |s| then Ok(c, |s|) else Err(Leftovers)
    case Err(e) => Err(e)
  }
}
