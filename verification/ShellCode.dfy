/** The parsing code of user/sh.c with its loops and its in-place edits, proved
    against the functions of module Shell. */
module ShellCode {
  import opened Shell
  import opened ShellRoundTrip

  // The whitespace loops of gettoken and peek.
  method SkipSpace(s: string, i: nat) returns (j: nat)
    requires i <= |s|
    ensures j == Skip(s, i)
  {
    j := i;
    while j < |s| && IsSpace(s[j])
      invariant i <= j <= |s| && Skip(s, j) == Skip(s, i)
    {
      j := j + 1;
    }
  }

  method GetToken(s: string, i: nat) returns (t: Token)
    requires i <= |s|
    ensures t == TokenAt(s, i)
  {
    var q := SkipSpace(s, i);
    var e, kind := q, '\0';
    if q < |s| {
      if s[q] == '>' {
        e, kind := q + 1, '>';
        if e < |s| && s[e] == '>' {
          e, kind := e + 1, '+';
        }
      } else if IsSymbol(s[q]) {
        e, kind := q + 1, s[q];
      } else {
        kind := 'a';
        while e < |s| && !IsSpace(s[e]) && !IsSymbol(s[e])
          invariant q <= e <= |s| && WordEnd(s, e) == WordEnd(s, q)
        {
          e := e + 1;
        }
      }
    }
    var next := SkipSpace(s, e);
    t := Token(kind, q, e, next);
  }

  method Peek(s: string, i: nat, toks: string) returns (b: bool, j: nat)
    requires i <= |s|
    ensures j == Skip(s, i) && (b <==> Sees(s, i, toks))
  {
    j := SkipSpace(s, i);
    b := j < |s| && s[j] in toks;
  }

  lemma SkipTwice(s: string, i: nat)
    requires i <= |s|
    ensures Skip(s, Skip(s, i)) == Skip(s, i) && TokenAt(s, Skip(s, i)) == TokenAt(s, i)
  {
  }

  lemma SeesTwice(s: string, i: nat, toks: string)
    requires i <= |s|
    ensures Sees(s, Skip(s, i), toks) == Sees(s, i, toks)
  {
    SkipTwice(s, i);
  }

  ghost function Prefixed(done: seq<(Span, Mode)>, r: Result<seq<(Span, Mode)>>): (x: Result<seq<(Span, Mode)>>) {
    match r case Ok(rs, j) => Ok(done + rs, j) case Err(e) => Err(e)
  }

  lemma RedirsSkip(s: string, i: nat)
    requires i <= |s|
    ensures ParseRedirs(s, Skip(s, i)) == ParseRedirs(s, i)
  {
    SkipTwice(s, i);
  }

  lemma RedirsUnfold(s: string, i: nat, done: seq<(Span, Mode)>)
    requires i <= |s| && Sees(s, i, "<>") && TokenAt(s, TokenAt(s, i).next).kind == 'a'
    ensures var tok := TokenAt(s, i);
            var word := TokenAt(s, tok.next);
            var m := if tok.kind == '<' then Read else if tok.kind == '>' then Truncate else Append;
            Prefixed(done, ParseRedirs(s, i)) == Prefixed(done + [(Span(word.q, word.eq), m)],
              ParseRedirs(s, word.next))
  {
    hide TokenAt, Sees, Skip;
    var tok := TokenAt(s, i);
    var word := TokenAt(s, tok.next);
    var x := (Span(word.q, word.eq), if tok.kind == '<' then Read else if tok.kind == '>' then Truncate else Append);
    match ParseRedirs(s, word.next)
    case Ok(rs, _) => assert done + ([x] + rs) == (done + [x]) + rs;
    case Err(_) =>
  }

  lemma RedirsEnd(s: string, i: nat, done: seq<(Span, Mode)>)
    requires i <= |s|
    ensures !Sees(s, i, "<>") ==> Prefixed(done, ParseRedirs(s, i)) == Ok(done, Skip(s, i))
    ensures Sees(s, i, "<>") && TokenAt(s, TokenAt(s, i).next).kind != 'a' ==> ParseRedirs(s, i) == Err(MissingFile)
    ensures Prefixed([], ParseRedirs(s, i)) == ParseRedirs(s, i)
    ensures Sees(s, i, "<>") ==> i < TokenAt(s, i).next
  {
    assert done + [] == done;
    match ParseRedirs(s, i)
    case Ok(rs, _) => assert [] + rs == rs;
    case Err(_) =>
  }

  /** The loop of parseredirs. */
  method ReadRedirs(s: string, i: nat) returns (r: Result<seq<(Span, Mode)>>)
    requires i <= |s|
    ensures r == ParseRedirs(s, i)
  {
    hide TokenAt, Skip, Sees, ParseRedirs;
    var done: seq<(Span, Mode)> := [];
    RedirsEnd(s, i, []);
    RedirsSkip(s, i);
    SeesTwice(s, i, "<>");
    SkipTwice(s, i);
    var more, pos := Peek(s, i, "<>");
    while more
      invariant pos <= |s| && more == Sees(s, pos, "<>") && Skip(s, pos) == pos
      invariant ParseRedirs(s, i) == Prefixed(done, ParseRedirs(s, pos))
      decreases |s| - pos
    {
      var tok := GetToken(s, pos);
      var word := GetToken(s, tok.next);
      RedirsEnd(s, pos, done);
      if word.kind != 'a' {
        return Err(MissingFile);
      }
      var mode := if tok.kind == '<' then Read else if tok.kind == '>' then Truncate else Append;
      RedirsUnfold(s, pos, done);
      done := done + [(Span(word.q, word.eq), mode)];
      RedirsSkip(s, word.next);
      SeesTwice(s, word.next, "<>");
      SkipTwice(s, word.next);
      more, pos := Peek(s, word.next, "<>");
    }
    RedirsEnd(s, pos, done);
    return Ok(done, pos);
  }

  lemma ArgsSkip(s: string, args: seq<Span>, rs: seq<(Span, Mode)>, i: nat)
    requires i <= |s|
    ensures ParseArgs(s, args, rs, Skip(s, i)) == ParseArgs(s, args, rs, i)
  {
    SkipTwice(s, i);
    SeesTwice(s, i, "|)&;");
  }

  /** parseexec: the argument loop appends to argv, between the redirections. */
  method ParseExecLoop(s: string, i: nat) returns (r: Result<Cmd<Span>>)
    requires i <= |s| && !Sees(s, i, "(")
    ensures r == ParseExec(s, i)
    decreases |s| - i, 1
  {
    hide TokenAt, Skip, ParseRedirs;
    var argv: seq<Span> := [];
    var ret := ReadRedirs(s, i);
    if ret.Err? {
      return Err(ret.error);
    }
    var rs, pos := ret.value, ret.pos;
    var stop;
    ArgsSkip(s, argv, rs, pos);
    SeesTwice(s, pos, "|)&;");
    SkipTwice(s, pos);
    stop, pos := Peek(s, pos, "|)&;");
    while !stop
      invariant pos <= |s| && stop == Sees(s, pos, "|)&;") && Skip(s, pos) == pos
      invariant ParseExec(s, i) == ParseArgs(s, argv, rs, pos)
      decreases |s| - pos
    {
      var tok := GetToken(s, pos);
      if tok.kind == '\0' {
        return Ok(Wrap(Exec(argv), rs), tok.next);
      }
      if tok.kind != 'a' {
        return Err(Syntax);
      }
      if |argv| + 1 >= MAXARGS {
        return Err(TooManyArgs);
      }
      ret := ReadRedirs(s, tok.next);
      if ret.Err? {
        return Err(ret.error);
      }
      argv, rs := argv + [Span(tok.q, tok.eq)], rs + ret.value;
      ArgsSkip(s, argv, rs, ret.pos);
      SeesTwice(s, ret.pos, "|)&;");
      SkipTwice(s, ret.pos);
      WordMoves(s, pos);
      stop, pos := Peek(s, ret.pos, "|)&;");
    }
    return Ok(Wrap(Exec(argv), rs), pos);
  }

  lemma WordMoves(s: string, i: nat)
    requires i <= |s| && TokenAt(s, i).kind == 'a'
    ensures i < TokenAt(s, i).next && forall j :: TokenAt(s, i).next <= j <= |s| ==> i < j <= Skip(s, j)
  {
  }

  lemma TokenMoves(s: string, i: nat)
    requires i <= |s| && Skip(s, i) < |s|
    ensures i < TokenAt(s, i).next <= |s|
  {
  }

  lemma BacksSkip(s: string, c: Cmd<Span>, i: nat)
    requires i <= |s|
    ensures ParseBacks(s, c, Skip(s, i)) == ParseBacks(s, c, i)
  {
    SkipTwice(s, i);
    SeesTwice(s, i, "&");
  }

  /** parseline. */
  method ParseLineCode(s: string, i: nat) returns (r: Result<Cmd<Span>>)
    requires i <= |s|
    ensures r == ParseLine(s, i)
    decreases |s| - i, 3
  {
    hide TokenAt, Skip, ParsePipe, ParseExec, ParseBlock;
    r := ParsePipeCode(s, i);
    if r.Err? {
      return;
    }
    var cmd, pos := r.value, r.pos;
    var more;
    ghost var backs := ParseBacks(s, cmd, pos);
    BacksSkip(s, cmd, pos);
    SeesTwice(s, pos, "&");
    SkipTwice(s, pos);
    more, pos := Peek(s, pos, "&");
    while more
      invariant i <= pos <= |s| && more == Sees(s, pos, "&") && Skip(s, pos) == pos
      invariant backs == ParseBacks(s, cmd, pos)
      decreases |s| - pos
    {
      TokenMoves(s, pos);
      var tok := GetToken(s, pos);
      cmd := Back(cmd);
      BacksSkip(s, cmd, tok.next);
      SeesTwice(s, tok.next, "&");
      SkipTwice(s, tok.next);
      more, pos := Peek(s, tok.next, "&");
    }
    more, pos := Peek(s, pos, ";");
    if more {
      TokenMoves(s, pos);
      var tok := GetToken(s, pos);
      r := ParseLineCode(s, tok.next);
      if r.Ok? {
        r := Ok(List(cmd, r.value), r.pos);
      }
    } else {
      r := Ok(cmd, pos);
    }
  }

  /** parsepipe. */
  method ParsePipeCode(s: string, i: nat) returns (r: Result<Cmd<Span>>)
    requires i <= |s|
    ensures r == ParsePipe(s, i)
    decreases |s| - i, 2
  {
    hide TokenAt, ParseExec, ParseLine, ParseBlock;
    r := ParseExecCode(s, i);
    if r.Err? {
      return;
    }
    var cmd := r.value;
    SkipTwice(s, r.pos);
    var more, pos := Peek(s, r.pos, "|");
    if more {
      TokenMoves(s, pos);
      var tok := GetToken(s, pos);
      r := ParsePipeCode(s, tok.next);
      if r.Ok? {
        r := Ok(Pipe(cmd, r.value), r.pos);
      }
    } else {
      r := Ok(cmd, pos);
    }
  }

  /** parseexec. */
  method ParseExecCode(s: string, i: nat) returns (r: Result<Cmd<Span>>)
    requires i <= |s|
    ensures r == ParseExec(s, i)
    decreases |s| - i, 1
  {
    var block, pos := Peek(s, i, "(");
    if block {
      r := ParseBlockCode(s, pos);
    } else {
      r := ParseExecLoop(s, i);
    }
  }

  /** parseblock. */
  method ParseBlockCode(s: string, i: nat) returns (r: Result<Cmd<Span>>)
    requires i < |s| && s[i] == '('
    ensures r == ParseBlock(s, i)
    decreases |s| - i, 0
  {
    hide TokenAt, ParseExec, ParseLine, ParsePipe, ParseRedirs;
    TokenMoves(s, i);
    var tok := GetToken(s, i);
    r := ParseLineCode(s, tok.next);
    if r.Err? {
      return;
    }
    var cmd := r.value;
    SkipTwice(s, r.pos);
    var close, pos := Peek(s, r.pos, ")");
    if !close {
      return Err(MissingParen);
    }
    tok := GetToken(s, pos);
    var rs := ReadRedirs(s, tok.next);
    r := if rs.Ok? then Ok(Wrap(cmd, rs.value), rs.pos) else Err(rs.error);
  }

  /** parsecmd, before nulterminate. */
  method ParseCmdCode(s: string) returns (r: Result<Cmd<Span>>)
    ensures r == ParseCmd(s)
  {
    r := ParseLineCode(s, 0);
    if r.Ok? {
      var b, pos := Peek(s, r.pos, "");
      r := if pos == |s| then Ok(r.value, |s|) else Err(Leftovers);
    }
  }
}
