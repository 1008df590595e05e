/** The language of the shell of user/sh.c: which sequences of tokens are commands, and what they
    mean, as a grammar of its own; the parser accepts exactly these. */
module ShellGrammar {
  import opened Common
  import opened Shell
  import opened ShellRoundTrip

  // Tokens.

  /** A word, or a symbol; '+' stands for ">>". */
  datatype Tok = Text(w: string) | Sym(c: char)

  ghost function TokOf(s: string, t: Token): (r: Tok)
    requires t.q <= t.eq <= |s|
  {
    if t.kind == 'a' then Text(s[t.q..t.eq]) else Sym(t.kind)
  }

  /** The tokens of s from i on. */
  ghost function Toks(s: string, i: nat): (r: seq<Tok>)
    requires i <= |s|
    decreases |s| - i
  {
    var t := TokenAt(s, i);
    if t.kind == '\0' || t.next <= i then [] else [TokOf(s, t)] + Toks(s, t.next)
  }

  predicate Starts(ts: seq<Tok>, cs: string) {
    ts != [] && ts[0].Sym? && ts[0].c in cs
  }

  lemma SkipFixed(s: string, i: nat)
    requires i <= |s|
    ensures Skip(s, Skip(s, i)) == Skip(s, i)
  {
  }

  /** White space is not seen. */
  lemma ToksSkip(s: string, i: nat)
    requires i <= |s|
    ensures Toks(s, Skip(s, i)) == Toks(s, i)
  {
    SkipFixed(s, i);
    assert TokenAt(s, Skip(s, i)) == TokenAt(s, i);
  }

  /** What TokenAt and peek see are the tokens. */
  lemma ToksAt(s: string, i: nat)
    requires i <= |s|
    ensures var t, ts := TokenAt(s, i), Toks(s, i);
            && (t.kind == '\0' <==> ts == []) && (t.kind == '\0' <==> Skip(s, i) == |s|)
            && (ts != [] ==> i < t.next && ts[0] == TokOf(s, t) && Toks(s, t.next) == ts[1..])
            && (ts != [] && t.kind != 'a' ==> ts[0].c == t.kind && t.kind in "<|>&;()+")
            && (t.kind == 'a' ==> ts != [] && IsWord(s[t.q..t.eq]))
  {
    var t := TokenAt(s, i);
    if t.kind == 'a' {
      WordToken(s, i);
    }
  }

  lemma WordToken(s: string, i: nat)
    requires i <= |s| && TokenAt(s, i).kind == 'a'
    ensures var t := TokenAt(s, i); t.q < t.eq && i < t.next && IsWord(s[t.q..t.eq])
  {
  }

  lemma SeesToks(s: string, i: nat)
    requires i <= |s|
    ensures Sees(s, i, "<>") <==> Starts(Toks(s, i), "<>+")
    ensures Sees(s, i, "|)&;") <==> Starts(Toks(s, i), "|)&;")
    ensures Sees(s, i, "(") <==> Starts(Toks(s, i), "(")
    ensures Sees(s, i, ")") <==> Starts(Toks(s, i), ")")
    ensures Sees(s, i, "|") <==> Starts(Toks(s, i), "|")
    ensures Sees(s, i, "&") <==> Starts(Toks(s, i), "&")
    ensures Sees(s, i, ";") <==> Starts(Toks(s, i), ";")
  {
    ToksAt(s, i);
  }

  // The grammar, as trees of what is written, with the tokens and the meaning of each.

  /** A redirection: the file name and the mode. */
  type Arrow = (string, Mode)

  /** An argument and the redirections behind it. */
  datatype Item = Item(w: string, rs: seq<Arrow>)

  /** Redirections and arguments in any order, or a command in parentheses. */
  datatype ExecS = Simple(pre: seq<Arrow>, items: seq<Item>) | Block(line: LineS, post: seq<Arrow>)

  datatype PipeS = Only(e: ExecS) | Into(e: ExecS, p: PipeS)

  /** A pipeline with some & behind it, alone or before a ; and another line. */
  datatype LineS = Last(p: PipeS, backs: nat) | Before(p: PipeS, backs: nat, l: LineS)

  function ModeSym(m: Mode): (c: char) {
    match m case Read => '<' case Truncate => '>' case Append => '+'
  }

  function ArrowToks(rs: seq<Arrow>): (ts: seq<Tok>) {
    if rs == [] then [] else [Sym(ModeSym(rs[0].1)), Text(rs[0].0)] + ArrowToks(rs[1..])
  }

  function ItemToks(xs: seq<Item>): (ts: seq<Tok>) {
    if xs == [] then [] else [Text(xs[0].w)] + ArrowToks(xs[0].rs) + ItemToks(xs[1..])
  }

  function ExecToks(e: ExecS): (ts: seq<Tok>)
    decreases e, 0
  {
    match e
    case Simple(pre, items) => ArrowToks(pre) + ItemToks(items)
    case Block(line, post) => [Sym('(')] + LineToks(line) + [Sym(')')] + ArrowToks(post)
  }

  function PipeToks(p: PipeS): (ts: seq<Tok>)
    decreases p, 0
  {
    match p
    case Only(e) => ExecToks(e)
    case Into(e, q) => ExecToks(e) + [Sym('|')] + PipeToks(q)
  }

  function BackToks(k: nat): (ts: seq<Tok>) {
    seq(k, _ => Sym('&'))
  }

  function LineToks(l: LineS): (ts: seq<Tok>)
    decreases l, 0
  {
    match l
    case Last(p, k) => PipeToks(p) + BackToks(k)
    case Before(p, k, m) => PipeToks(p) + BackToks(k) + [Sym(';')] + LineToks(m)
  }

  function Wrapped(c: Cmd<string>, rs: seq<Arrow>): (r: Cmd<string>) {
    if rs == [] then c else Redir(Wrapped(c, rs[..|rs| - 1]), rs[|rs| - 1].0, rs[|rs| - 1].1)
  }

  function ItemWords(xs: seq<Item>): (ws: seq<string>) {
    if xs == [] then [] else [xs[0].w] + ItemWords(xs[1..])
  }

  function ItemArrows(xs: seq<Item>): (rs: seq<Arrow>) {
    if xs == [] then [] else xs[0].rs + ItemArrows(xs[1..])
  }

  function Backs(c: Cmd<string>, k: nat): (r: Cmd<string>)
    decreases k
  {
    if k == 0 then c else Backs(Back(c), k - 1)
  }

  function ExecMeans(e: ExecS): (c: Cmd<string>)
    decreases e, 0
  {
    match e
    case Simple(pre, items) => Wrapped(Exec(ItemWords(items)), pre + ItemArrows(items))
    case Block(line, post) => Wrapped(LineMeans(line), post)
  }

  function PipeMeans(p: PipeS): (c: Cmd<string>)
    decreases p, 0
  {
    match p
    case Only(e) => ExecMeans(e)
    case Into(e, q) => Pipe(ExecMeans(e), PipeMeans(q))
  }

  function LineMeans(l: LineS): (c: Cmd<string>)
    decreases l, 0
  {
    match l
    case Last(p, k) => Backs(PipeMeans(p), k)
    case Before(p, k, m) => List(Backs(PipeMeans(p), k), LineMeans(m))
  }

  /** Words are words, and no command has too many arguments. */
  predicate ArrowsOk(rs: seq<Arrow>) {
    forall k :: 0 <= k < |rs| ==> IsWord(rs[k].0)
  }

  predicate ItemsOk(xs: seq<Item>) {
    forall k :: 0 <= k < |xs| ==> IsWord(xs[k].w) && ArrowsOk(xs[k].rs)
  }

  predicate ExecOk(e: ExecS)
    decreases e, 0
  {
    match e
    case Simple(pre, items) => ArrowsOk(pre) && ItemsOk(items) && |items| < MAXARGS
    case Block(line, post) => LineOk(line) && ArrowsOk(post)
  }

  predicate PipeOk(p: PipeS)
    decreases p, 0
  {
    match p
    case Only(e) => ExecOk(e)
    case Into(e, q) => ExecOk(e) && PipeOk(q)
  }

  predicate LineOk(l: LineS)
    decreases l, 0
  {
    match l
    case Last(p, k) => PipeOk(p)
    case Before(p, k, m) => PipeOk(p) && LineOk(m)
  }

  // What the parser returns, in words.

  ghost function Arrows(s: string, rs: seq<(Span, Mode)>): (r: seq<Arrow>)
    ensures |r| == |rs| && forall k :: 0 <= k < |rs| ==> r[k] == (Word(s, rs[k].0), rs[k].1)
  {
    seq(|rs|, k requires 0 <= k < |rs| => (Word(s, rs[k].0), rs[k].1))
  }

  ghost function ArgWords(s: string, args: seq<Span>): (r: seq<string>)
    ensures |r| == |args| && forall k :: 0 <= k < |args| ==> r[k] == Word(s, args[k])
  {
    seq(|args|, k requires 0 <= k < |args| => Word(s, args[k]))
  }

  lemma {:induction false} WordsWrap(s: string, c: Cmd<Span>, rs: seq<(Span, Mode)>)
    ensures Words(s, Wrap(c, rs)) == Wrapped(Words(s, c), Arrows(s, rs))
  {
    if rs != [] {
      var n := |rs| - 1;
      WordsWrap(s, c, rs[..n]);
      assert Arrows(s, rs)[..n] == Arrows(s, rs[..n]);
    }
  }

  // The parser accepts only what the grammar derives, with that meaning.

  lemma {:induction false} RedirsSound(s: string, i: nat)
    requires i <= |s| && ParseRedirs(s, i).Ok?
    ensures var r := ParseRedirs(s, i);
            && Toks(s, i) == ArrowToks(Arrows(s, r.value)) + Toks(s, r.pos) && ArrowsOk(Arrows(s, r.value))
            && !Starts(Toks(s, r.pos), "<>+")
    decreases |s| - i
  {
    hide Skip, TokenAt, Toks, Sees, IsWord, ArrowToks, ArrowsOk, Arrows;
    NoArrows(s);
    SeesToks(s, i);
    if !Sees(s, i, "<>") {
      ToksSkip(s, i);
    } else {
      var tok := TokenAt(s, i);
      var word := TokenAt(s, tok.next);
      ToksAt(s, i);
      ToksAt(s, tok.next);
      RedirsSound(s, word.next);
      var mode := if tok.kind == '<' then Read else if tok.kind == '>' then Truncate else Append;
      ArrowStep(s, Span(word.q, word.eq), mode, ParseRedirs(s, word.next).value);
    }
  }

  lemma NoArrows(s: string)
    ensures Arrows(s, []) == [] && ArrowToks([]) == [] && ArrowsOk([])
  {
  }

  lemma ArrowStep(s: string, x: Span, m: Mode, rest: seq<(Span, Mode)>)
    ensures ArrowToks(Arrows(s, [(x, m)] + rest)) == [Sym(ModeSym(m)), Text(Word(s, x))] + ArrowToks(Arrows(s, rest))
    ensures IsWord(Word(s, x)) && ArrowsOk(Arrows(s, rest)) ==> ArrowsOk(Arrows(s, [(x, m)] + rest))
  {
    var a := Arrows(s, [(x, m)] + rest);
    assert a[1..] == Arrows(s, rest);
    assert forall k :: 0 < k < |a| ==> a[k] == Arrows(s, rest)[k - 1];
  }

  lemma {:induction false} ArgsSound(s: string, args: seq<Span>, rs: seq<(Span, Mode)>, i: nat)
    returns (items: seq<Item>)
    requires i <= |s| && ParseArgs(s, args, rs, i).Ok? && |args| < MAXARGS
    ensures var r := ParseArgs(s, args, rs, i);
            && Toks(s, i) == ItemToks(items) + Toks(s, r.pos) && ItemsOk(items) && |args| + |items| < MAXARGS
            && Words(s, r.value) ==
               Wrapped(Exec(ArgWords(s, args) + ItemWords(items)), Arrows(s, rs) + ItemArrows(items))
    decreases |s| - i
  {
    hide Skip, TokenAt, Toks, Sees, IsWord, ParseRedirs, Wrap, Wrapped, ArrowToks, ItemToks, ItemWords, ItemArrows;
    var tok := TokenAt(s, i);
    ToksAt(s, i);
    NoItems(s, args, rs);
    if Sees(s, i, "|)&;") || tok.kind == '\0' {
      items := [];
      WordsWrap(s, Exec(args), rs);
      if Sees(s, i, "|)&;") {
        ToksSkip(s, i);
      } else {
        EndsHere(s, i);
      }
    } else {
      var more := ParseRedirs(s, tok.next);
      var x := Span(tok.q, tok.eq);
      RedirsSound(s, tok.next);
      var rest := ArgsSound(s, args + [x], rs + more.value, more.pos);
      items := ItemStep(s, args, x, rs, more.value, rest);
    }
  }

  lemma NoItems(s: string, args: seq<Span>, rs: seq<(Span, Mode)>)
    ensures ItemToks([]) == [] && ArgWords(s, args) + ItemWords([]) == ArgWords(s, args)
    ensures Arrows(s, rs) + ItemArrows([]) == Arrows(s, rs)
    ensures Words(s, Exec(args)) == Exec(ArgWords(s, args))
  {
  }

  lemma ItemStep(s: string, args: seq<Span>, x: Span, rs: seq<(Span, Mode)>, more: seq<(Span, Mode)>, rest: seq<Item>)
    returns (items: seq<Item>)
    ensures ItemToks(items) == [Text(Word(s, x))] + ArrowToks(Arrows(s, more)) + ItemToks(rest)
    ensures |items| == |rest| + 1
    ensures ArgWords(s, args + [x]) + ItemWords(rest) == ArgWords(s, args) + ItemWords(items)
    ensures Arrows(s, rs + more) + ItemArrows(rest) == Arrows(s, rs) + ItemArrows(items)
    ensures IsWord(Word(s, x)) && ArrowsOk(Arrows(s, more)) && ItemsOk(rest) ==> ItemsOk(items)
  {
    items := [Item(Word(s, x), Arrows(s, more))] + rest;
    assert items[1..] == rest;
  }

  lemma EndsHere(s: string, i: nat)
    requires i <= |s| && TokenAt(s, i).kind == '\0'
    ensures Toks(s, TokenAt(s, i).next) == Toks(s, i)
  {
    ToksSkip(s, i);
  }

  lemma {:induction false} ExecSound(s: string, i: nat) returns (e: ExecS)
    requires i <= |s| && ParseExec(s, i).Ok?
    ensures var r := ParseExec(s, i);
            Toks(s, i) == ExecToks(e) + Toks(s, r.pos) && Words(s, r.value) == ExecMeans(e) && ExecOk(e)
    decreases |s| - i, 1
  {
    hide Skip, TokenAt, Toks, Sees, ArrowToks, ItemToks, ItemWords, ItemArrows, Wrapped, ParseRedirs, ParseArgs,
         ParseLine, Arrows, ArrowsOk, ItemsOk, LineToks, LineMeans, LineOk, Words;
    if Sees(s, i, "(") {
      e := BlockSound(s, i);
    } else {
      RedirsSound(s, i);
      var rs := ParseRedirs(s, i);
      var items := ArgsSound(s, [], rs.value, rs.pos);
      e := Simple(Arrows(s, rs.value), items);
      assert ArgWords(s, []) + ItemWords(items) == ItemWords(items);
    }
  }

  lemma {:induction false} BlockSound(s: string, i: nat) returns (e: ExecS)
    requires i <= |s| && Sees(s, i, "(") && ParseBlock(s, Skip(s, i)).Ok?
    ensures var r := ParseBlock(s, Skip(s, i));
            Toks(s, i) == ExecToks(e) + Toks(s, r.pos) && Words(s, r.value) == ExecMeans(e) && ExecOk(e)
    decreases |s| - i, 0
  {
    hide Skip, TokenAt, Toks, Sees, ArrowToks, Wrapped, ParseRedirs, ParseLine, Wrap,
         Arrows, ArrowsOk, LineToks, LineMeans, LineOk, Words;
    var o := Skip(s, i);
    SkipIn(s, i);
    ToksSkip(s, i);
    SeesToks(s, i);
    ToksAt(s, o);
    var n := TokenAt(s, o).next;
    var l := LineSound(s, n);
    var line := ParseLine(s, n);
    SeesToks(s, line.pos);
    ToksAt(s, line.pos);
    var close := TokenAt(s, line.pos);
    RedirsSound(s, close.next);
    var rs := ParseRedirs(s, close.next);
    WordsWrap(s, line.value, rs.value);
    e := Block(l, Arrows(s, rs.value));
    InParens(LineToks(l), ArrowToks(Arrows(s, rs.value)), Toks(s, rs.pos));
  }

  lemma SkipIn(s: string, i: nat)
    requires i <= |s|
    ensures i <= Skip(s, i) <= |s| && (Sees(s, i, "(") ==> Skip(s, i) < |s| && s[Skip(s, i)] == '(')
  {
  }

  lemma InParens(a: seq<Tok>, b: seq<Tok>, rest: seq<Tok>)
    ensures [Sym('(')] + (a + ([Sym(')')] + (b + rest))) == [Sym('(')] + a + [Sym(')')] + b + rest
  {
  }

  lemma {:induction false} PipeSound(s: string, i: nat) returns (p: PipeS)
    requires i <= |s| && ParsePipe(s, i).Ok?
    ensures var r := ParsePipe(s, i);
            Toks(s, i) == PipeToks(p) + Toks(s, r.pos) && Words(s, r.value) == PipeMeans(p) && PipeOk(p)
    decreases |s| - i, 2
  {
    hide Skip, TokenAt, Toks, Sees, ParseExec, ExecToks, ExecMeans, ExecOk;
    var e := ExecSound(s, i);
    var j := ParseExec(s, i).pos;
    SeesToks(s, j);
    if Sees(s, j, "|") {
      ToksAt(s, j);
      var q := PipeSound(s, TokenAt(s, j).next);
      p := Into(e, q);
      var rest := Toks(s, ParsePipe(s, i).pos);
      assert ExecToks(e) + ([Sym('|')] + (PipeToks(q) + rest)) == ExecToks(e) + [Sym('|')] + PipeToks(q) + rest;
    } else {
      ToksSkip(s, j);
      p := Only(e);
    }
  }

  lemma {:induction false} BacksSound(s: string, c: Cmd<Span>, i: nat) returns (k: nat)
    requires i <= |s|
    ensures var r := ParseBacks(s, c, i);
            && Toks(s, i) == BackToks(k) + Toks(s, r.pos) && Words(s, r.value) == Backs(Words(s, c), k)
            && !Starts(Toks(s, r.pos), "&")
    decreases |s| - i
  {
    hide Skip, TokenAt, Toks, Sees;
    SeesToks(s, i);
    if Sees(s, i, "&") {
      ToksAt(s, i);
      var k0 := BacksSound(s, Back(c), TokenAt(s, i).next);
      k := k0 + 1;
      var rest := Toks(s, ParseBacks(s, c, i).pos);
      assert [Sym('&')] + (BackToks(k0) + rest) == BackToks(k) + rest;
    } else {
      k := 0;
      ToksSkip(s, i);
      assert BackToks(0) + Toks(s, i) == Toks(s, i);
    }
  }

  lemma {:induction false} LineSound(s: string, i: nat) returns (l: LineS)
    requires i <= |s| && ParseLine(s, i).Ok?
    ensures var r := ParseLine(s, i);
            Toks(s, i) == LineToks(l) + Toks(s, r.pos) && Words(s, r.value) == LineMeans(l) && LineOk(l)
    decreases |s| - i, 3
  {
    hide Skip, TokenAt, Toks, Sees, ParsePipe, ParseBacks, PipeToks, PipeMeans, PipeOk, Backs, BackToks;
    var p := PipeSound(s, i);
    var c := ParsePipe(s, i);
    var k := BacksSound(s, c.value, c.pos);
    var j := ParseBacks(s, c.value, c.pos).pos;
    SeesToks(s, j);
    if Sees(s, j, ";") {
      ToksAt(s, j);
      var m := LineSound(s, TokenAt(s, j).next);
      l := Before(p, k, m);
      var rest := Toks(s, ParseLine(s, i).pos);
      var a, b := PipeToks(p), BackToks(k);
      assert a + (b + ([Sym(';')] + (LineToks(m) + rest))) == a + b + [Sym(';')] + LineToks(m) + rest;
    } else {
      ToksSkip(s, j);
      l := Last(p, k);
      var rest := Toks(s, j);
      assert PipeToks(p) + (BackToks(k) + rest) == PipeToks(p) + BackToks(k) + rest;
    }
  }

  // The parser accepts all that the grammar derives.

  /** Nothing more, or one of the symbols cs. */
  predicate EndOr(ts: seq<Tok>, cs: string) {
    ts == [] || Starts(ts, cs)
  }

  lemma {:induction false} RedirsComplete(s: string, i: nat, rs: seq<Arrow>, rest: seq<Tok>)
    requires i <= |s| && Toks(s, i) == ArrowToks(rs) + rest && !Starts(rest, "<>+")
    ensures var r := ParseRedirs(s, i); r.Ok? && Arrows(s, r.value) == rs && Toks(s, r.pos) == rest
    decreases |s| - i
  {
    hide Skip, TokenAt, Toks, Sees, IsWord, Arrows, ArrowToks;
    NoArrows(s);
    SeesToks(s, i);
    if rs == [] {
      assert [] + rest == rest;
      ToksSkip(s, i);
    } else {
      var ts := Toks(s, i);
      FirstArrow(rs, rest);
      var tok := TokenAt(s, i);
      ToksAt(s, i);
      var word := TokenAt(s, tok.next);
      ToksAt(s, tok.next);
      RedirsComplete(s, word.next, rs[1..], rest);
      ArrowsOne(s, Span(word.q, word.eq), rs[0].1, ParseRedirs(s, word.next).value, rs);
    }
  }

  lemma FirstArrow(rs: seq<Arrow>, rest: seq<Tok>)
    requires rs != []
    ensures var ts := ArrowToks(rs) + rest;
            && |ts| >= 2 && ts[0] == Sym(ModeSym(rs[0].1)) && ts[1..][0] == Text(rs[0].0)
            && ts[1..][1..] == ArrowToks(rs[1..]) + rest
  {
    var a, b := Sym(ModeSym(rs[0].1)), Text(rs[0].0);
    var tail := ArrowToks(rs[1..]);
    assert ArrowToks(rs) == [a, b] + tail;
    TwoFirst(a, b, tail, rest);
  }

  lemma TwoFirst(a: Tok, b: Tok, tail: seq<Tok>, rest: seq<Tok>)
    ensures var ts := ([a, b] + tail) + rest;
            |ts| >= 2 && ts[0] == a && ts[1..][0] == b && ts[1..][1..] == tail + rest
  {
    var ts := ([a, b] + tail) + rest;
    assert ts == [a, b] + (tail + rest);
    assert ts[1..] == [b] + (tail + rest);
  }

  lemma ArrowsOne(s: string, x: Span, m: Mode, more: seq<(Span, Mode)>, rs: seq<Arrow>)
    requires rs != [] && Word(s, x) == rs[0].0 && m == rs[0].1 && Arrows(s, more) == rs[1..]
    ensures Arrows(s, [(x, m)] + more) == rs
  {
    var a := Arrows(s, [(x, m)] + more);
    assert forall k :: 0 < k < |a| ==> a[k] == Arrows(s, more)[k - 1] && rs[k] == rs[1..][k - 1];
  }

  lemma {:induction false} ArgsComplete(s: string, args: seq<Span>, rs: seq<(Span, Mode)>, i: nat, items: seq<Item>,
                                        rest: seq<Tok>)
    requires i <= |s| && Toks(s, i) == ItemToks(items) + rest && EndOr(rest, "|)&;") && |args| + |items| < MAXARGS
    ensures var r := ParseArgs(s, args, rs, i);
            && r.Ok? && Toks(s, r.pos) == rest
            && Words(s, r.value) ==
               Wrapped(Exec(ArgWords(s, args) + ItemWords(items)), Arrows(s, rs) + ItemArrows(items))
    decreases |s| - i
  {
    hide Skip, TokenAt, Toks, Sees, IsWord, ParseRedirs, Wrap, Wrapped, ArrowToks, Words, ArgWords, Arrows;
    var tok := TokenAt(s, i);
    ToksAt(s, i);
    SeesToks(s, i);
    NoItems(s, args, rs);
    if items == [] {
      assert ItemToks([]) + rest == rest;
      WordsWrap(s, Exec(args), rs);
      if rest == [] {
        EndsHere(s, i);
      } else {
        ToksSkip(s, i);
      }
    } else {
      var item, tail := items[0], items[1..];
      var ts := Toks(s, i);
      assert ts[0] == Text(item.w) && ts[1..] == ArrowToks(item.rs) + (ItemToks(tail) + rest);
      RedirsComplete(s, tok.next, item.rs, ItemToks(tail) + rest);
      var more, x := ParseRedirs(s, tok.next), Span(tok.q, tok.eq);
      ArgsComplete(s, args + [x], rs + more.value, more.pos, tail, rest);
      ItemBack(s, args, x, rs, more.value, items);
    }
  }

  lemma ItemBack(s: string, args: seq<Span>, x: Span, rs: seq<(Span, Mode)>, more: seq<(Span, Mode)>,
                 items: seq<Item>)
    requires items != [] && Word(s, x) == items[0].w && Arrows(s, more) == items[0].rs
    ensures ArgWords(s, args + [x]) + ItemWords(items[1..]) == ArgWords(s, args) + ItemWords(items)
    ensures Arrows(s, rs + more) + ItemArrows(items[1..]) == Arrows(s, rs) + ItemArrows(items)
  {
    hide Word;
    assert ArgWords(s, args + [x]) == ArgWords(s, args) + [items[0].w];
    assert Arrows(s, rs + more) == Arrows(s, rs) + Arrows(s, more);
    Regroup(ArgWords(s, args), [items[0].w], ItemWords(items[1..]));
    Regroup(Arrows(s, rs), Arrows(s, more), ItemArrows(items[1..]));
  }

  lemma Regroup<T>(a: seq<T>, b: seq<T>, c: seq<T>)
    ensures (a + b) + c == a + (b + c)
  {
  }

  lemma {:induction false} ExecComplete(s: string, i: nat, e: ExecS, rest: seq<Tok>)
    requires i <= |s| && Toks(s, i) == ExecToks(e) + rest && EndOr(rest, "|)&;") && ExecOk(e)
    ensures var r := ParseExec(s, i); r.Ok? && Toks(s, r.pos) == rest && Words(s, r.value) == ExecMeans(e)
    decreases e, 0
  {
    hide Skip, TokenAt, Toks, Sees, Wrapped, ParseRedirs, ParseArgs, ParseLine, Arrows, ArrowsOk, ItemsOk, LineToks,
         LineMeans, LineOk, Words;
    SeesToks(s, i);
    match e
    case Simple(pre, items) =>
      assert ArrowToks(pre) + ItemToks(items) + rest == ArrowToks(pre) + (ItemToks(items) + rest);
      RedirsComplete(s, i, pre, ItemToks(items) + rest);
      var rs := ParseRedirs(s, i);
      ArgsComplete(s, [], rs.value, rs.pos, items, rest);
      assert ArgWords(s, []) + ItemWords(items) == ItemWords(items);
    case Block(l, post) =>
      BlockComplete(s, i, l, post, rest);
  }

  lemma {:induction false} BlockComplete(s: string, i: nat, l: LineS, post: seq<Arrow>, rest: seq<Tok>)
    requires i <= |s| && Toks(s, i) == ExecToks(Block(l, post)) + rest && EndOr(rest, "|)&;") && LineOk(l)
    ensures Sees(s, i, "(")
    ensures var r := ParseBlock(s, Skip(s, i));
            r.Ok? && Toks(s, r.pos) == rest && Words(s, r.value) == ExecMeans(Block(l, post))
    decreases l, 1
  {
    hide Skip, TokenAt, Toks, Sees, Wrapped, ParseRedirs, ParseLine, Arrows, LineToks, LineMeans, LineOk, Words, Wrap,
         ArrowToks;
    var a, b := LineToks(l), ArrowToks(post);
    var o := Skip(s, i);
    InParens(a, b, rest);
    SeesToks(s, i);
    SkipIn(s, i);
    ToksSkip(s, i);
    ToksAt(s, o);
    var n := TokenAt(s, o).next;
    assert Toks(s, n) == a + ([Sym(')')] + (b + rest));
    LineComplete(s, n, l, [Sym(')')] + (b + rest));
    var line := ParseLine(s, n);
    SeesToks(s, line.pos);
    ToksAt(s, line.pos);
    var close := TokenAt(s, line.pos);
    assert Toks(s, close.next) == b + rest;
    RedirsComplete(s, close.next, post, rest);
    WordsWrap(s, line.value, ParseRedirs(s, close.next).value);
  }

  lemma {:induction false} PipeComplete(s: string, i: nat, p: PipeS, rest: seq<Tok>)
    requires i <= |s| && Toks(s, i) == PipeToks(p) + rest && EndOr(rest, ")&;") && PipeOk(p)
    ensures var r := ParsePipe(s, i); r.Ok? && Toks(s, r.pos) == rest && Words(s, r.value) == PipeMeans(p)
    decreases p, 0
  {
    hide Skip, TokenAt, Toks, Sees, ParseExec, ExecToks, ExecMeans, ExecOk;
    match p
    case Only(e) =>
      ExecComplete(s, i, e, rest);
      var j := ParseExec(s, i).pos;
      SeesToks(s, j);
      ToksSkip(s, j);
    case Into(e, q) =>
      var more := [Sym('|')] + (PipeToks(q) + rest);
      assert ExecToks(e) + [Sym('|')] + PipeToks(q) + rest == ExecToks(e) + more;
      ExecComplete(s, i, e, more);
      var j := ParseExec(s, i).pos;
      SeesToks(s, j);
      ToksAt(s, j);
      assert more[1..] == PipeToks(q) + rest;
      PipeComplete(s, TokenAt(s, j).next, q, rest);
  }

  lemma {:induction false} BacksComplete(s: string, c: Cmd<Span>, i: nat, k: nat, rest: seq<Tok>)
    requires i <= |s| && Toks(s, i) == BackToks(k) + rest && !Starts(rest, "&")
    ensures var r := ParseBacks(s, c, i); Toks(s, r.pos) == rest && Words(s, r.value) == Backs(Words(s, c), k)
    decreases k
  {
    hide Skip, TokenAt, Toks, Sees;
    SeesToks(s, i);
    if k == 0 {
      assert BackToks(0) + rest == rest;
      ToksSkip(s, i);
    } else {
      ToksAt(s, i);
      assert (BackToks(k) + rest)[1..] == BackToks(k - 1) + rest;
      BacksComplete(s, Back(c), TokenAt(s, i).next, k - 1, rest);
    }
  }

  lemma {:induction false} LineComplete(s: string, i: nat, l: LineS, rest: seq<Tok>)
    requires i <= |s| && Toks(s, i) == LineToks(l) + rest && EndOr(rest, ")") && LineOk(l)
    ensures var r := ParseLine(s, i); r.Ok? && Toks(s, r.pos) == rest && Words(s, r.value) == LineMeans(l)
    decreases l, 0
  {
    hide Skip, TokenAt, Toks, Sees, ParsePipe, ParseBacks, PipeToks, PipeMeans, PipeOk, Backs;
    var p, k := l.p, l.backs;
    var more := if l.Last? then rest else [Sym(';')] + (LineToks(l.l) + rest);
    assert LineToks(l) + rest == PipeToks(p) + (BackToks(k) + more);
    PipeComplete(s, i, p, BackToks(k) + more);
    var c := ParsePipe(s, i);
    BacksComplete(s, c.value, c.pos, k, more);
    var j := ParseBacks(s, c.value, c.pos).pos;
    SeesToks(s, j);
    ToksSkip(s, j);
    if l.Before? {
      ToksAt(s, j);
      assert more[1..] == LineToks(l.l) + rest;
      LineComplete(s, TokenAt(s, j).next, l.l, rest);
    }
  }

  /** The parser accepts a line if and only if its tokens are those of the grammar; and the
      command it gives is what the grammar says they mean. */
  lemma ParserExact(s: string)
    ensures ParseCmd(s).Ok? <==> exists l :: LineOk(l) && LineToks(l) == Toks(s, 0)
    ensures forall l :: LineOk(l) && LineToks(l) == Toks(s, 0) ==>
              ParseCmd(s).Ok? && Words(s, ParseCmd(s).value) == LineMeans(l)
  {
    hide Skip, TokenAt, Toks, ParseLine, LineToks, LineMeans, LineOk, Words;
    forall l | LineOk(l) && LineToks(l) == Toks(s, 0)
      ensures ParseCmd(s).Ok? && Words(s, ParseCmd(s).value) == LineMeans(l)
    {
      assert LineToks(l) == LineToks(l) + [];
      LineComplete(s, 0, l, []);
      ToksAt(s, ParseLine(s, 0).pos);
    }
    if ParseCmd(s).Ok? {
      var l := LineSound(s, 0);
      ToksAt(s, ParseLine(s, 0).pos);
      assert LineToks(l) + [] == LineToks(l);
    }
  }

  // Every derivation can be written down.

  predicate TokOk(t: Tok) {
    if t.Text? then IsWord(t.w) else t.c in "<|>&;()+"
  }

  predicate ToksOk(ts: seq<Tok>) {
    forall k :: 0 <= k < |ts| ==> TokOk(ts[k])
  }

  function TokText(t: Tok): (r: string) {
    if t.Text? then t.w else if t.c == '+' then ">>" else [t.c]
  }

  /** The tokens with a space behind each. */
  function Spell(ts: seq<Tok>): (r: string) {
    if ts == [] then "" else TokText(ts[0]) + " " + Spell(ts[1..])
  }

  /** A token followed by a space is read as that token. */
  lemma TokenSpelled(s: string, i: nat, t: Tok)
    requires TokOk(t) && i + |TokText(t)| < |s| && s[i..i + |TokText(t)|] == TokText(t) && s[i + |TokText(t)|] == ' '
    ensures var x := TokenAt(s, i);
            x.kind != '\0' && TokOf(s, x) == t && x.next == Skip(s, i + |TokText(t)|) && i < x.next
  {
    var n := |TokText(t)|;
    assert s[i] == TokText(t)[0];
    assert !IsSpace(s[i]) && Skip(s, i) == i;
    if t.Text? {
      forall k | i <= k < i + n
        ensures IsWordChar(s[k])
      {
        assert s[k] == t.w[k - i];
      }
      WordEnds(s, i, n);
    } else if t.c == '+' {
      assert s[i + 1] == TokText(t)[1];
    }
  }

  lemma WordEnds(s: string, i: nat, n: nat)
    requires i + n < |s| && (forall k :: i <= k < i + n ==> IsWordChar(s[k])) && !IsWordChar(s[i + n])
    ensures WordEnd(s, i) == i + n
  {
  }

  lemma ToksFirst(s: string, i: nat, t: Tok, j: nat)
    requires i <= |s| && var x := TokenAt(s, i); x.kind != '\0' && i < x.next && TokOf(s, x) == t && x.next == j
    ensures Toks(s, i) == [t] + Toks(s, j)
  {
  }

  lemma {:induction false} SpellToks(s: string, i: nat, ts: seq<Tok>)
    requires i <= |s| && s[i..] == Spell(ts) && ToksOk(ts)
    ensures Toks(s, i) == ts
    decreases |ts|
  {
    hide TokenAt, Skip, TokText, TokOk, TokOf, Toks, Spell, ToksOk;
    SpellFirst(ts);
    if ts == [] {
      NoToks(s, i);
    } else {
      var n := |TokText(ts[0])|;
      Parts(s, i, TokText(ts[0]), Spell(ts[1..]));
      TokenSpelled(s, i, ts[0]);
      ToksFirst(s, i, ts[0], Skip(s, i + n));
      SpellToks(s, i + n + 1, ts[1..]);
      SpaceNext(s, i + n);
      ToksSkip(s, i + n + 1);
    }
  }

  lemma NoToks(s: string, i: nat)
    requires i == |s|
    ensures Toks(s, i) == []
  {
  }

  lemma SpellFirst(ts: seq<Tok>)
    ensures ts == [] ==> Spell(ts) == ""
    ensures ts != [] ==> Spell(ts) == TokText(ts[0]) + " " + Spell(ts[1..])
    ensures ts != [] && ToksOk(ts) ==> TokOk(ts[0]) && ToksOk(ts[1..])
  {
    hide TokText, TokOk;
  }

  lemma Parts(s: string, i: nat, w: string, rest: string)
    requires i <= |s| && s[i..] == w + " " + rest
    ensures i + |w| < |s| && s[i..i + |w|] == w && s[i + |w|] == ' ' && s[i + |w| + 1..] == rest
  {
    var n := |w|;
    assert s[i..i + n] == s[i..][..n] && s[i + n] == s[i..][n] && s[i + n + 1..] == s[i..][n + 1..];
  }

  lemma SpaceNext(s: string, i: nat)
    requires i < |s| && s[i] == ' '
    ensures Skip(s, i) == Skip(s, i + 1)
  {
  }

  lemma Both(a: seq<Tok>, b: seq<Tok>)
    requires ToksOk(a) && ToksOk(b)
    ensures ToksOk(a + b)
  {
    hide TokOk;
  }

  lemma {:induction false} ArrowsSpelled(rs: seq<Arrow>)
    requires ArrowsOk(rs)
    ensures ToksOk(ArrowToks(rs))
  {
    if rs != [] {
      ArrowsSpelled(rs[1..]);
      Both([Sym(ModeSym(rs[0].1)), Text(rs[0].0)], ArrowToks(rs[1..]));
    }
  }

  lemma {:induction false} ItemsSpelled(xs: seq<Item>)
    requires ItemsOk(xs)
    ensures ToksOk(ItemToks(xs))
  {
    if xs != [] {
      ItemsSpelled(xs[1..]);
      ArrowsSpelled(xs[0].rs);
      Both([Text(xs[0].w)], ArrowToks(xs[0].rs));
      Both([Text(xs[0].w)] + ArrowToks(xs[0].rs), ItemToks(xs[1..]));
    }
  }

  lemma {:induction false} ExecSpelled(e: ExecS)
    requires ExecOk(e)
    ensures ToksOk(ExecToks(e))
    decreases e, 0
  {
    match e
    case Simple(pre, items) =>
      ArrowsSpelled(pre);
      ItemsSpelled(items);
      Both(ArrowToks(pre), ItemToks(items));
    case Block(l, post) =>
      LineSpelled(l);
      ArrowsSpelled(post);
      Both([Sym('(')], LineToks(l));
      Both([Sym('(')] + LineToks(l), [Sym(')')]);
      Both([Sym('(')] + LineToks(l) + [Sym(')')], ArrowToks(post));
  }

  lemma {:induction false} PipeSpelled(p: PipeS)
    requires PipeOk(p)
    ensures ToksOk(PipeToks(p))
    decreases p, 0
  {
    ExecSpelled(p.e);
    if p.Into? {
      PipeSpelled(p.p);
      Both(ExecToks(p.e), [Sym('|')]);
      Both(ExecToks(p.e) + [Sym('|')], PipeToks(p.p));
    }
  }

  lemma {:induction false} LineSpelled(l: LineS)
    requires LineOk(l)
    ensures ToksOk(LineToks(l))
    decreases l, 0
  {
    PipeSpelled(l.p);
    Both(PipeToks(l.p), BackToks(l.backs));
    if l.Before? {
      LineSpelled(l.l);
      Both(PipeToks(l.p) + BackToks(l.backs), [Sym(';')]);
      Both(PipeToks(l.p) + BackToks(l.backs) + [Sym(';')], LineToks(l.l));
    }
  }

  /** The round trip without parentheses: every way of writing a command, with redirections
      before, between and behind the arguments, parses to the command it means. */
  lemma SpelledParses(l: LineS)
    requires LineOk(l)
    ensures var s := Spell(LineToks(l)); ParseCmd(s).Ok? && Words(s, ParseCmd(s).value) == LineMeans(l)
  {
    hide ParseCmd, Words, LineToks, LineMeans, LineOk, Toks, Spell;
    var s := Spell(LineToks(l));
    LineSpelled(l);
    assert s[0..] == s;
    SpellToks(s, 0, LineToks(l));
    ParserExact(s);
  }
}
