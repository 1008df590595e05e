/** The parser of user/sh.c sees tokens only: lines with the same tokens, however spaced, parse
    to the same command or to the same error. */
module ShellTokens {
  import opened Shell
  import opened ShellRoundTrip
  import opened ShellCode

  /** The text of the token at i. */
  ghost function Text(s: string, t: Token): (w: string) {
    Word(s, Span(t.q, t.eq))
  }

  /** s from i on and s' from i' on have the same tokens. */
  ghost predicate Alike(s: string, i: nat, s': string, i': nat)
    decreases |s| - i
  {
    && i <= |s| && i' <= |s'|
    && var t, t' := TokenAt(s, i), TokenAt(s', i');
       && t.kind == t'.kind && Text(s, t) == Text(s', t')
       && (t.q < t.eq ==> Alike(s, t.next, s', t'.next))
  }

  lemma SkipAlike(s: string, i: nat, s': string, i': nat)
    requires i <= |s| && i' <= |s'|
    ensures Alike(s, Skip(s, i), s', Skip(s', i')) == Alike(s, i, s', i')
  {
    SkipTwice(s, i);
    SkipTwice(s', i');
  }

  lemma TokenFacts(s: string, i: nat, toks: string)
    requires i <= |s|
    ensures var t := TokenAt(s, i);
            && i <= t.q == Skip(s, i) && |Text(s, t)| == t.eq - t.q && (t.q < |s| <==> t.q < t.eq)
            && (t.q < |s| ==> i < t.next) && (t.kind == '\0' <==> t.q == |s|)
            && (Sees(s, i, toks) <==> t.q < t.eq && Text(s, t)[0] in toks)
  {
  }

  /** What lies ahead is the same, and so is the rest behind it. */
  lemma AlikeAhead(s: string, i: nat, s': string, i': nat, toks: string)
    requires Alike(s, i, s', i')
    ensures Sees(s, i, toks) == Sees(s', i', toks)
    ensures Skip(s, i) < |s| ==> Alike(s, TokenAt(s, i).next, s', TokenAt(s', i').next) && i < TokenAt(s, i).next
    ensures Skip(s, i) == |s| <==> Skip(s', i') == |s'|
    ensures TokenAt(s, i).kind == TokenAt(s', i').kind && (TokenAt(s, i).kind == '\0' <==> Skip(s, i) == |s|)
    ensures SameWord(s, Span(TokenAt(s, i).q, TokenAt(s, i).eq), s', Span(TokenAt(s', i').q, TokenAt(s', i').eq))
  {
    hide TokenAt, Skip, Sees, Word;
    TokenFacts(s, i, toks);
    TokenFacts(s', i', toks);
  }

  ghost predicate SameWord(s: string, x: Span, s': string, x': Span) {
    Word(s, x) == Word(s', x')
  }

  ghost predicate SameWords(s: string, xs: seq<Span>, s': string, xs': seq<Span>) {
    |xs| == |xs'| && forall k :: 0 <= k < |xs| ==> SameWord(s, xs[k], s', xs'[k])
  }

  ghost predicate SameRedirs(s: string, rs: seq<(Span, Mode)>, s': string, rs': seq<(Span, Mode)>) {
    |rs| == |rs'| && forall k :: 0 <= k < |rs| ==> SameWord(s, rs[k].0, s', rs'[k].0) && rs[k].1 == rs'[k].1
  }

  ghost predicate SameCmd(s: string, c: Cmd<Span>, s': string, c': Cmd<Span>) {
    Words(s, c) == Words(s', c')
  }

  lemma {:induction false} SameWrap(s: string, c: Cmd<Span>, rs: seq<(Span, Mode)>, s': string, c': Cmd<Span>,
                                    rs': seq<(Span, Mode)>)
    requires SameCmd(s, c, s', c') && SameRedirs(s, rs, s', rs')
    ensures SameCmd(s, Wrap(c, rs), s', Wrap(c', rs'))
    decreases |rs|
  {
    if rs != [] {
      SameWrap(s, c, rs[..|rs| - 1], s', c', rs'[..|rs'| - 1]);
    }
  }

  lemma SameExec(s: string, xs: seq<Span>, s': string, xs': seq<Span>)
    requires SameWords(s, xs, s', xs')
    ensures SameCmd(s, Exec(xs), s', Exec(xs'))
  {
    var a := seq(|xs|, k requires 0 <= k < |xs| => Word(s, xs[k]));
    var b := seq(|xs'|, k requires 0 <= k < |xs'| => Word(s', xs'[k]));
    assert forall k :: 0 <= k < |xs| ==> SameWord(s, xs[k], s', xs'[k]);
    assert a == b;
  }

  /** Two results for the two lines that mean the same. */
  ghost predicate SameResult(s: string, r: Result<Cmd<Span>>, s': string, r': Result<Cmd<Span>>) {
    match (r, r')
    case (Ok(c, j), Ok(c', j')) => SameCmd(s, c, s', c') && Alike(s, j, s', j')
    case (Err(e), Err(e')) => e == e'
    case _ => false
  }

  ghost predicate SameRedirResult(s: string, r: Result<seq<(Span, Mode)>>, s': string, r': Result<seq<(Span, Mode)>>) {
    match (r, r')
    case (Ok(rs, j), Ok(rs', j')) => SameRedirs(s, rs, s', rs') && Alike(s, j, s', j')
    case (Err(e), Err(e')) => e == e'
    case _ => false
  }

  lemma {:induction false} AlikeRedirs(s: string, i: nat, s': string, i': nat)
    requires Alike(s, i, s', i')
    ensures SameRedirResult(s, ParseRedirs(s, i), s', ParseRedirs(s', i'))
    decreases |s| - i
  {
    hide Word, Skip, Alike, TokenAt, Sees, SameWord;
    AlikeIn(s, i, s', i');
    SkipAlike(s, i, s', i');
    AlikeAhead(s, i, s', i', "<>");
    if Sees(s, i, "<>") {
      SeesMore(s, i, "<>");
      var n, n' := TokenAt(s, i).next, TokenAt(s', i').next;
      AlikeAhead(s, n, s', n', "");
      var w, w' := TokenAt(s, n), TokenAt(s', n');
      if w.kind == 'a' {
        AlikeRedirs(s, w.next, s', w'.next);
      }
    }
  }

  lemma AlikeIn(s: string, i: nat, s': string, i': nat)
    requires Alike(s, i, s', i')
    ensures i <= |s| && i' <= |s'|
  {
  }

  lemma SeesMore(s: string, i: nat, toks: string)
    requires i <= |s|
    ensures Sees(s, i, toks) ==> Skip(s, i) < |s|
  {
  }

  lemma {:induction false} AlikeArgs(s: string, args: seq<Span>, rs: seq<(Span, Mode)>, i: nat,
                                     s': string, args': seq<Span>, rs': seq<(Span, Mode)>, i': nat)
    requires Alike(s, i, s', i') && SameWords(s, args, s', args') && SameRedirs(s, rs, s', rs')
    ensures SameResult(s, ParseArgs(s, args, rs, i), s', ParseArgs(s', args', rs', i'))
    decreases |s| - i
  {
    hide Word, Skip, Alike, TokenAt, Sees, SameWord, SameCmd, ParseRedirs;
    AlikeIn(s, i, s', i');
    SkipAlike(s, i, s', i');
    AlikeAhead(s, i, s', i', "|)&;");
    SameExec(s, args, s', args');
    SameWrap(s, Exec(args), rs, s', Exec(args'), rs');
    var t, t' := TokenAt(s, i), TokenAt(s', i');
    if !Sees(s, i, "|)&;") {
      if t.kind == '\0' {
        EndAlike(s, i, s', i');
      } else if t.kind == 'a' {
        AlikeRedirs(s, t.next, s', t'.next);
        var r, r' := ParseRedirs(s, t.next), ParseRedirs(s', t'.next);
        if r.Ok? && |args| + 1 < MAXARGS {
          AlikeArgs(s, args + [Span(t.q, t.eq)], rs + r.value, r.pos, s', args' + [Span(t'.q, t'.eq)], rs' + r'.value,
                    r'.pos);
        }
      }
    }
  }

  /** At the end of both lines. */
  lemma EndAlike(s: string, i: nat, s': string, i': nat)
    requires Alike(s, i, s', i') && TokenAt(s, i).kind == '\0'
    ensures Alike(s, TokenAt(s, i).next, s', TokenAt(s', i').next)
  {
    TokenFacts(s, i, "");
    TokenFacts(s', i', "");
    SkipAlike(s, i, s', i');
  }

  lemma {:induction false} AlikeExec(s: string, i: nat, s': string, i': nat)
    requires Alike(s, i, s', i')
    ensures SameResult(s, ParseExec(s, i), s', ParseExec(s', i'))
    decreases |s| - i, 1
  {
    hide Word, Skip, Alike, TokenAt, SameWord, SameCmd, ParseRedirs, ParseArgs, ParseBlock;
    AlikeIn(s, i, s', i');
    SkipAlike(s, i, s', i');
    AlikeAhead(s, i, s', i', "(");
    if Sees(s, i, "(") {
      AlikeBlock(s, Skip(s, i), s', Skip(s', i'));
    } else {
      AlikeRedirs(s, i, s', i');
      var r, r' := ParseRedirs(s, i), ParseRedirs(s', i');
      if r.Ok? {
        AlikeArgs(s, [], r.value, r.pos, s', [], r'.value, r'.pos);
      }
    }
  }

  lemma {:induction false} AlikeBlock(s: string, i: nat, s': string, i': nat)
    requires Alike(s, i, s', i') && i < |s| && s[i] == '(' && i' < |s'| && s'[i'] == '('
    ensures SameResult(s, ParseBlock(s, i), s', ParseBlock(s', i'))
    decreases |s| - i, 0
  {
    AlikeAhead(s, i, s', i', "");
    AtParen(s, i);
    hide Word, Skip, Alike, TokenAt, Sees, SameWord, SameCmd, ParseRedirs, ParseLine;
    var n, n' := TokenAt(s, i).next, TokenAt(s', i').next;
    AlikeLine(s, n, s', n');
    var r, r' := ParseLine(s, n), ParseLine(s', n');
    if r.Ok? {
      AlikeIn(s, r.pos, s', r'.pos);
      AlikeAhead(s, r.pos, s', r'.pos, ")");
      SeesMore(s, r.pos, ")");
      if Sees(s, r.pos, ")") {
        var m, m' := TokenAt(s, r.pos).next, TokenAt(s', r'.pos).next;
        AlikeRedirs(s, m, s', m');
        var q, q' := ParseRedirs(s, m), ParseRedirs(s', m');
        if q.Ok? {
          SameWrap(s, r.value, q.value, s', r'.value, q'.value);
        }
      }
    }
  }

  lemma AtParen(s: string, i: nat)
    requires i < |s| && s[i] == '('
    ensures Skip(s, i) == i && i < TokenAt(s, i).next
  {
  }

  lemma {:induction false} AlikePipe(s: string, i: nat, s': string, i': nat)
    requires Alike(s, i, s', i')
    ensures SameResult(s, ParsePipe(s, i), s', ParsePipe(s', i'))
    decreases |s| - i, 2
  {
    hide Word, Skip, Alike, TokenAt, Sees, SameWord, ParseExec;
    AlikeIn(s, i, s', i');
    AlikeExec(s, i, s', i');
    var r, r' := ParseExec(s, i), ParseExec(s', i');
    if r.Ok? {
      AlikeIn(s, r.pos, s', r'.pos);
      SkipAlike(s, r.pos, s', r'.pos);
      AlikeAhead(s, r.pos, s', r'.pos, "|");
      SeesMore(s, r.pos, "|");
      if Sees(s, r.pos, "|") {
        AlikePipe(s, TokenAt(s, r.pos).next, s', TokenAt(s', r'.pos).next);
      }
    }
  }

  lemma {:induction false} AlikeBacks(s: string, c: Cmd<Span>, i: nat, s': string, c': Cmd<Span>, i': nat)
    requires Alike(s, i, s', i') && SameCmd(s, c, s', c')
    ensures SameResult(s, ParseBacks(s, c, i), s', ParseBacks(s', c', i'))
    decreases |s| - i
  {
    hide Word, Skip, Alike, TokenAt, Sees, SameWord;
    AlikeIn(s, i, s', i');
    SkipAlike(s, i, s', i');
    AlikeAhead(s, i, s', i', "&");
    SeesMore(s, i, "&");
    if Sees(s, i, "&") {
      AlikeBacks(s, Back(c), TokenAt(s, i).next, s', Back(c'), TokenAt(s', i').next);
    }
  }

  lemma {:induction false} AlikeLine(s: string, i: nat, s': string, i': nat)
    requires Alike(s, i, s', i')
    ensures SameResult(s, ParseLine(s, i), s', ParseLine(s', i'))
    decreases |s| - i, 3
  {
    hide Word, Skip, Alike, TokenAt, Sees, SameWord, ParsePipe, ParseBacks;
    AlikeIn(s, i, s', i');
    AlikePipe(s, i, s', i');
    var r, r' := ParsePipe(s, i), ParsePipe(s', i');
    if r.Ok? {
      AlikeBacks(s, r.value, r.pos, s', r'.value, r'.pos);
      var b, b' := ParseBacks(s, r.value, r.pos), ParseBacks(s', r'.value, r'.pos);
      AlikeIn(s, b.pos, s', b'.pos);
      SkipAlike(s, b.pos, s', b'.pos);
      AlikeAhead(s, b.pos, s', b'.pos, ";");
      SeesMore(s, b.pos, ";");
      if Sees(s, b.pos, ";") {
        AlikeLine(s, TokenAt(s, b.pos).next, s', TokenAt(s', b'.pos).next);
      }
    }
  }

  /** Lines with the same tokens parse to the same command, or to the same error. */
  lemma SameTokens(s: string, s': string)
    requires Alike(s, 0, s', 0)
    ensures var r, r' := ParseCmd(s), ParseCmd(s');
            if r.Ok? then r'.Ok? && Words(s, r.value) == Words(s', r'.value) else r' == r
  {
    hide ParseLine, Alike, TokenAt, Words;
    AlikeLine(s, 0, s', 0);
    var r, r' := ParseLine(s, 0), ParseLine(s', 0);
    if r.Ok? {
      AlikeAhead(s, r.pos, s', r'.pos, "");
    }
  }

  // White space.

  /** Position i is not inside a word or inside ">>". */
  predicate Between(s: string, i: nat) {
    i <= |s| && (0 < i < |s| ==> !(IsWordChar(s[i - 1]) && IsWordChar(s[i])) && !(s[i - 1] == '>' && s[i] == '>'))
  }

  function Spaced(s: string, i: nat, c: char): (r: string)
    requires i <= |s|
  {
    s[..i] + [c] + s[i..]
  }

  /** From k and k' on, the two lines are the same. */
  ghost predicate SameFrom(s: string, k: nat, s': string, k': nat) {
    && k <= |s| && k' <= |s'| && |s| - k == |s'| - k'
    && forall m :: k <= m < |s| ==> s'[m - k + k'] == s[m]
  }

  lemma {:induction false} SuffixSkip(s: string, k: nat, s': string, k': nat)
    requires SameFrom(s, k, s', k')
    ensures Skip(s', k') - k' == Skip(s, k) - k && WordEnd(s', k') - k' == WordEnd(s, k) - k
    decreases |s| - k
  {
    if k < |s| {
      assert s'[k - k + k'] == s[k];
      SuffixSkip(s, k + 1, s', k' + 1);
    }
  }

  lemma SuffixAt(s: string, k: nat, s': string, k': nat, m: nat)
    requires SameFrom(s, k, s', k') && k + m <= |s|
    ensures k' + m <= |s'| && |s'| - k' == |s| - k && (k + m < |s| ==> s[k + m] == s'[k' + m])
    ensures Skip(s', k' + m) - k' == Skip(s, k + m) - k && WordEnd(s', k' + m) - k' == WordEnd(s, k + m) - k
    ensures SameFrom(s, k + m, s', k' + m)
  {
    assert k + m < |s| ==> s'[k + m - k + k'] == s[k + m];
    SuffixSkip(s, k + m, s', k' + m);
  }

  lemma SuffixText(s: string, k: nat, s': string, k': nat, a: nat, b: nat)
    requires SameFrom(s, k, s', k') && a <= b && k + b <= |s|
    ensures Word(s, Span(k + a, k + b)) == Word(s', Span(k' + a, k' + b))
  {
    var w, w' := s[k + a..k + b], s'[k' + a..k' + b];
    forall x | 0 <= x < b - a
      ensures w[x] == w'[x]
    {
      assert s'[(k + a + x) - k + k'] == s[k + a + x];
    }
  }

  /** The kind of the token that starts at q, and where it ends. */
  ghost function Extent(s: string, q: nat): (r: (char, nat))
    requires q <= |s|
    ensures q <= r.1 <= |s|
  {
    if q == |s| then ('\0', q)
    else if s[q] == '>' then (if q + 1 < |s| && s[q + 1] == '>' then ('+', q + 2) else ('>', q + 1))
    else if IsSymbol(s[q]) then (s[q], q + 1)
    else ('a', WordEnd(s, q))
  }

  lemma TokenIs(s: string, i: nat)
    requires i <= |s|
    ensures var q := Skip(s, i);
            TokenAt(s, i) == Token(Extent(s, q).0, q, Extent(s, q).1, Skip(s, Extent(s, q).1))
  {
  }

  lemma SuffixExtent(s: string, q: nat, s': string, q': nat)
    requires SameFrom(s, q, s', q')
    ensures q <= |s| && q' <= |s'|
    ensures Extent(s', q').0 == Extent(s, q).0 && Extent(s', q').1 - q' == Extent(s, q).1 - q
  {
    SuffixSkip(s, q, s', q');
    assert q < |s| ==> s'[q - q + q'] == s[q];
    assert q + 1 < |s| ==> s'[q + 1 - q + q'] == s[q + 1];
  }

  lemma SuffixToken(s: string, k: nat, s': string, k': nat)
    requires SameFrom(s, k, s', k')
    ensures k <= |s| && k' <= |s'|
    ensures var t, t' := TokenAt(s, k), TokenAt(s', k');
            && t'.kind == t.kind && t'.q - k' == t.q - k && t'.eq - k' == t.eq - k && t'.next - k' == t.next - k
            && Text(s, t) == Text(s', t')
  {
    hide SameFrom, Skip, WordEnd, Word, TokenAt, Extent;
    SuffixIn(s, k, s', k');
    SuffixAt(s, k, s', k', 0);
    var q := Skip(s, k) - k;
    SuffixAt(s, k, s', k', q);
    SuffixExtent(s, k + q, s', k' + q);
    var e := Extent(s, k + q).1 - k;
    SuffixAt(s, k, s', k', e);
    TokenIs(s, k);
    TokenIs(s', k');
    SuffixText(s, k, s', k', q, e);
  }

  lemma SuffixIn(s: string, k: nat, s': string, k': nat)
    requires SameFrom(s, k, s', k')
    ensures k <= |s| && k' <= |s'|
  {
  }

  lemma {:induction false} SuffixAlike(s: string, k: nat, s': string, k': nat)
    requires SameFrom(s, k, s', k')
    ensures Alike(s, k, s', k')
    decreases |s| - k
  {
    hide TokenAt, Word, Skip, WordEnd, SameFrom;
    SuffixIn(s, k, s', k');
    SuffixToken(s, k, s', k');
    TokenFacts(s, k, "");
    var t := TokenAt(s, k);
    if t.q < t.eq {
      SuffixAt(s, k, s', k', t.next - k);
      SuffixAlike(s, t.next, s', TokenAt(s', k').next);
    }
  }

  lemma {:induction false} SkipOver(s: string, a: nat, b: nat)
    requires a <= b <= |s| && forall m :: a <= m < b ==> IsSpace(s[m])
    ensures Skip(s, a) == Skip(s, b)
    decreases b - a
  {
    if a < b {
      SkipOver(s, a + 1, b);
    }
  }

  lemma {:induction false} WordTo(s: string, a: nat, b: nat)
    requires a <= b <= |s| && (forall m :: a <= m < b ==> IsWordChar(s[m])) && (b < |s| ==> !IsWordChar(s[b]))
    ensures WordEnd(s, a) == b
    decreases b - a
  {
    if a < b {
      WordTo(s, a + 1, b);
    }
  }

  /** Before the inserted character everything is as it was, and behind it everything too. */
  ghost predicate Inserted(s: string, i: nat, c: char, s': string) {
    && i <= |s| && |s'| == |s| + 1 && s'[i] == c
    && (forall m :: 0 <= m < i ==> s'[m] == s[m])
    && (forall m :: i <= m < |s| ==> s'[m - i + (i + 1)] == s[m])
  }

  /** A token that starts before i ends before it, and is the same in the new line. */
  lemma TokenBefore(s: string, i: nat, c: char, s': string, q: nat)
    requires Inserted(s, i, c, s') && Between(s, i) && IsSpace(c) && q < i && !IsSpace(s[q])
    ensures q < Extent(s, q).1 <= i && Extent(s', q) == Extent(s, q)
  {
    if IsWordChar(s[q]) {
      var e := WordEnd(s, q);
      assert e <= i;
      assert e < i ==> s'[e] == s[e];
      WordTo(s', q, e);
    } else {
      assert q + 1 < i ==> s'[q + 1] == s[q + 1];
    }
  }

  lemma InsertedAhead(s: string, i: nat, c: char, s': string, j: nat)
    requires Inserted(s, i, c, s') && IsSpace(c) && j <= i && Skip(s, j) >= i
    ensures Alike(s, j, s', j)
  {
    hide TokenAt, WordEnd, Alike, IsSpace;
    SkipOver(s, j, i);
    SkipOver(s', j, i + 1);
    SuffixAlike(s, i, s', i + 1);
    SkipAlike(s, i, s', i + 1);
    SkipAlike(s, j, s', j);
  }

  lemma SkipBefore(s: string, i: nat, c: char, s': string, j: nat)
    requires Inserted(s, i, c, s') && j <= i && Skip(s, j) < i
    ensures Skip(s', j) == Skip(s, j)
  {
    SkipOver(s', j, Skip(s, j));
  }

  lemma {:induction false} InsertedAlike(s: string, i: nat, c: char, s': string, j: nat)
    requires Inserted(s, i, c, s') && Between(s, i) && IsSpace(c) && j <= i
    ensures Alike(s, j, s', j)
    decreases i - j
  {
    hide TokenAt, WordEnd, Alike, IsSpace, Extent, Between;
    var q := Skip(s, j);
    if q >= i {
      InsertedAhead(s, i, c, s', j);
    } else {
      SkipBefore(s, i, c, s', j);
      TokenBefore(s, i, c, s', q);
      var e := Extent(s, q).1;
      InsertedAlike(s, i, c, s', e);
      AlikeByParts(s, j, s', j, q, e);
    }
  }

  lemma AlikeByParts(s: string, j: nat, s': string, j': nat, q: nat, e: nat)
    requires j <= |s| && j' <= |s'| && q == Skip(s, j) == Skip(s', j') && q < e <= |s| && e <= |s'|
    requires Extent(s, q) == Extent(s', q) && Extent(s, q).1 == e && Alike(s, e, s', e)
    requires forall m :: q <= m < e ==> s[m] == s'[m]
    ensures Alike(s, j, s', j')
  {
    hide TokenAt, Skip, WordEnd, Extent;
    TokenIs(s, j);
    TokenIs(s', j');
    SkipAlike(s, e, s', e);
    assert s[q..e] == s'[q..e];
  }

  /** White space between tokens makes no difference. */
  lemma SpaceIgnored(s: string, i: nat, c: char)
    requires Between(s, i) && IsSpace(c)
    ensures var r, r' := ParseCmd(s), ParseCmd(Spaced(s, i, c));
            if r.Ok? then r'.Ok? && Words(s, r.value) == Words(Spaced(s, i, c), r'.value) else r' == r
  {
    hide ParseCmd, Words, Alike, Between;
    BetweenIn(s, i);
    var s' := Spaced(s, i, c);
    assert forall m :: i <= m < |s| ==> s'[m - i + (i + 1)] == s[m];
    InsertedAlike(s, i, c, s', 0);
    SameTokens(s, s');
  }

  lemma BetweenIn(s: string, i: nat)
    requires Between(s, i)
    ensures i <= |s|
  {
  }

  /** s' is s with white space added between tokens, a character at a time. */
  ghost predicate Respaced(s: string, s': string, steps: seq<(nat, char)>)
    decreases |steps|
  {
    if steps == [] then s' == s
    else Between(s, steps[0].0) && IsSpace(steps[0].1) && Respaced(Spaced(s, steps[0].0, steps[0].1), s', steps[1..])
  }

  /** The round trip, however the line is spaced: the printed text of a tree with any white
      space added between its tokens parses back to that tree. */
  lemma {:induction false} RespacedParses(s: string, s': string, steps: seq<(nat, char)>, t: Cmd<string>)
    requires Respaced(s, s', steps) && ParseCmd(s).Ok? && Words(s, ParseCmd(s).value) == t
    ensures ParseCmd(s').Ok? && Words(s', ParseCmd(s').value) == t
    decreases |steps|
  {
    hide ParseCmd, Words, Spaced, Between;
    if steps != [] {
      BetweenIn(s, steps[0].0);
      SpaceIgnored(s, steps[0].0, steps[0].1);
      RespacedParses(Spaced(s, steps[0].0, steps[0].1), s', steps[1..], t);
    }
  }

  lemma SpacedRoundTrip(t: Cmd<string>, s': string, steps: seq<(nat, char)>)
    requires Printable(t) && Respaced(Print(t), s', steps)
    ensures ParseCmd(s').Ok? && Words(s', ParseCmd(s').value) == t
  {
    hide ParseCmd, Words, Print, Printable, Respaced;
    RoundTrip(t);
    RespacedParses(Print(t), s', steps, t);
  }
}
