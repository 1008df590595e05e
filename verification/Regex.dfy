/** The pattern matcher of user/grep.c, and what patterns mean. Strings are C strings:
    the terminating NUL is not part of the sequence. */
module Regex {

  /** A single-character test: '.' or a literal. */
  datatype Atom = Any | Chr(c: char)

  datatype Item = One(a: Atom) | Star(a: Atom)

  /** ^ and $ are anchors only at the two ends; anywhere else they are literals. */
  datatype Pattern = Pattern(start: bool, items: seq<Item>, end: bool)

  predicate Accepts(a: Atom, c: char) {
    a.Any? || a.c == c
  }

  function AtomOf(c: char): (a: Atom) {
    if c == '.' then Any else Chr(c)
  }

  /** Reading a pattern behind its start anchor: items, then an end anchor or not. */
  function ParseItems(re: string): (r: (seq<Item>, bool)) {
    if re == "" then ([], false)
    else if |re| > 1 && re[1] == '*' then
      var (items, end) := ParseItems(re[2..]);
      ([Star(AtomOf(re[0]))] + items, end)
    else if re == "$" then ([], true)
    else
      var (items, end) := ParseItems(re[1..]);
      ([One(AtomOf(re[0]))] + items, end)
  }

  function Parse(re: string): (p: Pattern) {
    var start := |re| > 0 && re[0] == '^';
    var (items, end) := ParseItems(if start then re[1..] else re);
    Pattern(start, items, end)
  }

  /** The language of a sequence of items. */
  ghost predicate InLanguage(items: seq<Item>, w: string) {
    if items == [] then w == ""
    else match items[0]
      case One(a) => w != "" && Accepts(a, w[0]) && InLanguage(items[1..], w[1..])
      case Star(a) => exists k :: 0 <= k <= |w| && AllAccepted(a, w[..k]) && InLanguage(items[1..], w[k..])
  }

  ghost predicate AllAccepted(a: Atom, w: string) {
    forall j :: 0 <= j < |w| ==> Accepts(a, w[j])
  }

  /** Some substring that the anchors allow is in the pattern's language. */
  ghost predicate Matches(p: Pattern, text: string) {
    exists i, j :: 0 <= i <= j <= |text| && (p.start ==> i == 0) && (p.end ==> j == |text|) &&
      InLanguage(p.items, text[i..j])
  }

  /** The same, for a substring at the beginning of the text. */
  ghost predicate MatchesHere(items: seq<Item>, end: bool, text: string) {
    exists j :: 0 <= j <= |text| && (end ==> j == |text|) && InLanguage(items, text[..j])
  }

  ghost predicate MatchesRest(re: string, text: string) {
    var (items, end) := ParseItems(re);
    MatchesHere(items, end, text)
  }

  lemma HereEmpty(end: bool, text: string)
    ensures MatchesHere([], end, text) <==> (end ==> text == "")
  {
    if end ==> text == "" {
      assert InLanguage([], text[..0]);
    }
  }

  lemma HereOne(a: Atom, items: seq<Item>, end: bool, text: string)
    ensures MatchesHere([One(a)] + items, end, text) <==>
              text != "" && Accepts(a, text[0]) && MatchesHere(items, end, text[1..])
  {
    var all := [One(a)] + items;
    assert all[1..] == items;
    if j :| 0 <= j <= |text| && (end ==> j == |text|) && InLanguage(all, text[..j]) {
      assert text[..j][1..] == text[1..][..j - 1];
    }
    if text != "" && Accepts(a, text[0]) && MatchesHere(items, end, text[1..]) {
      var j :| 0 <= j <= |text[1..]| && (end ==> j == |text[1..]|) && InLanguage(items, text[1..][..j]);
      assert text[..j + 1][1..] == text[1..][..j];
      assert InLanguage(all, text[..j + 1]);
    }
  }

  lemma HereStar(a: Atom, items: seq<Item>, end: bool, text: string)
    ensures MatchesHere([Star(a)] + items, end, text) <==>
              exists k :: 0 <= k <= |text| && AllAccepted(a, text[..k]) && MatchesHere(items, end, text[k..])
  {
    var all := [Star(a)] + items;
    assert all[1..] == items;
    if j :| 0 <= j <= |text| && (end ==> j == |text|) && InLanguage(all, text[..j]) {
      var k :| 0 <= k <= j && AllAccepted(a, text[..j][..k]) && InLanguage(items, text[..j][k..]);
      assert text[..j][..k] == text[..k] && text[..j][k..] == text[k..][..j - k];
      assert MatchesHere(items, end, text[k..]);
    }
    if k :| 0 <= k <= |text| && AllAccepted(a, text[..k]) && MatchesHere(items, end, text[k..]) {
      var j :| 0 <= j <= |text[k..]| && (end ==> j == |text[k..]|) && InLanguage(items, text[k..][..j]);
      assert text[..k + j][..k] == text[..k] && text[..k + j][k..] == text[k..][..j];
      assert InLanguage(all, text[..k + j]);
    }
  }

  /** One step of matchhere, in each of its four branches. */
  lemma RestStep(re: string, text: string)
    requires re != ""
    ensures |re| > 1 && re[1] == '*' ==>
              (MatchesRest(re, text) <==>
                 exists k :: 0 <= k <= |text| && AllAccepted(AtomOf(re[0]), text[..k]) &&
                   MatchesRest(re[2..], text[k..]))
    ensures re == "$" ==> (MatchesRest(re, text) <==> text == "")
    ensures !(|re| > 1 && re[1] == '*') && re != "$" ==>
              (MatchesRest(re, text) <==>
                text != "" && Accepts(AtomOf(re[0]), text[0]) && MatchesRest(re[1..], text[1..]))
  {
    if |re| > 1 && re[1] == '*' {
      var (items, end) := ParseItems(re[2..]);
      HereStar(AtomOf(re[0]), items, end, text);
    } else if re == "$" {
      HereEmpty(true, text);
    } else {
      var (items, end) := ParseItems(re[1..]);
      HereOne(AtomOf(re[0]), items, end, text);
    }
  }

  /** A pattern matches somewhere when it matches at the start of some suffix. */
  lemma MatchesSomewhere(re: string, text: string)
    ensures var p := Parse(re);
            var rest := if p.start then re[1..] else re;
            Matches(p, text) <==> exists i :: 0 <= i <= |text| && (p.start ==> i == 0) && MatchesRest(rest, text[i..])
  {
    var p := Parse(re);
    var rest := if p.start then re[1..] else re;
    if i, j :|
         0 <= i <= j <= |text| && (p.start ==> i == 0) && (p.end ==> j == |text|) && InLanguage(p.items, text[i..j]) {
      assert text[i..j] == text[i..][..j - i];
      assert MatchesRest(rest, text[i..]);
    }
    if i :| 0 <= i <= |text| && (p.start ==> i == 0) && MatchesRest(rest, text[i..]) {
      var j :| 0 <= j <= |text[i..]| && (p.end ==> j == |text[i..]|) && InLanguage(p.items, text[i..][..j]);
      assert text[i..i + j] == text[i..][..j];
    }
  }

  // Patterns read as texts.

  /** The text starts with re, where '.' stands for any character. */
  predicate Fits(re: string, text: string) {
    |re| <= |text| && forall k :: 0 <= k < |re| ==> re[k] == '.' || re[k] == text[k]
  }

  lemma FitsStep(re: string, text: string)
    requires re != ""
    ensures Fits(re, text) <==> text != "" && (re[0] == '.' || re[0] == text[0]) && Fits(re[1..], text[1..])
  {
    if text != "" && (re[0] == '.' || re[0] == text[0]) && Fits(re[1..], text[1..]) {
      forall k | 0 <= k < |re|
        ensures re[k] == '.' || re[k] == text[k]
      {
        if k > 0 {
          assert re[k] == re[1..][k - 1] && text[k] == text[1..][k - 1];
        }
      }
    }
  }

  /** Without stars and anchors a pattern matches what fits it. */
  lemma {:induction false} PlainRest(re: string, text: string)
    requires '*' !in re && (re != "" ==> re[|re| - 1] != '$')
    ensures MatchesRest(re, text) <==> Fits(re, text)
  {
    if re == "" {
      HereEmpty(false, text);
    } else {
      RestStep(re, text);
      FitsStep(re, text);
      assert |re| > 1 ==> re[1..][|re| - 2] == re[|re| - 1];
      if text != "" {
        PlainRest(re[1..], text[1..]);
      }
    }
  }

  /** So grep without stars and anchors looks for a substring, with '.' for any character. */
  lemma PlainMatches(re: string, text: string)
    requires '*' !in re && (re != "" ==> re[0] != '^' && re[|re| - 1] != '$')
    ensures Matches(Parse(re), text) <==> exists i :: 0 <= i <= |text| && Fits(re, text[i..])
  {
    hide MatchesRest, Matches, Fits;
    MatchesSomewhere(re, text);
    forall i | 0 <= i <= |text|
      ensures MatchesRest(re, text[i..]) <==> Fits(re, text[i..])
    {
      PlainRest(re, text[i..]);
    }
  }

  lemma {:induction false} AnchoredRest(re: string, text: string)
    requires '*' !in re
    ensures MatchesRest(re + "$", text) <==> |re| == |text| && Fits(re, text)
  {
    RestStep(re + "$", text);
    if re == "" {
      assert re + "$" == "$";
    } else {
      FitsStep(re, text);
      assert (re + "$")[1..] == re[1..] + "$";
      if text != "" {
        AnchoredRest(re[1..], text[1..]);
      }
    }
  }

  /** Between ^ and $ it is for the whole text. */
  lemma AnchoredMatches(re: string, text: string)
    requires '*' !in re
    ensures Matches(Parse("^" + re + "$"), text) <==> |re| == |text| && Fits(re, text)
  {
    hide MatchesRest, Matches, Fits;
    var all := "^" + re + "$";
    MatchesSomewhere(all, text);
    assert all[1..] == re + "$" && text[0..] == text;
    AnchoredRest(re, text);
  }

  /** c* stands for any number of the character c, or of any characters if c is '.'. */
  lemma StarMatches(c: char, text: string)
    ensures Matches(Parse("^" + [c] + "*$"), text) <==> c == '.' || forall j :: 0 <= j < |text| ==> text[j] == c
  {
    hide MatchesRest, Matches;
    var all, re := "^" + [c] + "*$", [c] + "*$";
    MatchesSomewhere(all, text);
    assert all[1..] == re && text[0..] == text && re[2..] == "$";
    RestStep(re, text);
    assert AllAccepted(AtomOf(c), text) <==> c == '.' || forall j :: 0 <= j < |text| ==> text[j] == c;
    forall k | 0 <= k <= |text|
      ensures MatchesRest("$", text[k..]) <==> k == |text|
    {
      RestStep("$", text[k..]);
    }
    assert text[..|text|] == text;
  }

  // The code. A read of a C string at its end yields NUL; reads beyond it do not happen.

  predicate CString(s: string) {
    '\0' !in s
  }

  function At(s: string, i: nat): (c: char)
    requires i <= |s|
  {
    if i == |s| then '\0' else s[i]
  }

  /** matchhere. */
  method MatchHere(re: string, text: string) returns (b: bool)
    requires CString(re) && CString(text)
    ensures b <==> MatchesRest(re, text)
    decreases |re|, 0
  {
    if At(re, 0) == '\0' {
      HereEmpty(false, text);
      return true;
    }
    RestStep(re, text);
    if At(re, 1) == '*' {
      b := MatchStar(re[0], re[2..], text);
      return;
    }
    if re[0] == '$' && At(re, 1) == '\0' {
      assert re == "$";
      return At(text, 0) == '\0';
    }
    if At(text, 0) != '\0' && (re[0] == '.' || re[0] == text[0]) {
      b := MatchHere(re[1..], text[1..]);
      return;
    }
    return false;
  }

  /** matchstar. */
  method MatchStar(c: char, re: string, text: string) returns (b: bool)
    requires CString(re) && CString(text)
    ensures b <==> exists k :: 0 <= k <= |text| && AllAccepted(AtomOf(c), text[..k]) && MatchesRest(re, text[k..])
    decreases |re|, 1
  {
    var k := 0;
    while true
      invariant 0 <= k <= |text| && AllAccepted(AtomOf(c), text[..k])
      invariant forall i :: 0 <= i < k ==> !MatchesRest(re, text[i..])
      decreases |text| - k
    {
      b := MatchHere(re, text[k..]);
      if b {
        return;
      }
      if !(At(text, k) != '\0' && (text[k] == c || c == '.')) {
        break;
      }
      k := k + 1;
    }
    assert forall i :: k < i <= |text| ==> !AllAccepted(AtomOf(c), text[..i]) by {
      forall i | k < i <= |text| ensures !AllAccepted(AtomOf(c), text[..i]) { assert text[..i][k] == text[k]; }
    }
  }

  /** match: exactly the texts that the pattern describes. */
  method Match(re: string, text: string) returns (b: bool)
    requires CString(re) && CString(text)
    ensures b <==> Matches(Parse(re), text)
  {
    MatchesSomewhere(re, text);
    if At(re, 0) == '^' {
      b := MatchHere(re[1..], text);
      assert text[0..] == text;
      return;
    }
    var k := 0;
    while true
      invariant 0 <= k <= |text|
      invariant forall i :: 0 <= i < k ==> !MatchesRest(re, text[i..])
      decreases |text| - k
    {
      b := MatchHere(re, text[k..]);
      if b {
        return;
      }
      if At(text, k) == '\0' {
        break;
      }
      k := k + 1;
    }
  }
}
