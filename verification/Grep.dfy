/** The regular expression matcher of lab2/grep.c.

    A pattern is compiled, by the code's own precedence, to a list of atoms and
    an end anchor.  Its meaning is given by cutting a prefix of the text into one
    piece for each atom; the three matching procedures are proved to decide
    exactly that.  C strings are sequences here: the end stands for the NUL. */
module Grep {

  datatype Atom = One(c: char) | Star(c: char)

  datatype Regex = Regex(atoms: seq<Atom>, atEnd: bool)

  predicate CharOk(c: char, x: char) { c == '.' || c == x }

  predicate Fits(a: Atom, piece: string)
  {
    match a
    case One(c) => |piece| == 1 && CharOk(c, piece[0])
    case Star(c) => forall i :: 0 <= i < |piece| ==> CharOk(c, piece[i])
  }

  function Concat(pieces: seq<string>): string
  {
    if pieces == [] then "" else pieces[0] + Concat(pieces[1..])
  }

  /** A star after a character wins over a final dollar. */
  function Compile(re: string): Regex
  {
    if re == "" then Regex([], false)
    else if 2 <= |re| && re[1] == '*' then
      var rest := Compile(re[2..]);
      Regex([Star(re[0])] + rest.atoms, rest.atEnd)
    else if re == "$" then Regex([], true)
    else
      var rest := Compile(re[1..]);
      Regex([One(re[0])] + rest.atoms, rest.atEnd)
  }

  /** The pieces spell a prefix of the text, or all of it before an end anchor. */
  ghost predicate Cuts(r: Regex, text: string, pieces: seq<string>)
  {
    && |pieces| == |r.atoms|
    && (forall i :: 0 <= i < |pieces| ==> Fits(r.atoms[i], pieces[i]))
    && Concat(pieces) <= text
    && (r.atEnd ==> Concat(pieces) == text)
  }

  ghost predicate MatchesHere(r: Regex, text: string) { exists pieces :: Cuts(r, text, pieces) }

  /** What grep promises: at the start after a caret, else anywhere. */
  ghost predicate Matches(re: string, text: string)
  {
    if re != "" && re[0] == '^' then MatchesHere(Compile(re[1..]), text)
    else exists i :: 0 <= i <= |text| && MatchesHere(Compile(re), text[i..])
  }

  function Tail(r: Regex): Regex
    requires r.atoms != []
  {
    Regex(r.atoms[1..], r.atEnd)
  }

  /** The first atom takes a piece and the other atoms match what follows. */
  lemma SplitFirst(r: Regex, text: string)
    requires r.atoms != []
    ensures MatchesHere(r, text) <==>
            exists k :: 0 <= k <= |text| && Fits(r.atoms[0], text[..k]) && MatchesHere(Tail(r), text[k..])
  {
    if MatchesHere(r, text) {
      var pieces :| Cuts(r, text, pieces);
      var k := |pieces[0]|;
      var w := Concat(pieces[1..]);
      assert pieces[0] + w <= text;
      assert text[..k] == pieces[0];
      assert w == text[k..][..|w|] by { assert pieces[0] + w == text[..k + |w|]; }
      assert Cuts(Tail(r), text[k..], pieces[1..]);
    }
    if k :| 0 <= k <= |text| && Fits(r.atoms[0], text[..k]) && MatchesHere(Tail(r), text[k..]) {
      var rest :| Cuts(Tail(r), text[k..], rest);
      var pieces := [text[..k]] + rest;
      assert pieces[1..] == rest;
      var w := Concat(rest);
      assert text == text[..k] + text[k..];
      assert Concat(pieces) <= text;
      assert Cuts(r, text, pieces);
    }
  }

  lemma EmptyMatches(r: Regex, text: string)
    requires r.atoms == []
    ensures MatchesHere(r, text) <==> (r.atEnd ==> text == "")
  {
    if r.atEnd ==> text == "" {
      assert Concat([]) == "";
      assert Cuts(r, text, []);
    }
  }

  /** matchhere: search for re at the beginning of text. */
  method MatchHere(re: string, text: string) returns (found: bool)
    ensures found <==> MatchesHere(Compile(re), text)
    decreases |re|, 1
  {
    var r := Compile(re);
    if re == "" {
      EmptyMatches(r, text);
      return true;
    }
    if 2 <= |re| && re[1] == '*' {
      found := MatchStar(re[0], re[2..], text);
      assert Tail(r) == Compile(re[2..]);
      SplitFirst(r, text);
      return;
    }
    if re[0] == '$' && |re| == 1 {
      EmptyMatches(r, text);
      return text == "";
    }
    SplitFirst(r, text);
    assert Tail(r) == Compile(re[1..]);
    if text != "" && (re[0] == '.' || re[0] == text[0]) {
      found := MatchHere(re[1..], text[1..]);
      assert text[..1] == [text[0]];
    } else {
      found := false;
    }
  }

  /** matchstar: search for c*re at the beginning of text. */
  method MatchStar(c: char, re: string, text: string) returns (found: bool)
    ensures found <==> exists k :: 0 <= k <= |text| && Fits(Star(c), text[..k]) && MatchesHere(Compile(re), text[k..])
    decreases |re|, 2
  {
    var i := 0;
    while true
      invariant 0 <= i <= |text| && Fits(Star(c), text[..i])
      invariant forall k :: 0 <= k < i ==> !MatchesHere(Compile(re), text[k..])
      decreases |text| - i
    {
      found := MatchHere(re, text[i..]);
      if found { return; }
      if i == |text| || !(text[i] == c || c == '.') { break; }
      i := i + 1;
    }
    forall k | i < k <= |text| ensures !Fits(Star(c), text[..k]) {
      assert !CharOk(c, text[..k][i]);
    }
  }

  /** match: search for re anywhere in text, or at its start after a caret. */
  method Match(re: string, text: string) returns (found: bool)
    ensures found <==> Matches(re, text)
  {
    if re != "" && re[0] == '^' {
      found := MatchHere(re[1..], text);
      return;
    }
    var i := 0;
    while true
      invariant 0 <= i <= |text|
      invariant forall k :: 0 <= k < i ==> !MatchesHere(Compile(re), text[k..])
      decreases |text| - i
    {
      found := MatchHere(re, text[i..]);
      if found { return; }
      if i == |text| { break; }
      i := i + 1;
    }
  }

  // ------------------------------------------------------------------
  // What a pattern says, on its own text
  // ------------------------------------------------------------------

  /** A character and a star: any number of it, and then the rest. */
  lemma StarMeans(c: char, re: string, text: string)
    ensures MatchesHere(Compile([c, '*'] + re), text) <==>
            exists k :: 0 <= k <= |text| && AllAre(c, text[..k]) && MatchesHere(Compile(re), text[k..])
  {
    var r := Compile([c, '*'] + re);
    assert ([c, '*'] + re)[2..] == re;
    assert Tail(r) == Compile(re);
    SplitFirst(r, text);
  }

  predicate AllAre(c: char, s: string) { forall i :: 0 <= i < |s| ==> c == '.' || s[i] == c }

  /** A dot, or another character: that one, and then the rest. */
  lemma CharMeans(c: char, re: string, text: string)
    requires (re == "" ==> c != '$') && (re != "" ==> re[0] != '*')
    ensures MatchesHere(Compile([c] + re), text) <==>
            text != "" && (c == '.' || text[0] == c) && MatchesHere(Compile(re), text[1..])
  {
    var p := [c] + re;
    var r := Compile(p);
    assert p[1..] == re && p != "$" && (|p| >= 2 ==> p[1] == re[0]);
    assert Tail(r) == Compile(re);
    SplitFirst(r, text);
    if text != "" { assert text[..1] == [text[0]]; }
  }

  /** A final dollar: the end of the text. */
  lemma DollarMeans(text: string)
    ensures MatchesHere(Compile("$"), text) <==> text == ""
  {
    EmptyMatches(Compile("$"), text);
  }

  // ------------------------------------------------------------------
  // Plain patterns
  // ------------------------------------------------------------------

  predicate Plain(re: string) { forall i :: 0 <= i < |re| ==> re[i] !in {'^', '.', '*', '$'} }

  lemma {:induction false} PlainHere(re: string, text: string)
    requires Plain(re)
    ensures MatchesHere(Compile(re), text) <==> re <= text
    decreases |re|
  {
    var r := Compile(re);
    if re == "" {
      EmptyMatches(r, text);
    } else {
      SplitFirst(r, text);
      assert Tail(r) == Compile(re[1..]);
      assert r.atoms[0] == One(re[0]);
      if text != "" {
        PlainHere(re[1..], text[1..]);
        assert text[..1] == [text[0]];
        assert re == [re[0]] + re[1..] && text == [text[0]] + text[1..];
      }
    }
  }

  /** A pattern without operators is found exactly when it is a substring. */
  lemma PlainIsSubstring(re: string, text: string)
    requires Plain(re)
    ensures Matches(re, text) <==> exists i, j :: 0 <= i <= j <= |text| && text[i..j] == re
  {
    forall i | 0 <= i <= |text| ensures MatchesHere(Compile(re), text[i..]) <==> re <= text[i..] {
      PlainHere(re, text[i..]);
    }
    if i :| 0 <= i <= |text| && MatchesHere(Compile(re), text[i..]) {
      assert text[i..i + |re|] == text[i..][..|re|];
    }
    if i, j :| 0 <= i <= j <= |text| && text[i..j] == re {
      assert text[i..j] == text[i..][..j - i];
      assert MatchesHere(Compile(re), text[i..]);
    }
  }

  lemma {:induction false} PlainDollarHere(re: string, text: string)
    requires Plain(re)
    ensures MatchesHere(Compile(re + "$"), text) <==> re == text
    decreases |re|
  {
    if re == "" {
      assert re + "$" == "$";
      DollarMeans(text);
    } else {
      assert re + "$" == [re[0]] + (re[1..] + "$");
      CharMeans(re[0], re[1..] + "$", text);
      if text != "" {
        PlainDollarHere(re[1..], text[1..]);
        assert re == [re[0]] + re[1..] && text == [text[0]] + text[1..];
      }
    }
  }

  /** With a final dollar it must be the end of the text, with a caret the beginning. */
  lemma PlainAnchored(re: string, text: string)
    requires Plain(re) && re != ""
    ensures Matches(re + "$", text) <==> exists i :: 0 <= i <= |text| && text[i..] == re
    ensures Matches("^" + re, text) <==> re <= text
    ensures Matches("^" + re + "$", text) <==> re == text
  {
    forall i | 0 <= i <= |text| ensures MatchesHere(Compile(re + "$"), text[i..]) <==> text[i..] == re {
      PlainDollarHere(re, text[i..]);
    }
    assert ("^" + re)[1..] == re && ("^" + re + "$")[1..] == re + "$";
    PlainHere(re, text);
    PlainDollarHere(re, text);
  }
}
