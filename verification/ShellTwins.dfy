/** When two inputs of lab2/sh.c parse alike: `>>` means what `>` means, and every
    whitespace character means what a space means. */
module ShellTwins {
  import opened ShellSyntax

  // ------------------------------------------------------------------
  // Inputs that look alike from every position but k
  // ------------------------------------------------------------------

  ghost predicate AlikeAt(s: string, t: string, k: int, i: nat)
    requires i <= |s| == |t|
  {
    && SkipSpace(t, i) == SkipSpace(s, i) != k && (SkipSpace(s, i) < |s| ==> t[SkipSpace(s, i)] == s[SkipSpace(s, i)])
    && GetToken(t, i).next == GetToken(s, i).next != k
    && (GetToken(t, i) == GetToken(s, i) || (GetToken(s, i).kind == Append && GetToken(t, i).kind == Symbol('>')))
  }

  ghost predicate Alike(s: string, t: string, k: int)
  {
    |s| == |t| && forall i: nat :: i <= |s| && i != k ==> AlikeAt(s, t, k, i)
  }

  lemma {:induction false} RedirsSame(s: string, t: string, k: int, i: nat)
    requires Alike(s, t, k) && i <= |s| && i != k
    ensures ParseRedirs(t, i) == ParseRedirs(s, i)
    ensures ParseRedirs(s, i).Redirs? ==> ParseRedirs(s, i).pos != k
    decreases |s| - i
  {
    assert AlikeAt(s, t, k, i);
    if Peek(s, i, "<>") {
      var op := GetToken(s, i);
      assert AlikeAt(s, t, k, op.next);
      var file := GetToken(s, op.next);
      if file.kind == Word { RedirsSame(s, t, k, file.next); }
    }
  }

  ghost predicate Same(a: Result, b: Result, k: int) { a == b && (b.Ok? ==> b.pos != k) }

  lemma {:induction false} ArgsSame(s: string, t: string, k: int, i: nat, argv: seq<Span>, redirs: seq<RedirInfo>)
    requires Alike(s, t, k) && i <= |s| && i != k
    ensures Same(ParseArgs(t, i, argv, redirs), ParseArgs(s, i, argv, redirs), k)
    decreases |s| - i
  {
    assert AlikeAt(s, t, k, i);
    if !Peek(s, i, "|)&;") {
      var tok := GetToken(s, i);
      if tok.kind == Word && |argv| + 1 < MAXARGS {
        RedirsSame(s, t, k, tok.next);
        var r := ParseRedirs(s, tok.next);
        if r.Redirs? { ArgsSame(s, t, k, r.pos, argv + [tok.span], redirs + r.list); }
      }
    }
  }

  lemma {:induction false} BacksSame(s: string, t: string, k: int, i: nat, cmd: Cmd)
    requires Alike(s, t, k) && i <= |s| && i != k
    ensures ParseBacks(t, i, cmd) == ParseBacks(s, i, cmd) && ParseBacks(s, i, cmd).1 != k
    decreases |s| - i
  {
    assert AlikeAt(s, t, k, i);
    if Peek(s, i, "&") {
      BacksSame(s, t, k, GetToken(s, i).next, Back(cmd));
    }
  }

  lemma {:induction false} ExecSame(s: string, t: string, k: int, i: nat)
    requires Alike(s, t, k) && i <= |s| && i != k
    ensures Same(ParseExec(t, i), ParseExec(s, i), k)
    decreases |s| - i, 1
  {
    assert AlikeAt(s, t, k, i);
    if Peek(s, i, "(") {
      BlockSame(s, t, k, i);
    } else {
      RedirsSame(s, t, k, i);
      var r := ParseRedirs(s, i);
      if r.Redirs? { ArgsSame(s, t, k, r.pos, [], r.list); }
    }
  }

  lemma {:induction false} BlockSame(s: string, t: string, k: int, i: nat)
    requires Alike(s, t, k) && i <= |s| && i != k
    ensures Same(ParseBlock(t, i), ParseBlock(s, i), k)
    decreases |s| - i, 0
  {
    assert AlikeAt(s, t, k, i);
    if Peek(s, i, "(") {
      var j := GetToken(s, i).next;
      LineSame(s, t, k, j);
      var r := ParseLine(s, j);
      if r.Ok? {
        assert AlikeAt(s, t, k, r.pos);
        RedirsSame(s, t, k, GetToken(s, r.pos).next);
      }
    }
  }

  lemma {:induction false} PipeSame(s: string, t: string, k: int, i: nat)
    requires Alike(s, t, k) && i <= |s| && i != k
    ensures Same(ParsePipe(t, i), ParsePipe(s, i), k)
    decreases |s| - i, 2
  {
    ExecSame(s, t, k, i);
    var r := ParseExec(s, i);
    if r.Ok? {
      assert AlikeAt(s, t, k, r.pos);
      if Peek(s, r.pos, "|") {
        PipeSame(s, t, k, GetToken(s, r.pos).next);
      }
    }
  }

  lemma {:induction false} LineSame(s: string, t: string, k: int, i: nat)
    requires Alike(s, t, k) && i <= |s| && i != k
    ensures Same(ParseLine(t, i), ParseLine(s, i), k)
    decreases |s| - i, 3
  {
    PipeSame(s, t, k, i);
    var r := ParsePipe(s, i);
    if r.Ok? {
      BacksSame(s, t, k, r.pos, r.cmd);
      var (cmd, pos) := ParseBacks(s, r.pos, r.cmd);
      assert AlikeAt(s, t, k, pos);
      if Peek(s, pos, ";") {
        LineSame(s, t, k, GetToken(s, pos).next);
      }
    }
  }

  lemma ParseSame(s: string, t: string, k: int)
    requires Alike(s, t, k) && k != 0
    ensures ParseCmd(t) == ParseCmd(s)
  {
    LineSame(s, t, k, 0);
    var r := ParseLine(s, 0);
    if r.Ok? { assert AlikeAt(s, t, k, r.pos); }
  }

  // ------------------------------------------------------------------
  // `>>`
  // ------------------------------------------------------------------

  /** t is s with the second character of the `>>` at k blanked out. */
  predicate Twins(s: string, t: string, k: nat)
  {
    && k + 1 < |s| && s[k] == '>' && s[k + 1] == '>' && (k == 0 || s[k - 1] != '>')
    && t == s[k + 1 := ' ']
  }

  lemma {:induction false} SkipSame(s: string, t: string, k: nat, i: nat)
    requires Twins(s, t, k) && i <= |s| && i != k + 1
    ensures SkipSpace(t, i) == SkipSpace(s, i) != k + 1
    decreases |s| - i
  {
    if i < |s| && IsSpace(s[i]) { SkipSame(s, t, k, i + 1); }
  }

  lemma {:induction false} WordSame(s: string, t: string, k: nat, i: nat)
    requires Twins(s, t, k) && i <= |s| && i != k + 1
    ensures WordEnd(t, i) == WordEnd(s, i) != k + 1
    decreases |s| - i
  {
    if i < |s| && !IsSpace(s[i]) && !IsSymbol(s[i]) { WordSame(s, t, k, i + 1); }
  }

  lemma TokenThere(s: string, t: string, k: nat, i: nat)
    requires Twins(s, t, k) && i <= |s| && i != k + 1 && SkipSpace(s, i) == k
    ensures GetToken(s, i) == Token(Append, Span(k, k + 2), SkipSpace(s, k + 2))
    ensures GetToken(t, i) == Token(Symbol('>'), Span(k, k + 1), SkipSpace(s, k + 2))
  {
    SkipSame(s, t, k, i);
    SkipSame(s, t, k, k + 2);
    assert SkipSpace(t, k + 1) == SkipSpace(t, k + 2);
  }

  /** gettoken at a symbol, and at a word. */
  lemma SymbolToken(s: string, i: nat, q: nat)
    requires i <= |s| && q == SkipSpace(s, i) < |s| && IsSymbol(s[q])
    ensures var two := s[q] == '>' && q + 1 < |s| && s[q + 1] == '>';
            GetToken(s, i) == if two then Token(Append, Span(q, q + 2), SkipSpace(s, q + 2))
                              else Token(Symbol(s[q]), Span(q, q + 1), SkipSpace(s, q + 1))
  {
  }

  lemma WordToken(s: string, i: nat, q: nat)
    requires i <= |s| && q == SkipSpace(s, i) < |s| && !IsSymbol(s[q])
    ensures GetToken(s, i) == Token(Word, Span(q, WordEnd(s, q)), SkipSpace(s, WordEnd(s, q)))
  {
  }

  lemma SymbolSame(s: string, t: string, k: nat, i: nat, q: nat)
    requires Twins(s, t, k) && i <= |s| && q == SkipSpace(s, i) == SkipSpace(t, i) < |s| && q != k && q != k + 1 && IsSymbol(s[q])
    ensures GetToken(t, i) == GetToken(s, i) && GetToken(s, i).next != k + 1
  {
    SymbolToken(s, i, q);
    SymbolToken(t, i, q);
    var n: nat := if s[q] == '>' && q + 1 < |s| && s[q + 1] == '>' then q + 2 else q + 1;
    assert n != k + 1;
    SkipSame(s, t, k, n);
  }

  lemma WordTokenSame(s: string, t: string, k: nat, i: nat, q: nat)
    requires Twins(s, t, k) && i <= |s| && q == SkipSpace(s, i) == SkipSpace(t, i) < |s| && q != k + 1 && !IsSymbol(s[q])
    ensures GetToken(t, i) == GetToken(s, i) && GetToken(s, i).next != k + 1
  {
    WordToken(s, i, q);
    WordToken(t, i, q);
    WordSame(s, t, k, q);
    SkipSame(s, t, k, WordEnd(s, q));
  }

  /** The tokens are the same, but for the kind of the one at k. */
  lemma TokenSame(s: string, t: string, k: nat, i: nat)
    requires Twins(s, t, k) && i <= |s| && i != k + 1
    ensures GetToken(t, i).next == GetToken(s, i).next != k + 1
    ensures GetToken(t, i) == GetToken(s, i) || (GetToken(s, i).kind == Append && GetToken(t, i).kind == Symbol('>'))
  {
    SkipSame(s, t, k, i);
    var q := SkipSpace(s, i);
    if q == k {
      TokenThere(s, t, k, i);
    } else if q < |s| {
      if IsSymbol(s[q]) { SymbolSame(s, t, k, i, q); } else { WordTokenSame(s, t, k, i, q); }
    }
  }

  /** For every input: with a `>>` made a `>` the parse is the same, tree and spans, or the
      same panic. */
  lemma AppendIsOverwrite(s: string, k: nat)
    requires k + 1 < |s| && s[k] == '>' && s[k + 1] == '>' && (k == 0 || s[k - 1] != '>')
    ensures ParseCmd(s[k + 1 := ' ']) == ParseCmd(s)
  {
    var t, gap := s[k + 1 := ' '], k + 1;
    forall i: nat | i <= |s| && i != gap ensures AlikeAt(s, t, gap, i) {
      SkipSame(s, t, k, i);
      TokenSame(s, t, k, i);
    }
    ParseSame(s, t, gap);
  }

  // ------------------------------------------------------------------
  // Whitespace
  // ------------------------------------------------------------------

  /** t is s with some spaces replaced by others. */
  predicate Respaced(s: string, t: string)
  {
    |t| == |s| && forall i :: 0 <= i < |s| ==> t[i] == s[i] || (IsSpace(s[i]) && IsSpace(t[i]))
  }

  lemma {:induction false} SkipRespaced(s: string, t: string, i: nat)
    requires Respaced(s, t) && i <= |s|
    ensures SkipSpace(t, i) == SkipSpace(s, i)
    decreases |s| - i
  {
    if i < |s| && IsSpace(s[i]) { SkipRespaced(s, t, i + 1); }
  }

  lemma {:induction false} WordRespaced(s: string, t: string, i: nat)
    requires Respaced(s, t) && i <= |s|
    ensures WordEnd(t, i) == WordEnd(s, i)
    decreases |s| - i
  {
    if i < |s| && !IsSpace(s[i]) && !IsSymbol(s[i]) { WordRespaced(s, t, i + 1); }
  }

  lemma TokenRespaced(s: string, t: string, i: nat)
    requires Respaced(s, t) && i <= |s|
    ensures GetToken(t, i) == GetToken(s, i)
  {
    SkipRespaced(s, t, i);
    var q := SkipSpace(s, i);
    if q < |s| {
      if IsSymbol(s[q]) {
        SymbolToken(s, i, q);
        SymbolToken(t, i, q);
        SkipRespaced(s, t, q + 1);
        if q + 2 <= |s| { SkipRespaced(s, t, q + 2); }
      } else {
        WordToken(s, i, q);
        WordToken(t, i, q);
        WordRespaced(s, t, q);
        SkipRespaced(s, t, WordEnd(s, q));
      }
    }
  }

  /** For every input: a tab, carriage return, newline or vertical tab anywhere parses as a
      space there does. */
  lemma BlankIsSpace(s: string, k: nat)
    requires k < |s| && s[k] in {'\t', '\r', '\n', '\U{000B}'}
    ensures ParseCmd(s[k := ' ']) == ParseCmd(s)
  {
    var t, gap := s[k := ' '], -1;
    assert Respaced(s, t);
    forall i: nat | i <= |s| ensures AlikeAt(s, t, gap, i) {
      SkipRespaced(s, t, i);
      TokenRespaced(s, t, i);
    }
    ParseSame(s, t, gap);
  }
}
