/** Printing command trees, and the parser's behaviour on printed tokens. */
module ShellPrint {
  import opened ShellSyntax
  import opened ShellSpans

  /** A command tree with its words, without places in a buffer. */
  datatype Tree =
    | TExec(argv: seq<string>)
    | TRedir(tree: Tree, file: string, mode: int, fd: int)
    | TPipe(left: Tree, right: Tree)
    | TList(left: Tree, right: Tree)
    | TBack(tree: Tree)

  function Sub(s: string, w: Span): string
  {
    if w.start <= w.end <= |s| then s[w.start..w.end] else ""
  }

  function SubAll(s: string, ws: seq<Span>): (r: seq<string>)
    ensures |r| == |ws|
  {
    seq(|ws|, i requires 0 <= i < |ws| => Sub(s, ws[i]))
  }

  function Erase(s: string, c: Cmd): Tree
  {
    match c
    case Exec(argv) => TExec(SubAll(s, argv))
    case Redir(cmd, file, mode, fd) => TRedir(Erase(s, cmd), Sub(s, file), mode, fd)
    case Pipe(l, r) => TPipe(Erase(s, l), Erase(s, r))
    case List(l, r) => TList(Erase(s, l), Erase(s, r))
    case Back(cmd) => TBack(Erase(s, cmd))
  }

  predicate IsWord(w: string) { w != "" && forall i :: 0 <= i < |w| ==> IsWordChar(w[i]) }

  predicate AllWords(ws: seq<string>) { forall i :: 0 <= i < |ws| ==> IsWord(ws[i]) }

  /** The trees the shell can express: plain words, fewer than MAXARGS of them in
      one command. */
  predicate WellFormed(t: Tree)
  {
    match t
    case TExec(argv) => |argv| < MAXARGS && AllWords(argv)
    case TRedir(tree, file, mode, fd) => WellFormed(tree) && IsWord(file) && RedirKind(mode, fd)
    case TPipe(l, r) => WellFormed(l) && WellFormed(r)
    case TList(l, r) => WellFormed(l) && WellFormed(r)
    case TBack(tree) => WellFormed(tree)
  }

  // ------------------------------------------------------------------
  // Printing
  // ------------------------------------------------------------------

  datatype Tok = W(word: string) | S(c: char)

  predicate TokOk(t: Tok) { if t.W? then IsWord(t.word) else IsSymbol(t.c) }

  predicate ToksOk(ts: seq<Tok>) { forall i :: 0 <= i < |ts| ==> TokOk(ts[i]) }

  function TokText(t: Tok): string { if t.W? then t.word else [t.c] }

  /** Each token is followed by a space. */
  function Text(ts: seq<Tok>): string
  {
    if ts == [] then "" else TokText(ts[0]) + " " + Text(ts[1..])
  }

  function WordToks(ws: seq<string>): (r: seq<Tok>)
    ensures |r| == |ws|
  {
    seq(|ws|, i requires 0 <= i < |ws| => W(ws[i]))
  }

  function RedirToks(file: string, mode: int): seq<Tok>
  {
    [S(if mode == O_RDONLY then '<' else '>'), W(file)]
  }

  /** A compound command goes in parentheses where a simple one is expected. */
  function Atom(t: Tree): seq<Tok>
    decreases t, 1
  {
    if t.TExec? || t.TRedir? then Line(t) else [S('(')] + Line(t) + [S(')')]
  }

  function Line(t: Tree): seq<Tok>
    decreases t, 0
  {
    match t
    case TExec(argv) => WordToks(argv)
    case TRedir(tree, file, mode, _) => Atom(tree) + RedirToks(file, mode)
    case TPipe(l, r) => Atom(l) + [S('|')] + Atom(r)
    case TList(l, r) => Atom(l) + [S(';')] + Atom(r)
    case TBack(tree) => Atom(tree) + [S('&')]
  }

  function Print(t: Tree): string { Text(Line(t)) }

  lemma {:induction false} PrintedOk(t: Tree)
    requires WellFormed(t)
    ensures ToksOk(Line(t)) && ToksOk(Atom(t))
    decreases t
  {
    match t
    case TExec(argv) =>
    case TRedir(tree, file, mode, fd) => PrintedOk(tree);
    case TPipe(l, r) => PrintedOk(l); PrintedOk(r);
    case TList(l, r) => PrintedOk(l); PrintedOk(r);
    case TBack(tree) => PrintedOk(tree);
  }

  // ------------------------------------------------------------------
  // Reading printed tokens
  // ------------------------------------------------------------------

  /** From place i on, the text is these tokens. */
  predicate At(s: string, i: nat, ts: seq<Tok>)
  {
    i <= |s| && s[i..] == Text(ts) && ToksOk(ts)
  }

  lemma {:induction false} TextNoNul(ts: seq<Tok>)
    requires ToksOk(ts)
    ensures NoNul(Text(ts))
    decreases |ts|
  {
    if ts != [] {
      TextNoNul(ts[1..]);
      assert TokOk(ts[0]);
    }
  }

  function First(t: Tok): char
    requires TokOk(t)
  {
    TokText(t)[0]
  }

  lemma AtStart(s: string, i: nat, ts: seq<Tok>)
    requires At(s, i, ts)
    ensures SkipSpace(s, i) == i && (i == |s| <==> ts == [])
    ensures ts != [] ==> i < |s| && s[i] == First(ts[0])
  {
    if ts != [] {
      assert TokOk(ts[0]);
      assert s[i..][0] == TokText(ts[0])[0];
    }
  }

  lemma PeekAt(s: string, i: nat, ts: seq<Tok>, toks: string)
    requires At(s, i, ts)
    ensures Peek(s, i, toks) <==> ts != [] && First(ts[0]) in toks
  {
    AtStart(s, i, ts);
  }

  /** Where the first token, the space after it and the other tokens stand. */
  lemma TokenText(s: string, i: nat, ts: seq<Tok>)
    requires At(s, i, ts) && ts != []
    ensures var n := |TokText(ts[0])|;
            n > 0 && i + n < |s| && s[i..i + n] == TokText(ts[0]) && s[i + n] == ' ' && At(s, i + n + 1, ts[1..])
  {
    var w, rest := TokText(ts[0]), Text(ts[1..]);
    var n := |w|;
    assert TokOk(ts[0]);
    var u := s[i..];
    assert u == w + " " + rest;
    assert u[..n] == w && u[n] == ' ' && u[n + 1..] == rest;
    assert s[i..i + n] == u[..n] && s[i + n] == u[n] && s[i + n + 1..] == u[n + 1..];
  }

  lemma {:induction false} WordEndIs(s: string, i: nat, j: nat)
    requires i <= j < |s| && IsSpace(s[j]) && forall k :: i <= k < j ==> IsWordChar(s[k])
    ensures WordEnd(s, i) == j
    decreases j - i
  {
    if i < j {
      WordEndIs(s, i + 1, j);
    }
  }

  /** A token and the space after it are read as one token. */
  lemma TokenAt(s: string, i: nat, ts: seq<Tok>)
    requires At(s, i, ts) && ts != []
    ensures var n := |TokText(ts[0])|;
            && i + n < |s| && s[i..i + n] == TokText(ts[0]) && At(s, i + n + 1, ts[1..])
            && GetToken(s, i) == Token(if ts[0].W? then Word else Symbol(ts[0].c), Span(i, i + n), i + n + 1)
  {
    var n := |TokText(ts[0])|;
    TokenText(s, i, ts);
    assert TokOk(ts[0]);
    AtStart(s, i, ts);
    AtStart(s, i + n + 1, ts[1..]);
    assert SkipSpace(s, i + n) == i + n + 1;
    if ts[0].W? {
      forall k | i <= k < i + n ensures IsWordChar(s[k]) {
        assert s[k] == s[i..i + n][k - i];
      }
      WordEndIs(s, i, i + n);
    }
  }
}
