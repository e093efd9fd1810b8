/** Parsing what was printed gives back the tree. */
module ShellRoundTrip {
  import opened ShellSyntax
  import opened ShellSpans
  import opened ShellPrint

  /** A redirection as it is printed. */
  datatype Redirection = Redirection(file: string, mode: int, fd: int)

  predicate ListOk(list: seq<Redirection>)
  {
    forall i :: 0 <= i < |list| ==> IsWord(list[i].file) && RedirKind(list[i].mode, list[i].fd)
  }

  function ListToks(list: seq<Redirection>): seq<Tok>
  {
    if list == [] then [] else RedirToks(list[0].file, list[0].mode) + ListToks(list[1..])
  }

  /** The command under the redirections, and the redirections, innermost first. */
  function Base(t: Tree): Tree { if t.TRedir? then Base(t.tree) else t }

  function ListOf(t: Tree): seq<Redirection>
  {
    if t.TRedir? then ListOf(t.tree) + [Redirection(t.file, t.mode, t.fd)] else []
  }

  function Around(t: Tree, list: seq<Redirection>): Tree
    decreases |list|
  {
    if list == [] then t
    else
      var last := list[|list| - 1];
      TRedir(Around(t, list[..|list| - 1]), last.file, last.mode, last.fd)
  }

  lemma {:induction false} ListToksAppend(a: seq<Redirection>, x: Redirection)
    ensures ListToks(a + [x]) == ListToks(a) + RedirToks(x.file, x.mode)
    decreases |a|
  {
    if a != [] {
      assert (a + [x])[1..] == a[1..] + [x];
      ListToksAppend(a[1..], x);
    }
  }

  lemma {:induction false} AtomSplits(t: Tree)
    requires WellFormed(t)
    ensures Atom(t) == Atom(Base(t)) + ListToks(ListOf(t))
    ensures Around(Base(t), ListOf(t)) == t && ListOk(ListOf(t)) && WellFormed(Base(t)) && !Base(t).TRedir?
    decreases t
  {
    if t.TRedir? {
      AtomSplits(t.tree);
      var x := Redirection(t.file, t.mode, t.fd);
      ListToksAppend(ListOf(t.tree), x);
      assert ListOf(t)[..|ListOf(t)| - 1] == ListOf(t.tree);
    }
  }

  /** The redirections the parser found are these. */
  predicate Found(s: string, infos: seq<RedirInfo>, list: seq<Redirection>)
  {
    |infos| == |list| && forall i :: 0 <= i < |list| ==> FoundOne(s, infos[i], list[i])
  }

  lemma {:induction false} EraseWrap(s: string, c: Cmd, infos: seq<RedirInfo>, list: seq<Redirection>)
    requires Found(s, infos, list)
    ensures Erase(s, Wrap(c, infos)) == Around(Erase(s, c), list)
    decreases |list|
  {
    if list != [] {
      EraseWrap(s, c, infos[..|infos| - 1], list[..|list| - 1]);
    }
  }

  /** What may follow a list of redirections. */
  predicate NoRedir(rest: seq<Tok>) { rest == [] || (rest[0] != S('<') && rest[0] != S('>')) }

  predicate FoundOne(s: string, info: RedirInfo, x: Redirection)
  {
    Sub(s, info.file) == x.file && info.mode == x.mode && info.fd == x.fd
  }

  /** One printed redirection, read. */
  lemma OneRedir(s: string, i: nat, x: Redirection, rest: seq<Tok>)
    requires At(s, i, RedirToks(x.file, x.mode) + rest) && IsWord(x.file) && RedirKind(x.mode, x.fd)
    ensures Peek(s, i, "<>")
    ensures var op := GetToken(s, i);
            var file := GetToken(s, op.next);
            file.kind == Word && FoundOne(s, RedirOf(op.kind, file.span), x) && At(s, file.next, rest)
  {
    var ts := RedirToks(x.file, x.mode) + rest;
    RedirSplit(x, rest);
    PeekAt(s, i, ts, "<>");
    TokenAt(s, i, ts);
    FileToken(s, GetToken(s, i).next, x.file, ts[1..], rest);
  }

  lemma FileToken(s: string, i: nat, file: string, ts: seq<Tok>, rest: seq<Tok>)
    requires At(s, i, ts) && ts != [] && ts[0] == W(file) && ts[1..] == rest
    ensures var t := GetToken(s, i); t.kind == Word && Sub(s, t.span) == file && At(s, t.next, rest)
  {
    TokenAt(s, i, ts);
  }

  lemma RedirSplit(x: Redirection, rest: seq<Tok>)
    ensures var ts, op := RedirToks(x.file, x.mode) + rest, RedirToks(x.file, x.mode)[0];
            ts[0] == op && ts[1..] == [W(x.file)] + rest && ts[1..][0] == W(x.file) && ts[1..][1..] == rest
  {
  }

  lemma NoRedirs(s: string, i: nat, rest: seq<Tok>)
    requires At(s, i, rest) && NoRedir(rest)
    ensures ParseRedirs(s, i) == Redirs([], i)
  {
    PeekAt(s, i, rest, "<>");
    AtStart(s, i, rest);
    if rest != [] { assert TokOk(rest[0]); }
  }

  ghost predicate RedirsFound(s: string, r: RedirResult, list: seq<Redirection>, rest: seq<Tok>)
  {
    r.Redirs? && Found(s, r.list, list) && At(s, r.pos, rest)
  }

  lemma FoundMore(s: string, info: RedirInfo, infos: seq<RedirInfo>, list: seq<Redirection>)
    requires list != [] && FoundOne(s, info, list[0]) && Found(s, infos, list[1..])
    ensures Found(s, [info] + infos, list)
  {
    forall k | 0 <= k < |list| ensures FoundOne(s, ([info] + infos)[k], list[k]) {
      if k > 0 { assert list[k] == list[1..][k - 1]; }
    }
  }

  lemma {:induction false} RedirsBack(s: string, i: nat, list: seq<Redirection>, rest: seq<Tok>)
    requires At(s, i, ListToks(list) + rest) && ListOk(list) && NoRedir(rest)
    ensures RedirsFound(s, ParseRedirs(s, i), list, rest)
    decreases |list|
  {
    if list == [] {
      assert ListToks(list) + rest == rest;
      NoRedirs(s, i, rest);
    } else {
      assert ListToks(list) + rest == RedirToks(list[0].file, list[0].mode) + (ListToks(list[1..]) + rest);
      OneRedir(s, i, list[0], ListToks(list[1..]) + rest);
      var op := GetToken(s, i);
      var file := GetToken(s, op.next);
      RedirsBack(s, file.next, list[1..], rest);
      FoundMore(s, RedirOf(op.kind, file.span), ParseRedirs(s, file.next).list, list);
    }
  }

  /** What may follow a simple command. */
  predicate Stops(rest: seq<Tok>) { rest == [] || rest[0] in {S('|'), S(')'), S('&'), S(';')} }

  ghost predicate ArgsFound(s: string, r: Result, argv: seq<string>, list: seq<Redirection>, rest: seq<Tok>)
  {
    r.Ok? && Erase(s, r.cmd) == Around(TExec(argv), list) && At(s, r.pos, rest)
  }

  /** One printed word, read by the loop of parseexec. */
  lemma OneWord(s: string, i: nat, w: string, rest: seq<Tok>)
    requires At(s, i, [W(w)] + rest) && IsWord(w)
    ensures !Peek(s, i, "|)&;")
    ensures var t := GetToken(s, i); t.kind == Word && Sub(s, t.span) == w && At(s, t.next, rest)
  {
    var ts := [W(w)] + rest;
    PeekAt(s, i, ts, "|)&;");
    TokenAt(s, i, ts);
    assert ts[1..] == rest;
  }

  lemma ArgsEnd(s: string, i: nat, rest: seq<Tok>, argv: seq<Span>, infos: seq<RedirInfo>, list: seq<Redirection>)
    requires At(s, i, rest) && Stops(rest) && Found(s, infos, list)
    ensures ArgsFound(s, ParseArgs(s, i, argv, infos), SubAll(s, argv), list, rest)
  {
    PeekAt(s, i, rest, "|)&;");
    AtStart(s, i, rest);
    if rest != [] { assert TokOk(rest[0]); }
    EraseWrap(s, Exec(argv), infos, list);
  }

  lemma SubAllStep(s: string, argv: seq<Span>, w: Span, ws: seq<string>)
    requires ws != [] && Sub(s, w) == ws[0]
    ensures SubAll(s, argv + [w]) + ws[1..] == SubAll(s, argv) + ws
  {
    assert SubAll(s, argv + [w]) == SubAll(s, argv) + [ws[0]];
  }

  lemma FoundBoth(s: string, a: seq<RedirInfo>, la: seq<Redirection>, b: seq<RedirInfo>, lb: seq<Redirection>)
    requires Found(s, a, la) && Found(s, b, lb)
    ensures Found(s, a + b, la + lb)
  {
    forall k | 0 <= k < |la + lb| ensures FoundOne(s, (a + b)[k], (la + lb)[k]) {
      if k < |la| { assert FoundOne(s, a[k], la[k]); } else { assert FoundOne(s, b[k - |la|], lb[k - |la|]); }
    }
  }

  lemma SplitList(before: seq<Redirection>, list: seq<Redirection>, now: bool)
    ensures before + (if now then list else []) + (if now then [] else list) == before + list
  {
  }

  /** One turn of the loop of parseexec. */
  lemma ArgsTurn(s: string, i: nat, argv: seq<Span>, infos: seq<RedirInfo>, t: Token, more: RedirResult)
    requires i <= |s| && !Peek(s, i, "|)&;") && t == GetToken(s, i) && t.kind == Word && |argv| + 1 < MAXARGS
    requires more == ParseRedirs(s, t.next) && more.Redirs?
    ensures ParseArgs(s, i, argv, infos) == ParseArgs(s, more.pos, argv + [t.span], infos + more.list)
  {
  }

  /** The loop of parseexec on words, the last of them followed by redirections. */
  lemma {:induction false} ArgsBack(s: string, i: nat, ws: seq<string>, list: seq<Redirection>, rest: seq<Tok>,
                                    argv: seq<Span>, infos: seq<RedirInfo>, before: seq<Redirection>)
    requires At(s, i, WordToks(ws) + (ListToks(list) + rest)) && AllWords(ws) && ListOk(list) && Stops(rest)
    requires |argv| + |ws| < MAXARGS && Found(s, infos, before) && (ws == [] ==> list == [])
    ensures ArgsFound(s, ParseArgs(s, i, argv, infos), SubAll(s, argv) + ws, before + list, rest)
    decreases |ws|
  {
    if ws == [] {
      assert WordToks(ws) + (ListToks(list) + rest) == rest;
      assert before + list == before && SubAll(s, argv) + ws == SubAll(s, argv);
      ArgsEnd(s, i, rest, argv, infos, before);
    } else {
      var tail := ws[1..];
      var here, later := if tail == [] then list else [], if tail == [] then [] else list;
      var after := WordToks(tail) + (ListToks(later) + rest);
      WordsSplit(ws, list, rest);
      OneWord(s, i, ws[0], ListToks(here) + after);
      var t := GetToken(s, i);
      RedirsBack(s, t.next, here, after);
      var more := ParseRedirs(s, t.next);
      SubAllStep(s, argv, t.span, ws);
      FoundBoth(s, infos, before, more.list, here);
      SplitList(before, list, tail == []);
      ArgsTurn(s, i, argv, infos, t, more);
      ArgsBack(s, more.pos, tail, later, rest, argv + [t.span], infos + more.list, before + here);
    }
  }

  /** The redirections come after the last word. */
  lemma WordsSplit(ws: seq<string>, list: seq<Redirection>, rest: seq<Tok>)
    requires ws != [] && Stops(rest)
    ensures var tail := ws[1..];
            var here, later := if tail == [] then list else [], if tail == [] then [] else list;
            var after := WordToks(tail) + (ListToks(later) + rest);
            WordToks(ws) + (ListToks(list) + rest) == [W(ws[0])] + (ListToks(here) + after) && NoRedir(after)
  {
    assert WordToks(ws) == [W(ws[0])] + WordToks(ws[1..]);
    if |ws| == 1 { LastWord(ws, list, rest); } else { NotLastWord(ws, list, rest); }
  }

  lemma LastWord(ws: seq<string>, list: seq<Redirection>, rest: seq<Tok>)
    requires |ws| == 1 && Stops(rest)
    ensures ws[1..] == [] && WordToks([]) + (ListToks([]) + rest) == rest && NoRedir(rest)
    ensures WordToks(ws) + (ListToks(list) + rest) == [W(ws[0])] + (ListToks(list) + rest)
  {
  }

  lemma NotLastWord(ws: seq<string>, list: seq<Redirection>, rest: seq<Tok>)
    requires |ws| > 1
    ensures ws[1..] != [] && NoRedir(WordToks(ws[1..]) + (ListToks(list) + rest))
    ensures WordToks(ws) + (ListToks(list) + rest) == [W(ws[0])] + (ListToks([]) + (WordToks(ws[1..]) + (ListToks(list) + rest)))
  {
    assert WordToks(ws) == [W(ws[0])] + WordToks(ws[1..]);
    assert WordToks(ws[1..])[0] == W(ws[1]);
  }

  // ------------------------------------------------------------------
  // Whole commands
  // ------------------------------------------------------------------

  function Size(t: Tree): nat
  {
    match t
    case TExec(_) => 1
    case TRedir(tree, _, _, _) => 1 + Size(tree)
    case TPipe(l, r) => 1 + Size(l) + Size(r)
    case TList(l, r) => 1 + Size(l) + Size(r)
    case TBack(tree) => 1 + Size(tree)
  }

  predicate Simple(t: Tree) { t.TExec? || t.TRedir? }

  lemma {:induction false} BaseSmaller(t: Tree)
    ensures Size(Base(t)) <= Size(t) && (t.TRedir? ==> Size(Base(t)) < Size(t))
    decreases t
  {
    if t.TRedir? { BaseSmaller(t.tree); }
  }

  /** The result is tree t, with the cursor before `rest`. */
  ghost predicate Reads(s: string, r: Result, t: Tree, rest: seq<Tok>)
  {
    r.Ok? && Erase(s, r.cmd) == t && At(s, r.pos, rest)
  }

  /** The end of the input, or of a block. */
  predicate Closes(rest: seq<Tok>) { rest == [] || rest[0] == S(')') }

  /** A symbol, read. */
  lemma OneSymbol(s: string, i: nat, c: char, rest: seq<Tok>)
    requires At(s, i, [S(c)] + rest)
    ensures Peek(s, i, [c]) && At(s, GetToken(s, i).next, rest)
  {
    var ts := [S(c)] + rest;
    assert TokOk(ts[0]);
    PeekAt(s, i, ts, [c]);
    TokenAt(s, i, ts);
    assert ts[1..] == rest;
  }

  lemma OtherSymbol(s: string, i: nat, c: char, rest: seq<Tok>)
    requires At(s, i, rest) && IsSymbol(c) && (rest == [] || rest[0] != S(c))
    ensures !Peek(s, i, [c]) && SkipSpace(s, i) == i
  {
    PeekAt(s, i, rest, [c]);
    AtStart(s, i, rest);
    if rest != [] { assert TokOk(rest[0]); }
  }

  /** A plain command with redirections. */
  lemma PlainBack(s: string, i: nat, ws: seq<string>, list: seq<Redirection>, rest: seq<Tok>)
    requires At(s, i, WordToks(ws) + (ListToks(list) + rest)) && AllWords(ws) && |ws| < MAXARGS
    requires ListOk(list) && Stops(rest)
    ensures Reads(s, ParseExec(s, i), Around(TExec(ws), list), rest)
  {
    var ts := WordToks(ws) + (ListToks(list) + rest);
    assert ts == [] || ts[0] != S('(');
    OtherSymbol(s, i, '(', ts);
    assert SubAll(s, []) + ws == ws && [] + list == list;
    if ws == [] {
      assert ts == ListToks(list) + rest;
      NoWords(s, i, list, rest);
    } else {
      assert ts[0] == W(ws[0]);
      NoRedirs(s, i, ts);
      ArgsBack(s, i, ws, list, rest, [], [], []);
    }
  }

  /** Redirections and no words. */
  lemma NoWords(s: string, i: nat, list: seq<Redirection>, rest: seq<Tok>)
    requires At(s, i, ListToks(list) + rest) && ListOk(list) && Stops(rest)
    ensures var first := ParseRedirs(s, i);
            first.Redirs? && ArgsFound(s, ParseArgs(s, first.pos, [], first.list), [], list, rest)
  {
    RedirsBack(s, i, list, rest);
    var first := ParseRedirs(s, i);
    assert rest == WordToks([]) + (ListToks([]) + rest);
    assert list + [] == list && SubAll(s, []) + [] == [];
    ArgsBack(s, first.pos, [], [], rest, [], first.list, list);
  }

  /** A block with redirections. */
  lemma {:induction false} BlockBack(s: string, i: nat, t: Tree, list: seq<Redirection>, rest: seq<Tok>)
    requires WellFormed(t) && !Simple(t) && ListOk(list) && Stops(rest)
    requires At(s, i, [S('(')] + (Line(t) + ([S(')')] + (ListToks(list) + rest))))
    ensures Reads(s, ParseExec(s, i), Around(t, list), rest)
    decreases Size(t), 2
  {
    var after := ListToks(list) + rest;
    OneSymbol(s, i, '(', Line(t) + ([S(')')] + after));
    var open := GetToken(s, i).next;
    LineBack(s, open, t, [S(')')] + after);
    var line := ParseLine(s, open);
    OneSymbol(s, line.pos, ')', after);
    var close := GetToken(s, line.pos).next;
    RedirsBack(s, close, list, rest);
    EraseWrap(s, line.cmd, ParseRedirs(s, close).list, list);
  }

  lemma Assoc(a: seq<Tok>, b: seq<Tok>, c: seq<Tok>)
    ensures (a + b) + c == a + (b + c)
  {
  }

  lemma AssocTwo(a: seq<Tok>, c: char, b: seq<Tok>, rest: seq<Tok>)
    ensures (a + [S(c)] + b) + rest == a + ([S(c)] + (b + rest))
  {
  }

  lemma AssocBlock(line: seq<Tok>, rest: seq<Tok>)
    ensures ([S('(')] + line + [S(')')]) + rest == [S('(')] + (line + ([S(')')] + rest))
  {
  }

  /** parseexec on a printed command. */
  lemma {:induction false} ExecBack(s: string, i: nat, t: Tree, rest: seq<Tok>)
    requires WellFormed(t) && At(s, i, Atom(t) + rest) && Stops(rest)
    ensures Reads(s, ParseExec(s, i), t, rest)
    decreases Size(t), if Simple(t) then 0 else 3, 0
  {
    AtomSplits(t);
    BaseSmaller(t);
    var b, list := Base(t), ListOf(t);
    if b.TExec? {
      Assoc(WordToks(b.argv), ListToks(list), rest);
      PlainBack(s, i, b.argv, list, rest);
    } else {
      Assoc(Atom(b), ListToks(list), rest);
      AssocBlock(Line(b), ListToks(list) + rest);
      BlockBack(s, i, b, list, rest);
    }
  }

  /** parsepipe on a printed command that no bar follows. */
  lemma {:induction false} PipeBack(s: string, i: nat, t: Tree, rest: seq<Tok>)
    requires WellFormed(t) && At(s, i, Atom(t) + rest) && Stops(rest) && (rest == [] || rest[0] != S('|'))
    ensures Reads(s, ParsePipe(s, i), t, rest)
    decreases Size(t), if Simple(t) then 0 else 3, 1
  {
    ExecBack(s, i, t, rest);
    OtherSymbol(s, ParseExec(s, i).pos, '|', rest);
  }

  lemma NoBacks(s: string, i: nat, c: Cmd, rest: seq<Tok>)
    requires At(s, i, rest) && (rest == [] || rest[0] != S('&'))
    ensures ParseBacks(s, i, c) == (c, i)
  {
    OtherSymbol(s, i, '&', rest);
  }

  /** A line that is one pipeline. */
  lemma LineOfPipe(s: string, i: nat, t: Tree, rest: seq<Tok>)
    requires i <= |s| && Reads(s, ParsePipe(s, i), t, rest) && Closes(rest)
    ensures Reads(s, ParseLine(s, i), t, rest)
  {
    var first := ParsePipe(s, i);
    NoBacks(s, first.pos, first.cmd, rest);
    OtherSymbol(s, first.pos, ';', rest);
  }

  lemma PipeOfTwo(s: string, i: nat, l: Tree, r: Tree, more: seq<Tok>, rest: seq<Tok>)
    requires i <= |s| && Reads(s, ParseExec(s, i), l, more) && Peek(s, ParseExec(s, i).pos, "|")
    requires Reads(s, ParsePipe(s, GetToken(s, ParseExec(s, i).pos).next), r, rest)
    ensures Reads(s, ParsePipe(s, i), TPipe(l, r), rest)
  {
  }

  /** parseline on a printed command in its own right. */
  lemma {:induction false} AloneBack(s: string, i: nat, t: Tree, rest: seq<Tok>)
    requires WellFormed(t) && At(s, i, Atom(t) + rest) && Closes(rest)
    ensures Reads(s, ParseLine(s, i), t, rest)
    decreases Size(t), if Simple(t) then 0 else 3, 2
  {
    PipeBack(s, i, t, rest);
    LineOfPipe(s, i, t, rest);
  }

  lemma {:induction false} PipeLine(s: string, i: nat, l: Tree, r: Tree, rest: seq<Tok>)
    requires WellFormed(l) && WellFormed(r) && At(s, i, Atom(l) + ([S('|')] + (Atom(r) + rest))) && Closes(rest)
    ensures Reads(s, ParseLine(s, i), TPipe(l, r), rest)
    decreases Size(l) + Size(r) + 1, 0
  {
    var more := Atom(r) + rest;
    ExecBack(s, i, l, [S('|')] + more);
    var left := ParseExec(s, i);
    OneSymbol(s, left.pos, '|', more);
    PipeBack(s, GetToken(s, left.pos).next, r, rest);
    PipeOfTwo(s, i, l, r, [S('|')] + more, rest);
    LineOfPipe(s, i, TPipe(l, r), rest);
  }

  lemma {:induction false} ListLine(s: string, i: nat, l: Tree, r: Tree, rest: seq<Tok>)
    requires WellFormed(l) && WellFormed(r) && At(s, i, Atom(l) + ([S(';')] + (Atom(r) + rest))) && Closes(rest)
    ensures Reads(s, ParseLine(s, i), TList(l, r), rest)
    decreases Size(l) + Size(r) + 1, 0
  {
    var more := Atom(r) + rest;
    PipeBack(s, i, l, [S(';')] + more);
    var first := ParsePipe(s, i);
    NoBacks(s, first.pos, first.cmd, [S(';')] + more);
    OneSymbol(s, first.pos, ';', more);
    AloneBack(s, GetToken(s, first.pos).next, r, rest);
  }

  lemma {:induction false} BackLine(s: string, i: nat, t: Tree, rest: seq<Tok>)
    requires WellFormed(t) && At(s, i, Atom(t) + ([S('&')] + rest)) && Closes(rest)
    ensures Reads(s, ParseLine(s, i), TBack(t), rest)
    decreases Size(t) + 1, 0
  {
    PipeBack(s, i, t, [S('&')] + rest);
    var first := ParsePipe(s, i);
    OneSymbol(s, first.pos, '&', rest);
    var next := GetToken(s, first.pos).next;
    NoBacks(s, next, Back(first.cmd), rest);
    OtherSymbol(s, next, ';', rest);
  }

  /** parseline on a printed line. */
  lemma {:induction false} LineBack(s: string, i: nat, t: Tree, rest: seq<Tok>)
    requires WellFormed(t) && At(s, i, Line(t) + rest) && Closes(rest)
    ensures Reads(s, ParseLine(s, i), t, rest)
    decreases Size(t), 1
  {
    match t
    case TExec(_) => AloneBack(s, i, t, rest);
    case TRedir(_, _, _, _) => AloneBack(s, i, t, rest);
    case TPipe(l, r) =>
      AssocTwo(Atom(l), '|', Atom(r), rest);
      PipeLine(s, i, l, r, rest);
    case TList(l, r) =>
      AssocTwo(Atom(l), ';', Atom(r), rest);
      ListLine(s, i, l, r, rest);
    case TBack(tree) =>
      Assoc(Atom(tree), [S('&')], rest);
      BackLine(s, i, tree, rest);
  }

  /** For every well-formed tree, parsing its printed form consumes all of it and
      gives the tree back. */
  lemma RoundTrip(t: Tree)
    requires WellFormed(t)
    ensures NoNul(Print(t))
    ensures ParseCmd(Print(t)).Ok? && Erase(Print(t), ParseCmd(Print(t)).cmd) == t
  {
    PrintedOk(t);
    TextNoNul(Line(t));
    var s := Print(t);
    assert Line(t) + [] == Line(t) && s[0..] == s;
    LineBack(s, 0, t, []);
    AtStart(s, ParseLine(s, 0).pos, []);
  }

  lemma {:induction false} ScannedIsWellFormed(s: string, c: Cmd)
    requires Scanned(s, c)
    ensures WellFormed(Erase(s, c))
    decreases c
  {
    match c
    case Exec(argv) =>
      forall i | 0 <= i < |argv| ensures IsWord(Sub(s, argv[i])) {
        assert WordSpan(s, argv[i]);
      }
    case Redir(cmd, file, _, _) => ScannedIsWellFormed(s, cmd); assert WordSpan(s, file);
    case Pipe(l, r) => ScannedIsWellFormed(s, l); ScannedIsWellFormed(s, r);
    case List(l, r) => ScannedIsWellFormed(s, l); ScannedIsWellFormed(s, r);
    case Back(cmd) => ScannedIsWellFormed(s, cmd);
  }

  /** Every input that parses has a printed form that parses to the same tree. */
  lemma Reprint(s: string)
    requires NoNul(s) && ParseCmd(s).Ok?
    ensures var t := Erase(s, ParseCmd(s).cmd);
            && WellFormed(t) && ParseCmd(Print(t)).Ok?
            && Erase(Print(t), ParseCmd(Print(t)).cmd) == t
  {
    ParseScanned(s);
    ScannedIsWellFormed(s, ParseCmd(s).cmd);
    RoundTrip(Erase(s, ParseCmd(s).cmd));
  }
}
