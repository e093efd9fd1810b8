/** The words that the parser finds are whole words of the text, so cutting the
    buffer at their ends leaves every word intact. */
module ShellSpans {
  import opened ShellSyntax

  /** A maximal run of word characters. */
  predicate WordSpan(s: string, w: Span)
  {
    && w.start < w.end <= |s|
    && (forall k :: w.start <= k < w.end ==> IsWordChar(s[k]))
    && (w.end < |s| ==> !IsWordChar(s[w.end]))
  }

  predicate RedirKind(mode: int, fd: int) { (mode == O_RDONLY && fd == 0) || (mode == O_WRONLY_CREATE && fd == 1) }

  /** What parsecmd promises about its tree. */
  predicate Scanned(s: string, c: Cmd)
  {
    match c
    case Exec(argv) => |argv| < MAXARGS && forall i :: 0 <= i < |argv| ==> WordSpan(s, argv[i])
    case Redir(cmd, file, mode, fd) => Scanned(s, cmd) && WordSpan(s, file) && RedirKind(mode, fd)
    case Pipe(l, r) => Scanned(s, l) && Scanned(s, r)
    case List(l, r) => Scanned(s, l) && Scanned(s, r)
    case Back(cmd) => Scanned(s, cmd)
  }

  predicate InfosOk(s: string, list: seq<RedirInfo>)
  {
    forall i :: 0 <= i < |list| ==> WordSpan(s, list[i].file) && RedirKind(list[i].mode, list[i].fd)
  }

  lemma {:induction false} WrapScanned(s: string, c: Cmd, list: seq<RedirInfo>)
    requires Scanned(s, c) && InfosOk(s, list)
    ensures Scanned(s, Wrap(c, list))
    decreases |list|
  {
    if list != [] {
      WrapScanned(s, c, list[..|list| - 1]);
    }
  }

  lemma TokenScanned(s: string, i: nat)
    requires NoNul(s) && i <= |s|
    ensures GetToken(s, i).kind == Word ==> WordSpan(s, GetToken(s, i).span)
  {
  }

  lemma {:induction false} RedirsScanned(s: string, i: nat)
    requires NoNul(s) && i <= |s|
    ensures ParseRedirs(s, i).Redirs? ==> InfosOk(s, ParseRedirs(s, i).list)
    decreases |s| - i
  {
    if Peek(s, i, "<>") {
      var op := GetToken(s, i);
      var file := GetToken(s, op.next);
      TokenScanned(s, op.next);
      if file.kind == Word {
        RedirsScanned(s, file.next);
      }
    }
  }

  lemma {:induction false} ArgsScanned(s: string, i: nat, argv: seq<Span>, redirs: seq<RedirInfo>)
    requires NoNul(s) && i <= |s| && Scanned(s, Exec(argv)) && InfosOk(s, redirs)
    ensures ParseArgs(s, i, argv, redirs).Ok? ==> Scanned(s, ParseArgs(s, i, argv, redirs).cmd)
    decreases |s| - i
  {
    WrapScanned(s, Exec(argv), redirs);
    if !Peek(s, i, "|)&;") {
      var t := GetToken(s, i);
      if t.kind == Word && |argv| + 1 < MAXARGS {
        TokenScanned(s, i);
        RedirsScanned(s, t.next);
        var more := ParseRedirs(s, t.next);
        if more.Redirs? {
          ArgsScanned(s, more.pos, argv + [t.span], redirs + more.list);
        }
      }
    }
  }

  lemma {:induction false} ExecScanned(s: string, i: nat)
    requires NoNul(s) && i <= |s|
    ensures ParseExec(s, i).Ok? ==> Scanned(s, ParseExec(s, i).cmd)
    decreases |s| - i, 1
  {
    if Peek(s, i, "(") {
      BlockScanned(s, i);
    } else {
      RedirsScanned(s, i);
      var first := ParseRedirs(s, i);
      if first.Redirs? {
        ArgsScanned(s, first.pos, [], first.list);
      }
    }
  }

  lemma {:induction false} BlockScanned(s: string, i: nat)
    requires NoNul(s) && i <= |s|
    ensures ParseBlock(s, i).Ok? ==> Scanned(s, ParseBlock(s, i).cmd)
    decreases |s| - i, 0
  {
    if Peek(s, i, "(") {
      var line := ParseLine(s, GetToken(s, i).next);
      LineScanned(s, GetToken(s, i).next);
      if line.Ok? && Peek(s, line.pos, ")") {
        var after := GetToken(s, line.pos).next;
        RedirsScanned(s, after);
        if ParseRedirs(s, after).Redirs? {
          WrapScanned(s, line.cmd, ParseRedirs(s, after).list);
        }
      }
    }
  }

  lemma {:induction false} PipeScanned(s: string, i: nat)
    requires NoNul(s) && i <= |s|
    ensures ParsePipe(s, i).Ok? ==> Scanned(s, ParsePipe(s, i).cmd)
    decreases |s| - i, 2
  {
    ExecScanned(s, i);
    var left := ParseExec(s, i);
    if left.Ok? && Peek(s, left.pos, "|") {
      PipeScanned(s, GetToken(s, left.pos).next);
    }
  }

  lemma {:induction false} BacksScanned(s: string, i: nat, cmd: Cmd)
    requires i <= |s| && Scanned(s, cmd)
    ensures Scanned(s, ParseBacks(s, i, cmd).0)
    decreases |s| - i
  {
    if Peek(s, i, "&") {
      BacksScanned(s, GetToken(s, i).next, Back(cmd));
    }
  }

  lemma {:induction false} LineScanned(s: string, i: nat)
    requires NoNul(s) && i <= |s|
    ensures ParseLine(s, i).Ok? ==> Scanned(s, ParseLine(s, i).cmd)
    decreases |s| - i, 3
  {
    PipeScanned(s, i);
    var first := ParsePipe(s, i);
    if first.Ok? {
      BacksScanned(s, first.pos, first.cmd);
      var (cmd, pos) := ParseBacks(s, first.pos, first.cmd);
      if Peek(s, pos, ";") {
        LineScanned(s, GetToken(s, pos).next);
      }
    }
  }

  /** Every word of a parsed command is a whole word, every command has fewer than
      MAXARGS words, and a redirection is one of the two the shell knows. */
  lemma ParseScanned(s: string)
    requires NoNul(s)
    ensures ParseCmd(s).Ok? ==> Scanned(s, ParseCmd(s).cmd)
  {
    LineScanned(s, 0);
  }

  // ------------------------------------------------------------------
  // Cutting the buffer
  // ------------------------------------------------------------------

  /** The places that nulterminate writes to. */
  function Ends(c: Cmd): set<nat>
  {
    match c
    case Exec(argv) => EndsOf(argv)
    case Redir(cmd, file, _, _) => Ends(cmd) + {file.end}
    case Pipe(l, r) => Ends(l) + Ends(r)
    case List(l, r) => Ends(l) + Ends(r)
    case Back(cmd) => Ends(cmd)
  }

  function EndsOf(argv: seq<Span>): set<nat>
  {
    if argv == [] then {} else EndsOf(argv[..|argv| - 1]) + {argv[|argv| - 1].end}
  }

  /** The words of a command. */
  function Words(c: Cmd): set<Span>
  {
    match c
    case Exec(argv) => set i | 0 <= i < |argv| :: argv[i]
    case Redir(cmd, file, _, _) => Words(cmd) + {file}
    case Pipe(l, r) => Words(l) + Words(r)
    case List(l, r) => Words(l) + Words(r)
    case Back(cmd) => Words(cmd)
  }

  lemma {:induction false} EndsOfAt(argv: seq<Span>, k: nat)
    ensures k in EndsOf(argv) <==> exists i :: 0 <= i < |argv| && argv[i].end == k
  {
    if argv != [] {
      EndsOfAt(argv[..|argv| - 1], k);
      if k in EndsOf(argv[..|argv| - 1]) {
        var i :| 0 <= i < |argv| - 1 && argv[..|argv| - 1][i].end == k;
        assert argv[i].end == k;
      }
      if i :| 0 <= i < |argv| && argv[i].end == k {
        if i < |argv| - 1 { assert argv[..|argv| - 1][i].end == k; }
      }
    }
  }

  /** The written places are the ends of the words, all of them outside words. */
  lemma {:induction false} EndsAreWordEnds(s: string, c: Cmd)
    requires Scanned(s, c)
    ensures forall k :: k in Ends(c) ==> k <= |s| && (k < |s| ==> !IsWordChar(s[k]))
    ensures forall w :: w in Words(c) ==> WordSpan(s, w) && w.end in Ends(c)
    decreases c
  {
    match c
    case Exec(argv) =>
      forall k: nat ensures k in Ends(c) <==> exists i :: 0 <= i < |argv| && argv[i].end == k {
        EndsOfAt(argv, k);
      }
    case Redir(cmd, _, _, _) => EndsAreWordEnds(s, cmd);
    case Pipe(l, r) => EndsAreWordEnds(s, l); EndsAreWordEnds(s, r);
    case List(l, r) => EndsAreWordEnds(s, l); EndsAreWordEnds(s, r);
    case Back(cmd) => EndsAreWordEnds(s, cmd);
  }

  /** The C string at place i of a buffer. */
  function CString(b: seq<char>, i: nat): string
    requires i <= |b|
    decreases |b| - i
  {
    if i == |b| || b[i] == '\0' then "" else [b[i]] + CString(b, i + 1)
  }

  lemma {:induction false} CStringIs(b: seq<char>, i: nat, j: nat)
    requires i <= j < |b| && b[j] == '\0' && forall k :: i <= k < j ==> b[k] != '\0'
    ensures CString(b, i) == b[i..j]
    decreases j - i
  {
    if i < j {
      CStringIs(b, i + 1, j);
      assert b[i..j] == [b[i]] + b[i + 1..j];
    }
  }

  /** The buffer after nulterminate: NUL at every end, the rest as it was. */
  predicate CutAt(s: string, ends: set<nat>, b: seq<char>)
  {
    && |b| == |s| + 1 && b[|s|] == '\0'
    && forall k :: 0 <= k < |s| ==> b[k] == if k in ends then '\0' else s[k]
  }

  /** In the buffer so cut, every word of the command is the C string at its start. */
  lemma WordsSurvive(s: string, c: Cmd, b: seq<char>, w: Span)
    requires Scanned(s, c) && CutAt(s, Ends(c), b) && w in Words(c)
    ensures WordSpan(s, w) && CString(b, w.start) == s[w.start..w.end]
  {
    EndsAreWordEnds(s, c);
    assert b[w.start..w.end] == s[w.start..w.end];
    CStringIs(b, w.start, w.end);
  }
}
