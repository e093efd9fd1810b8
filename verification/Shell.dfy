/** The parser of lab2/sh.c as it is written: cursors moved by loops, and the
    in-place NUL termination of the words found. */
module Shell {
  import opened ShellSyntax
  import opened ShellSpans

  method SkipSpaces(s: string, i: nat) returns (j: nat)
    requires i <= |s|
    ensures j == SkipSpace(s, i)
  {
    j := i;
    while j < |s| && IsSpace(s[j])
      invariant i <= j <= |s| && SkipSpace(s, j) == SkipSpace(s, i)
    {
      j := j + 1;
    }
  }

  /** gettoken. */
  method NextToken(s: string, i: nat) returns (t: Token)
    requires i <= |s|
    ensures t == GetToken(s, i)
  {
    var q := SkipSpaces(s, i);
    var j := q;
    var kind := AtEnd;
    if q < |s| {
      if s[q] == '>' {
        j := j + 1;
        kind := Symbol('>');
        if j < |s| && s[j] == '>' {
          kind := Append;
          j := j + 1;
        }
      } else if IsSymbol(s[q]) {
        j := j + 1;
        kind := Symbol(s[q]);
      } else {
        kind := Word;
        while j < |s| && !IsSpace(s[j]) && !IsSymbol(s[j])
          invariant q <= j <= |s| && WordEnd(s, j) == WordEnd(s, q)
        {
          j := j + 1;
        }
      }
    }
    var next := SkipSpaces(s, j);
    t := Token(kind, Span(q, j), next);
  }

  /** peek: it also moves the cursor past the spaces. */
  method Look(s: string, i: nat, toks: string) returns (yes: bool, j: nat)
    requires i <= |s|
    ensures yes == Peek(s, i, toks) && j == SkipSpace(s, i)
  {
    j := SkipSpaces(s, i);
    yes := j < |s| && s[j] in toks;
  }

  /** A cursor that has skipped spaces sees what it saw before. */
  lemma SkipTwice(s: string, i: nat)
    requires i <= |s|
    ensures SkipSpace(s, SkipSpace(s, i)) == SkipSpace(s, i)
    ensures GetToken(s, SkipSpace(s, i)) == GetToken(s, i)
  {
  }

  /** parseredirs: the redirections read so far are `list`. */
  method ReadRedirs(s: string, i: nat) returns (r: RedirResult)
    requires i <= |s|
    ensures r == ParseRedirs(s, i)
  {
    var list := [];
    var pos := i;
    while true
      invariant i <= pos <= |s|
      invariant ParseRedirs(s, i) == match ParseRedirs(s, pos)
                                     case Redirs(rest, end) => Redirs(list + rest, end)
                                     case RedirPanic(why) => RedirPanic(why)
      decreases |s| - pos
    {
      var more, here := Look(s, pos, "<>");
      if !more {
        return Redirs(list, here);
      }
      SkipTwice(s, pos);
      var op := NextToken(s, here);
      var file := NextToken(s, op.next);
      if file.kind != Word {
        return RedirPanic("missing file for redirection");
      }
      assert forall rest :: list + ([RedirOf(op.kind, file.span)] + rest) == list + [RedirOf(op.kind, file.span)] + rest;
      list := list + [RedirOf(op.kind, file.span)];
      pos := file.next;
    }
  }

  /** parseexec, for a command that is not a block. */
  method ReadArgs(s: string, i: nat, first: seq<RedirInfo>) returns (r: Result)
    requires i <= |s|
    ensures r == ParseArgs(s, i, [], first)
  {
    var argv, redirs, pos := [], first, i;
    while true
      invariant i <= pos <= |s| && ParseArgs(s, i, [], first) == ParseArgs(s, pos, argv, redirs)
      decreases |s| - pos
    {
      var stop, here := Look(s, pos, "|)&;");
      if stop {
        return Ok(Wrap(Exec(argv), redirs), here);
      }
      SkipTwice(s, pos);
      var t := NextToken(s, here);
      if t.kind == AtEnd {
        return Ok(Wrap(Exec(argv), redirs), t.next);
      }
      if t.kind != Word {
        return Panic("syntax");
      }
      if |argv| + 1 >= MAXARGS {
        return Panic("too many args");
      }
      var more := ReadRedirs(s, t.next);
      if more.RedirPanic? {
        return Panic(more.why);
      }
      argv, redirs, pos := argv + [t.span], redirs + more.list, more.pos;
    }
  }

  method ReadExec(s: string, i: nat) returns (r: Result)
    requires i <= |s|
    ensures r == ParseExec(s, i)
    decreases |s| - i, 1
  {
    var block, here := Look(s, i, "(");
    if block {
      r := ReadBlock(s, i);
      return;
    }
    var first := ReadRedirs(s, i);
    if first.RedirPanic? {
      return Panic(first.why);
    }
    r := ReadArgs(s, first.pos, first.list);
  }

  method ReadBlock(s: string, i: nat) returns (r: Result)
    requires i <= |s|
    ensures r == ParseBlock(s, i)
    decreases |s| - i, 0
  {
    var open, here := Look(s, i, "(");
    if !open {
      return Panic("parseblock");
    }
    var t := NextToken(s, i);
    var line := ReadLine(s, t.next);
    if line.Panic? {
      return line;
    }
    var close, there := Look(s, line.pos, ")");
    if !close {
      return Panic("syntax - missing )");
    }
    t := NextToken(s, line.pos);
    var redirs := ReadRedirs(s, t.next);
    if redirs.RedirPanic? {
      return Panic(redirs.why);
    }
    r := Ok(Wrap(line.cmd, redirs.list), redirs.pos);
  }

  method ReadPipe(s: string, i: nat) returns (r: Result)
    requires i <= |s|
    ensures r == ParsePipe(s, i)
    decreases |s| - i, 2
  {
    r := ReadExec(s, i);
    if r.Panic? {
      return;
    }
    var bar, here := Look(s, r.pos, "|");
    if !bar {
      return Ok(r.cmd, here);
    }
    var t := NextToken(s, r.pos);
    var right := ReadPipe(s, t.next);
    r := if right.Panic? then right else Ok(Pipe(r.cmd, right.cmd), right.pos);
  }

  method ReadLine(s: string, i: nat) returns (r: Result)
    requires i <= |s|
    ensures r == ParseLine(s, i)
    decreases |s| - i, 3
  {
    r := ReadPipe(s, i);
    if r.Panic? {
      return;
    }
    ghost var first := r;
    var cmd, pos := r.cmd, r.pos;
    while true
      invariant first.pos <= pos <= |s| && ParseBacks(s, pos, cmd) == ParseBacks(s, first.pos, first.cmd)
      decreases |s| - pos
    {
      var back, here := Look(s, pos, "&");
      if !back {
        SkipTwice(s, pos);
        pos := here;
        break;
      }
      var t := NextToken(s, pos);
      cmd, pos := Back(cmd), t.next;
    }
    var semi, there := Look(s, pos, ";");
    if !semi {
      return Ok(cmd, there);
    }
    var t := NextToken(s, pos);
    var right := ReadLine(s, t.next);
    r := if right.Panic? then right else Ok(List(cmd, right.cmd), right.pos);
  }

  /** nulterminate: a NUL goes to the end of every word of the command. */
  method NulTerminate(cmd: Cmd, buf: array<char>)
    requires forall k :: k in Ends(cmd) ==> k < buf.Length
    modifies buf
    ensures forall k :: 0 <= k < buf.Length ==> buf[k] == if k in Ends(cmd) then '\0' else old(buf[k])
    decreases cmd
  {
    match cmd
    case Exec(argv) =>
      var i := 0;
      while i < |argv|
        invariant 0 <= i <= |argv|
        invariant forall k :: 0 <= k < buf.Length ==> buf[k] == if k in EndsOf(argv[..i]) then '\0' else old(buf[k])
      {
        EndsOfPrefix(argv, i);
        assert argv[i].end in Ends(cmd);
        buf[argv[i].end] := '\0';
        i := i + 1;
      }
      assert argv[..|argv|] == argv;
    case Redir(sub, file, _, _) =>
      assert file.end in Ends(cmd) && forall k :: k in Ends(sub) ==> k in Ends(cmd);
      NulTerminate(sub, buf);
      buf[file.end] := '\0';
    case Pipe(left, right) =>
      assert forall k :: k in Ends(left) || k in Ends(right) ==> k in Ends(cmd);
      NulTerminate(left, buf);
      NulTerminate(right, buf);
    case List(left, right) =>
      assert forall k :: k in Ends(left) || k in Ends(right) ==> k in Ends(cmd);
      NulTerminate(left, buf);
      NulTerminate(right, buf);
    case Back(sub) =>
      assert forall k :: k in Ends(sub) ==> k in Ends(cmd);
      NulTerminate(sub, buf);
  }

  lemma EndsOfPrefix(argv: seq<Span>, i: nat)
    requires i <= |argv|
    ensures i < |argv| ==> EndsOf(argv[..i + 1]) == EndsOf(argv[..i]) + {argv[i].end} && argv[i].end in EndsOf(argv)
  {
    if i < |argv| {
      assert argv[..i + 1][..i] == argv[..i];
      EndsOfAt(argv, argv[i].end);
    }
  }

  /** parsecmd on a buffer that holds the text s and its NUL: the tree, with the
      buffer cut so that each word of the tree is a C string. */
  method ParseBuffer(buf: array<char>, s: string) returns (r: Result)
    requires buf.Length == |s| + 1 && buf[..|s|] == s && buf[|s|] == '\0' && NoNul(s)
    modifies buf
    ensures r == ParseCmd(s)
    ensures r.Ok? ==> Scanned(s, r.cmd)
                      && forall w :: w in Words(r.cmd) ==> WordSpan(s, w) && CString(buf[..], w.start) == s[w.start..w.end]
    ensures r.Panic? ==> buf[..] == old(buf[..])
  {
    r := ReadLine(s, 0);
    if r.Panic? {
      return;
    }
    var rest, end := Look(s, r.pos, "");
    if end != |s| {
      return Panic("syntax");
    }
    ParseScanned(s);
    EndsAreWordEnds(s, r.cmd);
    NulTerminate(r.cmd, buf);
    r := Ok(r.cmd, |s|);
    forall w | w in Words(r.cmd) ensures WordSpan(s, w) && CString(buf[..], w.start) == s[w.start..w.end] {
      WordsSurvive(s, r.cmd, buf[..], w);
    }
  }
}
