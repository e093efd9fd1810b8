/** The command language of lab2/sh.c: tokens, command trees, and the parser as
    functions of the text and the cursor.

    The text is what stands before the terminating NUL.  Words are spans of the
    text, as the code keeps pointers into its buffer. */
module ShellSyntax {

  const MAXARGS: int := 10
  const O_RDONLY: int := 0x000
  const O_WRONLY_CREATE: int := 0x201

  predicate IsSpace(c: char) { c == ' ' || c == '\t' || c == '\r' || c == '\n' || c == '\U{000B}' }

  predicate IsSymbol(c: char) { c == '<' || c == '|' || c == '>' || c == '&' || c == ';' || c == '(' || c == ')' }

  predicate IsWordChar(c: char) { !IsSpace(c) && !IsSymbol(c) && c != '\0' }

  predicate NoNul(s: string) { forall i :: 0 <= i < |s| ==> s[i] != '\0' }

  /** Two pointers into the buffer: the word and its end. */
  datatype Span = Span(start: nat, end: nat)

  datatype Cmd =
    | Exec(argv: seq<Span>)
    | Redir(cmd: Cmd, file: Span, mode: int, fd: int)
    | Pipe(left: Cmd, right: Cmd)
    | List(left: Cmd, right: Cmd)
    | Back(cmd: Cmd)

  // ------------------------------------------------------------------
  // Tokens
  // ------------------------------------------------------------------

  function SkipSpace(s: string, i: nat): (j: nat)
    requires i <= |s|
    ensures i <= j <= |s| && (j < |s| ==> !IsSpace(s[j]))
    ensures forall k :: i <= k < j ==> IsSpace(s[k])
    decreases |s| - i
  {
    if i < |s| && IsSpace(s[i]) then SkipSpace(s, i + 1) else i
  }

  function WordEnd(s: string, i: nat): (j: nat)
    requires i <= |s|
    ensures i <= j <= |s| && (j < |s| ==> IsSpace(s[j]) || IsSymbol(s[j]))
    ensures forall k :: i <= k < j ==> !IsSpace(s[k]) && !IsSymbol(s[k])
    decreases |s| - i
  {
    if i < |s| && !IsSpace(s[i]) && !IsSymbol(s[i]) then WordEnd(s, i + 1) else i
  }

  /** The codes gettoken returns: 0, the character, '+' for >> and 'a' for a word. */
  datatype Kind = AtEnd | Symbol(c: char) | Append | Word

  datatype Token = Token(kind: Kind, span: Span, next: nat)

  /** gettoken. */
  function GetToken(s: string, i: nat): (t: Token)
    requires i <= |s|
    ensures i <= t.span.start <= t.span.end <= t.next <= |s|
    ensures t.kind.AtEnd? <==> SkipSpace(s, i) == |s|
    ensures !t.kind.AtEnd? ==> i < t.next
  {
    var q := SkipSpace(s, i);
    if q == |s| then Token(AtEnd, Span(q, q), q)
    else if s[q] == '>' && q + 1 < |s| && s[q + 1] == '>' then
      Token(Append, Span(q, q + 2), SkipSpace(s, q + 2))
    else if IsSymbol(s[q]) then Token(Symbol(s[q]), Span(q, q + 1), SkipSpace(s, q + 1))
    else
      var eq := WordEnd(s, q);
      Token(Word, Span(q, eq), SkipSpace(s, eq))
  }

  /** peek: the next character that is not a space is one of toks. */
  predicate Peek(s: string, i: nat, toks: string)
    requires i <= |s|
  {
    var p := SkipSpace(s, i);
    p < |s| && s[p] in toks
  }

  // ------------------------------------------------------------------
  // The parser
  // ------------------------------------------------------------------

  /** A parse ends with a tree and the cursor behind it, or in a panic. */
  datatype Result = Ok(cmd: Cmd, pos: nat) | Panic(why: string)

  datatype RedirInfo = RedirInfo(file: Span, mode: int, fd: int)

  datatype RedirResult = Redirs(list: seq<RedirInfo>, pos: nat) | RedirPanic(why: string)

  /** redircmd around cmd for each redirection, in the order they were read. */
  function Wrap(cmd: Cmd, list: seq<RedirInfo>): Cmd
    decreases |list|
  {
    if list == [] then cmd
    else
      var last := list[|list| - 1];
      Redir(Wrap(cmd, list[..|list| - 1]), last.file, last.mode, last.fd)
  }

  function RedirOf(kind: Kind, file: Span): RedirInfo
  {
    if kind == Symbol('<') then RedirInfo(file, O_RDONLY, 0) else RedirInfo(file, O_WRONLY_CREATE, 1)
  }

  /** parseredirs. */
  function ParseRedirs(s: string, i: nat): (r: RedirResult)
    requires i <= |s|
    ensures r.Redirs? ==> i <= r.pos <= |s|
    decreases |s| - i
  {
    if !Peek(s, i, "<>") then Redirs([], SkipSpace(s, i))
    else
      var op := GetToken(s, i);
      var file := GetToken(s, op.next);
      if file.kind != Word then RedirPanic("missing file for redirection")
      else
        match ParseRedirs(s, file.next)
        case Redirs(list, pos) => Redirs([RedirOf(op.kind, file.span)] + list, pos)
        case RedirPanic(why) => RedirPanic(why)
  }

  /** The loop of parseexec. */
  function ParseArgs(s: string, i: nat, argv: seq<Span>, redirs: seq<RedirInfo>): (r: Result)
    requires i <= |s|
    ensures r.Ok? ==> i <= r.pos <= |s|
    decreases |s| - i
  {
    if Peek(s, i, "|)&;") then Ok(Wrap(Exec(argv), redirs), SkipSpace(s, i))
    else
      var t := GetToken(s, i);
      if t.kind.AtEnd? then Ok(Wrap(Exec(argv), redirs), t.next)
      else if t.kind != Word then Panic("syntax")
      else if |argv| + 1 >= MAXARGS then Panic("too many args")
      else
        match ParseRedirs(s, t.next)
        case Redirs(list, pos) => ParseArgs(s, pos, argv + [t.span], redirs + list)
        case RedirPanic(why) => Panic(why)
  }

  function ParseExec(s: string, i: nat): (r: Result)
    requires i <= |s|
    ensures r.Ok? ==> i <= r.pos <= |s|
    decreases |s| - i, 1
  {
    if Peek(s, i, "(") then ParseBlock(s, i)
    else
      match ParseRedirs(s, i)
      case Redirs(list, pos) => ParseArgs(s, pos, [], list)
      case RedirPanic(why) => Panic(why)
  }

  function ParseBlock(s: string, i: nat): (r: Result)
    requires i <= |s|
    ensures r.Ok? ==> i <= r.pos <= |s|
    decreases |s| - i, 0
  {
    if !Peek(s, i, "(") then Panic("parseblock")
    else
      match ParseLine(s, GetToken(s, i).next)
      case Panic(why) => Panic(why)
      case Ok(cmd, pos) =>
        if !Peek(s, pos, ")") then Panic("syntax - missing )")
        else
          match ParseRedirs(s, GetToken(s, pos).next)
          case Redirs(list, pos') => Ok(Wrap(cmd, list), pos')
          case RedirPanic(why) => Panic(why)
  }

  function ParsePipe(s: string, i: nat): (r: Result)
    requires i <= |s|
    ensures r.Ok? ==> i <= r.pos <= |s|
    decreases |s| - i, 2
  {
    match ParseExec(s, i)
    case Panic(why) => Panic(why)
    case Ok(cmd, pos) =>
      if !Peek(s, pos, "|") then Ok(cmd, SkipSpace(s, pos))
      else
        match ParsePipe(s, GetToken(s, pos).next)
        case Panic(why) => Panic(why)
        case Ok(right, pos') => Ok(Pipe(cmd, right), pos')
  }

  /** The loop of parseline over trailing ampersands. */
  function ParseBacks(s: string, i: nat, cmd: Cmd): (r: (Cmd, nat))
    requires i <= |s|
    ensures i <= r.1 <= |s|
    decreases |s| - i
  {
    if Peek(s, i, "&") then ParseBacks(s, GetToken(s, i).next, Back(cmd)) else (cmd, SkipSpace(s, i))
  }

  function ParseLine(s: string, i: nat): (r: Result)
    requires i <= |s|
    ensures r.Ok? ==> i <= r.pos <= |s|
    decreases |s| - i, 3
  {
    match ParsePipe(s, i)
    case Panic(why) => Panic(why)
    case Ok(cmd, pos) =>
      var (cmd', pos') := ParseBacks(s, pos, cmd);
      if !Peek(s, pos', ";") then Ok(cmd', SkipSpace(s, pos'))
      else
        match ParseLine(s, GetToken(s, pos').next)
        case Panic(why) => Panic(why)
        case Ok(right, end) => Ok(List(cmd', right), end)
  }

  function ParseCmd(s: string): (r: Result)
    ensures r.Ok? ==> r.pos == |s|
  {
    match ParseLine(s, 0)
    case Panic(why) => Panic(why)
    case Ok(cmd, pos) => if SkipSpace(s, pos) == |s| then Ok(cmd, |s|) else Panic("syntax")
  }
}
