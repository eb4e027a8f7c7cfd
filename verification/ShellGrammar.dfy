/** What the shell's parser accepts, as functions of the text that is left. */
module ShellGrammar {
  const MAXARGS := 10

  /** The open modes of redirections. */
  datatype Mode = Read | Truncate | Append

  /** Parsed commands, over words of type `W`. */
  datatype Cmd<W> =
    | Exec(argv: seq<W>)
    | Redir(cmd: Cmd<W>, file: W, mode: Mode)
    | Pipe(left: Cmd<W>, right: Cmd<W>)
    | List(left: Cmd<W>, right: Cmd<W>)
    | Back(cmd: Cmd<W>)

  datatype Redirection<W> = Redirection(file: W, mode: Mode)

  predicate IsSpace(c: char) {
    c in " \t\r\n\U{0B}"
  }

  predicate IsSymbol(c: char) {
    c in "<|>&;()"
  }

  predicate IsWordChar(c: char) {
    !IsSpace(c) && !IsSymbol(c)
  }

  // --- tokens ---------------------------------------------------------------------------------------

  function SkipSpace(s: string): (r: string)
    ensures |r| <= |s| && (r != [] ==> !IsSpace(r[0]))
  {
    if s != [] && IsSpace(s[0]) then SkipSpace(s[1..]) else s
  }

  /** How long the word at the start of the text is. */
  function WordLength(s: string): (n: nat)
    ensures n <= |s| && (forall i :: 0 <= i < n ==> IsWordChar(s[i])) && (n < |s| ==> !IsWordChar(s[n]))
  {
    if s != [] && IsWordChar(s[0]) then 1 + WordLength(s[1..]) else 0
  }

  datatype Token = End | Symbol(c: char) | Double | Word(text: string)

  /** The first token of a text that does not start with a space, and its length. */
  function TokenOf(s: string): (Token, nat)
    requires s != [] ==> !IsSpace(s[0])
  {
    if s == [] then (End, 0)
    else if s[0] == '>' then if |s| > 1 && s[1] == '>' then (Double, 2) else (Symbol('>'), 1)
    else if IsSymbol(s[0]) then (Symbol(s[0]), 1)
    else (Word(s[..WordLength(s)]), WordLength(s))
  }

  lemma TokenLength(s: string)
    requires s != [] ==> !IsSpace(s[0])
    ensures TokenOf(s).1 <= |s| && (s != [] ==> TokenOf(s).1 > 0)
  {
  }

  datatype Lexed = Lexed(tok: Token, rest: string)

  /** The next token and what follows it. */
  function GetToken(s: string): (r: Lexed)
    ensures |r.rest| <= |s| && (SkipSpace(s) != [] ==> |r.rest| < |s|) && (r.tok == End <==> SkipSpace(s) == [])
  {
    var t := SkipSpace(s);
    TokenLength(t);
    var (tok, n) := TokenOf(t);
    Lexed(tok, SkipSpace(t[n..]))
  }

  /** The next token starts with one of the given characters. */
  predicate Peek(s: string, toks: string) {
    var t := SkipSpace(s);
    t != [] && t[0] in toks
  }

  // --- the grammar ------------------------------------------------------------------------------------

  datatype Parse<T> = Ok(value: T, rest: string) | Error

  function ModeOf(tok: Token): Mode {
    if tok == Symbol('<') then Read else if tok == Symbol('>') then Truncate else Append
  }

  /** A run of redirections, in the order in which they are written. */
  function ParseRedirs(s: string): (r: Parse<seq<Redirection<string>>>)
    ensures r.Ok? ==> |r.rest| <= |s|
    decreases |s|
  {
    if !Peek(s, "<>") then Ok([], SkipSpace(s))
    else
      var op := GetToken(s);
      var file := GetToken(op.rest);
      if !file.tok.Word? then Error
      else
        match ParseRedirs(file.rest)
        case Error => Error
        case Ok(more, rest) => Ok([Redirection(file.tok.text, ModeOf(op.tok))] + more, rest)
  }

  /** The redirections wrap the command, the first one innermost. */
  function Wrap<W>(cmd: Cmd<W>, redirs: seq<Redirection<W>>): Cmd<W>
    decreases |redirs|
  {
    if redirs == [] then cmd
    else
      var last := |redirs| - 1;
      Redir(Wrap(cmd, redirs[..last]), redirs[last].file, redirs[last].mode)
  }

  datatype Simple = Simple(argv: seq<string>, redirs: seq<Redirection<string>>)

  /** The words and redirections of a simple command, after `argc` words. */
  function ParseArgs(s: string, argc: nat): (r: Parse<Simple>)
    ensures r.Ok? ==> |r.rest| <= |s|
    decreases |s|
  {
    if Peek(s, "|)&;") then Ok(Simple([], []), SkipSpace(s))
    else
      var word := GetToken(s);
      if word.tok == End then Ok(Simple([], []), word.rest)
      else if !word.tok.Word? || argc + 1 >= MAXARGS then Error
      else
        match ParseRedirs(word.rest)
        case Error => Error
        case Ok(redirs, rest) =>
          match ParseArgs(rest, argc + 1)
          case Error => Error
          case Ok(more, rest') => Ok(Simple([word.tok.text] + more.argv, redirs + more.redirs), rest')
  }

  function ParseExec(s: string): (r: Parse<Cmd<string>>)
    ensures r.Ok? ==> |r.rest| <= |s|
    decreases |s|, 1
  {
    if Peek(s, "(") then ParseBlock(s)
    else
      match ParseRedirs(s)
      case Error => Error
      case Ok(redirs, rest) =>
        match ParseArgs(rest, 0)
        case Error => Error
        case Ok(simple, rest') => Ok(Wrap(Exec(simple.argv), redirs + simple.redirs), rest')
  }

  function ParseBlock(s: string): (r: Parse<Cmd<string>>)
    requires Peek(s, "(")
    ensures r.Ok? ==> |r.rest| <= |s|
    decreases |s|, 0
  {
    match ParseLine(GetToken(s).rest)
    case Error => Error
    case Ok(cmd, rest) =>
      if !Peek(rest, ")") then Error
      else
        match ParseRedirs(GetToken(rest).rest)
        case Error => Error
        case Ok(redirs, rest') => Ok(Wrap(cmd, redirs), rest')
  }

  function ParsePipe(s: string): (r: Parse<Cmd<string>>)
    ensures r.Ok? ==> |r.rest| <= |s|
    decreases |s|, 2
  {
    match ParseExec(s)
    case Error => Error
    case Ok(left, rest) =>
      if !Peek(rest, "|") then Ok(left, SkipSpace(rest))
      else
        match ParsePipe(GetToken(rest).rest)
        case Error => Error
        case Ok(right, rest') => Ok(Pipe(left, right), rest')
  }

  /** The `&` signs after a pipeline. */
  function Backs(cmd: Cmd<string>, s: string): (r: (Cmd<string>, string))
    ensures |r.1| <= |s|
    decreases |s|
  {
    if Peek(s, "&") then Backs(Back(cmd), GetToken(s).rest) else (cmd, SkipSpace(s))
  }

  function ParseLine(s: string): (r: Parse<Cmd<string>>)
    ensures r.Ok? ==> |r.rest| <= |s|
    decreases |s|, 3
  {
    match ParsePipe(s)
    case Error => Error
    case Ok(first, rest) =>
      var (cmd, rest') := Backs(first, rest);
      if !Peek(rest', ";") then Ok(cmd, rest')
      else
        match ParseLine(GetToken(rest').rest)
        case Error => Error
        case Ok(right, rest'') => Ok(List(cmd, right), rest'')
  }

  /** A whole line. */
  function ParseCmd(s: string): Parse<Cmd<string>> {
    match ParseLine(s)
    case Error => Error
    case Ok(cmd, rest) => if SkipSpace(rest) == [] then Ok(cmd, []) else Error
  }
}
