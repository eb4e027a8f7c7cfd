/** Printing a command with parentheses and parsing it gives the command back. */
module ShellRoundTrip {
  import opened ShellGrammar

  // --- printing -------------------------------------------------------------------------------------

  function PrintArgs(argv: seq<string>): string {
    if argv == [] then "" else if |argv| == 1 then argv[0] else argv[0] + " " + PrintArgs(argv[1..])
  }

  function Sign(mode: Mode): string {
    match mode
    case Read => "<"
    case Truncate => ">"
    case Append => ">>"
  }

  function Print(c: Cmd<string>): string
    decreases c, 0
  {
    match c
    case Exec(argv) => PrintArgs(argv)
    case Redir(cmd, file, mode) => Block(cmd) + Sign(mode) + file
    case Pipe(left, right) => Block(left) + "|" + Block(right)
    case List(left, right) => Block(left) + ";" + Block(right)
    case Back(cmd) => Block(cmd) + "&"
  }

  function Block(c: Cmd<string>): string
    decreases c, 1
  {
    "(" + Print(c) + ")"
  }

  predicate IsWord(w: string) {
    w != [] && forall i :: 0 <= i < |w| ==> IsWordChar(w[i])
  }

  /** Words are words, and a simple command has at most nine of them. */
  predicate Printable(c: Cmd<string>) {
    match c
    case Exec(argv) => |argv| < MAXARGS && forall i :: 0 <= i < |argv| ==> IsWord(argv[i])
    case Redir(cmd, file, mode) => Printable(cmd) && IsWord(file)
    case Pipe(left, right) => Printable(left) && Printable(right)
    case List(left, right) => Printable(left) && Printable(right)
    case Back(cmd) => Printable(cmd)
  }

  /** The text is empty or starts with something other than a space. */
  predicate Solid(s: string) {
    s == [] || !IsSpace(s[0])
  }

  /** What may follow a printed line: nothing, or a closing parenthesis. */
  predicate Closes(s: string) {
    s == [] || s[0] == ')'
  }

  // --- shapes of texts ----------------------------------------------------------------------------------

  lemma Concat3(a: string, b: string, c: string)
    ensures (a + b) + c == a + (b + c)
  {
  }

  lemma ArgsShape(argv: seq<string>, rest: string)
    requires |argv| > 1
    ensures PrintArgs(argv) + rest == argv[0] + ([' '] + (PrintArgs(argv[1..]) + rest))
  {
    Concat3(argv[0] + " ", PrintArgs(argv[1..]), rest);
    Concat3(argv[0], " ", PrintArgs(argv[1..]) + rest);
  }

  lemma BlockShape(c: Cmd<string>, after: string)
    ensures Block(c) + after == ['('] + (Print(c) + ([')'] + after))
  {
    Concat3("(" + Print(c), ")", after);
    Concat3("(", Print(c), [')'] + after);
  }

  /** A block starts with its parenthesis. */
  lemma BlockStart(c: Cmd<string>, after: string)
    ensures Solid(Block(c) + after) && SkipSpace(Block(c) + after) == Block(c) + after
  {
    BlockShape(c, after);
  }

  /** Two blocks with a sign between them. */
  lemma PairShape(left: Cmd<string>, sign: char, right: Cmd<string>, rest: string)
    ensures Block(left) + [sign] + Block(right) + rest == Block(left) + ([sign] + (Block(right) + rest))
  {
    Concat3(Block(left) + [sign], Block(right), rest);
    Concat3(Block(left), [sign], Block(right) + rest);
  }

  lemma RedirShape(c: Cmd<string>, file: string, mode: Mode, rest: string)
    ensures Print(Redir(c, file, mode)) + rest == Block(c) + (Sign(mode) + (file + rest))
  {
    Concat3(Block(c) + Sign(mode), file, rest);
    Concat3(Block(c), Sign(mode), file + rest);
  }

  lemma PeekSign(sign: char, after: string, toks: string)
    requires !IsSpace(sign)
    ensures Solid([sign] + after) && SkipSpace([sign] + after) == [sign] + after
            && (Peek([sign] + after, toks) <==> sign in toks)
  {
  }

  // --- tokens ------------------------------------------------------------------------------------------

  lemma {:induction false} WordThen(w: string, rest: string)
    requires (forall i :: 0 <= i < |w| ==> IsWordChar(w[i])) && (rest == [] || !IsWordChar(rest[0]))
    ensures WordLength(w + rest) == |w|
  {
    if w == [] {
      assert w + rest == rest;
    } else {
      assert (w + rest)[1..] == w[1..] + rest;
      WordThen(w[1..], rest);
    }
  }

  lemma GetWord(w: string, rest: string)
    requires IsWord(w) && (rest == [] || !IsWordChar(rest[0]))
    ensures GetToken(w + rest) == Lexed(Word(w), SkipSpace(rest))
  {
    WordThen(w, rest);
    var s := w + rest;
    assert s[0] == w[0] && SkipSpace(s) == s;
    assert s[..|w|] == w && s[|w|..] == rest;
  }

  lemma GetSymbol(c: char, rest: string)
    requires IsSymbol(c) && (c == '>' ==> rest == [] || rest[0] != '>')
    ensures GetToken([c] + rest) == Lexed(Symbol(c), SkipSpace(rest))
  {
    var s := [c] + rest;
    assert SkipSpace(s) == s && s[1..] == rest;
  }

  lemma GetSign(mode: Mode, rest: string)
    requires rest != [] && rest[0] != '>'
    ensures Peek(Sign(mode) + rest, "<>") && Solid(Sign(mode) + rest)
    ensures GetToken(Sign(mode) + rest).rest == SkipSpace(rest) && ModeOf(GetToken(Sign(mode) + rest).tok) == mode
  {
    match mode
    case Read =>
      GetSymbol('<', rest);
      PeekSign('<', rest, "<>");
    case Truncate =>
      GetSymbol('>', rest);
      PeekSign('>', rest, "<>");
    case Append =>
      GetDouble(rest);
      Concat3(">", ">", rest);
      PeekSign('>', ">" + rest, "<>");
  }

  lemma GetDouble(rest: string)
    ensures GetToken(">>" + rest) == Lexed(Double, SkipSpace(rest))
  {
    var s := ">>" + rest;
    assert s[0] == '>' && s[1] == '>' && SkipSpace(s) == s && s[2..] == rest;
  }

  // --- one step of each parser ---------------------------------------------------------------------------

  lemma RedirsOne(s: string, op: Lexed, file: string, mid: string, rest: string)
    requires Peek(s, "<>") && GetToken(s) == op && GetToken(op.rest) == Lexed(Word(file), mid)
             && ParseRedirs(mid) == Ok([], rest)
    ensures ParseRedirs(s) == Ok([Redirection(file, ModeOf(op.tok))], rest)
  {
    assert [Redirection(file, ModeOf(op.tok))] + [] == [Redirection(file, ModeOf(op.tok))];
  }

  lemma ArgsOne(s: string, argc: nat, w: string, mid: string, more: seq<string>, rest: string)
    requires !Peek(s, "|)&;") && GetToken(s) == Lexed(Word(w), mid) && argc + 1 < MAXARGS
    requires ParseRedirs(mid) == Ok([], mid) && ParseArgs(mid, argc + 1) == Ok(Simple(more, []), rest)
    ensures ParseArgs(s, argc) == Ok(Simple([w] + more, []), rest)
  {
    var none: seq<Redirection<string>> := [];
    assert none + none == none;
  }

  lemma PipeMore(s: string, left: Cmd<string>, mid: string, right: Cmd<string>, rest: string)
    requires ParseExec(s) == Ok(left, mid) && Peek(mid, "|") && ParsePipe(GetToken(mid).rest) == Ok(right, rest)
    ensures ParsePipe(s) == Ok(Pipe(left, right), rest)
  {
  }

  lemma PipeStops(s: string, c: Cmd<string>, rest: string)
    requires ParseExec(s) == Ok(c, rest) && Solid(rest) && !Peek(rest, "|")
    ensures ParsePipe(s) == Ok(c, rest)
  {
  }

  lemma LineMore(s: string, left: Cmd<string>, mid: string, right: Cmd<string>, rest: string)
    requires ParsePipe(s) == Ok(left, mid) && Solid(mid) && !Peek(mid, "&") && Peek(mid, ";")
             && ParseLine(GetToken(mid).rest) == Ok(right, rest)
    ensures ParseLine(s) == Ok(List(left, right), rest)
  {
    assert Backs(left, mid) == (left, mid);
  }

  lemma LineBackground(s: string, c: Cmd<string>, mid: string, rest: string)
    requires ParsePipe(s) == Ok(c, mid) && Peek(mid, "&") && GetToken(mid).rest == rest && Closes(rest)
    ensures ParseLine(s) == Ok(Back(c), rest)
  {
    assert Backs(Back(c), rest) == (Back(c), rest);
    assert Backs(c, mid) == Backs(Back(c), rest);
  }

  // --- simple commands ----------------------------------------------------------------------------------

  lemma ArgsStart(argv: seq<string>, rest: string)
    requires (forall i :: 0 <= i < |argv| ==> IsWord(argv[i])) && Closes(rest)
    ensures var s := PrintArgs(argv) + rest;
            Solid(s) && (argv != [] ==> s != [] && IsWordChar(s[0])) && (argv == [] ==> s == rest)
  {
    if argv == [] {
      assert PrintArgs(argv) + rest == rest;
    } else {
      assert PrintArgs(argv)[0] == argv[0][0];
    }
  }

  lemma NoRedirs(s: string)
    requires Solid(s) && !Peek(s, "<>")
    ensures ParseRedirs(s) == Ok([], s)
  {
  }

  lemma WordFirst(s: string)
    requires s != [] && IsWordChar(s[0])
    ensures Solid(s) && SkipSpace(s) == s && s[0] != '>' && !Peek(s, "|)&;") && !Peek(s, "<>") && !Peek(s, "(")
  {
  }

  lemma ClosesFirst(s: string)
    requires Closes(s)
    ensures Solid(s) && SkipSpace(s) == s && !Peek(s, "<>") && !Peek(s, "(") && !Peek(s, "|") && !Peek(s, "&")
            && !Peek(s, ";")
  {
  }

  lemma NoArgs(rest: string, argc: nat)
    requires Closes(rest)
    ensures ParseArgs(rest, argc) == Ok(Simple([], []), rest)
  {
    ClosesFirst(rest);
  }

  /** Before the words of a simple command there is no redirection. */
  lemma ArgsNoRedirs(argv: seq<string>, rest: string)
    requires (forall i :: 0 <= i < |argv| ==> IsWord(argv[i])) && Closes(rest)
    ensures ParseRedirs(PrintArgs(argv) + rest) == Ok([], PrintArgs(argv) + rest) && !Peek(PrintArgs(argv) + rest, "(")
    ensures argv != [] ==> !Peek(PrintArgs(argv) + rest, "|)&;")
  {
    ArgsStart(argv, rest);
    if argv == [] {
      ClosesFirst(rest);
    } else {
      WordFirst(PrintArgs(argv) + rest);
    }
    NoRedirs(PrintArgs(argv) + rest);
  }

  lemma {:induction false} ArgsBack(argv: seq<string>, argc: nat, rest: string)
    requires (forall i :: 0 <= i < |argv| ==> IsWord(argv[i])) && Closes(rest) && argc + |argv| < MAXARGS
    ensures ParseArgs(PrintArgs(argv) + rest, argc) == Ok(Simple(argv, []), rest)
    decreases |argv|
  {
    if argv == [] {
      ArgsStart(argv, rest);
      NoArgs(rest, argc);
    } else {
      ArgsBack(argv[1..], argc + 1, rest);
      OneMoreArg(argv, argc, rest);
    }
  }

  lemma OneMoreArg(argv: seq<string>, argc: nat, rest: string)
    requires (forall i :: 0 <= i < |argv| ==> IsWord(argv[i])) && Closes(rest) && argc + 1 < MAXARGS && argv != []
    requires ParseArgs(PrintArgs(argv[1..]) + rest, argc + 1) == Ok(Simple(argv[1..], []), rest)
    ensures ParseArgs(PrintArgs(argv) + rest, argc) == Ok(Simple(argv, []), rest)
  {
    var s, mid, more := PrintArgs(argv) + rest, PrintArgs(argv[1..]) + rest, argv[1..];
    ArgsNoRedirs(argv, rest);
    ArgsNoRedirs(more, rest);
    FirstArg(argv, rest);
    ArgsOne(s, argc, argv[0], mid, more, rest);
    assert [argv[0]] + more == argv;
  }

  /** The first word, and the text of the others. */
  lemma FirstArg(argv: seq<string>, rest: string)
    requires (forall i :: 0 <= i < |argv| ==> IsWord(argv[i])) && Closes(rest) && argv != []
    ensures GetToken(PrintArgs(argv) + rest) == Lexed(Word(argv[0]), PrintArgs(argv[1..]) + rest)
  {
    var mid := PrintArgs(argv[1..]) + rest;
    ArgsStart(argv[1..], rest);
    if |argv| == 1 {
      GetWord(argv[0], rest);
    } else {
      ArgsShape(argv, rest);
      GetWord(argv[0], [' '] + mid);
      SpaceThen(mid);
    }
  }

  lemma SpaceThen(s: string)
    requires Solid(s)
    ensures SkipSpace([' '] + s) == s
  {
    assert ([' '] + s)[1..] == s;
  }

  lemma ExecBack(argv: seq<string>, rest: string)
    requires |argv| < MAXARGS && (forall i :: 0 <= i < |argv| ==> IsWord(argv[i])) && Closes(rest)
    ensures ParseExec(PrintArgs(argv) + rest) == Ok(Exec(argv), rest)
  {
    ArgsNoRedirs(argv, rest);
    ArgsBack(argv, 0, rest);
  }

  // --- blocks --------------------------------------------------------------------------------------------

  /** The line inside a block parses back, whatever follows the block. */
  ghost predicate LineBack(c: Cmd<string>, rest: string) {
    ParseLine(Print(c) + rest) == Ok(c, rest)
  }

  lemma PrintStart(c: Cmd<string>, rest: string)
    requires Printable(c) && Closes(rest)
    ensures Solid(Print(c) + rest)
  {
    match c
    case Exec(argv) => ArgsStart(argv, rest);
    case _ => assert (Print(c) + rest)[0] == '(';
  }

  function WrapParsed(c: Cmd<string>, redirs: Parse<seq<Redirection<string>>>): Parse<Cmd<string>> {
    if redirs.Ok? then Ok(Wrap(c, redirs.value), redirs.rest) else Error
  }

  /** A block in parentheses parses to its contents, wrapped in the redirections after it. */
  lemma BlockBack(c: Cmd<string>, after: string)
    requires Printable(c) && Solid(after) && LineBack(c, [')'] + after)
    ensures ParseExec(Block(c) + after) == WrapParsed(c, ParseRedirs(after))
  {
    var inner := Print(c) + ([')'] + after);
    BlockShape(c, after);
    GetSymbol('(', inner);
    PrintStart(c, [')'] + after);
    PeekSign('(', inner, "(");
    GetSymbol(')', after);
    PeekSign(')', after, ")");
    Parenthesis(Block(c) + after, inner, c, [')'] + after, after);
  }

  lemma Parenthesis(s: string, inner: string, c: Cmd<string>, mid: string, after: string)
    requires Peek(s, "(") && GetToken(s).rest == inner && ParseLine(inner) == Ok(c, mid)
    requires Peek(mid, ")") && GetToken(mid).rest == after
    ensures ParseExec(s) == WrapParsed(c, ParseRedirs(after))
  {
  }

  lemma PipeEnds(s: string, c: Cmd<string>, rest: string)
    requires ParseExec(s) == Ok(c, rest) && Closes(rest)
    ensures ParsePipe(s) == Ok(c, rest)
  {
  }

  lemma LineEnds(s: string, c: Cmd<string>, rest: string)
    requires ParsePipe(s) == Ok(c, rest) && Closes(rest)
    ensures ParseLine(s) == Ok(c, rest)
  {
    assert Backs(c, rest) == (c, rest);
  }

  /** A block that is followed by a sign other than a redirection. */
  lemma BlockThen(c: Cmd<string>, sign: char, after: string)
    requires Printable(c) && sign in "|;&" && LineBack(c, [')'] + ([sign] + after))
    ensures ParseExec(Block(c) + ([sign] + after)) == Ok(c, [sign] + after)
  {
    PeekSign(sign, after, "<>");
    BlockBack(c, [sign] + after);
    NoRedirs([sign] + after);
  }

  /** A block at the end. */
  lemma BlockEnds(c: Cmd<string>, rest: string)
    requires Printable(c) && Closes(rest) && LineBack(c, [')'] + rest)
    ensures ParseExec(Block(c) + rest) == Ok(c, rest) && ParsePipe(Block(c) + rest) == Ok(c, rest)
    ensures ParseLine(Block(c) + rest) == Ok(c, rest)
  {
    BlockBack(c, rest);
    NoRedirs(rest);
    PipeEnds(Block(c) + rest, c, rest);
    LineEnds(Block(c) + rest, c, rest);
  }

  // --- each kind of command --------------------------------------------------------------------------------

  lemma SignBack(file: string, mode: Mode, rest: string)
    requires IsWord(file) && Closes(rest)
    ensures Solid(Sign(mode) + (file + rest))
            && ParseRedirs(Sign(mode) + (file + rest)) == Ok([Redirection(file, mode)], rest)
  {
    var s := Sign(mode) + (file + rest);
    WordFirst(file + rest);
    GetSign(mode, file + rest);
    ClosesFirst(rest);
    GetWord(file, rest);
    NoRedirs(rest);
    RedirsOne(s, GetToken(s), file, rest, rest);
  }

  lemma RedirBack(c: Cmd<string>, file: string, mode: Mode, rest: string)
    requires Printable(c) && IsWord(file) && Closes(rest) && LineBack(c, [')'] + (Sign(mode) + (file + rest)))
    ensures LineBack(Redir(c, file, mode), rest)
  {
    var s := Print(Redir(c, file, mode)) + rest;
    RedirShape(c, file, mode, rest);
    SignBack(file, mode, rest);
    BlockBack(c, Sign(mode) + (file + rest));
    WrapOne(c, Redirection(file, mode));
    PipeEnds(s, Redir(c, file, mode), rest);
    LineEnds(s, Redir(c, file, mode), rest);
  }

  lemma WrapOne(c: Cmd<string>, r: Redirection<string>)
    ensures Wrap(c, [r]) == Redir(c, r.file, r.mode)
  {
    assert [r][..0] == [];
  }

  lemma PipeBack(left: Cmd<string>, right: Cmd<string>, rest: string)
    requires Printable(left) && Printable(right) && Closes(rest)
    requires LineBack(left, [')'] + (['|'] + (Block(right) + rest))) && LineBack(right, [')'] + rest)
    ensures LineBack(Pipe(left, right), rest)
  {
    var s, after := Print(Pipe(left, right)) + rest, Block(right) + rest;
    PairShape(left, '|', right, rest);
    BlockThen(left, '|', after);
    PeekSign('|', after, "|");
    GetSymbol('|', after);
    BlockStart(right, rest);
    BlockEnds(right, rest);
    PipeMore(s, left, ['|'] + after, right, rest);
    LineEnds(s, Pipe(left, right), rest);
  }

  lemma ListBack(left: Cmd<string>, right: Cmd<string>, rest: string)
    requires Printable(left) && Printable(right) && Closes(rest)
    requires LineBack(left, [')'] + ([';'] + (Block(right) + rest))) && LineBack(right, [')'] + rest)
    ensures LineBack(List(left, right), rest)
  {
    var s, after := Print(List(left, right)) + rest, Block(right) + rest;
    PairShape(left, ';', right, rest);
    assert s == Block(left) + ([';'] + after);
    BlockThen(left, ';', after);
    BlockStart(right, rest);
    BlockEnds(right, rest);
    Semicolon(s, left, after, right, rest);
  }

  lemma Semicolon(s: string, left: Cmd<string>, after: string, right: Cmd<string>, rest: string)
    requires ParseExec(s) == Ok(left, [';'] + after) && SkipSpace(after) == after && ParseLine(after) == Ok(right, rest)
    ensures ParseLine(s) == Ok(List(left, right), rest)
  {
    PeekSign(';', after, ";");
    PeekSign(';', after, "|");
    PeekSign(';', after, "&");
    GetSymbol(';', after);
    PipeStops(s, left, [';'] + after);
    LineMore(s, left, [';'] + after, right, rest);
  }

  lemma BackBack(c: Cmd<string>, rest: string)
    requires Printable(c) && Closes(rest) && LineBack(c, [')'] + (['&'] + rest))
    ensures LineBack(Back(c), rest)
  {
    var s := Print(Back(c)) + rest;
    Concat3(Block(c), "&", rest);
    assert s == Block(c) + (['&'] + rest);
    BlockThen(c, '&', rest);
    Ampersand(s, c, rest);
  }

  lemma Ampersand(s: string, c: Cmd<string>, rest: string)
    requires ParseExec(s) == Ok(c, ['&'] + rest) && Closes(rest)
    ensures ParseLine(s) == Ok(Back(c), rest)
  {
    PeekSign('&', rest, "&");
    PeekSign('&', rest, "|");
    GetSymbol('&', rest);
    OneBackground(s, c, ['&'] + rest, rest);
  }

  lemma OneBackground(s: string, c: Cmd<string>, mid: string, rest: string)
    requires ParseExec(s) == Ok(c, mid) && Solid(mid) && Closes(rest)
    requires !Peek(mid, "|") && Peek(mid, "&") && GetToken(mid).rest == rest
    ensures ParseLine(s) == Ok(Back(c), rest)
  {
    PipeStops(s, c, mid);
    LineBackground(s, c, mid, rest);
  }

  /** Every printable command parses back, before the end or before a closing parenthesis. */
  lemma {:induction false} PrintedBack(c: Cmd<string>, rest: string)
    requires Printable(c) && Closes(rest)
    ensures LineBack(c, rest)
    decreases c
  {
    match c
    case Exec(argv) =>
      ExecBack(argv, rest);
      PipeEnds(PrintArgs(argv) + rest, c, rest);
      LineEnds(PrintArgs(argv) + rest, c, rest);
    case Redir(cmd, file, mode) =>
      PrintedBack(cmd, [')'] + (Sign(mode) + (file + rest)));
      RedirBack(cmd, file, mode, rest);
    case Pipe(left, right) =>
      PrintedBack(left, [')'] + (['|'] + (Block(right) + rest)));
      PrintedBack(right, [')'] + rest);
      PipeBack(left, right, rest);
    case List(left, right) =>
      PrintedBack(left, [')'] + ([';'] + (Block(right) + rest)));
      PrintedBack(right, [')'] + rest);
      ListBack(left, right, rest);
    case Back(cmd) =>
      PrintedBack(cmd, [')'] + (['&'] + rest));
      BackBack(cmd, rest);
  }

  /** Parsing the parenthesised printing of a command gives the command back. */
  lemma RoundTrip(c: Cmd<string>)
    requires Printable(c)
    ensures ParseCmd(Print(c)) == Ok(c, [])
  {
    PrintedBack(c, []);
    assert Print(c) + [] == Print(c);
  }
}
