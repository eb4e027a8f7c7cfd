/** The shell's recursive-descent parser, which moves one position through the line, and
    `nulterminate`. */
module ShellParser {
  import G = ShellGrammar
  import opened ShellGrammar

  /** A word as the parser keeps it: where it starts, and where it ends, in the line. */
  datatype Span = Span(q: int, eq: int)

  function TextOf(line: string, w: Span): string {
    if 0 <= w.q <= w.eq <= |line| then line[w.q..w.eq] else ""
  }

  function Texts(line: string, ws: seq<Span>): (r: seq<string>)
    ensures |r| == |ws| && forall i :: 0 <= i < |ws| ==> r[i] == TextOf(line, ws[i])
  {
    seq(|ws|, i requires 0 <= i < |ws| => TextOf(line, ws[i]))
  }

  function RedirTexts(line: string, rs: seq<Redirection<Span>>): (r: seq<Redirection<string>>)
    ensures |r| == |rs| && forall i :: 0 <= i < |rs| ==> r[i] == Redirection(TextOf(line, rs[i].file), rs[i].mode)
  {
    seq(|rs|, i requires 0 <= i < |rs| => Redirection(TextOf(line, rs[i].file), rs[i].mode))
  }

  /** The command with its words spelled out. */
  function Spell(line: string, c: Cmd<Span>): Cmd<string> {
    match c
    case Exec(argv) => Exec(Texts(line, argv))
    case Redir(cmd, file, mode) => Redir(Spell(line, cmd), TextOf(line, file), mode)
    case Pipe(left, right) => Pipe(Spell(line, left), Spell(line, right))
    case List(left, right) => List(Spell(line, left), Spell(line, right))
    case Back(cmd) => Back(Spell(line, cmd))
  }

  lemma {:induction false} SpellWrap(line: string, c: Cmd<Span>, rs: seq<Redirection<Span>>)
    ensures Spell(line, Wrap(c, rs)) == Wrap(Spell(line, c), RedirTexts(line, rs))
    decreases |rs|
  {
    if rs != [] {
      var last := |rs| - 1;
      SpellWrap(line, c, rs[..last]);
      assert RedirTexts(line, rs)[..last] == RedirTexts(line, rs[..last]);
    }
  }

  // --- words keep clear of each other -------------------------------------------------------------------

  /** A whole word of the line: it cannot be made longer at its end. */
  predicate WordAt(line: string, w: Span) {
    && 0 <= w.q < w.eq <= |line| && IsWordChar(line[w.q]) && (forall i :: w.q <= i < w.eq ==> IsWordChar(line[i]))
    && (w.eq < |line| ==> !IsWordChar(line[w.eq]))
  }

  /** The end of neither word falls into the other. */
  predicate Apart(v: Span, w: Span) {
    v == w || v.eq < w.q || w.eq < v.q
  }

  ghost predicate Clear(line: string, ws: set<Span>, lo: int, hi: int) {
    && (forall w :: w in ws ==> WordAt(line, w) && lo <= w.q && w.eq <= hi)
    && (forall v, w :: v in ws && w in ws ==> Apart(v, w))
  }

  lemma ClearJoin(line: string, a: set<Span>, lo: int, mid: int, b: set<Span>, hi: int)
    requires Clear(line, a, lo, mid) && Clear(line, b, mid, hi) && lo <= mid <= hi
    ensures Clear(line, a + b, lo, hi)
  {
    forall v, w | v in a && w in b ensures Apart(v, w) {
      assert WordAt(line, v) && WordAt(line, w);
      assert v.eq <= mid <= w.q && v.eq != w.q;
    }
  }

  function SetOf(ws: seq<Span>): set<Span> {
    set w | w in ws
  }

  function Files(rs: seq<Redirection<Span>>): set<Span> {
    set r | r in rs :: r.file
  }

  function Spans(c: Cmd<Span>): set<Span> {
    match c
    case Exec(argv) => SetOf(argv)
    case Redir(cmd, file, mode) => Spans(cmd) + {file}
    case Pipe(left, right) => Spans(left) + Spans(right)
    case List(left, right) => Spans(left) + Spans(right)
    case Back(cmd) => Spans(cmd)
  }

  lemma {:induction false} SpansWrap(c: Cmd<Span>, rs: seq<Redirection<Span>>)
    ensures Spans(Wrap(c, rs)) == Spans(c) + Files(rs)
    decreases |rs|
  {
    if rs != [] {
      var last := |rs| - 1;
      SpansWrap(c, rs[..last]);
      assert rs == rs[..last] + [rs[last]];
      assert Files(rs) == Files(rs[..last]) + {rs[last].file};
    }
  }

  // --- tokens --------------------------------------------------------------------------------------------

  /** The code that `gettoken` returns. */
  function Code(tok: Token): char {
    match tok
    case End => '\0'
    case Symbol(c) => c
    case Double => '+'
    case Word(_) => 'a'
  }

  lemma SkipOne(line: string, p: nat)
    requires p < |line| && IsSpace(line[p])
    ensures SkipSpace(line[p..]) == SkipSpace(line[p + 1..])
  {
    assert line[p..][1..] == line[p + 1..];
  }

  lemma WordOne(line: string, p: nat)
    requires p < |line| && IsWordChar(line[p])
    ensures WordLength(line[p..]) == 1 + WordLength(line[p + 1..])
  {
    assert line[p..][1..] == line[p + 1..];
  }

  // --- putting parses together --------------------------------------------------------------------------

  lemma SkipTwice(s: string)
    ensures SkipSpace(SkipSpace(s)) == SkipSpace(s)
  {
  }

  function Prepend(rs: seq<Redirection<string>>, p: Parse<seq<Redirection<string>>>): Parse<seq<Redirection<string>>> {
    if p.Ok? then Ok(rs + p.value, p.rest) else Error
  }

  lemma PrependNone(p: Parse<seq<Redirection<string>>>)
    ensures Prepend([], p) == p
  {
    if p.Ok? {
      assert [] + p.value == p.value;
    }
  }

  lemma SignCode(s: string)
    requires G.Peek(s, "<>")
    ensures var tok := G.GetToken(s).tok;
            ModeOf(tok) == if Code(tok) == '<' then Read else if Code(tok) == '>' then Truncate else Append
  {
  }

  /** One more redirection has been read. */
  lemma RedirsStep(s: string, done: seq<Redirection<string>>, file: Lexed, mode: Mode)
    requires G.Peek(s, "<>") && file == G.GetToken(G.GetToken(s).rest) && file.tok.Word?
             && mode == ModeOf(G.GetToken(s).tok)
    ensures Prepend(done, G.ParseRedirs(s))
            == Prepend(done + [Redirection(file.tok.text, mode)], G.ParseRedirs(file.rest))
  {
    var one := Redirection(file.tok.text, mode);
    var p := G.ParseRedirs(file.rest);
    if p.Ok? {
      assert done + ([one] + p.value) == (done + [one]) + p.value;
    }
  }

  lemma RedirsSkip(s: string)
    ensures G.ParseRedirs(SkipSpace(s)) == G.ParseRedirs(s)
  {
    SkipTwice(s);
  }

  function Join(argv: seq<string>, rs: seq<Redirection<string>>, p: Parse<Simple>): Parse<Simple> {
    if p.Ok? then Ok(Simple(argv + p.value.argv, rs + p.value.redirs), p.rest) else Error
  }

  lemma JoinNone(rs: seq<Redirection<string>>, p: Parse<Simple>)
    ensures Join([], rs, p) == if p.Ok? then Ok(Simple(p.value.argv, rs + p.value.redirs), p.rest) else Error
  {
    if p.Ok? {
      assert [] + p.value.argv == p.value.argv;
    }
  }

  lemma JoinEnd(argv: seq<string>, rs: seq<Redirection<string>>, rest: string)
    ensures Join(argv, rs, Ok(Simple([], []), rest)) == Ok(Simple(argv, rs), rest)
  {
    assert argv + [] == argv && rs + [] == rs;
  }

  lemma ArgsSkip(s: string, argc: nat)
    ensures G.ParseArgs(SkipSpace(s), argc) == G.ParseArgs(s, argc)
  {
    SkipTwice(s);
  }

  /** One more word, with the redirections after it, has been read. */
  lemma ArgsStep(s: string, argc: nat, argv: seq<string>, rs: seq<Redirection<string>>, w: string,
                 added: seq<Redirection<string>>, rest: string)
    requires !G.Peek(s, "|)&;") && G.GetToken(s).tok == Word(w) && argc + 1 < MAXARGS
    requires G.ParseRedirs(G.GetToken(s).rest) == Ok(added, rest)
    ensures Join(argv, rs, G.ParseArgs(s, argc)) == Join(argv + [w], rs + added, G.ParseArgs(rest, argc + 1))
  {
    var p := G.ParseArgs(rest, argc + 1);
    if p.Ok? {
      assert argv + ([w] + p.value.argv) == (argv + [w]) + p.value.argv;
      assert rs + (added + p.value.redirs) == (rs + added) + p.value.redirs;
    }
  }

  /** The words that have been read so far. */
  function Held(argv: seq<Span>, rs: seq<Redirection<Span>>): set<Span> {
    SetOf(argv) + Files(rs)
  }

  lemma HeldMore(line: string, argv: seq<Span>, rs: seq<Redirection<Span>>, w: Span, added: seq<Redirection<Span>>,
                 lo: int, mid: int, after: int, hi: int)
    requires Clear(line, Held(argv, rs), lo, mid) && WordAt(line, w) && lo <= mid <= w.q && w.eq <= after <= hi
    requires Clear(line, Files(added), after, hi)
    ensures Clear(line, Held(argv + [w], rs + added), lo, hi)
  {
    assert Held(argv + [w], rs + added) == Held(argv, rs) + {w} + Files(added);
    ClearJoin(line, Held(argv, rs), lo, mid, {w}, after);
    ClearJoin(line, Held(argv, rs) + {w}, lo, after, Files(added), hi);
  }

  datatype Round = Stop | More | Bad

  /** What one round of the loop of `parseexec` from position `here` to position `p` has found. */
  ghost predicate RoundOk(line: string, here: int, argc: nat, r: Round, w: Span, added: seq<Redirection<Span>>, p: int)
    requires 0 <= here <= |line| && 0 <= p <= |line|
  {
    var word := G.GetToken(line[here..]);
    match r
    case Stop => word.tok == End && line[p..] == word.rest
    case Bad => word.tok != End && (!word.tok.Word? || argc + 1 >= MAXARGS || G.ParseRedirs(word.rest) == Error)
    case More =>
      && word.tok == Word(TextOf(line, w)) && argc + 1 < MAXARGS
      && G.ParseRedirs(word.rest) == Ok(RedirTexts(line, added), line[p..])
  }

  /** What has been read, with what follows at position `p`, is the goal. */
  ghost predicate Leads(line: string, argv: seq<Span>, rs: seq<Redirection<Span>>, p: int, goal: Parse<Simple>)
    requires 0 <= p <= |line|
  {
    Join(Texts(line, argv), RedirTexts(line, rs), G.ParseArgs(line[p..], |argv|)) == goal
  }

  lemma LeadsMore(line: string, argv: seq<Span>, rs: seq<Redirection<Span>>, here: int, w: Span,
                  added: seq<Redirection<Span>>, p: int, goal: Parse<Simple>)
    requires 0 <= here <= |line| && 0 <= p <= |line| && Leads(line, argv, rs, here, goal)
             && !G.Peek(line[here..], "|)&;")
    requires RoundOk(line, here, |argv|, More, w, added, p)
    ensures Leads(line, argv + [w], rs + added, p, goal)
  {
    var t, r, a, n := Texts(line, argv), RedirTexts(line, rs), RedirTexts(line, added), |argv|;
    var next := G.ParseArgs(line[p..], n + 1);
    assert Join(t, r, G.ParseArgs(line[here..], n)) == Join(t + [TextOf(line, w)], r + a, next) by {
      ArgsStep(line[here..], n, t, r, TextOf(line, w), a, line[p..]);
    }
    TextsMore(line, argv, w);
    RedirTextsMore(line, rs, added);
    assert |argv + [w]| == n + 1;
  }

  lemma TextsMore(line: string, argv: seq<Span>, w: Span)
    ensures Texts(line, argv + [w]) == Texts(line, argv) + [TextOf(line, w)]
  {
  }

  lemma RedirTextsMore(line: string, rs: seq<Redirection<Span>>, added: seq<Redirection<Span>>)
    ensures RedirTexts(line, rs + added) == RedirTexts(line, rs) + RedirTexts(line, added)
  {
  }

  lemma LeadsEnd(line: string, argv: seq<Span>, rs: seq<Redirection<Span>>, here: int, r: Round, w: Span,
                 added: seq<Redirection<Span>>, p: int, goal: Parse<Simple>)
    requires 0 <= here <= |line| && 0 <= p <= |line| && Leads(line, argv, rs, here, goal)
             && !G.Peek(line[here..], "|)&;")
    requires RoundOk(line, here, |argv|, r, w, added, p) && r != More
    ensures goal == if r == Stop then Ok(Simple(Texts(line, argv), RedirTexts(line, rs)), line[p..]) else Error
  {
    if r == Stop {
      JoinEnd(Texts(line, argv), RedirTexts(line, rs), line[p..]);
    }
  }

  lemma LeadsPeek(line: string, argv: seq<Span>, rs: seq<Redirection<Span>>, p: int, goal: Parse<Simple>)
    requires 0 <= p <= |line| && Leads(line, argv, rs, p, goal) && G.Peek(line[p..], "|)&;")
             && SkipSpace(line[p..]) == line[p..]
    ensures goal == Ok(Simple(Texts(line, argv), RedirTexts(line, rs)), line[p..])
  {
    JoinEnd(Texts(line, argv), RedirTexts(line, rs), line[p..]);
  }

  lemma LeadsSkip(line: string, argv: seq<Span>, rs: seq<Redirection<Span>>, here: int, p: int, goal: Parse<Simple>)
    requires 0 <= here <= |line| && 0 <= p <= |line| && Leads(line, argv, rs, here, goal)
             && line[p..] == SkipSpace(line[here..])
    ensures Leads(line, argv, rs, p, goal) && SkipSpace(line[p..]) == line[p..]
            && forall toks :: G.Peek(line[p..], toks) == G.Peek(line[here..], toks)
  {
    ArgsSkip(line[here..], |argv|);
    SkipTwice(line[here..]);
  }

  lemma LeadsStart(line: string, first: seq<Redirection<Span>>, p: int)
    requires 0 <= p <= |line|
    ensures Leads(line, [], first, p, Join([], RedirTexts(line, first), G.ParseArgs(line[p..], 0)))
  {
    assert Texts(line, []) == [];
  }

  // --- whole commands ----------------------------------------------------------------------------------

  lemma TokenSkip(s: string)
    ensures G.GetToken(SkipSpace(s)) == G.GetToken(s) && forall toks :: G.Peek(SkipSpace(s), toks) == G.Peek(s, toks)
  {
    SkipTwice(s);
  }

  lemma BlockSkip(s: string)
    requires G.Peek(s, "(")
    ensures G.Peek(SkipSpace(s), "(") && G.ParseBlock(SkipSpace(s)) == G.ParseBlock(s)
  {
    TokenSkip(s);
  }

  lemma BacksSkip(c: Cmd<string>, s: string)
    ensures Backs(c, SkipSpace(s)) == Backs(c, s)
  {
    TokenSkip(s);
    SkipTwice(s);
  }

  /** The parser has gone from `from` to `to`, and `cmd` is what the grammar says. */
  ghost predicate Matches(line: string, want: Parse<Cmd<string>>, from: int, ok: bool, cmd: Cmd<Span>, to: int) {
    && 0 <= from <= |line| && from <= to <= |line| && ok == want.Ok?
    && (ok ==> Spell(line, cmd) == want.value && line[to..] == want.rest && Clear(line, Spans(cmd), from, to))
  }

  lemma ExecMatches(line: string, from: int, mid: int, first: seq<Redirection<Span>>, argv: seq<Span>,
                    rs: seq<Redirection<Span>>, to: int)
    requires 0 <= from <= mid <= to <= |line| && !G.Peek(line[from..], "(")
    requires G.ParseRedirs(line[from..]) == Ok(RedirTexts(line, first), line[mid..])
    requires G.ParseArgs(line[mid..], 0).Ok? && G.ParseArgs(line[mid..], 0).rest == line[to..]
    requires Texts(line, argv) == G.ParseArgs(line[mid..], 0).value.argv
    requires RedirTexts(line, rs) == RedirTexts(line, first) + G.ParseArgs(line[mid..], 0).value.redirs
    requires Clear(line, Held(argv, rs), from, to)
    ensures Matches(line, G.ParseExec(line[from..]), from, true, Wrap(Exec(argv), rs), to)
  {
    SpellWrap(line, Exec(argv), rs);
    SpansWrap(Exec(argv), rs);
  }

  lemma BlockMatches(line: string, from: int, open: int, cmd: Cmd<Span>, mid: int, close: int,
                     rs: seq<Redirection<Span>>, to: int)
    requires 0 <= from <= open <= mid <= close <= to <= |line| && G.Peek(line[from..], "(")
    requires line[open..] == G.GetToken(line[from..]).rest
             && Matches(line, G.ParseLine(line[open..]), open, true, cmd, mid)
    requires G.Peek(line[mid..], ")") && line[close..] == G.GetToken(line[mid..]).rest
    requires G.ParseRedirs(line[close..]) == Ok(RedirTexts(line, rs), line[to..]) && Clear(line, Files(rs), close, to)
    ensures Matches(line, G.ParseBlock(line[from..]), from, true, Wrap(cmd, rs), to)
  {
    SpellWrap(line, cmd, rs);
    SpansWrap(cmd, rs);
    ClearJoin(line, Spans(cmd), from, close, Files(rs), to);
  }

  /** Two commands one after the other. */
  lemma SpansJoin(line: string, a: Cmd<Span>, from: int, mid: int, b: Cmd<Span>, next: int, to: int)
    requires Clear(line, Spans(a), from, mid) && Clear(line, Spans(b), next, to) && from <= mid <= next <= to
    ensures Clear(line, Spans(a) + Spans(b), from, to)
  {
    ClearJoin(line, Spans(a), from, next, Spans(b), to);
  }

  /** A semicolon and what follows it. */
  lemma RestMatches(line: string, left: Cmd<Span>, from: int, mid: int, right: Cmd<Span>, next: int, ok: bool, to: int)
    requires 0 <= from <= mid <= next <= |line| && Clear(line, Spans(left), from, mid)
    requires G.Peek(line[mid..], ";") && line[next..] == G.GetToken(line[mid..]).rest
    requires Matches(line, G.ParseLine(line[next..]), next, ok, right, to)
    ensures Matches(line, AfterBacks(Spell(line, left), line[mid..]), from, ok, List(left, right), to)
  {
    if ok {
      SpansJoin(line, left, from, mid, right, next, to);
    }
  }

  lemma ScanAngle(line: string, p: nat)
    requires p < |line| && line[p] == '>'
    ensures TokenOf(line[p..]) == if p + 1 < |line| && line[p + 1] == '>' then (Double, 2) else (Symbol('>'), 1)
  {
    assert line[p..][0] == line[p];
    assert p + 1 < |line| ==> line[p..][1] == line[p + 1];
  }

  lemma ScanSymbol(line: string, p: nat)
    requires p < |line| && IsSymbol(line[p]) && line[p] != '>'
    ensures !IsSpace(line[p]) && TokenOf(line[p..]) == (Symbol(line[p]), 1)
  {
    assert line[p..][0] == line[p];
  }

  lemma ScanWord(line: string, p: nat, e: nat)
    requires p < |line| && IsWordChar(line[p]) && e == p + WordLength(line[p..]) && e <= |line|
    ensures TokenOf(line[p..]) == (Word(line[p..e]), e - p) && WordAt(line, Span(p, e))
  {
    var t := line[p..];
    assert t[0] == line[p] && t[..e - p] == line[p..e];
    forall i | p <= i < e ensures IsWordChar(line[i]) {
      assert line[i] == t[i - p];
    }
    assert e < |line| ==> line[e] == t[e - p];
  }

  lemma Sliced(line: string, p: nat, q: nat, e: nat)
    requires p <= q <= e <= |line| && line[q..] == SkipSpace(line[p..]) && e == q + TokenOf(line[q..]).1
    ensures G.GetToken(line[p..]) == Lexed(TokenOf(line[q..]).0, SkipSpace(line[e..]))
  {
    assert line[q..][e - q..] == line[e..];
  }

  lemma BacksStep(c: Cmd<string>, s: string)
    requires G.Peek(s, "&")
    ensures Backs(c, s) == Backs(Back(c), G.GetToken(s).rest)
  {
  }

  lemma Shorter(line: string, here: nat, p: nat)
    requires here <= p <= |line| && line[p..] == G.GetToken(line[here..]).rest && SkipSpace(line[here..]) != []
    ensures here < p
  {
  }

  lemma SamePlace(line: string, p: nat, q: nat)
    requires p <= |line| && q <= |line| && line[p..] == line[q..]
    ensures p == q
  {
    assert |line[p..]| == |line[q..]|;
  }

  lemma ClearWider(line: string, ws: set<Span>, lo: int, mid: int, hi: int)
    requires Clear(line, ws, lo, mid) && mid <= hi
    ensures Clear(line, ws, lo, hi)
  {
  }

  lemma SpansBack(c: Cmd<Span>)
    ensures Spans(Back(c)) == Spans(c)
  {
  }

  lemma BacksEnd(c: Cmd<string>, s: string)
    requires !G.Peek(s, "&") && SkipSpace(s) == s
    ensures Backs(c, s) == (c, s)
  {
  }

  /** What has been read, with the redirections that follow at position `p`, is the goal. */
  ghost predicate RedirsLead(line: string, added: seq<Redirection<Span>>, p: int, goal: Parse<seq<Redirection<string>>>)
    requires 0 <= p <= |line|
  {
    Prepend(RedirTexts(line, added), G.ParseRedirs(line[p..])) == goal
  }

  lemma RedirsLeadStart(line: string, p: int)
    requires 0 <= p <= |line|
    ensures RedirsLead(line, [], p, G.ParseRedirs(line[p..]))
  {
    PrependNone(G.ParseRedirs(line[p..]));
    assert RedirTexts(line, []) == [];
  }

  lemma RedirsLeadSkip(line: string, added: seq<Redirection<Span>>, here: int, p: int,
                       goal: Parse<seq<Redirection<string>>>)
    requires 0 <= here <= |line| && 0 <= p <= |line| && RedirsLead(line, added, here, goal)
             && line[p..] == SkipSpace(line[here..])
    ensures RedirsLead(line, added, p, goal) && SkipSpace(line[p..]) == line[p..]
            && G.Peek(line[p..], "<>") == G.Peek(line[here..], "<>")
  {
    RedirsSkip(line[here..]);
    SkipTwice(line[here..]);
  }

  /** What `OneRedir` has found from position `here` to position `p`. */
  ghost predicate RedirOk(line: string, here: int, ok: bool, r: Redirection<Span>, p: int)
    requires 0 <= here <= |line| && 0 <= p <= |line|
  {
    var op := G.GetToken(line[here..]);
    var file := G.GetToken(op.rest);
    && ok == file.tok.Word?
    && (ok ==> line[p..] == file.rest && TextOf(line, r.file) == file.tok.text && r.mode == ModeOf(op.tok))
  }

  lemma RedirsLeadMore(line: string, added: seq<Redirection<Span>>, here: int, r: Redirection<Span>, p: int,
                       goal: Parse<seq<Redirection<string>>>)
    requires 0 <= here <= |line| && 0 <= p <= |line| && RedirsLead(line, added, here, goal)
             && G.Peek(line[here..], "<>")
    requires RedirOk(line, here, true, r, p)
    ensures RedirsLead(line, added + [r], p, goal)
  {
    var s := line[here..];
    RedirsStep(s, RedirTexts(line, added), G.GetToken(G.GetToken(s).rest), r.mode);
    RedirTextsMore(line, added, [r]);
    assert RedirTexts(line, [r]) == [Redirection(TextOf(line, r.file), r.mode)];
  }

  lemma RedirsLeadBad(line: string, added: seq<Redirection<Span>>, here: int, r: Redirection<Span>, p: int,
                      goal: Parse<seq<Redirection<string>>>)
    requires 0 <= here <= |line| && 0 <= p <= |line| && RedirsLead(line, added, here, goal)
             && G.Peek(line[here..], "<>")
    requires RedirOk(line, here, false, r, p)
    ensures goal == Error
  {
  }

  lemma RedirsLeadEnd(line: string, added: seq<Redirection<Span>>, p: int, goal: Parse<seq<Redirection<string>>>)
    requires 0 <= p <= |line| && RedirsLead(line, added, p, goal) && !G.Peek(line[p..], "<>")
             && SkipSpace(line[p..]) == line[p..]
    ensures goal == Ok(RedirTexts(line, added), line[p..])
  {
    assert RedirTexts(line, added) + [] == RedirTexts(line, added);
  }

  /** What has been read, with the `&` signs at position `p`, is the goal. */
  ghost predicate BacksLead(line: string, cmd: Cmd<Span>, p: int, goal: (Cmd<string>, string))
    requires 0 <= p <= |line|
  {
    Backs(Spell(line, cmd), line[p..]) == goal
  }

  lemma BacksLeadSkip(line: string, cmd: Cmd<Span>, here: int, p: int, goal: (Cmd<string>, string))
    requires 0 <= here <= |line| && 0 <= p <= |line| && BacksLead(line, cmd, here, goal)
             && line[p..] == SkipSpace(line[here..])
    ensures BacksLead(line, cmd, p, goal) && SkipSpace(line[p..]) == line[p..]
            && G.Peek(line[p..], "&") == G.Peek(line[here..], "&")
  {
    BacksSkip(Spell(line, cmd), line[here..]);
    SkipTwice(line[here..]);
  }

  lemma BacksLeadMore(line: string, cmd: Cmd<Span>, here: int, p: int, goal: (Cmd<string>, string))
    requires 0 <= here <= p <= |line| && BacksLead(line, cmd, here, goal) && G.Peek(line[here..], "&")
    requires line[p..] == G.GetToken(line[here..]).rest
    ensures here < p && BacksLead(line, Back(cmd), p, goal)
  {
    BacksStep(Spell(line, cmd), line[here..]);
  }

  /** What follows a pipeline and its `&` signs. */
  function AfterBacks(cmd: Cmd<string>, s: string): Parse<Cmd<string>> {
    if !G.Peek(s, ";") then Ok(cmd, s)
    else
      match G.ParseLine(G.GetToken(s).rest)
      case Error => Error
      case Ok(right, rest) => Ok(List(cmd, right), rest)
  }

  lemma LineIs(s: string, first: Cmd<string>, mid: string, cmd: Cmd<string>, rest: string)
    requires G.ParsePipe(s) == Ok(first, mid) && Backs(first, mid) == (cmd, rest)
    ensures G.ParseLine(s) == AfterBacks(cmd, rest)
  {
  }

  class Parser {
    const line: string
    var ps: int

    ghost predicate Valid()
      reads this
    {
      0 <= ps <= |line| && forall i :: 0 <= i < |line| ==> line[i] != '\0'
    }

    constructor (line: string)
      requires forall i :: 0 <= i < |line| ==> line[i] != '\0'
      ensures Valid() && this.line == line && ps == 0
    {
      this.line, ps := line, 0;
    }

    /** The loops over spaces. */
    method Spaces(from: int) returns (s: int)
      requires 0 <= from <= |line|
      ensures from <= s <= |line| && line[s..] == SkipSpace(line[from..])
    {
      s := from;
      while s < |line| && IsSpace(line[s])
        invariant from <= s <= |line| && SkipSpace(line[s..]) == SkipSpace(line[from..])
      {
        SkipOne(line, s);
        s := s + 1;
      }
    }

    /** The loop over the characters of a word. */
    method WordEnd(from: int) returns (s: int)
      requires 0 <= from <= |line|
      ensures s == from + WordLength(line[from..]) && from <= s <= |line|
    {
      s := from;
      while s < |line| && !IsSpace(line[s]) && !IsSymbol(line[s])
        invariant from <= s <= |line| && s + WordLength(line[s..]) == from + WordLength(line[from..])
      {
        WordOne(line, s);
        s := s + 1;
      }
    }

    /** The token at `from`, where there is no space. */
    method Scan(from: int) returns (ret: char, s: int)
      requires 0 <= from <= |line| && (from < |line| ==> !IsSpace(line[from]))
      ensures from <= s <= |line|
      ensures var (tok, n) := TokenOf(line[from..]);
              ret == Code(tok) && s == from + n
                && (tok.Word? ==> WordAt(line, Span(from, s)) && line[from..s] == tok.text)
    {
      if from == |line| {
        return '\0', from;
      }
      s := from + 1;
      if line[from] == '>' {
        ScanAngle(line, from);
        if s < |line| && line[s] == '>' {
          return '+', s + 1;
        }
        return '>', s;
      }
      if IsSymbol(line[from]) {
        ScanSymbol(line, from);
        return line[from], s;
      }
      s := WordEnd(from);
      ScanWord(line, from, s);
      return 'a', s;
    }

    method GetToken() returns (ret: char, q: int, eq: int)
      requires Valid()
      modifies this`ps
      ensures Valid() && old(ps) <= q <= eq <= ps
      ensures var lexed := G.GetToken(old(line[ps..]));
              && ret == Code(lexed.tok) && line[ps..] == lexed.rest
              && (lexed.tok.Word? ==> WordAt(line, Span(q, eq)) && TextOf(line, Span(q, eq)) == lexed.tok.text)
    {
      q := Spaces(ps);
      assert q < |line| ==> line[q..][0] == line[q];
      ret, eq := Scan(q);
      Sliced(line, ps, q, eq);
      ps := Spaces(eq);
    }

    method Peek(toks: string) returns (b: bool)
      requires Valid()
      modifies this`ps
      ensures Valid() && old(ps) <= ps && line[ps..] == SkipSpace(old(line[ps..])) && b == G.Peek(old(line[ps..]), toks)
    {
      ps := Spaces(ps);
      b := ps < |line| && line[ps] in toks;
    }

    /** One redirection: the sign and the file. */
    method OneRedir() returns (ok: bool, r: Redirection<Span>)
      requires Valid() && G.Peek(line[ps..], "<>")
      modifies this`ps
      ensures Valid() && old(ps) < ps && RedirOk(line, old(ps), ok, r, ps)
      ensures ok ==> WordAt(line, r.file) && old(ps) <= r.file.q && r.file.eq <= ps
    {
      ghost var here := ps;
      SignCode(line[ps..]);
      var tok, _, _ := GetToken();
      Shorter(line, here, ps);
      var ret, q, eq := GetToken();
      var mode := if tok == '<' then Read else if tok == '>' then Truncate else Append;
      return ret == 'a', Redirection(Span(q, eq), mode);
    }

    /** Read redirections; false where the code panics. */
    method ParseRedirs() returns (ok: bool, added: seq<Redirection<Span>>)
      requires Valid()
      modifies this`ps
      ensures Valid() && old(ps) <= ps
      ensures var p := G.ParseRedirs(old(line[ps..]));
              ok == p.Ok? && (ok ==> line[ps..] == p.rest && RedirTexts(line, added) == p.value)
      ensures ok ==> Clear(line, Files(added), old(ps), ps)
    {
      added := [];
      ghost var start, goal := ps, G.ParseRedirs(line[ps..]);
      RedirsLeadStart(line, ps);
      var more := Peek("<>");
      RedirsLeadSkip(line, added, start, ps, goal);
      while more
        invariant Valid() && start <= ps && SkipSpace(line[ps..]) == line[ps..] && more == G.Peek(line[ps..], "<>")
        invariant RedirsLead(line, added, ps, goal) && Clear(line, Files(added), start, ps)
        decreases |line| - ps
      {
        ghost var here := ps;
        var one, r := OneRedir();
        if !one {
          RedirsLeadBad(line, added, here, r, ps, goal);
          return false, added;
        }
        RedirsLeadMore(line, added, here, r, ps, goal);
        added := AddRedir(added, r, start, here, ps);
        here := ps;
        more := Peek("<>");
        RedirsLeadSkip(line, added, here, ps, goal);
      }
      RedirsLeadEnd(line, added, ps, goal);
      return true, added;
    }

    method AddRedir(rs: seq<Redirection<Span>>, r: Redirection<Span>, ghost lo: int, ghost mid: int, ghost hi: int)
      returns (rs': seq<Redirection<Span>>)
      requires Clear(line, Files(rs), lo, mid) && lo <= mid <= r.file.q && r.file.eq <= hi && WordAt(line, r.file)
      ensures rs' == rs + [r] && Clear(line, Files(rs'), lo, hi)
    {
      rs' := rs + [r];
      assert Files(rs') == Files(rs) + {r.file};
      ClearJoin(line, Files(rs), lo, mid, {r.file}, hi);
    }

    /** One round of the loop of `parseexec`, after `argc` words. */
    method OneArg(argc: nat) returns (r: Round, w: Span, added: seq<Redirection<Span>>, ghost after: int)
      requires Valid() && !G.Peek(line[ps..], "|)&;")
      modifies this`ps
      ensures Valid() && old(ps) <= ps && RoundOk(line, old(ps), argc, r, w, added, ps)
      ensures r == More ==>
                && old(ps) < ps && WordAt(line, w) && old(ps) <= w.q && w.eq <= after <= ps
                && Clear(line, Files(added), after, ps)
    {
      added, w, after := [], Span(0, 0), ps;
      var tok, q, eq := GetToken();
      after := ps;
      if tok == '\0' {
        return Stop, w, added, after;
      }
      if tok != 'a' {
        return Bad, w, added, after;
      }
      w := Span(q, eq);
      if argc + 1 >= MAXARGS {
        return Bad, w, added, after;
      }
      var ok;
      ok, added := ParseRedirs();
      return if ok then More else Bad, w, added, after;
    }

    /** The words and redirections of a simple command; false where the code panics. */
    method ParseArgs(first: seq<Redirection<Span>>, ghost lo: int)
        returns (ok: bool, argv: seq<Span>, rs: seq<Redirection<Span>>)
      requires Valid() && lo <= ps && Clear(line, Files(first), lo, ps)
      modifies this`ps
      ensures Valid() && old(ps) <= ps
      ensures var p := G.ParseArgs(old(line[ps..]), 0);
              && ok == p.Ok?
              && (ok ==>
                    line[ps..] == p.rest && Texts(line, argv) == p.value.argv &&
                    RedirTexts(line, rs) == RedirTexts(line, first) + p.value.redirs)
      ensures ok ==> Clear(line, Held(argv, rs), lo, ps)
    {
      argv, rs := [], first;
      ghost var start := ps;
      ghost var goal := Join([], RedirTexts(line, first), G.ParseArgs(line[ps..], 0));
      JoinNone(RedirTexts(line, first), G.ParseArgs(line[ps..], 0));
      LeadsStart(line, first, ps);
      assert Held([], first) == Files(first);
      var stop := Peek("|)&;");
      LeadsSkip(line, argv, rs, start, ps, goal);
      while !stop
        invariant Valid() && start <= ps && SkipSpace(line[ps..]) == line[ps..] && stop == G.Peek(line[ps..], "|)&;")
        invariant Leads(line, argv, rs, ps, goal) && Clear(line, Held(argv, rs), lo, ps)
        decreases |line| - ps
      {
        ghost var here := ps;
        var r, w, added, after := OneArg(|argv|);
        if r != More {
          LeadsEnd(line, argv, rs, here, r, w, added, ps, goal);
          return r == Stop, argv, rs;
        }
        LeadsMore(line, argv, rs, here, w, added, ps, goal);
        HeldMore(line, argv, rs, w, added, lo, here, after, ps);
        argv, rs := argv + [w], rs + added;
        here := ps;
        stop := Peek("|)&;");
        LeadsSkip(line, argv, rs, here, ps, goal);
      }
      LeadsPeek(line, argv, rs, ps, goal);
      return true, argv, rs;
    }

    method ParseExec() returns (ok: bool, cmd: Cmd<Span>)
      requires Valid()
      modifies this`ps
      ensures Valid() && Matches(line, G.ParseExec(old(line[ps..])), old(ps), ok, cmd, ps)
      decreases |line| - ps, 1
    {
      ghost var from, s := ps, line[ps..];
      cmd := Exec([]);
      var block := Peek("(");
      if block {
        BlockSkip(s);
        ok, cmd := ParseBlock();
        return;
      }
      RedirsSkip(s);
      var first;
      ok, first := ParseRedirs();
      if !ok {
        return;
      }
      ghost var mid := ps;
      var argv, rs;
      ok, argv, rs := ParseArgs(first, from);
      if ok {
        ExecMatches(line, from, mid, first, argv, rs, ps);
      }
      return ok, Wrap(Exec(argv), rs);
    }

    /** A command in parentheses; false where the code panics. */
    method ParseBlock() returns (ok: bool, cmd: Cmd<Span>)
      requires Valid() && G.Peek(line[ps..], "(")
      modifies this`ps
      ensures Valid() && Matches(line, G.ParseBlock(old(line[ps..])), old(ps), ok, cmd, ps)
      decreases |line| - ps, 0
    {
      ghost var from := ps;
      var _, _, _ := GetToken();
      ghost var open := ps;
      ok, cmd := ParseLine();
      if !ok {
        return;
      }
      ghost var mid := ps;
      TokenSkip(line[ps..]);
      var closed := Peek(")");
      if !closed {
        return false, cmd;
      }
      var _, _, _ := GetToken();
      ghost var close := ps;
      var rs;
      ok, rs := ParseRedirs();
      if ok {
        BlockMatches(line, from, open, cmd, mid, close, rs, ps);
      }
      return ok, Wrap(cmd, rs);
    }

    method ParsePipe() returns (ok: bool, cmd: Cmd<Span>)
      requires Valid()
      modifies this`ps
      ensures Valid() && Matches(line, G.ParsePipe(old(line[ps..])), old(ps), ok, cmd, ps)
      decreases |line| - ps, 2
    {
      ghost var from := ps;
      ok, cmd := ParseExec();
      if !ok {
        return;
      }
      ghost var mid := ps;
      TokenSkip(line[ps..]);
      var bar := Peek("|");
      if bar {
        var _, _, _ := GetToken();
        ghost var next := ps;
        var right;
        ok, right := ParsePipe();
        if ok {
          SpansJoin(line, cmd, from, mid, right, next, ps);
        }
        cmd := Pipe(cmd, right);
      }
    }

    method ParseLine() returns (ok: bool, cmd: Cmd<Span>)
      requires Valid()
      modifies this`ps
      ensures Valid() && Matches(line, G.ParseLine(old(line[ps..])), old(ps), ok, cmd, ps)
      decreases |line| - ps, 3
    {
      ghost var from := ps;
      ok, cmd := ParsePipe();
      if !ok {
        return;
      }
      ghost var first, p1 := cmd, ps;
      cmd := Background(cmd, from);
      LineIs(line[from..], Spell(line, first), line[p1..], Spell(line, cmd), line[ps..]);
      ok, cmd := Rest(cmd, from);
    }

    /** The part of `parseline` that looks for a semicolon. */
    method Rest(left: Cmd<Span>, ghost from: int) returns (ok: bool, cmd: Cmd<Span>)
      requires Valid() && 0 <= from <= ps && Clear(line, Spans(left), from, ps) && SkipSpace(line[ps..]) == line[ps..]
      modifies this`ps
      ensures Valid() && Matches(line, AfterBacks(Spell(line, left), old(line[ps..])), from, ok, cmd, ps)
      decreases |line| - ps, 2
    {
      ok, cmd := true, left;
      ghost var mid := ps;
      var more := Peek(";");
      SamePlace(line, mid, ps);
      if more {
        var _, _, _ := GetToken();
        Shorter(line, mid, ps);
        ghost var next := ps;
        var right;
        ok, right := ParseLine();
        RestMatches(line, left, from, mid, right, next, ok, ps);
        cmd := List(left, right);
      }
    }

    /** The loop over `&` signs. */
    method Background(first: Cmd<Span>, ghost from: int) returns (cmd: Cmd<Span>)
      requires Valid() && 0 <= from <= ps && Clear(line, Spans(first), from, ps)
      modifies this`ps
      ensures Valid() && old(ps) <= ps && Clear(line, Spans(cmd), from, ps) && SkipSpace(line[ps..]) == line[ps..]
      ensures (Spell(line, cmd), line[ps..]) == Backs(Spell(line, first), old(line[ps..]))
    {
      cmd := first;
      ghost var here, goal, ws := ps, Backs(Spell(line, first), line[ps..]), Spans(first);
      var more := Peek("&");
      BacksLeadSkip(line, cmd, here, ps, goal);
      ClearWider(line, ws, from, here, ps);
      while more
        invariant Valid() && old(ps) <= ps && Clear(line, ws, from, ps) && Spans(cmd) == ws
                  && SkipSpace(line[ps..]) == line[ps..]
        invariant more == G.Peek(line[ps..], "&") && BacksLead(line, cmd, ps, goal)
        decreases |line| - ps
      {
        here := ps;
        var _, _, _ := GetToken();
        BacksLeadMore(line, cmd, here, ps, goal);
        ClearWider(line, ws, from, here, ps);
        SpansBack(cmd);
        cmd := Back(cmd);
        assert Spans(cmd) == ws;
        here := ps;
        more := Peek("&");
        BacksLeadSkip(line, cmd, here, ps, goal);
        ClearWider(line, ws, from, here, ps);
      }
      BacksEnd(Spell(line, cmd), line[ps..]);
    }

    /** The whole line; false where the code panics. */
    method ParseCmd() returns (ok: bool, cmd: Cmd<Span>)
      requires Valid() && ps == 0
      modifies this`ps
      ensures Valid() && ok == G.ParseCmd(line).Ok?
      ensures ok ==> Spell(line, cmd) == G.ParseCmd(line).value && Clear(line, Spans(cmd), 0, |line|)
    {
      assert line[0..] == line;
      ok, cmd := ParseLine();
      if ok {
        var _ := Peek("");
        ok := ps == |line|;
      }
    }
  }

  // --- nulterminate ------------------------------------------------------------------------------------

  /** Some word of the set ends at `i`. */
  ghost predicate EndsAt(ws: set<Span>, i: int) {
    exists w :: w in ws && w.eq == i
  }

  /** The buffer with a NUL at the end of every word of the set. */
  ghost predicate Terminated(was: seq<char>, now: seq<char>, ws: set<Span>) {
    && |now| == |was|
    && forall i :: 0 <= i < |was| ==> now[i] == if EndsAt(ws, i) then '\0' else was[i]
  }

  lemma TerminatedBoth(a: seq<char>, b: seq<char>, c: seq<char>, v: set<Span>, w: set<Span>)
    requires Terminated(a, b, v) && Terminated(b, c, w)
    ensures Terminated(a, c, v + w)
  {
    forall i | 0 <= i < |a| ensures c[i] == if EndsAt(v + w, i) then '\0' else a[i] {
      if x :| x in v && x.eq == i {
        assert x in v + w;
      }
      if x :| x in w && x.eq == i {
        assert x in v + w;
      }
    }
  }

  ghost predicate InBuffer(ws: set<Span>, n: int) {
    forall w :: w in ws ==> 0 <= w.eq < n
  }

  /** Put a NUL after every word of the command. */
  method NulTerminate(cmd: Cmd<Span>, buf: array<char>)
    requires InBuffer(Spans(cmd), buf.Length)
    modifies buf
    ensures Terminated(old(buf[..]), buf[..], Spans(cmd))
    decreases cmd
  {
    match cmd
    case Exec(argv) =>
      TerminateAll(argv, buf);
    case Redir(c, file, mode) =>
      NulTerminate(c, buf);
      ghost var mid := buf[..];
      assert file in Spans(cmd);
      buf[file.eq] := '\0';
      assert Terminated(mid, buf[..], {file});
      TerminatedBoth(old(buf[..]), mid, buf[..], Spans(c), {file});
    case Pipe(left, right) =>
      NulTerminate(left, buf);
      ghost var mid := buf[..];
      NulTerminate(right, buf);
      TerminatedBoth(old(buf[..]), mid, buf[..], Spans(left), Spans(right));
    case List(left, right) =>
      NulTerminate(left, buf);
      ghost var mid := buf[..];
      NulTerminate(right, buf);
      TerminatedBoth(old(buf[..]), mid, buf[..], Spans(left), Spans(right));
    case Back(c) =>
      NulTerminate(c, buf);
  }

  /** The loop over the arguments. */
  method TerminateAll(argv: seq<Span>, buf: array<char>)
    requires InBuffer(SetOf(argv), buf.Length)
    modifies buf
    ensures Terminated(old(buf[..]), buf[..], SetOf(argv))
  {
    var i := 0;
    while i < |argv|
      invariant 0 <= i <= |argv| && Terminated(old(buf[..]), buf[..], SetOf(argv[..i]))
    {
      ghost var mid := buf[..];
      assert argv[i] in SetOf(argv);
      buf[argv[i].eq] := '\0';
      assert Terminated(mid, buf[..], {argv[i]});
      TerminatedBoth(old(buf[..]), mid, buf[..], SetOf(argv[..i]), {argv[i]});
      assert SetOf(argv[..i + 1]) == SetOf(argv[..i]) + {argv[i]};
      i := i + 1;
    }
    assert argv[..i] == argv;
  }

  /** The C string that starts at `q`. */
  function StringAt(b: seq<char>, q: nat): string
    requires q <= |b|
    decreases |b| - q
  {
    if q == |b| || b[q] == '\0' then "" else [b[q]] + StringAt(b, q + 1)
  }

  lemma {:induction false} StringIs(b: seq<char>, q: nat, e: nat)
    requires q <= e < |b| && b[e] == '\0' && forall i :: q <= i < e ==> b[i] != '\0'
    ensures StringAt(b, q) == b[q..e]
    decreases e - q
  {
    if q < e {
      StringIs(b, q + 1, e);
    }
  }

  /** After `nulterminate`, the C string at the start of each word of the command is that word:
      no terminator of another word falls into it. */
  lemma WordsTerminated(line: string, cmd: Cmd<Span>, now: seq<char>, w: Span)
    requires Clear(line, Spans(cmd), 0, |line|) && w in Spans(cmd) && forall i :: 0 <= i < |line| ==> line[i] != '\0'
    requires Terminated(line + ['\0'], now, Spans(cmd))
    ensures 0 <= w.q <= |now| && StringAt(now, w.q) == TextOf(line, w)
  {
    assert WordAt(line, w) && EndsAt(Spans(cmd), w.eq);
    forall i | w.q <= i < w.eq ensures now[i] == line[i] {
      forall v | v in Spans(cmd) ensures v.eq != i {
        assert Apart(v, w) && WordAt(line, v);
      }
    }
    StringIs(now, w.q, w.eq);
  }

  /** The command with the C strings that start at its words. */
  function Strings(b: seq<char>, c: Cmd<Span>): Cmd<string> {
    match c
    case Exec(argv) => Exec(StringsAt(b, argv))
    case Redir(cmd, file, mode) => Redir(Strings(b, cmd), StringFrom(b, file), mode)
    case Pipe(left, right) => Pipe(Strings(b, left), Strings(b, right))
    case List(left, right) => List(Strings(b, left), Strings(b, right))
    case Back(cmd) => Back(Strings(b, cmd))
  }

  function StringFrom(b: seq<char>, w: Span): string {
    if 0 <= w.q <= |b| then StringAt(b, w.q) else ""
  }

  function StringsAt(b: seq<char>, ws: seq<Span>): (r: seq<string>)
    ensures |r| == |ws| && forall i :: 0 <= i < |ws| ==> r[i] == StringFrom(b, ws[i])
  {
    seq(|ws|, i requires 0 <= i < |ws| => StringFrom(b, ws[i]))
  }

  lemma {:induction false} StringsAre(line: string, b: seq<char>, c: Cmd<Span>)
    requires forall w :: w in Spans(c) ==> StringFrom(b, w) == TextOf(line, w)
    ensures Strings(b, c) == Spell(line, c)
    decreases c
  {
    match c
    case Exec(argv) =>
      forall i | 0 <= i < |argv| ensures StringFrom(b, argv[i]) == TextOf(line, argv[i]) {
        assert argv[i] in Spans(c);
      }
      assert StringsAt(b, argv) == Texts(line, argv);
    case Redir(cmd, file, mode) => StringsAre(line, b, cmd);
    case Pipe(left, right) =>
      StringsAre(line, b, left);
      StringsAre(line, b, right);
    case List(left, right) =>
      StringsAre(line, b, left);
      StringsAre(line, b, right);
    case Back(cmd) => StringsAre(line, b, cmd);
  }

  lemma EndsInBuffer(line: string, cmd: Cmd<Span>)
    requires Clear(line, Spans(cmd), 0, |line|)
    ensures InBuffer(Spans(cmd), |line| + 1)
  {
    forall w | w in Spans(cmd) ensures 0 <= w.eq < |line| + 1 {
      assert WordAt(line, w);
    }
  }

  /** `parsecmd` on a buffer that holds the line and its NUL: the command, read as C strings out of
      the buffer that `nulterminate` has changed, is what the grammar makes of the line. */
  method ReadCommand(line: string, buf: array<char>) returns (ok: bool, cmd: Cmd<Span>)
    requires (forall i :: 0 <= i < |line| ==> line[i] != '\0') && buf[..] == line + ['\0']
    modifies buf
    ensures ok == G.ParseCmd(line).Ok?
    ensures ok ==> Strings(buf[..], cmd) == G.ParseCmd(line).value
    ensures !ok ==> buf[..] == old(buf[..])
  {
    var parser := new Parser(line);
    ok, cmd := parser.ParseCmd();
    if ok {
      EndsInBuffer(line, cmd);
      assert buf.Length == |line| + 1;
      NulTerminate(cmd, buf);
      ghost var now := buf[..];
      forall w | w in Spans(cmd) ensures StringFrom(now, w) == TextOf(line, w) {
        WordsTerminated(line, cmd, now, w);
      }
      StringsAre(line, now, cmd);
    }
  }
}
