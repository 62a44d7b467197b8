/** Printing a command tree with every subcommand in parentheses, and parsing it back. */
module ShRound {
  import opened ShParse

  datatype Tree =
    | Run(words: seq<string>)
    | To(sub: Tree, file: string, mode: Mode)
    | Piped(l: Tree, r: Tree)
    | Then(l: Tree, r: Tree)
    | Bg(sub: Tree)

  ghost predicate Plain(w: string) { w != "" && forall i :: 0 <= i < |w| ==> !Delimiter(w[i]) }

  /** Words without delimiters, and at most nine arguments. */
  ghost predicate Printable(t: Tree) {
    match t
    case Run(ws) => |ws| < MAXARGS && forall i :: 0 <= i < |ws| ==> Plain(ws[i])
    case To(u, f, _) => Printable(u) && Plain(f)
    case Piped(l, r) => Printable(l) && Printable(r)
    case Then(l, r) => Printable(l) && Printable(r)
    case Bg(u) => Printable(u)
  }

  function Join(ws: seq<string>): (s: string) {
    if |ws| == 0 then "" else if |ws| == 1 then ws[0] else ws[0] + " " + Join(ws[1..])
  }

  function Op(m: Mode): (s: string) {
    match m case In => "<" case Out => ">" case App => ">>"
  }

  function Print(t: Tree): (s: string)
    decreases t, 0
  {
    match t
    case Run(ws) => Join(ws)
    case To(u, f, m) => Block(u) + Op(m) + f
    case Piped(l, r) => Block(l) + "|" + Block(r)
    case Then(l, r) => Block(l) + ";" + Block(r)
    case Bg(u) => Block(u) + "&"
  }

  function Block(t: Tree): (s: string)
    decreases t, 1
  {
    "(" + Print(t) + ")"
  }

  /** The tree a parsed command stands for. */
  ghost function View(s: string, c: Cmd): (t: Tree)
    requires CmdOk(s, c)
  {
    match c
    case Exec(argv) => Run(seq(|argv|, i requires 0 <= i < |argv| => s[argv[i].lo..argv[i].hi]))
    case Redirect(d, r) => To(View(s, d), s[r.file.lo..r.file.hi], r.mode)
    case Pipe(l, r) => Piped(View(s, l), View(s, r))
    case List(l, r) => Then(View(s, l), View(s, r))
    case Back(d) => Bg(View(s, d))
  }

  // ----------------------------------------------------- text at a position

  ghost predicate At(s: string, p: nat, x: string) { p + |x| <= |s| && s[p..p + |x|] == x }

  lemma AtSplit(s: string, p: nat, x: string, y: string)
    requires At(s, p, x + y)
    ensures At(s, p, x) && At(s, p + |x|, y)
  {
    assert s[p..p + |x|] == s[p..p + |x + y|][..|x|];
    assert s[p + |x|..p + |x| + |y|] == s[p..p + |x + y|][|x|..];
  }

  lemma AtBound(s: string, p: nat, x: string)
    requires At(s, p, x)
    ensures p + |x| <= |s|
  {
  }

  lemma AtChar(s: string, p: nat, x: string, i: nat)
    requires At(s, p, x) && i < |x|
    ensures p + i < |s| && s[p + i] == x[i]
  {
    assert s[p..p + |x|][i] == s[p + i];
  }

  /** Where a printed line may end: at the end, or at a closing parenthesis. */
  ghost predicate Stop(s: string, p: nat) { p <= |s| && (p < |s| ==> s[p] == ')') }

  ghost predicate NotSpace(s: string, p: nat) { p <= |s| && (p < |s| ==> !Space(s[p])) }

  lemma SkipStays(s: string, p: nat)
    requires NotSpace(s, p)
    ensures Skip(s, p) == p
  {
  }

  /** A symbol other than '>' at the cursor. */
  lemma SymbolAt(s: string, p: nat)
    requires p < |s| && Symbol(s[p]) && s[p] != '>' && NotSpace(s, p + 1)
    ensures Skip(s, p) == p && TokenAt(s, p) == Token(Sym(s[p]), Span(p, p + 1), p + 1)
  {
    SkipStays(s, p + 1);
  }

  /** A word at the cursor, up to a delimiter or the end. */
  lemma WordAt(s: string, p: nat, w: string)
    requires Plain(w) && At(s, p, w) && (p + |w| < |s| ==> Delimiter(s[p + |w|]))
    ensures NotSpace(s, p) && !Symbol(s[p]) && TokenAt(s, p) == Token(Word, Span(p, p + |w|), Skip(s, p + |w|))
  {
    forall i | p <= i < p + |w| ensures !Delimiter(s[i]) { AtChar(s, p, w, i - p); }
    SkipStays(s, p);
    EndIs(s, p, p + |w|);
  }

  lemma EndIs(s: string, p: nat, e: nat)
    requires p <= e <= |s| && (forall i :: p <= i < e ==> !Delimiter(s[i])) && (e < |s| ==> Delimiter(s[e]))
    ensures WordEnd(s, p) == e
  {
  }

  /** Printing starts with no space: what stands at its place, or right after it if it is empty. */
  lemma PrintStart(s: string, p: nat, t: Tree)
    requires Printable(t) && At(s, p, Print(t)) && NotSpace(s, p + |Print(t)|)
    ensures NotSpace(s, p)
  {
    match t
    case Run(ws) =>
      if |ws| > 0 {
        AtChar(s, p, Print(t), 0);
        assert Join(ws)[0] == ws[0][0];
      }
    case _ =>
      AtChar(s, p, Print(t), 0);
      assert Print(t)[0] == '(';
  }

  // ------------------------------------------------------------------- words

  ghost function Spans(p: nat, ws: seq<string>): (r: seq<Span>)
    ensures |r| == |ws|
    decreases |ws|
  {
    if |ws| == 0 then [] else [Span(p, p + |ws[0]|)] + Spans(p + |ws[0]| + 1, ws[1..])
  }

  lemma {:induction false} SpansView(s: string, p: nat, ws: seq<string>, i: nat)
    requires At(s, p, Join(ws)) && i < |ws|
    ensures var w := Spans(p, ws)[i]; w.lo <= w.hi <= |s| && s[w.lo..w.hi] == ws[i]
    decreases |ws|
  {
    hide Spans, Join;
    SpansStep(p, ws);
    JoinStep(ws);
    if |ws| > 1 {
      AtSplit(s, p, ws[0] + " ", Join(ws[1..]));
      AtSplit(s, p, ws[0], " ");
      if i > 0 { SpansView(s, p + |ws[0]| + 1, ws[1..], i - 1); }
    }
  }

  lemma NoRedirs(s: string, p: nat)
    requires NotSpace(s, p) && (p < |s| ==> s[p] != '<' && s[p] != '>')
    ensures Redirs(s, p) == Some(([], p))
  {
    SkipStays(s, p);
  }

  /** One argument: the word at p, after which the line goes on at q. */
  lemma ArgsStep(s: string, p: nat, w: string, q: nat, argv: seq<Span>)
    requires Plain(w) && At(s, p, w) && (p + |w| < |s| ==> Delimiter(s[p + |w|])) && q == Skip(s, p + |w|) && |argv| + 1 < MAXARGS
    requires q < |s| ==> s[q] != '<' && s[q] != '>'
    ensures Args(s, p, argv, []) == Args(s, q, argv + [Span(p, p + |w|)], [])
  {
    WordAt(s, p, w);
    SkipStays(s, p);
    NoRedirs(s, q);
    hide Redirs, TokenAt, Skip;
    assert !Peek(s, p, "|)&;");
    assert [] + Redirs(s, q).value.0 == [];
  }

  lemma ArgsStop(s: string, p: nat, argv: seq<Span>)
    requires Stop(s, p)
    ensures Args(s, p, argv, []) == Some((argv, [], p))
  {
    SkipStays(s, p);
  }

  lemma JoinStep(ws: seq<string>)
    ensures |ws| == 1 ==> Join(ws) == ws[0]
    ensures |ws| > 1 ==> Join(ws) == ws[0] + " " + Join(ws[1..])
  {
  }

  lemma SpansStep(p: nat, ws: seq<string>)
    ensures |ws| > 0 ==> Spans(p, ws) == [Span(p, p + |ws[0]|)] + Spans(p + |ws[0]| + 1, ws[1..])
    ensures |ws| <= 1 ==> Spans(p, ws) == if |ws| == 0 then [] else [Span(p, p + |ws[0]|)]
  {
  }

  /** The words, up to where the line stops. */
  lemma {:induction false} ArgsRound(s: string, p: nat, ws: seq<string>, argv: seq<Span>)
    requires At(s, p, Join(ws)) && Stop(s, p + |Join(ws)|) && |argv| + |ws| < MAXARGS && forall i :: 0 <= i < |ws| ==> Plain(ws[i])
    ensures var r := Args(s, p, argv, []);
            r.Some? && r.value.0 == argv + Spans(p, ws) && r.value.1 == [] && r.value.2 == p + |Join(ws)|
    decreases |ws|
  {
    hide Args, Skip, Spans, Plain, At;
    AtBound(s, p, Join(ws));
    SpansStep(p, ws);
    if |ws| == 0 {
      ArgsStop(s, p, argv);
    } else {
      var w := ws[0];
      var e := p + |w|;
      var more := argv + [Span(p, e)];
      if |ws| == 1 {
        SkipStays(s, e);
        ArgsStep(s, p, w, e, argv);
        ArgsStop(s, e, more);
        assert more == argv + Spans(p, ws);
      } else {
        AtSplit(s, p, w + " ", Join(ws[1..]));
        AtSplit(s, p, w, " ");
        AtChar(s, e, " ", 0);
        NextWord(s, e + 1, ws[1..]);
        SkipOne(s, e);
        ArgsStep(s, p, w, e + 1, argv);
        ArgsRound(s, e + 1, ws[1..], more);
        assert more + Spans(e + 1, ws[1..]) == argv + Spans(p, ws);
      }
    }
  }

  lemma SkipOne(s: string, p: nat)
    requires p < |s| && Space(s[p]) && NotSpace(s, p + 1)
    ensures Skip(s, p) == p + 1
  {
    SkipStays(s, p + 1);
  }

  lemma NextWord(s: string, p: nat, ws: seq<string>)
    requires |ws| > 0 && Plain(ws[0]) && At(s, p, Join(ws))
    ensures p < |s| && !Delimiter(s[p])
  {
    AtChar(s, p, Join(ws), 0);
    assert Join(ws)[0] == ws[0][0];
  }

  // ---------------------------------------------------------- redirection and blocks

  lemma OneRedir(s: string, p: nat, m: Mode, f: string)
    requires Plain(f) && At(s, p, Op(m) + f) && Stop(s, p + |Op(m)| + |f|)
    ensures var r := Redirs(s, p); var q := p + |Op(m)|;
            r.Some? && r.value.0 == [Redir(Span(q, q + |f|), m)] && r.value.1 == q + |f|
  {
    hide TokenAt, Skip, Plain, At, Op;
    AtSplit(s, p, Op(m), f);
    var q := p + |Op(m)|;
    WordAt(s, q, f);
    SkipStays(s, q + |f|);
    NoRedirs(s, q + |f|);
    OpToken(s, p, m);
    assert [Redir(Span(q, q + |f|), m)] + [] == [Redir(Span(q, q + |f|), m)];
  }

  lemma OpToken(s: string, p: nat, m: Mode)
    requires At(s, p, Op(m)) && NotSpace(s, p + |Op(m)|) && (p + |Op(m)| < |s| ==> s[p + |Op(m)|] != '>')
    ensures Peek(s, p, "<>") && TokenAt(s, p).next == p + |Op(m)| && ModeOf(TokenAt(s, p)) == m
  {
    AtChar(s, p, Op(m), 0);
    if m == App { AtChar(s, p, Op(m), 1); }
    SkipStays(s, p);
    SkipStays(s, p + |Op(m)|);
  }

  /** A line, parsed where it is printed, gives back its tree and stops where it stops. */
  ghost predicate LineGives(s: string, p: nat, t: Tree, q: nat) {
    && p <= |s| && ParseLine(s, p).Done? && ParseLine(s, p).next == q && CmdOk(s, ParseLine(s, p).cmd)
    && View(s, ParseLine(s, p).cmd) == t
  }

  ghost predicate BlockGives(s: string, p: nat, t: Tree, q: nat) {
    && p <= q <= |s| && Peek(s, p, "(")
    && exists c: Cmd :: CmdOk(s, c) && View(s, c) == t && BlockIs(s, p, c, q)
  }

  /** ParseBlock is this command in the redirections from q on. */
  ghost predicate BlockIs(s: string, p: nat, c: Cmd, q: nat)
    requires p <= |s| && q <= |s| && Peek(s, p, "(")
  {
    ParseBlock(s, p) == if Redirs(s, q).None? then Fail else Done(Wrap(c, Redirs(s, q).value.0), Redirs(s, q).value.1)
  }

  lemma BlockRound(s: string, p: nat, t: Tree)
    requires Printable(t) && At(s, p, Block(t)) && NotSpace(s, p + |Block(t)|)
    requires LineGives(s, p + 1, t, p + 1 + |Print(t)|)
    ensures BlockGives(s, p, t, p + |Block(t)|)
  {
    hide ParseLine, Redirs, Wrap, CmdOk, View, Printable;
    AtSplit(s, p, "(" + Print(t), ")");
    AtSplit(s, p, "(", Print(t));
    AtChar(s, p, "(", 0);
    var e := p + 1 + |Print(t)|;
    AtChar(s, e, ")", 0);
    PrintStart(s, p + 1, t);
    SymbolAt(s, p);
    SymbolAt(s, e);
    hide TokenAt, Skip;
    assert Peek(s, p, "(") && Peek(s, e, ")");
    var c := ParseLine(s, p + 1).cmd;
    assert BlockIs(s, p, c, e + 1);
  }

  /** What stands at a line's start decides which of its parts the parser takes. */
  lemma BlockStart(s: string, p: nat, t: Tree)
    requires At(s, p, Block(t))
    ensures p < |s| && s[p] == '(' && Skip(s, p) == p
  {
    AtChar(s, p, Block(t), 0);
    SkipStays(s, p);
  }

  /** parseexec() here gives the tree t and leaves the cursor at q. */
  ghost predicate ExecGives(s: string, p: nat, t: Tree, q: nat) {
    && p <= |s| && ParseExec(s, p).Done? && ParseExec(s, p).next == q && CmdOk(s, ParseExec(s, p).cmd)
    && View(s, ParseExec(s, p).cmd) == t
  }

  ghost predicate PipeGives(s: string, p: nat, t: Tree, q: nat) {
    && p <= |s| && ParsePipe(s, p).Done? && ParsePipe(s, p).next == q && CmdOk(s, ParsePipe(s, p).cmd)
    && View(s, ParsePipe(s, p).cmd) == t
  }

  lemma BlockExec(s: string, p: nat, t: Tree, q: nat)
    requires BlockGives(s, p, t, q) && NotSpace(s, q) && (q < |s| ==> s[q] != '<' && s[q] != '>')
    ensures ExecGives(s, p, t, q)
  {
    NoRedirs(s, q);
    hide Redirs, ParseBlock, Words, Skip;
  }

  lemma RedirExec(s: string, p: nat, u: Tree, e: nat, m: Mode, f: string)
    requires BlockGives(s, p, u, e) && Plain(f) && At(s, e, Op(m) + f) && Stop(s, e + |Op(m)| + |f|)
    ensures ExecGives(s, p, To(u, f, m), e + |Op(m)| + |f|)
  {
    hide Redirs, ParseBlock, Words, Skip, Wrap, Op, Plain;
    OneRedir(s, e, m, f);
    AtSplit(s, e, Op(m), f);
    var q := e + |Op(m)|;
    var r := Redir(Span(q, q + |f|), m);
    var c: Cmd :| CmdOk(s, c) && View(s, c) == u && BlockIs(s, p, c, e);
    WrapOne(c, r);
    assert ParseExec(s, p) == Done(Redirect(c, r), q + |f|);
    RedirView(s, c, r);
  }

  lemma WrapOne(c: Cmd, r: Redir)
    ensures Wrap(c, [r]) == Redirect(c, r)
  {
    assert [r][1..] == [];
  }

  lemma RedirView(s: string, c: Cmd, r: Redir)
    requires CmdOk(s, c) && CmdOk(s, Redirect(c, r))
    ensures View(s, Redirect(c, r)) == To(View(s, c), s[r.file.lo..r.file.hi], r.mode)
  {
  }

  /** One command and the line or pipeline stops, or goes on with ; or &. */
  lemma PipeStop(s: string, p: nat, t: Tree, q: nat)
    requires ExecGives(s, p, t, q) && NotSpace(s, q) && (q < |s| ==> s[q] != '|')
    ensures PipeGives(s, p, t, q)
  {
    SkipStays(s, q);
    hide ParseExec, Skip, CmdOk, View;
  }

  lemma PipeOn(s: string, p: nat, l: Tree, q: nat, r: Tree, e: nat)
    requires ExecGives(s, p, l, q) && q < |s| && s[q] == '|' && NotSpace(s, q + 1) && PipeGives(s, q + 1, r, e)
    ensures PipeGives(s, p, Piped(l, r), e)
  {
    SymbolAt(s, q);
    hide ParseExec, Skip, TokenAt;
    assert Peek(s, q, "|");
    assert CmdOk(s, ParsePipe(s, p).cmd);
  }

  lemma LineStop(s: string, p: nat, t: Tree, q: nat)
    requires PipeGives(s, p, t, q) && Stop(s, q)
    ensures LineGives(s, p, t, q)
  {
    SkipStays(s, q);
    hide ParsePipe, Skip, View;
  }

  lemma LineBack(s: string, p: nat, t: Tree, q: nat)
    requires PipeGives(s, p, t, q) && q < |s| && s[q] == '&' && Stop(s, q + 1)
    ensures LineGives(s, p, Bg(t), q + 1)
  {
    SymbolAt(s, q);
    SkipStays(s, q + 1);
    hide ParsePipe, Skip, TokenAt;
    assert Peek(s, q, "&") && !Peek(s, q + 1, "&");
    var c := ParsePipe(s, p).cmd;
    assert Backs(s, q, c) == Backs(s, q + 1, Back(c)) && Backs(s, q + 1, Back(c)) == (Back(c), q + 1);
    hide Backs;
  }

  lemma LineThen(s: string, p: nat, l: Tree, q: nat, r: Tree, e: nat)
    requires PipeGives(s, p, l, q) && q < |s| && s[q] == ';' && NotSpace(s, q + 1) && LineGives(s, q + 1, r, e)
    ensures LineGives(s, p, Then(l, r), e)
  {
    SymbolAt(s, q);
    hide ParsePipe, Skip, TokenAt;
    assert Peek(s, q, ";") && !Peek(s, q, "&");
    var c := ParsePipe(s, p).cmd;
    assert Backs(s, q, c) == (c, q);
    hide Backs;
    assert CmdOk(s, ParseLine(s, p).cmd);
  }

  lemma RunExec(s: string, p: nat, ws: seq<string>)
    requires Printable(Run(ws)) && At(s, p, Join(ws)) && Stop(s, p + |Join(ws)|)
    ensures ExecGives(s, p, Run(ws), p + |Join(ws)|)
  {
    hide Args, Redirs, Skip, TokenAt;
    RunStart(s, p, ws);
    NoRedirs(s, p);
    ArgsRound(s, p, ws, []);
    var spans := Spans(p, ws);
    assert [] + spans == spans;
    assert ParseExec(s, p) == Done(Exec(spans), p + |Join(ws)|);
    forall i | 0 <= i < |ws| ensures s[spans[i].lo..spans[i].hi] == ws[i] { SpansView(s, p, ws, i); }
    hide Spans;
    assert seq(|spans|, i requires 0 <= i < |spans| => s[spans[i].lo..spans[i].hi]) == ws;
  }

  lemma RunStart(s: string, p: nat, ws: seq<string>)
    requires Printable(Run(ws)) && At(s, p, Join(ws)) && Stop(s, p + |Join(ws)|)
    ensures NotSpace(s, p) && !Peek(s, p, "(") && (p < |s| ==> s[p] != '<' && s[p] != '>')
  {
    if |ws| > 0 { NextWord(s, p, ws); }
    SkipStays(s, p);
  }

  /** Any printable tree, printed anywhere in a text where a line may stop after it, parses back to itself. */
  lemma {:induction false} LineRound(s: string, p: nat, t: Tree)
    requires Printable(t) && At(s, p, Print(t)) && Stop(s, p + |Print(t)|)
    ensures LineGives(s, p, t, p + |Print(t)|)
    decreases t, 1
  {
    hide LineGives, ExecGives, PipeGives, BlockGives, Plain, At;
    var q := p + |Print(t)|;
    match t
    case Run(ws) =>
      RunExec(s, p, ws);
      PipeStop(s, p, t, q);
      LineStop(s, p, t, q);
    case To(u, f, m) =>
      assert Print(t) == Block(u) + (Op(m) + f);
      AtSplit(s, p, Block(u), Op(m) + f);
      AtChar(s, p + |Block(u)|, Op(m) + f, 0);
      SubRound(s, p, u);
      RedirExec(s, p, u, p + |Block(u)|, m, f);
      PipeStop(s, p, t, q);
      LineStop(s, p, t, q);
    case Bg(u) =>
      AtSplit(s, p, Block(u), "&");
      AtChar(s, p + |Block(u)|, "&", 0);
      SubRound(s, p, u);
      BackLine(s, p, u, p + |Block(u)|);
    case Piped(l, r) =>
      var e := PairRound(s, p, t, l, "|", r);
      PipeLine(s, p, l, e, r, q);
    case Then(l, r) =>
      var e := PairRound(s, p, t, l, ";", r);
      ThenLine(s, p, l, e, r, q);
  }

  lemma BackLine(s: string, p: nat, u: Tree, e: nat)
    requires BlockGives(s, p, u, e) && e < |s| && s[e] == '&' && Stop(s, e + 1)
    ensures LineGives(s, p, Bg(u), e + 1)
  {
    hide LineGives, ExecGives, PipeGives, BlockGives;
    BlockExec(s, p, u, e);
    PipeStop(s, p, u, e);
    LineBack(s, p, u, e);
  }

  lemma PipeLine(s: string, p: nat, l: Tree, e: nat, r: Tree, q: nat)
    requires BlockGives(s, p, l, e) && e + 1 < |s| && s[e] == '|' && s[e + 1] == '(' && BlockGives(s, e + 1, r, q) && Stop(s, q)
    ensures LineGives(s, p, Piped(l, r), q)
  {
    hide LineGives, ExecGives, PipeGives, BlockGives;
    BlockExec(s, p, l, e);
    BlockExec(s, e + 1, r, q);
    PipeStop(s, e + 1, r, q);
    PipeOn(s, p, l, e, r, q);
    LineStop(s, p, Piped(l, r), q);
  }

  lemma ThenLine(s: string, p: nat, l: Tree, e: nat, r: Tree, q: nat)
    requires BlockGives(s, p, l, e) && e + 1 < |s| && s[e] == ';' && s[e + 1] == '(' && BlockGives(s, e + 1, r, q) && Stop(s, q)
    ensures LineGives(s, p, Then(l, r), q)
  {
    hide LineGives, ExecGives, PipeGives, BlockGives;
    BlockExec(s, p, l, e);
    PipeStop(s, p, l, e);
    BlockExec(s, e + 1, r, q);
    PipeStop(s, e + 1, r, q);
    LineStop(s, e + 1, r, q);
    LineThen(s, p, l, e, r, q);
  }

  /** A subtree in its parentheses. */
  lemma {:induction false} SubRound(s: string, p: nat, t: Tree)
    requires Printable(t) && At(s, p, Block(t)) && NotSpace(s, p + |Block(t)|)
    ensures BlockGives(s, p, t, p + |Block(t)|)
    decreases t, 2
  {
    hide LineGives, BlockGives, At;
    AtBound(s, p, Block(t));
    AtSplit(s, p, "(" + Print(t), ")");
    AtSplit(s, p, "(", Print(t));
    AtChar(s, p + 1 + |Print(t)|, ")", 0);
    LineRound(s, p + 1, t);
    BlockRound(s, p, t);
  }

  /** Two subtrees with a symbol between them, which stands at e. */
  lemma {:induction false} PairRound(s: string, p: nat, t: Tree, l: Tree, sym: string, r: Tree) returns (e: nat)
    requires (t == Piped(l, r) || t == Then(l, r)) && Printable(l) && Printable(r) && |sym| == 1 && !Space(sym[0]) && At(s, p, Block(l) + sym + Block(r))
    requires Stop(s, p + |Block(l) + sym + Block(r)|)
    ensures e == p + |Block(l)| && e + 1 < |s| && s[e] == sym[0] && s[e + 1] == '('
    ensures BlockGives(s, p, l, e) && BlockGives(s, e + 1, r, e + 1 + |Block(r)|)
    decreases t, 0
  {
    hide LineGives, BlockGives, At;
    AtSplit(s, p, Block(l) + sym, Block(r));
    AtSplit(s, p, Block(l), sym);
    e := p + |Block(l)|;
    AtChar(s, e, sym, 0);
    BlockStart(s, e + 1, r);
    SubRound(s, p, l);
    SubRound(s, e + 1, r);
  }

  /** parsecmd() of a printed tree gives the tree back. */
  lemma ParsePrint(t: Tree)
    requires Printable(t)
    ensures var r := ParseCmd(Print(t)); r.Some? && CmdOk(Print(t), r.value) && View(Print(t), r.value) == t
  {
    var s := Print(t);
    assert s[0..|s|] == s;
    LineRound(s, 0, t);
    SkipStays(s, |s|);
    hide ParseLine, Skip;
  }
}
