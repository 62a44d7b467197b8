/**
 The shell's parser as functions of the input and a cursor; a command keeps the
 spans of its words, as the code keeps q and eq. None stands for panic().
 */
module ShParse {
  const MAXARGS: nat := 10

  predicate Space(c: char) { c == ' ' || c == '\t' || c == '\r' || c == '\n' || c == '\U{0B}' }

  predicate Symbol(c: char) { c == '<' || c == '|' || c == '>' || c == '&' || c == ';' || c == '(' || c == ')' }

  predicate Delimiter(c: char) { Space(c) || Symbol(c) }

  datatype Span = Span(lo: nat, hi: nat)

  datatype Mode = In | Out | App // <  >  >>

  datatype Redir = Redir(file: Span, mode: Mode)

  datatype Cmd =
    | Exec(argv: seq<Span>)
    | Redirect(cmd: Cmd, redir: Redir)
    | Pipe(left: Cmd, right: Cmd)
    | List(left: Cmd, right: Cmd)
    | Back(cmd: Cmd)

  datatype Option<T> = None | Some(value: T)

  /** The span is a whole word: no delimiter inside, and one, or the end, right after it. */
  ghost predicate IsWord(s: string, w: Span) {
    && w.lo < w.hi <= |s| && (forall i :: w.lo <= i < w.hi ==> !Delimiter(s[i]))
    && (w.hi < |s| ==> Delimiter(s[w.hi]))
  }

  // ------------------------------------------------------------------ tokens

  function Skip(s: string, p: nat): (q: nat)
    requires p <= |s|
    ensures p <= q <= |s| && (q < |s| ==> !Space(s[q])) && forall i :: p <= i < q ==> Space(s[i])
    decreases |s| - p
  {
    if p < |s| && Space(s[p]) then Skip(s, p + 1) else p
  }

  function WordEnd(s: string, p: nat): (q: nat)
    requires p <= |s|
    ensures p <= q <= |s| && (q < |s| ==> Delimiter(s[q])) && forall i :: p <= i < q ==> !Delimiter(s[i])
    decreases |s| - p
  {
    if p < |s| && !Delimiter(s[p]) then WordEnd(s, p + 1) else p
  }

  datatype Kind = End | Sym(c: char) | Append | Word

  datatype Token = Token(kind: Kind, span: Span, next: nat)

  /** The token at or after p: its kind, its extent, and the cursor after it. */
  function TokenAt(s: string, p: nat): (t: Token)
    requires p <= |s|
    ensures p <= t.span.lo <= t.span.hi <= t.next <= |s| && (t.kind.End? <==> t.span.lo == |s|) && (!t.kind.End? ==> t.span.lo < t.span.hi)
    ensures t.kind.Word? ==> IsWord(s, t.span)
  {
    var q := Skip(s, p);
    if q == |s| then Token(End, Span(q, q), q)
    else if s[q] == '>' then
      if q + 1 < |s| && s[q + 1] == '>' then Token(Append, Span(q, q + 2), Skip(s, q + 2))
      else Token(Sym('>'), Span(q, q + 1), Skip(s, q + 1))
    else if Symbol(s[q]) then Token(Sym(s[q]), Span(q, q + 1), Skip(s, q + 1))
    else var e := WordEnd(s, q); Token(Word, Span(q, e), Skip(s, e))
  }

  /** peek(): is the next character one of these? */
  predicate Peek(s: string, p: nat, toks: string)
    requires p <= |s|
  {
    var q := Skip(s, p);
    q < |s| && s[q] in toks
  }

  // ------------------------------------------------------------------ grammar

  function ModeOf(t: Token): (m: Mode) {
    if t.kind == Sym('<') then In else if t.kind == Append then App else Out
  }

  ghost predicate RedirOk(s: string, r: Redir) { IsWord(s, r.file) }

  /** parseredirs(): the redirections from p on, in order, and the cursor after them. */
  function Redirs(s: string, p: nat): (r: Option<(seq<Redir>, nat)>)
    requires p <= |s|
    ensures r.Some? ==> p <= r.value.1 <= |s| && forall i :: 0 <= i < |r.value.0| ==> RedirOk(s, r.value.0[i])
    decreases |s| - p
  {
    if !Peek(s, p, "<>") then Some(([], Skip(s, p)))
    else
      var op := TokenAt(s, p);
      var f := TokenAt(s, op.next);
      if !f.kind.Word? then None
      else
        var rest := Redirs(s, f.next);
        if rest.None? then None else Some(([Redir(f.span, ModeOf(op))] + rest.value.0, rest.value.1))
  }

  /** Each redirection wraps the command so far. */
  function Wrap(c: Cmd, rs: seq<Redir>): (r: Cmd)
    decreases |rs|
  {
    if |rs| == 0 then c else Wrap(Redirect(c, rs[0]), rs[1..])
  }

  /** parseexec()'s loop: arguments and redirections, after those already found. */
  function Args(s: string, p: nat, argv: seq<Span>, rs: seq<Redir>): (r: Option<(seq<Span>, seq<Redir>, nat)>)
    requires p <= |s|
    decreases |s| - p
  {
    if Peek(s, p, "|)&;") then Some((argv, rs, Skip(s, p)))
    else
      var t := TokenAt(s, p);
      if t.kind.End? then Some((argv, rs, t.next))
      else if !t.kind.Word? || |argv| + 1 >= MAXARGS then None
      else
        var more := Redirs(s, t.next);
        if more.None? then None else Args(s, more.value.1, argv + [t.span], rs + more.value.0)
  }

  ghost predicate CmdOk(s: string, c: Cmd) {
    match c
    case Exec(argv) => |argv| < MAXARGS && forall i :: 0 <= i < |argv| ==> IsWord(s, argv[i])
    case Redirect(c, r) => CmdOk(s, c) && RedirOk(s, r)
    case Pipe(l, r) => CmdOk(s, l) && CmdOk(s, r)
    case List(l, r) => CmdOk(s, l) && CmdOk(s, r)
    case Back(c) => CmdOk(s, c)
  }

  lemma {:induction false} WrapOk(s: string, c: Cmd, rs: seq<Redir>)
    requires CmdOk(s, c) && forall i :: 0 <= i < |rs| ==> RedirOk(s, rs[i])
    ensures CmdOk(s, Wrap(c, rs))
    decreases |rs|
  {
    if |rs| > 0 { WrapOk(s, Redirect(c, rs[0]), rs[1..]); }
  }

  lemma {:induction false} ArgsOk(s: string, p: nat, argv: seq<Span>, rs: seq<Redir>)
    requires p <= |s| && |argv| < MAXARGS && (forall i :: 0 <= i < |argv| ==> IsWord(s, argv[i])) && forall i :: 0 <= i < |rs| ==> RedirOk(s, rs[i])
    ensures var r := Args(s, p, argv, rs);
            r.Some? ==> p <= r.value.2 <= |s| && CmdOk(s, Wrap(Exec(r.value.0), r.value.1))
    decreases |s| - p
  {
    if Peek(s, p, "|)&;") || TokenAt(s, p).kind.End? {
      WrapOk(s, Exec(argv), rs);
    } else {
      var t := TokenAt(s, p);
      if t.kind.Word? && |argv| + 1 < MAXARGS && Redirs(s, t.next).Some? {
        var more := Redirs(s, t.next).value;
        ArgsOk(s, more.1, argv + [t.span], rs + more.0);
      }
    }
  }

  datatype Result = Fail | Done(cmd: Cmd, next: nat)

  function Words(s: string, p: nat): (r: Result)
    requires p <= |s|
    ensures r.Done? ==> p <= r.next <= |s| && CmdOk(s, r.cmd)
  {
    var first := Redirs(s, p);
    if first.None? then Fail
    else
      var r := Args(s, first.value.1, [], first.value.0);
      ArgsOk(s, first.value.1, [], first.value.0);
      if r.None? then Fail else Done(Wrap(Exec(r.value.0), r.value.1), r.value.2)
  }

  /** parseexec() */
  function ParseExec(s: string, p: nat): (r: Result)
    requires p <= |s|
    ensures r.Done? ==> p <= r.next <= |s| && CmdOk(s, r.cmd)
    decreases |s| - p, 1
  {
    if Peek(s, p, "(") then ParseBlock(s, p) else Words(s, p)
  }

  /** parseblock(), at a parenthesis */
  function ParseBlock(s: string, p: nat): (r: Result)
    requires p <= |s| && Peek(s, p, "(")
    ensures r.Done? ==> p <= r.next <= |s| && CmdOk(s, r.cmd)
    decreases |s| - p, 0
  {
    var line := ParseLine(s, TokenAt(s, p).next);
    if line.Fail? || !Peek(s, line.next, ")") then Fail
    else
      var rs := Redirs(s, TokenAt(s, line.next).next);
      if rs.None? then Fail
      else
        WrapOk(s, line.cmd, rs.value.0);
        Done(Wrap(line.cmd, rs.value.0), rs.value.1)
  }

  /** parsepipe() */
  function ParsePipe(s: string, p: nat): (r: Result)
    requires p <= |s|
    ensures r.Done? ==> p <= r.next <= |s| && CmdOk(s, r.cmd)
    decreases |s| - p, 2
  {
    var left := ParseExec(s, p);
    if left.Fail? then Fail
    else if !Peek(s, left.next, "|") then Done(left.cmd, Skip(s, left.next))
    else
      var right := ParsePipe(s, TokenAt(s, left.next).next);
      if right.Fail? then Fail else Done(Pipe(left.cmd, right.cmd), right.next)
  }

  /** parseline()'s loop over '&' */
  function Backs(s: string, p: nat, c: Cmd): (r: (Cmd, nat))
    requires p <= |s| && CmdOk(s, c)
    ensures p <= r.1 <= |s| && CmdOk(s, r.0)
    decreases |s| - p
  {
    if Peek(s, p, "&") then Backs(s, TokenAt(s, p).next, Back(c)) else (c, Skip(s, p))
  }

  /** parseline() */
  function ParseLine(s: string, p: nat): (r: Result)
    requires p <= |s|
    ensures r.Done? ==> p <= r.next <= |s| && CmdOk(s, r.cmd)
    decreases |s| - p, 3
  {
    var first := ParsePipe(s, p);
    if first.Fail? then Fail
    else
      var b := Backs(s, first.next, first.cmd);
      if !Peek(s, b.1, ";") then Done(b.0, Skip(s, b.1))
      else
        var rest := ParseLine(s, TokenAt(s, b.1).next);
        if rest.Fail? then Fail else Done(List(b.0, rest.cmd), rest.next)
  }

  /** parsecmd(): the whole input is one line, or it is a syntax error. */
  function ParseCmd(s: string): (r: Option<Cmd>)
    ensures r.Some? ==> CmdOk(s, r.value)
  {
    var line := ParseLine(s, 0);
    if line.Fail? || Skip(s, line.next) != |s| then None else Some(line.cmd)
  }
}
