/** The shell's parser as it runs: cursor-advancing loops, and termination of the words in place. */
module Sh {
  import opened ShParse
  import G = ShGrammar
  import ShRound

  const NUL: char := '\0'

  lemma SkipTwice(s: string, p: nat)
    requires p <= |s|
    ensures Skip(s, Skip(s, p)) == Skip(s, p) && TokenAt(s, Skip(s, p)) == TokenAt(s, p)
    ensures forall toks :: Peek(s, Skip(s, p), toks) <==> Peek(s, p, toks)
    ensures Redirs(s, Skip(s, p)) == Redirs(s, p)
  {
  }

  /** The loop over white space. */
  method SkipSpace(s: string, p: nat) returns (q: nat)
    requires p <= |s|
    ensures q == Skip(s, p)
  {
    q := p;
    while q < |s| && Space(s[q])
      invariant p <= q <= |s| && Skip(s, q) == Skip(s, p)
    {
      q := q + 1;
    }
  }

  /** gettoken() */
  method GetToken(s: string, p: nat) returns (t: Token)
    requires p <= |s|
    ensures t == TokenAt(s, p)
  {
    var q := SkipSpace(s, p);
    if q == |s| { return Token(End, Span(q, q), q); }
    var kind, e := Word, q;
    if s[q] == '>' {
      kind, e := Sym('>'), q + 1;
      if e < |s| && s[e] == '>' {
        kind, e := Append, e + 1;
      }
    } else if Symbol(s[q]) {
      kind, e := Sym(s[q]), q + 1;
    } else {
      while e < |s| && !Space(s[e]) && !Symbol(s[e])
        invariant q <= e <= |s| && WordEnd(s, e) == WordEnd(s, q)
      {
        e := e + 1;
      }
    }
    var n := SkipSpace(s, e);
    return Token(kind, Span(q, e), n);
  }

  /** peek(), which also moves the cursor past white space */
  method PeekAt(s: string, p: nat, toks: string) returns (r: bool, q: nat)
    requires p <= |s|
    ensures r == Peek(s, p, toks) && q == Skip(s, p)
  {
    q := SkipSpace(s, p);
    r := q < |s| && s[q] in toks;
  }

  /** parseredirs(): the redirections in the order found, or panic (ok false). */
  method ParseRedirs(s: string, p: nat) returns (ok: bool, rs: seq<Redir>, q: nat)
    requires p <= |s|
    ensures ok <==> Redirs(s, p).Some?
    ensures ok ==> Redirs(s, p) == Some((rs, q))
  {
    hide Redirs, TokenAt, Skip;
    rs, q := [], p;
    AheadStart(s, p);
    while true
      invariant p <= q <= |s| && Ahead(s, p, rs, q)
      decreases |s| - q
    {
      var more, e := PeekAt(s, q, "<>");
      SkipTwice(s, q);
      AheadStep(s, p, rs, q);
      if !more { return true, rs, e; }
      var op := GetToken(s, e);
      var f := GetToken(s, op.next);
      if !f.kind.Word? { return false, rs, q; }
      rs, q := rs + [Redir(f.span, ModeOf(op))], f.next;
    }
  }

  /** From p on there are the redirections rs, and then those from q on. */
  ghost predicate Ahead(s: string, p: nat, rs: seq<Redir>, q: nat)
    requires p <= |s| && q <= |s|
  {
    if Redirs(s, q).None? then Redirs(s, p).None?
    else Redirs(s, p) == Some((rs + Redirs(s, q).value.0, Redirs(s, q).value.1))
  }

  lemma AheadStart(s: string, p: nat)
    requires p <= |s|
    ensures Ahead(s, p, [], p)
  {
    assert Redirs(s, p).Some? ==> [] + Redirs(s, p).value.0 == Redirs(s, p).value.0;
  }

  lemma AheadStep(s: string, p: nat, rs: seq<Redir>, q: nat)
    requires p <= |s| && q <= |s| && Ahead(s, p, rs, q)
    ensures !Peek(s, q, "<>") ==> Redirs(s, p) == Some((rs, Skip(s, q)))
    ensures Peek(s, q, "<>") ==>
              var op := TokenAt(s, q); var f := TokenAt(s, op.next);
              q < f.next && if f.kind.Word? then Ahead(s, p, rs + [Redir(f.span, ModeOf(op))], f.next) else Redirs(s, p).None?
  {
    if !Peek(s, q, "<>") {
      assert rs + [] == rs;
    } else {
      var op := TokenAt(s, q);
      var f := TokenAt(s, op.next);
      if f.kind.Word? && Redirs(s, f.next).Some? {
        Regroup(rs, Redir(f.span, ModeOf(op)), Redirs(s, f.next).value.0);
      }
    }
  }

  lemma Regroup(rs: seq<Redir>, r: Redir, more: seq<Redir>)
    ensures rs + ([r] + more) == rs + [r] + more
  {
  }

  /** parseexec()'s loop over arguments */
  method ParseArgs(s: string, p: nat, first: seq<Redir>) returns (ok: bool, argv: seq<Span>, rs: seq<Redir>, q: nat)
    requires p <= |s|
    ensures ok <==> Args(s, p, [], first).Some?
    ensures ok ==> Args(s, p, [], first) == Some((argv, rs, q))
  {
    argv, rs, q := [], first, p;
    while true
      invariant p <= q <= |s| && Args(s, q, argv, rs) == Args(s, p, [], first)
      decreases |s| - q
    {
      var stop, e := PeekAt(s, q, "|)&;");
      SkipTwice(s, q);
      if stop { return true, argv, rs, e; }
      var t := GetToken(s, e);
      if t.kind.End? { return true, argv, rs, t.next; }
      if !t.kind.Word? { return false, argv, rs, q; }
      if |argv| + 1 >= MAXARGS { return false, argv, rs, q; }
      var good, more, n := ParseRedirs(s, t.next);
      if !good { return false, argv, rs, q; }
      argv, rs, q := argv + [t.span], rs + more, n;
    }
  }

  method RunExec(s: string, p: nat) returns (r: Result)
    requires p <= |s|
    ensures r == ParseExec(s, p)
    decreases |s| - p, 1
  {
    var block, q := PeekAt(s, p, "(");
    SkipTwice(s, p);
    if block {
      r := RunBlock(s, p);
      return;
    }
    var ok, first, n := ParseRedirs(s, p);
    if !ok { return Fail; }
    var argv, rs, e;
    ok, argv, rs, e := ParseArgs(s, n, first);
    if !ok { return Fail; }
    return Done(Wrap(Exec(argv), rs), e);
  }

  method RunBlock(s: string, p: nat) returns (r: Result)
    requires p <= |s| && Peek(s, p, "(")
    ensures r == ParseBlock(s, p)
    decreases |s| - p, 0
  {
    var t := GetToken(s, p);
    var line := RunLine(s, t.next);
    if line.Fail? { return Fail; }
    var close, q := PeekAt(s, line.next, ")");
    if !close { return Fail; }
    SkipTwice(s, line.next);
    t := GetToken(s, q);
    var ok, rs, n := ParseRedirs(s, t.next);
    if !ok { return Fail; }
    return Done(Wrap(line.cmd, rs), n);
  }

  method RunPipe(s: string, p: nat) returns (r: Result)
    requires p <= |s|
    ensures r == ParsePipe(s, p)
    decreases |s| - p, 2
  {
    var left := RunExec(s, p);
    if left.Fail? { return Fail; }
    var more, q := PeekAt(s, left.next, "|");
    if !more { return Done(left.cmd, q); }
    SkipTwice(s, left.next);
    var t := GetToken(s, q);
    var right := RunPipe(s, t.next);
    if right.Fail? { return Fail; }
    return Done(Pipe(left.cmd, right.cmd), right.next);
  }

  method RunLine(s: string, p: nat) returns (r: Result)
    requires p <= |s|
    ensures r == ParseLine(s, p)
    decreases |s| - p, 3
  {
    var first := RunPipe(s, p);
    if first.Fail? { return Fail; }
    var cmd, q := first.cmd, first.next;
    var back, e := PeekAt(s, q, "&");
    while back
      invariant p <= q <= |s| && e == Skip(s, q) && back == Peek(s, q, "&") && CmdOk(s, cmd)
      invariant Backs(s, q, cmd) == Backs(s, first.next, first.cmd)
      decreases |s| - q
    {
      SkipTwice(s, q);
      var t := GetToken(s, e);
      cmd, q := Back(cmd), t.next;
      back, e := PeekAt(s, q, "&");
    }
    SkipTwice(s, q);
    var semi, n := PeekAt(s, e, ";");
    if !semi { return Done(cmd, n); }
    var t := GetToken(s, n);
    var rest := RunLine(s, t.next);
    if rest.Fail? { return Fail; }
    return Done(List(cmd, rest.cmd), rest.next);
  }

  // ----------------------------------------------------------- ending the words

  /** Where nulterminate() writes: the character after each word. */
  ghost function Ends(c: Cmd): (r: set<nat>) {
    match c
    case Exec(argv) => set w | w in argv :: w.hi
    case Redirect(d, r) => Ends(d) + {r.file.hi}
    case Pipe(l, r) => Ends(l) + Ends(r)
    case List(l, r) => Ends(l) + Ends(r)
    case Back(d) => Ends(d)
  }

  ghost function Words(c: Cmd): (r: set<Span>) {
    match c
    case Exec(argv) => set w | w in argv
    case Redirect(d, r) => Words(d) + {r.file}
    case Pipe(l, r) => Words(l) + Words(r)
    case List(l, r) => Words(l) + Words(r)
    case Back(d) => Words(d)
  }

  /** nulterminate() */
  method NulTerminate(c: Cmd, buf: array<char>, ghost s: string)
    requires CmdOk(s, c) && buf.Length == |s| + 1
    modifies buf
    ensures forall i :: 0 <= i < buf.Length ==> buf[i] == if i in Ends(c) then NUL else old(buf[i])
    decreases c
  {
    match c
    case Exec(argv) =>
      var i := 0;
      while i < |argv|
        invariant 0 <= i <= |argv|
        invariant forall j :: 0 <= j < buf.Length ==> buf[j] == if exists k :: 0 <= k < i && argv[k].hi == j then NUL else old(buf[j])
      {
        assert IsWord(s, argv[i]);
        buf[argv[i].hi] := NUL;
        i := i + 1;
      }
    case Redirect(d, r) =>
      NulTerminate(d, buf, s);
      buf[r.file.hi] := NUL;
    case Pipe(l, r) =>
      NulTerminate(l, buf, s);
      NulTerminate(r, buf, s);
    case List(l, r) =>
      NulTerminate(l, buf, s);
      NulTerminate(r, buf, s);
    case Back(d) =>
      NulTerminate(d, buf, s);
  }

  lemma {:induction false} EndOfWord(s: string, c: Cmd, e: nat)
    requires CmdOk(s, c) && e in Ends(c)
    ensures e == |s| || (e < |s| && Delimiter(s[e]))
  {
    match c
    case Exec(argv) =>
      var w :| w in argv && w.hi == e;
      assert IsWord(s, w);
    case Redirect(d, r) => if e in Ends(d) { EndOfWord(s, d, e); }
    case Pipe(l, r) => if e in Ends(l) { EndOfWord(s, l, e); } else { EndOfWord(s, r, e); }
    case List(l, r) => if e in Ends(l) { EndOfWord(s, l, e); } else { EndOfWord(s, r, e); }
    case Back(d) => EndOfWord(s, d, e);
  }

  lemma {:induction false} WordOf(s: string, c: Cmd, w: Span)
    requires CmdOk(s, c) && w in Words(c)
    ensures IsWord(s, w) && w.hi in Ends(c)
  {
    match c
    case Exec(argv) =>
    case Redirect(d, r) => if w in Words(d) { WordOf(s, d, w); }
    case Pipe(l, r) => if w in Words(l) { WordOf(s, l, w); } else { WordOf(s, r, w); }
    case List(l, r) => if w in Words(l) { WordOf(s, l, w); } else { WordOf(s, r, w); }
    case Back(d) => WordOf(s, d, w);
  }

  /** The C string that starts at p. */
  ghost function CString(buf: seq<char>, p: nat): (t: string)
    requires p <= |buf|
    decreases |buf| - p
  {
    if p == |buf| || buf[p] == NUL then "" else [buf[p]] + CString(buf, p + 1)
  }

  lemma {:induction false} CStringIs(buf: seq<char>, p: nat, e: nat)
    requires p <= e < |buf| && buf[e] == NUL && forall i :: p <= i < e ==> buf[i] != NUL
    ensures CString(buf, p) == buf[p..e]
    decreases e - p
  {
    if p < e {
      CStringIs(buf, p + 1, e);
      assert buf[p..e] == [buf[p]] + buf[p + 1..e];
    }
  }

  /**
   The zeros fall only where a delimiter or the final NUL stood, so afterwards every
   word of the command, read as a C string, is exactly its token.
   */
  lemma WordsEnded(s: string, c: Cmd, before: seq<char>, after: seq<char>, w: Span)
    requires CmdOk(s, c) && w in Words(c) && before == s + [NUL] && |after| == |before| && forall i :: 0 <= i < |s| ==> s[i] != NUL
    requires forall i :: 0 <= i < |after| ==> after[i] == if i in Ends(c) then NUL else before[i]
    ensures w.lo <= w.hi <= |s| && CString(after, w.lo) == s[w.lo..w.hi]
    ensures forall i :: 0 <= i < |s| && after[i] != before[i] ==> Delimiter(s[i])
  {
    WordOf(s, c, w);
    forall i | 0 <= i < |s| && i in Ends(c) ensures Delimiter(s[i]) { EndOfWord(s, c, i); }
    hide Ends, Words;
    assert forall i :: w.lo <= i < w.hi ==> after[i] == s[i];
    CStringIs(after, w.lo, w.hi);
    assert after[w.lo..w.hi] == s[w.lo..w.hi];
  }

  /** parsecmd(): parses in place; None is panic("syntax"). */
  method Parse(buf: array<char>, s: string) returns (r: Option<Cmd>)
    requires buf[..] == s + [NUL]
    modifies buf
    ensures r == ParseCmd(s)
    ensures r.Some? ==> G.Denotes(s, ShRound.View(s, r.value))
    ensures r.None? ==> forall t :: !G.Denotes(s, t)
    ensures r.Some? ==> forall i :: 0 <= i < buf.Length ==> buf[i] == if i in Ends(r.value) then NUL else old(buf[i])
  {
    hide G.Denotes;
    G.OneMeaning(s);
    if ParseCmd(s).Some? { G.AcceptedLine(s); }
    var line := RunLine(s, 0);
    if line.Fail? { return None; }
    var more, q := PeekAt(s, line.next, "");
    if q != |s| { return None; }
    NulTerminate(line.cmd, buf, s);
    return Some(line.cmd);
  }
}
