/**
 The shell's language, as a relation between texts and command trees: what a line is
 made of, how it is spelled, and what it means. The parser accepts exactly the texts
 that spell a line, and gives the tree that line means.
 */
module ShGrammar {
  import opened ShParse
  import opened ShRound

  // ---------------------------------------------------------------- the language

  /** What a text is made of: words, one-character symbols, and >>. */
  datatype Lexeme = W(w: string) | S(c: char) | GG

  function Text(l: Lexeme): (s: string) {
    match l case W(w) => w case S(c) => [c] case GG => ">>"
  }

  ghost predicate LexemeOk(l: Lexeme) {
    match l case W(w) => Plain(w) case S(c) => Symbol(c) case GG => true
  }

  ghost predicate Blank(s: string, p: nat, q: nat) { p <= q <= |s| && forall i :: p <= i < q ==> Space(s[i]) }

  /** A lexeme that ends at e ends there: a word at a delimiter or the end, and > not before another >. */
  ghost predicate EndsAt(s: string, l: Lexeme, e: nat) {
    e < |s| ==> match l case W(_) => Delimiter(s[e]) case S(c) => c == '>' ==> s[e] != '>' case GG => true
  }

  /** From p on the text is these lexemes, with white space anywhere between them. */
  ghost predicate Spells(s: string, p: nat, ls: seq<Lexeme>)
    decreases |ls|
  {
    p <= |s|
    && if ls == [] then Blank(s, p, |s|)
       else exists k: nat :: Blank(s, p, k) && Here(s, k, ls[0]) && Spells(s, k + |Text(ls[0])|, ls[1..])
  }

  ghost predicate Here(s: string, k: nat, l: Lexeme) {
    k + |Text(l)| <= |s| && s[k..k + |Text(l)|] == Text(l) && EndsAt(s, l, k + |Text(l)|)
  }

  datatype Redirection = Redirection(mode: Mode, file: string)

  datatype Item = Arg(w: string) | Re(r: Redirection)

  /** Words and redirections in any order, or a line in parentheses and redirections after it. */
  datatype Prim = Simple(items: seq<Item>) | Group(line: Line, rs: seq<Redirection>)

  datatype Pipeline = One(p: Prim) | Bar(p: Prim, rest: Pipeline)

  datatype Line = Last(p: Pipeline, amps: nat) | Semi(p: Pipeline, amps: nat, rest: Line)

  // how it is written

  function OpOf(m: Mode): (l: Lexeme) { match m case In => S('<') case Out => S('>') case App => GG }

  function RedirsText(rs: seq<Redirection>): (ls: seq<Lexeme>) {
    if rs == [] then [] else [OpOf(rs[0].mode), W(rs[0].file)] + RedirsText(rs[1..])
  }

  function ItemText(i: Item): (ls: seq<Lexeme>) {
    match i case Arg(w) => [W(w)] case Re(r) => [OpOf(r.mode), W(r.file)]
  }

  function ItemsText(items: seq<Item>): (ls: seq<Lexeme>) {
    if items == [] then [] else ItemText(items[0]) + ItemsText(items[1..])
  }

  function Amps(n: nat): (ls: seq<Lexeme>) { if n == 0 then [] else [S('&')] + Amps(n - 1) }

  function PrimText(x: Prim): (ls: seq<Lexeme>) {
    match x
    case Simple(items) => ItemsText(items)
    case Group(line, rs) => [S('(')] + LineText(line) + [S(')')] + RedirsText(rs)
  }

  function PipeText(x: Pipeline): (ls: seq<Lexeme>) {
    match x
    case One(p) => PrimText(p)
    case Bar(p, rest) => PrimText(p) + [S('|')] + PipeText(rest)
  }

  function LineText(x: Line): (ls: seq<Lexeme>) {
    match x
    case Last(p, n) => PipeText(p) + Amps(n)
    case Semi(p, n, rest) => PipeText(p) + Amps(n) + [S(';')] + LineText(rest)
  }

  // what it means

  function ArgsOf(items: seq<Item>): (ws: seq<string>) {
    if items == [] then [] else (match items[0] case Arg(w) => [w] case Re(_) => []) + ArgsOf(items[1..])
  }

  function RedirsOf(items: seq<Item>): (rs: seq<Redirection>) {
    if items == [] then [] else (match items[0] case Arg(_) => [] case Re(r) => [r]) + RedirsOf(items[1..])
  }

  /** The command inside its redirections, the first one innermost. */
  function Within(t: Tree, rs: seq<Redirection>): (u: Tree)
    decreases |rs|
  {
    if rs == [] then t else Within(To(t, rs[0].file, rs[0].mode), rs[1..])
  }

  function InBack(t: Tree, n: nat): (u: Tree)
    decreases n
  {
    if n == 0 then t else InBack(Bg(t), n - 1)
  }

  function PrimTree(x: Prim): (t: Tree) {
    match x
    case Simple(items) => Within(Run(ArgsOf(items)), RedirsOf(items))
    case Group(line, rs) => Within(LineTree(line), rs)
  }

  /** Pipes and lists associate to the right. */
  function PipeTree(x: Pipeline): (t: Tree) {
    match x
    case One(p) => PrimTree(p)
    case Bar(p, rest) => Piped(PrimTree(p), PipeTree(rest))
  }

  function LineTree(x: Line): (t: Tree) {
    match x
    case Last(p, n) => InBack(PipeTree(p), n)
    case Semi(p, n, rest) => Then(InBack(PipeTree(p), n), LineTree(rest))
  }

  // what is allowed: words without delimiters, at most nine arguments

  ghost predicate RedirsOk(rs: seq<Redirection>) { forall i :: 0 <= i < |rs| ==> Plain(rs[i].file) }

  ghost predicate ItemOk(i: Item) { match i case Arg(w) => Plain(w) case Re(r) => Plain(r.file) }

  ghost predicate PrimOk(x: Prim) {
    match x
    case Simple(items) => (forall i :: 0 <= i < |items| ==> ItemOk(items[i])) && |ArgsOf(items)| < MAXARGS
    case Group(line, rs) => LineOk(line) && RedirsOk(rs)
  }

  ghost predicate PipeOk(x: Pipeline) {
    match x
    case One(p) => PrimOk(p)
    case Bar(p, rest) => PrimOk(p) && PipeOk(rest)
  }

  ghost predicate LineOk(x: Line) {
    match x
    case Last(p, _) => PipeOk(p)
    case Semi(p, _, rest) => PipeOk(p) && LineOk(rest)
  }

  /** The text s is a line that means t. */
  ghost predicate Denotes(s: string, t: Tree) {
    exists x: Line :: LineOk(x) && Spells(s, 0, LineText(x)) && LineTree(x) == t
  }

  // --------------------------------------------------------------- lexemes of a text

  ghost function LexemeOf(s: string, t: Token): (l: Lexeme)
    requires t.span.lo <= t.span.hi <= |s|
  {
    match t.kind case Sym(c) => S(c) case Append => GG case _ => W(s[t.span.lo..t.span.hi])
  }

  /** What gettoken() delivers from p on. */
  ghost function Lexemes(s: string, p: nat): (ls: seq<Lexeme>)
    requires p <= |s|
    decreases |s| - p
  {
    var t := TokenAt(s, p);
    if t.kind.End? then [] else [LexemeOf(s, t)] + Lexemes(s, t.next)
  }

  lemma SkipIs(s: string, p: nat, k: nat)
    requires Blank(s, p, k) && (k < |s| ==> !Space(s[k]))
    ensures Skip(s, p) == k
  {
  }

  lemma SkipSame(s: string, p: nat)
    requires p <= |s|
    ensures Skip(s, Skip(s, p)) == Skip(s, p) && TokenAt(s, Skip(s, p)) == TokenAt(s, p) && Lexemes(s, Skip(s, p)) == Lexemes(s, p)
  {
    SkipIs(s, Skip(s, p), Skip(s, p));
  }

  /** The token at a lexeme. */
  lemma TokenHere(s: string, p: nat, k: nat, l: Lexeme)
    requires Blank(s, p, k) && LexemeOk(l) && Here(s, k, l)
    ensures var t := TokenAt(s, p); !t.kind.End? && LexemeOf(s, t) == l && t.next == Skip(s, k + |Text(l)|)
  {
    var e := k + |Text(l)|;
    assert forall i :: k <= i < e ==> s[i] == Text(l)[i - k] by { assert forall i :: k <= i < e ==> s[k..e][i - k] == s[i]; }
    SkipIs(s, p, k);
    match l
    case W(w) => EndIs(s, k, e);
    case S(c) => assert s[k] == c;
    case GG => assert s[k] == '>' && s[k + 1] == '>';
  }

  lemma {:induction false} SpellsLexemes(s: string, p: nat, ls: seq<Lexeme>)
    requires Spells(s, p, ls) && forall i :: 0 <= i < |ls| ==> LexemeOk(ls[i])
    ensures p <= |s| && Lexemes(s, p) == ls
    decreases |ls|
  {
    hide Here, LexemeOk, Skip, TokenAt, Lexemes, Text;
    LexemesStep(s, p);
    if ls == [] {
      SkipIs(s, p, |s|);
    } else {
      var k: nat :| Blank(s, p, k) && Here(s, k, ls[0]) && Spells(s, k + |Text(ls[0])|, ls[1..]);
      TokenHere(s, p, k, ls[0]);
      SpellsLexemes(s, k + |Text(ls[0])|, ls[1..]);
      SkipSame(s, k + |Text(ls[0])|);
      assert ls == [ls[0]] + ls[1..];
    }
  }

  lemma LexemesStep(s: string, p: nat)
    requires p <= |s|
    ensures Skip(s, p) == |s| ==> Lexemes(s, p) == []
    ensures var t := TokenAt(s, p); Lexemes(s, p) == if t.kind.End? then [] else [LexemeOf(s, t)] + Lexemes(s, t.next)
  {
  }

  lemma WordHere(s: string, w: Span)
    requires IsWord(s, w)
    ensures var l := W(s[w.lo..w.hi]); LexemeOk(l) && Here(s, w.lo, l) && w.hi == w.lo + |Text(l)|
  {
    var x := s[w.lo..w.hi];
    forall i | 0 <= i < |x| ensures !Delimiter(x[i]) { assert x[i] == s[w.lo + i]; }
  }

  /** A token's lexeme stands where the token is. */
  lemma HereToken(s: string, p: nat)
    requires p <= |s| && !TokenAt(s, p).kind.End?
    ensures var t := TokenAt(s, p); var l := LexemeOf(s, t); var k := t.span.lo;
            Blank(s, p, k) && LexemeOk(l) && Here(s, k, l) && t.span.hi == k + |Text(l)| && t.next == Skip(s, t.span.hi)
  {
    hide WordEnd, IsWord, Plain;
    var t := TokenAt(s, p);
    var q := Skip(s, p);
    hide Skip;
    if t.kind.Word? {
      WordHere(s, t.span);
    } else {
      assert s[q..q + 1] == [s[q]];
      assert t.kind.Append? ==> s[q..q + 2] == ">>";
    }
  }

  lemma {:induction false} LexemesSpell(s: string, p: nat)
    requires p <= |s|
    ensures Spells(s, p, Lexemes(s, p)) && forall i :: 0 <= i < |Lexemes(s, p)| ==> LexemeOk(Lexemes(s, p)[i])
    decreases |s| - p
  {
    hide Here, LexemeOk;
    var t := TokenAt(s, p);
    var ls := Lexemes(s, p);
    if t.kind.End? {
      assert Blank(s, p, |s|);
    } else {
      HereToken(s, p);
      SkipSame(s, t.span.hi);
      LexemesSpell(s, t.span.hi);
      assert ls[1..] == Lexemes(s, t.span.hi) && ls[0] == LexemeOf(s, t);
    }
  }

  // ------------------------------------------------------------- looking at lexemes

  predicate Starts(ls: seq<Lexeme>, toks: string) {
    ls != [] && match ls[0] case W(_) => false case S(c) => c in toks case GG => '>' in toks
  }

  predicate Follows(ls: seq<Lexeme>, toks: string) { ls == [] || Starts(ls, toks) }

  lemma Front(s: string, p: nat)
    requires p <= |s|
    ensures var ls, t := Lexemes(s, p), TokenAt(s, p);
            && (ls == [] <==> t.kind.End?) && (ls == [] ==> Lexemes(s, t.next) == []) && (ls == [] <==> Skip(s, p) == |s|)
            && (ls != [] ==> ls[0] == LexemeOf(s, t) && ls[1..] == Lexemes(s, t.next) && LexemeOk(ls[0]) && p < t.next)
  {
    if !TokenAt(s, p).kind.End? { HereToken(s, p); }
  }

  lemma PeekIs(s: string, p: nat, toks: string)
    requires p <= |s| && forall c :: c in toks ==> Symbol(c)
    ensures Peek(s, p, toks) <==> Starts(Lexemes(s, p), toks)
  {
    Front(s, p);
    var q := Skip(s, p);
    var t := TokenAt(s, p);
    assert q < |s| && t.kind.Word? ==> !Symbol(s[q]);
  }

  ghost function Sub(s: string, w: Span): (t: string) { if w.lo <= w.hi <= |s| then s[w.lo..w.hi] else "" }

  ghost function ArgTexts(s: string, argv: seq<Span>): (ws: seq<string>) { seq(|argv|, i requires 0 <= i < |argv| => Sub(s, argv[i])) }

  ghost function RedirTexts(s: string, rs: seq<Redir>): (r: seq<Redirection>) {
    seq(|rs|, i requires 0 <= i < |rs| => Redirection(rs[i].mode, Sub(s, rs[i].file)))
  }

  // ---------------------------------------------------------------------- redirections

  lemma OneRedirection(s: string, p: nat)
    requires p <= |s| && Starts(Lexemes(s, p), "<>")
    ensures var op := TokenAt(s, p); var f := TokenAt(s, op.next); var ls := Lexemes(s, p);
            && Peek(s, p, "<>") && p < f.next && ls[0] == OpOf(ModeOf(op)) && (f.kind.Word? <==> |ls| > 1 && ls[1].W?)
            && (f.kind.Word? ==> ls[2..] == Lexemes(s, f.next) && ls[1] == W(Sub(s, f.span)) && Plain(ls[1].w))
  {
    hide TokenAt, Skip, Lexemes, Plain;
    PeekIs(s, p, "<>");
    Front(s, p);
    var op := TokenAt(s, p);
    Front(s, op.next);
    var ls := Lexemes(s, p);
    if |ls| > 1 { assert ls[1..][0] == ls[1] && ls[1..][1..] == ls[2..]; }
    assert |ls[1..]| == |ls| - 1;
  }

  /** parseredirs() takes one redirection, and then the rest. */
  lemma RedirsStep(s: string, p: nat)
    requires p <= |s|
    ensures !Peek(s, p, "<>") ==> Redirs(s, p) == Some(([], Skip(s, p)))
    ensures Peek(s, p, "<>") ==>
              var op := TokenAt(s, p); var f := TokenAt(s, op.next); var rest := Redirs(s, f.next);
              if !f.kind.Word? || rest.None? then Redirs(s, p).None?
              else Redirs(s, p).Some? && Redirs(s, p).value.1 == rest.value.1
                   && RedirTexts(s, Redirs(s, p).value.0) == [Redirection(ModeOf(op), Sub(s, f.span))] + RedirTexts(s, rest.value.0)
  {
    hide TokenAt, Skip;
  }

  lemma RedirsTextCons(r: Redirection, rs: seq<Redirection>)
    ensures RedirsText([r] + rs) == [OpOf(r.mode), W(r.file)] + RedirsText(rs)
  {
    assert ([r] + rs)[1..] == rs;
  }

  lemma {:induction false} RedirsSound(s: string, p: nat)
    requires p <= |s| && Redirs(s, p).Some?
    ensures var r := Redirs(s, p).value;
            && RedirsOk(RedirTexts(s, r.0)) && Lexemes(s, p) == RedirsText(RedirTexts(s, r.0)) + Lexemes(s, r.1)
            && !Starts(Lexemes(s, r.1), "<>")
    decreases |s| - p
  {
    hide TokenAt, Skip, Lexemes, Starts, Redirs, RedirTexts, RedirsText, Sub, ModeOf, OpOf;
    PeekIs(s, p, "<>");
    RedirsStep(s, p);
    if !Peek(s, p, "<>") {
      SkipSame(s, p);
      NoTexts(s);
    } else {
      OneRedirection(s, p);
      var op := TokenAt(s, p);
      var f := TokenAt(s, op.next);
      RedirsSound(s, f.next);
      RedirsTextCons(Redirection(ModeOf(op), Sub(s, f.span)), RedirTexts(s, Redirs(s, f.next).value.0));
      var ls := Lexemes(s, p);
      assert ls == [ls[0], ls[1]] + ls[2..];
    }
  }

  lemma NoTexts(s: string)
    ensures RedirTexts(s, []) == [] && RedirsText([]) == [] && ArgTexts(s, []) == []
  {
  }

  lemma {:induction false} RedirsComplete(s: string, p: nat, rs: seq<Redirection>, rest: seq<Lexeme>)
    requires p <= |s| && Lexemes(s, p) == RedirsText(rs) + rest && RedirsOk(rs) && !Starts(rest, "<>")
    ensures Redirs(s, p).Some? && RedirTexts(s, Redirs(s, p).value.0) == rs && Lexemes(s, Redirs(s, p).value.1) == rest
    decreases |rs|
  {
    hide TokenAt, Skip, Lexemes, Redirs, RedirTexts, RedirsText, Sub, ModeOf;
    PeekIs(s, p, "<>");
    RedirsStep(s, p);
    if rs == [] {
      NoTexts(s);
      assert Lexemes(s, p) == rest;
      SkipSame(s, p);
    } else {
      assert rs == [rs[0]] + rs[1..];
      RedirsTextCons(rs[0], rs[1..]);
      TwoThen(OpOf(rs[0].mode), W(rs[0].file), RedirsText(rs[1..]), rest);
      OneRedirection(s, p);
      var op := TokenAt(s, p);
      var f := TokenAt(s, op.next);
      RedirsComplete(s, f.next, rs[1..], rest);
    }
  }

  lemma TwoThen(a: Lexeme, b: Lexeme, m: seq<Lexeme>, rest: seq<Lexeme>)
    ensures var ls := [a, b] + m + rest; ls[0] == a && ls[1] == b && ls[2..] == m + rest
  {
  }

  lemma {:induction false} WrapView(s: string, c: Cmd, rs: seq<Redir>)
    requires CmdOk(s, c) && forall i :: 0 <= i < |rs| ==> RedirOk(s, rs[i])
    ensures CmdOk(s, Wrap(c, rs)) && View(s, Wrap(c, rs)) == Within(View(s, c), RedirTexts(s, rs))
    decreases |rs|
  {
    WrapOk(s, c, rs);
    if |rs| > 0 {
      WrapView(s, Redirect(c, rs[0]), rs[1..]);
      assert RedirTexts(s, rs)[1..] == RedirTexts(s, rs[1..]);
    }
  }

  // -------------------------------------------------------------- words and redirections

  function Res(rs: seq<Redirection>): (items: seq<Item>) {
    if rs == [] then [] else [Re(rs[0])] + Res(rs[1..])
  }

  lemma ItemsCons(i: Item, items: seq<Item>)
    ensures ItemsText([i] + items) == ItemText(i) + ItemsText(items)
    ensures ArgsOf([i] + items) == (match i case Arg(w) => [w] case Re(_) => []) + ArgsOf(items)
    ensures RedirsOf([i] + items) == (match i case Arg(_) => [] case Re(r) => [r]) + RedirsOf(items)
  {
    assert ([i] + items)[1..] == items;
  }

  /** Redirections in front of other items. */
  lemma {:induction false} ResFirst(rs: seq<Redirection>, items: seq<Item>)
    ensures ItemsText(Res(rs) + items) == RedirsText(rs) + ItemsText(items)
    ensures ArgsOf(Res(rs) + items) == ArgsOf(items) && RedirsOf(Res(rs) + items) == rs + RedirsOf(items)
    decreases |rs|
  {
    if rs == [] {
      assert Res(rs) + items == items;
    } else {
      ResFirst(rs[1..], items);
      ItemsCons(Re(rs[0]), Res(rs[1..]) + items);
      assert Res(rs) + items == [Re(rs[0])] + (Res(rs[1..]) + items);
      assert rs == [rs[0]] + rs[1..];
      RedirsTextCons(rs[0], rs[1..]);
    }
  }

  lemma {:induction false} ResOk(rs: seq<Redirection>, items: seq<Item>)
    requires RedirsOk(rs) && forall i :: 0 <= i < |items| ==> ItemOk(items[i])
    ensures var all := Res(rs) + items; forall i :: 0 <= i < |all| ==> ItemOk(all[i])
    decreases |rs|
  {
    if rs != [] {
      ResOk(rs[1..], items);
      assert Res(rs) + items == [Re(rs[0])] + (Res(rs[1..]) + items);
      assert ItemOk(Re(rs[0]));
      hide Res, ItemOk;
    }
  }

  /** The redirections in front, and the rest, which begins with a word if there is any. */
  lemma {:induction false} SplitRes(items: seq<Item>) returns (rs: seq<Redirection>, rest: seq<Item>)
    requires forall i :: 0 <= i < |items| ==> ItemOk(items[i])
    ensures items == Res(rs) + rest && (rest == [] || rest[0].Arg?) && RedirsOk(rs) && |rest| <= |items|
    ensures forall i :: 0 <= i < |rest| ==> ItemOk(rest[i])
    decreases |items|
  {
    if items == [] || items[0].Arg? {
      rs, rest := [], items;
    } else {
      var more;
      more, rest := SplitRes(items[1..]);
      rs := [items[0].r] + more;
      assert rs[1..] == more && items == [items[0]] + items[1..];
      assert Res(rs) + rest == [items[0]] + (Res(more) + rest);
    }
  }

  lemma ArgsStep(s: string, p: nat, argv: seq<Span>, rs: seq<Redir>)
    requires p <= |s|
    ensures Peek(s, p, "|)&;") ==> Args(s, p, argv, rs) == Some((argv, rs, Skip(s, p)))
    ensures !Peek(s, p, "|)&;") ==>
              var t := TokenAt(s, p);
              if t.kind.End? then Args(s, p, argv, rs) == Some((argv, rs, t.next))
              else if !t.kind.Word? || |argv| + 1 >= MAXARGS || Redirs(s, t.next).None? then Args(s, p, argv, rs).None?
              else Args(s, p, argv, rs) == Args(s, Redirs(s, t.next).value.1, argv + [t.span], rs + Redirs(s, t.next).value.0)
  {
    hide TokenAt, Skip, Redirs;
  }

  lemma TextsMore(s: string, argv: seq<Span>, w: Span, rs: seq<Redir>, more: seq<Redir>)
    ensures ArgTexts(s, argv + [w]) == ArgTexts(s, argv) + [Sub(s, w)]
    ensures RedirTexts(s, rs + more) == RedirTexts(s, rs) + RedirTexts(s, more)
  {
  }

  /** What the loop has when it is done: the words and redirections it had, and those of the items. */
  ghost predicate ArgsGive(s: string, r: Option<(seq<Span>, seq<Redir>, nat)>, argv: seq<Span>, rs: seq<Redir>, items: seq<Item>, rest: seq<Lexeme>) {
    && r.Some? && r.value.2 <= |s| && Lexemes(s, r.value.2) == rest
    && ArgTexts(s, r.value.0) == ArgTexts(s, argv) + ArgsOf(items) && RedirTexts(s, r.value.1) == RedirTexts(s, rs) + RedirsOf(items)
  }

  /** A word and the redirections after it are an item each. */
  lemma GiveMore(s: string, r: Option<(seq<Span>, seq<Redir>, nat)>, argv: seq<Span>, rs: seq<Redir>, w: Span, more: seq<Redir>,
                 items: seq<Item>, rest: seq<Lexeme>)
    requires ArgsGive(s, r, argv + [w], rs + more, items, rest)
    ensures ArgsGive(s, r, argv, rs, [Arg(Sub(s, w))] + (Res(RedirTexts(s, more)) + items), rest)
  {
    hide ArgTexts, RedirTexts, ArgsOf, RedirsOf, Res, Sub, Lexemes;
    var all := Res(RedirTexts(s, more)) + items;
    TextsMore(s, argv, w, rs, more);
    ResFirst(RedirTexts(s, more), items);
    ItemsCons(Arg(Sub(s, w)), all);
    Assoc(ArgTexts(s, argv), [Sub(s, w)], ArgsOf(items));
    Assoc(RedirTexts(s, rs), RedirTexts(s, more), RedirsOf(items));
    assert [] + RedirsOf(all) == RedirsOf(all);
  }

  lemma Assoc<T>(a: seq<T>, b: seq<T>, c: seq<T>)
    ensures a + b + c == a + (b + c)
  {
  }

  lemma {:induction false} ArgsSound(s: string, p: nat, argv: seq<Span>, rs: seq<Redir>) returns (items: seq<Item>)
    requires p <= |s| && |argv| < MAXARGS && Args(s, p, argv, rs).Some? && Args(s, p, argv, rs).value.2 <= |s|
    ensures ArgsGive(s, Args(s, p, argv, rs), argv, rs, items, Lexemes(s, Args(s, p, argv, rs).value.2))
    ensures Lexemes(s, p) == ItemsText(items) + Lexemes(s, Args(s, p, argv, rs).value.2)
    ensures (forall i :: 0 <= i < |items| ==> ItemOk(items[i])) && |argv| + |ArgsOf(items)| < MAXARGS
    decreases |s| - p
  {
    hide TokenAt, Skip, Redirs, Lexemes, Args, ArgTexts, RedirTexts, RedirsText, ItemsText, Sub, Res;
    ArgsStep(s, p, argv, rs);
    Front(s, p);
    var t := TokenAt(s, p);
    NoItems();
    if Peek(s, p, "|)&;") || t.kind.End? {
      SkipSame(s, p);
      items := [];
      assert ArgTexts(s, argv) + [] == ArgTexts(s, argv) && RedirTexts(s, rs) + [] == RedirTexts(s, rs);
    } else {
      var more := Redirs(s, t.next).value;
      RedirsSound(s, t.next);
      var rest := ArgsSound(s, more.1, argv + [t.span], rs + more.0);
      var texts := RedirTexts(s, more.0);
      GiveMore(s, Args(s, p, argv, rs), argv, rs, t.span, more.0, rest, Lexemes(s, Args(s, p, argv, rs).value.2));
      items := [Arg(Sub(s, t.span))] + (Res(texts) + rest);
      WordSub(s, p);
      ResFirst(texts, rest);
      ResOk(texts, rest);
      ItemsCons(Arg(Sub(s, t.span)), Res(texts) + rest);
      var ls := Lexemes(s, p);
      assert ls == [ls[0]] + ls[1..];
      Regrouped(ls[0], RedirsText(texts), ItemsText(rest), Lexemes(s, Args(s, p, argv, rs).value.2));
    }
  }

  lemma NoItems()
    ensures ItemsText([]) == [] && ArgsOf([]) == [] && RedirsOf([]) == []
  {
  }

  lemma WordSub(s: string, p: nat)
    requires p <= |s| && TokenAt(s, p).kind.Word?
    ensures LexemeOf(s, TokenAt(s, p)) == W(Sub(s, TokenAt(s, p).span)) && Plain(Sub(s, TokenAt(s, p).span))
  {
    HereToken(s, p);
    hide TokenAt;
  }

  lemma Regrouped(a: Lexeme, b: seq<Lexeme>, c: seq<Lexeme>, d: seq<Lexeme>)
    ensures [a] + (b + (c + d)) == [a] + (b + c) + d
  {
  }

  lemma {:induction false} ArgsComplete(s: string, p: nat, items: seq<Item>, rest: seq<Lexeme>, argv: seq<Span>, rs: seq<Redir>)
    requires p <= |s| && Lexemes(s, p) == ItemsText(items) + rest && (forall i :: 0 <= i < |items| ==> ItemOk(items[i]))
    requires (items == [] || items[0].Arg?) && Follows(rest, "|)&;") && |argv| + |ArgsOf(items)| < MAXARGS
    ensures ArgsGive(s, Args(s, p, argv, rs), argv, rs, items, rest)
    decreases |items|
  {
    hide TokenAt, Skip, Redirs, Lexemes, Args, ArgTexts, RedirTexts, RedirsText, ItemsText, Sub, Res, ArgsGive, ArgsOf, RedirsOf;
    ArgsStep(s, p, argv, rs);
    Front(s, p);
    PeekIs(s, p, "|)&;");
    var t := TokenAt(s, p);
    NoItems();
    if items == [] {
      assert Lexemes(s, p) == rest;
      SkipSame(s, p);
      GiveNone(s, Args(s, p, argv, rs), argv, rs, rest);
    } else {
      var w := items[0].w;
      var lead, tail := SplitRes(items[1..]);
      ResFirst(lead, tail);
      assert items == [Arg(w)] + (Res(lead) + tail);
      ItemsCons(Arg(w), Res(lead) + tail);
      Regrouped(W(w), RedirsText(lead), ItemsText(tail), rest);
      var ls := Lexemes(s, p);
      assert ls[0] == W(w) && ls[1..] == RedirsText(lead) + (ItemsText(tail) + rest);
      WordKind(s, p);
      WordSub(s, p);
      TailStart(tail, rest);
      RedirsComplete(s, t.next, lead, ItemsText(tail) + rest);
      var more := Redirs(s, t.next).value;
      ArgsComplete(s, more.1, tail, rest, argv + [t.span], rs + more.0);
      GiveMore(s, Args(s, p, argv, rs), argv, rs, t.span, more.0, tail, rest);
    }
  }

  lemma GiveNone(s: string, r: Option<(seq<Span>, seq<Redir>, nat)>, argv: seq<Span>, rs: seq<Redir>, rest: seq<Lexeme>)
    requires r.Some? && r.value.0 == argv && r.value.1 == rs && r.value.2 <= |s| && Lexemes(s, r.value.2) == rest
    ensures ArgsGive(s, r, argv, rs, [], rest)
  {
    hide Lexemes;
    assert ArgTexts(s, argv) + [] == ArgTexts(s, argv) && RedirTexts(s, rs) + [] == RedirTexts(s, rs);
  }

  lemma WordKind(s: string, p: nat)
    requires p <= |s| && Lexemes(s, p) != [] && Lexemes(s, p)[0].W?
    ensures TokenAt(s, p).kind.Word?
  {
    Front(s, p);
    hide TokenAt, Lexemes;
  }

  /** After the leading redirections comes a word or what follows the command. */
  lemma TailStart(items: seq<Item>, rest: seq<Lexeme>)
    requires (items == [] || items[0].Arg?) && Follows(rest, "|)&;")
    ensures !Starts(ItemsText(items) + rest, "<>") && !Starts(ItemsText(items) + rest, "(")
  {
    if items == [] {
      assert ItemsText(items) + rest == rest;
    } else {
      assert (ItemsText(items) + rest)[0] == W(items[0].w);
    }
  }

  // ------------------------------------------------------------------------ commands

  /** The parser's result: the tree t, and what is left to read. */
  ghost predicate Gives(s: string, r: Result, t: Tree, rest: seq<Lexeme>) {
    r.Done? && r.next <= |s| && CmdOk(s, r.cmd) && View(s, r.cmd) == t && Lexemes(s, r.next) == rest
  }

  /** The command of these words and redirections. */
  lemma SimpleView(s: string, argv: seq<Span>, rs: seq<Redir>)
    requires CmdOk(s, Exec(argv)) && forall i :: 0 <= i < |rs| ==> RedirOk(s, rs[i])
    ensures CmdOk(s, Wrap(Exec(argv), rs)) && View(s, Wrap(Exec(argv), rs)) == Within(Run(ArgTexts(s, argv)), RedirTexts(s, rs))
  {
    WrapView(s, Exec(argv), rs);
    forall i | 0 <= i < |argv| ensures s[argv[i].lo..argv[i].hi] == Sub(s, argv[i]) { assert IsWord(s, argv[i]); }
    assert View(s, Exec(argv)) == Run(ArgTexts(s, argv));
  }

  lemma {:induction false} UnwrapOk(s: string, c: Cmd, rs: seq<Redir>)
    requires CmdOk(s, Wrap(c, rs))
    ensures CmdOk(s, c) && forall i :: 0 <= i < |rs| ==> RedirOk(s, rs[i])
    decreases |rs|
  {
    if |rs| > 0 {
      UnwrapOk(s, Redirect(c, rs[0]), rs[1..]);
      assert forall i :: 1 <= i < |rs| ==> rs[i] == rs[1..][i - 1];
    }
  }

  lemma WordsComplete(s: string, p: nat, items: seq<Item>, rest: seq<Lexeme>)
    requires p <= |s| && PrimOk(Simple(items)) && Lexemes(s, p) == ItemsText(items) + rest && Follows(rest, "|)&;")
    ensures Gives(s, Words(s, p), PrimTree(Simple(items)), rest)
  {
    hide Lexemes, Redirs, Args, ItemsText, RedirsText, ArgsOf, RedirsOf, Res, CmdOk, View, Wrap, ArgTexts, RedirTexts, Starts;
    var lead, tail := SplitRes(items);
    ResFirst(lead, tail);
    TailStart(tail, rest);
    Assoc(RedirsText(lead), ItemsText(tail), rest);
    RedirsComplete(s, p, lead, ItemsText(tail) + rest);
    var first := Redirs(s, p).value;
    ArgsComplete(s, first.1, tail, rest, [], first.0);
    var r := Args(s, first.1, [], first.0).value;
    NoTexts(s);
    assert [] + ArgsOf(tail) == ArgsOf(tail);
    ArgsOk(s, first.1, [], first.0);
    UnwrapOk(s, Exec(r.0), r.1);
    SimpleView(s, r.0, r.1);
  }

  lemma WordsSound(s: string, p: nat) returns (items: seq<Item>)
    requires p <= |s| && Words(s, p).Done?
    ensures PrimOk(Simple(items)) && Lexemes(s, p) == ItemsText(items) + Lexemes(s, Words(s, p).next)
    ensures Gives(s, Words(s, p), PrimTree(Simple(items)), Lexemes(s, Words(s, p).next))
  {
    hide Lexemes, Redirs, Args, ItemsText, RedirsText, ArgsOf, RedirsOf, Res, CmdOk, View, Wrap, ArgTexts, RedirTexts;
    RedirsSound(s, p);
    var first := Redirs(s, p).value;
    ArgsOk(s, first.1, [], first.0);
    var r := Args(s, first.1, [], first.0).value;
    var tail := ArgsSound(s, first.1, [], first.0);
    var lead := RedirTexts(s, first.0);
    items := Res(lead) + tail;
    ResFirst(lead, tail);
    ResOk(lead, tail);
    Assoc(RedirsText(lead), ItemsText(tail), Lexemes(s, r.2));
    NoTexts(s);
    assert [] + ArgsOf(tail) == ArgsOf(tail);
    UnwrapOk(s, Exec(r.0), r.1);
    SimpleView(s, r.0, r.1);
  }

  /** What is left after the symbol that peek() saw. */
  ghost function After(s: string, p: nat): (q: nat)
    requires p <= |s|
    ensures p <= q <= |s|
  {
    TokenAt(s, p).next
  }

  lemma AfterIs(s: string, p: nat, c: char, rest: seq<Lexeme>)
    requires p <= |s| && Lexemes(s, p) == [S(c)] + rest
    ensures Lexemes(s, After(s, p)) == rest && p < After(s, p)
  {
    Front(s, p);
    hide TokenAt, Lexemes;
    assert ([S(c)] + rest)[1..] == rest;
  }

  /** The lexeme before the rest, when peek() has seen one symbol. */
  lemma AfterPeek(s: string, p: nat, c: char)
    requires p <= |s| && Symbol(c) && c != '>' && Peek(s, p, [c])
    ensures Lexemes(s, p) == [S(c)] + Lexemes(s, After(s, p)) && p < After(s, p)
  {
    PeekIs(s, p, [c]);
    Front(s, p);
    hide TokenAt, Lexemes;
    var ls := Lexemes(s, p);
    assert ls == [ls[0]] + ls[1..];
  }

  lemma BackView(s: string, c: Cmd)
    requires CmdOk(s, c)
    ensures CmdOk(s, Back(c)) && View(s, Back(c)) == Bg(View(s, c))
  {
  }

  lemma {:induction false} BacksComplete(s: string, p: nat, c: Cmd, n: nat, rest: seq<Lexeme>)
    requires p <= |s| && CmdOk(s, c) && Lexemes(s, p) == Amps(n) + rest && !Starts(rest, "&")
    ensures var r := Backs(s, p, c); CmdOk(s, r.0) && View(s, r.0) == InBack(View(s, c), n) && Lexemes(s, r.1) == rest
    decreases n
  {
    hide TokenAt, Skip, Lexemes, View, CmdOk;
    PeekIs(s, p, "&");
    if n == 0 {
      assert Lexemes(s, p) == rest;
      SkipSame(s, p);
    } else {
      assert Lexemes(s, p) == [S('&')] + (Amps(n - 1) + rest);
      AfterIs(s, p, '&', Amps(n - 1) + rest);
      BackView(s, c);
      BacksComplete(s, After(s, p), Back(c), n - 1, rest);
    }
  }

  lemma {:induction false} BacksSound(s: string, p: nat, c: Cmd) returns (n: nat)
    requires p <= |s| && CmdOk(s, c)
    ensures var r := Backs(s, p, c); CmdOk(s, r.0) && View(s, r.0) == InBack(View(s, c), n) && Lexemes(s, p) == Amps(n) + Lexemes(s, r.1)
    decreases |s| - p
  {
    hide TokenAt, Skip, Lexemes, View, CmdOk;
    if !Peek(s, p, "&") {
      n := 0;
      SkipSame(s, p);
    } else {
      AfterPeek(s, p, '&');
      BackView(s, c);
      n := BacksSound(s, After(s, p), Back(c));
      n := n + 1;
    }
  }

  // what the parser does, one level at a time

  lemma ExecStep(s: string, p: nat)
    requires p <= |s|
    ensures !Peek(s, p, "(") ==> ParseExec(s, p) == Words(s, p)
    ensures Peek(s, p, "(") ==>
              var line := ParseLine(s, After(s, p));
              if line.Fail? || !Peek(s, line.next, ")") || Redirs(s, After(s, line.next)).None? then ParseExec(s, p).Fail?
              else ParseExec(s, p) == Done(Wrap(line.cmd, Redirs(s, After(s, line.next)).value.0), Redirs(s, After(s, line.next)).value.1)
  {
    hide TokenAt, Skip, Redirs, Words, ParseLine, Wrap;
  }

  lemma PipeStep(s: string, p: nat)
    requires p <= |s|
    ensures var left := ParseExec(s, p);
            if left.Fail? then ParsePipe(s, p).Fail?
            else if !Peek(s, left.next, "|") then ParsePipe(s, p) == Done(left.cmd, Skip(s, left.next))
            else var right := ParsePipe(s, After(s, left.next));
                 ParsePipe(s, p) == if right.Fail? then Fail else Done(Pipe(left.cmd, right.cmd), right.next)
  {
    hide TokenAt, Skip, ParseExec;
  }

  lemma LineStep(s: string, p: nat)
    requires p <= |s|
    ensures var first := ParsePipe(s, p);
            if first.Fail? then ParseLine(s, p).Fail?
            else
              var b := Backs(s, first.next, first.cmd);
              if !Peek(s, b.1, ";") then ParseLine(s, p) == Done(b.0, Skip(s, b.1))
              else var rest := ParseLine(s, After(s, b.1));
                   ParseLine(s, p) == if rest.Fail? then Fail else Done(List(b.0, rest.cmd), rest.next)
  {
    hide TokenAt, Skip, ParsePipe, Backs;
  }

  lemma PairView(s: string, l: Cmd, r: Cmd)
    requires CmdOk(s, l) && CmdOk(s, r)
    ensures CmdOk(s, Pipe(l, r)) && View(s, Pipe(l, r)) == Piped(View(s, l), View(s, r))
    ensures CmdOk(s, List(l, r)) && View(s, List(l, r)) == Then(View(s, l), View(s, r))
  {
  }

  // -------------------------------------------- every line that is spelled is accepted

  lemma {:induction false} PrimComplete(s: string, p: nat, x: Prim, rest: seq<Lexeme>)
    requires p <= |s| && PrimOk(x) && Lexemes(s, p) == PrimText(x) + rest && Follows(rest, "|)&;")
    ensures Gives(s, ParseExec(s, p), PrimTree(x), rest)
    decreases x
  {
    hide TokenAt, Skip, Lexemes, Redirs, Words, ParseExec, ParseLine, Wrap, CmdOk, View, RedirTexts, ItemsText, RedirsText, ArgsOf, RedirsOf, Within, After;
    ExecStep(s, p);
    PeekIs(s, p, "(");
    match x
    case Simple(items) =>
      ItemsStart(items, rest);
      WordsComplete(s, p, items, rest);
    case Group(line, rs) =>
      var closed := [S(')')] + (RedirsText(rs) + rest);
      Opened(LineText(line), RedirsText(rs), rest);
      assert Lexemes(s, p) == [S('(')] + (LineText(line) + closed);
      AfterIs(s, p, '(', LineText(line) + closed);
      LineComplete(s, After(s, p), line, closed);
      var l := ParseLine(s, After(s, p));
      PeekIs(s, l.next, ")");
      AfterIs(s, l.next, ')', RedirsText(rs) + rest);
      RedirsComplete(s, After(s, l.next), rs, rest);
      WrapView(s, l.cmd, Redirs(s, After(s, l.next)).value.0);
  }

  lemma Opened(l: seq<Lexeme>, rs: seq<Lexeme>, rest: seq<Lexeme>)
    ensures [S('(')] + l + [S(')')] + rs + rest == [S('(')] + (l + ([S(')')] + (rs + rest)))
  {
  }

  lemma ItemsStart(items: seq<Item>, rest: seq<Lexeme>)
    requires Follows(rest, "|)&;")
    ensures !Starts(ItemsText(items) + rest, "(")
  {
    if items == [] {
      assert ItemsText(items) + rest == rest;
    } else {
      assert (ItemsText(items) + rest)[0] == ItemText(items[0])[0];
    }
  }

  lemma {:induction false} PipeComplete(s: string, p: nat, x: Pipeline, rest: seq<Lexeme>)
    requires p <= |s| && PipeOk(x) && Lexemes(s, p) == PipeText(x) + rest && Follows(rest, ")&;")
    ensures Gives(s, ParsePipe(s, p), PipeTree(x), rest)
    decreases x
  {
    hide TokenAt, Skip, Lexemes, ParseExec, ParsePipe, CmdOk, View, PrimText, PrimTree, PrimOk, After;
    PipeStep(s, p);
    match x
    case One(prim) =>
      PrimComplete(s, p, prim, rest);
      var left := ParseExec(s, p);
      PeekIs(s, left.next, "|");
      SkipSame(s, left.next);
    case Bar(prim, more) =>
      var tail := [S('|')] + (PipeText(more) + rest);
      Joined(PrimText(prim), S('|'), PipeText(more), rest);
      PrimComplete(s, p, prim, tail);
      var left := ParseExec(s, p);
      PeekIs(s, left.next, "|");
      AfterIs(s, left.next, '|', PipeText(more) + rest);
      PipeComplete(s, After(s, left.next), more, rest);
      PairView(s, left.cmd, ParsePipe(s, After(s, left.next)).cmd);
  }

  lemma Joined(a: seq<Lexeme>, l: Lexeme, b: seq<Lexeme>, rest: seq<Lexeme>)
    ensures a + [l] + b + rest == a + ([l] + (b + rest))
  {
  }

  lemma {:induction false} LineComplete(s: string, p: nat, x: Line, rest: seq<Lexeme>)
    requires p <= |s| && LineOk(x) && Lexemes(s, p) == LineText(x) + rest && Follows(rest, ")")
    ensures Gives(s, ParseLine(s, p), LineTree(x), rest)
    decreases x
  {
    hide TokenAt, Skip, Lexemes, ParsePipe, ParseLine, Backs, CmdOk, View, PipeText, PipeTree, PipeOk, InBack, After;
    LineStep(s, p);
    var tail := match x case Last(_, _) => rest case Semi(_, _, more) => [S(';')] + (LineText(more) + rest);
    match x { case Last(_, _) => case Semi(pipe, n, more) => Joined(PipeText(pipe) + Amps(n), S(';'), LineText(more), rest); }
    Assoc(PipeText(x.p), Amps(x.amps), tail);
    AmpsFollow(x.amps, tail);
    PipeComplete(s, p, x.p, Amps(x.amps) + tail);
    var first := ParsePipe(s, p);
    BacksComplete(s, first.next, first.cmd, x.amps, tail);
    var b := Backs(s, first.next, first.cmd);
    PeekIs(s, b.1, ";");
    match x
    case Last(_, _) =>
      SkipSame(s, b.1);
    case Semi(_, _, more) =>
      AfterIs(s, b.1, ';', LineText(more) + rest);
      LineComplete(s, After(s, b.1), more, rest);
      PairView(s, b.0, ParseLine(s, After(s, b.1)).cmd);
  }

  lemma AmpsFollow(n: nat, rest: seq<Lexeme>)
    requires Follows(rest, ");")
    ensures Follows(Amps(n) + rest, ")&;")
  {
    if n == 0 { assert Amps(n) + rest == rest; }
  }

  // ------------------------------------------- every text accepted is a line spelled

  lemma {:induction false} PrimSound(s: string, p: nat) returns (x: Prim)
    requires p <= |s| && ParseExec(s, p).Done?
    ensures PrimOk(x) && Lexemes(s, p) == PrimText(x) + Lexemes(s, ParseExec(s, p).next)
    ensures Gives(s, ParseExec(s, p), PrimTree(x), Lexemes(s, ParseExec(s, p).next))
    decreases |s| - p, 0
  {
    hide TokenAt, Skip, Lexemes, Redirs, Words, ParseExec, ParseLine, Wrap, CmdOk, View, RedirTexts, ItemsText, RedirsText, ArgsOf, RedirsOf, Within, After;
    ExecStep(s, p);
    if !Peek(s, p, "(") {
      var items := WordsSound(s, p);
      x := Simple(items);
    } else {
      AfterPeek(s, p, '(');
      var line := LineSound(s, After(s, p));
      var l := ParseLine(s, After(s, p));
      AfterPeek(s, l.next, ')');
      RedirsSound(s, After(s, l.next));
      var r := Redirs(s, After(s, l.next)).value;
      WrapView(s, l.cmd, r.0);
      x := Group(line, RedirTexts(s, r.0));
      Opened(LineText(line), RedirsText(x.rs), Lexemes(s, r.1));
    }
  }

  lemma {:induction false} PipeSound(s: string, p: nat) returns (x: Pipeline)
    requires p <= |s| && ParsePipe(s, p).Done?
    ensures PipeOk(x) && Lexemes(s, p) == PipeText(x) + Lexemes(s, ParsePipe(s, p).next)
    ensures Gives(s, ParsePipe(s, p), PipeTree(x), Lexemes(s, ParsePipe(s, p).next))
    decreases |s| - p, 1
  {
    hide TokenAt, Skip, Lexemes, ParseExec, ParsePipe, CmdOk, View, PrimText, PrimTree, PrimOk, After;
    PipeStep(s, p);
    var prim := PrimSound(s, p);
    var left := ParseExec(s, p);
    if !Peek(s, left.next, "|") {
      x := One(prim);
      SkipSame(s, left.next);
    } else {
      AfterPeek(s, left.next, '|');
      var more := PipeSound(s, After(s, left.next));
      x := Bar(prim, more);
      PairView(s, left.cmd, ParsePipe(s, After(s, left.next)).cmd);
      Joined(PrimText(prim), S('|'), PipeText(more), Lexemes(s, ParsePipe(s, p).next));
    }
  }

  lemma {:induction false} LineSound(s: string, p: nat) returns (x: Line)
    requires p <= |s| && ParseLine(s, p).Done?
    ensures LineOk(x) && Lexemes(s, p) == LineText(x) + Lexemes(s, ParseLine(s, p).next)
    ensures Gives(s, ParseLine(s, p), LineTree(x), Lexemes(s, ParseLine(s, p).next))
    decreases |s| - p, 2
  {
    hide TokenAt, Skip, Lexemes, ParsePipe, ParseLine, Backs, CmdOk, View, PipeText, PipeTree, PipeOk, InBack, After;
    LineStep(s, p);
    var pipe := PipeSound(s, p);
    var first := ParsePipe(s, p);
    var n := BacksSound(s, first.next, first.cmd);
    var b := Backs(s, first.next, first.cmd);
    Assoc(PipeText(pipe), Amps(n), Lexemes(s, b.1));
    if !Peek(s, b.1, ";") {
      x := Last(pipe, n);
      SkipSame(s, b.1);
    } else {
      AfterPeek(s, b.1, ';');
      var more := LineSound(s, After(s, b.1));
      x := Semi(pipe, n, more);
      PairView(s, b.0, ParseLine(s, After(s, b.1)).cmd);
      Joined(PipeText(pipe) + Amps(n), S(';'), LineText(more), Lexemes(s, ParseLine(s, p).next));
    }
  }

  // ------------------------------------------------------------------ the whole input

  ghost predicate LexemesOk(ls: seq<Lexeme>) { forall i :: 0 <= i < |ls| ==> LexemeOk(ls[i]) }

  lemma OkConcat(a: seq<Lexeme>, b: seq<Lexeme>)
    requires LexemesOk(a) && LexemesOk(b)
    ensures LexemesOk(a + b)
  {
    hide LexemeOk;
  }

  lemma {:induction false} RedirsTextOk(rs: seq<Redirection>)
    requires RedirsOk(rs)
    ensures LexemesOk(RedirsText(rs))
  {
    if rs != [] { RedirsTextOk(rs[1..]); }
  }

  lemma {:induction false} ItemsTextOk(items: seq<Item>)
    requires forall i :: 0 <= i < |items| ==> ItemOk(items[i])
    ensures LexemesOk(ItemsText(items))
  {
    if items != [] {
      ItemsTextOk(items[1..]);
      assert ItemOk(items[0]);
      assert LexemesOk(ItemText(items[0]));
      OkConcat(ItemText(items[0]), ItemsText(items[1..]));
    }
  }

  lemma {:induction false} AmpsOk(n: nat)
    ensures LexemesOk(Amps(n))
  {
    if n > 0 { AmpsOk(n - 1); }
  }

  lemma {:induction false} PrimTextOk(x: Prim)
    requires PrimOk(x)
    ensures LexemesOk(PrimText(x))
  {
    match x
    case Simple(items) => ItemsTextOk(items);
    case Group(line, rs) =>
      LineTextOk(line);
      RedirsTextOk(rs);
      assert LexemesOk([S('(')]) && LexemesOk([S(')')]);
      hide LexemesOk;
      OkConcat([S('(')], LineText(line));
      OkConcat([S('(')] + LineText(line), [S(')')]);
      OkConcat([S('(')] + LineText(line) + [S(')')], RedirsText(rs));
  }

  lemma {:induction false} PipeTextOk(x: Pipeline)
    requires PipeOk(x)
    ensures LexemesOk(PipeText(x))
  {
    PrimTextOk(x.p);
    match x
    case One(_) =>
    case Bar(prim, rest) =>
      PipeTextOk(rest);
      assert LexemesOk([S('|')]);
      hide LexemesOk;
      OkConcat(PrimText(prim), [S('|')]);
      OkConcat(PrimText(prim) + [S('|')], PipeText(rest));
  }

  lemma {:induction false} LineTextOk(x: Line)
    requires LineOk(x)
    ensures LexemesOk(LineText(x))
  {
    PipeTextOk(x.p);
    AmpsOk(x.amps);
    OkConcat(PipeText(x.p), Amps(x.amps));
    match x
    case Last(_, _) =>
    case Semi(pipe, n, rest) =>
      LineTextOk(rest);
      assert LexemesOk([S(';')]);
      hide LexemesOk;
      OkConcat(PipeText(pipe) + Amps(n), [S(';')]);
      OkConcat(PipeText(pipe) + Amps(n) + [S(';')], LineText(rest));
  }

  /** A line however spelled, with words and redirections in any order and spaces anywhere, parses to what it means. */
  lemma LineAccepted(s: string, x: Line)
    requires LineOk(x) && Spells(s, 0, LineText(x))
    ensures var r := ParseCmd(s); r.Some? && View(s, r.value) == LineTree(x)
  {
    hide Lexemes, Skip, Spells, LineText, LineTree, LineOk, View, CmdOk;
    LineTextOk(x);
    SpellsLexemes(s, 0, LineText(x));
    assert LineText(x) + [] == LineText(x);
    LineComplete(s, 0, x, []);
    var line := ParseLine(s, 0);
    Front(s, line.next);
    hide ParseLine, TokenAt;
  }

  /** And what is accepted is a line with that meaning. */
  lemma AcceptedLine(s: string)
    requires ParseCmd(s).Some?
    ensures Denotes(s, View(s, ParseCmd(s).value))
  {
    hide Lexemes, Skip, Spells, LineText, LineTree, LineOk, View, CmdOk, TokenAt;
    var x := LineSound(s, 0);
    var line := ParseLine(s, 0);
    Front(s, line.next);
    assert LineText(x) + [] == LineText(x);
    LexemesSpell(s, 0);
    hide ParseLine;
  }

  /** parsecmd() gives the tree t exactly for the texts that mean t. */
  lemma ParseIff(s: string, t: Tree)
    ensures (ParseCmd(s).Some? && View(s, ParseCmd(s).value) == t) <==> Denotes(s, t)
  {
    hide ParseCmd, View, LineText, LineTree, LineOk, Spells;
    if ParseCmd(s).Some? { AcceptedLine(s); }
    if Denotes(s, t) {
      var x: Line :| LineOk(x) && Spells(s, 0, LineText(x)) && LineTree(x) == t;
      LineAccepted(s, x);
    }
  }

  /** No text means two things, and the syntax panic is for exactly the texts that mean nothing. */
  lemma OneMeaning(s: string)
    ensures forall t, u :: Denotes(s, t) && Denotes(s, u) ==> t == u
    ensures ParseCmd(s).None? <==> forall t :: !Denotes(s, t)
  {
    hide ParseCmd, View, Denotes;
    forall t ensures (ParseCmd(s).Some? && View(s, ParseCmd(s).value) == t) <==> Denotes(s, t) { ParseIff(s, t); }
    if ParseCmd(s).Some? { assert Denotes(s, View(s, ParseCmd(s).value)); }
  }
}
