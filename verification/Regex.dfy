/**
 grep's matcher for the operators ^ . * and $, against the language a pattern
 denotes. Strings carry no terminating NUL here: position |s| is where it stands.
 */
module Regex {
  // ----------------------------------------------------------- what patterns mean

  /** One character, or any number of equal ones; '.' stands for every character. */
  datatype Atom = One(c: char) | Many(c: char)

  predicate Fits(c: char, x: char) { c == '.' || c == x }

  ghost predicate AtomLang(a: Atom, w: string) {
    (a.One? ==> |w| == 1) && forall i :: 0 <= i < |w| ==> Fits(a.c, w[i])
  }

  ghost function Atoms(re: string): (s: seq<Atom>) {
    if re == "" || re == "$" then []
    else if |re| >= 2 && re[1] == '*' then [Many(re[0])] + Atoms(re[2..])
    else [One(re[0])] + Atoms(re[1..])
  }

  /** The pattern ends in a '$' that is an anchor. */
  ghost predicate Anchored(re: string) {
    if re == "" then false
    else if |re| >= 2 && re[1] == '*' then Anchored(re[2..])
    else re == "$" || Anchored(re[1..])
  }

  /** cuts splits w into one piece for each atom. */
  ghost predicate Split(s: seq<Atom>, w: string, cuts: seq<nat>) {
    && |cuts| == |s| + 1 && cuts[0] == 0 && cuts[|s|] == |w|
    && forall i :: 0 <= i < |s| ==> Piece(s, w, cuts, i)
  }

  ghost predicate Piece(s: seq<Atom>, w: string, cuts: seq<nat>, i: nat)
    requires |cuts| == |s| + 1 && i < |s|
  {
    cuts[i] <= cuts[i + 1] <= |w| && AtomLang(s[i], w[cuts[i]..cuts[i + 1]])
  }

  /** The language of a sequence of atoms: the concatenations of words of theirs. */
  ghost predicate Lang(s: seq<Atom>, w: string) { exists cuts :: Split(s, w, cuts) }

  /** The text begins with a word of the pattern, which is all of it when anchored. */
  ghost predicate Begins(re: string, text: string) {
    exists j :: 0 <= j <= |text| && Ends(re, text, j)
  }

  ghost predicate Ends(re: string, text: string, j: nat)
    requires j <= |text|
  {
    Lang(Atoms(re), text[..j]) && (Anchored(re) ==> j == |text|)
  }

  /** Some substring is a word: a prefix under '^', a suffix under a final '$'. */
  ghost predicate Contains(re: string, text: string) {
    if re != "" && re[0] == '^' then Begins(re[1..], text)
    else exists i :: 0 <= i <= |text| && Begins(re, text[i..])
  }

  // -------------------------------------------------------- one atom at a time

  lemma LangNil(w: string)
    ensures Lang([], w) <==> w == ""
  {
    if w == "" { assert Split([], w, [0]); }
  }

  lemma LangCons(a: Atom, s: seq<Atom>, w: string, k: nat)
    requires k <= |w| && AtomLang(a, w[..k]) && Lang(s, w[k..])
    ensures Lang([a] + s, w)
  {
    var cuts :| Split(s, w[k..], cuts);
    var all := [0] + seq(|cuts|, i requires 0 <= i < |cuts| => cuts[i] + k);
    var t := [a] + s;
    forall i | 0 <= i < |t| ensures Piece(t, w, all, i) {
      if i > 0 {
        assert Piece(s, w[k..], cuts, i - 1);
        assert w[k..][cuts[i - 1]..cuts[i]] == w[all[i]..all[i + 1]];
      } else {
        assert w[all[0]..all[1]] == w[..k];
      }
    }
    assert Split(t, w, all);
  }

  lemma LangHead(a: Atom, s: seq<Atom>, w: string) returns (k: nat)
    requires Lang([a] + s, w)
    ensures k <= |w| && AtomLang(a, w[..k]) && Lang(s, w[k..])
  {
    var t := [a] + s;
    var all :| Split(t, w, all);
    k := all[1];
    assert Piece(t, w, all, 0) && w[all[0]..all[1]] == w[..k];
    forall i | 0 <= i < |t| ensures all[i] <= all[i + 1] { assert Piece(t, w, all, i); }
    forall i | 1 <= i < |all| ensures k <= all[i] { Rising(all, 1, i); }
    var cuts := seq(|s| + 1, i requires 0 <= i <= |s| => if all[i + 1] >= k then all[i + 1] - k else 0);
    forall i | 0 <= i < |s| ensures Piece(s, w[k..], cuts, i) {
      assert Piece(t, w, all, i + 1) && t[i + 1] == s[i];
      assert cuts[i] == all[i + 1] - k && cuts[i + 1] == all[i + 2] - k;
      SliceOfSlice(w, k, cuts[i], cuts[i + 1]);
    }
    assert Split(s, w[k..], cuts);
  }

  lemma SliceOfSlice(w: string, k: nat, i: nat, j: nat)
    requires i <= j && k + j <= |w|
    ensures w[k..][i..j] == w[k + i..k + j]
  {
  }

  lemma {:induction false} Rising(cuts: seq<nat>, i: nat, j: nat)
    requires i <= j < |cuts| && forall k :: 0 <= k < |cuts| - 1 ==> cuts[k] <= cuts[k + 1]
    ensures cuts[i] <= cuts[j]
    decreases j
  {
    if i < j { Rising(cuts, i, j - 1); }
  }

  // ----------------------------------------------------------- the code's cases

  lemma BeginsEmpty(text: string)
    ensures Begins("", text)
  {
    LangNil(text[..0]);
    assert Ends("", text, 0);
  }

  lemma BeginsDollar(text: string)
    ensures Begins("$", text) <==> text == ""
  {
    LangNil(text[..|text|]);
    if Begins("$", text) {
      var j :| 0 <= j <= |text| && Ends("$", text, j);
      LangNil(text[..j]);
    }
    if text == "" { assert Ends("$", text, 0); }
  }

  lemma BeginsOne(re: string, text: string)
    requires re != "" && re != "$" && !(|re| >= 2 && re[1] == '*')
    ensures Begins(re, text) <==> text != "" && Fits(re[0], text[0]) && Begins(re[1..], text[1..])
  {
    hide Lang, AtomLang;
    var a, s := One(re[0]), Atoms(re[1..]);
    assert Atoms(re) == [a] + s && (Anchored(re) <==> Anchored(re[1..]));
    if Begins(re, text) {
      var j :| 0 <= j <= |text| && Ends(re, text, j);
      var k := LangHead(a, s, text[..j]);
      OneWord(a, text[..j][..k]);
      assert text[..j][1..] == text[1..][..j - 1];
      assert Ends(re[1..], text[1..], j - 1);
    }
    if text != "" && Fits(re[0], text[0]) && Begins(re[1..], text[1..]) {
      var j :| 0 <= j <= |text[1..]| && Ends(re[1..], text[1..], j);
      assert text[..j + 1][1..] == text[1..][..j];
      OneWord(a, text[..j + 1][..1]);
      LangCons(a, s, text[..j + 1], 1);
      assert Ends(re, text, j + 1);
    }
  }

  lemma OneWord(a: Atom, w: string)
    requires a.One?
    ensures AtomLang(a, w) <==> |w| == 1 && Fits(a.c, w[0])
  {
  }

  /** Some run of c leads to a place where the rest of the pattern begins. */
  ghost predicate RunThen(c: char, re: string, text: string) {
    exists k :: 0 <= k <= |text| && AtomLang(Many(c), text[..k]) && Begins(re, text[k..])
  }

  lemma BeginsMany(re: string, text: string)
    requires |re| >= 2 && re[1] == '*'
    ensures Begins(re, text) <==> RunThen(re[0], re[2..], text)
  {
    hide Lang, AtomLang;
    var a, s := Many(re[0]), Atoms(re[2..]);
    assert Atoms(re) == [a] + s && (Anchored(re) <==> Anchored(re[2..]));
    if Begins(re, text) {
      var j :| 0 <= j <= |text| && Ends(re, text, j);
      var k := LangHead(a, s, text[..j]);
      assert text[..j][..k] == text[..k] && text[..j][k..] == text[k..][..j - k];
      assert Ends(re[2..], text[k..], j - k);
    }
    if RunThen(re[0], re[2..], text) {
      var k :| 0 <= k <= |text| && AtomLang(a, text[..k]) && Begins(re[2..], text[k..]);
      var j :| 0 <= j <= |text[k..]| && Ends(re[2..], text[k..], j);
      assert text[..k + j][..k] == text[..k] && text[..k + j][k..] == text[k..][..j];
      LangCons(a, s, text[..k + j], k);
      assert Ends(re, text, k + j);
    }
  }

  // -------------------------------------------------------------------- the code

  /** matchhere() */
  method MatchHere(re: string, text: string) returns (r: bool)
    ensures r <==> Begins(re, text)
    decreases |re|, 0
  {
    hide Begins;
    if re == "" {
      BeginsEmpty(text);
      return true;
    }
    if |re| >= 2 && re[1] == '*' {
      BeginsMany(re, text);
      r := MatchStar(re[0], re[2..], text);
      return;
    }
    if re[0] == '$' && |re| == 1 {
      assert re == "$";
      BeginsDollar(text);
      return text == "";
    }
    BeginsOne(re, text);
    if text != "" && (re[0] == '.' || re[0] == text[0]) {
      r := MatchHere(re[1..], text[1..]);
      return;
    }
    return false;
  }

  /** matchstar() */
  method MatchStar(c: char, re: string, text: string) returns (r: bool)
    ensures r <==> RunThen(c, re, text)
    decreases |re|, 1
  {
    hide Begins;
    var t := 0;
    while true
      invariant 0 <= t <= |text| && AtomLang(Many(c), text[..t])
      invariant forall k :: 0 <= k < t ==> !Begins(re, text[k..])
      decreases |text| - t
    {
      var here := MatchHere(re, text[t..]);
      if here { return true; }
      if t == |text| || !(text[t] == c || c == '.') { break; }
      t := t + 1;
    }
    assert forall k :: t < k <= |text| ==> !AtomLang(Many(c), text[..k]) by {
      forall k | t < k <= |text| ensures !AtomLang(Many(c), text[..k]) { assert text[..k][t] == text[t]; }
    }
    return false;
  }

  /** match() */
  method Match(re: string, text: string) returns (r: bool)
    ensures r <==> Contains(re, text)
  {
    hide Begins;
    if re != "" && re[0] == '^' {
      r := MatchHere(re[1..], text);
      return;
    }
    var t := 0;
    while true
      invariant 0 <= t <= |text| && forall i :: 0 <= i < t ==> !Begins(re, text[i..])
      decreases |text| - t
    {
      r := MatchHere(re, text[t..]);
      if r { return; }
      if t == |text| { break; }
      t := t + 1;
    }
    return false;
  }
}
