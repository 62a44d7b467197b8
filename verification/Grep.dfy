/**
 grep's line reader: a fixed buffer refilled by reads of any size. The k-th read
 delivers what the environment's `size(k)` asks for, within what fits and what is left.
 */
module Grep {
  import opened Regex

  const BUF: nat := 1024
  const NUL: char := '\0'

  // ------------------------------------------------------------- what it prints

  /** The first newline, or the length when there is none. */
  function Line(s: string): (n: nat)
    ensures n <= |s| && (n < |s| ==> s[n] == '\n') && forall i :: 0 <= i < n ==> s[i] != '\n'
  {
    if s == "" || s[0] == '\n' then 0 else 1 + Line(s[1..])
  }

  /** The length of what comes before the first NUL. */
  function Text(s: string): (n: nat)
    ensures n <= |s| && (n < |s| ==> s[n] == NUL) && forall i :: 0 <= i < n ==> s[i] != NUL
  {
    if s == "" || s[0] == NUL then 0 else 1 + Text(s[1..])
  }

  /** The complete lines that contain a match, in order. */
  ghost function Output(re: string, s: string): (out: string)
    decreases |s|
  {
    var n := Line(s);
    if n == |s| then ""
    else (if Contains(re, s[..n]) then s[..n + 1] else "") + Output(re, s[n + 1..])
  }

  /** The lines before the first that does not fit the buffer. */
  ghost function Readable(s: string): (r: string)
    decreases |s|
  {
    var n := Line(s);
    if n >= BUF - 1 then "" else if n == |s| then s else s[..n + 1] + Readable(s[n + 1..])
  }

  ghost predicate ShortLines(s: string)
    decreases |s|
  {
    var n := Line(s);
    n < BUF - 1 && (n < |s| ==> ShortLines(s[n + 1..]))
  }

  /** With lines of at most 1022 bytes, and only then, everything is read. */
  lemma {:induction false} ReadableAll(s: string)
    ensures Readable(s) == s <==> ShortLines(s)
    decreases |s|
  {
    var n := Line(s);
    if n < |s| {
      ReadableAll(s[n + 1..]);
      assert s == s[..n + 1] + s[n + 1..];
      ReadableLength(s[n + 1..]);
    }
  }

  lemma {:induction false} ReadableLength(s: string)
    ensures |Readable(s)| <= |s|
    decreases |s|
  {
    var n := Line(s);
    if n < |s| { ReadableLength(s[n + 1..]); }
  }

  /** Text so far made of complete short lines. */
  ghost predicate Whole(s: string)
    decreases |s|
  {
    s == "" || (Line(s) < |s| && Line(s) < BUF - 1 && Whole(s[Line(s) + 1..]))
  }

  lemma LineConcat(s: string, t: string)
    ensures Line(s + t) == if Line(s) < |s| then Line(s) else |s| + Line(t)
  {
    var n := if Line(s) < |s| then Line(s) else |s| + Line(t);
    LineIs(s + t, n);
  }

  lemma {:induction false} LineIs(s: string, n: nat)
    requires n <= |s| && (n < |s| ==> s[n] == '\n') && forall i :: 0 <= i < n ==> s[i] != '\n'
    ensures Line(s) == n
  {
  }

  /** The rest after the first line of s, with t after s. */
  lemma FirstLine(s: string, t: string)
    requires Whole(s) && s != ""
    ensures var n := Line(s);
            && Line(s + t) == n < |s| && n < BUF - 1 && Whole(s[n + 1..])
            && (s + t)[..n] == s[..n] && (s + t)[..n + 1] == s[..n + 1] && (s + t)[n + 1..] == s[n + 1..] + t
  {
    LineConcat(s, t);
  }

  lemma Assoc(a: string, b: string, c: string)
    ensures a + (b + c) == a + b + c
  {
  }

  lemma OutputLine(re: string, s: string)
    requires Line(s) < |s|
    ensures var n := Line(s); Output(re, s) == (if Contains(re, s[..n]) then s[..n + 1] else "") + Output(re, s[n + 1..])
  {
  }

  lemma {:induction false} OutputConcat(re: string, s: string, t: string)
    requires Whole(s)
    ensures Output(re, s + t) == Output(re, s) + Output(re, t)
    decreases |s|
  {
    hide Line, Contains, Whole;
    if s == "" {
      assert s + t == t && Line("") == 0;
    } else {
      var n := Line(s);
      FirstLine(s, t);
      OutputLine(re, s);
      OutputLine(re, s + t);
      hide Output;
      OutputConcat(re, s[n + 1..], t);
      Assoc(if Contains(re, s[..n]) then s[..n + 1] else "", Output(re, s[n + 1..]), Output(re, t));
    }
  }

  lemma {:induction false} ReadableConcat(s: string, t: string)
    requires Whole(s)
    ensures Readable(s + t) == s + Readable(t)
    decreases |s|
  {
    hide Line, Whole;
    if s == "" {
      assert s + t == t;
    } else {
      var n := Line(s);
      FirstLine(s, t);
      ReadableConcat(s[n + 1..], t);
      Regroup(s, n, Readable(t));
    }
  }

  lemma Regroup(s: string, n: nat, r: string)
    requires n < |s|
    ensures s[..n + 1] + (s[n + 1..] + r) == s + r
  {
  }

  lemma {:induction false} WholeConcat(s: string, t: string)
    requires Whole(s) && Whole(t)
    ensures Whole(s + t)
    decreases |s|
  {
    hide Line;
    if s == "" {
      assert s + t == t;
    } else {
      FirstLine(s, t);
      WholeConcat(s[Line(s) + 1..], t);
    }
  }

  lemma WholeLine(line: string)
    requires |line| < BUF - 1 && forall i :: 0 <= i < |line| ==> line[i] != '\n'
    ensures Whole(line + "\n") && Line(line + "\n") == |line|
  {
    LineIs(line + "\n", |line|);
    assert (line + "\n")[|line| + 1..] == "";
  }

  /** A line more, printed when it matches. */
  lemma OutputMore(re: string, s: string, line: string)
    requires Whole(s) && |line| < BUF - 1 && forall i :: 0 <= i < |line| ==> line[i] != '\n'
    ensures Whole(s + (line + "\n"))
    ensures Output(re, s + (line + "\n")) == Output(re, s) + if Contains(re, line) then line + "\n" else ""
  {
    hide Whole, Contains;
    var l := line + "\n";
    WholeLine(line);
    WholeConcat(s, l);
    OutputConcat(re, s, l);
    OutputLine(re, l);
    assert l[..|line|] == line && l[..|line| + 1] == l && l[|line| + 1..] == "";
  }

  // -------------------------------------------------------------------- the code

  /** strchr(p, '\n') in the buffer: the newline's place, or none before the NUL. */
  method FindNewline(buf: array<char>, p: nat, ghost z: nat) returns (found: bool, q: nat)
    requires buf.Length == BUF && p <= z < BUF && buf[z] == NUL && forall i :: p <= i < z ==> buf[i] != NUL
    ensures found ==> p <= q < z && buf[q] == '\n' && forall i :: p <= i < q ==> buf[i] != '\n'
    ensures !found ==> forall i :: p <= i < z ==> buf[i] != '\n'
  {
    q := p;
    while buf[q] != NUL
      invariant p <= q <= z && forall i :: p <= i < q ==> buf[i] != '\n'
      decreases z - q
    {
      if buf[q] == '\n' { return true, q; }
      q := q + 1;
    }
    found := false;
  }

  /** read(): any positive number of bytes that fit and are left; 0 at the end, or when nothing fits. */
  function ReadSize(wish: nat, cap: nat, left: nat): (n: nat)
    ensures n <= cap && n <= left && (n == 0 <==> cap == 0 || left == 0)
  {
    var most := if cap < left then cap else left;
    if most == 0 then 0 else if wish == 0 then 1 else if wish < most then wish else most
  }

  /** The line from p to the newline at q, terminated in place, matched, and given out when it matches. */
  method TryLine(re: string, buf: array<char>, p: nat, q: nat) returns (piece: string)
    requires p <= q < buf.Length && buf[q] == '\n'
    modifies buf
    ensures forall i :: 0 <= i < buf.Length && i != q ==> buf[i] == old(buf[i])
    ensures piece == if Contains(re, old(buf[p..q])) then old(buf[p..q]) + "\n" else ""
  {
    hide Contains;
    buf[q] := NUL;
    var hit := Match(re, buf[p..q]);
    assert buf[p..q] == old(buf[p..q]);
    piece := "";
    if hit {
      buf[q] := '\n';
      piece := buf[p..q + 1];
      assert buf[p..q + 1] == buf[p..q] + "\n" && buf[p..q] == old(buf[p..q]);
    }
  }

  /** The lines in the buffer up to its first NUL, matched and printed one by one; p is where the unfinished one starts. */
  method PrintLines(re: string, buf: array<char>, ghost m: nat, ghost z: nat, ghost before: string) returns (p: nat, out: string)
    requires buf.Length == BUF && z <= m < BUF && buf[z] == NUL && (forall i :: 0 <= i < z ==> buf[i] != NUL) && Whole(before)
    modifies buf
    ensures p <= z && buf[p..m] == old(buf[p..m]) && forall i :: p <= i < z ==> buf[i] != '\n'
    ensures Whole(before + old(buf[..p])) && Output(re, before) + out == Output(re, before + old(buf[..p]))
  {
    hide Whole, Output, Contains;
    p, out := 0, "";
    ghost var text := buf[..m];
    assert before + text[..0] == before;
    while true
      invariant p <= z && buf[z] == NUL && buf[p..m] == text[p..] && (forall i :: p <= i < z ==> buf[i] != NUL)
      invariant Whole(before + text[..p]) && Output(re, before) + out == Output(re, before + text[..p])
      decreases z - p
    {
      var found, q := FindNewline(buf, p, z);
      if !found { break; }
      var piece := TakeLine(re, buf, p, q, m, text);
      out := out + piece;
      OutputMore(re, before + text[..p], text[p..q]);
      LineOn(before, text, p, q);
      p := q + 1;
    }
    assert old(buf[..p]) == text[..p] && old(buf[p..m]) == text[p..];
  }

  /** TryLine(), seen from the text the buffer was filled with. */
  method TakeLine(re: string, buf: array<char>, p: nat, q: nat, ghost m: nat, ghost text: string) returns (piece: string)
    requires p <= q < m < buf.Length && buf[q] == '\n' && |text| == m && buf[p..m] == text[p..] && forall i :: p <= i < q ==> buf[i] != '\n'
    modifies buf
    ensures forall i :: 0 <= i < buf.Length && i != q ==> buf[i] == old(buf[i])
    ensures buf[q + 1..m] == text[q + 1..] && text[q] == '\n' && forall i :: p <= i < q ==> text[i] != '\n'
    ensures piece == if Contains(re, text[p..q]) then text[p..q] + "\n" else ""
  {
    hide Contains;
    SameSlice(buf[p..m], text, p, q);
    assert buf[p..q] == buf[p..m][..q - p] && buf[p..m][q - p] == buf[q];
    forall i | p <= i < q ensures text[i] != '\n' { assert buf[p..m][i - p] == buf[i]; }
    label Before:
    piece := TryLine(re, buf, p, q);
    assert buf[q + 1..m] == text[q + 1..] by { assert forall i :: q < i < m ==> buf[i] == old@Before(buf[p..m])[i - p]; }
  }

  lemma LineOn(before: string, text: string, p: nat, q: nat)
    requires p <= q < |text| && text[q] == '\n'
    ensures before + text[..p] + (text[p..q] + "\n") == before + text[..q + 1]
  {
    assert text[..p] + (text[p..q] + "\n") == text[..q + 1];
  }

  lemma SameSlice(held: string, text: string, p: nat, q: nat)
    requires p <= q < |text| && held == text[p..]
    ensures held[..q - p] == text[p..q] && held[q - p] == text[q]
  {
  }

  /** memmove(buf, p, m): the unfinished line moves to the front. */
  method Shift(buf: array<char>, p: nat, m: nat)
    requires p <= m <= buf.Length
    modifies buf
    ensures buf[..m - p] == old(buf[p..m])
  {
    var i := 0;
    while i < m - p
      invariant 0 <= i <= m - p
      invariant forall k :: 0 <= k < i ==> buf[k] == old(buf[p + k])
      invariant forall k :: i <= k < buf.Length ==> buf[k] == old(buf[k])
    {
      buf[i] := buf[p + i];
      i := i + 1;
    }
  }

  /** One read into the buffer after the m bytes held. */
  method Fill(buf: array<char>, m: nat, chunk: string)
    requires buf.Length == BUF && m + |chunk| < BUF
    modifies buf
    ensures buf[..m + |chunk|] == old(buf[..m]) + chunk && buf[m + |chunk|] == NUL
  {
    var i := 0;
    while i < |chunk|
      invariant 0 <= i <= |chunk| && buf[..m] == old(buf[..m]) && buf[m..m + i] == chunk[..i]
    {
      buf[m + i] := chunk[i];
      i := i + 1;
    }
    buf[m + |chunk|] := NUL;
  }

  /** One round: a chunk arrives, complete lines before a NUL are printed, what follows them stays in front. */
  method Round(re: string, buf: array<char>, m: nat, chunk: string, ghost z: nat, ghost before: string) returns (m': nat, more: string, ghost p: nat)
    requires buf.Length == BUF && m + |chunk| < BUF && z <= m + |chunk| && Whole(before)
    requires var text := buf[..m] + chunk; (forall i :: 0 <= i < z ==> text[i] != NUL) && (z < |text| ==> text[z] == NUL)
    modifies buf
    ensures p <= z && p + m' == m + |chunk| && buf[..m'] == (old(buf[..m]) + chunk)[p..]
    ensures forall i :: p <= i < z ==> (old(buf[..m]) + chunk)[i] != '\n'
    ensures Whole(before + (old(buf[..m]) + chunk)[..p])
    ensures Output(re, before) + more == Output(re, before + (old(buf[..m]) + chunk)[..p])
  {
    hide Whole, Output;
    Fill(buf, m, chunk);
    ghost var text := old(buf[..m]) + chunk;
    var n := m + |chunk|;
    forall i | 0 <= i < n ensures buf[i] == text[i] { assert buf[..n][i] == text[i]; }
    var q;
    label Filled:
    q, more := PrintLines(re, buf, n, z, before);
    assert old@Filled(buf[..q]) == text[..q] && old@Filled(buf[q..n]) == text[q..] by { assert old@Filled(buf[..n]) == text; }
    forall i | q <= i < z ensures text[i] != '\n' { assert buf[q..n][i - q] == text[q..][i - q]; }
    Shift(buf, q, n);
    m', p := n - q, q;
  }

  /** grep(): however the reads split the input, it prints the matching lines, before any NUL, of what fits. */
  method GrepFile(re: string, input: string, size: nat -> nat) returns (out: string)
    ensures out == Output(re, Readable(input[..Text(input)]))
  {
    hide Whole, Output, Readable, Text, ReadSize;
    var buf := new char[BUF];
    var m: nat, pos: nat, k: nat := 0, 0, 0;
    ghost var base: nat, end := 0, Text(input);
    out := "";
    GrepNone(re);
    assert input[..0] == "";
    while true
      invariant base + m == pos <= |input| && base <= end && m < BUF && buf[..m] == input[base..pos]
      invariant forall i :: base <= i < pos && i < end ==> input[i] != '\n'
      invariant Whole(input[..base]) && out == Output(re, input[..base])
      decreases |input| - pos
    {
      var n := ReadSize(size(k), BUF - m - 1, |input| - pos);
      if n == 0 { break; }
      ghost var p;
      var more;
      ghost var z := if pos + n < end then pos + n - base else end - base;
      Upcoming(input, base, pos, n, z);
      m, more, p := Round(re, buf, m, input[pos..pos + n], z, input[..base]);
      Advance(input, base, pos, n, p);
      NoNewline(input, base, pos, n, p, z, input[base..pos] + input[pos..pos + n]);
      out := out + more;
      pos, k, base := pos + n, k + 1, base + p;
    }
    assert input[..end][..base] == input[..base];
    GrepEnd(re, input[..end], base, if pos < end then pos else end);
  }

  /** Where the first NUL is in what the buffer will hold. */
  lemma Upcoming(input: string, base: nat, pos: nat, n: nat, z: nat)
    requires base <= pos && pos + n <= |input| && base <= Text(input)
    requires z == if pos + n < Text(input) then pos + n - base else Text(input) - base
    ensures var text := input[base..pos] + input[pos..pos + n];
            z <= |text| && (forall i :: 0 <= i < z ==> text[i] != NUL) && (z < |text| ==> text[z] == NUL)
  {
    assert input[base..pos] + input[pos..pos + n] == input[base..pos + n];
  }

  lemma NoNewline(input: string, base: nat, pos: nat, n: nat, p: nat, z: nat, text: string)
    requires base <= pos && pos + n <= |input| && p <= z <= pos + n - base
    requires text == input[base..pos] + input[pos..pos + n] && forall i :: p <= i < z ==> text[i] != '\n'
    ensures forall i :: base + p <= i < base + z ==> input[i] != '\n'
  {
    forall i | base + p <= i < base + z ensures input[i] != '\n' { assert text[i - base] == input[i]; }
  }

  lemma Advance(input: string, base: nat, pos: nat, n: nat, p: nat)
    requires base <= pos && pos + n <= |input| && p <= pos + n - base
    ensures var text := input[base..pos] + input[pos..pos + n];
            text == input[base..pos + n] && input[..base] + text[..p] == input[..base + p] && text[p..] == input[base + p..pos + n]
  {
  }

  lemma GrepNone(re: string)
    ensures Whole("") && Output(re, "") == ""
  {
  }

  /** At the end of input, or with the buffer full of one line, nothing more can be printed. */
  lemma GrepEnd(re: string, input: string, base: nat, pos: nat)
    requires base <= pos <= |input| && pos - base < BUF && Whole(input[..base])
    requires pos == |input| || pos - base == BUF - 1
    requires forall i :: base <= i < pos ==> input[i] != '\n'
    ensures Output(re, Readable(input)) == Output(re, input[..base])
  {
    var a, t := input[..base], input[base..];
    assert input == a + t;
    ReadableConcat(a, t);
    OutputConcat(re, a, Readable(t));
    if pos == |input| {
      LineIs(t, |t|);
    } else {
      LineConcat(t[..BUF - 1], t[BUF - 1..]);
      LineIs(t[..BUF - 1], BUF - 1);
      assert t == t[..BUF - 1] + t[BUF - 1..];
    }
  }
}
