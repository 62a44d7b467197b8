/**
 A pipe's ring buffer. Writers and readers run one at a time under the pipe's lock
 and give it up only to sleep, so a run is any sequence of the stretches below.
 */
module Pipe {
  import opened Counting

  const PIPESIZE: nat := 512
  const WRAP: nat := 0x1_0000_0000 // nread and nwrite are 32 bits wide

  /** Why a stretch of pipewrite() ended: all written, pipe full (it sleeps), bad address, or no reader. */
  datatype Stop = Done | Full | Fault | Closed
  datatype Outcome = Got | Killed | Wait

  /** 512 divides 2^32, so a wrapped counter names the same slot. */
  lemma SlotOf(k: nat)
    ensures k % WRAP % PIPESIZE == k % PIPESIZE
  {
    assert k == k / WRAP * WRAP + k % WRAP;
    assert k / WRAP * WRAP == k / WRAP * 8388608 * PIPESIZE;
    SameRest(k / WRAP * 8388608, k % WRAP);
  }

  lemma SameRest(q: nat, r: nat)
    ensures (q * PIPESIZE + r) % PIPESIZE == r % PIPESIZE
  {
  }

  lemma NextWrap(k: nat)
    ensures (k % WRAP + 1) % WRAP == (k + 1) % WRAP
  {
  }

  /** The code's tests on wrapped counters are the tests on the true counts. */
  lemma Occupancy(r: nat, w: nat)
    requires r <= w <= r + PIPESIZE
    ensures r % WRAP == w % WRAP <==> r == w
    ensures w % WRAP == (r % WRAP + PIPESIZE) % WRAP <==> w == r + PIPESIZE
  {
    assert (r % WRAP + PIPESIZE) % WRAP == (r + PIPESIZE) % WRAP;
  }

  lemma OtherSlot(j: nat, k: nat)
    requires j < k < j + PIPESIZE
    ensures j % PIPESIZE != k % PIPESIZE
  {
  }

  // ------------------------------------------------- what readers have received

  /** The bytes of s but for those at the positions in `lost`. */
  function Kept(s: seq<char>, lost: set<nat>): (r: seq<char>) {
    if s == [] then []
    else
      var n := |s| - 1;
      Kept(s[..n], lost) + if n in lost then [] else [s[n]]
  }

  lemma {:induction false} KeptMore(s: seq<char>, t: seq<char>, lost: set<nat>)
    requires forall k :: k in lost ==> k < |s|
    ensures Kept(s + t, lost) == Kept(s, lost) + t
    decreases |t|
  {
    if t == [] {
      assert s + t == s;
    } else {
      var m := |t| - 1;
      KeptMore(s, t[..m], lost);
      assert (s + t)[..|s + t| - 1] == s + t[..m];
      assert t == t[..m] + [t[m]];
    }
  }

  /** A position at or past the end makes no difference. */
  lemma {:induction false} KeptFrame(s: seq<char>, lost: set<nat>, p: nat)
    requires |s| <= p
    ensures Kept(s, lost + {p}) == Kept(s, lost)
  {
    if s != [] { KeptFrame(s[..|s| - 1], lost, p); }
  }

  lemma KeptLess(s: seq<char>, c: char, lost: set<nat>)
    ensures Kept(s + [c], lost + {|s|}) == Kept(s, lost)
  {
    KeptFrame(s, lost, |s|);
    assert (s + [c])[..|s|] == s;
  }

  lemma {:induction false} KeptSize(s: seq<char>, lost: set<nat>)
    requires forall k :: k in lost ==> k < |s|
    ensures |Kept(s, lost)| == |s| - |lost|
  {
    if s == [] {
      assert lost == {};
    } else {
      var n := |s| - 1;
      KeptSize(s[..n], lost - {n});
      KeptFrame(s[..n], lost - {n}, n);
      assert n in lost ==> lost - {n} + {n} == lost;
      assert n !in lost ==> lost - {n} == lost;
    }
  }

  /** The bytes received are the bytes sent so far, in order, exactly when no copy to a reader has failed. */
  lemma FifoIff(s: seq<char>, lost: set<nat>)
    requires forall k :: k in lost ==> k < |s|
    ensures Kept(s, lost) == s <==> lost == {}
  {
    KeptSize(s, lost);
    if lost == {} {
      KeptMore([], s, lost);
      assert [] + s == s;
    }
  }

  /** When a read of n bytes, the first `accessible` of them writable, removes a byte it does not deliver. */
  predicate Loses(avail: nat, n: nat, accessible: nat) { accessible < n && accessible < avail }

  /** Bytes delivered and bytes removed by one read of a pipe holding `avail` bytes. */
  function Counts(avail: nat, n: nat, accessible: nat): (r: (nat, nat)) {
    var k := Min(n, Min(accessible, avail));
    (k, if Loses(avail, n, accessible) then k + 1 else k)
  }

  class Pipe {
    const data: array<char>
    var nread: nat
    var nwrite: nat
    var readopen: bool
    var writeopen: bool
    ghost var put: seq<char> // every byte ever written
    ghost var taken: nat     // how many of them have been removed
    ghost var got: seq<char> // every byte ever delivered to a reader
    ghost var lost: set<nat> // the positions in `put` of the bytes removed by a failed copy

    ghost predicate Valid()
      reads this, data
    {
      && data.Length == PIPESIZE && taken <= |put| <= taken + PIPESIZE
      && nread == taken % WRAP && nwrite == |put| % WRAP
      && (forall k :: taken <= k < |put| ==> data[k % PIPESIZE] == put[k])
      && (forall k :: k in lost ==> k < taken)
      && got == Kept(put[..taken], lost)
    }

    /** First in, first out, over any run: nothing is reordered, and nothing is missing unless a copy failed. */
    lemma Fifo()
      requires Valid()
      ensures got == Kept(put[..taken], lost) && (got == put[..taken] <==> lost == {})
    {
      FifoIff(put[..taken], lost);
    }

    constructor ()
      ensures Valid() && fresh(data) && put == [] && taken == 0 && got == [] && lost == {} && readopen && writeopen
    {
      data := new char[PIPESIZE];
      nread, nwrite, readopen, writeopen := 0, 0, true, true;
      put, taken, got, lost := [], 0, [], {};
    }

    /** pi->data[pi->nwrite++ % PIPESIZE] = ch */
    method PutByte(ch: char)
      requires Valid() && |put| < taken + PIPESIZE
      modifies data, `nwrite, `put
      ensures Valid() && put == old(put) + [ch]
    {
      SlotOf(|put|);
      NextWrap(|put|);
      forall k | taken <= k < |put| ensures k % PIPESIZE != |put| % PIPESIZE { OtherSlot(k, |put|); }
      data[nwrite % PIPESIZE] := ch;
      nwrite := (nwrite + 1) % WRAP;
      assert (put + [ch])[..taken] == put[..taken];
      put := put + [ch];
    }

    /** ch = pi->data[pi->nread++ % PIPESIZE], and copyout() of it. */
    method TakeByte(delivers: bool) returns (ch: char)
      requires Valid() && taken < |put|
      modifies `nread, `taken, `got, `lost
      ensures Valid() && taken == old(taken) + 1 && ch == put[old(taken)]
      ensures delivers ==> got == old(got) + [ch] && lost == old(lost)
      ensures !delivers ==> got == old(got) && lost == old(lost) + {old(taken)}
    {
      SlotOf(taken);
      NextWrap(taken);
      ch := data[nread % PIPESIZE];
      assert put[..taken + 1] == put[..taken] + [ch];
      KeptMore(put[..taken], [ch], lost);
      KeptLess(put[..taken], ch, lost);
      if delivers { got := got + [ch]; } else { lost := lost + {taken}; }
      nread, taken := (nread + 1) % WRAP, taken + 1;
    }

    /**
     pipewrite() from byte i on, until done or until it must sleep; user memory is
     readable up to byte `accessible`. What it reports as written is what it wrote,
     and it writes as much as there is, as can be read and as fits.
     */
    method Write(src: seq<char>, i: nat, accessible: nat, killed: bool) returns (j: nat, why: Stop)
      requires Valid() && i <= |src|
      modifies data, `nwrite, `put
      ensures Valid() && i <= j <= |src| && put == old(put) + src[i..j]
      ensures why.Closed? <==> i < |src| && (!readopen || killed)
      ensures why.Closed? ==> j == i
      ensures !why.Closed? && i < accessible ==> j == Min(|src|, Min(accessible, i + taken + PIPESIZE - |old(put)|))
      ensures accessible <= i ==> j == i
      ensures why.Done? <==> j == |src|
      ensures why.Full? <==> !why.Closed? && j < |src| && |put| == taken + PIPESIZE
    {
      j, why := i, Done;
      while j < |src|
        invariant Valid() && i <= j <= |src| && put == old(put) + src[i..j]
        invariant i < j ==> readopen && !killed && j <= accessible
      {
        if !readopen || killed { return j, Closed; }
        Occupancy(taken, |put|);
        if nwrite == (nread + PIPESIZE) % WRAP { return j, Full; }
        if j >= accessible { return j, Fault; }
        PutByte(src[j]);
        assert src[i..j + 1] == src[i..j] + [src[j]];
        j := j + 1;
      }
    }

    /**
     piperead() from its wake-up test on: an empty pipe with a writer makes the
     reader sleep, or give up when killed. Otherwise the oldest bytes, in order: as
     many as asked for, as can be stored and as there are. A byte whose copyout()
     fails is removed but not delivered.
     */
    method Read(n: nat, accessible: nat, killed: bool) returns (out: seq<char>, how: Outcome)
      requires Valid()
      modifies `nread, `taken, `got, `lost
      ensures Valid() && got == old(got) + out
      ensures how == if old(taken) < |put| || !writeopen then Got else if killed then Killed else Wait
      ensures !how.Got? ==> out == [] && taken == old(taken) && lost == old(lost)
      ensures how.Got? ==> (|out|, taken - old(taken)) == Counts(|put| - old(taken), n, accessible)
      ensures how.Got? ==> out == put[old(taken)..old(taken) + |out|]
      ensures how.Got? ==>
                lost == old(lost) + if Loses(|put| - old(taken), n, accessible) then {old(taken) + |out|} else {}
    {
      out, how := [], Got;
      Occupancy(taken, |put|);
      if nread == nwrite && writeopen { return [], if killed then Killed else Wait; }
      while |out| < n
        invariant Valid() && |out| <= n && |out| <= accessible && taken == old(taken) + |out|
        invariant got == old(got) + out && lost == old(lost) && out == put[old(taken)..taken]
        decreases n - |out|
      {
        Occupancy(taken, |put|);
        if nread == nwrite { break; }
        var ch := TakeByte(|out| < accessible);
        if |out| >= accessible { break; }
        out := out + [ch];
      }
    }
  }

  /** A run that loses a byte: one is written, and a read to an address it cannot store to removes it. */
  method LosingRun() returns (p: Pipe, out: seq<char>)
    ensures fresh(p) && p.Valid() && p.put == ['a'] && p.taken == 1 && out == [] && p.got == [] && p.lost == {0}
  {
    p := new Pipe();
    var j, why := p.Write(['a'], 0, 1, false);
    var how;
    out, how := p.Read(1, 0, false);
  }
}
