/**
 The disk driver's split virtqueue (sections 2.6 and 5.2 of Virtual I/O Device
 (VIRTIO) Version 1.1), shared with an asynchronous device. A run is any sequence
 of the driver's critical sections and the device's fetches and completions.
 */
module Virtio {
  import Counting

  const NUM: nat := 8
  const WRAP: nat := 0x1_0000 // ring indices are 16 bits wide

  const F_NEXT: nat := 1
  const F_WRITE: nat := 2

  /** What a descriptor's address points at: a command header, a buffer's data, a status byte. */
  datatype Addr = Null | Op(i: nat) | Data(b: nat) | Status(i: nat)

  datatype Desc = Desc(addr: Addr, len: nat, flags: nat, next: nat)

  /** `st` is the status byte the device reported for the request. */
  datatype Phase = Posted(k: nat) | Fetched | Completed(k: nat, st: nat) | Acked

  /** One request: its head is the key under which it is kept. */
  datatype Chain = Chain(b: nat, d1: nat, d2: nat, write: bool, phase: Phase)

  /** The chain's three descriptors, as the device must find them. */
  ghost predicate Formatted(desc: seq<Desc>, h: nat, c: Chain)
    requires |desc| == NUM && h < NUM && c.d1 < NUM && c.d2 < NUM
  {
    && desc[h] == Desc(Op(h), 16, F_NEXT, c.d1)
    && desc[c.d1] == Desc(Data(c.b), 1024, if c.write then F_NEXT else F_WRITE + F_NEXT, c.d2)
    && desc[c.d2] == Desc(Status(h), 1, F_WRITE, 0)
  }

  /** Each descriptor is free or in exactly one chain. */
  ghost predicate Owned(free: seq<bool>, owner: map<nat, nat>, chains: map<nat, Chain>) {
    && |free| == NUM
    && (forall i :: 0 <= i < NUM ==> (free[i] <==> i !in owner))
    && (forall i :: i in owner ==> i < NUM && owner[i] in chains)
    && (forall i :: i in owner ==> var h := owner[i]; i == h || i == chains[h].d1 || i == chains[h].d2)
    && (forall h :: h in chains ==> Own(owner, h, chains[h]))
  }

  ghost predicate Own(owner: map<nat, nat>, h: nat, c: Chain) {
    && h in owner && c.d1 in owner && c.d2 in owner && owner[h] == owner[c.d1] == owner[c.d2] == h
    && h != c.d1 && h != c.d2 && c.d1 != c.d2 && h < NUM && c.d1 < NUM && c.d2 < NUM
  }

  /** The ring shows the last entries of the unbounded queue, at wrapped positions. */
  ghost predicate Ring(ring: seq<nat>, queue: seq<nat>, from: nat) {
    && |ring| == NUM && from <= |queue| <= from + NUM
    && forall k :: from <= k < |queue| ==> ring[k % NUM] == queue[k]
  }

  /** A 16-bit counter's place in the ring, and the counter one on. */
  function Slot(k: nat): (i: nat)
    ensures i < NUM
  {
    k % NUM
  }

  function Bump(k: nat): (n: nat) { (k + 1) % WRAP }

  lemma WrapIndex(k: nat)
    ensures Slot(k % WRAP) == k % NUM
  {
    assert k == k / WRAP * WRAP + k % WRAP;
    assert k / WRAP * WRAP == k / WRAP * 8192 * NUM;
    ModAdd(k / WRAP * 8192, k % WRAP);
  }

  lemma ModAdd(q: nat, r: nat)
    ensures (q * NUM + r) % NUM == r % NUM
  {
  }

  /** Two counters at most eight apart are equal exactly when their low 16 bits are. */
  lemma WrapEqual(a: nat, b: nat)
    requires a <= b <= a + NUM
    ensures a % WRAP == b % WRAP <==> a == b
  {
  }

  /** A slot further on in the ring is a different one. */
  lemma RingPush(ring: seq<nat>, queue: seq<nat>, from: nat, h: nat)
    requires Ring(ring, queue, from) && |queue| < from + NUM
    ensures Ring(ring[|queue| % NUM := h], queue + [h], from)
  {
    forall k | from <= k < |queue| ensures k % NUM != |queue| % NUM { Slots(k, |queue|); }
  }

  lemma Slots(a: nat, b: nat)
    requires a < b < a + NUM
    ensures a % NUM != b % NUM
  {
  }

  // ---------------------------------------------------------------- invariants

  /** The window of a queue holds exactly the chains of one phase, each at its place. */
  ghost predicate Waiting(chains: map<nat, Chain>, posted: seq<nat>, fetched: nat) {
    && fetched <= |posted|
    && (forall k :: fetched <= k < |posted| ==> posted[k] in chains && chains[posted[k]].phase == Posted(k))
    && (forall h :: h in chains && chains[h].phase.Posted? ==>
          fetched <= chains[h].phase.k < |posted| && posted[chains[h].phase.k] == h)
  }

  ghost predicate Finished(chains: map<nat, Chain>, completed: seq<nat>, seen: nat) {
    && seen <= |completed|
    && (forall k :: seen <= k < |completed| ==>
          completed[k] in chains && chains[completed[k]].phase.Completed? && chains[completed[k]].phase.k == k)
    && (forall h :: h in chains && chains[h].phase.Completed? ==>
          seen <= chains[h].phase.k < |completed| && completed[chains[h].phase.k] == h)
  }

  /** A chain's buffer is flagged until its completion is handled; no buffer is in two chains. */
  ghost predicate Buffers(chains: map<nat, Chain>, info: seq<nat>, status: seq<nat>, flag: map<nat, bool>) {
    && |info| == |status| == NUM
    && (forall h :: h in chains ==> h < NUM && info[h] == chains[h].b && chains[h].b in flag && (flag[chains[h].b] <==> !chains[h].phase.Acked?))
    && (forall h :: h in chains && chains[h].phase.Completed? ==> status[h] == chains[h].phase.st)
    && (forall g, h :: g in chains && h in chains && g != h ==> chains[g].b != chains[h].b)
  }

  const BLANK: Desc := Desc(Null, 0, 0, 0)

  ghost predicate Descs(desc: seq<Desc>, free: seq<bool>, chains: map<nat, Chain>) {
    && |desc| == |free| == NUM
    && (forall i :: 0 <= i < NUM && free[i] ==> desc[i] == BLANK)
    && forall h :: h in chains ==> h < NUM && chains[h].d1 < NUM && chains[h].d2 < NUM && Formatted(desc, h, chains[h])
  }

  /** Distinct heads below NUM, one more of them outside the window: the window is not full. */
  lemma WindowBound(q: seq<nat>, from: nat, h: nat)
    requires from <= |q| && h < NUM && forall k :: from <= k < |q| ==> q[k] < NUM && q[k] != h
    requires forall j, k :: from <= j < k < |q| ==> q[j] != q[k]
    ensures |q| < from + NUM
  {
    var w := q[from..] + [h];
    forall k | 0 <= k < |w| ensures w[k] < NUM { assert k < |w| - 1 ==> w[k] == q[from + k]; }
    forall j, k | 0 <= j < k < |w| ensures w[j] != w[k] {
      assert w[j] == q[from + j] && (k < |w| - 1 ==> w[k] == q[from + k]);
    }
    Counting.DistinctBelow(w, NUM);
  }

  /** The driver's, the rings' and the queues' state together. */
  datatype State = State(
    desc: seq<Desc>, free: seq<bool>, info: seq<nat>, status: seq<nat>, flag: map<nat, bool>,
    availIdx: nat, availRing: seq<nat>, devIdx: nat, usedIdx: nat, usedRing: seq<nat>, seenIdx: nat,
    owner: map<nat, nat>, chains: map<nat, Chain>, posted: seq<nat>, fetched: nat, completed: seq<nat>, seen: nat)

  ghost predicate Good(s: State) { Owned(s.free, s.owner, s.chains) && Descs(s.desc, s.free, s.chains) && Rest(s) }

  /** All but the ownership of descriptors. */
  ghost predicate Rest(s: State) {
    && Buffers(s.chains, s.info, s.status, s.flag)
    && Waiting(s.chains, s.posted, s.fetched) && Ring(s.availRing, s.posted, s.fetched) && s.availIdx == |s.posted| % WRAP
    && Finished(s.chains, s.completed, s.seen) && Ring(s.usedRing, s.completed, s.seen) && s.usedIdx == |s.completed| % WRAP
    && s.devIdx == s.fetched % WRAP && s.seenIdx == s.seen % WRAP
  }

  class Disk {
    var desc: seq<Desc>
    var free: seq<bool>
    var info: seq<nat>        // info[].b
    var status: seq<nat>      // info[].status
    var flag: map<nat, bool>  // b->disk
    var availIdx: nat
    var availRing: seq<nat>
    var devIdx: nat           // how far the device has read the avail ring
    var usedIdx: nat          // disk.used->idx, the device's
    var usedRing: seq<nat>
    var seenIdx: nat          // disk.used_idx, the driver's
    ghost var owner: map<nat, nat>
    ghost var chains: map<nat, Chain>
    ghost var posted: seq<nat>
    ghost var fetched: nat
    ghost var completed: seq<nat>
    ghost var seen: nat

    ghost function S(): (s: State)
      reads this
    {
      State(desc, free, info, status, flag, availIdx, availRing, devIdx, usedIdx, usedRing, seenIdx,
            owner, chains, posted, fetched, completed, seen)
    }

    ghost predicate Valid()
      reads this
    {
      Good(S())
    }

    constructor (flag: map<nat, bool>)
      ensures Valid() && chains == map[] && this.flag == flag
    {
      desc, free := seq(NUM, i => BLANK), seq(NUM, i => true);
      info, status, this.flag := seq(NUM, i => 0), seq(NUM, i => 0), flag;
      availIdx, availRing, devIdx, usedIdx, usedRing, seenIdx := 0, seq(NUM, i => 0), 0, 0, seq(NUM, i => 0), 0;
      owner, chains, posted, fetched, completed, seen := map[], map[], [], 0, [], 0;
    }

    // ------------------------------------------------------------- descriptors

    /** alloc_desc(): the first free descriptor, or -1. */
    method AllocDesc() returns (i: int)
      requires |free| == NUM
      modifies `free
      ensures |free| == NUM
      ensures i < 0 ==> free == old(free) && forall k :: 0 <= k < NUM ==> !free[k]
      ensures i >= 0 ==> i < NUM && old(free)[i] && free == old(free)[i := false] && forall k :: 0 <= k < i ==> !old(free)[k]
    {
      i := 0;
      while i < NUM
        invariant 0 <= i <= NUM && free == old(free)
        invariant forall k :: 0 <= k < i ==> !free[k]
      {
        if free[i] {
          free := free[i := false];
          return;
        }
        i := i + 1;
      }
      return -1;
    }

    /** free_desc(): panics (ok false) when out of range or already free. */
    method FreeDesc(i: nat) returns (ok: bool)
      requires |free| == |desc| == NUM
      modifies `free, `desc
      ensures ok <==> i < NUM && !old(free)[i]
      ensures !ok ==> free == old(free) && desc == old(desc)
      ensures ok ==> free == old(free)[i := true] && desc == old(desc)[i := BLANK]
    {
      if i >= NUM { return false; }
      if free[i] { return false; }
      desc := desc[i := BLANK];
      free := free[i := true];
      return true;
    }

    /** alloc3_desc()'s undo: what was taken is free again. */
    method FreeAll(idx: seq<nat>, ghost was: seq<bool>)
      requires |free| == |desc| == NUM && Took(was, free, idx) && forall t :: 0 <= t < |idx| ==> desc[idx[t]] == BLANK
      modifies `free, `desc
      ensures free == was && desc == old(desc)
    {
      var j := 0;
      while j < |idx|
        invariant j <= |idx| && Took(was, free, idx[j..]) && desc == old(desc)
      {
        assert idx[j..][0] == idx[j] && idx[j..][1..] == idx[j + 1..];
        var r := FreeDesc(idx[j]);
        j := j + 1;
      }
    }

    /** alloc3_desc(): three descriptors or none; fails exactly when fewer than three are free. */
    method Alloc3Desc() returns (ok: bool, idx: seq<nat>)
      requires |free| == |desc| == NUM && forall i :: 0 <= i < NUM && free[i] ==> desc[i] == BLANK
      modifies `free, `desc
      ensures |free| == NUM && desc == old(desc)
      ensures ok ==> |idx| == 3 && Took(old(free), free, idx)
      ensures !ok ==> free == old(free) && |idx| < 3 && forall k :: 0 <= k < NUM && free[k] ==> k in idx
    {
      idx := [];
      while |idx| < 3
        invariant |idx| <= 3 && Took(old(free), free, idx) && desc == old(desc)
      {
        var i := AllocDesc();
        if i < 0 {
          FreeAll(idx, old(free));
          return false, idx;
        }
        idx := idx + [i];
      }
      return true, idx;
    }

    // ---------------------------------------------------------------- a request

    /** The three descriptors of a request. */
    method Describe(h: nat, d1: nat, d2: nat, b: nat, write: bool)
      requires |desc| == |status| == NUM && h < NUM && d1 < NUM && d2 < NUM
      modifies `desc, `status
      ensures desc == Formats(old(desc), h, d1, d2, b, write) && status == old(status)[h := 0xff]
    {
      desc := desc[h := Desc(Op(h), 16, F_NEXT, d1)];
      desc := desc[d1 := Desc(Data(b), 1024, if write then F_NEXT else F_WRITE + F_NEXT, d2)];
      status := status[h := 0xff];
      desc := desc[d2 := Desc(Status(h), 1, F_WRITE, 0)];
    }

    /** The stores that make a request of three descriptors and post it. */
    method Format(h: nat, d1: nat, d2: nat, b: nat, write: bool)
      requires |desc| == |status| == |info| == |availRing| == NUM && h < NUM && d1 < NUM && d2 < NUM
      modifies `desc, `status, `flag, `info, `availRing, `availIdx
      ensures S() == FormattedState(old(S()), h, d1, d2, b, write)
    {
      hide Slot, Bump, Formats;
      Describe(h, d1, d2, b, write);
      flag := flag[b := true];
      info := info[h := b];
      availRing := availRing[Slot(availIdx) := h];
      availIdx := Bump(availIdx);
    }

    /** Posts a request over three descriptors just taken. */
    method Post(idx: seq<nat>, b: nat, write: bool, ghost s: State)
      requires Good(s) && |idx| == 3 && Took(s.free, free, idx) && S() == s.(free := free)
      requires b in flag && forall g :: g in chains ==> chains[g].b != b
      modifies this
      ensures Sized(s, idx) && Valid() && S() == PostedState(s, free, idx, b, write)
    {
      hide Good, Took, Formats, Slot, Bump;
      PostGood(s, free, idx, b, write);
      PostSizes(s, free, idx);
      Format(idx[0], idx[1], idx[2], b, write);
      ghost var h := idx[0];
      hide FormattedState;
      owner := owner[h := h][idx[1] := h][idx[2] := h];
      chains := chains[h := Chain(b, idx[1], idx[2], write, Posted(|posted|))];
      posted := posted + [h];
    }

    /**
     virtio_disk_rw() up to the notification: three descriptors formatted as one
     chain and posted. Fails (the caller sleeps) when fewer than three are free.
     */
    method Start(b: nat, write: bool) returns (ok: bool, h: nat, ghost c: Chain)
      requires Valid() && b in flag && forall g :: g in chains ==> chains[g].b != b
      modifies this
      ensures Valid() && seen == old(seen) && completed == old(completed) && fetched == old(fetched)
      ensures ok <==> |FreeOnes(old(free))| >= 3
      ensures !ok ==> chains == old(chains) && flag == old(flag) && posted == old(posted)
      ensures ok ==> h !in old(chains) && posted == old(posted) + [h] && flag == old(flag)[b := true]
      ensures ok ==> c.b == b && c.write == write && c.phase == Posted(|old(posted)|) && chains == old(chains)[h := c]
    {
      hide Owned, Descs, Buffers, Waiting, Finished, Ring, Took;
      ghost var s := S();
      DescParts(desc, free, chains);
      var idx;
      ok, idx := Alloc3Desc();
      ThreeFree(s.free, free, idx, ok);
      h, c := 0, Chain(b, 0, 0, write, Acked);
      if ok {
        c := Chain(b, idx[1], idx[2], write, Posted(|posted|));
        h := idx[0];
        PostFresh(s, free, idx);
        PostSizes(s, free, idx);
        Post(idx, b, write, s);
      }
    }

    // --------------------------------------------------------------- the device

    /** The device takes the next available request, if it sees one, and finds its whole chain. */
    method Fetch() returns (found: bool, h: nat)
      requires Valid()
      modifies `devIdx, `chains, `fetched
      ensures Valid() && (found <==> old(fetched) < |posted|)
      ensures !found ==> chains == old(chains) && fetched == old(fetched)
      ensures found ==> fetched == old(fetched) + 1 && h == posted[old(fetched)] && h in old(chains)
      ensures found ==> chains == old(chains)[h := old(chains)[h].(phase := Fetched)]
      ensures found ==> |desc| == NUM && h < NUM && chains[h].d1 < NUM && chains[h].d2 < NUM && Formatted(desc, h, chains[h])
    {
      hide Good, Formatted;
      ghost var s := S();
      FetchRing(s);
      if devIdx == availIdx { return false, 0; }
      FetchGood(s);
      ChainFormat(s, s.posted[s.fetched], Fetched);
      h := availRing[Slot(devIdx)];
      devIdx := Bump(devIdx);
      fetched, chains := fetched + 1, chains[h := chains[h].(phase := Fetched)];
      found := true;
    }

    /** The device finishes a request it fetched, in any order and with any status: status byte, used entry, used index. */
    method Complete(h: nat, st: nat)
      requires Valid() && h in chains && chains[h].phase.Fetched?
      modifies `status, `usedRing, `usedIdx, `chains, `completed
      ensures Valid() && completed == old(completed) + [h]
      ensures chains == old(chains)[h := old(chains)[h].(phase := Completed(|old(completed)|, st))]
    {
      hide Good, Slot, Bump;
      CompleteGood(S(), h, st);
      status := status[h := st];
      usedRing := usedRing[Slot(usedIdx) := h];
      usedIdx := Bump(usedIdx);
      chains, completed := chains[h := chains[h].(phase := Completed(|completed|, st))], completed + [h];
    }

    // ------------------------------------------------------------ the interrupt

    /**
     One round of virtio_disk_intr(): panics (ok false) exactly when the device reported
     a nonzero status for the next completion; otherwise clears the flag of its buffer, and no other.
     */
    method IntrOne() returns (ok: bool, id: nat)
      requires Valid() && seenIdx != usedIdx
      modifies `flag, `seenIdx, `chains, `seen
      ensures Valid() && old(seen) < |completed| && id == completed[old(seen)] && id in old(chains)
      ensures old(chains)[id].phase.Completed? && (ok <==> old(chains)[id].phase.st == 0)
      ensures !ok ==> S() == old(S())
      ensures ok ==> seen == old(seen) + 1
      ensures ok ==> chains == old(chains)[id := old(chains)[id].(phase := Acked)] && flag == old(flag)[old(chains)[id].b := false]
    {
      hide Good, Slot, Bump;
      AckRing(S());
      AckGood(S());
      id := usedRing[Slot(seenIdx)];
      if status[id] != 0 { return false, id; }
      ok := true;
      var b := info[id];
      flag := flag[b := false];
      seenIdx := Bump(seenIdx);
      seen, chains := seen + 1, chains[id := chains[id].(phase := Acked)];
    }

    /**
     virtio_disk_intr(): the completions are handled in order, each clearing its own
     buffer's flag. All of them, unless the device reported a nonzero status: it panics
     at the first of those.
     */
    method Intr() returns (ok: bool)
      requires Valid()
      modifies `flag, `seenIdx, `chains, `seen
      ensures Valid() && old(seen) <= seen <= |completed| && chains.Keys == old(chains).Keys && flag.Keys == old(flag).Keys
      ensures forall h :: h in chains && old(chains)[h].phase.Completed? && old(chains)[h].phase.k < seen ==> old(chains)[h].phase.st == 0
      ensures ok <==> forall h :: h in chains && old(chains)[h].phase.Completed? ==> old(chains)[h].phase.st == 0
      ensures ok <==> seen == |completed|
      ensures !ok ==> completed[seen] in chains && chains[completed[seen]].phase.Completed? && chains[completed[seen]].phase.st != 0
      ensures forall h :: h in chains ==>
        chains[h] == if old(chains)[h].phase.Completed? && old(chains)[h].phase.k < seen then old(chains)[h].(phase := Acked) else old(chains)[h]
      ensures forall b :: b in flag ==>
        (flag[b] <==> old(flag)[b] && !exists h ::
           h in old(chains) && old(chains)[h].phase.Completed? && old(chains)[h].phase.k < seen && old(chains)[h].b == b)
    {
      hide Good;
      ghost var s := S();
      AckStart(s);
      ok := true;
      while seenIdx != usedIdx
        invariant Valid() && S() == s.(flag := flag, seenIdx := seenIdx, chains := chains, seen := seen)
        invariant s.seen <= seen <= |completed| && AckedTo(s, S())
        decreases |completed| - seen
      {
        ghost var t := S();
        AckRing(t);
        var id;
        ok, id := IntrOne();
        if !ok {
          AckStop(s, t);
          return;
        }
        AckMore(s, t, S(), id);
      }
      AckEnd(s, S());
    }

    // ---------------------------------------------------------------- finishing

    /** free_chain(): frees the descriptors linked from h, here a whole request's three. */
    method FreeChain(h: nat, ghost c: Chain) returns (ok: bool)
      requires |free| == |desc| == NUM && h < NUM && c.d1 < NUM && c.d2 < NUM && Formatted(desc, h, c)
      requires h != c.d1 && h != c.d2 && c.d1 != c.d2 && !free[h] && !free[c.d1] && !free[c.d2]
      modifies `free, `desc
      ensures ok && free == old(free)[h := true][c.d1 := true][c.d2 := true]
      ensures desc == old(desc)[h := BLANK][c.d1 := BLANK][c.d2 := BLANK]
    {
      var i := h;
      ghost var k := 0;
      while true
        invariant k <= 2 && i == (if k == 0 then h else if k == 1 then c.d1 else c.d2)
        invariant free == (if k == 0 then old(free) else if k == 1 then old(free)[h := true] else old(free)[h := true][c.d1 := true])
        invariant desc == (if k == 0 then old(desc) else if k == 1 then old(desc)[h := BLANK] else old(desc)[h := BLANK][c.d1 := BLANK])
        decreases 2 - k
      {
        var flags, nxt := desc[i].flags, desc[i].next;
        ok := FreeDesc(i);
        if !ok { return; }
        if flags % 2 == 1 { i, k := nxt, k + 1; } else { return; }
      }
    }

    /** The end of virtio_disk_rw(), once its buffer's flag is clear: exactly its own chain is freed. */
    method Finish(h: nat) returns (ok: bool)
      requires Valid() && h in chains && chains[h].b in flag && !flag[chains[h].b]
      modifies `info, `free, `desc, `owner, `chains
      ensures ok && Valid() && chains == old(chains) - {h}
      ensures |free| == |old(free)| == NUM && h < NUM && old(chains)[h].d1 < NUM && old(chains)[h].d2 < NUM
      ensures free == old(free)[h := true][old(chains)[h].d1 := true][old(chains)[h].d2 := true]
    {
      hide Good, Formatted;
      ghost var c := chains[h];
      ChainFormat(S(), h, c.phase);
      ChainBusy(S(), h);
      FinishGood(S(), h);
      info := info[h := 0];
      ok := FreeChain(h, c);
      owner, chains := owner - {h, c.d1, c.d2}, chains - {h};
    }
  }

  /** From s to t the completions between were acknowledged. */
  ghost predicate AckedTo(s: State, t: State) {
    && t.chains.Keys == s.chains.Keys && t.flag.Keys == s.flag.Keys && t.completed == s.completed
    && (forall h :: h in s.chains ==>
          t.chains[h] == if s.chains[h].phase.Completed? && s.chains[h].phase.k < t.seen then s.chains[h].(phase := Acked) else s.chains[h])
    && (forall h :: h in s.chains && s.chains[h].phase.Completed? && s.chains[h].phase.k < t.seen ==> s.chains[h].phase.st == 0)
    && (forall b :: b in s.flag ==>
          (t.flag[b] <==> s.flag[b] && !exists h :: h in s.chains && s.chains[h].phase.Completed? && s.chains[h].phase.k < t.seen && s.chains[h].b == b))
  }

  lemma AckStart(s: State)
    requires Good(s)
    ensures AckedTo(s, s) && s.seen <= |s.completed|
  {
    hide Owned, Descs, Waiting, Ring;
  }

  lemma AckMore(s: State, t: State, u: State, h: nat)
    requires Good(s) && Good(t) && AckedTo(s, t) && s.seen <= t.seen < |t.completed| && h == t.completed[t.seen] && h in t.chains
    requires t.chains[h].phase.Completed? && t.chains[h].phase.st == 0
    requires u == t.(flag := t.flag[t.chains[h].b := false], seenIdx := u.seenIdx, seen := t.seen + 1, chains := Phased(t.chains, h, Acked))
    ensures AckedTo(s, u)
  {
    hide Good;
    AckFacts(t);
    OnePlace(s, t.seen, h);
    assert t.chains[h] == s.chains[h];
    forall b | b in s.flag
      ensures u.flag[b] <==> s.flag[b] && !exists g :: g in s.chains && s.chains[g].phase.Completed? && s.chains[g].phase.k < u.seen && s.chains[g].b == b
    {
      if b == s.chains[h].b { assert s.chains[h].phase.k < u.seen; }
    }
  }

  lemma AckFacts(t: State)
    requires Good(t) && t.seen < |t.completed|
    ensures var h := t.completed[t.seen]; h in t.chains && t.chains[h].phase.Completed? && t.chains[h].phase.k == t.seen && t.chains[h].b in t.flag
  {
    hide Owned, Descs, Waiting, Ring;
  }

  lemma OnePlace(s: State, k: nat, h: nat)
    requires Good(s) && s.seen <= k < |s.completed| && s.completed[k] == h
    ensures forall g :: g in s.chains && s.chains[g].phase.Completed? && s.chains[g].phase.k == k ==> g == h
  {
    hide Owned, Descs, Waiting, Ring, Buffers;
  }

  /** At a completion with a nonzero status the request has been completed since before. */
  lemma AckStop(s: State, t: State)
    requires Good(t) && AckedTo(s, t) && t.seen < |t.completed| && t.completed[t.seen] in t.chains
    ensures var h := t.completed[t.seen]; h in s.chains && s.chains[h] == t.chains[h] && t.chains[h].phase.Completed?
  {
    hide Good;
    AckFacts(t);
  }

  lemma AckEnd(s: State, t: State)
    requires Good(s) && Good(t) && AckedTo(s, t) && t.seenIdx == t.usedIdx && s.seen <= t.seen
    ensures t.seen == |t.completed|
    ensures forall h :: h in s.chains && s.chains[h].phase.Completed? ==> s.chains[h].phase.k < t.seen
  {
    hide Owned, Descs, Waiting, Buffers;
    WrapEqual(t.seen, |t.completed|);
  }

  lemma ChainBusy(s: State, h: nat)
    requires Good(s) && h in s.chains
    ensures |s.free| == NUM && h < NUM && s.chains[h].d1 < NUM && s.chains[h].d2 < NUM
    ensures !s.free[h] && !s.free[s.chains[h].d1] && !s.free[s.chains[h].d2]
    ensures h != s.chains[h].d1 && h != s.chains[h].d2 && s.chains[h].d1 != s.chains[h].d2
  {
    assert Own(s.owner, h, s.chains[h]);
  }

  lemma FinishGood(s: State, h: nat)
    requires Good(s) && h in s.chains && s.chains[h].b in s.flag && !s.flag[s.chains[h].b]
    ensures |s.free| == |s.desc| == |s.info| == NUM && h < NUM && s.chains[h].d1 < NUM && s.chains[h].d2 < NUM
    ensures var d1, d2 := s.chains[h].d1, s.chains[h].d2;
            Good(s.(info := s.info[h := 0], free := s.free[h := true][d1 := true][d2 := true],
                    desc := s.desc[h := BLANK][d1 := BLANK][d2 := BLANK], owner := s.owner - {h, d1, d2}, chains := s.chains - {h}))
  {
    hide Owned, Descs, Waiting, Finished, Buffers, Ring;
    ChainFormat(s, h, Acked);
    ChainBusy(s, h);
    FinishOwned(s.free, s.owner, s.chains, h);
    var d1, d2 := s.chains[h].d1, s.chains[h].d2;
    FinishDescs(s, h, s.desc[h := BLANK][d1 := BLANK][d2 := BLANK], s.free[h := true][d1 := true][d2 := true]);
    FinishQueues(s.chains, s.posted, s.fetched, s.completed, s.seen, s.info, s.status, s.flag, h);
  }

  lemma FinishOwned(free: seq<bool>, owner: map<nat, nat>, chains: map<nat, Chain>, h: nat)
    requires Owned(free, owner, chains) && h in chains && h < NUM && chains[h].d1 < NUM && chains[h].d2 < NUM
    ensures var d1, d2 := chains[h].d1, chains[h].d2;
            Owned(free[h := true][d1 := true][d2 := true], owner - {h, d1, d2}, chains - {h})
  {
    var d1, d2 := chains[h].d1, chains[h].d2;
    assert Own(owner, h, chains[h]);
    forall g | g in chains && g != h ensures Own(owner - {h, d1, d2}, g, chains[g]) { assert Own(owner, g, chains[g]); }
  }

  lemma FinishDescs(s: State, h: nat, desc': seq<Desc>, free': seq<bool>)
    requires h in s.chains && |s.free| == |s.desc| == NUM && h < NUM && s.chains[h].d1 < NUM && s.chains[h].d2 < NUM
    requires desc' == s.desc[h := BLANK][s.chains[h].d1 := BLANK][s.chains[h].d2 := BLANK]
    requires free' == s.free[h := true][s.chains[h].d1 := true][s.chains[h].d2 := true] && Good(s)
    ensures Descs(desc', free', s.chains - {h})
  {
    hide Rest, Owned;
    ChainBusy(s, h);
    var c := s.chains[h];
    forall g | g in s.chains - {h} ensures Misses(g, s.chains[g], h) && Misses(g, s.chains[g], c.d1) && Misses(g, s.chains[g], c.d2) {
      OtherChain(s.free, s.owner, s.chains, g, h);
    }
    StoreApart(s.desc, desc', s.free, s.chains - {h}, h, c.d1, c.d2);
    hide Formatted;
  }

  lemma OtherChain(free: seq<bool>, owner: map<nat, nat>, chains: map<nat, Chain>, g: nat, h: nat)
    requires Owned(free, owner, chains) && g in chains && h in chains && g != h
    ensures Misses(g, chains[g], h) && Misses(g, chains[g], chains[h].d1) && Misses(g, chains[g], chains[h].d2)
  {
    assert Own(owner, g, chains[g]) && Own(owner, h, chains[h]);
  }

  lemma FinishQueues(chains: map<nat, Chain>, posted: seq<nat>, fetched: nat, completed: seq<nat>, seen: nat,
                     info: seq<nat>, status: seq<nat>, flag: map<nat, bool>, h: nat)
    requires Waiting(chains, posted, fetched) && Finished(chains, completed, seen) && Buffers(chains, info, status, flag)
    requires h in chains && h < NUM && chains[h].b in flag && !flag[chains[h].b]
    ensures |info| == NUM && Waiting(chains - {h}, posted, fetched) && Finished(chains - {h}, completed, seen)
    ensures Buffers(chains - {h}, info[h := 0], status, flag)
  {
  }

  ghost function Phased(chains: map<nat, Chain>, h: nat, phase: Phase): (r: map<nat, Chain>)
    requires h in chains
  {
    chains[h := chains[h].(phase := phase)]
  }

  /** Changing a chain's phase leaves its descriptors alone. */
  lemma Rephase(s: State, h: nat, phase: Phase)
    requires Good(s) && h in s.chains
    ensures Owned(s.free, s.owner, Phased(s.chains, h, phase)) && Descs(s.desc, s.free, Phased(s.chains, h, phase))
  {
    hide Rest;
    RephaseOwned(s.free, s.owner, s.chains, h, phase);
    hide Owned;
  }

  lemma RephaseOwned(free: seq<bool>, owner: map<nat, nat>, chains: map<nat, Chain>, h: nat, phase: Phase)
    requires Owned(free, owner, chains) && h in chains
    ensures Owned(free, owner, Phased(chains, h, phase))
  {
    var r := Phased(chains, h, phase);
    forall g | g in r ensures Own(owner, g, r[g]) { assert Own(owner, g, chains[g]); }
  }

  lemma ChainFormat(s: State, h: nat, phase: Phase)
    requires Good(s) && h in s.chains
    ensures |s.desc| == |s.info| == |s.status| == |s.usedRing| == |s.availRing| == NUM && h < NUM && s.chains[h].d1 < NUM && s.chains[h].d2 < NUM
    ensures Formatted(s.desc, h, s.chains[h].(phase := phase))
  {
    hide Owned;
  }

  /** What the device meets at its place in the avail ring. */
  lemma FetchRing(s: State)
    requires Good(s)
    ensures |s.availRing| == NUM && s.fetched <= |s.posted| && (s.devIdx == s.availIdx <==> s.fetched == |s.posted|)
    ensures s.fetched < |s.posted| ==> s.availRing[Slot(s.devIdx)] == s.posted[s.fetched] && s.posted[s.fetched] in s.chains
  {
    hide Owned, Descs, Buffers, Finished;
    WrapEqual(s.fetched, |s.posted|);
    WrapIndex(s.fetched);
  }

  lemma FetchGood(s: State)
    requires Good(s) && s.fetched < |s.posted| && s.posted[s.fetched] in s.chains
    ensures Good(s.(devIdx := Bump(s.devIdx), fetched := s.fetched + 1, chains := Phased(s.chains, s.posted[s.fetched], Fetched)))
  {
    hide Owned, Descs, Waiting, Finished, Buffers, Ring, Phased;
    Rephase(s, s.posted[s.fetched], Fetched);
    WrapNext(s.fetched);
    FetchQueues(s.chains, s.posted, s.fetched, s.completed, s.seen, s.info, s.status, s.flag, s.availRing);
  }

  lemma FetchQueues(chains: map<nat, Chain>, posted: seq<nat>, fetched: nat, completed: seq<nat>, seen: nat,
                    info: seq<nat>, status: seq<nat>, flag: map<nat, bool>, ring: seq<nat>)
    requires Waiting(chains, posted, fetched) && Finished(chains, completed, seen) && Buffers(chains, info, status, flag)
    requires Ring(ring, posted, fetched) && fetched < |posted| && posted[fetched] in chains
    ensures var r := Phased(chains, posted[fetched], Fetched);
            Waiting(r, posted, fetched + 1) && Finished(r, completed, seen) && Buffers(r, info, status, flag) && Ring(ring, posted, fetched + 1)
  {
  }

  lemma CompleteGood(s: State, h: nat, st: nat)
    requires Good(s) && h in s.chains && s.chains[h].phase.Fetched?
    ensures |s.status| == |s.usedRing| == NUM && h < NUM
    ensures Good(s.(status := s.status[h := st], usedRing := s.usedRing[Slot(s.usedIdx) := h], usedIdx := Bump(s.usedIdx),
                    chains := Phased(s.chains, h, Completed(|s.completed|, st)), completed := s.completed + [h]))
  {
    hide Owned, Descs, Waiting, Finished, Buffers, Ring, Phased;
    Rephase(s, h, Completed(|s.completed|, st));
    ChainFormat(s, h, Acked);
    CompleteRing(s, h);
    WrapIndex(|s.completed|);
    WrapNext(|s.completed|);
    CompleteQueues(s.chains, s.posted, s.fetched, s.completed, s.seen, s.info, s.status, s.flag, h, st);
  }

  lemma CompleteRing(s: State, h: nat)
    requires Good(s) && h in s.chains && s.chains[h].phase.Fetched?
    ensures |s.usedRing| == NUM && Ring(s.usedRing[|s.completed| % NUM := h], s.completed + [h], s.seen)
  {
    ChainFormat(s, h, Acked);
    forall k | s.seen <= k < |s.completed| ensures s.completed[k] < NUM && s.completed[k] != h {
      ChainFormat(s, s.completed[k], Acked);
    }
    hide Owned, Descs, Buffers, Waiting;
    WindowBound(s.completed, s.seen, h);
    RingPush(s.usedRing, s.completed, s.seen, h);
  }

  lemma CompleteQueues(chains: map<nat, Chain>, posted: seq<nat>, fetched: nat, completed: seq<nat>, seen: nat,
                       info: seq<nat>, status: seq<nat>, flag: map<nat, bool>, h: nat, st: nat)
    requires Waiting(chains, posted, fetched) && Finished(chains, completed, seen) && Buffers(chains, info, status, flag)
    requires h in chains && h < NUM && chains[h].phase.Fetched?
    ensures var r := Phased(chains, h, Completed(|completed|, st));
            |status| == NUM && Waiting(r, posted, fetched) && Finished(r, completed + [h], seen) && Buffers(r, info, status[h := st], flag)
  {
  }

  /** What the driver meets at its place in the used ring. */
  lemma AckRing(s: State)
    requires Good(s) && s.seenIdx != s.usedIdx
    ensures |s.usedRing| == |s.status| == |s.info| == NUM && s.seen < |s.completed| && s.completed[s.seen] in s.chains
    ensures var h := s.completed[s.seen];
            s.usedRing[Slot(s.seenIdx)] == h && h < NUM && s.chains[h].phase.Completed? && s.status[h] == s.chains[h].phase.st && s.info[h] == s.chains[h].b
  {
    hide Owned, Descs, Waiting;
    WrapEqual(s.seen, |s.completed|);
    WrapIndex(s.seen);
  }

  lemma AckGood(s: State)
    requires Good(s) && s.seen < |s.completed| && s.completed[s.seen] in s.chains
    ensures var h := s.completed[s.seen];
            Good(s.(flag := s.flag[s.chains[h].b := false], seenIdx := Bump(s.seenIdx), seen := s.seen + 1, chains := Phased(s.chains, h, Acked)))
  {
    hide Owned, Descs, Waiting, Finished, Buffers, Ring, Phased;
    Rephase(s, s.completed[s.seen], Acked);
    WrapNext(s.seen);
    AckQueues(s.chains, s.posted, s.fetched, s.completed, s.seen, s.info, s.status, s.flag, s.usedRing);
  }

  lemma AckQueues(chains: map<nat, Chain>, posted: seq<nat>, fetched: nat, completed: seq<nat>, seen: nat,
                  info: seq<nat>, status: seq<nat>, flag: map<nat, bool>, ring: seq<nat>)
    requires Waiting(chains, posted, fetched) && Finished(chains, completed, seen) && Buffers(chains, info, status, flag)
    requires Ring(ring, completed, seen) && seen < |completed| && completed[seen] in chains
    ensures var h := completed[seen]; var r := Phased(chains, h, Acked);
            && Waiting(r, posted, fetched) && Finished(r, completed, seen + 1) && Ring(ring, completed, seen + 1)
            && Buffers(r, info, status, flag[chains[h].b := false])
  {
  }

  ghost predicate Sized(s: State, idx: seq<nat>) {
    && |s.desc| == |s.info| == |s.status| == |s.availRing| == NUM
    && |idx| == 3 && idx[0] < NUM && idx[1] < NUM && idx[2] < NUM
  }

  ghost function FormattedState(s: State, h: nat, d1: nat, d2: nat, b: nat, write: bool): (t: State)
    requires |s.desc| == |s.info| == |s.status| == |s.availRing| == NUM && h < NUM && d1 < NUM && d2 < NUM
    ensures t.owner == s.owner && t.chains == s.chains && t.posted == s.posted
  {
    s.(desc := Formats(s.desc, h, d1, d2, b, write), status := s.status[h := 0xff], info := s.info[h := b],
       flag := s.flag[b := true], availRing := s.availRing[Slot(s.availIdx) := h], availIdx := Bump(s.availIdx))
  }

  /** The state once the request is posted. */
  ghost function PostedState(s: State, free: seq<bool>, idx: seq<nat>, b: nat, write: bool): (t: State)
    requires Sized(s, idx)
  {
    var h := idx[0];
    FormattedState(s.(free := free), h, idx[1], idx[2], b, write).(
      owner := s.owner[h := h][idx[1] := h][idx[2] := h],
      chains := s.chains[h := Chain(b, idx[1], idx[2], write, Posted(|s.posted|))], posted := s.posted + [h])
  }

  lemma PostSizes(s: State, free: seq<bool>, idx: seq<nat>)
    requires Good(s) && |idx| == 3 && Took(s.free, free, idx)
    ensures Sized(s, idx)
  {
    TookParts(s.free, free, idx);
  }

  lemma PostFresh(s: State, free: seq<bool>, idx: seq<nat>)
    requires Good(s) && |idx| == 3 && Took(s.free, free, idx)
    ensures idx[0] !in s.chains
  {
    TookParts(s.free, free, idx);
    hide Took;
    FreeUnowned(s.free, s.owner, s.chains, idx[0]);
  }

  lemma PostGood(s: State, free: seq<bool>, idx: seq<nat>, b: nat, write: bool)
    requires Good(s) && |idx| == 3 && Took(s.free, free, idx) && b in s.flag && forall g :: g in s.chains ==> s.chains[g].b != b
    ensures Sized(s, idx) && Good(PostedState(s, free, idx, b, write))
  {
    hide Owned, Descs, Rest, Took, PostedState;
    PostOwned(s, free, idx, b, write);
    PostRest(s, free, idx, b, write);
  }

  lemma PostOwned(s: State, free: seq<bool>, idx: seq<nat>, b: nat, write: bool)
    requires Good(s) && |idx| == 3 && Took(s.free, free, idx)
    ensures Sized(s, idx)
    ensures var t := PostedState(s, free, idx, b, write); Owned(t.free, t.owner, t.chains) && Descs(t.desc, t.free, t.chains)
  {
    PostSizes(s, free, idx);
    hide Owned, Descs, Rest, Took, Formats;
    Started(s.free, free, s.owner, s.chains, s.desc, idx, Chain(b, idx[1], idx[2], write, Posted(|s.posted|)));
  }

  lemma PostRest(s: State, free: seq<bool>, idx: seq<nat>, b: nat, write: bool)
    requires Good(s) && |idx| == 3 && Took(s.free, free, idx) && b in s.flag && forall g :: g in s.chains ==> s.chains[g].b != b
    ensures Sized(s, idx) && Rest(PostedState(s, free, idx, b, write))
  {
    PostSizes(s, free, idx);
    TookParts(s.free, free, idx);
    WrapIndex(|s.posted|);
    WrapNext(|s.posted|);
    hide Owned, Descs, Buffers, Waiting, Finished, Ring, Took, Formats;
    StartedRest(s, idx[0], Chain(b, idx[1], idx[2], write, Posted(|s.posted|)));
  }

  /** The descriptors of a request for buffer b, written into the table. */
  ghost function Formats(desc: seq<Desc>, h: nat, d1: nat, d2: nat, b: nat, write: bool): (r: seq<Desc>)
    requires |desc| == NUM && h < NUM && d1 < NUM && d2 < NUM
  {
    desc[h := Desc(Op(h), 16, F_NEXT, d1)]
        [d1 := Desc(Data(b), 1024, if write then F_NEXT else F_WRITE + F_NEXT, d2)]
        [d2 := Desc(Status(h), 1, F_WRITE, 0)]
  }

  lemma Sizes(chains: map<nat, Chain>, info: seq<nat>, status: seq<nat>, flag: map<nat, bool>, ring: seq<nat>, queue: seq<nat>, from: nat)
    requires Buffers(chains, info, status, flag) && Ring(ring, queue, from)
    ensures |info| == |status| == |ring| == NUM
  {
  }

  lemma Started(was: seq<bool>, free: seq<bool>, owner: map<nat, nat>, chains: map<nat, Chain>, desc: seq<Desc>, idx: seq<nat>, c: Chain)
    requires |idx| == 3 && Took(was, free, idx) && Owned(was, owner, chains) && Descs(desc, was, chains) && c.d1 == idx[1] && c.d2 == idx[2]
    ensures |desc| == |was| == NUM && idx[0] < NUM && idx[1] < NUM && idx[2] < NUM && was[idx[0]]
    ensures Owned(free, owner[idx[0] := idx[0]][idx[1] := idx[0]][idx[2] := idx[0]], chains[idx[0] := c])
    ensures Descs(Formats(desc, idx[0], idx[1], idx[2], c.b, c.write), free, chains[idx[0] := c])
  {
    hide Owned, Descs, Took, Formats;
    TookParts(was, free, idx);
    DescParts(desc, was, chains);
    StartOwned(was, free, owner, chains, idx, c);
    StartDescs(desc, was, free, owner, chains, idx, c);
  }

  lemma StartedRest(s: State, h: nat, c: Chain)
    requires Good(s) && |s.free| == NUM && h < NUM && s.free[h]
    requires c.b in s.flag && c.phase == Posted(|s.posted|) && forall g :: g in s.chains ==> s.chains[g].b != c.b
    ensures h !in s.chains && |s.info| == |s.status| == |s.availRing| == NUM
    ensures Buffers(s.chains[h := c], s.info[h := c.b], s.status[h := 0xff], s.flag[c.b := true])
    ensures Ring(s.availRing[|s.posted| % NUM := h], s.posted + [h], s.fetched)
    ensures Waiting(s.chains[h := c], s.posted + [h], s.fetched) && Finished(s.chains[h := c], s.completed, s.seen)
  {
    hide Owned, Buffers, Waiting, Finished, Ring;
    Sizes(s.chains, s.info, s.status, s.flag, s.availRing, s.posted, s.fetched);
    StartBuffers(s.free, s.owner, s.chains, s.info, s.status, s.flag, h, c);
    StartRing(s.free, s.owner, s.chains, s.posted, s.fetched, s.availRing, h);
    StartQueues(s.chains, s.posted, s.fetched, s.completed, s.seen, h, c);
  }

  lemma DescParts(desc: seq<Desc>, free: seq<bool>, chains: map<nat, Chain>)
    requires Descs(desc, free, chains)
    ensures |desc| == |free| == NUM && forall i :: 0 <= i < NUM && free[i] ==> desc[i] == BLANK
  {
  }

  lemma TookParts(free: seq<bool>, free': seq<bool>, idx: seq<nat>)
    requires Took(free, free', idx) && |idx| == 3
    ensures idx[0] < NUM && idx[1] < NUM && idx[2] < NUM && idx[0] != idx[1] && idx[0] != idx[2] && idx[1] != idx[2]
    ensures |free| == |free'| == NUM && free[idx[0]] && free[idx[1]] && free[idx[2]]
    ensures free' == free[idx[0] := false][idx[1] := false][idx[2] := false]
  {
    assert idx == [idx[0], idx[1], idx[2]];
  }

  /** Free descriptors belong to no chain. */
  lemma FreeUnowned(free: seq<bool>, owner: map<nat, nat>, chains: map<nat, Chain>, i: nat)
    requires Owned(free, owner, chains) && i < NUM && free[i]
    ensures i !in owner && i !in chains && forall h :: h in chains ==> Misses(h, chains[h], i)
  {
    forall h | h in chains ensures Misses(h, chains[h], i) { assert Own(owner, h, chains[h]); }
  }

  lemma StartOwned(free: seq<bool>, free': seq<bool>, owner: map<nat, nat>, chains: map<nat, Chain>, idx: seq<nat>, c: Chain)
    requires Owned(free, owner, chains) && |idx| == 3 && Took(free, free', idx) && c.d1 == idx[1] && c.d2 == idx[2]
    ensures Owned(free', owner[idx[0] := idx[0]][idx[1] := idx[0]][idx[2] := idx[0]], chains[idx[0] := c])
  {
    TookParts(free, free', idx);
    hide Took;
    FreeUnowned(free, owner, chains, idx[0]);
    FreeUnowned(free, owner, chains, idx[1]);
    FreeUnowned(free, owner, chains, idx[2]);
    var h := idx[0];
    var owner', chains' := owner[h := h][idx[1] := h][idx[2] := h], chains[h := c];
    forall g | g in chains' ensures Own(owner', g, chains'[g]) {
      if g != h { assert Own(owner, g, chains[g]); }
    }
  }

  /** Stores to three descriptors outside every chain leave all chains formatted. */
  lemma StoreApart(desc: seq<Desc>, desc': seq<Desc>, free: seq<bool>, chains: map<nat, Chain>, i: nat, j: nat, k: nat)
    requires Descs(desc, free, chains) && |desc'| == NUM && i < NUM && j < NUM && k < NUM
    requires forall n :: 0 <= n < NUM && n != i && n != j && n != k ==> desc'[n] == desc[n]
    requires forall g :: g in chains ==> Misses(g, chains[g], i) && Misses(g, chains[g], j) && Misses(g, chains[g], k)
    ensures forall g :: g in chains ==> g < NUM && chains[g].d1 < NUM && chains[g].d2 < NUM && Formatted(desc', g, chains[g])
  {
    forall g | g in chains ensures g < NUM && chains[g].d1 < NUM && chains[g].d2 < NUM && Formatted(desc', g, chains[g]) {
      assert Formatted(desc, g, chains[g]);
    }
  }

  /** Descriptor i is not in the chain. */
  ghost predicate Misses(g: nat, c: Chain, i: nat) { g != i && c.d1 != i && c.d2 != i }

  lemma StartDescs(desc: seq<Desc>, free: seq<bool>, free': seq<bool>, owner: map<nat, nat>, chains: map<nat, Chain>, idx: seq<nat>, c: Chain)
    requires Descs(desc, free, chains) && Owned(free, owner, chains) && |idx| == 3 && Took(free, free', idx) && c.d1 == idx[1] && c.d2 == idx[2]
    ensures idx[0] < NUM && idx[1] < NUM && idx[2] < NUM
    ensures var h := idx[0];
            |desc| == NUM && Descs(Formats(desc, h, idx[1], idx[2], c.b, c.write), free', chains[h := c])
  {
    hide Took, Owned;
    TookParts(free, free', idx);
    FreeUnowned(free, owner, chains, idx[0]);
    FreeUnowned(free, owner, chains, idx[1]);
    FreeUnowned(free, owner, chains, idx[2]);
    var desc' := Formats(desc, idx[0], idx[1], idx[2], c.b, c.write);
    StoreApart(desc, desc', free, chains, idx[0], idx[1], idx[2]);
    assert forall i :: 0 <= i < NUM && free'[i] ==> free[i] && desc'[i] == BLANK;
    assert Formatted(desc', idx[0], c);
    hide Formatted, Formats;
  }

  lemma StartBuffers(free: seq<bool>, owner: map<nat, nat>, chains: map<nat, Chain>, info: seq<nat>, status: seq<nat>, flag: map<nat, bool>, h: nat, c: Chain)
    requires Owned(free, owner, chains) && h < NUM && free[h] && Buffers(chains, info, status, flag) && c.b in flag && c.phase.Posted?
    requires forall g :: g in chains ==> chains[g].b != c.b
    ensures Buffers(chains[h := c], info[h := c.b], status[h := 0xff], flag[c.b := true])
  {
    FreeUnowned(free, owner, chains, h);
    hide Owned;
  }

  lemma StartRing(free: seq<bool>, owner: map<nat, nat>, chains: map<nat, Chain>, posted: seq<nat>, fetched: nat, ring: seq<nat>, h: nat)
    requires Owned(free, owner, chains) && h < NUM && free[h] && Waiting(chains, posted, fetched) && Ring(ring, posted, fetched)
    ensures h !in chains && Ring(ring[|posted| % NUM := h], posted + [h], fetched)
  {
    FreeUnowned(free, owner, chains, h);
    forall k | fetched <= k < |posted| ensures posted[k] < NUM && posted[k] != h {
      assert Own(owner, posted[k], chains[posted[k]]);
    }
    hide Owned;
    WindowBound(posted, fetched, h);
    RingPush(ring, posted, fetched, h);
  }

  lemma StartQueues(chains: map<nat, Chain>, posted: seq<nat>, fetched: nat, completed: seq<nat>, seen: nat, h: nat, c: Chain)
    requires h !in chains && c.phase == Posted(|posted|) && Waiting(chains, posted, fetched) && Finished(chains, completed, seen)
    ensures Waiting(chains[h := c], posted + [h], fetched) && Finished(chains[h := c], completed, seen)
  {
  }

  lemma WrapNext(k: nat)
    ensures Bump(k % WRAP) == (k + 1) % WRAP
  {
  }

  ghost function FreeOnes(free: seq<bool>): (r: set<nat>) { set i | 0 <= i < |free| && free[i] }

  /** Three different free descriptors were found, or fewer than three are free. */
  lemma ThreeFree(was: seq<bool>, free: seq<bool>, idx: seq<nat>, ok: bool)
    requires if ok then |idx| == 3 && Took(was, free, idx) else |was| == NUM && |idx| < 3 && forall k :: 0 <= k < NUM && was[k] ==> k in idx
    ensures ok <==> |FreeOnes(was)| >= 3
  {
    if ok {
      Counting.ElementsDistinct(idx);
      Counting.SubsetSize(Counting.Elements(idx), FreeOnes(was));
    } else {
      Counting.SubsetSize(FreeOnes(was), Counting.Elements(idx));
    }
  }

  /** The descriptors idx, all of them free and different, were marked in use. */
  ghost predicate Took(free: seq<bool>, free': seq<bool>, idx: seq<nat>) {
    && |free| == |free'| == NUM
    && (forall t :: 0 <= t < |idx| ==> idx[t] < NUM && free[idx[t]])
    && (forall t, u :: 0 <= t < u < |idx| ==> idx[t] != idx[u])
    && (forall i :: 0 <= i < NUM ==> free'[i] == (free[i] && i !in idx))
  }
}
