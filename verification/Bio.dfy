/**
 The buffer cache: NBUF buffers on a doubly linked ring in most-recently-used
 order, in front of a disk that is written one block at a time.
 */
module Bio {
  import opened Blocks
  import opened RedoLog

  const NBUF := 30 // MAXOPBLOCKS * 3
  const HEAD := 30 // index of the ring's sentinel
  const ROOTDEV := 1

  datatype Buf = Buf(dev: nat, blockno: nat, valid: bool, refcnt: nat, data: Block)

  // ------------------------------------------------------------------ ring

  /** Position k of the ring; both ends meet at the sentinel. */
  function At(order: seq<nat>, k: int): (i: nat)
    requires |order| == NBUF
  {
    if 0 <= k < NBUF then order[k] else HEAD
  }

  ghost predicate Permutation(order: seq<nat>) {
    && |order| == NBUF
    && (forall k :: 0 <= k < NBUF ==> order[k] < NBUF)
    && (forall j, k :: 0 <= j < k < NBUF ==> order[j] != order[k])
    && (forall i :: 0 <= i < NBUF ==> i in order)
  }

  ghost predicate Ring(next: seq<nat>, prev: seq<nat>, order: seq<nat>) {
    && |next| == |prev| == NBUF + 1
    && Permutation(order)
    && (forall k :: -1 <= k < NBUF ==> next[At(order, k)] == At(order, k + 1))
    && (forall k :: 0 <= k <= NBUF ==> prev[At(order, k)] == At(order, k - 1))
  }

  function ToFront(order: seq<nat>, k: nat): (r: seq<nat>)
    requires k < |order|
  {
    [order[k]] + order[..k] + order[k + 1..]
  }

  lemma ToFrontAt(order: seq<nat>, k: nat, m: nat)
    requires k < |order| && m < |order|
    ensures |ToFront(order, k)| == |order|
    ensures ToFront(order, k)[m] == if m == 0 then order[k] else if m <= k then order[m - 1] else order[m]
  {
  }

  lemma ToFrontPermutation(order: seq<nat>, k: nat)
    requires Permutation(order) && k < NBUF
    ensures Permutation(ToFront(order, k))
  {
    var r := ToFront(order, k);
    forall i | 0 <= i < NBUF
      ensures i in r
    {
      assert i in order;
      var m :| 0 <= m < NBUF && order[m] == i;
      assert r[if m == k then 0 else if m < k then m + 1 else m] == i;
    }
    assert forall m :: 0 <= m < NBUF ==> r[m] == if m == 0 then order[k] else if m <= k then order[m - 1] else order[m];
  }

  /** brelse()'s six stores: unlink buffer b, then link it after the sentinel. */
  function NextAfterMove(next: seq<nat>, prev: seq<nat>, b: nat): (r: seq<nat>)
    requires |next| == |prev| == NBUF + 1 && b < NBUF && prev[b] <= NBUF && next[prev[b] := next[b]][HEAD] <= NBUF
  {
    var n1 := next[prev[b] := next[b]];
    n1[b := n1[HEAD]][HEAD := b]
  }

  function PrevAfterMove(next: seq<nat>, prev: seq<nat>, b: nat): (r: seq<nat>)
    requires |next| == |prev| == NBUF + 1 && b < NBUF && prev[b] <= NBUF && next[b] <= NBUF
    requires next[prev[b] := next[b]][HEAD] <= NBUF
  {
    prev[next[b] := prev[b]][b := HEAD][next[prev[b] := next[b]][HEAD] := b]
  }

  lemma RingBounds(next: seq<nat>, prev: seq<nat>, order: seq<nat>, k: nat)
    requires Ring(next, prev, order) && k < NBUF
    ensures order[k] < NBUF && next[order[k]] == At(order, k + 1) <= NBUF && prev[order[k]] == At(order, k - 1) <= NBUF
    ensures next[prev[order[k]] := next[order[k]]][HEAD] == (if k == 0 then At(order, 1) else order[0])
    ensures next[prev[order[k]] := next[order[k]]][HEAD] <= NBUF
  {
    assert At(order, k) == order[k];
    assert next[At(order, -1)] == At(order, 0);
  }

  lemma MoveToFrontNext(next: seq<nat>, prev: seq<nat>, order: seq<nat>, k: nat, m: int)
    requires Ring(next, prev, order) && k < NBUF && -1 <= m < NBUF
    ensures order[k] < NBUF && prev[order[k]] <= NBUF && next[prev[order[k]] := next[order[k]]][HEAD] <= NBUF
    ensures |ToFront(order, k)| == NBUF
    ensures NextAfterMove(next, prev, order[k])[At(ToFront(order, k), m)] == At(ToFront(order, k), m + 1)
  {
    RingBounds(next, prev, order, k);
    if 0 <= m { ToFrontAt(order, k, m); }
    if m + 1 < NBUF { ToFrontAt(order, k, m + 1); }
    assert m >= 1 ==> next[At(order, m - 1)] == At(order, m);
    assert next[At(order, m)] == At(order, m + 1);
  }

  lemma MoveToFrontPrev(next: seq<nat>, prev: seq<nat>, order: seq<nat>, k: nat, m: int)
    requires Ring(next, prev, order) && k < NBUF && 0 <= m <= NBUF
    ensures order[k] < NBUF && prev[order[k]] <= NBUF && next[order[k]] <= NBUF
    ensures next[prev[order[k]] := next[order[k]]][HEAD] <= NBUF
    ensures |ToFront(order, k)| == NBUF
    ensures PrevAfterMove(next, prev, order[k])[At(ToFront(order, k), m)] == At(ToFront(order, k), m - 1)
  {
    RingBounds(next, prev, order, k);
    if 0 < m { ToFrontAt(order, k, m - 1); }
    if m < NBUF { ToFrontAt(order, k, m); }
    assert m >= 1 ==> prev[At(order, m - 1)] == At(order, m - 2);
    assert prev[At(order, m)] == At(order, m - 1);
  }

  /** The six stores move one buffer to the front and leave the rest of the ring alone. */
  lemma MoveToFront(next: seq<nat>, prev: seq<nat>, order: seq<nat>, k: nat)
    requires Ring(next, prev, order) && k < NBUF
    ensures order[k] < NBUF && prev[order[k]] <= NBUF && next[order[k]] <= NBUF
    ensures next[prev[order[k]] := next[order[k]]][HEAD] <= NBUF
    ensures Ring(NextAfterMove(next, prev, order[k]), PrevAfterMove(next, prev, order[k]), ToFront(order, k))
  {
    RingBounds(next, prev, order, k);
    ToFrontPermutation(order, k);
    forall m | -1 <= m < NBUF
      ensures NextAfterMove(next, prev, order[k])[At(ToFront(order, k), m)] == At(ToFront(order, k), m + 1)
    {
      MoveToFrontNext(next, prev, order, k, m);
    }
    forall m | 0 <= m <= NBUF
      ensures PrevAfterMove(next, prev, order[k])[At(ToFront(order, k), m)] == At(ToFront(order, k), m - 1)
    {
      MoveToFrontPrev(next, prev, order, k, m);
    }
  }

  // ----------------------------------------------------------------- cache

  /** Which buffer, if any, caches which block: at most one per block. */
  ghost predicate Placed(buf: seq<Buf>, slot: map<nat, nat>) {
    && |buf| == NBUF
    && (forall b :: b in slot ==> slot[b] < NBUF && buf[slot[b]].dev == ROOTDEV && buf[slot[b]].blockno == b)
    && (forall i :: 0 <= i < NBUF && buf[i].dev == ROOTDEV ==> buf[i].blockno in slot && slot[buf[i].blockno] == i)
  }

  /** References come from bget() callers and from log_write()'s pins. */
  ghost predicate Counted(buf: seq<Buf>, holds: seq<nat>, pins: seq<nat>) {
    && |buf| == |holds| == |pins| == NBUF
    && forall i :: 0 <= i < NBUF ==> buf[i].refcnt == holds[i] + pins[i]
  }

  /** A valid buffer nobody has modified equals its disk block; a modified one is referenced. */
  ghost predicate Coherent(buf: seq<Buf>, disk: Disk, dirty: set<nat>) {
    && |buf| == NBUF
    && (forall i :: 0 <= i < NBUF && buf[i].dev == ROOTDEV ==> buf[i].blockno in disk)
    && (forall i :: 0 <= i < NBUF && buf[i].dev == ROOTDEV && buf[i].valid && i !in dirty
                    ==> buf[i].data == disk[buf[i].blockno])
    && (forall i :: i in dirty ==> i < NBUF && buf[i].valid && buf[i].refcnt > 0)
  }

  /** Unreferenced, and no unreferenced buffer was used longer ago. */
  ghost predicate LeastRecent(buf: seq<Buf>, order: seq<nat>, i: nat) {
    && |buf| == NBUF && Permutation(order) && i < NBUF && buf[i].refcnt == 0
    && exists k :: 0 <= k < NBUF && order[k] == i && forall m :: k < m < NBUF ==> buf[order[m]].refcnt > 0
  }

  /** A block as the file system sees it: the cached copy if there is one. */
  ghost function View(buf: seq<Buf>, slot: map<nat, nat>, disk: Disk, b: nat): (v: Block)
    requires b in disk && (b in slot ==> slot[b] < |buf|)
  {
    if b in slot && buf[slot[b]].valid then buf[slot[b]].data else disk[b]
  }

  /** Referenced blocks stay in their buffers, with their contents. */
  ghost predicate Kept(buf: seq<Buf>, slot: map<nat, nat>, buf': seq<Buf>, slot': map<nat, nat>) {
    && Placed(buf, slot) && Placed(buf', slot')
    && forall c :: c in slot && buf[slot[c]].refcnt > 0
                   ==> && c in slot' && slot'[c] == slot[c]
                       && (buf[slot[c]].valid ==> buf'[slot[c]].valid && buf'[slot[c]].data == buf[slot[c]].data)
  }

  ghost function Evict(buf: seq<Buf>, slot: map<nat, nat>, i: nat, b: nat): (r: map<nat, nat>)
    requires i < |buf|
  {
    (if buf[i].dev == ROOTDEV then slot - {buf[i].blockno} else slot)[b := i]
  }

  /** Reusing an unreferenced buffer changes nothing the file system can see. */
  lemma RecycleSafe(buf: seq<Buf>, slot: map<nat, nat>, disk: Disk, dirty: set<nat>, i: nat, b: nat)
    requires Placed(buf, slot) && Coherent(buf, disk, dirty)
    requires i < NBUF && buf[i].refcnt == 0 && b !in slot && b in disk
    ensures var buf' := buf[i := buf[i].(dev := ROOTDEV, blockno := b, valid := false, refcnt := 1)];
            var slot' := Evict(buf, slot, i, b);
            && Placed(buf', slot') && Coherent(buf', disk, dirty)
            && (forall c :: c in disk ==> View(buf', slot', disk, c) == View(buf, slot, disk, c))
            && Kept(buf, slot, buf', slot')
  {
    var buf' := buf[i := buf[i].(dev := ROOTDEV, blockno := b, valid := false, refcnt := 1)];
    var slot' := Evict(buf, slot, i, b);
    forall c | c in disk
      ensures c in slot' ==> slot'[c] < NBUF
      ensures View(buf', slot', disk, c) == View(buf, slot, disk, c)
    {
      if c in slot && slot[c] == i {
        assert buf[i].blockno == c;
      }
    }
  }

  /** One reference less changes nothing that is seen; it loses a change exactly when it was the last. */
  lemma RefDropped(buf: seq<Buf>, slot: map<nat, nat>, disk: Disk, dirty: set<nat>, i: nat)
    requires Placed(buf, slot) && Coherent(buf, disk, dirty) && i < NBUF && buf[i].refcnt > 0
    ensures var buf' := buf[i := buf[i].(refcnt := buf[i].refcnt - 1)];
            && Placed(buf', slot) && (Coherent(buf', disk, dirty) <==> (i in dirty ==> buf'[i].refcnt > 0))
            && (forall c :: c in disk ==> (c in slot ==> slot[c] < NBUF) && View(buf', slot, disk, c) == View(buf, slot, disk, c))
  {
    var buf' := buf[i := buf[i].(refcnt := buf[i].refcnt - 1)];
    assert forall k :: 0 <= k < NBUF ==> buf'[k] == buf[k].(refcnt := buf'[k].refcnt);
  }

  class Bcache {
    var buf: seq<Buf>
    var next: seq<nat>
    var prev: seq<nat>
    var disk: Disk

    ghost var order: seq<nat>       // the ring, most recently used first
    ghost var slot: map<nat, nat>   // where each cached block is
    ghost var holds: seq<nat>       // references from bget()
    ghost var pins: seq<nat>        // references from bpin()
    ghost var dirty: set<nat>       // modified since last equal to the disk
    ghost var history: seq<Write>   // every disk write so far

    ghost predicate Valid()
      reads this
    {
      && Ring(next, prev, order)
      && Placed(buf, slot)
      && Counted(buf, holds, pins)
      && Coherent(buf, disk, dirty)
    }

    ghost function Sees(b: nat): (v: Block)
      reads this
      requires Valid() && b in disk
    {
      View(buf, slot, disk, b)
    }

    /** No buffer is free to hold an uncached block. */
    ghost predicate AllBusy()
      reads this
      requires Valid()
    {
      forall i :: 0 <= i < NBUF ==> buf[i].refcnt > 0
    }

    /** binit(): link the buffers one by one behind the sentinel. */
    constructor (disk: Disk)
      ensures Valid()
      ensures this.disk == disk && history == [] && slot == map[] && dirty == {}
      ensures forall i :: 0 <= i < NBUF ==> buf[i].refcnt == 0
    {
      this.disk := disk;
      buf := seq(NBUF, _ => Buf(0, 0, false, 0, Zero()));
      holds := seq(NBUF, _ => 0);
      pins := seq(NBUF, _ => 0);
      slot, dirty, history := map[], {}, [];
      next := seq(NBUF + 1, _ => HEAD);
      prev := seq(NBUF + 1, _ => HEAD);
      order := [];
      new;
      var b := 0;
      ghost var o: seq<nat> := [];
      while b < NBUF
        invariant 0 <= b <= NBUF
        invariant |next| == |prev| == NBUF + 1 && |o| == b
        invariant forall k :: 0 <= k < b ==> o[k] == b - 1 - k
        invariant next[HEAD] == if b == 0 then HEAD else b - 1
        invariant prev[HEAD] == if b == 0 then HEAD else 0
        invariant forall i :: 0 <= i < b ==> next[i] == if i == 0 then HEAD else i - 1
        invariant forall i :: 0 <= i < b ==> prev[i] == if i == b - 1 then HEAD else i + 1
        invariant this.disk == disk && history == [] && slot == map[] && dirty == {}
        invariant buf == seq(NBUF, _ => Buf(0, 0, false, 0, Zero()))
        invariant holds == seq(NBUF, _ => 0) && pins == seq(NBUF, _ => 0)
      {
        next := next[b := next[HEAD]];
        prev := prev[b := HEAD];
        prev := prev[next[HEAD] := b];
        next := next[HEAD := b];
        o := [b] + o;
        b := b + 1;
      }
      order := o;
      forall i | 0 <= i < NBUF
        ensures i in order
      {
        assert order[NBUF - 1 - i] == i;
      }
    }

    /** First loop of bget(). */
    method FindCached(b: nat) returns (i: int)
      requires Valid()
      ensures i == if b in slot then slot[b] else -1
    {
      assert b in slot ==> slot[b] in order;
      i := next[HEAD];
      ghost var k := 0;
      assert i == At(order, 0) by { assert next[At(order, -1)] == At(order, 0); }
      while i != HEAD
        invariant 0 <= k <= NBUF && i == At(order, k)
        invariant forall m :: 0 <= m < k ==> !(buf[order[m]].dev == ROOTDEV && buf[order[m]].blockno == b)
        decreases NBUF - k
      {
        if buf[i].dev == ROOTDEV && buf[i].blockno == b {
          return;
        }
        i := next[i];
        k := k + 1;
      }
      i := -1;
    }

    /** Second loop of bget(): from the cold end of the ring. */
    method FindUnused() returns (i: int)
      requires Valid()
      ensures i < 0 <==> AllBusy()
      ensures i >= 0 ==> LeastRecent(buf, order, i)
    {
      i := prev[HEAD];
      ghost var k := NBUF - 1;
      assert i == At(order, NBUF - 1) by { assert prev[At(order, NBUF)] == At(order, NBUF - 1); }
      while i != HEAD
        invariant -1 <= k < NBUF && i == At(order, k)
        invariant forall m :: k < m < NBUF ==> buf[order[m]].refcnt > 0
        decreases k + 1
      {
        if buf[i].refcnt == 0 {
          return;
        }
        i := prev[i];
        k := k - 1;
      }
      forall j | 0 <= j < NBUF
        ensures buf[j].refcnt > 0
      {
        assert j in order;
      }
      i := -1;
    }

    /**
     bget(): the buffer caching block b, or else the least recently used
     buffer without references, now assigned to b; -1 is the panic.
     */
    method Bget(b: nat) returns (i: int)
      requires Valid() && b in disk
      modifies this`buf, this`slot, this`holds
      ensures Valid()
      ensures i < 0 <==> old(b !in slot && AllBusy())
      ensures i < 0 ==> buf == old(buf) && slot == old(slot) && holds == old(holds)
      ensures i >= 0 ==> Acquired(i, b)
      ensures i >= 0 && old(b in slot) ==>
                slot == old(slot) && buf[i] == old(buf)[i].(refcnt := old(buf)[i].refcnt + 1)
      ensures i >= 0 && old(b !in slot) ==> old(LeastRecent(buf, order, i)) && !buf[i].valid
    {
      i := FindCached(b);
      if i >= 0 {
        Share(i, b);
        return;
      }
      i := FindUnused();
      if i >= 0 {
        Recycle(i, b);
      }
    }

    method Share(i: nat, b: nat)
      requires Valid() && b in slot && slot[b] == i
      modifies this`buf, this`holds
      ensures Acquired(i, b) && buf[i] == old(buf)[i].(refcnt := old(buf)[i].refcnt + 1)
    {
      buf := buf[i := buf[i].(refcnt := buf[i].refcnt + 1)];
      holds := holds[i := holds[i] + 1];
    }

    method Recycle(i: nat, b: nat)
      requires Valid() && b in disk && b !in slot && i < NBUF && buf[i].refcnt == 0
      modifies this`buf, this`slot, this`holds
      ensures Acquired(i, b) && !buf[i].valid
    {
      RecycleSafe(buf, slot, disk, dirty, i, b);
      slot := Evict(buf, slot, i, b);
      buf := buf[i := buf[i].(dev := ROOTDEV, blockno := b, valid := false, refcnt := 1)];
      holds := holds[i := 1];
    }

    /** Buffer i now belongs to block b, once more referenced; everything seen before is still seen. */
    twostate predicate Acquired(i: nat, b: nat)
      reads this
    {
      && old(Valid()) && Valid() && disk == old(disk)
      && i < NBUF && b in slot && slot[b] == i
      && holds == old(holds)[i := old(holds)[i] + 1]
      && (forall j :: 0 <= j < NBUF && j != i ==> buf[j] == old(buf)[j])
      && Kept(old(buf), old(slot), buf, slot)
      && (forall c :: c in disk ==> Sees(c) == old(Sees(c)))
    }

    /** bread(): a referenced buffer with the current contents of block b; -1 is bget()'s panic. */
    method Bread(b: nat) returns (i: int)
      requires Valid() && b in disk
      modifies this`buf, this`slot, this`holds
      ensures Valid()
      ensures i < 0 <==> old(b !in slot && AllBusy())
      ensures i < 0 ==> buf == old(buf) && slot == old(slot) && holds == old(holds)
      ensures i >= 0 ==> Acquired(i, b) && buf[i].valid && buf[i].data == old(Sees(b))
      ensures i >= 0 && old(b in slot) ==> slot == old(slot)
      ensures i >= 0 && old(b !in slot) ==> old(LeastRecent(buf, order, i))
    {
      i := Bget(b);
      if i >= 0 && !buf[i].valid {
        Load(i);
      }
    }

    /** virtio_disk_rw(b, 0), then b->valid = 1. */
    method Load(i: nat)
      requires Valid() && i < NBUF && buf[i].dev == ROOTDEV && !buf[i].valid
      modifies this`buf
      ensures Valid() && buf == old(buf)[i := old(buf)[i].(valid := true, data := disk[old(buf)[i].blockno])]
      ensures forall c :: c in disk ==> Sees(c) == old(Sees(c))
    {
      buf := buf[i := buf[i].(data := disk[buf[i].blockno], valid := true)];
    }

    /** The holder of a buffer changes its contents. */
    method Fill(i: nat, data: Block)
      requires Valid() && i < NBUF && holds[i] > 0 && buf[i].valid && buf[i].dev == ROOTDEV
      modifies this`buf, this`dirty
      ensures Valid() && buf == old(buf)[i := old(buf)[i].(data := data)] && dirty == old(dirty) + {i}
      ensures forall c :: c in disk ==> Sees(c) == if c == buf[i].blockno then data else old(Sees(c))
    {
      buf := buf[i := buf[i].(data := data)];
      dirty := dirty + {i};
    }

    /** bwrite() */
    method Bwrite(i: nat)
      requires Valid() && i < NBUF && holds[i] > 0 && buf[i].valid && buf[i].dev == ROOTDEV
      modifies this`disk, this`history, this`dirty
      ensures Valid() && dirty == old(dirty) - {i}
      ensures disk == old(disk)[buf[i].blockno := buf[i].data]
      ensures history == old(history) + [Write(buf[i].blockno, buf[i].data)]
      ensures forall c :: c in disk ==> Sees(c) == old(Sees(c))
    {
      disk := disk[buf[i].blockno := buf[i].data];
      history := history + [Write(buf[i].blockno, buf[i].data)];
      dirty := dirty - {i};
    }

    /** memmove() into a held buffer, then bwrite(). */
    method Store(i: nat, data: Block)
      requires Valid() && i < NBUF && holds[i] > 0 && buf[i].valid && buf[i].dev == ROOTDEV
      modifies this`buf, this`disk, this`history, this`dirty
      ensures Valid() && buf == old(buf)[i := old(buf)[i].(data := data)] && dirty == old(dirty) - {i}
      ensures disk == old(disk)[buf[i].blockno := data]
      ensures history == old(history) + [Write(buf[i].blockno, data)]
      ensures forall c :: c in disk ==> Sees(c) == if c == buf[i].blockno then data else old(Sees(c))
    {
      Fill(i, data);
      Bwrite(i);
    }

    /** brelse(): the cache stays coherent unless the last reference to a changed, unwritten buffer goes. */
    method Brelse(i: nat)
      requires Valid() && i < NBUF && holds[i] > 0
      modifies this`buf, this`holds, this`next, this`prev, this`order
      ensures buf == old(buf)[i := old(buf)[i].(refcnt := old(buf)[i].refcnt - 1)]
      ensures Ring(next, prev, order) && Placed(buf, slot) && Counted(buf, holds, pins)
      ensures Valid() <==> (i in dirty ==> buf[i].refcnt > 0)
      ensures holds == old(holds)[i := old(holds)[i] - 1]
      ensures buf[i].refcnt > 0 ==> order == old(order)
      ensures buf[i].refcnt == 0 ==> exists k :: 0 <= k < NBUF && old(order)[k] == i && order == ToFront(old(order), k)
      ensures forall c :: c in disk ==> View(buf, slot, disk, c) == old(Sees(c))
    {
      hide Ring, Placed, Coherent, View, ToFront;
      RefDropped(buf, slot, disk, dirty, i);
      buf := buf[i := buf[i].(refcnt := buf[i].refcnt - 1)];
      holds := holds[i := holds[i] - 1];
      if buf[i].refcnt == 0 {
        Relink(i);
      }
    }

    /** Move a buffer to the most recently used end. */
    method Relink(i: nat)
      requires Ring(next, prev, order) && i < NBUF
      modifies this`next, this`prev, this`order
      ensures Ring(next, prev, order)
      ensures exists k :: 0 <= k < NBUF && old(order)[k] == i && order == ToFront(old(order), k)
    {
      assert i in order;
      ghost var k :| 0 <= k < NBUF && order[k] == i;
      MoveToFront(next, prev, order, k);
      ghost var n0, p0, o0 := next, prev, order;
      prev := prev[next[i] := prev[i]];
      next := next[prev[i] := next[i]];
      next := next[i := next[HEAD]];
      prev := prev[i := HEAD];
      prev := prev[next[HEAD] := i];
      next := next[HEAD := i];
      order := ToFront(order, k);
      assert next == NextAfterMove(n0, p0, i);
      assert prev == PrevAfterMove(n0, p0, i);
    }

    method Bpin(i: nat)
      requires Valid() && i < NBUF && holds[i] > 0
      modifies this`buf, this`pins
      ensures Valid() && buf == old(buf)[i := old(buf)[i].(refcnt := old(buf)[i].refcnt + 1)]
      ensures pins == old(pins)[i := old(pins)[i] + 1]
      ensures forall c :: c in disk ==> Sees(c) == old(Sees(c))
    {
      buf := buf[i := buf[i].(refcnt := buf[i].refcnt + 1)];
      pins := pins[i := pins[i] + 1];
    }

    /** bunpin(), with the same condition as brelse(). */
    method Bunpin(i: nat)
      requires Valid() && i < NBUF && pins[i] > 0
      modifies this`buf, this`pins
      ensures buf == old(buf)[i := old(buf)[i].(refcnt := old(buf)[i].refcnt - 1)]
      ensures Ring(next, prev, order) && Placed(buf, slot) && Counted(buf, holds, pins)
      ensures Valid() <==> (i in dirty ==> buf[i].refcnt > 0)
      ensures pins == old(pins)[i := old(pins)[i] - 1]
      ensures forall c :: c in disk ==> View(buf, slot, disk, c) == old(Sees(c))
    {
      hide Ring, Placed, Coherent, View;
      RefDropped(buf, slot, disk, dirty, i);
      buf := buf[i := buf[i].(refcnt := buf[i].refcnt - 1)];
      pins := pins[i := pins[i] - 1];
    }
  }
}
