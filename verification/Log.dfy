/**
 The transaction log: reservation by begin_op()/end_op(), absorption by
 log_write(), and commit() through the buffer cache.
 */
module Log {
  import opened Blocks
  import opened RedoLog
  import opened Bio
  import opened Counting
  import opened Reservation
  import CrashRuns

  /** Exactly the logged blocks are pinned, once each. */
  ghost predicate Pinned(buf: seq<Buf>, slot: map<nat, nat>, pins: seq<nat>, lh: seq<U32>) {
    && |buf| == |pins| == NBUF && Placed(buf, slot)
    && (forall t :: 0 <= t < |lh| ==> lh[t] in slot && buf[slot[lh[t]]].valid && pins[slot[lh[t]]] == 1)
    && (forall i :: 0 <= i < NBUF && pins[i] > 0 ==> buf[i].dev == ROOTDEV && buf[i].blockno in lh)
  }

  ghost predicate NoneHeld(holds: seq<nat>) {
    |holds| == NBUF && forall i :: 0 <= i < NBUF ==> holds[i] == 0
  }

  /** Every buffer is held or pinned, so bget() cannot take one for another block. */
  ghost predicate Full(holds: seq<nat>, pins: seq<nat>) {
    |holds| == |pins| == NBUF && forall i :: 0 <= i < NBUF ==> holds[i] + pins[i] > 0
  }

  ghost function Slots(slot: map<nat, nat>, lh: seq<U32>): (f: seq<nat>)
    requires forall t :: 0 <= t < |lh| ==> lh[t] in slot
  {
    seq(|lh|, t requires 0 <= t < |lh| => slot[lh[t]])
  }

  /** A log shorter than the cache leaves some buffer unpinned. */
  lemma SomeUnpinned(buf: seq<Buf>, slot: map<nat, nat>, pins: seq<nat>, lh: seq<U32>)
    requires Pinned(buf, slot, pins, lh) && |lh| < NBUF
    ensures exists i :: 0 <= i < NBUF && pins[i] == 0
  {
    if forall i :: 0 <= i < NBUF ==> pins[i] > 0 {
      var f := Slots(slot, lh);
      forall i | i in Below(NBUF)
        ensures i in Elements(f)
      {
        assert buf[i].blockno in lh;
        var t :| 0 <= t < |lh| && lh[t] == buf[i].blockno;
        assert f[t] == i;
      }
      SubsetSize(Below(NBUF), Elements(f));
    }
  }

  /** A log as long as the cache pins every buffer. */
  lemma AllPinned(buf: seq<Buf>, slot: map<nat, nat>, pins: seq<nat>, lh: seq<U32>, i: nat)
    requires Pinned(buf, slot, pins, lh) && |lh| == NBUF && Distinct(lh) && i < NBUF
    ensures pins[i] > 0 && buf[i].blockno in lh
  {
    var f := Slots(slot, lh);
    forall t, u | 0 <= t < u < |f|
      ensures f[t] != f[u]
    {
      assert buf[f[t]].blockno == lh[t] && buf[f[u]].blockno == lh[u];
    }
    InjectiveOnto(f, NBUF, i);
    var t :| 0 <= t < |f| && f[t] == i;
    assert pins[slot[lh[t]]] == 1;
  }

  lemma KeptPinned(buf: seq<Buf>, slot: map<nat, nat>, buf': seq<Buf>, slot': map<nat, nat>, pins: seq<nat>, lh: seq<U32>)
    requires Pinned(buf, slot, pins, lh) && Kept(buf, slot, buf', slot')
    requires forall i :: 0 <= i < NBUF && pins[i] > 0 ==> buf[i].refcnt > 0
    ensures Pinned(buf', slot', pins, lh)
  {
    hide View, Ring;
    forall i | 0 <= i < NBUF && pins[i] > 0
      ensures buf'[i].dev == ROOTDEV && buf'[i].blockno in lh
    {
      var c := buf[i].blockno;
      assert c in lh && slot[c] == i;
      var t :| 0 <= t < |lh| && lh[t] == c;
      assert c in slot' && slot'[c] == i;
    }
  }

  ghost function Viewed(buf: seq<Buf>, slot: map<nat, nat>, disk: Disk, lh: seq<U32>): (vals: seq<Block>)
    requires Placed(buf, slot) && forall t :: 0 <= t < |lh| ==> lh[t] in disk
  {
    seq(|lh|, t requires 0 <= t < |lh| => View(buf, slot, disk, lh[t]))
  }

  /** The loop of write_head(). */
  method FormatHead(was: Block, lh: seq<U32>) returns (hb: Block)
    requires |lh| <= LOGSIZE
    ensures hb == Head(was, lh)
    ensures WellFormedHead(hb) && HeadOf(hb) == lh
  {
    hb := PutWord(was, 0, |lh|);
    for k := 0 to |lh|
      invariant hb == PutWords(was, 0, [|lh|] + lh[..k])
    {
      PutWordsAppend(was, 0, [|lh|] + lh[..k], lh[k]);
      assert [|lh|] + lh[..k] + [lh[k]] == [|lh|] + lh[..k + 1];
      hb := PutWord(hb, 1 + k, lh[k]);
    }
    assert lh[..|lh|] == lh;
    HeadRoundTrip(was, lh);
  }

  /** The loop of read_head(). */
  method ParseHead(hb: Block) returns (lh: seq<U32>)
    requires WellFormedHead(hb)
    ensures lh == HeadOf(hb)
  {
    lh := [];
    for i := 0 to Word(hb, 0)
      invariant lh == HeadOf(hb)[..i]
    {
      lh := lh + [Word(hb, 1 + i)];
    }
  }

  ghost predicate Caches(b: Buf, x: nat) { b.dev == ROOTDEV && b.blockno == x && b.valid }

  ghost predicate SameButCounts(buf: seq<Buf>, buf': seq<Buf>) {
    |buf| == |buf'| && forall k :: 0 <= k < |buf| ==> buf'[k] == buf[k].(refcnt := buf'[k].refcnt)
  }

  lemma KeptCaches(buf: seq<Buf>, slot: map<nat, nat>, buf': seq<Buf>, slot': map<nat, nat>, x: nat)
    requires Kept(buf, slot, buf', slot')
    requires x in slot && buf[slot[x]].refcnt > 0 && buf[slot[x]].valid
    ensures x in slot' && slot'[x] == slot[x] && Caches(buf'[slot'[x]], x) && buf'[slot'[x]].data == buf[slot[x]].data
  {
  }

  /** Pinning a cached block that is not in the log yet; a logged one is pinned already. */
  lemma PinOne(buf: seq<Buf>, slot: map<nat, nat>, pins: seq<nat>, lh: seq<U32>, i: nat)
    requires Pinned(buf, slot, pins, lh) && i < NBUF && buf[i].dev == ROOTDEV && buf[i].valid
    requires buf[i].blockno < 0x1_0000_0000
    ensures buf[i].blockno in lh ==> pins[i] == 1
    ensures buf[i].blockno !in lh ==>
              && pins[i] == 0
              && Pinned(buf[i := buf[i].(refcnt := buf[i].refcnt + 1)], slot, pins[i := 1], lh + [buf[i].blockno])
  {
    if buf[i].blockno in lh {
      var t :| 0 <= t < |lh| && lh[t] == buf[i].blockno;
    }
  }

  lemma PinnedData(buf: seq<Buf>, slot: map<nat, nat>, pins: seq<nat>, lh: seq<U32>, i: nat, data: Block)
    requires Pinned(buf, slot, pins, lh) && i < NBUF
    ensures Pinned(buf[i := buf[i].(data := data)], slot, pins, lh)
  {
  }

  lemma PinnedCounts(buf: seq<Buf>, buf': seq<Buf>, slot: map<nat, nat>, pins: seq<nat>, lh: seq<U32>)
    requires Pinned(buf, slot, pins, lh) && SameButCounts(buf, buf')
    ensures Pinned(buf', slot, pins, lh)
  {
  }

  lemma PlacedAt(buf: seq<Buf>, slot: map<nat, nat>, x: nat)
    requires Placed(buf, slot) && x in slot
    ensures slot[x] < NBUF && buf[slot[x]].dev == ROOTDEV && buf[slot[x]].blockno == x
  {
  }

  lemma OtherSlot(buf: seq<Buf>, slot: map<nat, nat>, x: nat, y: nat)
    requires Placed(buf, slot) && x in slot && y in slot && x != y
    ensures slot[x] != slot[y]
  {
  }

  /** With fewer pins a cache that is full now was full before. */
  lemma FullLess(holds: seq<nat>, pins: seq<nat>, pins': seq<nat>)
    requires |pins| == |pins'| && forall k :: 0 <= k < |pins| ==> pins'[k] <= pins[k]
    ensures Full(holds, pins') ==> Full(holds, pins)
  {
  }

  /**
   commit() needs no buffer, or can take one, or, with every buffer in use, finds
   the header and each log block it writes in a buffer that somebody else holds.
   */
  ghost predicate Commits(area: Area, lh: seq<U32>, slot: map<nat, nat>, holds: seq<nat>, pins: seq<nat>) {
    || lh == [] || !Full(holds, pins)
    || (area.start in slot && forall t :: 0 <= t < |lh| ==> area.Slot(t) in slot)
  }

  class Log {
    const bc: Bcache
    const area: Area
    var lh: seq<U32>
    var outstanding: nat
    var committing: bool

    ghost var open: seq<set<nat>> // blocks logged by each operation in progress

    /** initlog(), before recovery. */
    constructor (bc: Bcache, area: Area)
      ensures this.bc == bc && this.area == area && Books() == EMPTY && outstanding == 0
    {
      this.bc := bc;
      this.area := area;
      lh, outstanding, committing := [], 0, false;
      open := [];
    }

    ghost function Books(): (s: Ledger)
      reads this
    {
      Ledger(lh, open, committing)
    }

    ghost predicate Reserved()
      reads this
    {
      Within(Books()) && outstanding == |open| && |lh| < area.size
    }

    /** The cache, the log area and the pins fit `pinned`; only the buffers in `out` may be changed and not yet pinned. */
    ghost predicate SettledBut(pinned: seq<U32>, out: set<nat>)
      reads bc
    {
      && bc.Valid() && Pinned(bc.buf, bc.slot, bc.pins, pinned)
      && (forall k :: k in bc.dirty ==> bc.pins[k] > 0 || k in out)
      && (forall t :: 0 <= t < |pinned| ==> pinned[t] in bc.disk && !area.Has(pinned[t]))
      && (forall b :: area.Has(b) ==> b in bc.disk)
    }

    /** Every changed buffer is pinned; anybody may hold buffers. */
    ghost predicate Settled(pinned: seq<U32>)
      reads bc
    {
      SettledBut(pinned, {})
    }

    /** What every call keeps: the reservation, the pins, and on disk an empty log. */
    ghost predicate Valid()
      reads this, bc
    {
      Reserved() && Settled(lh) && Quiet(bc.disk, area)
    }

    /** When nothing is open the invariant is all that commit() needs. */
    lemma ValidLoggable()
      requires Valid()
      ensures Settled(lh) && Loggable(bc.disk, area, lh) && bc.Valid() && area.start in bc.disk
    {
      FullOnly(Books());
    }

    lemma FullOnly(s: Ledger)
      requires Within(s)
      ensures |s.lh| <= LOGSIZE && Distinct(s.lh)
    {
      SlackBounds(s.open);
    }

    /** One test of begin_op()'s loop; false means the caller sleeps. */
    method BeginOp() returns (admitted: bool)
      requires Valid()
      modifies this`outstanding, this`open
      ensures Valid()
      ensures admitted <==> !committing && |lh| + MAXOPBLOCKS * (|old(open)| + 1) <= LOGSIZE
      ensures admitted ==> Do(old(Books()), area.size, Begin) == Next(Books()) && open == old(open) + [{}]
      ensures !admitted ==> Do(old(Books()), area.size, Begin) == Sleep && Books() == old(Books())
    {
      hide SettledBut, Quiet;
      StepWithin(Books(), area.size, Begin);
      if committing {
        return false;
      } else if |lh| + (outstanding + 1) * MAXOPBLOCKS > LOGSIZE {
        return false;
      }
      outstanding := outstanding + 1;
      open := open + [{}];
      return true;
    }

    /** The first half of end_op(): the last operation to leave must commit. */
    method LeaveOp(ghost op: nat) returns (doCommit: bool)
      requires Valid() && op < |open|
      modifies this`outstanding, this`open, this`committing
      ensures Valid() && Do(old(Books()), area.size, End(op)) == Next(Books())
      ensures doCommit <==> open == []
      ensures doCommit <==> committing
    {
      hide SettledBut, Quiet;
      StepWithin(Books(), area.size, End(op));
      outstanding := outstanding - 1;
      open := open[..op] + open[op + 1..];
      doCommit := outstanding == 0;
      if doCommit {
        committing := true;
      }
    }

    /** The second half: commit(), then operations may begin again. False is a panic inside commit(). */
    method CommitAndReopen() returns (ok: bool, ghost done: nat)
      requires Valid() && committing
      modifies this`lh, this`committing, bc
      ensures bc.holds == old(bc.holds)
      ensures ok <==> old(CanCommit())
      ensures ok ==> Valid() && Do(old(Books()), area.size, Committed) == Next(Books())
      ensures Progress(old(bc.disk), old(bc.history), old(lh), old(Contents()), done)
      ensures ok ==> done == |CommitPlan(old(bc.disk)[area.start], area, old(lh), old(Contents()))|
      ensures !ok ==> Books() == old(Books()) && done <= |lh|
      ensures bc.Valid() && forall c :: c in old(bc.disk) && !area.Has(c) ==> c in bc.disk && bc.Sees(c) == old(bc.Sees(c))
      ensures ok ==> forall c :: c in bc.disk && !area.Has(c) ==> bc.disk[c] == bc.Sees(c)
    {
      hide SettledBut, Quiet, CommitPlan, Apply, View, Commits;
      ValidLoggable();
      StepWithin(Books(), area.size, Committed);
      CommitsQuiet(bc.disk, lh, Contents());
      PlanAll(bc.disk[area.start], lh, Contents());
      ok, done := Commit();
      if ok {
        committing := false;
      }
    }

    /** end_op() as a whole. */
    method EndOp(ghost op: nat) returns (ok: bool)
      requires Valid() && op < |open|
      modifies this`outstanding, this`open, this`committing, this`lh, bc
      ensures ok <==> |old(open)| > 1 || old(CanCommit())
      ensures ok ==> Valid() && !committing && outstanding == old(outstanding) - 1
      ensures ok && |old(open)| > 1 ==> Books() == old(Books()).(open := old(open)[..op] + old(open)[op + 1..]) && unchanged(bc)
      ensures ok && |old(open)| == 1 ==> Books() == EMPTY
      ensures ok && |old(open)| == 1 ==>
                forall c :: c in old(bc.disk) && !area.Has(c) ==> c in bc.disk && bc.disk[c] == bc.Sees(c) == old(bc.Sees(c))
    {
      hide SettledBut, Quiet, CommitPlan, Apply, View, Within, Commits;
      var doCommit := LeaveOp(op);
      ok := true;
      if doCommit {
        ghost var done;
        ok, done := CommitAndReopen();
      }
    }

    /** The loop of log_write(): where block b is, or where it would go. */
    method Search(b: U32) returns (i: nat)
      ensures i <= |lh| && (i < |lh| ==> lh[i] == b)
      ensures b in lh <==> i < |lh|
    {
      i := 0;
      while i < |lh|
        invariant 0 <= i <= |lh| && b !in lh[..i]
      {
        if lh[i] == b {
          return;
        }
        i := i + 1;
      }
    }

    /**
     log_write() of held buffer i, perhaps just changed, by operation op: false is
     the panic. The buffer is pinned when its block is new to the log, so brelse()
     after it cannot lose the change.
     */
    method LogWrite(i: nat, ghost op: nat) returns (ok: bool)
      requires Reserved() && SettledBut(lh, {i}) && Quiet(bc.disk, area)
      requires i < NBUF && bc.holds[i] > 0 && bc.buf[i].valid && bc.buf[i].dev == ROOTDEV && !area.Has(bc.buf[i].blockno)
      requires bc.buf[i].blockno < 0x1_0000_0000 && Fair(Books(), Step.LogWrite(op, bc.buf[i].blockno))
      modifies this`lh, this`open, bc`buf, bc`pins
      ensures bc.Valid() && (ok ==> Valid())
      ensures var o := Do(old(Books()), area.size, Step.LogWrite(op, old(bc.buf[i].blockno)));
              if ok then o == Next(Books()) else o == Panic && Books() == old(Books())
      ensures !ok <==> |old(lh)| + 1 >= area.size || (|old(lh)| == LOGSIZE && old(bc.buf[i].blockno) in old(lh))
      ensures ok ==> bc.pins[i] == 1
      ensures SameButCounts(old(bc.buf), bc.buf)
      ensures forall c :: c in bc.disk ==> bc.Sees(c) == old(bc.Sees(c))
    {
      hide Ring, Placed, Pinned, View, Within, Slack, Quiet;
      var b := bc.buf[i].blockno;
      StepWithin(Books(), area.size, Step.LogWrite(op, b));
      FullOnly(Books());
      assert b in bc.disk;
      hide Coherent;
      if |lh| >= LOGSIZE || |lh| >= area.size - 1 {
        return false;
      }
      Record(i, b);
      open := open[op := open[op] + {b as nat}];
      ok := true;
    }

    /** A transaction's change to a block: the buffer it holds, then log_write(). */
    method Update(i: nat, data: Block, ghost op: nat) returns (ok: bool)
      requires Valid() && i < NBUF && bc.holds[i] > 0 && bc.buf[i].valid && bc.buf[i].dev == ROOTDEV && !area.Has(bc.buf[i].blockno)
      requires bc.buf[i].blockno < 0x1_0000_0000 && Fair(Books(), Step.LogWrite(op, bc.buf[i].blockno))
      modifies this`lh, this`open, bc`buf, bc`pins, bc`dirty
      ensures ok ==> Valid()
      ensures !ok <==> |old(lh)| + 1 >= area.size || (|old(lh)| == LOGSIZE && old(bc.buf[i].blockno) in old(lh))
      ensures ok ==> Do(old(Books()), area.size, Step.LogWrite(op, old(bc.buf[i].blockno))) == Next(Books())
      ensures bc.Valid() && forall c :: c in bc.disk ==> bc.Sees(c) == if c == old(bc.buf[i].blockno) then data else old(bc.Sees(c))
    {
      hide Ring, Placed, Coherent, Pinned, View, Within, Quiet;
      PinnedData(bc.buf, bc.slot, bc.pins, lh, i, data);
      bc.Fill(i, data);
      ok := LogWrite(i, op);
    }

    /** bread() by anybody, in an operation or not; -1 is bget()'s panic. */
    method Read(b: nat) returns (i: int)
      requires Valid() && b in bc.disk
      modifies bc`buf, bc`slot, bc`holds
      ensures Valid() && (i < 0 <==> old(b !in bc.slot) && Full(old(bc.holds), bc.pins))
      ensures i < 0 ==> unchanged(bc)
      ensures i >= 0 ==> i < NBUF && Caches(bc.buf[i], b) && bc.holds == old(bc.holds)[i := old(bc.holds)[i] + 1]
      ensures forall c :: c in bc.disk ==> bc.Sees(c) == old(bc.Sees(c))
    {
      hide Ring, Placed, Coherent, View, Within, Quiet, Pinned, Bio.Kept;
      i := bc.Bread(b);
      if i >= 0 {
        PinnedReferenced();
        KeptPinned(old(bc.buf), old(bc.slot), bc.buf, bc.slot, bc.pins, lh);
        PlacedAt(bc.buf, bc.slot, b);
      }
    }

    /** brelse() by anybody. */
    method Release(i: nat)
      requires Valid() && i < NBUF && bc.holds[i] > 0
      modifies bc`buf, bc`holds, bc`next, bc`prev, bc`order
      ensures Valid() && bc.holds == old(bc.holds)[i := old(bc.holds)[i] - 1]
      ensures SameButCounts(old(bc.buf), bc.buf)
      ensures forall c :: c in bc.disk ==> bc.Sees(c) == old(bc.Sees(c))
    {
      hide Ring, Placed, Coherent, View, Within, Quiet, Pinned;
      bc.Brelse(i);
      PinnedCounts(old(bc.buf), bc.buf, bc.slot, bc.pins, lh);
    }

    /** Absorb block b, or append it and pin its buffer. */
    method Record(i: nat, b: U32)
      requires bc.Valid() && Pinned(bc.buf, bc.slot, bc.pins, lh)
      requires i < NBUF && bc.holds[i] > 0 && Caches(bc.buf[i], b)
      modifies this`lh, bc`buf, bc`pins
      ensures bc.Valid() && Pinned(bc.buf, bc.slot, bc.pins, lh) && bc.pins[i] == 1
      ensures forall k :: 0 <= k < NBUF ==> bc.pins[k] >= old(bc.pins[k])
      ensures lh == if b in old(lh) then old(lh) else old(lh) + [b]
      ensures SameButCounts(old(bc.buf), bc.buf)
      ensures forall c :: c in bc.disk ==> bc.Sees(c) == old(bc.Sees(c))
    {
      hide Ring, Placed, Coherent, Pinned, View;
      var k := Search(b);
      PinOne(bc.buf, bc.slot, bc.pins, lh, i);
      if k == |lh| {
        bc.Bpin(i);
        lh := lh + [b];
      } else {
        assert lh[k := b] == lh;
        lh := lh[k := b];
      }
    }

    lemma UnpinnedClean(pinned: seq<U32>, c: nat)
      requires Settled(pinned) && c in bc.disk && c !in pinned
      ensures bc.Sees(c) == bc.disk[c]
      ensures c in bc.slot ==> bc.slot[c] !in bc.dirty && bc.pins[bc.slot[c]] == 0
    {
    }

    lemma PinnedReferenced()
      requires bc.Valid()
      ensures forall i :: 0 <= i < NBUF && bc.pins[i] > 0 ==> bc.buf[i].refcnt > 0
      ensures Full(bc.holds, bc.pins) <==> bc.AllBusy()
    {
    }

    // ------------------------------------------------------------ when commit() works

    /** commit() finds the buffers it needs. */
    ghost predicate CanCommit()
      reads this`lh, bc
    {
      Commits(area, lh, bc.slot, bc.holds, bc.pins)
    }

    /** Without readers, exactly a log as long as the cache cannot be committed. */
    lemma CanCommitAlone()
      requires Settled(lh) && Loggable(bc.disk, area, lh) && NoneHeld(bc.holds)
      ensures CanCommit() <==> |lh| < NBUF
    {
      if |lh| < NBUF {
        SomeUnpinned(bc.buf, bc.slot, bc.pins, lh);
      } else {
        forall i | 0 <= i < NBUF
          ensures bc.pins[i] > 0 && bc.buf[i].blockno in lh
        {
          AllPinned(bc.buf, bc.slot, bc.pins, lh, i);
        }
        assert area.Has(area.start) && (area.start in bc.slot ==> area.start in lh);
      }
    }

    /** With readers, any log whose blocks and theirs fill the cache cannot, unless they hold the log's own blocks. */
    lemma CannotCommit(b: nat)
      requires bc.Valid() && lh != [] && Full(bc.holds, bc.pins) && area.size > |lh|
      requires area.Has(b) && b <= area.start + |lh| && b !in bc.slot
      ensures !CanCommit()
    {
      if b > area.start { assert area.Slot(b - area.start - 1) == b; }
    }

    // ------------------------------------------------------------------- one round

    /** Buffers i and j are held once more than in `held`, for blocks x and y. */
    ghost predicate TwoHeld(i: int, j: int, x: nat, y: nat, pinned: seq<U32>, held: seq<nat>)
      reads bc
    {
      && bc.Valid() && Pinned(bc.buf, bc.slot, bc.pins, pinned)
      && (forall k :: k in bc.dirty ==> bc.pins[k] > 0)
      && |held| == NBUF && 0 <= i < NBUF && 0 <= j < NBUF && i != j
      && bc.holds == held[i := held[i] + 1][j := held[j] + 1]
      && x in bc.slot && bc.slot[x] == i && Caches(bc.buf[i], x)
      && y in bc.slot && bc.slot[y] == j && Caches(bc.buf[j], y)
    }

    ghost predicate OneHeld(i: int, x: nat, pinned: seq<U32>, held: seq<nat>)
      reads bc
    {
      && bc.Valid() && Pinned(bc.buf, bc.slot, bc.pins, pinned)
      && (forall k :: k in bc.dirty ==> bc.pins[k] > 0)
      && |held| == NBUF && 0 <= i < NBUF
      && bc.holds == held[i := held[i] + 1]
      && x in bc.slot && bc.slot[x] == i && Caches(bc.buf[i], x)
    }

    /** bread() of a block that is not pinned fails exactly when it is not cached and no buffer is free. */
    method ReadFirst(x: nat, ghost pinned: seq<U32>) returns (i: int)
      requires Settled(pinned) && x in bc.disk && x !in pinned
      modifies bc`buf, bc`slot, bc`holds
      ensures i < 0 <==> old(x !in bc.slot) && Full(old(bc.holds), bc.pins)
      ensures i < 0 ==> unchanged(bc)
      ensures i >= 0 ==> OneHeld(i, x, pinned, old(bc.holds)) && bc.buf[i].data == old(bc.Sees(x))
      ensures i >= 0 && old(x in bc.slot) ==> bc.slot == old(bc.slot)
      ensures forall c :: c in bc.disk ==> bc.Sees(c) == old(bc.Sees(c))
    {
      hide Ring, Coherent, Pinned, View, Bio.Kept;
      PinnedReferenced();
      i := bc.Bread(x);
      if i >= 0 {
        KeptPinned(old(bc.buf), old(bc.slot), bc.buf, bc.slot, bc.pins, pinned);
      }
    }

    lemma ReadyForSecond(i: int, x: nat, y: nat, pinned: seq<U32>, held: seq<nat>)
      requires OneHeld(i, x, pinned, held) && (y in pinned || (pinned == [] && NoneHeld(held)))
      ensures y in bc.slot || !bc.AllBusy()
      ensures y in pinned ==> y in bc.slot
      ensures bc.buf[i].refcnt > 0
    {
      if pinned == [] {
        assert bc.buf[0].refcnt == 0 || bc.buf[1].refcnt == 0;
      }
    }

    /** bread() of the home block while the log block is held. */
    method ReadSecond(i: int, x: nat, y: nat, ghost pinned: seq<U32>, ghost held: seq<nat>) returns (j: int)
      requires OneHeld(i, x, pinned, held)
      requires y in bc.disk && x != y && (y in pinned || (pinned == [] && NoneHeld(held)))
      modifies bc`buf, bc`slot, bc`holds
      ensures TwoHeld(i, j, x, y, pinned, held)
      ensures bc.buf[i].data == old(bc.buf[i].data) && bc.buf[j].data == old(bc.Sees(y))
      ensures y in pinned ==> bc.slot == old(bc.slot)
      ensures forall c :: c in bc.disk ==> bc.Sees(c) == old(bc.Sees(c))
    {
      hide Ring, Placed, Coherent, Pinned, View, Bio.Kept;
      ReadyForSecond(i, x, y, pinned, held);
      PinnedReferenced();
      j := bc.Bread(y);
      KeptPinned(old(bc.buf), old(bc.slot), bc.buf, bc.slot, bc.pins, pinned);
      KeptCaches(old(bc.buf), old(bc.slot), bc.buf, bc.slot, x);
      PlacedAt(bc.buf, bc.slot, y);
      OtherSlot(bc.buf, bc.slot, x, y);
    }

    /** The two brelse() calls at the end of a round. */
    method ReleaseBoth(i: nat, j: nat, ghost held: seq<nat>)
      requires bc.Valid() && |held| == NBUF && i < NBUF && j < NBUF && i != j
      requires bc.holds == held[i := held[i] + 1][j := held[j] + 1]
      requires forall k :: k in bc.dirty ==> bc.pins[k] > 0
      modifies bc`buf, bc`holds, bc`next, bc`prev, bc`order
      ensures bc.Valid() && bc.holds == held
      ensures SameButCounts(old(bc.buf), bc.buf)
      ensures forall c :: c in bc.disk ==> bc.Sees(c) == old(bc.Sees(c))
    {
      hide Ring, Placed, Coherent, View;
      bc.Brelse(i);
      bc.Brelse(j);
    }

    /** Copy into buffer i from j, write it, release both. */
    method CopyAndRelease(i: int, j: int, x: nat, y: nat, ghost pinned: seq<U32>, ghost held: seq<nat>)
      requires TwoHeld(i, j, x, y, pinned, held) && x !in pinned
      modifies bc`buf, bc`holds, bc`next, bc`prev, bc`order, bc`disk, bc`history, bc`dirty
      ensures bc.Valid() && bc.holds == held && Pinned(bc.buf, bc.slot, bc.pins, pinned)
      ensures forall k :: k in bc.dirty ==> bc.pins[k] > 0
      ensures bc.disk == old(bc.disk)[x := old(bc.buf[j].data)]
      ensures bc.history == old(bc.history) + [Write(x, old(bc.buf[j].data))]
      ensures forall c :: c in bc.disk ==> bc.Sees(c) == if c == x then old(bc.buf[j].data) else old(bc.Sees(c))
    {
      hide Ring, Placed, Coherent, Pinned, View;
      PinnedData(bc.buf, bc.slot, bc.pins, pinned, i, bc.buf[j].data);
      bc.Store(i, bc.buf[j].data);
      label Stored:
      assert held[i := held[i] + 1][j := held[j] + 1] == held[j := held[j] + 1][i := held[i] + 1];
      ReleaseBoth(j, i, held);
      PinnedCounts(old@Stored(bc.buf), bc.buf, bc.slot, bc.pins, pinned);
    }

    /** The same for a pinned home block y, which is unpinned in between. */
    method InstallAndRelease(i: int, j: int, y: U32, x: nat, ghost pinned: seq<U32>, ghost held: seq<nat>)
      requires TwoHeld(i, j, y, x, [y] + pinned, held) && x !in pinned && y !in pinned
      modifies bc`buf, bc`holds, bc`pins, bc`next, bc`prev, bc`order, bc`disk, bc`history, bc`dirty
      ensures bc.Valid() && bc.holds == held && Pinned(bc.buf, bc.slot, bc.pins, pinned)
      ensures forall k :: k in bc.dirty ==> bc.pins[k] > 0
      ensures forall k :: 0 <= k < NBUF ==> bc.pins[k] <= old(bc.pins[k])
      ensures bc.disk == old(bc.disk)[y := old(bc.buf[j].data)]
      ensures bc.history == old(bc.history) + [Write(y, old(bc.buf[j].data))]
      ensures forall c :: c in bc.disk ==> bc.Sees(c) == if c == y then old(bc.buf[j].data) else old(bc.Sees(c))
    {
      hide Ring, Placed, Coherent, Pinned, View;
      StoreAndUnpin(i, j, y, x, pinned, held);
      label Stored:
      assert held[i := held[i] + 1][j := held[j] + 1] == held[j := held[j] + 1][i := held[i] + 1];
      ReleaseBoth(j, i, held);
      PinnedCounts(old@Stored(bc.buf), bc.buf, bc.slot, bc.pins, pinned);
    }

    method StoreAndUnpin(i: int, j: int, y: U32, x: nat, ghost pinned: seq<U32>, ghost held: seq<nat>)
      requires TwoHeld(i, j, y, x, [y] + pinned, held) && x !in pinned && y !in pinned
      modifies bc`buf, bc`disk, bc`history, bc`dirty, bc`pins
      ensures bc.Valid() && Pinned(bc.buf, bc.slot, bc.pins, pinned)
      ensures forall k :: k in bc.dirty ==> bc.pins[k] > 0
      ensures forall k :: 0 <= k < NBUF ==> bc.pins[k] <= old(bc.pins[k])
      ensures bc.disk == old(bc.disk)[y := old(bc.buf[j].data)]
      ensures bc.history == old(bc.history) + [Write(y, old(bc.buf[j].data))]
      ensures forall c :: c in bc.disk ==> bc.Sees(c) == if c == y then old(bc.buf[j].data) else old(bc.Sees(c))
    {
      hide Ring, Placed, Pinned, View;
      PinnedData(bc.buf, bc.slot, bc.pins, [y] + pinned, i, bc.buf[j].data);
      bc.Store(i, bc.buf[j].data);
      Unpin(i, y, pinned);
    }

    method Unpin(j: nat, y: U32, ghost pinned: seq<U32>)
      requires bc.Valid() && Pinned(bc.buf, bc.slot, bc.pins, [y] + pinned) && y !in pinned
      requires y in bc.slot && bc.slot[y] == j && j !in bc.dirty
      modifies bc`buf, bc`pins
      ensures bc.Valid() && Pinned(bc.buf, bc.slot, bc.pins, pinned)
      ensures SameButCounts(old(bc.buf), bc.buf)
      ensures forall k :: 0 <= k < NBUF ==> bc.pins[k] <= old(bc.pins[k]) && (k != j ==> bc.pins[k] == old(bc.pins[k]))
      ensures forall c :: c in bc.disk ==> bc.Sees(c) == old(bc.Sees(c))
    {
      var lh := [y] + pinned;
      assert lh[0] == y;
      assert forall t :: 0 <= t < |pinned| ==> lh[1 + t] == pinned[t];
      bc.Bunpin(j);
    }

    /** One round of write_log(): the cached copy of a block goes to its log block. */
    method WriteLogBlock(tail: nat) returns (ok: bool)
      requires Settled(lh) && Loggable(bc.disk, area, lh) && tail < |lh|
      modifies bc
      ensures ok <==> old(area.Slot(tail) in bc.slot) || !Full(old(bc.holds), old(bc.pins))
      ensures !ok ==> unchanged(bc)
      ensures Settled(lh) && bc.holds == old(bc.holds) && bc.pins == old(bc.pins)
      ensures Full(bc.holds, bc.pins) ==> bc.slot == old(bc.slot)
      ensures ok ==> bc.disk == old(bc.disk)[area.Slot(tail) := old(bc.Sees(lh[tail]))]
      ensures ok ==> bc.history == old(bc.history) + [Write(area.Slot(tail), old(bc.Sees(lh[tail])))]
      ensures forall c :: c in bc.disk && c != area.Slot(tail) ==> bc.Sees(c) == old(bc.Sees(c))
    {
      hide Ring, Placed, Coherent, Pinned, View, Full;
      assert area.Has(area.Slot(tail));
      ghost var held := bc.holds;
      var to := ReadFirst(area.Slot(tail), lh);
      if to < 0 {
        return false;
      }
      var from := ReadSecond(to, area.Slot(tail), lh[tail], lh, held);
      CopyAndRelease(to, from, area.Slot(tail), lh[tail], lh, held);
      ok := true;
    }

    /** One round of install_trans(): a log block goes to its pinned home block. */
    method InstallBlock(tail: nat)
      requires tail < |lh| && Settled(lh[tail..]) && Loggable(bc.disk, area, lh)
      requires area.Slot(tail) in bc.slot || !Full(bc.holds, bc.pins)
      modifies bc
      ensures Settled(lh[tail + 1..]) && bc.holds == old(bc.holds)
      ensures Full(bc.holds, bc.pins) ==> bc.slot == old(bc.slot) && Full(old(bc.holds), old(bc.pins))
      ensures bc.disk == old(bc.disk)[lh[tail] := old(bc.disk)[area.Slot(tail)]]
      ensures bc.history == old(bc.history) + [Write(lh[tail], old(bc.disk)[area.Slot(tail)])]
      ensures forall c :: c in bc.disk && c != lh[tail] ==> bc.Sees(c) == old(bc.Sees(c))
    {
      hide Ring, Placed, Coherent, Pinned, View, Full;
      var x := area.Slot(tail);
      assert area.Has(x);
      UnpinnedClean(lh[tail..], x);
      ghost var held, pins0 := bc.holds, bc.pins;
      var lbuf := ReadFirst(x, lh[tail..]);
      var dbuf := ReadSecond(lbuf, x, lh[tail], lh[tail..], held);
      assert lh[tail..] == [lh[tail]] + lh[tail + 1..];
      SwapHeld(lbuf, dbuf, x, lh[tail], lh[tail..], held);
      InstallAndRelease(dbuf, lbuf, lh[tail], x, lh[tail + 1..], held);
      FullLess(held, pins0, bc.pins);
    }

    lemma SwapHeld(i: int, j: int, x: nat, y: nat, pinned: seq<U32>, held: seq<nat>)
      requires TwoHeld(i, j, x, y, pinned, held)
      ensures TwoHeld(j, i, y, x, pinned, held)
    {
      assert held[i := held[i] + 1][j := held[j] + 1] == held[j := held[j] + 1][i := held[i] + 1];
    }

    /** One round of install_trans() during recovery: nothing is held or pinned. */
    method RecoverBlock(tail: nat)
      requires tail < |lh| && Settled([]) && NoneHeld(bc.holds) && Loggable(bc.disk, area, lh)
      modifies bc
      ensures Settled([]) && NoneHeld(bc.holds)
      ensures bc.disk == old(bc.disk)[lh[tail] := old(bc.disk)[area.Slot(tail)]]
      ensures bc.history == old(bc.history) + [Write(lh[tail], old(bc.disk)[area.Slot(tail)])]
    {
      hide Ring, Placed, Coherent, Pinned, View;
      var x := area.Slot(tail);
      assert area.Has(x);
      UnpinnedClean([], x);
      ghost var held := bc.holds;
      NotFull();
      var lbuf := ReadFirst(x, []);
      var dbuf := ReadSecond(lbuf, x, lh[tail], [], held);
      SwapHeld(lbuf, dbuf, x, lh[tail], [], held);
      CopyAndRelease(dbuf, lbuf, lh[tail], x, [], held);
    }

    lemma NotFull()
      requires bc.Valid() && NoneHeld(bc.holds) && Pinned(bc.buf, bc.slot, bc.pins, [])
      ensures !Full(bc.holds, bc.pins)
    {
      assert bc.pins[0] == 0;
    }

    /** write_head(): the in-memory header goes over the first words of the header block. */
    method WriteHead(ghost pinned: seq<U32>) returns (ok: bool)
      requires Settled(pinned) && area.size > 0 && |lh| <= LOGSIZE
      modifies bc
      ensures ok <==> old(area.start in bc.slot) || !Full(old(bc.holds), old(bc.pins))
      ensures !ok ==> unchanged(bc)
      ensures Settled(pinned) && bc.holds == old(bc.holds) && bc.pins == old(bc.pins)
      ensures Full(bc.holds, bc.pins) ==> bc.slot == old(bc.slot)
      ensures bc.disk.Keys == old(bc.disk.Keys)
      ensures ok ==> bc.disk == old(bc.disk)[area.start := Head(old(bc.disk)[area.start], lh)]
      ensures ok ==> bc.history == old(bc.history) + [Write(area.start, Head(old(bc.disk)[area.start], lh))]
      ensures forall c :: c in bc.disk && c != area.start ==> bc.Sees(c) == old(bc.Sees(c))
    {
      hide Ring, Placed, Coherent, Pinned, View, Full, Head;
      assert area.Has(area.start);
      UnpinnedClean(pinned, area.start);
      ghost var held := bc.holds;
      var i := ReadFirst(area.start, pinned);
      if i < 0 {
        return false;
      }
      var hb := FormatHead(bc.buf[i].data, lh);
      StoreAndRelease(i, area.start, hb, pinned, held);
      ok := true;
    }

    /** Change the one held buffer, write it and release it. */
    method StoreAndRelease(i: nat, x: nat, data: Block, ghost pinned: seq<U32>, ghost held: seq<nat>)
      requires OneHeld(i, x, pinned, held) && x !in pinned
      modifies bc`buf, bc`holds, bc`next, bc`prev, bc`order, bc`disk, bc`history, bc`dirty
      ensures bc.Valid() && bc.holds == held && Pinned(bc.buf, bc.slot, bc.pins, pinned)
      ensures forall k :: k in bc.dirty ==> bc.pins[k] > 0
      ensures bc.disk == old(bc.disk)[x := data] && bc.history == old(bc.history) + [Write(x, data)]
      ensures forall c :: c in bc.disk ==> bc.Sees(c) == if c == x then data else old(bc.Sees(c))
    {
      hide Ring, Placed, Coherent, Pinned, View;
      PinnedData(bc.buf, bc.slot, bc.pins, pinned, i, data);
      bc.Store(i, data);
      label Stored:
      bc.Brelse(i);
      PinnedCounts(old@Stored(bc.buf), bc.buf, bc.slot, bc.pins, pinned);
      assert held[i := held[i] + 1][i := held[i]] == held;
    }

    /** What commit() will log: the blocks as the file system sees them. */
    ghost function Contents(): (vals: seq<Block>)
      reads this, bc
      requires bc.Valid() && forall t :: 0 <= t < |lh| ==> lh[t] in bc.disk
    {
      Viewed(bc.buf, bc.slot, bc.disk, lh)
    }

    // ---------------------------------------------------------------------- commit

    /** The first n entries are in the log; nothing else on the disk has changed. */
    ghost predicate Logged(disk: Disk, history: seq<Write>, vals: seq<Block>, n: nat)
      reads bc
      requires n <= |vals|
    {
      && bc.disk == Apply(disk, LogPlan(area, vals)[..n])
      && bc.history == history + LogPlan(area, vals)[..n]
    }

    lemma LoggedOne(disk: Disk, disk': Disk, vals: seq<Block>, n: nat)
      requires n < |vals| && disk' == Apply(disk, LogPlan(area, vals)[..n])[area.Slot(n) := vals[n]]
      ensures disk' == Apply(disk, LogPlan(area, vals)[..n + 1])
      ensures LogPlan(area, vals)[..n + 1] == LogPlan(area, vals)[..n] + [Write(area.Slot(n), vals[n])]
    {
      assert LogPlan(area, vals)[..n + 1][..n] == LogPlan(area, vals)[..n];
    }

    lemma LoggedNone(vals: seq<Block>)
      ensures Logged(bc.disk, bc.history, vals, 0)
    {
    }

    /** write_log(): as far as it finds a buffer for the next log block. */
    method WriteLog(ghost vals: seq<Block>) returns (ok: bool, ghost n: nat)
      requires Settled(lh) && Loggable(bc.disk, area, lh) && vals == Contents()
      modifies bc
      ensures n <= |lh| && Settled(lh) && bc.holds == old(bc.holds) && bc.pins == old(bc.pins)
      ensures ok <==> !Full(old(bc.holds), old(bc.pins)) || forall t :: 0 <= t < |lh| ==> area.Slot(t) in old(bc.slot)
      ensures ok ==> n == |lh|
      ensures Full(bc.holds, bc.pins) ==> bc.slot == old(bc.slot)
      ensures Logged(old(bc.disk), old(bc.history), vals, n) && bc.disk.Keys == old(bc.disk.Keys)
      ensures forall c :: c in bc.disk && !area.Has(c) ==> bc.Sees(c) == old(bc.Sees(c))
    {
      hide Ring, Placed, Coherent, Pinned, View, LogPlan, Apply, Full;
      n := 0;
      LoggedNone(vals);
      var tail := 0;
      while tail < |lh|
        invariant 0 <= tail == n <= |lh|
        invariant Settled(lh) && bc.disk.Keys == old(bc.disk.Keys) && bc.holds == old(bc.holds) && bc.pins == old(bc.pins)
        invariant Logged(old(bc.disk), old(bc.history), vals, tail)
        invariant Full(bc.holds, bc.pins) ==> bc.slot == old(bc.slot)
        invariant !Full(bc.holds, bc.pins) || forall t :: 0 <= t < tail ==> area.Slot(t) in old(bc.slot)
        invariant forall c :: c in bc.disk && !area.Has(c) ==> bc.Sees(c) == old(bc.Sees(c))
      {
        ok := WriteLogBlock(tail);
        if !ok {
          return;
        }
        assert area.Has(area.Slot(tail));
        assert vals[tail] == old(bc.Sees(lh[tail]));
        LoggedOne(old(bc.disk), bc.disk, vals, tail);
        tail, n := tail + 1, n + 1;
      }
      ok := true;
    }

    /** The first n entries are at their home locations and no longer pinned. */
    ghost predicate Installed(disk: Disk, history: seq<Write>, vals: seq<Block>, n: nat)
      reads this, bc
      requires n <= |lh| == |vals|
    {
      && bc.disk == Apply(disk, InstallPlan(lh, vals)[..n])
      && bc.history == history + InstallPlan(lh, vals)[..n]
      && (forall t :: 0 <= t < |lh| ==> area.Slot(t) in bc.disk && bc.disk[area.Slot(t)] == vals[t])
    }

    lemma InstalledOne(disk: Disk, disk': Disk, vals: seq<Block>, n: nat)
      requires n < |lh| == |vals| && disk' == Apply(disk, InstallPlan(lh, vals)[..n])[lh[n] := vals[n]]
      ensures disk' == Apply(disk, InstallPlan(lh, vals)[..n + 1])
      ensures InstallPlan(lh, vals)[..n + 1] == InstallPlan(lh, vals)[..n] + [Write(lh[n], vals[n])]
    {
      assert InstallPlan(lh, vals)[..n + 1][..n] == InstallPlan(lh, vals)[..n];
    }

    /** install_trans(0): every logged block reaches its home location and is unpinned. */
    method InstallTrans(ghost vals: seq<Block>)
      requires Settled(lh) && Loggable(bc.disk, area, lh) && |vals| == |lh|
      requires !Full(bc.holds, bc.pins) || forall t :: 0 <= t < |lh| ==> area.Slot(t) in bc.slot
      requires forall t :: 0 <= t < |lh| ==> area.Slot(t) in bc.disk && bc.disk[area.Slot(t)] == vals[t]
      requires forall t :: 0 <= t < |lh| ==> bc.Sees(lh[t]) == vals[t]
      modifies bc
      ensures Settled([]) && Installed(old(bc.disk), old(bc.history), vals, |lh|) && bc.holds == old(bc.holds)
      ensures bc.disk.Keys == old(bc.disk.Keys)
      ensures Full(bc.holds, bc.pins) ==> bc.slot == old(bc.slot) && Full(old(bc.holds), old(bc.pins))
      ensures forall c :: c in old(bc.disk) && !area.Has(c) ==> c in bc.disk && bc.Sees(c) == old(bc.Sees(c))
    {
      hide Ring, Placed, Coherent, Pinned, View, InstallPlan, Apply, Full;
      var tail := 0;
      assert lh[0..] == lh;
      assert Installed(bc.disk, bc.history, vals, 0) by { InstalledNone(vals); }
      while tail < |lh|
        invariant 0 <= tail <= |lh|
        invariant Settled(lh[tail..]) && bc.disk.Keys == old(bc.disk.Keys) && bc.holds == old(bc.holds)
        invariant Full(bc.holds, bc.pins) ==> bc.slot == old(bc.slot) && Full(old(bc.holds), old(bc.pins))
        invariant Installed(old(bc.disk), old(bc.history), vals, tail)
        invariant forall c :: c in old(bc.disk) && !area.Has(c) ==> bc.Sees(c) == old(bc.Sees(c))
      {
        InstallBlock(tail);
        InstalledOne(old(bc.disk), bc.disk, vals, tail);
        UnpinnedClean(lh[tail + 1..], lh[tail]);
        assert forall t :: 0 <= t < |lh| ==> area.Has(area.Slot(t));
        tail := tail + 1;
      }
      assert lh[|lh|..] == [];
    }

    lemma InstalledNone(vals: seq<Block>)
      requires |lh| == |vals|
      requires forall t :: 0 <= t < |lh| ==> area.Slot(t) in bc.disk && bc.disk[area.Slot(t)] == vals[t]
      ensures Installed(bc.disk, bc.history, vals, 0)
    {
    }

    /** The disk has received the first n writes of the plan to commit `lh`, and nothing else. */
    ghost predicate Progress(disk: Disk, history: seq<Write>, lh: seq<U32>, vals: seq<Block>, n: nat)
      reads bc
    {
      && area.start in disk && |lh| == |vals| && |lh| <= LOGSIZE
      && var plan := CommitPlan(disk[area.start], area, lh, vals);
         n <= |plan| && bc.disk == Apply(disk, plan[..n]) && bc.history == history + plan[..n]
    }

    /**
     commit(): the disk goes through the writes of CommitPlan, in order, and ends
     with every block as the file system saw it. Readers may hold any buffers all
     the while; if they and the pins leave commit() without the buffers it needs,
     bget() panics before the header is written.
     */
    method Commit() returns (ok: bool, ghost done: nat)
      requires Settled(lh) && Loggable(bc.disk, area, lh)
      modifies this`lh, bc
      ensures bc.Valid() && bc.holds == old(bc.holds)
      ensures ok <==> old(CanCommit())
      ensures !ok ==> lh == old(lh) && Settled(lh) && done <= |lh|
      ensures ok ==> lh == [] && Settled([])
      ensures ok ==> done == |CommitPlan(old(bc.disk)[area.start], area, old(lh), old(Contents()))|
      ensures Progress(old(bc.disk), old(bc.history), old(lh), old(Contents()), done)
      ensures forall c :: c in old(bc.disk) && !area.Has(c) ==> c in bc.disk && bc.Sees(c) == old(bc.Sees(c))
      ensures ok ==> forall c :: c in bc.disk && !area.Has(c) ==> bc.disk[c] == bc.Sees(c)
    {
      hide Ring, Placed, Coherent, Pinned, View, Apply, LogPlan, InstallPlan, Full;
      done := 0;
      assert area.Has(area.start);
      if |lh| == 0 {
        forall c | c in bc.disk { UnpinnedClean([], c); }
        NoProgress(bc.disk[area.start]);
        return true, 0;
      }
      ghost var vals, lh0, d0, h0 := Contents(), lh, bc.disk, bc.history;
      ok, done := WriteLog(vals);
      LogProgress(d0, h0, vals, done);
      if !ok {
        return;
      }
      assert forall t :: 0 <= t < |lh| ==> bc.Sees(lh[t]) == vals[t];
      ok := CommitRest(d0, h0, vals);
      if ok {
        done := |CommitPlan(d0[area.start], area, lh0, vals)|;
        PlanAll(d0[area.start], lh0, vals);
      }
    }

    lemma NoProgress(h: Block)
      requires area.start in bc.disk && bc.disk[area.start] == h
      ensures Progress(bc.disk, bc.history, [], [], 0) && CommitPlan(h, area, [], []) == []
    {
    }

    lemma PlanAll(h: Block, lh: seq<U32>, vals: seq<Block>)
      requires |lh| == |vals| && |lh| <= LOGSIZE
      ensures var plan := CommitPlan(h, area, lh, vals); plan[..|plan|] == plan
    {
    }

    /** The log blocks are the first writes of the plan. */
    lemma LogProgress(disk: Disk, history: seq<Write>, vals: seq<Block>, n: nat)
      requires lh != [] && |lh| == |vals| && |lh| <= LOGSIZE && n <= |lh| && area.start in disk && Logged(disk, history, vals, n)
      ensures Progress(disk, history, lh, vals, n)
    {
      var plan := CommitPlan(disk[area.start], area, lh, vals);
      assert |LogPlan(area, vals)| == |lh|;
      assert plan[..n] == LogPlan(area, vals)[..n];
    }

    /** A completed commit leaves an empty log on disk. */
    lemma CommitsQuiet(d: Disk, lh: seq<U32>, vals: seq<Block>)
      requires Quiet(d, area) && Loggable(d, area, lh) && |vals| == |lh|
      ensures Quiet(Apply(d, CommitPlan(d[area.start], area, lh, vals)), area)
    {
      CrashRuns.CommitComplete(d, area, lh, vals);
    }

    /**
     Crash safety as the file system's users see it: stop the machine after
     any write of the coming commit() and recovery yields all blocks as they
     are on the disk now, or all blocks as the cache shows them now.
     */
    lemma CommitCrashPoint(k: nat)
      requires Settled(lh) && Loggable(bc.disk, area, lh) && Quiet(bc.disk, area)
      requires k <= |CommitPlan(bc.disk[area.start], area, lh, Contents())|
      ensures var e := Apply(bc.disk, CommitPlan(bc.disk[area.start], area, lh, Contents())[..k]);
              && ValidDisk(e, area)
              && if k <= |lh| then Durable(e, area) == Home(bc.disk, area)
                 else forall c :: c in bc.disk && !area.Has(c) ==> c in Durable(e, area) && Durable(e, area)[c] == bc.Sees(c)
    {
      hide Ring, Coherent, Pinned, Apply, InstallPlan, CommitPlan, Durable;
      var vals := Contents();
      CommitAtomic(bc.disk, area, lh, vals, k);
      forall c | c in bc.disk && !area.Has(c)
        ensures c in Apply(Home(bc.disk, area), InstallPlan(lh, vals))
        ensures Apply(Home(bc.disk, area), InstallPlan(lh, vals))[c] == bc.Sees(c)
      {
        InstalledAt(Home(bc.disk, area), lh, vals, c);
        if c in lh {
          var t :| 0 <= t < |lh| && lh[t] == c;
          assert vals[t] == bc.Sees(c);
        } else {
          UnpinnedClean(lh, c);
        }
      }
    }

    /** Header, installation and erasure, once the log blocks are written; fails, if at all, before the header. */
    method CommitRest(ghost disk: Disk, ghost history: seq<Write>, ghost vals: seq<Block>) returns (ok: bool)
      requires Settled(lh) && Loggable(disk, area, lh) && Loggable(bc.disk, area, lh) && lh != []
      requires !Full(bc.holds, bc.pins) || forall t :: 0 <= t < |lh| ==> area.Slot(t) in bc.slot
      requires |vals| == |lh| && area.start in disk && Logged(disk, history, vals, |lh|)
      requires forall t :: 0 <= t < |lh| ==> bc.Sees(lh[t]) == vals[t]
      modifies this`lh, bc
      ensures ok <==> !Full(old(bc.holds), old(bc.pins)) || old(area.start in bc.slot)
      ensures !ok ==> unchanged(bc) && lh == old(lh)
      ensures ok ==> lh == [] && Settled([]) && bc.holds == old(bc.holds)
      ensures ok ==> var plan := CommitPlan(disk[area.start], area, old(lh), vals);
                     bc.disk == Apply(disk, plan) && bc.history == history + plan
      ensures ok ==> forall c :: c in old(bc.disk) && !area.Has(c) ==>
                                   c in bc.disk && bc.disk[c] == bc.Sees(c) == old(bc.Sees(c))
      ensures bc.disk.Keys == old(bc.disk.Keys)
    {
      hide Ring, Placed, Coherent, Pinned, View, InstallPlan, LogPlan, Apply, Head, CommitPlan, Full;
      ghost var lh0 := lh;
      LogWritten(disk, history, vals);
      CommitPhases(disk, area, lh0, vals);
      ok := HeadAndInstall(vals);
      if !ok {
        return;
      }
      WholePlan(disk[area.start], lh0, vals);
      lh := [];
      ok := WriteHead([]);
      forall c | c in bc.disk { UnpinnedClean([], c); }
    }

    lemma LogWritten(disk: Disk, history: seq<Write>, vals: seq<Block>)
      requires Loggable(disk, area, lh) && |vals| == |lh| && Logged(disk, history, vals, |lh|)
      ensures bc.disk == Apply(disk, LogPlan(area, vals)) && bc.history == history + LogPlan(area, vals)
      ensures forall t :: 0 <= t < |lh| ==> area.Slot(t) in bc.disk && bc.disk[area.Slot(t)] == vals[t]
    {
      assert LogPlan(area, vals)[..|lh|] == LogPlan(area, vals);
      forall t | 0 <= t < |lh|
        ensures area.Slot(t) in bc.disk && bc.disk[area.Slot(t)] == vals[t]
      {
        LogPlanAt(disk, area, vals, t);
      }
    }

    lemma WholePlan(h: Block, lh: seq<U32>, vals: seq<Block>)
      requires |lh| == |vals| && 0 < |lh| <= LOGSIZE
      ensures InstallPlan(lh, vals)[..|lh|] == InstallPlan(lh, vals)
      ensures LogPlan(area, vals) + ([Write(area.start, Head(h, lh))] + (InstallPlan(lh, vals)
              + [Write(area.start, Head(Head(h, lh), []))])) == CommitPlan(h, area, lh, vals)
    {
    }

    /** The real commit, then install_trans(0). */
    method HeadAndInstall(ghost vals: seq<Block>) returns (ok: bool)
      requires Settled(lh) && Loggable(bc.disk, area, lh) && lh != [] && |vals| == |lh|
      requires !Full(bc.holds, bc.pins) || forall t :: 0 <= t < |lh| ==> area.Slot(t) in bc.slot
      requires forall t :: 0 <= t < |lh| ==> area.Slot(t) in bc.disk && bc.disk[area.Slot(t)] == vals[t]
      requires forall t :: 0 <= t < |lh| ==> bc.Sees(lh[t]) == vals[t]
      modifies bc
      ensures ok <==> !Full(old(bc.holds), old(bc.pins)) || old(area.start in bc.slot)
      ensures !ok ==> unchanged(bc)
      ensures area.start in old(bc.disk)
      ensures ok ==> Settled([]) && bc.holds == old(bc.holds)
      ensures bc.disk.Keys == old(bc.disk.Keys)
      ensures ok && Full(bc.holds, bc.pins) ==> area.start in bc.slot
      ensures ok ==> var h := Head(old(bc.disk)[area.start], lh);
                     Installed(old(bc.disk)[area.start := h], old(bc.history) + [Write(area.start, h)], vals, |lh|)
      ensures ok ==> forall c :: c in old(bc.disk) && !area.Has(c) ==> c in bc.disk && bc.Sees(c) == old(bc.Sees(c))
    {
      hide Ring, Placed, Coherent, Pinned, View, InstallPlan, Apply, Head, Full;
      assert area.Has(area.start);
      ok := WriteHead(lh);
      if ok {
        InstallTrans(vals);
      }
    }

    // -------------------------------------------------------------------- recovery

    /** read_head() */
    method ReadHead()
      requires Settled([]) && NoneHeld(bc.holds) && ValidDisk(bc.disk, area)
      modifies this`lh, bc`buf, bc`slot, bc`holds, bc`next, bc`prev, bc`order
      ensures Settled([]) && NoneHeld(bc.holds) && lh == HeadOf(bc.disk[area.start])
    {
      hide Ring, Placed, Coherent, Pinned, View, HeadOf;
      assert area.Has(area.start);
      UnpinnedClean([], area.start);
      NotFull();
      var i := ReadFirst(area.start, []);
      lh := ParseHead(bc.buf[i].data);
      label Read:
      bc.Brelse(i);
      PinnedCounts(old@Read(bc.buf), bc.buf, bc.slot, bc.pins, []);
    }

    /**
     recover_from_log(), on a freshly booted cache: the disk goes through
     exactly the writes of RecoverPlan and ends with an empty log.
     */
    method RecoverFromLog()
      requires Settled([]) && NoneHeld(bc.holds) && ValidDisk(bc.disk, area)
      modifies this`lh, bc
      ensures Settled([]) && NoneHeld(bc.holds) && lh == []
      ensures bc.disk == Apply(old(bc.disk), RecoverPlan(old(bc.disk), area))
      ensures bc.history == old(bc.history) + RecoverPlan(old(bc.disk), area)
      ensures Quiet(bc.disk, area) && Home(bc.disk, area) == Durable(old(bc.disk), area)
    {
      hide Ring, Placed, Coherent, Pinned, View, Apply, InstallPlan, RecoverPlan, Head;
      ghost var d := bc.disk;
      ReadHead();
      ghost var lh0 := lh;
      ghost var vals := LogContents(d, area, |lh|);
      assert forall t :: 0 <= t < |lh| ==> area.Has(area.Slot(t));
      RecoverTrans(vals);
      ghost var d1 := bc.disk;
      lh := [];
      NotFull();
      var ok := WriteHead([]);
      RecoverPhases(d, d1, lh0, vals);
      RecoveryComplete(d, area);
    }

    lemma RecoverPhases(d: Disk, d1: Disk, lh0: seq<U32>, vals: seq<Block>)
      requires ValidDisk(d, area) && lh0 == HeadOf(d[area.start]) && vals == LogContents(d, area, |lh0|)
      requires d1 == Apply(d, InstallPlan(lh0, vals)[..|lh0|])
      ensures area.start in d1 && d1[area.start] == d[area.start]
      ensures InstallPlan(lh0, vals)[..|lh0|] == InstallPlan(lh0, vals)
      ensures Apply(d, RecoverPlan(d, area)) == d1[area.start := Head(d[area.start], [])]
      ensures RecoverPlan(d, area) == InstallPlan(lh0, vals) + [Write(area.start, Head(d[area.start], []))]
    {
      var ws := InstallPlan(lh0, vals);
      assert ws[..|lh0|] == ws;
      ApplyUntouched(d, ws, area.start);
      assert RecoverPlan(d, area)[..|lh0|] == ws;
    }

    /** install_trans(1) */
    method RecoverTrans(ghost vals: seq<Block>)
      requires Settled([]) && NoneHeld(bc.holds) && Loggable(bc.disk, area, lh) && |vals| == |lh|
      requires forall t :: 0 <= t < |lh| ==> area.Slot(t) in bc.disk && bc.disk[area.Slot(t)] == vals[t]
      modifies bc
      ensures Settled([]) && NoneHeld(bc.holds) && Installed(old(bc.disk), old(bc.history), vals, |lh|)
    {
      hide Ring, Placed, Coherent, Pinned, View, InstallPlan, Apply;
      var tail := 0;
      assert Installed(bc.disk, bc.history, vals, 0) by { InstalledNone(vals); }
      while tail < |lh|
        invariant 0 <= tail <= |lh|
        invariant Settled([]) && NoneHeld(bc.holds) && bc.disk.Keys == old(bc.disk.Keys)
        invariant Installed(old(bc.disk), old(bc.history), vals, tail)
      {
        RecoverBlock(tail);
        InstalledOne(old(bc.disk), bc.disk, vals, tail);
        assert forall t :: 0 <= t < |lh| ==> area.Has(area.Slot(t));
        tail := tail + 1;
      }
    }
  }
}
