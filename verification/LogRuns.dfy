/** The log from boot, and a run in which a reader keeps a transaction from being committed. */
module LogRuns {
  import opened Blocks
  import opened RedoLog
  import opened Bio
  import opened Reservation
  import L = Log
  import Counting

  /** binit() and initlog() on whatever a crash has left on the disk. */
  method Boot(disk: Disk, area: Area) returns (log: L.Log)
    requires ValidDisk(disk, area)
    ensures fresh(log) && fresh(log.bc) && log.area == area && log.Valid() && log.Books() == EMPTY
    ensures L.NoneHeld(log.bc.holds) && Home(log.bc.disk, area) == Durable(disk, area)
    ensures log.bc.history == RecoverPlan(disk, area) && log.bc.disk == Apply(disk, RecoverPlan(disk, area))
  {
    hide Ring, Quiet, Durable, RecoverPlan, Apply;
    var bc := new Bcache(disk);
    log := new L.Log(bc, area);
    log.RecoverFromLog();
    EmptyWithin();
    QuietArea(log.bc.disk, area);
  }

  lemma EmptyWithin()
    ensures Within(EMPTY)
  {
  }

  lemma QuietArea(d: Disk, a: Area)
    requires Quiet(d, a)
    ensures a.size > 0
  {
  }

  const AREA := Area(100, 31)

  function Blank(): (d: Disk)
    ensures forall b :: b in d <==> 0 <= b < 200
    ensures forall b :: b in d ==> d[b] == Zero()
  {
    map b: nat | b in Counting.Below(200) :: Zero()
  }

  lemma BlankValid()
    ensures ValidDisk(Blank(), AREA)
  {
    ZeroWord(0);
    hide Word;
    assert HeadOf(Zero()) == [];
  }

  /** Nothing is held and blocks 0..n-1 are logged, by three operations within their budgets. */
  ghost predicate Filling(log: L.Log, n: nat)
    reads log, log.bc
  {
    && log.Valid() && Filled(log.Books(), n) && n <= 29 && L.NoneHeld(log.bc.holds) && log.area == AREA
    && (forall b :: 0 <= b < 200 ==> b in log.bc.disk)
  }

  lemma Unpinned(log: L.Log, n: nat)
    requires Filling(log, n)
    ensures !L.Full(log.bc.holds, log.bc.pins)
  {
    L.SomeUnpinned(log.bc.buf, log.bc.slot, log.bc.pins, log.lh);
  }

  /** One block of a transaction: read, changed, logged, released. */
  method FillBlock(log: L.Log, n: nat)
    requires Filling(log, n) && n < 29
    modifies log`lh, log`open, log.bc`buf, log.bc`slot, log.bc`holds, log.bc`pins, log.bc`dirty, log.bc`next, log.bc`prev, log.bc`order
    ensures Filling(log, n + 1)
  {
    hide Ring, Placed, Coherent, View, Within, Quiet, L.Pinned, L.Full;
    ghost var s := log.Books();
    Unpinned(log, n);
    var i := log.Read(n);
    ghost var t := FillOne(AREA.size, s, n);
    var ok := log.Update(i, Zero(), Turn(n));
    log.Release(i);
  }

  /** Three operations log 29 blocks. */
  method FillLog(log: L.Log)
    requires log.Valid() && log.Books() == EMPTY && L.NoneHeld(log.bc.holds) && log.area == AREA
    requires forall b :: 0 <= b < 200 ==> b in log.bc.disk
    modifies log, log.bc
    ensures Filling(log, 29)
  {
    hide L.Pinned, Ring, Placed, Coherent, View, Within, Quiet;
    var a := log.BeginOp();
    a := log.BeginOp();
    a := log.BeginOp();
    var n := 0;
    while n < 29
      invariant n <= 29 && Filling(log, n)
    {
      FillBlock(log, n);
      n := n + 1;
    }
  }

  /** 29 pinned buffers and one that a reader holds are all the buffers. */
  lemma AllInUse(buf: seq<Buf>, slot: map<nat, nat>, holds: seq<nat>, pins: seq<nat>, lh: seq<U32>, i: nat, r: nat)
    requires L.Pinned(buf, slot, pins, lh) && Distinct(lh) && |lh| == 29 && |holds| == NBUF
    requires i < NBUF && holds[i] > 0 && buf[i].dev == ROOTDEV && buf[i].blockno == r && r !in lh
    ensures L.Full(holds, pins) && forall b :: b in slot ==> b in lh || b == r
  {
    var f := L.Slots(slot, lh) + [i];
    forall t, u | 0 <= t < u < |f| ensures f[t] != f[u] {
      assert buf[f[t]].blockno == lh[t] && (u < 29 ==> buf[f[u]].blockno == lh[u]);
    }
    forall k | 0 <= k < NBUF ensures k == i || (pins[k] > 0 && buf[k].blockno in lh) {
      Counting.InjectiveOnto(f, NBUF, k);
    }
  }

  /**
   A run in which 29 logged blocks cannot be committed: fileread() holds the one
   buffer that is left, and the last end_op() panics in commit()'s first bread().
   */
  method ReaderStopsCommit() returns (ok: bool)
    ensures !ok
  {
    hide L.Pinned, Ring, Placed, Coherent, View, Within, Quiet, L.Full, L.Commits, Durable, RecoverPlan, Home;
    BlankValid();
    var log := Boot(Blank(), AREA);
    RecoverKeys(Blank(), AREA);
    FillLog(log);
    Unpinned(log, 29);
    var i := log.Read(50);
    Stopped(log, i);
    ok := log.EndOp(0);
    ok := log.EndOp(0);
    ok := log.EndOp(0);
  }

  lemma RecoverKeys(d: Disk, a: Area)
    requires ValidDisk(d, a)
    ensures forall b :: b in d ==> b in Apply(d, RecoverPlan(d, a))
  {
  }

  lemma Stopped(log: L.Log, i: nat)
    requires log.Valid() && |log.lh| == 29 && log.area == AREA && (forall b :: b in log.lh ==> b < 29)
    requires i < NBUF && log.bc.holds[i] > 0 && L.Caches(log.bc.buf[i], 50)
    ensures !log.CanCommit()
  {
    log.ValidLoggable();
    AllInUse(log.bc.buf, log.bc.slot, log.bc.holds, log.bc.pins, log.lh, i, 50);
    hide L.Pinned, L.Full, Ring, Placed, Coherent, View, Within, Quiet;
    log.CannotCommit(AREA.start);
  }
}
