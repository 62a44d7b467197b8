/**
 The redo log on disk: what commit() and recover_from_log() write, block by
 block, and what any crash between two of those writes leaves behind.
 A crash point is a prefix of a sequence of single-block writes.
 */
module RedoLog {
  import opened Blocks

  const MAXOPBLOCKS := 10
  const LOGSIZE := 30 // MAXOPBLOCKS * 3

  datatype Write = Write(bno: nat, data: Block)

  /** The disk after the given writes, oldest first. */
  function Apply(d: Disk, ws: seq<Write>): (r: Disk)
    ensures d.Keys <= r.Keys
  {
    if ws == [] then d
    else var n := |ws| - 1; Apply(d, ws[..n])[ws[n].bno := ws[n].data]
  }

  // ---------------------------------------------------------------- layout

  /** Header block `start`, then the log's data blocks. */
  datatype Area = Area(start: nat, size: nat) {
    predicate Has(b: nat) { start <= b < start + size }

    /** The log block that carries entry t. */
    function Slot(t: nat): (b: nat) { start + 1 + t }
  }

  /** write_head() fills only the words it needs; the rest of the block stays. */
  function Head(b: Block, lh: seq<U32>): (r: Block)
    requires |lh| <= LOGSIZE
  {
    PutWords(b, 0, [|lh|] + lh)
  }

  predicate WellFormedHead(b: Block) { Word(b, 0) <= LOGSIZE }

  function HeadOf(b: Block): (lh: seq<U32>)
    requires WellFormedHead(b)
  {
    seq(Word(b, 0), i requires 0 <= i < Word(b, 0) => Word(b, 1 + i))
  }

  lemma HeadRoundTrip(b: Block, lh: seq<U32>)
    requires |lh| <= LOGSIZE
    ensures WellFormedHead(Head(b, lh)) && HeadOf(Head(b, lh)) == lh
  {
    PutWordsRead(b, 0, [|lh|] + lh, 0);
    forall i | 0 <= i < |lh|
      ensures HeadOf(Head(b, lh))[i] == lh[i]
    {
      PutWordsRead(b, 0, [|lh|] + lh, 1 + i);
    }
  }

  ghost predicate Distinct(lh: seq<U32>) {
    forall i, j :: 0 <= i < j < |lh| ==> lh[i] != lh[j]
  }

  /** A list of block numbers the log may hold: distinct, outside the log, on the disk. */
  ghost predicate Loggable(d: Disk, a: Area, lh: seq<U32>) {
    && |lh| <= LOGSIZE && |lh| < a.size
    && Distinct(lh)
    && forall i :: 0 <= i < |lh| ==> lh[i] in d && !a.Has(lh[i])
  }

  ghost predicate ValidDisk(d: Disk, a: Area) {
    && a.size > 0
    && (forall b :: a.Has(b) ==> b in d)
    && WellFormedHead(d[a.start])
    && Loggable(d, a, HeadOf(d[a.start]))
  }

  /** Valid, and no transaction is waiting in the log. */
  ghost predicate Quiet(d: Disk, a: Area) {
    ValidDisk(d, a) && HeadOf(d[a.start]) == []
  }

  /** Everything outside the log area. */
  function Home(d: Disk, a: Area): (h: Disk) {
    map b | b in d && !a.Has(b) :: d[b]
  }

  // ----------------------------------------------------------------- plans

  /** write_log(): the cached contents go to the log blocks. */
  function LogPlan(a: Area, vals: seq<Block>): (ws: seq<Write>) {
    seq(|vals|, t requires 0 <= t < |vals| => Write(a.Slot(t), vals[t]))
  }

  /** install_trans(): each block goes to its home location. */
  function InstallPlan(lh: seq<U32>, vals: seq<Block>): (ws: seq<Write>)
    requires |lh| == |vals|
  {
    seq(|lh|, t requires 0 <= t < |lh| => Write(lh[t], vals[t]))
  }

  /** commit(): log, header, install, erase; nothing at all for an empty log. */
  function CommitPlan(h: Block, a: Area, lh: seq<U32>, vals: seq<Block>): (ws: seq<Write>)
    requires |lh| == |vals| && |lh| <= LOGSIZE
  {
    if lh == [] then []
    else
      LogPlan(a, vals) + [Write(a.start, Head(h, lh))]
      + InstallPlan(lh, vals) + [Write(a.start, Head(Head(h, lh), []))]
  }

  function LogContents(d: Disk, a: Area, n: nat): (vals: seq<Block>)
    requires n < a.size && forall b :: a.Has(b) ==> b in d
  {
    seq(n, t requires 0 <= t < n =>
      assert a.Has(a.Slot(t)); d[a.Slot(t)])
  }

  /** recover_from_log(): install whatever the header names, then erase it. */
  function RecoverPlan(d: Disk, a: Area): (ws: seq<Write>)
    requires ValidDisk(d, a)
  {
    var lh := HeadOf(d[a.start]);
    InstallPlan(lh, LogContents(d, a, |lh|)) + [Write(a.start, Head(d[a.start], []))]
  }

  /** What the file system finds after booting from disk d. */
  ghost function Durable(d: Disk, a: Area): (h: Disk)
    requires ValidDisk(d, a)
  {
    Home(Apply(d, RecoverPlan(d, a)), a)
  }

  // ------------------------------------------------------- effect of writes

  lemma {:induction false} ApplyUntouched(d: Disk, ws: seq<Write>, b: nat)
    requires forall i :: 0 <= i < |ws| ==> ws[i].bno != b
    ensures b in Apply(d, ws) <==> b in d
    ensures b in d ==> Apply(d, ws)[b] == d[b]
    decreases |ws|
  {
    if ws != [] {
      ApplyUntouched(d, ws[..|ws| - 1], b);
    }
  }

  lemma {:induction false} ApplyLast(d: Disk, ws: seq<Write>, t: nat)
    requires t < |ws|
    requires forall u :: t < u < |ws| ==> ws[u].bno != ws[t].bno
    ensures ws[t].bno in Apply(d, ws) && Apply(d, ws)[ws[t].bno] == ws[t].data
    decreases |ws|
  {
    if t < |ws| - 1 {
      ApplyLast(d, ws[..|ws| - 1], t);
    }
  }

  lemma {:induction false} ApplyConcat(d: Disk, ws: seq<Write>, vs: seq<Write>)
    ensures Apply(d, ws + vs) == Apply(Apply(d, ws), vs)
    decreases |vs|
  {
    if vs == [] {
      assert ws + vs == ws;
    } else {
      var n := |vs| - 1;
      assert (ws + vs)[..|ws + vs| - 1] == ws + vs[..n];
      ApplyConcat(d, ws, vs[..n]);
    }
  }

  /** Installing a transaction commutes with looking at home blocks only. */
  lemma {:induction false} InstallHome(d: Disk, a: Area, ws: seq<Write>)
    requires forall i :: 0 <= i < |ws| ==> !a.Has(ws[i].bno)
    ensures Home(Apply(d, ws), a) == Apply(Home(d, a), ws)
    decreases |ws|
  {
    if ws != [] {
      InstallHome(d, a, ws[..|ws| - 1]);
    }
  }

  /** What recovery leaves at each home block, without running it. */
  lemma RecoveredAt(d: Disk, a: Area, b: nat)
    requires ValidDisk(d, a) && b in d && !a.Has(b)
    ensures b in Durable(d, a)
    ensures forall t :: 0 <= t < |HeadOf(d[a.start])| && HeadOf(d[a.start])[t] == b
                        ==> Durable(d, a)[b] == d[a.Slot(t)]
    ensures b !in HeadOf(d[a.start]) ==> Durable(d, a)[b] == d[b]
  {
    var lh := HeadOf(d[a.start]);
    var ws := RecoverPlan(d, a);
    if b in lh {
      var t :| 0 <= t < |lh| && lh[t] == b;
      ApplyLast(d, ws, t);
    } else {
      ApplyUntouched(d, ws, b);
    }
  }

  lemma {:induction false} KeysKept(d: Disk, ws: seq<Write>)
    requires forall i :: 0 <= i < |ws| ==> ws[i].bno in d
    ensures Apply(d, ws).Keys == d.Keys
    decreases |ws|
  {
    if ws != [] {
      KeysKept(d, ws[..|ws| - 1]);
    }
  }

  /** Write i of a commit. */
  function CommitWrite(h: Block, a: Area, lh: seq<U32>, vals: seq<Block>, i: nat): (w: Write)
    requires |lh| == |vals| && |lh| <= LOGSIZE && i < 2 * |lh| + 2
  {
    var n := |lh|;
    if i < n then Write(a.Slot(i), vals[i])
    else if i == n then Write(a.start, Head(h, lh))
    else if i <= 2 * n then Write(lh[i - n - 1], vals[i - n - 1])
    else Write(a.start, Head(Head(h, lh), []))
  }

  /** A commit of a nonempty group, stopped after its first |ws| writes. */
  ghost predicate CommitPrefix(d: Disk, a: Area, lh: seq<U32>, vals: seq<Block>, ws: seq<Write>) {
    && Quiet(d, a) && Loggable(d, a, lh) && |lh| == |vals| && lh != [] && |ws| <= 2 * |lh| + 2
    && (forall i :: 0 <= i < |ws| ==> ws[i] == CommitWrite(d[a.start], a, lh, vals, i))
  }

  lemma CommitPrefixes(d: Disk, a: Area, lh: seq<U32>, vals: seq<Block>, k: nat)
    requires Quiet(d, a) && Loggable(d, a, lh) && |lh| == |vals| && lh != []
    ensures |CommitPlan(d[a.start], a, lh, vals)| == 2 * |lh| + 2
    ensures k <= 2 * |lh| + 2 ==> CommitPrefix(d, a, lh, vals, CommitPlan(d[a.start], a, lh, vals)[..k])
  {
  }

  lemma LogPlanAt(d: Disk, a: Area, vals: seq<Block>, t: nat)
    requires t < |vals|
    ensures a.Slot(t) in Apply(d, LogPlan(a, vals)) && Apply(d, LogPlan(a, vals))[a.Slot(t)] == vals[t]
  {
    ApplyLast(d, LogPlan(a, vals), t);
  }

  /** The four phases of a commit, one after the other. */
  lemma CommitPhases(d: Disk, a: Area, lh: seq<U32>, vals: seq<Block>)
    requires a.start in d && |lh| == |vals| && lh != [] && |lh| <= LOGSIZE
    requires forall t :: 0 <= t < |lh| ==> !a.Has(lh[t])
    requires |lh| < a.size
    ensures var d1 := Apply(d, LogPlan(a, vals));
            var d2 := d1[a.start := Head(d[a.start], lh)];
            var d3 := Apply(d2, InstallPlan(lh, vals));
            && a.start in d1 && d1[a.start] == d[a.start]
            && a.start in d3 && d3[a.start] == Head(d[a.start], lh)
            && d3[a.start := Head(Head(d[a.start], lh), [])] == Apply(d, CommitPlan(d[a.start], a, lh, vals))
  {
    var p1, p2 := LogPlan(a, vals), [Write(a.start, Head(d[a.start], lh))];
    var p3, p4 := InstallPlan(lh, vals), [Write(a.start, Head(Head(d[a.start], lh), []))];
    ApplyUntouched(d, p1, a.start);
    ApplyUntouched(Apply(d, p1)[a.start := Head(d[a.start], lh)], p3, a.start);
    ApplyConcat(d, p1 + p2 + p3, p4);
    ApplyConcat(d, p1 + p2, p3);
    ApplyConcat(d, p1, p2);
  }

  lemma CommitKeys(d: Disk, a: Area, lh: seq<U32>, vals: seq<Block>, ws: seq<Write>)
    requires CommitPrefix(d, a, lh, vals, ws)
    ensures Apply(d, ws).Keys == d.Keys
  {
    forall i | 0 <= i < |ws|
      ensures ws[i].bno in d
    {
      assert i < |lh| ==> a.Has(a.Slot(i));
    }
    KeysKept(d, ws);
  }

  /** Before the header write the disk is the old one except for log blocks. */
  lemma BeforeHeader(d: Disk, a: Area, lh: seq<U32>, vals: seq<Block>, ws: seq<Write>)
    requires CommitPrefix(d, a, lh, vals, ws) && |ws| <= |lh|
    ensures Quiet(Apply(d, ws), a) && Home(Apply(d, ws), a) == Home(d, a)
  {
    CommitKeys(d, a, lh, vals, ws);
    assert forall i :: 0 <= i < |ws| ==> ws[i].bno == a.Slot(i) && a.Has(ws[i].bno);
    forall b | b in d && (b == a.start || !a.Has(b))
      ensures Apply(d, ws)[b] == d[b]
    {
      ApplyUntouched(d, ws, b);
    }
  }

  /** After it, the header names the group until the last write erases it. */
  lemma HeaderAfter(d: Disk, a: Area, lh: seq<U32>, vals: seq<Block>, ws: seq<Write>)
    requires CommitPrefix(d, a, lh, vals, ws) && |ws| > |lh|
    ensures ValidDisk(Apply(d, ws), a)
    ensures HeadOf(Apply(d, ws)[a.start]) == if |ws| < 2 * |lh| + 2 then lh else []
  {
    var n := |lh|;
    CommitKeys(d, a, lh, vals, ws);
    HeadRoundTrip(d[a.start], lh);
    HeadRoundTrip(Head(d[a.start], lh), []);
    ApplyLast(d, ws, if |ws| == 2 * n + 2 then 2 * n + 1 else n);
  }

  /** Contents of the log and home blocks from then on. */
  lemma BlocksAfter(d: Disk, a: Area, lh: seq<U32>, vals: seq<Block>, ws: seq<Write>, b: nat)
    requires CommitPrefix(d, a, lh, vals, ws) && |ws| > |lh| && b in d
    ensures b in Apply(d, ws)
    ensures forall t :: 0 <= t < |lh| && b == a.Slot(t) ==> Apply(d, ws)[b] == vals[t]
    ensures !a.Has(b) && b !in lh ==> Apply(d, ws)[b] == d[b]
    ensures |ws| == 2 * |lh| + 2 ==> forall t :: 0 <= t < |lh| && b == lh[t] ==> Apply(d, ws)[b] == vals[t]
  {
    if b in lh {
      if |ws| == 2 * |lh| + 2 {
        var t :| 0 <= t < |lh| && lh[t] == b;
        ApplyLast(d, ws, |lh| + 1 + t);
      }
    } else if a.Has(b) {
      if a.start < b <= a.start + |lh| {
        ApplyLast(d, ws, b - a.start - 1);
      }
    } else {
      assert forall i :: 0 <= i < |lh| ==> a.Has(a.Slot(i));
      ApplyUntouched(d, ws, b);
    }
  }

  /** The home blocks after the whole group, read off one at a time. */
  lemma InstalledAt(h: Disk, lh: seq<U32>, vals: seq<Block>, b: nat)
    requires |lh| == |vals| && Distinct(lh)
    ensures b !in lh ==> (b in Apply(h, InstallPlan(lh, vals)) <==> b in h)
    ensures b !in lh && b in h ==> Apply(h, InstallPlan(lh, vals))[b] == h[b]
    ensures forall t :: 0 <= t < |lh| && lh[t] == b
                        ==> b in Apply(h, InstallPlan(lh, vals)) && Apply(h, InstallPlan(lh, vals))[b] == vals[t]
  {
    var ws := InstallPlan(lh, vals);
    if b in lh {
      var t :| 0 <= t < |lh| && lh[t] == b;
      ApplyLast(h, ws, t);
    } else {
      ApplyUntouched(h, ws, b);
    }
  }

  /** Durable state after the header write: the group is in, wherever the crash was. */
  lemma DurableAfter(d: Disk, a: Area, lh: seq<U32>, vals: seq<Block>, ws: seq<Write>, b: nat)
    requires CommitPrefix(d, a, lh, vals, ws) && |ws| > |lh| && b in d && !a.Has(b)
    ensures ValidDisk(Apply(d, ws), a)
    ensures b in Durable(Apply(d, ws), a) && b in Apply(Home(d, a), InstallPlan(lh, vals))
    ensures Durable(Apply(d, ws), a)[b] == Apply(Home(d, a), InstallPlan(lh, vals))[b]
  {
    HeaderAfter(d, a, lh, vals, ws);
    BlocksAfter(d, a, lh, vals, ws, b);
    RecoveredAt(Apply(d, ws), a, b);
    InstalledAt(Home(d, a), lh, vals, b);
    if b in lh {
      var t :| 0 <= t < |lh| && lh[t] == b;
      assert a.Has(a.Slot(t));
      BlocksAfter(d, a, lh, vals, ws, a.Slot(t));
    }
  }

  lemma CommittedDurable(d: Disk, a: Area, lh: seq<U32>, vals: seq<Block>, ws: seq<Write>)
    requires CommitPrefix(d, a, lh, vals, ws) && |ws| > |lh|
    ensures ValidDisk(Apply(d, ws), a)
    ensures Durable(Apply(d, ws), a) == Apply(Home(d, a), InstallPlan(lh, vals))
  {
    var e := Apply(d, ws);
    var after := Apply(Home(d, a), InstallPlan(lh, vals));
    HeaderAfter(d, a, lh, vals, ws);
    CommitKeys(d, a, lh, vals, ws);
    DurableKeys(e, a);
    KeysKept(Home(d, a), InstallPlan(lh, vals));
    hide Apply, HeadOf, InstallPlan, CommitPrefix, Durable, ValidDisk;
    forall b | b in after
      ensures Durable(e, a)[b] == after[b]
    {
      DurableAfter(d, a, lh, vals, ws, b);
    }
    SameDisk(Durable(e, a), after);
  }

  lemma DurableKeys(d: Disk, a: Area)
    requires ValidDisk(d, a)
    ensures Durable(d, a).Keys == Home(d, a).Keys
  {
    forall t | 0 <= t < |HeadOf(d[a.start])|
      ensures RecoverPlan(d, a)[t].bno in d
    {
    }
    KeysKept(d, RecoverPlan(d, a));
  }

  /**
   Crash atomicity of commit(): whichever write the machine stops after,
   recovery gives the home blocks as they were before the group, or the home
   blocks with the whole group installed. The switch is the header write.
   */
  lemma CommitAtomic(d: Disk, a: Area, lh: seq<U32>, vals: seq<Block>, k: nat)
    requires Quiet(d, a) && Loggable(d, a, lh) && |lh| == |vals|
    requires k <= |CommitPlan(d[a.start], a, lh, vals)|
    ensures var e := Apply(d, CommitPlan(d[a.start], a, lh, vals)[..k]);
            && ValidDisk(e, a)
            && Durable(e, a) == if k <= |lh| then Home(d, a) else Apply(Home(d, a), InstallPlan(lh, vals))
  {
    var ws := CommitPlan(d[a.start], a, lh, vals)[..k];
    var e := Apply(d, ws);
    if lh == [] {
      QuietDurable(d, a);
    } else {
      CommitPrefixes(d, a, lh, vals, k);
      if k <= |lh| {
        BeforeHeader(d, a, lh, vals, ws);
        QuietDurable(e, a);
      } else {
        CommittedDurable(d, a, lh, vals, ws);
      }
    }
  }

  lemma QuietDurable(d: Disk, a: Area)
    requires Quiet(d, a)
    ensures Durable(d, a) == Home(d, a)
  {
    KeysKept(d, RecoverPlan(d, a));
    forall b | b in d && !a.Has(b)
      ensures Durable(d, a)[b] == d[b]
    {
      RecoveredAt(d, a, b);
    }
  }

  /** A recovery stopped before its last write has touched only named home blocks. */
  lemma RecoveryPrefix(d: Disk, a: Area, k: nat, b: nat)
    requires ValidDisk(d, a) && k <= |HeadOf(d[a.start])| && b in d && b !in HeadOf(d[a.start])
    ensures b in Apply(d, RecoverPlan(d, a)[..k]) && Apply(d, RecoverPlan(d, a)[..k])[b] == d[b]
  {
    ApplyUntouched(d, RecoverPlan(d, a)[..k], b);
  }

  /** ... so the log still names the same transaction. */
  lemma RecoveryKeepsLog(d: Disk, a: Area, k: nat)
    requires ValidDisk(d, a) && k <= |HeadOf(d[a.start])|
    ensures ValidDisk(Apply(d, RecoverPlan(d, a)[..k]), a)
    ensures forall b :: a.Has(b) ==> Apply(d, RecoverPlan(d, a)[..k])[b] == d[b]
    ensures Apply(d, RecoverPlan(d, a)[..k]).Keys == d.Keys
  {
    KeysKept(d, RecoverPlan(d, a)[..k]);
    forall b | a.Has(b)
      ensures Apply(d, RecoverPlan(d, a)[..k])[b] == d[b]
    {
      RecoveryPrefix(d, a, k, b);
    }
  }

  lemma RecoveryComplete(d: Disk, a: Area)
    requires ValidDisk(d, a)
    ensures Quiet(Apply(d, RecoverPlan(d, a)), a)
  {
    var ws := RecoverPlan(d, a);
    KeysKept(d, ws);
    HeadRoundTrip(d[a.start], []);
    ApplyLast(d, ws, |ws| - 1);
  }

  /**
   Recovery may itself crash after any of its writes, and as often as it
   likes: what the next recovery yields does not change.
   */
  lemma RecoveryAtomic(d: Disk, a: Area, k: nat)
    requires ValidDisk(d, a) && k <= |RecoverPlan(d, a)|
    ensures var e := Apply(d, RecoverPlan(d, a)[..k]);
            ValidDisk(e, a) && Durable(e, a) == Durable(d, a)
  {
    var ws := RecoverPlan(d, a);
    var e := Apply(d, ws[..k]);
    if k == |ws| {
      assert ws[..k] == ws;
      RecoveryComplete(d, a);
      QuietDurable(e, a);
    } else {
      RecoveryPartial(d, a, k);
    }
  }

  lemma RecoveryPartial(d: Disk, a: Area, k: nat)
    requires ValidDisk(d, a) && k <= |HeadOf(d[a.start])|
    ensures ValidDisk(Apply(d, RecoverPlan(d, a)[..k]), a)
    ensures Durable(Apply(d, RecoverPlan(d, a)[..k]), a) == Durable(d, a)
  {
    hide Apply, HeadOf, Durable, Loggable, Home;
    var e := Apply(d, RecoverPlan(d, a)[..k]);
    RecoveryKeepsLog(d, a, k);
    forall b | b in d && !a.Has(b)
      ensures b in Durable(d, a) && b in Durable(e, a) && Durable(e, a)[b] == Durable(d, a)[b]
    {
      RecoveredAgain(d, a, k, b);
    }
    DurableSame(e, d, a);
  }

  lemma DurableSame(d: Disk, e: Disk, a: Area)
    requires ValidDisk(d, a) && ValidDisk(e, a) && d.Keys == e.Keys
    requires forall b :: b in d && !a.Has(b) ==>
                           b in Durable(d, a) && b in Durable(e, a) && Durable(d, a)[b] == Durable(e, a)[b]
    ensures Durable(d, a) == Durable(e, a)
  {
    DurableKeys(d, a);
    DurableKeys(e, a);
    SameDisk(Durable(d, a), Durable(e, a));
  }

  lemma SameDisk(x: Disk, y: Disk)
    requires x.Keys == y.Keys && forall b :: b in x ==> x[b] == y[b]
    ensures x == y
  {
  }

  lemma RecoveredAgain(d: Disk, a: Area, k: nat, b: nat)
    requires ValidDisk(d, a) && k <= |HeadOf(d[a.start])| && b in d && !a.Has(b)
    ensures ValidDisk(Apply(d, RecoverPlan(d, a)[..k]), a)
    ensures b in Durable(d, a) && b in Durable(Apply(d, RecoverPlan(d, a)[..k]), a)
    ensures Durable(Apply(d, RecoverPlan(d, a)[..k]), a)[b] == Durable(d, a)[b]
  {
    var e := Apply(d, RecoverPlan(d, a)[..k]);
    var lh := HeadOf(d[a.start]);
    RecoveryKeepsLog(d, a, k);
    assert a.Has(a.start);
    RecoveredAt(d, a, b);
    RecoveredAt(e, a, b);
    if b in lh {
      var t :| 0 <= t < |lh| && lh[t] == b;
      assert a.Has(a.Slot(t));
    } else {
      RecoveryPrefix(d, a, k, b);
    }
  }
}

/**
 Whole histories of one disk: groups that commit, machines that stop in the
 middle of a commit, and reboots whose recovery is cut short any number of
 times before one finishes.
 */
module CrashRuns {
  import opened Blocks
  import opened RedoLog
  import opened Counting

  datatype Event =
    | Commit(lh: seq<U32>, vals: seq<Block>)
    | CrashInCommit(lh: seq<U32>, vals: seq<Block>, at: nat, again: seq<nat>)
    | CrashWhileIdle(again: seq<nat>)

  function Cut(ws: seq<Write>, k: nat): (r: seq<Write>) { ws[..Min(k, |ws|)] }

  /** Recoveries that stop after again[0], again[1], ... writes, then one that finishes. */
  ghost function Reboot(d: Disk, a: Area, again: seq<nat>): (r: Disk)
    requires ValidDisk(d, a)
    decreases |again|
  {
    var ws := RecoverPlan(d, a);
    if again == [] then Apply(d, ws)
    else
      RecoveryAtomic(d, a, Min(again[0], |ws|));
      Reboot(Apply(d, Cut(ws, again[0])), a, again[1..])
  }

  ghost predicate Possible(d: Disk, a: Area, e: Event) {
    match e
    case Commit(lh, vals) => Loggable(d, a, lh) && |lh| == |vals|
    case CrashInCommit(lh, vals, _, _) => Loggable(d, a, lh) && |lh| == |vals|
    case CrashWhileIdle(_) => true
  }

  ghost function Step(d: Disk, a: Area, e: Event): (r: Disk)
    requires Quiet(d, a) && Possible(d, a, e)
  {
    match e
    case Commit(lh, vals) => Apply(d, CommitPlan(d[a.start], a, lh, vals))
    case CrashInCommit(lh, vals, at, again) =>
      var ws := CommitPlan(d[a.start], a, lh, vals);
      CommitStep(d, a, lh, vals, at);
      Reboot(Apply(d, Cut(ws, at)), a, again)
    case CrashWhileIdle(again) => Reboot(d, a, again)
  }

  /** What a user of the file system may see: all of a group or none of it. */
  function Meaning(h: Disk, e: Event): (r: Disk)
    requires e.CrashWhileIdle? || |e.lh| == |e.vals|
  {
    match e
    case Commit(lh, vals) => Apply(h, InstallPlan(lh, vals))
    case CrashInCommit(lh, vals, at, _) => if at <= |lh| then h else Apply(h, InstallPlan(lh, vals))
    case CrashWhileIdle(_) => h
  }

  lemma {:induction false} RebootKeepsDurable(d: Disk, a: Area, again: seq<nat>)
    requires ValidDisk(d, a)
    ensures Quiet(Reboot(d, a, again), a)
    ensures Home(Reboot(d, a, again), a) == Durable(d, a)
    ensures Reboot(d, a, again).Keys == d.Keys
    decreases |again|
  {
    var ws := RecoverPlan(d, a);
    RecoverKeys(d, a, Min(if again == [] then |ws| else again[0], |ws|));
    hide Apply, Home, HeadOf, RecoverPlan;
    if again == [] {
      RecoveryComplete(d, a);
      assert ws[..|ws|] == ws;
    } else {
      var cut := Cut(ws, again[0]);
      RecoveryAtomic(d, a, Min(again[0], |ws|));
      RebootKeepsDurable(Apply(d, cut), a, again[1..]);
    }
  }

  lemma RecoverKeys(d: Disk, a: Area, k: nat)
    requires ValidDisk(d, a) && k <= |RecoverPlan(d, a)|
    ensures Apply(d, RecoverPlan(d, a)[..k]).Keys == d.Keys
  {
    KeysKept(d, RecoverPlan(d, a)[..k]);
  }

  lemma CommitStep(d: Disk, a: Area, lh: seq<U32>, vals: seq<Block>, at: nat)
    requires Quiet(d, a) && Loggable(d, a, lh) && |lh| == |vals|
    ensures var e := Apply(d, Cut(CommitPlan(d[a.start], a, lh, vals), at));
            && ValidDisk(e, a) && e.Keys == d.Keys
            && Durable(e, a) == Meaning(Home(d, a), CrashInCommit(lh, vals, at, []))
  {
    var ws := CommitPlan(d[a.start], a, lh, vals);
    var cut := Cut(ws, at);
    CommitAtomic(d, a, lh, vals, Min(at, |ws|));
    if lh != [] {
      CommitPrefixes(d, a, lh, vals, Min(at, |ws|));
      CommitKeys(d, a, lh, vals, cut);
    }
  }

  /** A commit that runs to the end empties the log and installs the group. */
  lemma CommitComplete(d: Disk, a: Area, lh: seq<U32>, vals: seq<Block>)
    requires Quiet(d, a) && Loggable(d, a, lh) && |lh| == |vals|
    ensures var e := Apply(d, CommitPlan(d[a.start], a, lh, vals));
            && Quiet(e, a) && e.Keys == d.Keys
            && Home(e, a) == Apply(Home(d, a), InstallPlan(lh, vals))
  {
    var ws := CommitPlan(d[a.start], a, lh, vals);
    if lh != [] {
      assert Cut(ws, |ws|) == ws;
      CommitStep(d, a, lh, vals, |ws|);
      CommitPrefixes(d, a, lh, vals, |ws|);
      HeaderAfter(d, a, lh, vals, ws);
      QuietDurable(Apply(d, ws), a);
    }
  }

  lemma StepMeaning(d: Disk, a: Area, e: Event)
    requires Quiet(d, a) && Possible(d, a, e)
    ensures Quiet(Step(d, a, e), a) && Step(d, a, e).Keys == d.Keys
    ensures Home(Step(d, a, e), a) == Meaning(Home(d, a), e)
  {
    hide Apply, Home, Durable, HeadOf, CommitPlan, RecoverPlan, Reboot, InstallPlan;
    match e
    case Commit(lh, vals) =>
      CommitComplete(d, a, lh, vals);
    case CrashInCommit(lh, vals, at, again) =>
      CommitStep(d, a, lh, vals, at);
      RebootKeepsDurable(Apply(d, Cut(CommitPlan(d[a.start], a, lh, vals), at)), a, again);
    case CrashWhileIdle(again) =>
      RebootKeepsDurable(d, a, again);
      QuietDurable(d, a);
  }

  ghost predicate AllPossible(d: Disk, a: Area, es: seq<Event>) {
    forall i :: 0 <= i < |es| ==> Possible(d, a, es[i])
  }

  lemma PossibleByKeys(d: Disk, r: Disk, a: Area, es: seq<Event>)
    requires AllPossible(d, a, es) && d.Keys == r.Keys
    ensures AllPossible(r, a, es)
  {
    forall i | 0 <= i < |es|
      ensures Possible(r, a, es[i])
    {
      assert Possible(d, a, es[i]);
    }
  }

  ghost function Run(d: Disk, a: Area, es: seq<Event>): (r: Disk)
    requires Quiet(d, a) && AllPossible(d, a, es)
    decreases |es|
  {
    if es == [] then d
    else
      StepMeaning(d, a, es[0]);
      PossibleByKeys(d, Step(d, a, es[0]), a, es[1..]);
      Run(Step(d, a, es[0]), a, es[1..])
  }

  ghost function Meanings(h: Disk, es: seq<Event>): (r: Disk)
    requires forall i :: 0 <= i < |es| ==> es[i].CrashWhileIdle? || |es[i].lh| == |es[i].vals|
    decreases |es|
  {
    if es == [] then h else Meanings(Meaning(h, es[0]), es[1..])
  }

  /**
   Crash safety of every history: the file system's blocks are those of the
   groups whose header write happened, applied whole and in order.
   */
  lemma {:induction false} RunMeaning(d: Disk, a: Area, es: seq<Event>)
    requires Quiet(d, a) && AllPossible(d, a, es)
    ensures forall i :: 0 <= i < |es| ==> es[i].CrashWhileIdle? || |es[i].lh| == |es[i].vals|
    ensures Quiet(Run(d, a, es), a)
    ensures Home(Run(d, a, es), a) == Meanings(Home(d, a), es)
    decreases |es|
  {
    assert forall i :: 0 <= i < |es| ==> Possible(d, a, es[i]);
    if es != [] {
      StepMeaning(d, a, es[0]);
      PossibleByKeys(d, Step(d, a, es[0]), a, es[1..]);
      RunMeaning(Step(d, a, es[0]), a, es[1..]);
    }
  }
}
