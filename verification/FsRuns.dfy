/** One transaction of each kind, from the call to any crash of its commit and the reboot after it. */
module FsRuns {
  import opened Blocks
  import opened RedoLog
  import opened FsModel
  import opened FsCrash
  import opened Counting
  import F = Fs

  /** The commit of the given view, stopped after k writes. */
  ghost function Stopped(a: Area, d: Disk, v: Disk, lh: seq<U32>, k: nat): (e: Disk)
    requires a.start in d && |lh| <= LOGSIZE && (forall t :: 0 <= t < |lh| ==> lh[t] in v)
    requires k <= |CommitPlan(d[a.start], a, lh, LoggedData(v, lh))|
  {
    Apply(d, CommitPlan(d[a.start], a, lh, LoggedData(v, lh))[..k])
  }

  /** Whatever the crash point, a boot finds every file as in table t of d, or every file as in t' of v. */
  ghost predicate OldOrNew(sb: Super, a: Area, d: Disk, t: Table, v: Disk, t': Table, lh: seq<U32>)
    requires a.start in d && |lh| <= LOGSIZE && (forall t :: 0 <= t < |lh| ==> lh[t] in v)
  {
    forall k: nat, j :: k <= |CommitPlan(d[a.start], a, lh, LoggedData(v, lh))| && j in t && j in t' ==>
      var e := Stopped(a, d, v, lh, k);
      && ValidDisk(e, a) && sb.IBlock(j) in Durable(e, a)
      && FileOnDisk(sb, Durable(e, a), j) == if k <= |lh| then Content(d, t[j]) else Content(v, t'[j])
  }

  lemma Transaction(sb: Super, a: Area, d: Disk, v: Disk, tbl: Table, tbl': Table,
                    owner: map<nat, Slot>, owner': map<nat, Slot>, logged: set<nat>) returns (lh: seq<U32>)
    requires Sound(sb, d, tbl, owner) && OnDisk(sb, d, tbl) && Sound(sb, v, tbl', owner') && OnDisk(sb, v, tbl')
    requires Quiet(d, a) && LogInFront(sb, a) && Journaled(sb, d, {}, v, logged) && |logged| <= LOGSIZE < a.size
    ensures Lists(a, lh, logged) && a.start in d && (forall t :: 0 <= t < |lh| ==> lh[t] in v)
    ensures OldOrNew(sb, a, d, tbl, v, tbl', lh)
  {
    hide Sound, Quiet, OnDisk, CommitPlan, Apply, Durable, Content, FileOnDisk, Stopped;
    BlockNumbers(sb, d, tbl, owner, v, logged);
    lh := Listing(logged);
    ListsLoggable(sb, a, d, v, logged, lh);
    HeaderThere(d, a);
    forall k: nat, j | k <= |CommitPlan(d[a.start], a, lh, LoggedData(v, lh))| && j in tbl && j in tbl'
      ensures var e := Stopped(a, d, v, lh, k);
              && ValidDisk(e, a) && sb.IBlock(j) in Durable(e, a)
              && FileOnDisk(sb, Durable(e, a), j) == if k <= |lh| then Content(d, tbl[j]) else Content(v, tbl'[j])
    {
      StoppedIs(a, d, v, lh, k);
      FilesCrashAtomic(sb, a, d, v, tbl, tbl', owner, owner', logged, lh, k, j);
    }
  }

  lemma StoppedIs(a: Area, d: Disk, v: Disk, lh: seq<U32>, k: nat)
    requires a.start in d && |lh| <= LOGSIZE && (forall t :: 0 <= t < |lh| ==> lh[t] in v)
    requires k <= |CommitPlan(d[a.start], a, lh, LoggedData(v, lh))|
    ensures Stopped(a, d, v, lh, k) == Apply(d, CommitPlan(d[a.start], a, lh, LoggedData(v, lh))[..k])
  {
  }

  lemma BlockNumbers(sb: Super, d: Disk, tbl: Table, owner: map<nat, Slot>, v: Disk, logged: set<nat>)
    requires Sound(sb, d, tbl, owner) && Journaled(sb, d, {}, v, logged)
    ensures Formatted(sb, d) && forall b :: b in logged ==> b < 0x1_0000_0000 && b in d && b in v
  {
    hide Used, Ptr;
  }

  lemma HeaderThere(d: Disk, a: Area)
    requires Quiet(d, a)
    ensures a.start in d
  {
    assert a.Has(a.start);
  }

  /**
   A writei() transaction within filewrite()'s limit, its commit stopped after any
   write, and the reboot: every file is as it was, or the written file is the splice
   and every other file as it was.
   */
  method WriteCrash(fs: F.Fs, a: Area, i: nat, src: seq<Byte>, off: U32, n: U32) returns (r: int, ok: bool, ghost lh: seq<U32>)
    requires fs.Valid() && fs.Synced() && i in fs.inode && fs.logged == {} && n <= 3 * BSIZE
    requires Quiet(fs.disk, a) && LogInFront(fs.sb, a) && a.size > LOGSIZE
    modifies fs
    ensures ok && r != -1 ==> Lists(a, lh, fs.logged) && a.start in old(fs.disk) && (forall t :: 0 <= t < |lh| ==> lh[t] in fs.disk)
    ensures ok && r != -1 ==> 0 <= r <= |src| && fs.inode.Keys == old(fs.inode.Keys) && off <= |Content(old(fs.disk), old(fs.inode)[i])|
    ensures ok && r != -1 ==> OldOrNew(fs.sb, a, old(fs.disk), old(fs.inode), fs.disk, fs.inode, lh)
    ensures ok && r != -1 ==> forall j :: j in fs.inode ==>
              Content(fs.disk, fs.inode[j])
              == if j == i then Splice(Content(old(fs.disk), old(fs.inode)[i]), off, src[..r]) else Content(old(fs.disk), old(fs.inode)[j])
  {
    hide Sound, Quiet, OnDisk, OldOrNew, Journaled, Content, Splice, Lists;
    ghost var d, t, o := fs.disk, fs.inode, fs.owner;
    SyncedIs(fs);
    r, ok := fs.Writei(i, src, off, n);
    lh := [];
    if ok && r != -1 {
      SyncedIs(fs);
      lh := Transaction(fs.sb, a, d, fs.disk, t, fs.inode, o, fs.owner, fs.logged);
    }
  }

  /** The same for itrunc(), whenever the blocks it logs fit the log: the file is whole or empty, every other file as it was. */
  method TruncCrash(fs: F.Fs, a: Area, i: nat) returns (ghost lh: seq<U32>)
    requires fs.Valid() && fs.Synced() && i in fs.inode && fs.logged == {}
    requires Quiet(fs.disk, a) && LogInFront(fs.sb, a) && a.size > LOGSIZE
    modifies fs
    ensures fs.inode.Keys == old(fs.inode.Keys)
    ensures |fs.logged| <= LOGSIZE ==>
              && Lists(a, lh, fs.logged) && a.start in old(fs.disk) && (forall t :: 0 <= t < |lh| ==> lh[t] in fs.disk)
              && OldOrNew(fs.sb, a, old(fs.disk), old(fs.inode), fs.disk, fs.inode, lh)
    ensures forall j :: j in fs.inode ==>
              Content(fs.disk, fs.inode[j]) == if j == i then [] else Content(old(fs.disk), old(fs.inode)[j])
  {
    hide Sound, Quiet, OnDisk, OldOrNew, Journaled, Content, Lists, Used, Ptr;
    ghost var d, t, o := fs.disk, fs.inode, fs.owner;
    SyncedIs(fs);
    fs.Itrunc(i);
    SyncedIs(fs);
    lh := [];
    if |fs.logged| <= LOGSIZE {
      lh := Transaction(fs.sb, a, d, fs.disk, t, fs.inode, o, fs.owner, fs.logged);
    }
  }

  lemma SyncedIs(fs: F.Fs)
    requires fs.Valid() && fs.Synced()
    ensures Sound(fs.sb, fs.disk, fs.inode, fs.owner) && OnDisk(fs.sb, fs.disk, fs.inode)
  {
  }
}
