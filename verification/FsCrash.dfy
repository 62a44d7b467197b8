/**
 The file system on top of the log: whatever the operations of one
 transaction did to the files, a crash shows all of it or none of it.
 */
module FsCrash {
  import opened Blocks
  import opened RedoLog
  import opened FsModel

  /** What a boot finds in inode i: its on-disk copy, followed to its bytes. */
  function FileOnDisk(sb: Super, disk: Disk, i: nat): (s: seq<Byte>)
    requires sb.IBlock(i) in disk
  {
    Content(disk, Dinode(sb, disk, i))
  }

  /** The log lies in front of the inode blocks. */
  ghost predicate LogInFront(sb: Super, a: Area) {
    a.start + a.size <= sb.inodestart
  }

  ghost predicate OnDisk(sb: Super, disk: Disk, tbl: Table) {
    forall j :: j in tbl ==> sb.IBlock(j) in disk && Dinode(sb, disk, j) == tbl[j]
  }

  lemma HomePtr(sb: Super, disk: Disk, tbl: Table, owner: map<nat, Slot>, a: Area, i: nat, k: nat)
    requires Sound(sb, disk, tbl, owner) && LogInFront(sb, a) && i in tbl
    ensures Ptr(Home(disk, a), tbl[i], k) == Ptr(disk, tbl[i], k)
    ensures k <= IND && Ptr(disk, tbl[i], k) != 0 ==> Ptr(disk, tbl[i], k) in Home(disk, a)
  {
    assert Ptr(disk, tbl[i], IND) == tbl[i].addrs[NDIRECT];
    if tbl[i].addrs[NDIRECT] != 0 {
      OwnerFact(sb, disk, tbl, owner, i, IND);
    }
    if k <= IND && Ptr(disk, tbl[i], k) != 0 {
      OwnerFact(sb, disk, tbl, owner, i, k);
    }
  }

  /** A file can be read off the home blocks alone. */
  lemma HomeContent(sb: Super, disk: Disk, tbl: Table, owner: map<nat, Slot>, a: Area, i: nat)
    requires Sound(sb, disk, tbl, owner) && OnDisk(sb, disk, tbl) && LogInFront(sb, a) && i in tbl
    ensures sb.IBlock(i) in Home(disk, a)
    ensures FileOnDisk(sb, Home(disk, a), i) == Content(disk, tbl[i])
  {
    var h := Home(disk, a);
    assert Whole(disk, tbl[i], tbl[i].size);
    assert Dinode(sb, h, i) == tbl[i];
    forall p | 0 <= p < MAXFILE * BSIZE
      ensures ByteAt(h, tbl[i], p) == ByteAt(disk, tbl[i], p)
    {
      HomePtr(sb, disk, tbl, owner, a, i, p / BSIZE);
    }
    ContentSame(disk, tbl[i], h, tbl[i]);
  }

  /** The header lists the blocks the transaction logged, once each, and the log has room for them. */
  ghost predicate Lists(a: Area, lh: seq<U32>, logged: set<nat>) {
    && Distinct(lh) && |lh| <= LOGSIZE && |lh| < a.size
    && (forall b :: b in logged ==> b in lh) && forall t :: 0 <= t < |lh| ==> lh[t] in logged
  }

  /** What the operations log is on the disk and outside the log. */
  lemma ListsLoggable(sb: Super, a: Area, d: Disk, v: Disk, logged: set<nat>, lh: seq<U32>)
    requires Formatted(sb, d) && LogInFront(sb, a) && Journaled(sb, d, {}, v, logged) && Lists(a, lh, logged)
    ensures Loggable(d, a, lh)
  {
    hide Used;
  }

  /** Any set of block numbers can be listed. */
  lemma {:induction false} Listing(s: set<nat>) returns (lh: seq<U32>)
    requires forall b :: b in s ==> b < 0x1_0000_0000
    ensures Distinct(lh) && |lh| == |s| && (forall b :: b in s ==> b in lh) && forall t :: 0 <= t < |lh| ==> lh[t] in s
    decreases s
  {
    if s == {} {
      lh := [];
    } else {
      var b :| b in s;
      lh := Listing(s - {b});
      lh := [b] + lh;
    }
  }

  function LoggedData(v: Disk, lh: seq<U32>): (vals: seq<Block>)
    requires forall t :: 0 <= t < |lh| ==> lh[t] in v
  {
    seq(|lh|, t requires 0 <= t < |lh| => v[lh[t]])
  }

  lemma InstalledView(sb: Super, d: Disk, v: Disk, logged: set<nat>, a: Area, lh: seq<U32>)
    requires Journaled(sb, d, {}, v, logged) && Lists(a, lh, logged) && Loggable(d, a, lh)
    ensures forall b :: b in d && !a.Has(b) ==>
              && b in Apply(Home(d, a), InstallPlan(lh, LoggedData(v, lh)))
              && Apply(Home(d, a), InstallPlan(lh, LoggedData(v, lh)))[b] == v[b]
    ensures Apply(Home(d, a), InstallPlan(lh, LoggedData(v, lh))) == Home(v, a)
  {
    var vals := LoggedData(v, lh);
    var r := Apply(Home(d, a), InstallPlan(lh, vals));
    KeysKept(Home(d, a), InstallPlan(lh, vals));
    hide Apply, InstallPlan;
    forall b | b in d && !a.Has(b)
      ensures b in r && r[b] == v[b]
    {
      InstalledAt(Home(d, a), lh, vals, b);
      if b in lh {
        var t :| 0 <= t < |lh| && lh[t] == b;
      }
    }
    SameDisk(r, Home(v, a));
  }

  lemma SoundFormatted(sb: Super, disk: Disk, tbl: Table, owner: map<nat, Slot>)
    requires Sound(sb, disk, tbl, owner)
    ensures Formatted(sb, disk)
  {
  }

  /**
   End to end: stop the machine after write k of the commit that makes view v
   durable, recover, and read any file. Before the header write every file is
   as it was; from then on every file is as the transaction left it.
   */
  lemma FilesCrashAtomic(sb: Super, a: Area, d: Disk, v: Disk, tbl: Table, tbl': Table,
                         owner: map<nat, Slot>, owner': map<nat, Slot>, logged: set<nat>, lh: seq<U32>, k: nat, i: nat)
    requires Sound(sb, d, tbl, owner) && OnDisk(sb, d, tbl) && Sound(sb, v, tbl', owner') && OnDisk(sb, v, tbl')
    requires Quiet(d, a) && LogInFront(sb, a) && Journaled(sb, d, {}, v, logged) && Lists(a, lh, logged)
    requires (forall t :: 0 <= t < |lh| ==> lh[t] in v) && k <= |CommitPlan(d[a.start], a, lh, LoggedData(v, lh))| && i in tbl && i in tbl'
    ensures var e := Apply(d, CommitPlan(d[a.start], a, lh, LoggedData(v, lh))[..k]);
            && ValidDisk(e, a) && sb.IBlock(i) in Durable(e, a)
            && FileOnDisk(sb, Durable(e, a), i) == if k <= |lh| then Content(d, tbl[i]) else Content(v, tbl'[i])
  {
    hide Sound, Quiet, CommitPlan, Apply, Durable, Content, FileOnDisk;
    SoundFormatted(sb, d, tbl, owner);
    ListsLoggable(sb, a, d, v, logged, lh);
    CommitAtomic(d, a, lh, LoggedData(v, lh), k);
    InstalledView(sb, d, v, logged, a, lh);
    HomeContent(sb, d, tbl, owner, a, i);
    HomeContent(sb, v, tbl', owner', a, i);
  }
}
