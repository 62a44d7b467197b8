/**
 The file-system operations on the logged view of the disk: `disk` is what
 bread() shows inside a transaction and `logged` what log_write() has recorded.
 */
module Fs {
  import opened Blocks
  import opened Bitmap
  import opened FsModel
  import opened Counting
  import opened RedoLog
  import opened FsTrunc

  /** Blocks a transfer of n bytes at offset off touches. */
  function Span(off: nat, n: nat): (k: nat)
  {
    if n == 0 then 0 else (off + n - 1) / BSIZE - off / BSIZE + 1
  }

  /** After c rounds: data blocks, bitmap blocks, and whether an indirect block was added (g). */
  ghost predicate Tally(bm: set<nat>, data: set<nat>, c: nat, off: nat, g: nat) {
    |data| <= c && |bm| + (if off % BSIZE != 0 && c > 0 then 1 else 0) <= c + g
  }

  lemma TallyNext(bm: set<nat>, b: set<nat>, data: set<nat>, a: nat, c: nat, off: nat, g: nat, more: nat, miss: nat)
    requires Tally(bm, data, c, off, g) && |b| <= miss + more && miss <= 1
    requires off % BSIZE != 0 && c == 0 ==> miss == 0
    ensures Tally(bm + b, data + {a}, c + 1, off, g + more)
  {
    UnionSize(bm, b);
    UnionSize(data, {a});
  }

  lemma UnionSize(x: set<nat>, y: set<nat>)
    ensures |x + y| <= |x| + |y|
  {
    assert x + y == x + (y - x);
    SubsetSize(y - x, y);
  }

  /** Where a transfer stops short: before the first round that would pass the accessible bytes. */
  ghost predicate Stopped(avail: nat, off: nat, tot: nat, n: nat) {
    && tot < n && tot <= avail < tot + Min(n - tot, BSIZE - (off + tot) % BSIZE)
    && (tot == 0 || (off + tot) % BSIZE == 0)
  }

  /** Round c of a transfer starts at a block boundary, except perhaps the first. */
  ghost predicate AtRound(off: nat, tot: nat, n: nat, c: nat) {
    tot < n ==> c == (off + tot) / BSIZE - off / BSIZE && (c > 0 ==> (off + tot) % BSIZE == 0)
  }

  lemma NextRound(off: nat, tot: nat, n: nat, c: nat)
    requires tot < n && AtRound(off, tot, n, c)
    ensures AtRound(off, tot + Min(n - tot, BSIZE - (off + tot) % BSIZE), n, c + 1)
    ensures c + 1 <= Span(off, n)
  {
    var o := off + tot;
    assert o <= off + n - 1;
    if n - tot > BSIZE - o % BSIZE {
      assert o + (BSIZE - o % BSIZE) == (o / BSIZE + 1) * BSIZE;
    }
  }

  /** Three blocks' worth of bytes touch four blocks, and only three when aligned. */
  lemma SpanBound(off: nat, n: nat)
    requires n <= 3 * BSIZE
    ensures Span(off, n) <= if off % BSIZE == 0 then 3 else 4
  {
    if n > 0 {
      var k, e := off / BSIZE, off % BSIZE;
      assert off == k * BSIZE + e;
      assert (off + n - 1) / BSIZE == k + (e + n - 1) / BSIZE;
    }
  }

  /** filewrite()'s limit: all but inode, indirect and slop blocks, halved for allocation. */
  function MaxWrite(): (m: nat)
    ensures m == 3 * BSIZE
  {
    (MAXOPBLOCKS - 1 - 1 - 2) / 2 * BSIZE
  }

  // --------------------------------------------------- how far filewrite() gets

  const LIMIT: nat := 274432 // MAXFILE * BSIZE
  const CHUNK: nat := 3072   // MaxWrite()

  /** filewrite() may stop here: at the end, between two transactions, or between two blocks. */
  predicate Cut(off: nat, n: nat, t: nat) { t == n || t % CHUNK == 0 || (off + t) % BSIZE == 0 }

  /** What fits the largest file: all of it, or as many whole transactions as do. */
  function Room(off: nat, n: nat): (m: nat) {
    if off + n <= LIMIT then n else if off > LIMIT then 0 else (LIMIT - off) / CHUNK * CHUNK
  }

  /** t is the last place to stop within the accessible bytes and the room. */
  ghost predicate Furthest(avail: nat, off: nat, n: nat, t: nat) {
    && t <= avail && t <= Room(off, n) && Cut(off, n, t)
    && forall u :: t < u <= avail && u <= Room(off, n) ==> !Cut(off, n, u)
  }

  lemma FurthestAll(avail: nat, off: nat, n: nat, t: nat)
    requires n <= avail && off + n <= LIMIT && Furthest(avail, off, n, t)
    ensures t == n
  {
    assert t < n ==> !Cut(off, n, n);
  }

  /** The loop's counter: whole transactions so far, within the room. */
  ghost predicate Underway(avail: nat, off: nat, n: nat, done: nat) {
    && done <= avail && done <= Room(off, n) && (done == n || done % CHUNK == 0)
  }

  lemma RoundFits(avail: nat, off: nat, n: nat, done: nat, n1: nat)
    requires Underway(avail, off, n, done) && done < n && n1 == Min(n - done, CHUNK)
    ensures off + done + n1 <= LIMIT ==> done + n1 <= Room(off, n) && (done + n1 == n || (done + n1) % CHUNK == 0)
    ensures off + done + n1 > LIMIT ==> done == Room(off, n)
  {
    if off + n > LIMIT && off <= LIMIT {
      var j, k := done / CHUNK, (LIMIT - off) / CHUNK;
      assert done == j * CHUNK;
      if off + done + n1 <= LIMIT {
        assert n1 == CHUNK && (j + 1) * CHUNK <= LIMIT - off;
        assert j + 1 <= k;
      } else {
        assert (j + 1) * CHUNK > LIMIT - off && j >= k;
      }
    }
  }

  lemma StoppedFurthest(avail: nat, off: nat, n: nat, done: nat, n1: nat, r: nat)
    requires Underway(avail, off, n, done) && done < n && n1 == Min(n - done, CHUNK) && off + done + n1 <= LIMIT
    requires Stopped(avail - done, off + done, r, n1)
    ensures Furthest(avail, off, n, done + r)
  {
    RoundFits(avail, off, n, done, n1);
    var t, o := done + r, (off + done + r) % BSIZE;
    forall u | t < u <= avail && u <= Room(off, n) ensures !Cut(off, n, u) {
      assert u < done + n1 && u - t < BSIZE - o;
      Between(done, u);
      Inside(off + t, u - t);
    }
  }

  lemma UnderwayStart(avail: nat, off: nat, n: int)
    ensures n >= 0 ==> Underway(avail, off, n, 0)
  {
  }

  /** One transaction more, or the place where the writing ends. */
  lemma RoundDone(avail: nat, off: nat, n: nat, done: nat, n1: nat, r: int)
    requires Underway(avail, off, n, done) && done < n && n1 == Min(n - done, CHUNK) && -1 <= r <= n1
    requires r == -1 <==> off + done + n1 > LIMIT
    requires 0 <= r < n1 ==> Stopped(avail - done, off + done, r, n1)
    requires r == n1 ==> done + n1 <= avail
    ensures r == n1 ==> Underway(avail, off, n, done + n1)
    ensures r != n1 ==> Furthest(avail, off, n, if r > 0 then done + r else done)
  {
    RoundFits(avail, off, n, done, n1);
    if 0 <= r < n1 { StoppedFurthest(avail, off, n, done, n1, r); }
  }

  lemma FurthestEnd(avail: nat, off: nat, n: nat, done: nat)
    requires Underway(avail, off, n, done) && done >= n
    ensures Furthest(avail, off, n, done) && done == n
  {
    RoomBound(off, n);
  }

  lemma RoomBound(off: nat, n: nat)
    ensures Room(off, n) <= n
  {
    if off + n > LIMIT && off <= LIMIT { assert (LIMIT - off) / CHUNK * CHUNK <= LIMIT - off; }
  }

  /** A longer stretch is no more complete. */
  lemma WholeLess(d: Disk, i: Inode, e: nat, f: nat)
    requires !Whole(d, i, e) && e <= f
    ensures !Whole(d, i, f)
  {
    hide Ptr;
  }

  lemma Between(done: nat, u: nat)
    requires done % CHUNK == 0 && done < u < done + CHUNK
    ensures u % CHUNK != 0
  {
  }

  lemma Inside(o: nat, k: nat)
    requires 0 < k < BSIZE - o % BSIZE
    ensures (o + k) % BSIZE != 0
  {
  }

  /** All that has been logged since: bitmap blocks, data blocks and, if there is one, the indirect block x. */
  ghost predicate Recorded(logged: set<nat>, logged0: set<nat>, bm: set<nat>, data: set<nat>, x: U32) {
    logged <= logged0 + bm + data + (if x == 0 then {} else {x as nat})
  }

  lemma RecordedMore(l0: set<nat>, l1: set<nat>, l2: set<nat>, bm: set<nat>, bm': set<nat>, data: set<nat>, data': set<nat>, x: U32, x': U32)
    requires Recorded(l1, l0, bm, data, x) && Recorded(l2, l1, bm', data', x') && (x != 0 ==> x == x')
    ensures Recorded(l2, l0, bm + bm', data + data', x')
  {
  }

  class Fs {
    const sb: Super
    var disk: Disk
    var inode: Table           // in-memory inodes
    var logged: set<nat>       // blocks of the current transaction
    ghost var owner: map<nat, Slot>

    constructor (sb: Super, disk: Disk, inode: Table, ghost owner: map<nat, Slot>)
      requires Sound(sb, disk, inode, owner)
      ensures this.sb == sb && this.disk == disk && this.inode == inode && logged == {} && Valid()
    {
      this.sb, this.disk, this.inode, this.owner, logged := sb, disk, inode, owner, {};
    }

    ghost predicate Valid()
      reads this
    {
      Sound(sb, disk, inode, owner)
    }

    /** The two scan loops of balloc(): the lowest free block, or sb.size. */
    method FindFree() returns (r: nat)
      requires Formatted(sb, disk)
      ensures r <= sb.size
      ensures r < sb.size ==> !Used(sb, disk, r) && sb.Data(r)
      ensures forall c :: 0 <= c < r ==> Used(sb, disk, c)
    {
      var b := 0;
      while b < sb.size
        invariant b % BPB == 0
        invariant forall c :: 0 <= c < b && c < sb.size ==> Used(sb, disk, c)
      {
        BBlockLow(sb, b);
        var bp := disk[sb.BBlock(b)];
        var bi := 0;
        while bi < BPB && b + bi < sb.size
          invariant 0 <= bi <= BPB
          invariant forall c :: 0 <= c < b + bi && c < sb.size ==> Used(sb, disk, c)
        {
          assert sb.BBlock(b + bi) == sb.BBlock(b) && (b + bi) % BPB == bi;
          if !Bit(bp, bi) {
            return b + bi;
          }
          bi := bi + 1;
        }
        b := b + BPB;
      }
      r := sb.size;
    }

    /** balloc(): mark the lowest free block, zero it, return it; 0 is the panic. */
    method Balloc() returns (r: U32)
      requires Formatted(sb, disk)
      modifies this`disk, this`logged
      ensures r == 0 <==> old(Full())
      ensures r == 0 ==> disk == old(disk) && logged == old(logged)
      ensures r != 0 ==> Allocated(sb, old(disk), r, disk) && logged == old(logged) + {sb.BBlock(r), r}
      ensures Journaled(sb, old(disk), old(logged), disk, logged)
      ensures r != 0 ==> forall c :: 0 <= c < r ==> Used(sb, old(disk), c)
    {
      var f := FindFree();
      if f == sb.size {
        return 0;
      }
      r := f;
      BBlockLow(sb, r);
      var bb := sb.BBlock(r);
      disk := disk[bb := SetBit(disk[bb], r % BPB)];
      logged := logged + {bb};
      disk := disk[r := Zero()];
      logged := logged + {r as nat};
      MarkOne(old(disk), r, disk);
    }

    lemma MarkOne(d: Disk, r: U32, d': Disk)
      requires Formatted(sb, d) && sb.Data(r) && !Used(sb, d, r)
      requires d' == d[sb.BBlock(r) := SetBit(d[sb.BBlock(r)], r % BPB)][r := Zero()]
      ensures Allocated(sb, d, r, d')
    {
      BBlockLow(sb, r);
      forall b | 0 <= b < sb.size
        ensures Used(sb, d', b) <==> Used(sb, d, b) || b == r
      {
        BBlockLow(sb, b);
        if sb.BBlock(b) == sb.BBlock(r) && b % BPB == r % BPB {
          assert b == r;
        }
      }
    }

    /** A zeroed block r has been attached to slot k of inode i; no file reads differently. */
    twostate predicate Grew(i: nat, k: nat, r: nat)
      reads this
    {
      && Valid() && Extended(old(disk), old(inode), disk, inode)
      && i in inode && Ptr(disk, inode[i], k) == r && SameLow(sb, old(disk), disk)
      && (forall j :: j in inode && j != i ==> inode[j] == old(inode)[j])
    }

    /** ip->addrs[bn] = balloc(), also for the indirect block at bn == NDIRECT. */
    method GrowInode(i: nat, bn: nat) returns (r: U32)
      requires Valid() && i in inode && bn <= NDIRECT && inode[i].addrs[bn] == 0
      modifies this`disk, this`inode, this`logged, this`owner
      ensures i in inode
      ensures r == 0 <==> old(Full())
      ensures r == 0 ==> disk == old(disk)
      ensures r != 0 ==> Grew(i, if bn < NDIRECT then bn else IND, r) && logged == old(logged) + {sb.BBlock(r), r}
      ensures Journaled(sb, old(disk), old(logged), disk, logged)
      ensures r != 0 ==> inode[i] == old(inode[i]).(addrs := old(inode[i]).addrs[bn := r])
    {
      hide Ptr, Sound, Extended, Allocated, Used, Formatted, SameLow;
      ValidFormatted();
      r := Balloc();
      if r == 0 {
        return;
      }
      InodeDone(old(disk), disk, i, bn, r);
      inode := inode[i := inode[i].(addrs := inode[i].addrs[bn := r])];
      owner := owner[r := Slot(i, if bn < NDIRECT then bn else IND)];
    }

    lemma ValidFormatted()
      requires Valid()
      ensures Formatted(sb, disk)
    {
    }

    lemma InodeDone(d: Disk, d1: Disk, i: nat, bn: nat, r: U32)
      requires Sound(sb, d, inode, owner) && Allocated(sb, d, r, d1)
      requires i in inode && bn <= NDIRECT && inode[i].addrs[bn] == 0
      ensures var k, tbl := if bn < NDIRECT then bn else IND, inode[i := inode[i].(addrs := inode[i].addrs[bn := r])];
              && Sound(sb, d1, tbl, owner[r := Slot(i, k)])
              && Extended(d, inode, d1, tbl) && Ptr(d1, tbl[i], k) == r && SameLow(sb, d, d1)
    {
      var k, tbl := if bn < NDIRECT then bn else IND, inode[i := inode[i].(addrs := inode[i].addrs[bn := r])];
      if bn < NDIRECT {
        AttachDirect(sb, d, inode, owner, d1, i, bn, r);
      } else {
        AttachIndirect(sb, d, inode, owner, d1, i, r);
      }
      hide Ptr, Sound, Used, Extended;
      AttachedSound(sb, d, inode, owner, d1, tbl, i, k, r);
      AttachedExtends(sb, d, inode, owner, d1, tbl, i, k, r);
    }

    /** a[bn] = balloc(), then log_write() of the indirect block. */
    method GrowEntry(i: nat, k: nat) returns (r: U32)
      requires Valid() && i in inode && NDIRECT <= k < MAXFILE
      requires inode[i].addrs[NDIRECT] != 0 && Ptr(disk, inode[i], k) == 0
      modifies this`disk, this`logged, this`owner
      ensures i in inode
      ensures r == 0 <==> old(Full())
      ensures r == 0 ==> disk == old(disk)
      ensures r != 0 ==> Grew(i, k, r) && logged == old(logged) + {sb.BBlock(r), r, inode[i].addrs[NDIRECT]}
      ensures Journaled(sb, old(disk), old(logged), disk, logged)
    {
      hide Ptr, Sound, Extended, Allocated, Used, Formatted, PutWord, SameLow, Journaled;
      ValidFormatted();
      r := Balloc();
      if r == 0 {
        return;
      }
      var x := inode[i].addrs[NDIRECT];
      EntryDone(old(disk), disk, i, k, r);
      JournaledMore(sb, old(disk), old(logged), disk, logged, x, PutWord(disk[x], k - NDIRECT, r));
      disk := disk[x := PutWord(disk[x], k - NDIRECT, r)];
      logged := logged + {x as nat};
      owner := owner[r := Slot(i, k)];
    }

    lemma EntryDone(d: Disk, d1: Disk, i: nat, k: nat, r: U32)
      requires Sound(sb, d, inode, owner) && Allocated(sb, d, r, d1)
      requires i in inode && NDIRECT <= k < MAXFILE && inode[i].addrs[NDIRECT] != 0 && Ptr(d, inode[i], k) == 0
      ensures var x := inode[i].addrs[NDIRECT];
              && x in d1 && sb.inodestart <= x < sb.size
              && var d2 := d1[x := PutWord(d1[x], k - NDIRECT, r)];
                 && Sound(sb, d2, inode, owner[r := Slot(i, k)])
                 && Extended(d, inode, d2, inode) && Ptr(d2, inode[i], k) == r && SameLow(sb, d, d2)
    {
      EntryLow(d, d1, i, k, r);
      hide Ptr, Sound, Used, Extended, Allocated, FreshOnly, Marked, PutWord;
      AttachEntry(sb, d, inode, owner, d1, i, k, r);
      EntryMarks(d, d1, i, k, r);
      var x := inode[i].addrs[NDIRECT];
      var d2 := d1[x := PutWord(d1[x], k - NDIRECT, r)];
      AttachedSound(sb, d, inode, owner, d2, inode, i, k, r);
      AttachedExtends(sb, d, inode, owner, d2, inode, i, k, r);
    }

    lemma EntryLow(d: Disk, d1: Disk, i: nat, k: nat, r: U32)
      requires Sound(sb, d, inode, owner) && Allocated(sb, d, r, d1)
      requires i in inode && NDIRECT <= k < MAXFILE && inode[i].addrs[NDIRECT] != 0
      ensures var x := inode[i].addrs[NDIRECT];
              x in d1 && sb.inodestart <= x < sb.size && SameLow(sb, d, d1[x := PutWord(d1[x], k - NDIRECT, r)])
    {
      hide PutWord, Word, Used;
      assert Ptr(d, inode[i], IND) == inode[i].addrs[NDIRECT];
      OwnerFact(sb, d, inode, owner, i, IND);
    }

    /** Updating the indirect block leaves the free map and the miss block alone. */
    lemma EntryMarks(d: Disk, d1: Disk, i: nat, k: nat, r: U32)
      requires Sound(sb, d, inode, owner) && i in inode && inode[i].addrs[NDIRECT] != 0 && Allocated(sb, d, r, d1)
      requires NDIRECT <= k < MAXFILE
      ensures var x := inode[i].addrs[NDIRECT];
              && x in d1
              && Marked(sb, d, d1[x := PutWord(d1[x], k - NDIRECT, r)], r)
              && FreshOnly(sb, d, inode, d1[x := PutWord(d1[x], k - NDIRECT, r)], i, r)
    {
      hide PutWord, Word;
      var x := inode[i].addrs[NDIRECT];
      assert Ptr(d, inode[i], IND) == x;
      OwnerFact(sb, d, inode, owner, i, IND);
      var d2 := d1[x := PutWord(d1[x], k - NDIRECT, r)];
      forall b | 0 <= b < sb.size
        ensures Used(sb, d2, b) == Used(sb, d1, b)
      {
        BBlockLow(sb, b);
      }
    }

    /** Every block is in use. */
    ghost predicate Full()
      reads this
    {
      forall c :: 0 <= c < sb.size ==> Used(sb, disk, c)
    }

    /**
     bmap(): the disk block of file block bn, allocated if it was missing; 0
     is a panic (bn out of range, or no free block). `bm` is the set of bitmap
     blocks logged on the way.
     */
    method Bmap(i: nat, bn: nat) returns (addr: U32, ghost bm: set<nat>)
      requires Valid() && i in inode
      modifies this`disk, this`inode, this`logged, this`owner
      ensures i in inode
      ensures addr != 0 ==> Grew(i, bn, addr) && bn < MAXFILE
      ensures addr == 0 ==> bn >= MAXFILE || Full()
      ensures Journaled(sb, old(disk), old(logged), disk, logged)
      ensures bn < MAXFILE && old(Ptr(disk, inode[i], bn)) != 0 ==>
                addr == old(Ptr(disk, inode[i], bn)) && disk == old(disk) && inode == old(inode) && logged == old(logged)
      ensures |bm| <= (if old(Ptr(disk, inode[i], bn)) == 0 then 1 else 0)
                      + (if bn >= NDIRECT && old(inode[i]).addrs[NDIRECT] == 0 then 1 else 0)
      ensures addr != 0 ==> logged <= old(logged) + bm + {addr as nat}
                                      + (if bn < NDIRECT then {} else {inode[i].addrs[NDIRECT] as nat})
      ensures addr != 0 && bn < NDIRECT ==> inode[i].addrs[NDIRECT] == old(inode[i]).addrs[NDIRECT]
      ensures addr != 0 && bn >= NDIRECT ==> inode[i].addrs[NDIRECT] != 0
    {
      bm := {};
      if bn < NDIRECT {
        addr := inode[i].addrs[bn];
        if addr == 0 {
          addr := GrowInode(i, bn);
          bm := {sb.BBlock(addr)};
        }
      } else if bn < MAXFILE {
        addr, bm := BmapIndirect(i, bn);
      } else {
        addr := 0;
      }
    }

    method BmapIndirect(i: nat, bn: nat) returns (addr: U32, ghost bm: set<nat>)
      requires Valid() && i in inode && NDIRECT <= bn < MAXFILE
      modifies this`disk, this`inode, this`logged, this`owner
      ensures i in inode
      ensures addr != 0 ==> Grew(i, bn, addr)
      ensures addr == 0 ==> Full()
      ensures Journaled(sb, old(disk), old(logged), disk, logged)
      ensures old(Ptr(disk, inode[i], bn)) != 0 ==>
                addr == old(Ptr(disk, inode[i], bn)) && disk == old(disk) && inode == old(inode) && logged == old(logged)
      ensures |bm| <= (if old(Ptr(disk, inode[i], bn)) == 0 then 1 else 0)
                      + (if old(inode[i]).addrs[NDIRECT] == 0 then 1 else 0)
      ensures addr != 0 ==> logged <= old(logged) + bm + {addr as nat, inode[i].addrs[NDIRECT] as nat}
      ensures addr != 0 ==> inode[i].addrs[NDIRECT] != 0
    {
      hide Sound, Extended, Used, Ptr, Word;
      bm := {};
      var x := inode[i].addrs[NDIRECT];
      IndirectEntries(i, bn);
      if x == 0 {
        x := GrowInode(i, NDIRECT);
        if x == 0 {
          return 0, {};
        }
        bm := {sb.BBlock(x)};
      }
      IndirectEntries(i, bn);
      addr := Word(disk[x], bn - NDIRECT);
      if addr == 0 {
        label Mid:
        addr := GrowEntry(i, bn);
        if addr != 0 {
          ExtendedTwice(old(disk), old(inode), old@Mid(disk), inode, disk, inode);
        }
        bm := bm + {sb.BBlock(addr)};
      }
    }

    lemma IndirectEntries(i: nat, bn: nat)
      requires Valid() && i in inode && NDIRECT <= bn < MAXFILE
      ensures inode[i].addrs[NDIRECT] == 0 ==> Ptr(disk, inode[i], bn) == 0
      ensures inode[i].addrs[NDIRECT] != 0 ==>
                && inode[i].addrs[NDIRECT] in disk
                && Ptr(disk, inode[i], bn) == Word(disk[inode[i].addrs[NDIRECT]], bn - NDIRECT)
      ensures Extended(disk, inode, disk, inode)
    {
      assert Ptr(disk, inode[i], IND) == inode[i].addrs[NDIRECT];
      if inode[i].addrs[NDIRECT] != 0 {
        OwnerFact(sb, disk, inode, owner, i, IND);
      }
    }

    /** memmove into part of one data block, then log_write() it. */
    method PutData(i: nat, bn: nat, addr: U32, at: nat, data: seq<Byte>)
      requires Valid() && i in inode && bn < MAXFILE && addr != 0 && Ptr(disk, inode[i], bn) == addr
      requires at + |data| <= BSIZE
      modifies this`disk, this`logged
      ensures Valid() && logged == old(logged) + {addr as nat} && SameLow(sb, old(disk), disk)
      ensures Journaled(sb, old(disk), old(logged), disk, logged)
      ensures forall j, l :: j in inode && 0 <= l <= IND ==> Ptr(disk, inode[j], l) == Ptr(old(disk), inode[j], l)
      ensures forall j, p :: j in inode && 0 <= p < MAXFILE * BSIZE ==>
                ByteAt(disk, inode[j], p)
                == if j == i && bn * BSIZE + at <= p < bn * BSIZE + at + |data| then data[p - bn * BSIZE - at]
                   else ByteAt(old(disk), inode[j], p)
    {
      OwnerFact(sb, disk, inode, owner, i, bn);
      var b := disk[addr];
      var b' := b[..at] + data + b[at + |data|..];
      disk := disk[addr := b'];
      logged := logged + {addr as nat};
      DataSound(sb, old(disk), inode, owner, i, bn, b');
      ghost var d0 := old(disk);
      forall j, l | j in inode && 0 <= l <= IND
        ensures Ptr(disk, inode[j], l) == Ptr(d0, inode[j], l)
      {
        DataPtr(sb, d0, inode, owner, i, bn, b', j, l);
      }
      forall j, p | j in inode && 0 <= p < MAXFILE * BSIZE
        ensures ByteAt(disk, inode[j], p)
                == if j == i && bn * BSIZE + at <= p < bn * BSIZE + at + |data| then data[p - bn * BSIZE - at]
                   else ByteAt(d0, inode[j], p)
      {
        DataBytes(sb, d0, inode, owner, i, bn, b', j, p);
      }
    }

    /** Blocks logged so far: bitmap blocks, data blocks, and at most the indirect block. */
    ghost predicate Books(logged0: set<nat>, i: nat, bm: set<nat>, data: set<nat>)
      reads this
      requires i in inode
    {
      Recorded(logged, logged0, bm, data, inode[i].addrs[NDIRECT])
    }

    /** An indirect block has appeared since the given state of the inode. */
    ghost function Grown(was: Inode, i: nat): (k: nat)
      reads this
      requires i in inode
    {
      if was.addrs[NDIRECT] == 0 && inode[i].addrs[NDIRECT] != 0 then 1 else 0
    }

    /** bmap() as writei() uses it: nothing a reader can tell has changed. */
    method GetBlock(i: nat, bn: nat) returns (a: U32, ghost bm: set<nat>)
      requires Valid() && i in inode && bn < MAXFILE
      modifies this`disk, this`inode, this`logged, this`owner
      ensures a == 0 ==> Full() && old(Ptr(disk, inode[i], bn)) == 0
      ensures i in inode && Journaled(sb, old(disk), old(logged), disk, logged)
      ensures a != 0 ==> Valid() && SameLow(sb, old(disk), disk) && SameBytes(old(disk), old(inode), disk, inode, i)
      ensures a != 0 ==> inode[i] == old(inode[i]).(addrs := inode[i].addrs) && Ptr(disk, inode[i], bn) == a
      ensures a != 0 ==> Wrote(old(disk), old(inode)[i], disk, inode[i], 0, [], 0)
      ensures a != 0 ==> Covers(old(disk), old(inode)[i], disk, inode[i])
      ensures a != 0 && old(inode[i]).addrs[NDIRECT] != 0 ==> inode[i].addrs[NDIRECT] == old(inode[i]).addrs[NDIRECT]
      ensures a != 0 ==> |bm| <= (if old(Ptr(disk, inode[i], bn)) == 0 then 1 else 0) + Grown(old(inode[i]), i)
      ensures a != 0 ==> Books(old(logged), i, bm, {a as nat})
    {
      hide Sound, ByteAt, Used;
      a, bm := Bmap(i, bn);
      assert a != 0 ==> Ptr(disk, inode[i], IND) == inode[i].addrs[NDIRECT];
      assert Ptr(old(disk), old(inode)[i], IND) == old(inode)[i].addrs[NDIRECT];
    }

    /** PutData() in terms of the file's flat contents. */
    method PutChunk(i: nat, a: U32, o: nat, data: seq<Byte>)
      requires Valid() && i in inode && o < MAXFILE * BSIZE && a != 0 && Ptr(disk, inode[i], o / BSIZE) == a
      requires o % BSIZE + |data| <= BSIZE
      modifies this`disk, this`logged
      ensures Valid() && logged == old(logged) + {a as nat} && SameLow(sb, old(disk), disk)
      ensures Journaled(sb, old(disk), old(logged), disk, logged)
      ensures SameBytes(old(disk), inode, disk, inode, i)
      ensures Wrote(old(disk), inode[i], disk, inode[i], o, data, |data|)
      ensures Covers(old(disk), inode[i], disk, inode[i]) && Ptr(disk, inode[i], o / BSIZE) == a
    {
      hide Sound, ByteAt, Ptr;
      PutData(i, o / BSIZE, a, o % BSIZE, data);
      assert o / BSIZE * BSIZE + o % BSIZE == o;
    }

    /**
     One round of writei()'s loop: the block, then the bytes. a == 0 is
     bmap()'s panic, and `done` is false when copyin() fails.
     */
    method WriteRound(i: nat, src: seq<Byte>, off: nat, tot: nat, n: nat)
      returns (m: nat, done: bool, a: U32, ghost bm: set<nat>)
      requires Valid() && i in inode && tot < n && off + n <= MAXFILE * BSIZE && tot <= |src|
      requires Whole(disk, inode[i], off + tot)
      modifies this`disk, this`inode, this`logged, this`owner
      ensures a == 0 ==> Full() && old(Ptr(disk, inode[i], (off + tot) / BSIZE)) == 0
      ensures i in inode && Journaled(sb, old(disk), old(logged), disk, logged)
      ensures a != 0 ==> Valid() && SameLow(sb, old(disk), disk) && SameBytes(old(disk), old(inode), disk, inode, i)
      ensures a != 0 ==> inode[i] == old(inode[i]).(addrs := inode[i].addrs) && Covers(old(disk), old(inode)[i], disk, inode[i])
      ensures m == Min(n - tot, BSIZE - (off + tot) % BSIZE) && (done <==> a != 0 && tot + m <= |src|)
      ensures a != 0 ==> Wrote(old(disk), old(inode)[i], disk, inode[i], off + tot, src[tot..], if done then m else 0)
      ensures done ==> Whole(disk, inode[i], off + tot + m)
      ensures a != 0 && old(inode[i]).addrs[NDIRECT] != 0 ==> inode[i].addrs[NDIRECT] == old(inode[i]).addrs[NDIRECT]
      ensures a != 0 ==> |bm| <= (if old(Ptr(disk, inode[i], (off + tot) / BSIZE)) == 0 then 1 else 0) + Grown(old(inode[i]), i)
      ensures a != 0 ==> Books(old(logged), i, bm, {a as nat})
    {
      hide Sound, ByteAt, Ptr, Used;
      var o := off + tot;
      m := Min(n - tot, BSIZE - o % BSIZE);
      done := false;
      a, bm := GetBlock(i, o / BSIZE);
      if a != 0 {
        CoversWhole(old(disk), old(inode)[i], disk, inode[i], o);
        done := tot + m <= |src|;
        if done {
          label Got:
          PutChunk(i, a, o, src[tot..tot + m]);
          CoversWhole(old@Got(disk), inode[i], disk, inode[i], o);
          WrittenWhole(disk, inode[i], o, o / BSIZE, o + m);
        }
      }
    }

    /** tot of n bytes have been written by c rounds of the loop. */
    ghost predicate Progress(d0: Disk, t0: Table, logged0: set<nat>, i: nat, src: seq<Byte>, off: nat, tot: nat,
                             bm: set<nat>, data: set<nat>, c: nat)
      reads this
      requires i in t0
    {
      && Valid() && SameLow(sb, d0, disk) && SameBytes(d0, t0, disk, inode, i) && Journaled(sb, d0, logged0, disk, logged)
      && i in inode && inode[i] == t0[i].(addrs := inode[i].addrs)
      && tot <= |src| && Wrote(d0, t0[i], disk, inode[i], off, src, tot)
      && Whole(disk, inode[i], off + tot) && Whole(disk, inode[i], inode[i].size)
      && Covers(d0, t0[i], disk, inode[i]) && Tally(bm, data, c, off, Grown(t0[i], i))
      && Books(logged0, i, bm, data)
      && (t0[i].addrs[NDIRECT] != 0 ==> inode[i].addrs[NDIRECT] == t0[i].addrs[NDIRECT])
    }

    method WriteStep(ghost d0: Disk, ghost t0: Table, ghost logged0: set<nat>, i: nat, src: seq<Byte>, off: nat, tot: nat, n: nat,
                     ghost bm: set<nat>, ghost data: set<nat>, ghost c: nat)
      returns (m: nat, ok: bool, ghost bm': set<nat>, ghost data': set<nat>)
      requires i in t0 && Progress(d0, t0, logged0, i, src, off, tot, bm, data, c)
      requires tot < n && off <= t0[i].size && off + n <= MAXFILE * BSIZE && AtRound(off, tot, n, c)
      modifies this`disk, this`inode, this`logged, this`owner
      ensures !ok ==> Full() && !Whole(d0, t0[i], off + n)
      ensures ok ==> m == 0 || m == Min(n - tot, BSIZE - (off + tot) % BSIZE)
      ensures ok ==> (m == 0 <==> tot + Min(n - tot, BSIZE - (off + tot) % BSIZE) > |src|)
      ensures ok ==> Progress(d0, t0, logged0, i, src, off, tot + m, bm', data', c + 1) && tot + m <= |src|
    {
      hide Sound, ByteAt, Ptr, Used, SameLow, SameBytes, Covers, Wrote, Tally, Span, Whole, AtRound, Recorded, Journaled;
      ghost var miss := if Ptr(disk, inode[i], (off + tot) / BSIZE) == 0 then 1 else 0;
      ghost var g := Grown(t0[i], i);
      FirstBlock(i, off, tot, n, c);
      ghost var d1, t1, l1 := disk, inode, logged;
      var k, done, a, b := WriteRound(i, src, off, tot, n);
      bm', data' := bm + b, data + {a as nat};
      if a == 0 {
        CoversMissing(d0, t0[i], d1, t1[i], off + tot, off + n);
        return 0, false, {}, {};
      }
      CoversTwice(d0, t0[i], d1, t1[i], disk, inode[i]);
      m, ok := if done then k else 0, true;
      SameTwice(sb, d0, t0, d1, t1, disk, inode, i);
      JournaledTwice(sb, d0, logged0, d1, l1, disk, logged);
      CoversWhole(d1, t1[i], disk, inode[i], inode[i].size);
      CoversWhole(d1, t1[i], disk, inode[i], off + tot);
      WroteMore(d0, t0[i], d1, t1[i], disk, inode[i], off, src, tot, m);
      TallyNext(bm, b, data, a, c, off, g, Grown(t1[i], i), miss);
      assert g + Grown(t1[i], i) == Grown(t0[i], i);
      RecordedMore(logged0, l1, logged, bm, b, data, {a as nat}, t1[i].addrs[NDIRECT], inode[i].addrs[NDIRECT]);
    }

    /** The loop of writei(); `ok` is false at bmap()'s panic. c counts its rounds. */
    method WriteBlocks(i: nat, src: seq<Byte>, off: nat, n: nat)
      returns (tot: nat, ok: bool, ghost bm: set<nat>, ghost data: set<nat>, ghost c: nat)
      requires Valid() && i in inode && off <= inode[i].size && off + n <= MAXFILE * BSIZE
      modifies this`disk, this`inode, this`logged, this`owner
      ensures !ok ==> Full() && !Whole(old(disk), old(inode)[i], off + n)
      ensures ok ==> Progress(old(disk), old(inode), old(logged), i, src, off, tot, bm, data, c) && c <= Span(off, n)
      ensures ok ==> tot <= n && (tot == n <==> n <= |src|)
      ensures ok && tot < n ==> Stopped(|src|, off, tot, n)
    {
      hide Sound, Progress, AtRound, Span, Used, Whole;
      tot, ok, bm, data, c := 0, true, {}, {}, 0;
      ProgressStart(i, src, off, n);
      while tot < n
        invariant tot <= n && tot <= |src|
        invariant Progress(old(disk), old(inode), old(logged), i, src, off, tot, bm, data, c)
        invariant AtRound(off, tot, n, c) && c <= Span(off, n) && (tot > 0 ==> c > 0)
      {
        NextRound(off, tot, n, c);
        ProgressBound(old(disk), old(inode), old(logged), i, src, off, tot, n, bm, data, c);
        var m;
        m, ok, bm, data := WriteStep(old(disk), old(inode), old(logged), i, src, off, tot, n, bm, data, c);
        if !ok {
          return;
        }
        c := c + 1;
        if m == 0 {
          break;
        }
        tot := tot + m;
      }
    }

    /** An unaligned first block lies below the size, so it exists. */
    lemma FirstBlock(i: nat, off: nat, tot: nat, n: nat, c: nat)
      requires i in inode && off <= inode[i].size && Whole(disk, inode[i], inode[i].size)
      requires tot < n && AtRound(off, tot, n, c)
      ensures off % BSIZE != 0 && c == 0 ==> Ptr(disk, inode[i], (off + tot) / BSIZE) != 0
    {
      if off % BSIZE != 0 && c == 0 {
        assert (off + tot) / BSIZE == off / BSIZE;
        assert off / BSIZE * BSIZE < off;
      }
    }

    lemma ProgressStart(i: nat, src: seq<Byte>, off: nat, n: nat)
      requires Valid() && i in inode && off <= inode[i].size
      ensures Progress(disk, inode, logged, i, src, off, 0, {}, {}, 0) && AtRound(off, 0, n, 0)
    {
      assert Whole(disk, inode[i], inode[i].size);
      CoversSelf(disk, inode[i]);
    }

    lemma ProgressBound(d0: Disk, t0: Table, logged0: set<nat>, i: nat, src: seq<Byte>, off: nat, tot: nat, n: nat,
                        bm: set<nat>, data: set<nat>, c: nat)
      requires i in t0 && Progress(d0, t0, logged0, i, src, off, tot, bm, data, c) && tot < n && AtRound(off, tot, n, c)
      ensures tot <= |src| && (tot > 0 && c > 0 ==> (off + tot) % BSIZE == 0)
    {
    }

    /** Every in-memory inode agrees with its copy on the disk, except perhaps inode i. */
    ghost predicate SyncedBut(i: nat)
      reads this
    {
      forall j :: j in inode && j != i ==> sb.IBlock(j) in disk && Dinode(sb, disk, j) == inode[j]
    }

    ghost predicate Synced()
      reads this
    {
      forall j :: j in inode ==> sb.IBlock(j) in disk && Dinode(sb, disk, j) == inode[j]
    }

    /** iupdate() */
    method Iupdate(i: nat)
      requires Valid() && i in inode && SyncedBut(i)
      modifies this`disk, this`logged
      ensures Valid() && Synced() && logged == old(logged) + {sb.IBlock(i)}
      ensures Journaled(sb, old(disk), old(logged), disk, logged)
      ensures forall c :: 0 <= c < sb.size ==> Used(sb, disk, c) == Used(sb, old(disk), c)
      ensures forall j, p :: j in inode && 0 <= p < MAXFILE * BSIZE ==> ByteAt(disk, inode[j], p) == ByteAt(old(disk), inode[j], p)
      ensures forall j, l :: j in inode && 0 <= l ==> Ptr(disk, inode[j], l) == Ptr(old(disk), inode[j], l)
    {
      var b := sb.IBlock(i);
      ghost var d0 := disk;
      InodeBlockFrame(sb, disk, inode, owner, i, PutWords(disk[b], 16 * (i % IPB), Encode(inode[i])));
      IupdateSyncs(i);
      InodeRange(i);
      hide Sound, Ptr, ByteAt, Dinode, PutWords, Encode, Used, Journaled;
      JournaledNone(sb, disk, logged);
      JournaledMore(sb, disk, logged, disk, logged, b, PutWords(disk[b], 16 * (i % IPB), Encode(inode[i])));
      disk := disk[b := PutWords(disk[b], 16 * (i % IPB), Encode(inode[i]))];
      logged := logged + {b};
    }

    lemma InodeRange(i: nat)
      requires Valid() && i in inode
      ensures sb.inodestart <= sb.IBlock(i) < sb.size
    {
    }

    lemma IupdateSyncs(i: nat)
      requires Valid() && i in inode && SyncedBut(i) && sb.IBlock(i) in disk
      ensures forall j :: j in inode ==>
                sb.IBlock(j) in disk && Dinode(sb, WithInode(sb, disk, i, inode[i]), j) == inode[j]
    {
      hide Ptr, ByteAt, Dinode, PutWords, Encode;
      forall j | j in inode
        ensures sb.IBlock(j) in disk && Dinode(sb, WithInode(sb, disk, i, inode[i]), j) == inode[j]
      {
        InodeOnDisk(disk, j);
        InodeRoundTrip(sb, disk, i, inode[i], j);
      }
    }

    lemma InodeOnDisk(d: Disk, j: nat)
      requires Sound(sb, d, inode, owner) && j in inode
      ensures sb.IBlock(j) in d
    {
      InodeBlockFrame(sb, d, inode, owner, j, Zero());
    }

    /** The three checks at the top of writei(); the sum is taken in 32 bits. */
    ghost predicate Refused(i: nat, off: U32, n: U32)
      reads this
      requires i in inode
    {
      off > inode[i].size || off + n >= 0x1_0000_0000 || off + n > MAXFILE * BSIZE
    }

    /**
     writei(): splice the accessible prefix of src into the file at off. -1 is
     a refused call; `ok` is false at bmap()'s panic.
     */
    method Writei(i: nat, src: seq<Byte>, off: U32, n: U32) returns (r: int, ok: bool)
      requires Valid() && Synced() && i in inode
      modifies this`disk, this`inode, this`logged, this`owner
      ensures !ok ==> Full() && !Whole(old(disk), old(inode)[i], off + n)
      ensures old(Refused(i, off, n)) <==> r == -1
      ensures r == -1 ==> ok && disk == old(disk) && inode == old(inode) && logged == old(logged) && Valid() && Synced()
      ensures ok && r != -1 ==> Valid() && Synced() && 0 <= r <= n && r <= |src| && (r == n <==> n <= |src|)
      ensures ok && 0 <= r < n ==> Stopped(|src|, off, r, n)
      ensures -1 <= r
      ensures ok && r != -1 ==> inode.Keys == old(inode.Keys) && Covers(old(disk), old(inode)[i], disk, inode[i])
      ensures ok && r != -1 ==>
                inode[i] == old(inode)[i].(size := if off + r > old(inode)[i].size then off + r else old(inode)[i].size, addrs := inode[i].addrs)
      ensures ok && r != -1 ==> Content(disk, inode[i]) == Splice(Content(old(disk), old(inode)[i]), off, src[..r])
      ensures ok && r != -1 ==> forall j :: j in inode && j != i ==>
                                  inode[j] == old(inode)[j] && Content(disk, inode[j]) == Content(old(disk), old(inode)[j])
      ensures ok && r != -1 && old(logged) == {} && n <= 3 * BSIZE ==> |logged| <= MAXOPBLOCKS
      ensures ok ==> Journaled(sb, old(disk), old(logged), disk, logged)
    {
      hide Covers, Content, Splice;
      ok := true;
      if off > inode[i].size || (off + n) % 0x1_0000_0000 < off {
        return -1, true;
      }
      if off + n > MAXFILE * BSIZE {
        return -1, true;
      }
      ghost var bm, data, c;
      r, ok, bm, data, c := WriteBlocks(i, src, off, n);
      if !ok {
        return;
      }
      Finish(old(disk), old(inode), old(logged), i, src, off, r, n, bm, data, c);
    }

    /** The end of writei(): the new size, then iupdate(). */
    method Finish(ghost d0: Disk, ghost t0: Table, ghost logged0: set<nat>, i: nat, ghost src: seq<Byte>, off: nat, tot: nat, ghost n: nat,
                  ghost bm: set<nat>, ghost data: set<nat>, ghost c: nat)
      requires i in t0 && Progress(d0, t0, logged0, i, src, off, tot, bm, data, c)
      requires off <= t0[i].size && tot <= n && off + n <= MAXFILE * BSIZE && c <= Span(off, n)
      requires forall j :: j in t0 ==> j < sb.ninodes && sb.IBlock(j) < sb.bmapstart && sb.IBlock(j) in d0 && Dinode(sb, d0, j) == t0[j]
      requires forall j :: j in t0 ==> t0[j].size <= MAXFILE * BSIZE
      modifies this`disk, this`inode, this`logged
      ensures Valid() && Synced() && inode.Keys == t0.Keys && Covers(d0, t0[i], disk, inode[i])
      ensures inode[i] == t0[i].(size := if off + tot > t0[i].size then off + tot else t0[i].size, addrs := inode[i].addrs)
      ensures Content(disk, inode[i]) == Splice(Content(d0, t0[i]), off, src[..tot])
      ensures forall j :: j in inode && j != i ==> inode[j] == t0[j] && Content(disk, inode[j]) == Content(d0, t0[j])
      ensures logged0 == {} && n <= 3 * BSIZE ==> |logged| <= MAXOPBLOCKS
      ensures Journaled(sb, d0, logged0, disk, logged)
    {
      hide Sound, Ptr, ByteAt, Used, Dinode;
      StillSynced(d0, t0, i);
      BudgetSum(logged0, i, off, n, bm, data, c, t0[i]);
      ghost var d1, i1 := disk, inode[i];
      hide Covers;
      if off + tot > inode[i].size {
        SetSize(i, off + tot);
      }
      Iupdate(i);
      CoversSame(d0, t0[i], d1, i1, disk, inode[i]);
      FinishContents(d0, t0, d1, i, src, off, tot);
    }

    lemma StillSynced(d0: Disk, t0: Table, i: nat)
      requires SameLow(sb, d0, disk) && SameBytes(d0, t0, disk, inode, i)
      requires forall j :: j in t0 ==> sb.IBlock(j) < sb.bmapstart && sb.IBlock(j) in d0 && Dinode(sb, d0, j) == t0[j]
      ensures SyncedBut(i)
    {
    }

    /** 4 data blocks, 4 bitmap blocks, the indirect block and the inode block. */
    lemma BudgetSum(logged0: set<nat>, i: nat, off: nat, n: nat, bm: set<nat>, data: set<nat>, c: nat, was: Inode)
      requires i in inode && Tally(bm, data, c, off, Grown(was, i)) && Books(logged0, i, bm, data) && c <= Span(off, n)
      ensures logged0 == {} && n <= 3 * BSIZE ==> |logged + {sb.IBlock(i)}| <= MAXOPBLOCKS
    {
      if logged0 == {} && n <= 3 * BSIZE {
        SpanBound(off, n);
        var x := if inode[i].addrs[NDIRECT] == 0 then {} else {inode[i].addrs[NDIRECT] as nat};
        var y := bm + data + x + {sb.IBlock(i)};
        UnionSize(bm, data);
        UnionSize(bm + data, x);
        UnionSize(bm + data + x, {sb.IBlock(i)});
        SubsetSize(logged + {sb.IBlock(i)}, y);
      }
    }

    lemma FinishContents(d0: Disk, t0: Table, d1: Disk, i: nat, src: seq<Byte>, off: nat, tot: nat)
      requires i in t0 && i in inode && tot <= |src| && off <= t0[i].size && off + tot <= MAXFILE * BSIZE
      requires inode.Keys == t0.Keys && forall j :: j in t0 && j != i ==> inode[j] == t0[j]
      requires forall j :: j in t0 ==> t0[j].size <= MAXFILE * BSIZE
      requires Wrote(d0, t0[i], d1, inode[i], off, src, tot)
      requires inode[i].size == (if off + tot > t0[i].size then off + tot else t0[i].size)
      requires forall j, p :: j in inode && j != i && 0 <= p < MAXFILE * BSIZE ==> ByteAt(d1, inode[j], p) == ByteAt(d0, t0[j], p)
      requires forall j, p :: j in inode && 0 <= p < MAXFILE * BSIZE ==> ByteAt(disk, inode[j], p) == ByteAt(d1, inode[j], p)
      ensures Content(disk, inode[i]) == Splice(Content(d0, t0[i]), off, src[..tot])
      ensures forall j :: j in inode && j != i ==> Content(disk, inode[j]) == Content(d0, t0[j])
    {
      hide ByteAt, Content;
      ContentSplice(d0, t0[i], disk, inode[i], off, src, tot);
      forall j | j in inode && j != i
        ensures Content(disk, inode[j]) == Content(d0, t0[j])
      {
        ContentSame(d0, t0[j], disk, inode[j]);
      }
    }

    /** ip->size = off */
    method SetSize(i: nat, size: nat)
      requires Valid() && i in inode && inode[i].size <= size && Whole(disk, inode[i], size)
      modifies this`inode
      ensures Valid() && inode == old(inode)[i := old(inode)[i].(size := size)]
      ensures forall p :: 0 <= p < MAXFILE * BSIZE ==> ByteAt(disk, inode[i], p) == ByteAt(disk, old(inode)[i], p)
    {
      SizeSound(sb, disk, inode, owner, i, size);
      inode := inode[i := inode[i].(size := size)];
    }

    /**
     readi() into a destination with `room` writable bytes: the slice of the
     contents, or -1 when the copy runs out of room. bmap() never allocates.
     */
    method Readi(i: nat, off: U32, n: U32, room: nat) returns (r: int, out: seq<Byte>)
      requires Valid() && i in inode
      modifies this`disk, this`inode, this`logged, this`owner
      ensures disk == old(disk) && inode == old(inode) && logged == old(logged) && Valid()
      ensures var want := Slice(Content(disk, inode[i]), off, n);
              if |want| <= room then r == |want| && out == want else r == -1 && out < want
    {
      hide Sound, Used, ByteAt;
      out := [];
      if off > inode[i].size || (off + n) % 0x1_0000_0000 < off {
        return 0, [];
      }
      var size := inode[i].size;
      var len := if off + n > size then size - off else n;
      r, out := ReadLoop(i, off, len, room);
    }

    /** The loop of readi(). */
    method ReadLoop(i: nat, off: nat, len: nat, room: nat) returns (r: int, out: seq<Byte>)
      requires Valid() && i in inode && off + len <= inode[i].size
      modifies this`disk, this`inode, this`logged, this`owner
      ensures disk == old(disk) && inode == old(inode) && logged == old(logged) && Valid()
      ensures len <= room ==> r == len && out == Content(disk, inode[i])[off..off + len]
      ensures len > room ==> r == -1 && |out| < len && out == Content(disk, inode[i])[off..off + |out|]
    {
      hide Sound, Used, Content;
      out := [];
      r := 0;
      ghost var all := Content(disk, inode[i]);
      while r < len
        invariant 0 <= r <= len && r <= room && |out| == r
        invariant disk == old(disk) && inode == old(inode) && logged == old(logged) && Valid()
        invariant out == all[off..off + r]
      {
        var m := Min(len - r, BSIZE - (off + r) % BSIZE);
        var chunk := ReadRound(i, off + r, m);
        if r + m > room {
          return -1, out;
        }
        assert all[off..off + r] + all[off + r..off + r + m] == all[off..off + (r + m)];
        out := out + chunk;
        r := r + m;
      }
    }

    /** bread() of the block at offset o, and the part of it that is wanted. */
    method ReadRound(i: nat, o: nat, m: nat) returns (chunk: seq<Byte>)
      requires Valid() && i in inode && o + m <= inode[i].size && o % BSIZE + m <= BSIZE && m > 0
      modifies this`disk, this`inode, this`logged, this`owner
      ensures disk == old(disk) && inode == old(inode) && logged == old(logged) && Valid()
      ensures chunk == Content(disk, inode[i])[o..o + m]
    {
      WholeFile(i);
      assert o / BSIZE * BSIZE < inode[i].size;
      hide Sound, Ptr, Used, Content;
      var a, _ := Bmap(i, o / BSIZE);
      ChunkOfContent(i, o, m);
      chunk := disk[a][o % BSIZE..o % BSIZE + m];
    }

    lemma WholeFile(i: nat)
      requires Valid() && i in inode
      ensures Whole(disk, inode[i], inode[i].size)
    {
    }

    /** A range inside one block of a file. */
    lemma ChunkOfContent(i: nat, o: nat, m: nat)
      requires Valid() && i in inode && o + m <= inode[i].size && o % BSIZE + m <= BSIZE && m > 0
      ensures var a := Ptr(disk, inode[i], o / BSIZE);
              a in disk && disk[a][o % BSIZE..o % BSIZE + m] == Content(disk, inode[i])[o..o + m]
    {
      var a := Ptr(disk, inode[i], o / BSIZE);
      assert Whole(disk, inode[i], inode[i].size);
      assert o / BSIZE * BSIZE <= o;
      OwnerFact(sb, disk, inode, owner, i, o / BSIZE);
      var x, y := disk[a][o % BSIZE..o % BSIZE + m], Content(disk, inode[i])[o..o + m];
      forall q | 0 <= q < m
        ensures x[q] == y[q]
      {
        assert (o + q) / BSIZE == o / BSIZE && (o + q) % BSIZE == o % BSIZE + q;
      }
    }

    /** The file after done bytes of src at off; all other files as they were. */
    ghost predicate FileProgress(d0: Disk, t0: Table, i: nat, src: seq<Byte>, off: nat, done: nat, sizes: seq<nat>)
      reads this
      requires i in t0
    {
      && Valid() && Synced() && inode.Keys == t0.Keys && done <= |src|
      && Spliced(Content(d0, t0[i]), Content(disk, inode[i]), off, src[..done])
      && (forall j :: j in inode && j != i ==> inode[j] == t0[j] && Content(disk, inode[j]) == Content(d0, t0[j]))
      && (forall t :: 0 <= t < |sizes| ==> sizes[t] <= MAXOPBLOCKS)
      && Covers(d0, t0[i], disk, inode[i])
      && inode[i] == t0[i].(size := if done > 0 && off + done > t0[i].size then off + done else t0[i].size, addrs := inode[i].addrs)
    }

    lemma FileStart(i: nat, src: seq<Byte>, off: nat)
      requires Valid() && Synced() && i in inode
      ensures FileProgress(disk, inode, i, src, off, 0, [])
    {
      hide Sound, Content, Dinode;
      assert src[..0] == [];
      CoversSelf(disk, inode[i]);
    }

    /** One transaction of filewrite(): begin_op(), writei(), end_op(). */
    method FileRound(ghost d0: Disk, ghost t0: Table, i: nat, src: seq<Byte>, ghost off0: nat, off: U32, done: nat, n1: nat,
                     ghost sizes: seq<nat>)
      returns (r: int, ok: bool, ghost sizes': seq<nat>)
      requires i in t0 && FileProgress(d0, t0, i, src, off0, done, sizes) && off == off0 + done && n1 <= 3 * BSIZE
      modifies this
      ensures !ok ==> Full() && !Whole(d0, t0[i], off + n1)
      ensures ok ==> -1 <= r <= n1
      ensures ok ==> (r == -1 <==> off + n1 > LIMIT || off0 + done > (if done > 0 && off0 + done > t0[i].size then off0 + done else t0[i].size))
      ensures ok && 0 <= r < n1 ==> Stopped(|src| - done, off, r, n1)
      ensures ok && r == n1 ==> done + n1 <= |src|
      ensures ok ==> FileProgress(d0, t0, i, src, off0, done + (if r > 0 then r else 0), sizes') && |sizes'| == |sizes| + 1
      ensures ok && r > 0 ==> off + r < 0x1_0000_0000
    {
      hide Sound, Content, Used, Dinode, Spliced, Splice, Stopped, Covers;
      logged := {};
      ghost var c1 := Content(disk, inode[i]);
      ghost var d1, t1 := disk, inode;
      r, ok := Writei(i, src[done..], off, n1);
      if ok {
        if r >= 0 {
          SplicedMore(Content(d0, t0[i]), c1, off0, src, done, r);
          CoversTwice(d0, t0[i], d1, t1[i], disk, inode[i]);
        }
      } else {
        CoversNotWhole(d0, t0[i], d1, t1[i], off + n1);
      }
      sizes' := sizes + [|logged|];
    }

    lemma CoversNotWhole(d0: Disk, i0: Inode, d1: Disk, i1: Inode, e: nat)
      requires Covers(d0, i0, d1, i1) && !Whole(d1, i1, e)
      ensures !Whole(d0, i0, e)
    {
      if Whole(d0, i0, e) { CoversWhole(d0, i0, d1, i1, e); }
    }

    /**
     filewrite() on an inode: transactions of at most three blocks' worth of
     bytes. `off` is f->off; each entry of `sizes` is the number of distinct
     blocks one transaction logged. `ok` is false at bmap()'s panic. It writes as
     far as the accessible bytes and the largest file allow: all of it, or up to the
     last block or transaction boundary before.
     */
    method FileWrite(i: nat, src: seq<Byte>, off0: U32, n: int) returns (ret: int, off: U32, ok: bool, ghost sizes: seq<nat>)
      requires Valid() && Synced() && i in inode
      modifies this
      ensures !ok ==> n > 0 && Full() && !Whole(old(disk), old(inode)[i], off0 + n)
      ensures ok && n >= 0 && off0 <= old(inode)[i].size ==> off0 <= off && Furthest(|src|, off0, n, off - off0)
      ensures ok && (n <= 0 || off0 > old(inode)[i].size) ==> off == off0
      ensures ok && 0 <= n <= |src| && off0 <= old(inode)[i].size && off0 + n <= MAXFILE * BSIZE ==> ret == n && off == off0 + n
      ensures ok ==> off0 <= off && FileProgress(old(disk), old(inode), i, src, off0, off - off0, sizes)
      ensures ok ==> ret == (if off - off0 == n then n else -1)
    {
      hide Sound, Content, FileProgress, Dinode, Full, MaxWrite, Whole, Underway, Furthest, Room, Cut, Stopped;
      var max := MaxWrite();
      var done := 0;
      off, ok, sizes, ret := off0, true, [], 0;
      FileStart(i, src, off0);
      ghost var size := inode[i].size;
      UnderwayStart(|src|, off0, n);
      while done < n
        invariant 0 <= done && (done <= n || done == 0) && off == off0 + done
        invariant FileProgress(old(disk), old(inode), i, src, off0, done, sizes)
        invariant n >= 0 && off0 <= size ==> Underway(|src|, off0, n, done)
        invariant off0 > size ==> done == 0
      {
        var n1 := if n - done > max then max else n - done;
        if off0 <= size { RoundFits(|src|, off0, n, done, n1); }
        var r;
        r, ok, sizes := FileRound(old(disk), old(inode), i, src, off0, off, done, n1, sizes);
        if !ok {
          WholeLess(old(disk), old(inode)[i], off + n1, off0 + n);
          return;
        }
        if off0 <= size { RoundDone(|src|, off0, n, done, n1, r); }
        if r > 0 {
          off := off + r;
          done := done + r;
        }
        if r != n1 {
          break;
        }
      }
      ret := if done == n then n else -1;
      if 0 <= n <= done && off0 <= size { FurthestEnd(|src|, off0, n, done); }
      if 0 <= n <= |src| && off0 <= size && off0 + n <= LIMIT { FurthestAll(|src|, off0, n, done); }
    }

    /** bfree(): false is the "freeing free block" panic. */
    method Bfree(b: nat) returns (ok: bool)
      requires Formatted(sb, disk) && sb.Data(b)
      modifies this`disk, this`logged
      ensures ok <==> Used(sb, old(disk), b)
      ensures !ok ==> disk == old(disk) && logged == old(logged)
      ensures ok ==> MapOnly(sb, old(disk), disk) && logged == old(logged) + {sb.BBlock(b)}
      ensures Journaled(sb, old(disk), old(logged), disk, logged)
      ensures ok ==> forall c :: 0 <= c < sb.size ==> (Used(sb, disk, c) <==> Used(sb, old(disk), c) && c != b)
    {
      BBlockLow(sb, b);
      var bb := sb.BBlock(b);
      if !Bit(disk[bb], b % BPB) {
        return false;
      }
      disk := disk[bb := ClearBit(disk[bb], b % BPB)];
      logged := logged + {bb};
      forall c | 0 <= c < sb.size
        ensures Used(sb, disk, c) <==> Used(sb, old(disk), c) && c != b
      {
        BBlockLow(sb, c);
        if sb.BBlock(c) == bb && c % BPB == b % BPB {
          assert c == b;
        }
      }
      ok := true;
    }

    /** One slot of itrunc(): free its block if it has one. */
    method FreeSlot(ghost d0: Disk, ghost t0: Table, i: nat, n: nat, p: U32)
      requires Sound(sb, d0, t0, owner) && FreedTo(sb, d0, owner, disk, i, n) && i in t0 && n <= IND
      requires p == Ptr(d0, t0[i], n)
      modifies this`disk, this`logged
      ensures FreedTo(sb, d0, owner, disk, i, n + 1) && Journaled(sb, old(disk), old(logged), disk, logged)
    {
      StillFormatted(d0, t0, i, n);
      if p != 0 {
        StillUsed(sb, d0, t0, owner, disk, i, n);
        hide Sound, Used, FreedTo, MapOnly, Formatted;
        ghost var d1 := disk;
        var ok := Bfree(p);
        assert ok;
        FreeOne(sb, d0, t0, owner, d1, disk, i, n);
      } else {
        FreeNone(sb, d0, t0, owner, disk, i, n);
      }
    }

    lemma StillFormatted(d0: Disk, t0: Table, i: nat, n: nat)
      requires Sound(sb, d0, t0, owner) && FreedTo(sb, d0, owner, disk, i, n)
      ensures Formatted(sb, disk)
    {
      hide Used, Ptr;
      assert forall b :: b in owner ==> sb.Data(b);
    }

    /** The first loop of itrunc(). */
    method FreeDirect(ghost d0: Disk, ghost t0: Table, i: nat)
      requires Sound(sb, d0, t0, owner) && i in t0 && inode == t0 && disk == d0
      modifies this`disk, this`logged, this`inode
      ensures FreedTo(sb, d0, owner, disk, i, NDIRECT) && Journaled(sb, old(disk), old(logged), disk, logged)
      ensures i in inode && inode == t0[i := t0[i].(addrs := inode[i].addrs)]
      ensures forall l :: 0 <= l < NDIRECT ==> inode[i].addrs[l] == 0
      ensures inode[i].addrs[NDIRECT] == t0[i].addrs[NDIRECT]
    {
      hide Sound, FreedTo;
      FreedNothing(d0, i);
      var k := 0;
      while k < NDIRECT
        invariant 0 <= k <= NDIRECT && FreedTo(sb, d0, owner, disk, i, k) && Journaled(sb, old(disk), old(logged), disk, logged)
        invariant i in inode && inode == t0[i := t0[i].(addrs := inode[i].addrs)]
        invariant forall l :: 0 <= l <= NDIRECT ==> inode[i].addrs[l] == if l < k then 0 else t0[i].addrs[l]
      {
        FreeSlot(d0, t0, i, k, inode[i].addrs[k]);
        inode := inode[i := inode[i].(addrs := inode[i].addrs[k := 0])];
        k := k + 1;
      }
    }

    lemma FreedNothing(d0: Disk, i: nat)
      ensures FreedTo(sb, d0, owner, d0, i, 0)
    {
    }

    /** The second loop of itrunc(), over the entries of the indirect block, then that block itself. */
    method FreeIndirect(ghost d0: Disk, ghost t0: Table, i: nat, x: U32)
      requires Sound(sb, d0, t0, owner) && i in t0 && x == t0[i].addrs[NDIRECT] != 0
      requires FreedTo(sb, d0, owner, disk, i, NDIRECT)
      modifies this`disk, this`logged
      ensures FreedTo(sb, d0, owner, disk, i, IND + 1) && Journaled(sb, old(disk), old(logged), disk, logged)
    {
      IndirectKept(d0, t0, i);
      hide Sound, FreedTo, Word;
      var a := disk[x];
      var j := 0;
      while j < NINDIRECT
        invariant 0 <= j <= NINDIRECT && FreedTo(sb, d0, owner, disk, i, NDIRECT + j) && Journaled(sb, old(disk), old(logged), disk, logged)
      {
        FreeSlot(d0, t0, i, NDIRECT + j, Word(a, j));
        j := j + 1;
      }
      FreeSlot(d0, t0, i, IND, x);
    }

    lemma IndirectKept(d0: Disk, t0: Table, i: nat)
      requires Sound(sb, d0, t0, owner) && i in t0 && t0[i].addrs[NDIRECT] != 0
      requires MapOnly(sb, d0, disk)
      ensures t0[i].addrs[NDIRECT] in disk && t0[i].addrs[NDIRECT] in d0
      ensures disk[t0[i].addrs[NDIRECT]] == d0[t0[i].addrs[NDIRECT]]
    {
      assert Ptr(d0, t0[i], IND) == t0[i].addrs[NDIRECT];
      OwnerFact(sb, d0, t0, owner, i, IND);
    }

    /**
     itrunc(): the inode loses all its blocks, exactly those blocks become
     free, no free block is freed, and no other file changes.
     */
    method Itrunc(i: nat)
      requires Valid() && Synced() && i in inode
      modifies this`disk, this`inode, this`logged, this`owner
      ensures Valid() && Synced() && inode == old(inode)[i := Emptied(old(inode)[i])]
      ensures forall b :: sb.Data(b) ==>
                (Used(sb, disk, b)
                 <==> Used(sb, old(disk), b) && forall k :: 0 <= k <= IND ==> Ptr(old(disk), old(inode)[i], k) != b)
      ensures Content(disk, inode[i]) == []
      ensures forall j :: j in inode && j != i ==> Content(disk, inode[j]) == Content(old(disk), old(inode)[j])
      ensures Journaled(sb, old(disk), old(logged), disk, logged)
    {
      hide Ptr, Used, Dinode, Sound, FreedTo, Content, Journaled;
      ghost var d0, t0, l0 := disk, inode, logged;
      FreeDirect(d0, t0, i);
      if inode[i].addrs[NDIRECT] != 0 {
        ghost var d1, l1 := disk, logged;
        FreeIndirect(d0, t0, i, inode[i].addrs[NDIRECT]);
        JournaledTwice(sb, d0, l0, d1, l1, disk, logged);
        inode := inode[i := inode[i].(addrs := inode[i].addrs[NDIRECT := 0])];
      } else {
        FreeNoneFrom(sb, d0, t0, owner, disk, i, NDIRECT);
      }
      inode := inode[i := inode[i].(size := 0)];
      assert inode[i].addrs == Emptied(t0[i]).addrs;
      ghost var d2, l2 := disk, logged;
      TruncEnd(d0, t0, i);
      JournaledTwice(sb, d0, l0, d2, l2, disk, logged);
    }

    method TruncEnd(ghost d0: Disk, ghost t0: Table, i: nat)
      requires Sound(sb, d0, t0, owner) && i in t0 && FreedTo(sb, d0, owner, disk, i, IND + 1)
      requires inode == t0[i := Emptied(t0[i])]
      requires forall j :: j in t0 ==> sb.IBlock(j) in d0 && Dinode(sb, d0, j) == t0[j]
      modifies this`disk, this`logged, this`owner
      ensures Valid() && Synced()
      ensures forall b :: sb.Data(b) ==>
                (Used(sb, disk, b) <==> Used(sb, d0, b) && forall k :: 0 <= k <= IND ==> Ptr(d0, t0[i], k) != b)
      ensures Content(disk, inode[i]) == []
      ensures forall j :: j in inode && j != i ==> Content(disk, inode[j]) == Content(d0, t0[j])
      ensures Journaled(sb, old(disk), old(logged), disk, logged)
    {
      hide Ptr, ByteAt, Used, Dinode, Sound, FreedTo, Content, Emptied;
      TruncatedSound(sb, d0, t0, owner, disk, i);
      TruncFacts(d0, t0, i);
      ghost var d1 := disk;
      owner := Disown(owner, i);
      Iupdate(i);
      SameContents(d1);
    }

    lemma TruncFacts(d0: Disk, t0: Table, i: nat)
      requires Sound(sb, d0, t0, owner) && i in t0 && FreedTo(sb, d0, owner, disk, i, IND + 1)
      requires inode == t0[i := Emptied(t0[i])]
      requires forall j :: j in t0 ==> sb.IBlock(j) in d0 && Dinode(sb, d0, j) == t0[j]
      ensures SyncedBut(i)
      ensures forall b :: sb.Data(b) ==>
                (Used(sb, disk, b) <==> Used(sb, d0, b) && forall k :: 0 <= k <= IND ==> Ptr(d0, t0[i], k) != b)
      ensures Content(disk, inode[i]) == []
      ensures forall j :: j in inode && j != i ==> Content(disk, inode[j]) == Content(d0, t0[j])
    {
      assert MapOnly(sb, d0, disk);
      hide Ptr, ByteAt, Used, Dinode, Sound, FreedTo, MapOnly;
      forall j | j in inode && j != i
        ensures sb.IBlock(j) in disk && Dinode(sb, disk, j) == inode[j]
        ensures Content(disk, inode[j]) == Content(d0, t0[j])
      {
        TruncatedOthers(sb, d0, t0, owner, disk, j);
      }
      forall b | sb.Data(b)
        ensures Used(sb, disk, b) <==> Used(sb, d0, b) && forall k :: 0 <= k <= IND ==> Ptr(d0, t0[i], k) != b
      {
        FreedExactly(sb, d0, t0, owner, disk, i, b);
      }
    }

    lemma SameContents(d1: Disk)
      requires Valid()
      requires forall j, p :: j in inode && 0 <= p < MAXFILE * BSIZE ==> ByteAt(disk, inode[j], p) == ByteAt(d1, inode[j], p)
      ensures forall j :: j in inode ==> Content(disk, inode[j]) == Content(d1, inode[j])
    {
      forall j | j in inode
        ensures Content(disk, inode[j]) == Content(d1, inode[j])
      {
        assert Whole(disk, inode[j], inode[j].size);
        ContentSame(d1, inode[j], disk, inode[j]);
      }
    }
  }
}
