/** itrunc(): which blocks it frees, and that it never frees a free one. */
module FsTrunc {
  import opened Blocks
  import opened Bitmap
  import opened FsModel

  /** Outside the free map nothing has changed. */
  ghost predicate MapOnly(sb: Super, disk: Disk, disk': Disk) {
    && disk.Keys == disk'.Keys
    && forall b :: b in disk && !(sb.bmapstart <= b < sb.datastart) ==> disk'[b] == disk[b]
  }

  /** The blocks behind inode i's first n pointer slots are no longer marked; all other marks stand. */
  ghost predicate FreedTo(sb: Super, disk: Disk, owner: map<nat, Slot>, disk': Disk, i: nat, n: nat) {
    && MapOnly(sb, disk, disk')
    && forall b :: 0 <= b < sb.size ==>
         (Used(sb, disk', b) <==> Used(sb, disk, b) && !(b in owner && owner[b].ino == i && owner[b].k < n))
  }

  ghost function Disown(owner: map<nat, Slot>, i: nat): (r: map<nat, Slot>) {
    map b | b in owner && owner[b].ino != i :: owner[b]
  }

  function Emptied(ino: Inode): (r: Inode) { ino.(size := 0, addrs := [0, 0, 0, 0, 0, 0, 0, 0, 0, 0, 0, 0, 0]) }

  lemma MapOnlyPtr(sb: Super, disk: Disk, tbl: Table, owner: map<nat, Slot>, disk': Disk, j: nat, l: nat)
    requires Sound(sb, disk, tbl, owner) && MapOnly(sb, disk, disk') && j in tbl
    ensures Ptr(disk', tbl[j], l) == Ptr(disk, tbl[j], l)
  {
    assert Ptr(disk, tbl[j], IND) == tbl[j].addrs[NDIRECT];
    if tbl[j].addrs[NDIRECT] != 0 {
      OwnerFact(sb, disk, tbl, owner, j, IND);
    }
    PtrFrame(disk, disk', tbl[j], l);
  }

  lemma MapOnlyByte(sb: Super, disk: Disk, tbl: Table, owner: map<nat, Slot>, disk': Disk, j: nat, p: nat)
    requires Sound(sb, disk, tbl, owner) && MapOnly(sb, disk, disk') && j in tbl && p < MAXFILE * BSIZE
    ensures ByteAt(disk', tbl[j], p) == ByteAt(disk, tbl[j], p)
  {
    MapOnlyPtr(sb, disk, tbl, owner, disk', j, p / BSIZE);
    if Ptr(disk, tbl[j], p / BSIZE) != 0 {
      OwnerFact(sb, disk, tbl, owner, j, p / BSIZE);
    }
  }

  /** A slot's block is still marked when its turn comes, so bfree() cannot panic. */
  lemma StillUsed(sb: Super, disk: Disk, tbl: Table, owner: map<nat, Slot>, disk': Disk, i: nat, n: nat)
    requires Sound(sb, disk, tbl, owner) && FreedTo(sb, disk, owner, disk', i, n) && i in tbl && n <= IND
    requires Ptr(disk, tbl[i], n) != 0
    ensures sb.Data(Ptr(disk, tbl[i], n)) && Used(sb, disk', Ptr(disk, tbl[i], n))
  {
    OwnerFact(sb, disk, tbl, owner, i, n);
  }

  /** An empty slot frees nothing. */
  lemma FreeNone(sb: Super, disk: Disk, tbl: Table, owner: map<nat, Slot>, disk': Disk, i: nat, n: nat)
    requires Sound(sb, disk, tbl, owner) && FreedTo(sb, disk, owner, disk', i, n) && i in tbl && n <= IND
    requires Ptr(disk, tbl[i], n) == 0
    ensures FreedTo(sb, disk, owner, disk', i, n + 1)
  {
    hide Ptr, Used;
    forall b | b in owner && owner[b].ino == i
      ensures owner[b].k != n
    {
      assert b >= sb.datastart > 0;
    }
  }

  /** Without an indirect block there is nothing beyond the direct slots. */
  lemma {:induction false} FreeNoneFrom(sb: Super, disk: Disk, tbl: Table, owner: map<nat, Slot>, disk': Disk, i: nat, n: nat)
    requires Sound(sb, disk, tbl, owner) && FreedTo(sb, disk, owner, disk', i, n) && i in tbl && NDIRECT <= n <= IND + 1
    requires tbl[i].addrs[NDIRECT] == 0
    ensures FreedTo(sb, disk, owner, disk', i, IND + 1)
    decreases IND + 1 - n
  {
    hide Sound, FreedTo;
    if n <= IND {
      FreeNone(sb, disk, tbl, owner, disk', i, n);
      FreeNoneFrom(sb, disk, tbl, owner, disk', i, n + 1);
    }
  }

  /** Exactly the inode's own blocks have been freed. */
  lemma FreedExactly(sb: Super, disk: Disk, tbl: Table, owner: map<nat, Slot>, disk': Disk, i: nat, b: nat)
    requires Sound(sb, disk, tbl, owner) && FreedTo(sb, disk, owner, disk', i, IND + 1) && i in tbl && sb.Data(b)
    ensures Used(sb, disk', b) <==> Used(sb, disk, b) && forall k :: 0 <= k <= IND ==> Ptr(disk, tbl[i], k) != b
  {
    hide Ptr, Used;
    if b in owner && owner[b].ino == i {
      assert Ptr(disk, tbl[i], owner[b].k) == b;
    }
  }

  /** Other inodes' copies on the disk, and every byte of every other file, survive. */
  lemma TruncatedOthers(sb: Super, disk: Disk, tbl: Table, owner: map<nat, Slot>, disk': Disk, j: nat)
    requires Sound(sb, disk, tbl, owner) && MapOnly(sb, disk, disk') && j in tbl && sb.IBlock(j) in disk
    ensures sb.IBlock(j) in disk' && Dinode(sb, disk', j) == Dinode(sb, disk, j)
    ensures Content(disk', tbl[j]) == Content(disk, tbl[j])
  {
    assert sb.IBlock(j) <= sb.IBlock(sb.ninodes);
    assert Whole(disk, tbl[j], tbl[j].size);
    hide Ptr, ByteAt, Content;
    forall p | 0 <= p < MAXFILE * BSIZE
      ensures ByteAt(disk', tbl[j], p) == ByteAt(disk, tbl[j], p)
    {
      MapOnlyByte(sb, disk, tbl, owner, disk', j, p);
    }
    ContentSame(disk, tbl[j], disk', tbl[j]);
  }

  lemma FreeOne(sb: Super, disk: Disk, tbl: Table, owner: map<nat, Slot>, disk': Disk, disk'': Disk, i: nat, n: nat)
    requires Sound(sb, disk, tbl, owner) && FreedTo(sb, disk, owner, disk', i, n) && i in tbl && n <= IND
    requires Ptr(disk, tbl[i], n) != 0 && MapOnly(sb, disk', disk'')
    requires forall b :: 0 <= b < sb.size ==> (Used(sb, disk'', b) <==> Used(sb, disk', b) && b != Ptr(disk, tbl[i], n))
    ensures FreedTo(sb, disk, owner, disk'', i, n + 1)
  {
    OwnerFact(sb, disk, tbl, owner, i, n);
    hide Ptr, Used;
    assert forall b :: b in owner && owner[b] == Slot(i, n) ==> b == Ptr(disk, tbl[i], n);
  }

  lemma EmptiedPtr(disk: Disk, ino: Inode, k: nat)
    ensures Ptr(disk, Emptied(ino), k) == 0
  {
  }

  ghost predicate Truncated(disk: Disk, tbl: Table, disk': Disk, tbl': Table, i: nat) {
    && tbl'.Keys == tbl.Keys && i in tbl
    && forall j, l :: j in tbl && 0 <= l ==> Ptr(disk', tbl'[j], l) == if j == i then 0 else Ptr(disk, tbl[j], l)
  }

  lemma TruncatedPtrs(sb: Super, disk: Disk, tbl: Table, owner: map<nat, Slot>, disk': Disk, i: nat)
    requires Sound(sb, disk, tbl, owner) && MapOnly(sb, disk, disk') && i in tbl
    ensures Truncated(disk, tbl, disk', tbl[i := Emptied(tbl[i])], i)
  {
    var tbl' := tbl[i := Emptied(tbl[i])];
    forall j, l | j in tbl && 0 <= l
      ensures Ptr(disk', tbl'[j], l) == if j == i then 0 else Ptr(disk, tbl[j], l)
    {
      EmptiedPtr(disk', tbl[i], l);
      MapOnlyPtr(sb, disk, tbl, owner, disk', j, l);
    }
  }

  lemma TruncatedOwned(sb: Super, disk: Disk, tbl: Table, owner: map<nat, Slot>, disk': Disk, tbl': Table, i: nat)
    requires Owned(sb, disk, tbl, owner) && Truncated(disk, tbl, disk', tbl', i)
    ensures Owned(sb, disk', tbl', Disown(owner, i))
  {
    hide Ptr;
  }

  lemma TruncatedMapped(sb: Super, disk: Disk, tbl: Table, owner: map<nat, Slot>, disk': Disk, tbl': Table, i: nat)
    requires Mapped(sb, disk, tbl, owner) && Truncated(disk, tbl, disk', tbl', i)
    requires FreedTo(sb, disk, owner, disk', i, IND + 1)
    ensures Mapped(sb, disk', tbl', Disown(owner, i))
  {
    hide Ptr, Used;
  }

  /** After the last slot the inode is empty and the rest of the file system is sound. */
  lemma TruncatedSound(sb: Super, disk: Disk, tbl: Table, owner: map<nat, Slot>, disk': Disk, i: nat)
    requires Sound(sb, disk, tbl, owner) && FreedTo(sb, disk, owner, disk', i, IND + 1) && i in tbl
    ensures Sound(sb, disk', tbl[i := Emptied(tbl[i])], Disown(owner, i))
  {
    var tbl' := tbl[i := Emptied(tbl[i])];
    assert Mapped(sb, disk, tbl, owner);
    assert forall b :: 0 <= b < sb.datastart ==> b !in owner;
    hide Ptr, Used;
    TruncatedPtrs(sb, disk, tbl, owner, disk', i);
    TruncatedOwned(sb, disk, tbl, owner, disk', tbl', i);
    TruncatedMapped(sb, disk, tbl, owner, disk', tbl', i);
    hide Owned, Mapped;
    assert forall j :: j in tbl && j != i ==> Whole(disk, tbl[j], tbl[j].size);
  }
}
