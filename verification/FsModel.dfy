/**
 The file system's view of a disk: inodes, their direct and indirect block
 pointers, the free map, and what every operation must keep true of them.
 */
module FsModel {
  import opened Blocks
  import opened Bitmap

  const NDIRECT := 12
  const NINDIRECT := 256 // BSIZE / sizeof(uint)
  const MAXFILE := 268   // NDIRECT + NINDIRECT
  const IND := 268       // the pointer slot of the indirect block itself
  const IPB := 16        // BSIZE / sizeof(struct dinode)

  type Addrs = a: seq<U32> | |a| == NDIRECT + 1 witness seq(NDIRECT + 1, _ => 0)

  /** `kind` packs type and major, `links` packs minor and nlink. */
  datatype Inode = Inode(kind: U32, links: U32, size: U32, addrs: Addrs)

  /** Pointer slot k of inode ino. */
  datatype Slot = Slot(ino: nat, k: nat)

  type Table = map<nat, Inode>

  /** Where things are; data blocks follow the bitmap. */
  datatype Super = Super(size: nat, ninodes: nat, inodestart: nat, bmapstart: nat, datastart: nat) {
    function IBlock(i: nat): (b: nat) { i / IPB + inodestart }
    function BBlock(b: nat): (r: nat) { b / BPB + bmapstart }
    predicate Data(b: nat) { datastart <= b < size }
    predicate Ok() {
      && 0 < inodestart && IBlock(ninodes) < bmapstart
      && BBlock(size) < datastart <= size && size < 0x1_0000_0000
    }
  }

  predicate Used(sb: Super, disk: Disk, b: nat) {
    sb.BBlock(b) in disk && Bit(disk[sb.BBlock(b)], b % BPB)
  }

  /** mkfs's part: all blocks exist and the metadata blocks are marked. */
  ghost predicate Formatted(sb: Super, disk: Disk) {
    && sb.Ok()
    && (forall b :: 0 <= b < sb.size ==> b in disk)
    && (forall b :: 0 <= b < sb.datastart ==> Used(sb, disk, b))
  }

  /**
   Pointer slot k of an inode: its direct blocks, the entries of its indirect
   block, and at IND the indirect block. Zero means none.
   */
  function Ptr(disk: Disk, ino: Inode, k: nat): (p: U32) {
    if k < NDIRECT then ino.addrs[k]
    else if k == IND then ino.addrs[NDIRECT]
    else if k < MAXFILE && ino.addrs[NDIRECT] != 0 && ino.addrs[NDIRECT] in disk
      then Word(disk[ino.addrs[NDIRECT]], k - NDIRECT)
    else 0
  }

  /** No holes: every block below the size is there. */
  ghost predicate Whole(disk: Disk, ino: Inode, size: nat) {
    size <= MAXFILE * BSIZE && forall k :: 0 <= k && k * BSIZE < size ==> Ptr(disk, ino, k) != 0
  }

  /** Every pointer of every inode names its own data block. */
  ghost predicate Owned(sb: Super, disk: Disk, tbl: Table, owner: map<nat, Slot>) {
    forall i, k :: i in tbl && 0 <= k <= IND && Ptr(disk, tbl[i], k) != 0
      ==> && sb.Data(Ptr(disk, tbl[i], k)) && Ptr(disk, tbl[i], k) in owner
          && owner[Ptr(disk, tbl[i], k)] == Slot(i, k)
  }

  /** A data block is marked in the free map exactly when some pointer names it. */
  ghost predicate Mapped(sb: Super, disk: Disk, tbl: Table, owner: map<nat, Slot>) {
    && (forall b :: sb.Data(b) ==> (Used(sb, disk, b) <==> b in owner))
    && (forall b :: b in owner ==> && sb.Data(b) && owner[b].ino in tbl && owner[b].k <= IND
                                   && Ptr(disk, tbl[owner[b].ino], owner[b].k) == b)
  }

  ghost predicate Sound(sb: Super, disk: Disk, tbl: Table, owner: map<nat, Slot>) {
    && Formatted(sb, disk)
    && Owned(sb, disk, tbl, owner)
    && Mapped(sb, disk, tbl, owner)
    && (forall i :: i in tbl ==> i < sb.ninodes && Whole(disk, tbl[i], tbl[i].size))
  }

  /** Byte p of a file. */
  function ByteAt(disk: Disk, ino: Inode, p: nat): (x: Byte) {
    var b := Ptr(disk, ino, p / BSIZE);
    if b == 0 || b !in disk then 0 else disk[b][p % BSIZE]
  }

  /** A file's contents as one flat byte sequence. */
  function Content(disk: Disk, ino: Inode): (s: seq<Byte>)
    ensures |s| == ino.size
  {
    seq(ino.size, p requires 0 <= p < ino.size => ByteAt(disk, ino, p))
  }

  // ------------------------------------------------------------- framing

  /** Writing a block no inode uses as its indirect block keeps every pointer. */
  lemma PtrFrame(disk: Disk, disk': Disk, ino: Inode, k: nat)
    requires disk.Keys == disk'.Keys
    requires ino.addrs[NDIRECT] in disk ==> disk'[ino.addrs[NDIRECT]] == disk[ino.addrs[NDIRECT]]
    ensures Ptr(disk', ino, k) == Ptr(disk, ino, k)
  {
  }

  /** balloc()'s effect: block r is newly marked and zeroed, nothing else has changed. */
  ghost predicate Allocated(sb: Super, disk: Disk, r: nat, disk': Disk) {
    && sb.Data(r) && !Used(sb, disk, r) && disk.Keys == disk'.Keys
    && r in disk && disk'[r] == Zero()
    && (forall b :: b in disk && b != r && b != sb.BBlock(r) ==> disk'[b] == disk[b])
    && (forall b :: 0 <= b < sb.size ==> (Used(sb, disk', b) <==> Used(sb, disk, b) || b == r))
  }

  lemma BBlockLow(sb: Super, b: nat)
    requires sb.Ok() && b < sb.size
    ensures sb.BBlock(b) < sb.datastart
  {
  }

  lemma OwnerFact(sb: Super, disk: Disk, tbl: Table, owner: map<nat, Slot>, i: nat, k: nat)
    requires Sound(sb, disk, tbl, owner) && i in tbl && k <= IND && Ptr(disk, tbl[i], k) != 0
    ensures var p := Ptr(disk, tbl[i], k);
            sb.Data(p) && p in disk && Used(sb, disk, p) && p in owner && owner[p] == Slot(i, k)
  {
  }

  lemma AllocatedPtr(sb: Super, disk: Disk, tbl: Table, owner: map<nat, Slot>, r: nat, disk': Disk, i: nat, k: nat)
    requires Sound(sb, disk, tbl, owner) && Allocated(sb, disk, r, disk') && i in tbl
    ensures Ptr(disk', tbl[i], k) == Ptr(disk, tbl[i], k)
    ensures k <= IND ==> Ptr(disk, tbl[i], k) != r
  {
    BBlockLow(sb, r);
    var x := tbl[i].addrs[NDIRECT];
    assert x == Ptr(disk, tbl[i], IND);
    if x != 0 {
      OwnerFact(sb, disk, tbl, owner, i, IND);
    }
    PtrFrame(disk, disk', tbl[i], k);
    if k <= IND && Ptr(disk, tbl[i], k) == r {
      OwnerFact(sb, disk, tbl, owner, i, k);
    }
  }

  // ---------------------------------------------- attaching a fresh block

  /** Slot k of inode i now points to r; every other pointer, and every size, is as before. */
  ghost predicate Attached(disk: Disk, tbl: Table, disk': Disk, tbl': Table, i: nat, k: nat, r: nat) {
    && tbl.Keys == tbl'.Keys && i in tbl && k <= IND && Ptr(disk, tbl[i], k) == 0
    && (forall j :: j in tbl ==> tbl'[j].size == tbl[j].size)
    && (forall j, l :: j in tbl && 0 <= l <= IND
                       ==> Ptr(disk', tbl'[j], l) == if j == i && l == k then r else Ptr(disk, tbl[j], l))
  }

  ghost predicate Marked(sb: Super, disk: Disk, disk': Disk, r: nat) {
    && sb.Data(r) && !Used(sb, disk, r) && disk.Keys == disk'.Keys
    && forall b :: 0 <= b < sb.size ==> (Used(sb, disk', b) <==> Used(sb, disk, b) || b == r)
  }

  lemma AttachedOwned(sb: Super, disk: Disk, tbl: Table, owner: map<nat, Slot>, disk': Disk, tbl': Table, i: nat, k: nat, r: nat)
    requires Sound(sb, disk, tbl, owner) && Attached(disk, tbl, disk', tbl', i, k, r) && Marked(sb, disk, disk', r)
    ensures Owned(sb, disk', tbl', owner[r := Slot(i, k)])
  {
    forall j, l | j in tbl' && 0 <= l <= IND && Ptr(disk', tbl'[j], l) != 0
      ensures var p := Ptr(disk', tbl'[j], l);
              sb.Data(p) && p in owner[r := Slot(i, k)] && owner[r := Slot(i, k)][p] == Slot(j, l)
    {
      if !(j == i && l == k) {
        OwnerFact(sb, disk, tbl, owner, j, l);
      }
    }
  }

  lemma AttachedMapped(sb: Super, disk: Disk, tbl: Table, owner: map<nat, Slot>, disk': Disk, tbl': Table, i: nat, k: nat, r: nat)
    requires Sound(sb, disk, tbl, owner) && Attached(disk, tbl, disk', tbl', i, k, r) && Marked(sb, disk, disk', r)
    ensures Mapped(sb, disk', tbl', owner[r := Slot(i, k)])
  {
    hide Ptr, Used;
  }

  /** A fresh block attached to one empty slot keeps the file system sound. */
  lemma AttachedSound(sb: Super, disk: Disk, tbl: Table, owner: map<nat, Slot>, disk': Disk, tbl': Table, i: nat, k: nat, r: nat)
    requires Sound(sb, disk, tbl, owner) && Attached(disk, tbl, disk', tbl', i, k, r) && Marked(sb, disk, disk', r)
    ensures Sound(sb, disk', tbl', owner[r := Slot(i, k)])
  {
    AttachedOwned(sb, disk, tbl, owner, disk', tbl', i, k, r);
    AttachedMapped(sb, disk, tbl, owner, disk', tbl', i, k, r);
    hide Owned, Mapped, Ptr, Used;
    forall j | j in tbl'
      ensures j < sb.ninodes && Whole(disk', tbl'[j], tbl'[j].size)
    {
      assert Whole(disk, tbl[j], tbl[j].size);
      forall l | 0 <= l && l * BSIZE < tbl'[j].size
        ensures Ptr(disk', tbl'[j], l) != 0
      {
        assert l <= IND;
      }
    }
  }

  // The three places bmap() attaches a block.

  lemma AttachDirect(sb: Super, disk: Disk, tbl: Table, owner: map<nat, Slot>, disk': Disk, i: nat, k: nat, r: U32)
    requires Sound(sb, disk, tbl, owner) && Allocated(sb, disk, r, disk')
    requires i in tbl && k < NDIRECT && tbl[i].addrs[k] == 0
    ensures Attached(disk, tbl, disk', tbl[i := tbl[i].(addrs := tbl[i].addrs[k := r])], i, k, r)
  {
    var tbl' := tbl[i := tbl[i].(addrs := tbl[i].addrs[k := r])];
    forall j, l | j in tbl && 0 <= l <= IND
      ensures Ptr(disk', tbl'[j], l) == if j == i && l == k then r else Ptr(disk, tbl[j], l)
    {
      AllocatedPtr(sb, disk, tbl, owner, r, disk', j, l);
    }
  }

  lemma AttachIndirect(sb: Super, disk: Disk, tbl: Table, owner: map<nat, Slot>, disk': Disk, i: nat, r: U32)
    requires Sound(sb, disk, tbl, owner) && Allocated(sb, disk, r, disk')
    requires i in tbl && tbl[i].addrs[NDIRECT] == 0
    ensures Attached(disk, tbl, disk', tbl[i := tbl[i].(addrs := tbl[i].addrs[NDIRECT := r])], i, IND, r)
  {
    var tbl' := tbl[i := tbl[i].(addrs := tbl[i].addrs[NDIRECT := r])];
    forall j, l | j in tbl && 0 <= l <= IND
      ensures Ptr(disk', tbl'[j], l) == if j == i && l == IND then r else Ptr(disk, tbl[j], l)
    {
      AllocatedPtr(sb, disk, tbl, owner, r, disk', j, l);
      if NDIRECT <= l < MAXFILE {
        ZeroWord(l - NDIRECT);
      }
    }
  }

  lemma EntryPtr(sb: Super, disk: Disk, tbl: Table, owner: map<nat, Slot>, disk': Disk, i: nat, k: nat, r: U32, j: nat, l: nat)
    requires Sound(sb, disk, tbl, owner) && Allocated(sb, disk, r, disk')
    requires i in tbl && NDIRECT <= k < MAXFILE && tbl[i].addrs[NDIRECT] != 0 && Ptr(disk, tbl[i], k) == 0
    requires j in tbl && l <= IND
    ensures var x := tbl[i].addrs[NDIRECT];
            && x in disk'
            && Ptr(disk'[x := PutWord(disk'[x], k - NDIRECT, r)], tbl[j], l)
               == if j == i && l == k then r else Ptr(disk, tbl[j], l)
  {
    hide PutWord, Word;
    var x := tbl[i].addrs[NDIRECT];
    assert Ptr(disk, tbl[i], IND) == x;
    OwnerFact(sb, disk, tbl, owner, i, IND);
    AllocatedPtr(sb, disk, tbl, owner, r, disk', j, l);
    if tbl[j].addrs[NDIRECT] == x {
      assert Ptr(disk, tbl[j], IND) == x;
      OwnerFact(sb, disk, tbl, owner, j, IND);
    }
    if NDIRECT <= l < MAXFILE {
      PutWordRead(disk'[x], k - NDIRECT, r, l - NDIRECT);
    }
  }

  lemma AttachEntry(sb: Super, disk: Disk, tbl: Table, owner: map<nat, Slot>, disk': Disk, i: nat, k: nat, r: U32)
    requires Sound(sb, disk, tbl, owner) && Allocated(sb, disk, r, disk')
    requires i in tbl && NDIRECT <= k < MAXFILE && tbl[i].addrs[NDIRECT] != 0 && Ptr(disk, tbl[i], k) == 0
    ensures var x := tbl[i].addrs[NDIRECT];
            x in disk' && Attached(disk, tbl, disk'[x := PutWord(disk'[x], k - NDIRECT, r)], tbl, i, k, r)
  {
    var x := tbl[i].addrs[NDIRECT];
    EntryPtr(sb, disk, tbl, owner, disk', i, k, r, i, k);
    var d2 := disk'[x := PutWord(disk'[x], k - NDIRECT, r)];
    hide Ptr, Sound, Allocated, PutWord;
    forall j, l | j in tbl && 0 <= l <= IND
      ensures Ptr(d2, tbl[j], l) == if j == i && l == k then r else Ptr(disk, tbl[j], l)
    {
      EntryPtr(sb, disk, tbl, owner, disk', i, k, r, j, l);
    }
  }

  /** Only block r, its bitmap block and possibly inode i's indirect block differ. */
  ghost predicate FreshOnly(sb: Super, disk: Disk, tbl: Table, disk': Disk, i: nat, r: nat) {
    && i in tbl && disk.Keys == disk'.Keys && r in disk && disk'[r] == Zero()
    && forall b :: b in disk && b != r && b != sb.BBlock(r) && b != tbl[i].addrs[NDIRECT] ==> disk'[b] == disk[b]
  }

  /** No byte of any file changes: a fresh block is zero, and so is a missing one. */
  lemma AttachedBytes(sb: Super, disk: Disk, tbl: Table, owner: map<nat, Slot>, disk': Disk, tbl': Table, i: nat, k: nat, r: nat,
                      j: nat, p: nat)
    requires Sound(sb, disk, tbl, owner) && Attached(disk, tbl, disk', tbl', i, k, r) && Marked(sb, disk, disk', r)
    requires FreshOnly(sb, disk, tbl, disk', i, r) && j in tbl && p < MAXFILE * BSIZE
    ensures ByteAt(disk', tbl'[j], p) == ByteAt(disk, tbl[j], p)
  {
    var l := p / BSIZE;
    var b := Ptr(disk, tbl[j], l);
    BBlockLow(sb, r);
    if b != 0 {
      OwnerFact(sb, disk, tbl, owner, j, l);
      if b == tbl[i].addrs[NDIRECT] {
        assert Ptr(disk, tbl[i], IND) == b;
        OwnerFact(sb, disk, tbl, owner, i, IND);
      }
    }
  }

  /** What bmap() may do to the file system: add zeroed blocks, and nothing a reader can tell. */
  ghost predicate Extended(disk: Disk, tbl: Table, disk': Disk, tbl': Table) {
    && tbl.Keys == tbl'.Keys && disk.Keys == disk'.Keys
    && (forall j :: j in tbl ==> tbl'[j] == tbl[j].(addrs := tbl'[j].addrs))
    && (forall j, l :: j in tbl && 0 <= l <= IND && Ptr(disk, tbl[j], l) != 0
                       ==> Ptr(disk', tbl'[j], l) == Ptr(disk, tbl[j], l))
    && (forall j, p :: j in tbl && 0 <= p < MAXFILE * BSIZE
                       ==> ByteAt(disk', tbl'[j], p) == ByteAt(disk, tbl[j], p))
  }

  lemma AttachedExtends(sb: Super, disk: Disk, tbl: Table, owner: map<nat, Slot>, disk': Disk, tbl': Table, i: nat, k: nat, r: nat)
    requires Sound(sb, disk, tbl, owner) && Attached(disk, tbl, disk', tbl', i, k, r) && Marked(sb, disk, disk', r)
    requires FreshOnly(sb, disk, tbl, disk', i, r)
    requires forall j :: j in tbl ==> tbl'[j] == tbl[j].(addrs := tbl'[j].addrs)
    ensures Extended(disk, tbl, disk', tbl')
  {
    hide Ptr, ByteAt, Sound;
    forall j, p | j in tbl && 0 <= p < MAXFILE * BSIZE
      ensures ByteAt(disk', tbl'[j], p) == ByteAt(disk, tbl[j], p)
    {
      AttachedBytes(sb, disk, tbl, owner, disk', tbl', i, k, r, j, p);
    }
  }

  lemma ExtendedTwice(disk: Disk, tbl: Table, disk1: Disk, tbl1: Table, disk2: Disk, tbl2: Table)
    requires Extended(disk, tbl, disk1, tbl1) && Extended(disk1, tbl1, disk2, tbl2)
    ensures Extended(disk, tbl, disk2, tbl2)
  {
    hide Ptr, ByteAt;
  }

  // ------------------------------------------------------- writing file data

  /** Overwriting one data block of one file keeps all pointers ... */
  lemma DataPtr(sb: Super, disk: Disk, tbl: Table, owner: map<nat, Slot>, i: nat, k: nat, data: Block, j: nat, l: nat)
    requires Sound(sb, disk, tbl, owner) && i in tbl && k < MAXFILE && Ptr(disk, tbl[i], k) != 0 && j in tbl
    ensures Ptr(disk, tbl[i], k) in disk
    ensures Ptr(disk[Ptr(disk, tbl[i], k) := data], tbl[j], l) == Ptr(disk, tbl[j], l)
  {
    var b := Ptr(disk, tbl[i], k);
    OwnerFact(sb, disk, tbl, owner, i, k);
    if tbl[j].addrs[NDIRECT] == b {
      assert Ptr(disk, tbl[j], IND) == b;
      OwnerFact(sb, disk, tbl, owner, j, IND);
    }
    PtrFrame(disk, disk[b := data], tbl[j], l);
  }

  /** ... changes exactly that block's bytes of that file ... */
  lemma DataBytes(sb: Super, disk: Disk, tbl: Table, owner: map<nat, Slot>, i: nat, k: nat, data: Block, j: nat, p: nat)
    requires Sound(sb, disk, tbl, owner) && i in tbl && k < MAXFILE && Ptr(disk, tbl[i], k) != 0 && j in tbl
    requires p < MAXFILE * BSIZE
    ensures ByteAt(disk[Ptr(disk, tbl[i], k) := data], tbl[j], p)
            == if j == i && p / BSIZE == k then data[p % BSIZE] else ByteAt(disk, tbl[j], p)
  {
    OwnerFact(sb, disk, tbl, owner, i, k);
    DataPtr(sb, disk, tbl, owner, i, k, data, j, p / BSIZE);
    if Ptr(disk, tbl[j], p / BSIZE) != 0 {
      OwnerFact(sb, disk, tbl, owner, j, p / BSIZE);
    }
  }

  /** ... and keeps the file system sound. */
  lemma DataSound(sb: Super, disk: Disk, tbl: Table, owner: map<nat, Slot>, i: nat, k: nat, data: Block)
    requires Sound(sb, disk, tbl, owner) && i in tbl && k < MAXFILE && Ptr(disk, tbl[i], k) != 0
    ensures Sound(sb, disk[Ptr(disk, tbl[i], k) := data], tbl, owner)
  {
    var b := Ptr(disk, tbl[i], k);
    var disk' := disk[b := data];
    OwnerFact(sb, disk, tbl, owner, i, k);
    forall c | 0 <= c < sb.size
      ensures Used(sb, disk', c) == Used(sb, disk, c)
    {
      BBlockLow(sb, c);
    }
    forall j, l | j in tbl && 0 <= l
      ensures Ptr(disk', tbl[j], l) == Ptr(disk, tbl[j], l)
    {
      DataPtr(sb, disk, tbl, owner, i, k, data, j, l);
    }
    hide Ptr, Used;
    assert forall j :: j in tbl ==> Whole(disk, tbl[j], tbl[j].size);
  }

  // ------------------------------------------------------- inodes on the disk

  /** The on-disk copy of inode i. */
  function Dinode(sb: Super, disk: Disk, i: nat): (ino: Inode)
    requires sb.IBlock(i) in disk
  {
    Decode(Words(disk[sb.IBlock(i)], 16 * (i % IPB), 16))
  }

  function Decode(ws: seq<U32>): (ino: Inode)
    requires |ws| == 16
  {
    Inode(ws[0], ws[1], ws[2], ws[3..])
  }

  function Encode(ino: Inode): (ws: seq<U32>)
    ensures |ws| == 16 && Decode(ws) == ino
  {
    [ino.kind, ino.links, ino.size] + ino.addrs
  }

  /** iupdate()'s effect on the disk. */
  function WithInode(sb: Super, disk: Disk, i: nat, ino: Inode): (disk': Disk)
    requires sb.IBlock(i) in disk
  {
    disk[sb.IBlock(i) := PutWords(disk[sb.IBlock(i)], 16 * (i % IPB), Encode(ino))]
  }

  /** Superblock, log and inode blocks are as they were. */
  ghost predicate SameLow(sb: Super, disk: Disk, disk': Disk) {
    forall b :: b in disk && b < sb.bmapstart ==> b in disk' && disk'[b] == disk[b]
  }

  /** Writing one inode reads back as that inode, and as no change to any other. */
  lemma InodeRoundTrip(sb: Super, disk: Disk, i: nat, ino: Inode, j: nat)
    requires sb.IBlock(i) in disk && sb.IBlock(j) in disk
    ensures Dinode(sb, WithInode(sb, disk, i, ino), j) == if j == i then ino else Dinode(sb, disk, j)
  {
    hide PutWords, Words;
    if sb.IBlock(j) == sb.IBlock(i) {
      assert j != i ==> j % IPB != i % IPB;
      PutWordsRecord(disk[sb.IBlock(i)], 16 * (i % IPB), Encode(ino), 16 * (j % IPB));
    }
  }

  /** Inode blocks hold no file data, no pointers and no free map. */
  lemma InodeBlockFrame(sb: Super, disk: Disk, tbl: Table, owner: map<nat, Slot>, i: nat, data: Block)
    requires Sound(sb, disk, tbl, owner) && i < sb.ninodes
    ensures sb.IBlock(i) in disk && sb.IBlock(i) < sb.bmapstart
    ensures forall c :: 0 <= c < sb.size ==> Used(sb, disk[sb.IBlock(i) := data], c) == Used(sb, disk, c)
    ensures Sound(sb, disk[sb.IBlock(i) := data], tbl, owner)
    ensures forall j, l :: j in tbl && 0 <= l ==> Ptr(disk[sb.IBlock(i) := data], tbl[j], l) == Ptr(disk, tbl[j], l)
    ensures forall j, p :: j in tbl && 0 <= p < MAXFILE * BSIZE
                           ==> ByteAt(disk[sb.IBlock(i) := data], tbl[j], p) == ByteAt(disk, tbl[j], p)
  {
    var b := sb.IBlock(i);
    var disk' := disk[b := data];
    assert b <= sb.IBlock(sb.ninodes);
    forall j, l | j in tbl && 0 <= l
      ensures Ptr(disk', tbl[j], l) == Ptr(disk, tbl[j], l)
    {
      assert Ptr(disk, tbl[j], IND) == tbl[j].addrs[NDIRECT];
      if tbl[j].addrs[NDIRECT] != 0 {
        OwnerFact(sb, disk, tbl, owner, j, IND);
      }
      PtrFrame(disk, disk', tbl[j], l);
    }
    forall c | 0 <= c < sb.size
      ensures Used(sb, disk', c) == Used(sb, disk, c)
    {
      BBlockLow(sb, c);
    }
    forall j, p | j in tbl && 0 <= p < MAXFILE * BSIZE
      ensures ByteAt(disk', tbl[j], p) == ByteAt(disk, tbl[j], p)
    {
      if Ptr(disk, tbl[j], p / BSIZE) != 0 {
        OwnerFact(sb, disk, tbl, owner, j, p / BSIZE);
      }
    }
    hide Ptr, Used, ByteAt;
    assert forall j :: j in tbl ==> Whole(disk, tbl[j], tbl[j].size);
  }

  // ------------------------------------------------------------ flat contents

  /** The bytes of a file after tot bytes of src went to offset off; the rest as before. */
  ghost predicate Wrote(disk: Disk, ino: Inode, disk': Disk, ino': Inode, off: nat, src: seq<Byte>, tot: nat)
    requires tot <= |src|
  {
    forall p :: 0 <= p < MAXFILE * BSIZE ==>
      ByteAt(disk', ino', p) == if off <= p < off + tot then src[p - off] else ByteAt(disk, ino, p)
  }

  ghost predicate SameBytes(disk: Disk, tbl: Table, disk': Disk, tbl': Table, i: nat) {
    && tbl.Keys == tbl'.Keys
    && (forall j :: j in tbl && j != i ==> tbl'[j] == tbl[j])
    && (forall j, p :: j in tbl && j != i && 0 <= p < MAXFILE * BSIZE ==> ByteAt(disk', tbl'[j], p) == ByteAt(disk, tbl[j], p))
  }

  /** No block has disappeared. */
  ghost predicate Covers(disk: Disk, ino: Inode, disk': Disk, ino': Inode) {
    forall k :: 0 <= k < MAXFILE && Ptr(disk, ino, k) != 0 ==> Ptr(disk', ino', k) != 0
  }

  lemma CoversTwice(d0: Disk, i0: Inode, d1: Disk, i1: Inode, d2: Disk, i2: Inode)
    requires Covers(d0, i0, d1, i1) && Covers(d1, i1, d2, i2)
    ensures Covers(d0, i0, d2, i2)
  {
    hide Ptr;
  }

  /** The same addresses, with every pointer where it was. */
  lemma CoversSame(d0: Disk, i0: Inode, d1: Disk, i1: Inode, d2: Disk, i2: Inode)
    requires Covers(d0, i0, d1, i1) && i2.addrs == i1.addrs && forall l :: 0 <= l ==> Ptr(d2, i2, l) == Ptr(d1, i2, l)
    ensures Covers(d0, i0, d2, i2)
  {
    forall k | 0 <= k < MAXFILE && Ptr(d0, i0, k) != 0 ensures Ptr(d2, i2, k) != 0 { assert Ptr(d1, i2, k) == Ptr(d1, i1, k); }
  }

  lemma CoversSelf(d: Disk, i: Inode)
    ensures Covers(d, i, d, i)
  {
    hide Ptr;
  }

  /** A block that is missing now was missing before. */
  lemma CoversMissing(d0: Disk, i0: Inode, d1: Disk, i1: Inode, o: nat, e: nat)
    requires Covers(d0, i0, d1, i1) && o < e <= MAXFILE * BSIZE && Ptr(d1, i1, o / BSIZE) == 0
    ensures !Whole(d0, i0, e)
  {
    hide Ptr;
    assert o / BSIZE * BSIZE <= o && o / BSIZE < MAXFILE;
  }

  lemma CoversWhole(disk: Disk, ino: Inode, disk': Disk, ino': Inode, size: nat)
    requires Covers(disk, ino, disk', ino') && Whole(disk, ino, size)
    ensures Whole(disk', ino', size)
  {
    hide Ptr;
    forall k | 0 <= k && k * BSIZE < size
      ensures Ptr(disk', ino', k) != 0
    {
      assert k < MAXFILE;
    }
  }

  lemma WrittenWhole(disk: Disk, ino: Inode, size: nat, k: nat, more: nat)
    requires Whole(disk, ino, size) && k * BSIZE <= size && Ptr(disk, ino, k) != 0
    requires size <= more <= (k + 1) * BSIZE && more <= MAXFILE * BSIZE
    ensures Whole(disk, ino, more)
  {
    hide Ptr;
    forall l | 0 <= l && l * BSIZE < more
      ensures Ptr(disk, ino, l) != 0
    {
      assert l <= k;
      assert l < k ==> l * BSIZE < k * BSIZE;
    }
  }

  lemma SameTwice(sb: Super, disk: Disk, tbl: Table, disk1: Disk, tbl1: Table, disk2: Disk, tbl2: Table, i: nat)
    requires SameBytes(disk, tbl, disk1, tbl1, i) && SameBytes(disk1, tbl1, disk2, tbl2, i)
    requires SameLow(sb, disk, disk1) && SameLow(sb, disk1, disk2)
    ensures SameBytes(disk, tbl, disk2, tbl2, i) && SameLow(sb, disk, disk2)
  {
    hide ByteAt;
  }

  lemma WroteMore(disk: Disk, ino: Inode, disk1: Disk, ino1: Inode, disk2: Disk, ino2: Inode, off: nat, src: seq<Byte>, tot: nat, m: nat)
    requires tot + m <= |src|
    requires Wrote(disk, ino, disk1, ino1, off, src, tot) && Wrote(disk1, ino1, disk2, ino2, off + tot, src[tot..], m)
    ensures Wrote(disk, ino, disk2, ino2, off, src, tot + m)
  {
    hide ByteAt;
  }

  /** Overwrite or extend a sequence at an offset inside it. */
  function Splice(s: seq<Byte>, off: nat, d: seq<Byte>): (r: seq<Byte>)
    requires off <= |s|
  {
    s[..off] + d + if off + |d| < |s| then s[off + |d|..] else []
  }

  /** What readi() promises to deliver; the sum is taken in 32 bits. */
  function Slice(s: seq<Byte>, off: U32, n: U32): (r: seq<Byte>) {
    if off > |s| || off + n >= 0x1_0000_0000 then []
    else if off + n <= |s| then s[off..off + n] else s[off..]
  }

  /** Two consecutive splices are one. */
  lemma SpliceTwice(s: seq<Byte>, off: nat, a: seq<Byte>, b: seq<Byte>)
    requires off <= |s|
    ensures off + |a| <= |Splice(s, off, a)|
    ensures Splice(Splice(s, off, a), off + |a|, b) == Splice(s, off, a + b)
  {
  }

  /** c is c0 with d spliced in at off; writing nothing is possible anywhere. */
  ghost predicate Spliced(c0: seq<Byte>, c: seq<Byte>, off: nat, d: seq<Byte>) {
    if d == [] then c == c0 else off <= |c0| && c == Splice(c0, off, d)
  }

  lemma SplicedMore(c0: seq<Byte>, c1: seq<Byte>, off: nat, src: seq<Byte>, done: nat, r: nat)
    requires done + r <= |src| && Spliced(c0, c1, off, src[..done]) && off + done <= |c1|
    ensures Spliced(c0, Splice(c1, off + done, src[done..][..r]), off, src[..done + r])
  {
    var a, b := src[..done], src[done..][..r];
    assert a + b == src[..done + r];
    if r == 0 {
      assert Splice(c1, off + done, b) == c1;
    } else if done > 0 {
      SpliceTwice(c0, off, a, b);
    }
  }

  /** Reading back what was spliced in. */
  lemma SliceOfSplice(s: seq<Byte>, off: U32, d: seq<Byte>)
    requires off <= |s| && off + |d| < 0x1_0000_0000
    ensures Slice(Splice(s, off, d), off, |d|) == d
  {
  }

  lemma ContentSplice(disk: Disk, ino: Inode, disk': Disk, ino': Inode, off: nat, src: seq<Byte>, tot: nat)
    requires tot <= |src| && off <= ino.size && Wrote(disk, ino, disk', ino', off, src, tot)
    requires ino'.size == (if off + tot > ino.size then off + tot else ino.size) <= MAXFILE * BSIZE
    ensures Content(disk', ino') == Splice(Content(disk, ino), off, src[..tot])
  {
    hide ByteAt;
    var s, r := Content(disk, ino), Splice(Content(disk, ino), off, src[..tot]);
    assert |r| == ino'.size;
    forall p | 0 <= p < ino'.size
      ensures Content(disk', ino')[p] == r[p]
    {
    }
  }

  lemma ContentSame(disk: Disk, ino: Inode, disk': Disk, ino': Inode)
    requires ino'.size == ino.size <= MAXFILE * BSIZE
    requires forall p :: 0 <= p < MAXFILE * BSIZE ==> ByteAt(disk', ino', p) == ByteAt(disk, ino, p)
    ensures Content(disk', ino') == Content(disk, ino)
  {
  }

  lemma PtrIgnoresSize(disk: Disk, ino: Inode, size: U32, k: nat)
    ensures Ptr(disk, ino.(size := size), k) == Ptr(disk, ino, k)
  {
  }

  /** Moving a file's size up to where its blocks reach. */
  lemma SizeSound(sb: Super, disk: Disk, tbl: Table, owner: map<nat, Slot>, i: nat, size: U32)
    requires Sound(sb, disk, tbl, owner) && i in tbl && Whole(disk, tbl[i], size)
    ensures Sound(sb, disk, tbl[i := tbl[i].(size := size)], owner)
  {
    var tbl' := tbl[i := tbl[i].(size := size)];
    forall j, k | j in tbl && 0 <= k
      ensures Ptr(disk, tbl'[j], k) == Ptr(disk, tbl[j], k)
    {
      PtrIgnoresSize(disk, tbl[j], size, k);
    }
    hide Ptr, Used;
    assert forall j :: j in tbl && j != i ==> Whole(disk, tbl[j], tbl[j].size);
  }

  /** Every block changed between two moments has been passed to log_write(), and none in front of the inodes. */
  ghost predicate Journaled(sb: Super, d0: Disk, l0: set<nat>, d: Disk, l: set<nat>) {
    && l0 <= l && d.Keys == d0.Keys && (forall b :: b in d0 && b !in l ==> d[b] == d0[b])
    && forall b :: b in l && b !in l0 ==> sb.inodestart <= b < sb.size
  }

  lemma JournaledTwice(sb: Super, d0: Disk, l0: set<nat>, d1: Disk, l1: set<nat>, d2: Disk, l2: set<nat>)
    requires Journaled(sb, d0, l0, d1, l1) && Journaled(sb, d1, l1, d2, l2)
    ensures Journaled(sb, d0, l0, d2, l2)
  {
  }

  lemma JournaledNone(sb: Super, d: Disk, l: set<nat>)
    ensures Journaled(sb, d, l, d, l)
  {
  }

  lemma JournaledMore(sb: Super, d0: Disk, l0: set<nat>, d: Disk, l: set<nat>, x: nat, b: Block)
    requires Journaled(sb, d0, l0, d, l) && x in d && sb.inodestart <= x < sb.size
    ensures Journaled(sb, d0, l0, d[x := b], l + {x})
  {
  }
}
