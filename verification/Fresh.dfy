/** States the invariants start from: an empty formatted disk, a root directory. */
module Fresh {
  import opened Blocks
  import opened Bitmap
  import opened RedoLog
  import opened FsModel
  import Counting
  import FsCrash
  import LinkCount
  import Links

  // ---------------------------------------------------------- a formatted disk

  /** A zeroed disk with the first n blocks marked in the free map. */
  ghost function Marked(sb: Super, n: nat): (d: Disk)
    requires sb.Ok() && n <= sb.datastart
    ensures d.Keys == Counting.Below(sb.size)
  {
    if n == 0 then map b | b in Counting.Below(sb.size) :: Zero()
    else
      BBlockLow(sb, n - 1);
      var d := Marked(sb, n - 1);
      var bb := sb.BBlock(n - 1);
      d[bb := SetBit(d[bb], (n - 1) % BPB)]
  }

  lemma MarkOne(sb: Super, d: Disk, m: nat, b: nat)
    requires sb.Ok() && m < sb.datastart && b < sb.size && d.Keys == Counting.Below(sb.size)
    requires sb.BBlock(m) in d && sb.BBlock(b) in d
    ensures Used(sb, d[sb.BBlock(m) := SetBit(d[sb.BBlock(m)], m % BPB)], b) <==> b == m || Used(sb, d, b)
  {
    hide Counting.Below, SetBit, Bit;
    SameBit(b, m);
  }

  lemma {:induction false} MarkedUsed(sb: Super, n: nat, b: nat)
    requires sb.Ok() && n <= sb.datastart && b < sb.size
    ensures Used(sb, Marked(sb, n), b) <==> b < n
  {
    hide Counting.Below, SetBit, Bit;
    BBlockLow(sb, b);
    if n == 0 {
      ZeroBits(b % BPB);
    } else {
      hide Used;
      BBlockLow(sb, n - 1);
      MarkedUsed(sb, n - 1, b);
      MarkOne(sb, Marked(sb, n - 1), n - 1, b);
    }
  }

  lemma ZeroBits(i: nat)
    requires i < BPB
    ensures !Bit(Zero(), i)
  {
    NoBits(i % 8);
  }

  lemma NoBits(k: nat)
    ensures !Test(0, k)
  {
  }

  lemma SameBit(a: nat, b: nat)
    ensures a / BPB == b / BPB && a % BPB == b % BPB <==> a == b
  {
  }

  lemma {:induction false} MarkedLow(sb: Super, n: nat, b: nat)
    requires sb.Ok() && n <= sb.datastart && b < sb.bmapstart
    ensures b in Marked(sb, n) && Marked(sb, n)[b] == Zero()
  {
    if n > 0 { MarkedLow(sb, n - 1, b); }
  }

  const NO_FILE: Inode := Inode(0, 0, 0, [0, 0, 0, 0, 0, 0, 0, 0, 0, 0, 0, 0, 0])

  ghost function NoFiles(sb: Super): (t: FsModel.Table) { map i | i in Counting.Below(sb.ninodes) :: NO_FILE }

  lemma ZeroInode(sb: Super, i: nat)
    requires sb.Ok() && i < sb.ninodes
    ensures sb.IBlock(i) in Marked(sb, sb.datastart) && Dinode(sb, Marked(sb, sb.datastart), i) == NO_FILE
  {
    MarkedLow(sb, sb.datastart, sb.IBlock(i));
    var ws := Words(Zero(), 16 * (i % IPB), 16);
    forall j | 0 <= j < 16 ensures ws[j] == 0 { ZeroWord(16 * (i % IPB) + j); }
    assert ws[3..] == NO_FILE.addrs;
  }

  lemma FreshSound(sb: Super, d: Disk)
    requires sb.Ok() && d.Keys == Counting.Below(sb.size)
    requires forall b :: 0 <= b < sb.size ==> (Used(sb, d, b) <==> b < sb.datastart)
    ensures Sound(sb, d, NoFiles(sb), map[])
  {
    hide Used, Counting.Below;
    forall i, k: nat | i in NoFiles(sb) ensures Ptr(d, NoFiles(sb)[i], k) == 0 { }
    hide Ptr;
  }

  lemma FreshQuiet(d: Disk, a: Area)
    requires a.size > 0 && (forall b :: a.Has(b) ==> b in d) && a.start in d && d[a.start] == Zero()
    ensures Quiet(d, a)
  {
    ZeroWord(0);
    hide Word;
    assert HeadOf(Zero()) == [];
  }

  /** An empty formatted disk with an empty log meets everything the file system and the log start from. */
  lemma FormattedDisk(sb: Super, a: Area)
    requires sb.Ok() && a.size > 0 && FsCrash.LogInFront(sb, a)
    ensures var d := Marked(sb, sb.datastart);
            Sound(sb, d, NoFiles(sb), map[]) && FsCrash.OnDisk(sb, d, NoFiles(sb)) && Quiet(d, a)
  {
    hide Marked, Used, Dinode, Sound, Quiet, Counting.Below;
    var d := Marked(sb, sb.datastart);
    forall b | 0 <= b < sb.size ensures Used(sb, d, b) <==> b < sb.datastart { MarkedUsed(sb, sb.datastart, b); }
    FreshSound(sb, d);
    forall i | i in NoFiles(sb) ensures sb.IBlock(i) in d && Dinode(sb, d, i) == NO_FILE { ZeroInode(sb, i); }
    MarkedLow(sb, sb.datastart, a.start);
    FreshQuiet(d, a);
  }

  // ------------------------------------------------------- a root directory

  /** A root directory alone, all other inodes free. */
  ghost function RootOnly(n: nat): (fs: LinkCount.Table) {
    map i | i in Counting.Below(n) && i > 0 ::
      if i == 1 then LinkCount.Inode(LinkCount.Dir, 1, [LinkCount.Entry(".", 1), LinkCount.Entry("..", 1)])
      else LinkCount.Inode(LinkCount.Gone, 0, [])
  }

  lemma RootSound(n: nat)
    requires n > 1
    ensures Links.Sound(RootOnly(n), n, 1)
  {
    var fs := RootOnly(n);
    var es := fs[1].entries;
    forall i | i in fs ensures LinkCount.Refs(fs, n, i) == if i == 1 then 1 else 0 {
      LinkCount.RefsOnly(fs, n, 1, i);
      LinkCount.NamingConcat([es[0]], [es[1]], i);
      LinkCount.NamingOne(es[0], i);
      LinkCount.NamingOne(es[1], i);
      assert es == [es[0]] + [es[1]];
    }
  }
}
