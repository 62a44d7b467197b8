/** Directories as tables of entries, and how many entries name an inode. */
module LinkCount {
  datatype Kind = Gone | Dir | File | Device // type 0, T_DIR, T_FILE, T_DEVICE

  datatype Entry = Entry(name: string, inum: nat) // inum 0: an empty slot

  datatype Inode = Inode(kind: Kind, nlink: int, entries: seq<Entry>)

  type Table = map<nat, Inode> // the inode table, by number

  ghost predicate LinkedDir(fs: Table, d: nat) { d in fs && fs[d].kind.Dir? && fs[d].nlink > 0 }

  /** Entries that count: those naming i, other than ".". */
  function One(e: Entry, i: nat): (n: nat) { if e.inum == i && e.name != "." then 1 else 0 }

  ghost function Naming(es: seq<Entry>, i: nat): (n: nat) {
    if |es| == 0 then 0 else One(es[0], i) + Naming(es[1..], i)
  }

  /** What directory d contributes to the link count of i: nothing once it is unlinked itself. */
  ghost function Share(fs: Table, d: nat, i: nat): (n: nat) {
    if LinkedDir(fs, d) then Naming(fs[d].entries, i) else 0
  }

  /** The entries naming i, other than ".", in still-linked directories numbered below n. */
  ghost function Refs(fs: Table, n: nat, i: nat): (r: nat) {
    if n == 0 then 0 else Refs(fs, n - 1, i) + Share(fs, n - 1, i)
  }

  // ------------------------------------------------------------------ counting

  lemma {:induction false} NamingConcat(a: seq<Entry>, b: seq<Entry>, i: nat)
    ensures Naming(a + b, i) == Naming(a, i) + Naming(b, i)
  {
    if |a| == 0 {
      assert a + b == b;
    } else {
      assert (a + b)[1..] == a[1..] + b;
      NamingConcat(a[1..], b, i);
    }
  }

  lemma NamingOne(e: Entry, i: nat)
    ensures Naming([e], i) == One(e, i)
  {
    assert [e][1..] == [];
  }

  /** An entry written over another, or appended. */
  lemma NamingAt(es: seq<Entry>, k: nat, e: Entry, i: nat)
    requires k <= |es|
    ensures Naming(es[..k] + [e] + es[if k < |es| then k + 1 else k..], i) + (if k < |es| then One(es[k], i) else 0) == Naming(es, i) + One(e, i)
  {
    hide Naming, One;
    var tail := es[if k < |es| then k + 1 else k..];
    NamingConcat(es[..k] + [e], tail, i);
    NamingConcat(es[..k], [e], i);
    NamingOne(e, i);
    if k < |es| {
      NamingConcat(es[..k] + [es[k]], tail, i);
      NamingConcat(es[..k], [es[k]], i);
      NamingOne(es[k], i);
      assert es == es[..k] + [es[k]] + tail;
    } else {
      NamingConcat(es, tail, i);
      assert es == es + tail && es[..k] == es;
    }
  }

  lemma {:induction false} NamingSome(es: seq<Entry>, k: nat)
    requires k < |es| && es[k].name != "."
    ensures Naming(es, es[k].inum) >= 1
  {
    if k > 0 { NamingSome(es[1..], k - 1); }
  }

  lemma {:induction false} NamingNone(es: seq<Entry>, i: nat)
    requires forall k :: 0 <= k < |es| ==> One(es[k], i) == 0
    ensures Naming(es, i) == 0
  {
    if |es| > 0 { NamingNone(es[1..], i); }
  }

  /** Changing one inode changes only its own share. */
  lemma {:induction false} RefsUpdate(fs: Table, n: nat, d: nat, node: Inode, i: nat)
    ensures var fs' := fs[d := node];
            Refs(fs', n, i) + (if d < n then Share(fs, d, i) else 0) == Refs(fs, n, i) + (if d < n then Share(fs', d, i) else 0)
  {
    if n > 0 { RefsUpdate(fs, n - 1, d, node, i); }
  }

  lemma {:induction false} RefsSome(fs: Table, n: nat, d: nat, i: nat)
    requires d < n
    ensures Refs(fs, n, i) >= Share(fs, d, i)
  {
    if d < n - 1 { RefsSome(fs, n - 1, d, i); }
  }

  /** When at most one directory names i, its share is all. */
  lemma {:induction false} RefsOnly(fs: Table, n: nat, d: nat, i: nat)
    requires forall c :: 0 <= c < n && c != d ==> Share(fs, c, i) == 0
    ensures Refs(fs, n, i) == if d < n then Share(fs, d, i) else 0
  {
    if n > 0 { RefsOnly(fs, n - 1, d, i); }
  }

  lemma {:induction false} RefsTwo(fs: Table, n: nat, c: nat, d: nat, i: nat)
    requires c < n && d < n && c != d
    ensures Refs(fs, n, i) >= Share(fs, c, i) + Share(fs, d, i)
  {
    if c == n - 1 {
      RefsSome(fs, n - 1, d, i);
    } else if d == n - 1 {
      RefsSome(fs, n - 1, c, i);
    } else {
      RefsTwo(fs, n - 1, c, d, i);
    }
  }
}
