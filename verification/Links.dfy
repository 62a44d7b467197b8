/**
 link, unlink and create on the inode table. Path lookup is done by the caller: a
 parent directory comes as an inode number. It may be a removed directory that a
 process still has as its current one.
 */
module Links {
  import opened LinkCount

  // ------------------------------------------------------------------ the tree

  /** "." names the directory itself, ".." comes next, and neither name occurs again. */
  ghost predicate Dots(fs: Table, root: nat, d: nat)
    requires d in fs
  {
    var es := fs[d].entries;
    && |es| >= 2 && es[0] == Entry(".", d) && es[1].name == ".." && (d == root ==> es[1].inum == root)
    && forall k :: 2 <= k < |es| && es[k].inum != 0 ==> es[k].name != "." && es[k].name != ".."
  }

  ghost predicate Target(fs: Table, root: nat, d: nat, t: nat) {
    && t in fs && t != root && !fs[t].kind.Gone?
    && (fs[t].kind.Dir? ==> LinkedDir(fs, t) && |fs[t].entries| >= 2 && fs[t].entries[1].inum == d)
  }

  /** What d names exists; a directory it names is linked, has d as parent and is named once. */
  ghost predicate Targets(fs: Table, root: nat, d: nat)
    requires d in fs
  {
    var es := fs[d].entries;
    && (forall k :: 2 <= k < |es| && es[k].inum != 0 ==> Target(fs, root, d, es[k].inum))
    && (forall j, k :: 2 <= j < k < |es| && es[j].inum == es[k].inum && es[k].inum in fs ==> !fs[es[k].inum].kind.Dir?)
  }

  ghost predicate Has(fs: Table, p: nat, d: nat)
    requires p in fs
  {
    exists k :: 2 <= k < |fs[p].entries| && fs[p].entries[k].inum == d
  }

  /** The parent of a linked directory is linked and has an entry for it. */
  ghost predicate Parented(fs: Table, root: nat, d: nat)
    requires d in fs && |fs[d].entries| >= 2
  {
    d != root ==> var p := fs[d].entries[1].inum; LinkedDir(fs, p) && Has(fs, p, d)
  }

  ghost predicate DirOk(fs: Table, root: nat, d: nat)
    requires d in fs
  {
    Dots(fs, root, d) && Targets(fs, root, d) && Parented(fs, root, d)
  }

  ghost predicate Tree(fs: Table, n: nat, root: nat) {
    && (forall i :: i in fs ==> 0 < i < n) && LinkedDir(fs, root)
    && forall d :: LinkedDir(fs, d) ==> DirOk(fs, root, d)
  }

  /** Every inode's link count is the number of entries naming it. */
  ghost predicate Counted(fs: Table, n: nat) {
    forall i :: i in fs ==> Refs(fs, n, i) == if fs[i].kind.Gone? then 0 else fs[i].nlink
  }

  /** A directory with no entries but its dots. */
  ghost predicate EmptyDir(node: Inode) { forall k :: 2 <= k < |node.entries| ==> node.entries[k].inum == 0 }

  ghost predicate Husk(node: Inode, d: nat) {
    && |node.entries| >= 2 && node.entries[0] == Entry(".", d) && node.entries[1].name == ".." && node.entries[1].inum != 0
    && EmptyDir(node)
  }

  /** A removed directory that is still in use has nothing but its dots. */
  ghost predicate Husks(fs: Table) {
    forall d :: d in fs && fs[d].kind.Dir? && fs[d].nlink <= 0 ==> Husk(fs[d], d)
  }

  ghost predicate Sound(fs: Table, n: nat, root: nat) { Tree(fs, n, root) && Counted(fs, n) && Husks(fs) }

  // ------------------------------------------------------------------- entries

  function Put(es: seq<Entry>, k: nat, e: Entry): (r: seq<Entry>)
    requires k <= |es|
    ensures |r| == (if k < |es| then |es| else |es| + 1) && r[k] == e
    ensures forall j :: 0 <= j < |es| && j != k ==> r[j] == es[j]
  {
    es[..k] + [e] + es[if k < |es| then k + 1 else k..]
  }

  /** A slot dirlink() may use: an empty one, or the end. */
  ghost predicate Slot(es: seq<Entry>, k: nat) { 2 <= k <= |es| && (k < |es| ==> es[k].inum == 0) }

  ghost function WithEntry(fs: Table, d: nat, k: nat, e: Entry): (r: Table)
    requires d in fs && k <= |fs[d].entries|
  {
    fs[d := fs[d].(entries := Put(fs[d].entries, k, e))]
  }

  /** One entry written changes the counts of what it names and what the slot named before. */
  lemma EntryRefs(fs: Table, n: nat, d: nat, k: nat, e: Entry, i: nat)
    requires LinkedDir(fs, d) && d < n && k <= |fs[d].entries|
    ensures Refs(WithEntry(fs, d, k, e), n, i) + (if k < |fs[d].entries| then One(fs[d].entries[k], i) else 0)
        == Refs(fs, n, i) + One(e, i)
  {
    var es := fs[d].entries;
    RefsUpdate(fs, n, d, fs[d].(entries := Put(es, k, e)), i);
    NamingAt(es, k, e, i);
  }

  /** A named inode's count is positive; so one with count zero is named nowhere. */
  lemma NamedCount(fs: Table, n: nat, root: nat, d: nat, k: nat)
    requires Sound(fs, n, root) && LinkedDir(fs, d) && 2 <= k < |fs[d].entries| && fs[d].entries[k].inum != 0
    ensures fs[d].entries[k].inum in fs && fs[fs[d].entries[k].inum].nlink >= 1
  {
    var i := fs[d].entries[k].inum;
    assert DirOk(fs, root, d) && Target(fs, root, d, i);
    NamingSome(fs[d].entries, k);
    RefsSome(fs, n, d, i);
  }

  // --------------------------------------------------------- an entry for a file

  /** The same directories are linked, under the same parents; nothing named has gone. */
  ghost predicate SameShape(fs: Table, fs': Table) {
    && fs'.Keys == fs.Keys
    && (forall i :: i in fs ==> (fs'[i].kind.Gone? ==> fs[i].kind.Gone?) && (fs'[i].kind.Dir? <==> fs[i].kind.Dir?))
    && (forall d :: d in fs ==> (LinkedDir(fs', d) <==> LinkedDir(fs, d)))
    && (forall d :: LinkedDir(fs, d) && |fs[d].entries| >= 2 ==> |fs'[d].entries| >= 2 && fs'[d].entries[1] == fs[d].entries[1])
  }

  lemma SameTarget(fs: Table, fs': Table, root: nat, d: nat, t: nat)
    requires SameShape(fs, fs') && Target(fs, root, d, t)
    ensures Target(fs', root, d, t)
  {
  }

  /** A directory whose entries did not change is as well formed as before, if its parent still has it. */
  lemma SameDir(fs: Table, fs': Table, root: nat, d: nat)
    requires SameShape(fs, fs') && LinkedDir(fs, d) && DirOk(fs, root, d) && fs'[d].entries == fs[d].entries
    requires d != root ==> fs[d].entries[1].inum in fs' && Has(fs', fs[d].entries[1].inum, d)
    ensures DirOk(fs', root, d)
  {
    var es := fs[d].entries;
    forall k | 2 <= k < |es| && es[k].inum != 0 ensures Target(fs', root, d, es[k].inum) {
      SameTarget(fs, fs', root, d, es[k].inum);
    }
    hide Target, Has;
  }

  /** The file ip, now `node`, gets a name in dp. */
  ghost function Named(fs: Table, ip: nat, node: Inode, dp: nat, k: nat, name: string): (r: Table)
    requires ip in fs && dp in fs && ip != dp && k <= |fs[dp].entries|
  {
    WithEntry(fs[ip := node], dp, k, Entry(name, ip))
  }

  ghost predicate Nameable(fs: Table, root: nat, ip: nat, node: Inode, dp: nat, k: nat, name: string) {
    && ip in fs && !fs[ip].kind.Dir? && !node.kind.Gone? && !node.kind.Dir?
    && LinkedDir(fs, dp) && Slot(fs[dp].entries, k) && name != "." && name != ".."
  }

  lemma NamedCounts(fs: Table, n: nat, root: nat, ip: nat, node: Inode, dp: nat, k: nat, name: string)
    requires Sound(fs, n, root) && Nameable(fs, root, ip, node, dp, k, name)
    requires node.nlink == (if fs[ip].kind.Gone? then 0 else fs[ip].nlink) + 1
    ensures Counted(Named(fs, ip, node, dp, k, name), n)
  {
    var fs1, fs' := fs[ip := node], Named(fs, ip, node, dp, k, name);
    forall i | i in fs' ensures Refs(fs', n, i) == if fs'[i].kind.Gone? then 0 else fs'[i].nlink {
      RefsUpdate(fs, n, ip, node, i);
      EntryRefs(fs1, n, dp, k, Entry(name, ip), i);
    }
  }

  lemma NamedTree(fs: Table, n: nat, root: nat, ip: nat, node: Inode, dp: nat, k: nat, name: string)
    requires Tree(fs, n, root) && Nameable(fs, root, ip, node, dp, k, name)
    ensures Tree(Named(fs, ip, node, dp, k, name), n, root)
  {
    hide DirOk;
    var fs' := Named(fs, ip, node, dp, k, name);
    assert forall d :: LinkedDir(fs, d) ==> DirOk(fs, root, d) && d != 0;
    assert ip != root;
    NamedShape(fs, root, ip, node, dp, k, name);
    hide Tree;
    forall d | LinkedDir(fs', d) ensures DirOk(fs', root, d) {
      StillHas(fs, fs', root, d, dp, k);
      if d != dp {
        SameDir(fs, fs', root, d);
      } else {
        EntryDir(fs, fs', root, d, k);
      }
    }
    NamedBounds(fs, fs', n, root);
  }

  lemma NamedShape(fs: Table, root: nat, ip: nat, node: Inode, dp: nat, k: nat, name: string)
    requires Nameable(fs, root, ip, node, dp, k, name)
    ensures SameShape(fs, Named(fs, ip, node, dp, k, name))
  {
  }

  lemma NamedBounds(fs: Table, fs': Table, n: nat, root: nat)
    requires Tree(fs, n, root) && SameShape(fs, fs') && forall d :: LinkedDir(fs', d) ==> DirOk(fs', root, d)
    ensures Tree(fs', n, root)
  {
    hide DirOk;
  }

  /** Filling an empty slot of dp takes no directory's entry away. */
  lemma StillHas(fs: Table, fs': Table, root: nat, d: nat, dp: nat, k: nat)
    requires SameShape(fs, fs') && LinkedDir(fs, d) && DirOk(fs, root, d) && d != 0
    requires dp in fs && Slot(fs[dp].entries, k) && forall c :: LinkedDir(fs, c) && c != dp ==> fs'[c].entries == fs[c].entries
    requires |fs'[dp].entries| >= |fs[dp].entries| && forall j :: 0 <= j < |fs[dp].entries| && j != k ==> fs'[dp].entries[j] == fs[dp].entries[j]
    ensures d != root ==> fs[d].entries[1].inum in fs' && Has(fs', fs[d].entries[1].inum, d)
  {
    if d != root {
      var p := fs[d].entries[1].inum;
      var j :| 2 <= j < |fs[p].entries| && fs[p].entries[j].inum == d;
      assert fs'[p].entries[j].inum == d;
    }
  }

  /** The directory that got the entry, when what it names is a file. */
  lemma EntryDir(fs: Table, fs': Table, root: nat, d: nat, k: nat)
    requires SameShape(fs, fs') && LinkedDir(fs, d) && DirOk(fs, root, d) && Slot(fs[d].entries, k)
    requires d != root ==> fs[d].entries[1].inum in fs' && Has(fs', fs[d].entries[1].inum, d)
    requires k < |fs'[d].entries| && |fs'[d].entries| == (if k < |fs[d].entries| then |fs[d].entries| else |fs[d].entries| + 1)
    requires forall j :: 0 <= j < |fs[d].entries| && j != k ==> fs'[d].entries[j] == fs[d].entries[j]
    requires var e := fs'[d].entries[k]; e.name != "." && e.name != ".." && e.inum in fs && e.inum != root && !fs'[e.inum].kind.Gone? && !fs[e.inum].kind.Dir?
    ensures DirOk(fs', root, d)
  {
    var es, es' := fs[d].entries, fs'[d].entries;
    forall j | 2 <= j < |es'| && es'[j].inum != 0 ensures Target(fs', root, d, es'[j].inum) {
      if j != k { SameTarget(fs, fs', root, d, es[j].inum); }
    }
    hide Target, Has;
  }

  // ----------------------------------------------------------- a name taken away

  const BLANK: Entry := Entry("", 0)

  /** Slot k of dp, which named the file ip, is blank and ip has one link less. */
  ghost function Unnamed(fs: Table, dp: nat, k: nat, ip: nat): (r: Table)
    requires ip in fs && dp in fs && ip != dp && k < |fs[dp].entries|
  {
    var fs1 := WithEntry(fs, dp, k, BLANK);
    fs1[ip := fs1[ip].(nlink := fs1[ip].nlink - 1)]
  }

  ghost predicate Names(fs: Table, dp: nat, k: nat, ip: nat) {
    && LinkedDir(fs, dp) && 2 <= k < |fs[dp].entries| && fs[dp].entries[k].inum == ip && ip in fs
  }

  lemma UnnamedCounts(fs: Table, n: nat, root: nat, dp: nat, k: nat, ip: nat)
    requires Sound(fs, n, root) && Names(fs, dp, k, ip) && !fs[ip].kind.Dir?
    ensures Counted(Unnamed(fs, dp, k, ip), n)
  {
    var fs1, fs' := WithEntry(fs, dp, k, BLANK), Unnamed(fs, dp, k, ip);
    assert DirOk(fs, root, dp) && Target(fs, root, dp, ip);
    forall i | i in fs' ensures Refs(fs', n, i) == if fs'[i].kind.Gone? then 0 else fs'[i].nlink {
      EntryRefs(fs, n, dp, k, BLANK, i);
      RefsUpdate(fs1, n, ip, fs'[ip], i);
    }
  }

  lemma UnnamedTree(fs: Table, n: nat, root: nat, dp: nat, k: nat, ip: nat)
    requires Tree(fs, n, root) && Names(fs, dp, k, ip) && !fs[ip].kind.Dir?
    ensures Tree(Unnamed(fs, dp, k, ip), n, root)
  {
    hide DirOk;
    var fs' := Unnamed(fs, dp, k, ip);
    assert forall d :: LinkedDir(fs, d) ==> DirOk(fs, root, d) && d != 0;
    UnnamedShape(fs, dp, k, ip);
    hide Tree;
    forall d | LinkedDir(fs', d) ensures DirOk(fs', root, d) {
      HasBeside(fs, fs', root, d, dp, k);
      if d != dp {
        SameDir(fs, fs', root, d);
      } else {
        BlankDir(fs, fs', root, d, k);
      }
    }
    NamedBounds(fs, fs', n, root);
  }

  lemma UnnamedShape(fs: Table, dp: nat, k: nat, ip: nat)
    requires Names(fs, dp, k, ip) && !fs[ip].kind.Dir?
    ensures SameShape(fs, Unnamed(fs, dp, k, ip))
  {
  }

  /** Blanking slot k of dp takes the entry of no linked directory but the one it named. */
  lemma HasBeside(fs: Table, fs': Table, root: nat, d: nat, dp: nat, k: nat)
    requires fs'.Keys == fs.Keys && LinkedDir(fs, d) && DirOk(fs, root, d)
    requires dp in fs && k < |fs[dp].entries| && fs[dp].entries[k].inum != d && forall c :: LinkedDir(fs, c) && c != dp ==> fs'[c].entries == fs[c].entries
    requires |fs'[dp].entries| == |fs[dp].entries| && forall j :: 0 <= j < |fs[dp].entries| && j != k ==> fs'[dp].entries[j] == fs[dp].entries[j]
    ensures d != root ==> fs[d].entries[1].inum in fs' && Has(fs', fs[d].entries[1].inum, d)
  {
    if d != root {
      var p := fs[d].entries[1].inum;
      var j :| 2 <= j < |fs[p].entries| && fs[p].entries[j].inum == d;
      assert fs'[p].entries[j].inum == d;
    }
  }

  lemma BlankDir(fs: Table, fs': Table, root: nat, d: nat, k: nat)
    requires SameShape(fs, fs') && LinkedDir(fs, d) && DirOk(fs, root, d) && 2 <= k < |fs[d].entries|
    requires d != root ==> fs[d].entries[1].inum in fs' && Has(fs', fs[d].entries[1].inum, d)
    requires |fs'[d].entries| == |fs[d].entries| && fs'[d].entries[k] == BLANK && 0 !in fs
    requires forall j :: 0 <= j < |fs[d].entries| && j != k ==> fs'[d].entries[j] == fs[d].entries[j]
    ensures DirOk(fs', root, d)
  {
    var es, es' := fs[d].entries, fs'[d].entries;
    forall j | 2 <= j < |es'| && es'[j].inum != 0 ensures Target(fs', root, d, es'[j].inum) {
      SameTarget(fs, fs', root, d, es[j].inum);
    }
    hide Target, Has;
  }

  // ---------------------------------------------------------------- directories

  /** An empty linked directory is named by its parent alone, once: its count is 1. */
  lemma EmptyCount(fs: Table, n: nat, root: nat, dp: nat, k: nat, ip: nat)
    requires Sound(fs, n, root) && Names(fs, dp, k, ip) && LinkedDir(fs, ip) && EmptyDir(fs[ip])
    ensures fs[ip].nlink == 1 && ip != dp && fs[ip].entries[1].inum == dp
  {
    assert DirOk(fs, root, dp) && Target(fs, root, dp, ip) && DirOk(fs, root, ip);
    assert ip != dp;
    forall c | 0 <= c < n && c != dp ensures Share(fs, c, ip) == 0 {
      if LinkedDir(fs, c) { OthersSilent(fs, n, root, dp, k, ip, c); }
    }
    RefsOnly(fs, n, dp, ip);
    NamedOnce(fs, n, root, dp, k, ip);
  }

  /** No other directory names it: not by name, which would make it the parent, and not by "..". */
  lemma OthersSilent(fs: Table, n: nat, root: nat, dp: nat, k: nat, ip: nat, c: nat)
    requires Tree(fs, n, root) && Names(fs, dp, k, ip) && LinkedDir(fs, ip) && EmptyDir(fs[ip]) && LinkedDir(fs, c) && c != dp
    ensures Naming(fs[c].entries, ip) == 0
  {
    assert DirOk(fs, root, dp) && Target(fs, root, dp, ip) && DirOk(fs, root, c);
    var es := fs[c].entries;
    forall j | 0 <= j < |es| ensures One(es[j], ip) == 0 {
      assert j >= 2 && es[j].inum != 0 ==> Target(fs, root, c, es[j].inum);
      if j == 1 { NoChild(fs, n, root, ip, c); }
    }
    NamingNone(es, ip);
  }

  lemma NoChild(fs: Table, n: nat, root: nat, ip: nat, c: nat)
    requires Tree(fs, n, root) && LinkedDir(fs, ip) && EmptyDir(fs[ip]) && LinkedDir(fs, c) && |fs[c].entries| >= 2 && ip != root
    ensures fs[c].entries[1].inum != ip
  {
    assert DirOk(fs, root, c);
  }

  lemma NamedOnce(fs: Table, n: nat, root: nat, dp: nat, k: nat, ip: nat)
    requires Tree(fs, n, root) && Names(fs, dp, k, ip) && LinkedDir(fs, ip) && EmptyDir(fs[ip]) && ip != dp
    ensures Naming(fs[dp].entries, ip) == 1
  {
    assert DirOk(fs, root, dp) && Target(fs, root, dp, ip) && DirOk(fs, root, ip);
    var es := fs[dp].entries;
    NamingAt(es, k, BLANK, ip);
    var blank := es[..k] + [BLANK] + es[k + 1..];
    forall j | 0 <= j < |blank| ensures One(blank[j], ip) == 0 {
      assert blank[j] == if j == k then BLANK else es[j];
      if j == 1 { NoChild(fs, n, root, ip, dp); }
    }
    NamingNone(blank, ip);
  }

  lemma DotsNaming(fs: Table, root: nat, ip: nat, i: nat)
    requires ip in fs && Dots(fs, root, ip) && EmptyDir(fs[ip]) && i != 0
    ensures Naming(fs[ip].entries, i) == if fs[ip].entries[1].inum == i then 1 else 0
  {
    var es := fs[ip].entries;
    NamingConcat(es[..1], es[1..], i);
    NamingConcat([es[1]], es[2..], i);
    NamingOne(es[0], i);
    NamingOne(es[1], i);
    NamingNone(es[2..], i);
    assert es == es[..1] + es[1..] && es[..1] == [es[0]] && es[1..] == [es[1]] + es[2..];
  }

  /** The parent of a directory has at least two links: its own name and the child's "..". */
  lemma ParentLinks(fs: Table, n: nat, root: nat, dp: nat, k: nat, ip: nat)
    requires Sound(fs, n, root) && Names(fs, dp, k, ip) && LinkedDir(fs, ip) && ip != dp
    ensures fs[dp].nlink >= 2
  {
    assert DirOk(fs, root, dp) && Target(fs, root, dp, ip) && DirOk(fs, root, ip);
    NamingSome(fs[ip].entries, 1);
    var p := fs[dp].entries[1].inum;
    if dp == root {
      NamingSome(fs[dp].entries, 1);
      RefsTwo(fs, n, ip, dp, dp);
    } else {
      assert DirOk(fs, root, p);
      var j :| 2 <= j < |fs[p].entries| && fs[p].entries[j].inum == dp;
      NamingSome(fs[p].entries, j);
      if p == ip {
        TwoNames(fs[ip].entries, j, dp);
        RefsSome(fs, n, ip, dp);
      } else {
        RefsTwo(fs, n, ip, p, dp);
      }
    }
  }

  lemma TwoNames(es: seq<Entry>, j: nat, i: nat)
    requires 2 <= j < |es| && es[1].inum == i && es[j].inum == i && es[1].name != "." && es[j].name != "."
    ensures Naming(es, i) >= 2
  {
    NamingConcat(es[..2], es[2..], i);
    NamingSome(es[..2], 1);
    NamingSome(es[2..], j - 2);
    assert es == es[..2] + es[2..];
  }

  /** The empty directory ip leaves dp: its slot blank, ".." no longer counted, no link left. */
  ghost function Dropped(fs: Table, dp: nat, k: nat, ip: nat): (r: Table)
    requires ip in fs && dp in fs && ip != dp && k < |fs[dp].entries|
  {
    var fs1 := WithEntry(fs, dp, k, BLANK);
    var fs2 := fs1[dp := fs1[dp].(nlink := fs1[dp].nlink - 1)];
    fs2[ip := fs2[ip].(nlink := fs2[ip].nlink - 1)]
  }

  lemma DroppedCounts(fs: Table, n: nat, root: nat, dp: nat, k: nat, ip: nat)
    requires Sound(fs, n, root) && Names(fs, dp, k, ip) && LinkedDir(fs, ip) && EmptyDir(fs[ip])
    ensures ip != dp && Counted(Dropped(fs, dp, k, ip), n)
  {
    EmptyCount(fs, n, root, dp, k, ip);
    ParentLinks(fs, n, root, dp, k, ip);
    assert DirOk(fs, root, dp) && DirOk(fs, root, ip);
    assert fs[dp].entries[k].name != "." && dp < n && ip < n && 0 !in fs;
    hide Tree, DirOk, Husks, Refs, Targets, Parented;
    var fs' := Dropped(fs, dp, k, ip);
    forall i | i in fs' ensures Refs(fs', n, i) == if fs'[i].kind.Gone? then 0 else fs'[i].nlink {
      DroppedRefs(fs, n, root, dp, k, ip, i);
    }
  }

  /** The file table's counts after the drop: one less for ip, and one less for dp, which its ".." named. */
  lemma DroppedRefs(fs: Table, n: nat, root: nat, dp: nat, k: nat, ip: nat, i: nat)
    requires Names(fs, dp, k, ip) && LinkedDir(fs, ip) && Dots(fs, root, ip) && EmptyDir(fs[ip]) && i != 0 && ip != dp
    requires fs[dp].entries[k].name != "." && fs[ip].nlink == 1 && fs[ip].entries[1].inum == dp && fs[dp].nlink >= 2 && dp < n && ip < n
    ensures Refs(Dropped(fs, dp, k, ip), n, i) == Refs(fs, n, i) - (if i == ip then 1 else 0) - (if i == dp then 1 else 0)
  {
    hide Refs, Naming;
    var fs1 := WithEntry(fs, dp, k, BLANK);
    var fs2 := fs1[dp := fs1[dp].(nlink := fs1[dp].nlink - 1)];
    var fs' := Dropped(fs, dp, k, ip);
    EntryRefs(fs, n, dp, k, BLANK, i);
    RefsUpdate(fs1, n, dp, fs2[dp], i);
    RefsUpdate(fs2, n, ip, fs'[ip], i);
    DotsNaming(fs, root, ip, i);
  }

  /** All but ip keep their shape; no linked directory but dp named ip, and none has it as parent. */
  lemma DroppedTree(fs: Table, n: nat, root: nat, dp: nat, k: nat, ip: nat)
    requires Sound(fs, n, root) && Names(fs, dp, k, ip) && LinkedDir(fs, ip) && EmptyDir(fs[ip])
    ensures ip != dp && Tree(Dropped(fs, dp, k, ip), n, root)
  {
    EmptyCount(fs, n, root, dp, k, ip);
    ParentLinks(fs, n, root, dp, k, ip);
    var fs' := Dropped(fs, dp, k, ip);
    assert DirOk(fs, root, dp) && Target(fs, root, dp, ip);
    forall d | LinkedDir(fs', d) ensures DirOk(fs', root, d) {
      assert LinkedDir(fs, d) && d != ip && DirOk(fs, root, d);
      DroppedDir(fs, root, dp, k, ip, d);
    }
  }

  lemma DroppedDir(fs: Table, root: nat, dp: nat, k: nat, ip: nat, d: nat)
    requires Names(fs, dp, k, ip) && LinkedDir(fs, ip) && EmptyDir(fs[ip]) && ip != dp && ip != root && fs[ip].nlink == 1
    requires LinkedDir(fs, d) && d != ip && d != 0 && fs[dp].nlink >= 2 && 0 !in fs
    requires DirOk(fs, root, d) && DirOk(fs, root, dp) && Target(fs, root, dp, ip)
    ensures DirOk(Dropped(fs, dp, k, ip), root, d)
  {
    hide Targets;
    var fs' := Dropped(fs, dp, k, ip);
    NoChildOf(fs, root, ip, d);
    HasBeside(fs, fs', root, d, dp, k);
    DroppedTargets(fs, root, dp, k, ip, d);
    hide Has;
  }

  lemma NoChildOf(fs: Table, root: nat, ip: nat, c: nat)
    requires LinkedDir(fs, ip) && EmptyDir(fs[ip]) && LinkedDir(fs, c) && DirOk(fs, root, c) && ip != root && c != 0
    ensures fs[c].entries[1].inum != ip
  {
  }

  lemma DroppedTargets(fs: Table, root: nat, dp: nat, k: nat, ip: nat, d: nat)
    requires Names(fs, dp, k, ip) && LinkedDir(fs, ip) && ip != dp && fs[dp].nlink >= 2 && LinkedDir(fs, d) && d != ip && 0 !in fs
    requires DirOk(fs, root, d) && DirOk(fs, root, dp) && Target(fs, root, dp, ip)
    ensures Targets(Dropped(fs, dp, k, ip), root, d)
  {
    var fs' := Dropped(fs, dp, k, ip);
    var es, es' := fs[d].entries, fs'[d].entries;
    forall j | 2 <= j < |es'| && es'[j].inum != 0 ensures Target(fs', root, d, es'[j].inum) {
      DroppedTarget(fs, root, dp, k, ip, d, j);
    }
    hide Dots, Parented, Target;
  }

  lemma DroppedTarget(fs: Table, root: nat, dp: nat, k: nat, ip: nat, d: nat, j: nat)
    requires Names(fs, dp, k, ip) && LinkedDir(fs, ip) && ip != dp && fs[dp].nlink >= 2 && LinkedDir(fs, d) && d != ip
    requires DirOk(fs, root, d) && DirOk(fs, root, dp) && Target(fs, root, dp, ip) && 2 <= j < |fs[d].entries| && fs[d].entries[j].inum != 0
    requires d == dp ==> j != k
    ensures Target(Dropped(fs, dp, k, ip), root, d, fs[d].entries[j].inum)
  {
    assert Target(fs, root, d, fs[d].entries[j].inum);
    assert fs[d].entries[j].inum != ip;
    hide Dots, Targets, Parented;
  }

  /** A new directory ip, with its dots, named in dp. */
  ghost function Made(fs: Table, ip: nat, dp: nat, k: nat, name: string): (r: Table)
    requires ip in fs && dp in fs && ip != dp && k <= |fs[dp].entries|
  {
    var fs1 := fs[ip := Inode(Dir, 1, [Entry(".", ip), Entry("..", dp)])];
    var fs2 := fs1[dp := fs1[dp].(nlink := fs1[dp].nlink + 1)];
    WithEntry(fs2, dp, k, Entry(name, ip))
  }

  ghost predicate Makeable(fs: Table, ip: nat, dp: nat, k: nat, name: string) {
    && ip in fs && fs[ip].kind.Gone? && LinkedDir(fs, dp) && Slot(fs[dp].entries, k) && name != "." && name != ".."
  }

  lemma MadeCounts(fs: Table, n: nat, root: nat, ip: nat, dp: nat, k: nat, name: string)
    requires Sound(fs, n, root) && Makeable(fs, ip, dp, k, name)
    ensures Counted(Made(fs, ip, dp, k, name), n)
  {
    var node := Inode(Dir, 1, [Entry(".", ip), Entry("..", dp)]);
    var fs1 := fs[ip := node];
    var fs2 := fs1[dp := fs1[dp].(nlink := fs1[dp].nlink + 1)];
    var fs' := Made(fs, ip, dp, k, name);
    forall i | i in fs' ensures Refs(fs', n, i) == if fs'[i].kind.Gone? then 0 else fs'[i].nlink {
      RefsUpdate(fs, n, ip, node, i);
      NamingConcat([Entry(".", ip)], [Entry("..", dp)], i);
      NamingOne(Entry(".", ip), i);
      NamingOne(Entry("..", dp), i);
      assert node.entries == [Entry(".", ip)] + [Entry("..", dp)];
      RefsUpdate(fs1, n, dp, fs2[dp], i);
      EntryRefs(fs2, n, dp, k, Entry(name, ip), i);
    }
  }

  lemma MadeTree(fs: Table, n: nat, root: nat, ip: nat, dp: nat, k: nat, name: string)
    requires Tree(fs, n, root) && Makeable(fs, ip, dp, k, name)
    ensures Tree(Made(fs, ip, dp, k, name), n, root)
  {
    var fs' := Made(fs, ip, dp, k, name);
    assert DirOk(fs, root, dp);
    assert fs'[dp].entries[k].inum == ip;
    forall d | LinkedDir(fs', d) ensures DirOk(fs', root, d) {
      if d != ip {
        assert LinkedDir(fs, d) && DirOk(fs, root, d);
        MadeDir(fs, n, root, ip, dp, k, name, d);
      }
    }
  }

  lemma MadeDir(fs: Table, n: nat, root: nat, ip: nat, dp: nat, k: nat, name: string, d: nat)
    requires Tree(fs, n, root) && Makeable(fs, ip, dp, k, name) && LinkedDir(fs, d) && DirOk(fs, root, d)
    ensures DirOk(Made(fs, ip, dp, k, name), root, d)
  {
    MadeTargets(fs, root, ip, dp, k, name, d);
    MadeParent(fs, root, ip, dp, k, name, d);
    hide Targets, Parented;
  }

  lemma MadeTargets(fs: Table, root: nat, ip: nat, dp: nat, k: nat, name: string, d: nat)
    requires LinkedDir(fs, root) && Makeable(fs, ip, dp, k, name) && LinkedDir(fs, d) && DirOk(fs, root, d) && 0 !in fs
    ensures Targets(Made(fs, ip, dp, k, name), root, d)
  {
    var fs' := Made(fs, ip, dp, k, name);
    var es, es' := fs[d].entries, fs'[d].entries;
    forall j | 2 <= j < |es'| && es'[j].inum != 0 ensures Target(fs', root, d, es'[j].inum) {
      MadeTarget(fs, root, ip, dp, k, name, d, j);
    }
    forall j | 2 <= j < |es| && es[j].inum != 0 ensures es[j].inum != ip { assert Target(fs, root, d, es[j].inum); }
    hide Dots, Parented, Target;
  }

  lemma MadeParent(fs: Table, root: nat, ip: nat, dp: nat, k: nat, name: string, d: nat)
    requires Makeable(fs, ip, dp, k, name) && LinkedDir(fs, d) && DirOk(fs, root, d) && d != 0
    ensures |Made(fs, ip, dp, k, name)[d].entries| >= 2 && Parented(Made(fs, ip, dp, k, name), root, d)
  {
    hide Targets;
    var fs' := Made(fs, ip, dp, k, name);
    if d != root {
      var p := fs[d].entries[1].inum;
      var j :| 2 <= j < |fs[p].entries| && fs[p].entries[j].inum == d;
      assert fs'[p].entries[j].inum == d;
    }
  }

  lemma MadeTarget(fs: Table, root: nat, ip: nat, dp: nat, k: nat, name: string, d: nat, j: nat)
    requires LinkedDir(fs, root) && Makeable(fs, ip, dp, k, name) && LinkedDir(fs, d) && DirOk(fs, root, d)
    requires var es' := Made(fs, ip, dp, k, name)[d].entries; 2 <= j < |es'| && es'[j].inum != 0
    ensures Target(Made(fs, ip, dp, k, name), root, d, Made(fs, ip, dp, k, name)[d].entries[j].inum)
  {
    if d != dp || j != k { assert Target(fs, root, d, fs[d].entries[j].inum); }
    hide Dots, Parented;
  }

  // ------------------------------------------------------------------ reclaiming

  /** iput() frees an inode no entry names. */
  ghost function Reclaimed(fs: Table, i: nat): (r: Table)
    requires i in fs
  {
    fs[i := fs[i].(kind := Gone, entries := [])]
  }

  lemma ReclaimedHusks(fs: Table, i: nat)
    requires Husks(fs) && i in fs
    ensures Husks(Reclaimed(fs, i))
  {
  }

  lemma ReclaimedSound(fs: Table, n: nat, root: nat, i: nat)
    requires Sound(fs, n, root) && i in fs && !fs[i].kind.Gone? && fs[i].nlink == 0
    ensures Sound(Reclaimed(fs, i), n, root)
  {
    var fs' := Reclaimed(fs, i);
    ReclaimedHusks(fs, i);
    hide Husks;
    forall j | j in fs' ensures Refs(fs', n, j) == if fs'[j].kind.Gone? then 0 else fs'[j].nlink {
      RefsUpdate(fs, n, i, fs'[i], j);
    }
    forall d | LinkedDir(fs', d) ensures DirOk(fs', root, d) {
      assert DirOk(fs, root, d);
      var es := fs[d].entries;
      forall k | 2 <= k < |es| && es[k].inum != 0 ensures Target(fs', root, d, es[k].inum) {
        NamedCount(fs, n, root, d, k);
        assert Target(fs, root, d, es[k].inum);
      }
      if d != root {
        var j :| 2 <= j < |fs[es[1].inum].entries| && fs[es[1].inum].entries[j].inum == d;
        assert fs'[es[1].inum].entries[j].inum == d;
      }
      hide Target, Has;
    }
  }

  // -------------------------------------------------------------------- the calls

  datatype Outcome = Ok | Failed | Panic

  ghost predicate Absent(es: seq<Entry>, name: string) { forall k :: 0 <= k < |es| && es[k].inum != 0 ==> es[k].name != name }

  /** Where a name stands in a directory: its first used entry, or the end. */
  function Find(es: seq<Entry>, name: string): (k: nat)
    ensures k <= |es| && (k < |es| ==> es[k].inum != 0 && es[k].name == name)
    ensures forall j :: 0 <= j < k && es[j].inum != 0 ==> es[j].name != name
  {
    if es == [] || (es[0].inum != 0 && es[0].name == name) then 0 else 1 + Find(es[1..], name)
  }

  /** The inode of that name, 0 for none. */
  function InodeOf(fs: Table, dp: nat, name: string): (i: nat)
    requires dp in fs
    ensures i == 0 <==> Absent(fs[dp].entries, name)
  {
    var es := fs[dp].entries;
    var k := Find(es, name);
    if k < |es| then es[k].inum else 0
  }

  /** The name is that of a directory with entries. */
  ghost predicate Busy(fs: Table, dp: nat, name: string)
    requires dp in fs
  {
    var i := InodeOf(fs, dp, name);
    i in fs && fs[i].kind.Dir? && !EmptyDir(fs[i])
  }

  /** The name is that of a file or a device, which open() with O_CREATE takes as it is. */
  ghost predicate Openable(fs: Table, dp: nat, name: string)
    requires dp in fs
  {
    var i := InodeOf(fs, dp, name);
    i != 0 && i in fs && (fs[i].kind.File? || fs[i].kind.Device?)
  }

  ghost predicate NoneFree(fs: Table, n: nat) { forall j :: 0 < j < n && j in fs ==> !fs[j].kind.Gone? }

  class Volume {
    const n: nat    // inode numbers run below n
    const root: nat
    var fs: Table

    ghost predicate Valid()
      reads this
    {
      Sound(fs, n, root)
    }

    constructor (n: nat, root: nat, fs: Table)
      requires Sound(fs, n, root)
      ensures Valid() && this.fs == fs && this.n == n && this.root == root
    {
      this.n, this.root, this.fs := n, root, fs;
    }

    /** dirlookup(): the first used entry of that name. */
    method DirLookup(dp: nat, name: string) returns (found: bool, off: nat)
      requires dp in fs
      ensures found <==> !Absent(fs[dp].entries, name)
      ensures found ==> off == Find(fs[dp].entries, name) < |fs[dp].entries| && fs[dp].entries[off].inum == InodeOf(fs, dp, name) != 0
    {
      var es := fs[dp].entries;
      off := 0;
      while off < |es|
        invariant off <= |es| && forall k :: 0 <= k < off && es[k].inum != 0 ==> es[k].name != name
      {
        if es[off].inum != 0 && es[off].name == name { return true, off; }
        off := off + 1;
      }
      found := false;
    }

    /** isdirempty(): no used entry after the dots. */
    method IsDirEmpty(dp: nat) returns (r: bool)
      requires dp in fs
      ensures r <==> EmptyDir(fs[dp])
    {
      var es := fs[dp].entries;
      var off := 2;
      while off < |es|
        invariant 2 <= off && forall k :: 2 <= k < off && k < |es| ==> es[k].inum == 0
      {
        if es[off].inum != 0 { return false; }
        off := off + 1;
      }
      return true;
    }

    /** dirlink(): writes the entry into the first empty slot or at the end, unless the name is taken. */
    method DirLink(dp: nat, name: string, inum: nat) returns (ok: bool, ghost k: nat)
      requires dp in fs
      modifies this
      ensures ok <==> Absent(old(fs)[dp].entries, name)
      ensures !ok ==> fs == old(fs)
      ensures ok ==> k <= |old(fs)[dp].entries| && fs == WithEntry(old(fs), dp, k, Entry(name, inum))
      ensures ok ==> (k < |old(fs)[dp].entries| ==> old(fs)[dp].entries[k].inum == 0) && forall j :: 0 <= j < k ==> old(fs)[dp].entries[j].inum != 0
    {
      k := 0;
      var found, at := DirLookup(dp, name);
      if found { return false, k; }
      var es := fs[dp].entries;
      var off := 0;
      while off < |es| && es[off].inum != 0
        invariant off <= |es| && forall j :: 0 <= j < off ==> es[j].inum != 0
      {
        off := off + 1;
      }
      fs := fs[dp := fs[dp].(entries := Put(es, off, Entry(name, inum)))];
      return true, off;
    }

    /** ialloc(): a free inode, or 0. */
    method IAlloc() returns (i: nat)
      ensures i == 0 <==> NoneFree(fs, n)
      ensures i != 0 ==> i in fs && fs[i].kind.Gone? && NoneFree(fs, i)
    {
      i := 1;
      while i < n
        invariant 1 <= i && forall j :: 0 < j < i && j < n && j in fs ==> !fs[j].kind.Gone?
      {
        if i in fs && fs[i].kind.Gone? { return; }
        i := i + 1;
      }
      return 0;
    }

    /**
     sys_link(): ip and dp are what path lookup found, 0 for nothing. The count goes up
     first and is taken back on failure. A name in a removed directory spoils the counts.
     */
    method Link(ip: nat, dp: nat, name: string) returns (r: Outcome, ghost k: nat)
      requires Valid() && (ip != 0 ==> ip in fs && !fs[ip].kind.Gone?) && (dp != 0 ==> dp in fs && fs[dp].kind.Dir?)
      modifies this
      ensures !r.Panic?
      ensures Valid() <==> (r.Ok? ==> LinkedDir(old(fs), dp))
      ensures r.Ok? <==> ip != 0 && !old(fs)[ip].kind.Dir? && dp != 0 && Absent(old(fs)[dp].entries, name)
      ensures r.Failed? ==> fs == old(fs)
      ensures r.Ok? ==> ip != dp && k <= |old(fs)[dp].entries| && fs == Named(old(fs), ip, old(fs)[ip].(nlink := old(fs)[ip].nlink + 1), dp, k, name)
    {
      hide Sound;
      k := 0;
      ghost var s := fs;
      if ip == 0 { return Failed, k; }
      if fs[ip].kind.Dir? { return Failed, k; }
      fs := fs[ip := fs[ip].(nlink := fs[ip].nlink + 1)];
      if dp != 0 {
        var ok;
        ok, k := DirLink(dp, name, ip);
        if ok {
          if LinkedDir(s, dp) {
            LinkSlot(s, n, root, ip, dp, k, name);
            NamedSound(s, n, root, ip, s[ip].(nlink := s[ip].nlink + 1), dp, k, name);
          } else {
            NamedUnsound(s, n, root, ip, s[ip].(nlink := s[ip].nlink + 1), dp, k, name);
          }
          return Ok, k;
        }
      }
      fs := fs[ip := fs[ip].(nlink := fs[ip].nlink - 1)];
      assert fs == s;
      return Failed, k;
    }

    /** sys_unlink(): the "nlink < 1" panic cannot happen, and a directory must be empty. */
    method Unlink(dp: nat, name: string) returns (r: Outcome, ghost k: nat, ghost ip: nat)
      requires Valid() && (dp != 0 ==> dp in fs && fs[dp].kind.Dir?)
      modifies this
      ensures Valid() && !r.Panic?
      ensures r.Failed? ==> fs == old(fs)
      ensures r.Ok? ==> dp != 0 && Names(old(fs), dp, k, ip) && k == Find(old(fs)[dp].entries, name) && ip == InodeOf(old(fs), dp, name) && ip != dp
      ensures r.Ok? ==> fs == (if old(fs)[ip].kind.Dir? then Dropped(old(fs), dp, k, ip) else Unnamed(old(fs), dp, k, ip))
      ensures r.Ok? && old(fs)[ip].kind.Dir? ==> EmptyDir(old(fs)[ip]) && fs[ip].nlink == 0
      ensures r.Failed? <==> dp == 0 || name == "." || name == ".." || Absent(old(fs)[dp].entries, name) || Busy(old(fs), dp, name)
    {
      hide Sound, Find, InodeOf, Absent, EmptyDir;
      k, ip := 0, 0;
      if dp == 0 { return Failed, k, ip; }
      if name == "." || name == ".." { return Failed, k, ip; }
      var found, off := DirLookup(dp, name);
      if !found { return Failed, k, ip; }
      FoundLinked(fs, n, root, dp, off);
      var i := fs[dp].entries[off].inum;
      k, ip := off, i;
      UnlinkTarget(fs, n, root, dp, off);
      if fs[i].nlink < 1 { return Panic, k, ip; }
      if fs[i].kind.Dir? {
        var empty := IsDirEmpty(i);
        if !empty { return Failed, k, ip; }
        DroppedSound(fs, n, root, dp, off, i);
      } else {
        UnnamedSound(fs, n, root, dp, off, i);
      }
      fs := fs[dp := fs[dp].(entries := Put(fs[dp].entries, off, BLANK))];
      if fs[i].kind.Dir? {
        fs := fs[dp := fs[dp].(nlink := fs[dp].nlink - 1)];
      }
      fs := fs[i := fs[i].(nlink := fs[i].nlink - 1)];
      return Ok, k, ip;
    }

    /** create(): an existing file is returned for T_FILE; otherwise a new inode with one link. */
    method Create(dp: nat, name: string, kind: Kind) returns (r: Outcome, ip: nat, made: bool, ghost k: nat)
      requires Valid() && (dp != 0 ==> dp in fs && fs[dp].kind.Dir?) && !kind.Gone?
      modifies this
      ensures Valid() <==> (made ==> LinkedDir(old(fs), dp))
      ensures !made ==> fs == old(fs)
      ensures r.Failed? <==> dp == 0 || (!Absent(old(fs)[dp].entries, name) && !(kind.File? && Openable(old(fs), dp, name)))
      ensures r.Panic? <==> dp != 0 && Absent(old(fs)[dp].entries, name) && NoneFree(old(fs), n)
      ensures r.Ok? && !made <==> dp != 0 && kind.File? && Openable(old(fs), dp, name)
      ensures r.Ok? && !made ==> ip == InodeOf(old(fs), dp, name)
      ensures made <==> dp != 0 && Absent(old(fs)[dp].entries, name) && !NoneFree(old(fs), n)
      ensures made ==> r.Ok? && ip in old(fs) && old(fs)[ip].kind.Gone? && ip != dp && NoneFree(old(fs), ip)
      ensures made ==> Slot(old(fs)[dp].entries, k) && fs == (if kind.Dir? then Made(old(fs), ip, dp, k, name) else Named(old(fs), ip, Inode(kind, 1, []), dp, k, name))
    {
      hide Sound, Find, InodeOf, Absent, Slot, Made, Named, NoneFree;
      ip, made, k := 0, false, 0;
      if dp == 0 { return Failed, ip, made, k; }
      var found, off := DirLookup(dp, name);
      if found {
        ip := fs[dp].entries[off].inum;
        ghost var none := 0;
        if kind.File? && ip in fs && (fs[ip].kind.File? || fs[ip].kind.Device?) { return Ok, ip, made, none; }
        return Failed, ip, made, none;
      }
      ip := IAlloc();
      if ip == 0 { return Panic, ip, made, k; } // panic("create: ialloc")
      k := MakeNode(dp, name, kind, ip);
      return Ok, ip, true, k;
    }

    /** create() from ialloc() on: the new inode, its dots if it is a directory, and its name. */
    method MakeNode(dp: nat, name: string, kind: Kind, ip: nat) returns (ghost k: nat)
      requires Valid() && dp in fs && fs[dp].kind.Dir? && !kind.Gone? && Absent(fs[dp].entries, name) && ip in fs && fs[ip].kind.Gone?
      modifies this
      ensures ip != dp && Slot(old(fs)[dp].entries, k)
      ensures fs == (if kind.Dir? then Made(old(fs), ip, dp, k, name) else Named(old(fs), ip, Inode(kind, 1, []), dp, k, name))
      ensures Valid() <==> LinkedDir(old(fs), dp)
    {
      hide Sound;
      ghost var s := fs;
      NewName(s, n, root, dp, name);
      fs := fs[ip := Inode(kind, 1, [])];
      var ok;
      if kind.Dir? {
        fs := fs[dp := fs[dp].(nlink := fs[dp].nlink + 1)];
        ok, k := DirLink(ip, ".", ip);
        ok, k := DirLink(ip, "..", dp);
        assert fs[ip].entries == [Entry(".", ip), Entry("..", dp)];
      }
      ok, k := DirLink(dp, name, ip);
      CreateSlot(s, n, root, dp, k);
      CreatedSound(s, n, root, ip, dp, k, name, kind);
      assert kind.Dir? ==> fs == Made(s, ip, dp, k, name);
    }

    /** iput()'s last reference to an inode without links. */
    method Reclaim(i: nat)
      requires Valid() && i in fs && !fs[i].kind.Gone? && fs[i].nlink == 0
      modifies this
      ensures Valid() && fs == Reclaimed(old(fs), i)
    {
      ReclaimedSound(fs, n, root, i);
      fs := fs[i := fs[i].(kind := Gone, entries := [])];
    }
  }

  lemma NewName(fs: Table, n: nat, root: nat, dp: nat, name: string)
    requires Sound(fs, n, root) && dp in fs && fs[dp].kind.Dir? && Absent(fs[dp].entries, name)
    ensures name != "." && name != ".." && dp != 0 && 0 !in fs
  {
    DotsUsed(fs, n, root, dp);
  }

  lemma DotsUsed(fs: Table, n: nat, root: nat, dp: nat)
    requires Sound(fs, n, root) && dp in fs && fs[dp].kind.Dir?
    ensures |fs[dp].entries| >= 2 && fs[dp].entries[0].inum != 0 && fs[dp].entries[1].inum != 0
    ensures fs[dp].entries[0].name == "." && fs[dp].entries[1].name == ".."
  {
    assert LinkedDir(fs, dp) ==> DirOk(fs, root, dp);
    assert !LinkedDir(fs, dp) ==> Husk(fs[dp], dp);
  }

  /** A directory in which unlink() finds a name is a linked one. */
  lemma FoundLinked(fs: Table, n: nat, root: nat, dp: nat, k: nat)
    requires Sound(fs, n, root) && dp in fs && fs[dp].kind.Dir? && k < |fs[dp].entries| && fs[dp].entries[k].inum != 0
    requires fs[dp].entries[k].name != "." && fs[dp].entries[k].name != ".."
    ensures LinkedDir(fs, dp)
  {
    DotsUsed(fs, n, root, dp);
    assert !LinkedDir(fs, dp) ==> Husk(fs[dp], dp);
  }

  lemma CreateSlot(fs: Table, n: nat, root: nat, dp: nat, k: nat)
    requires Sound(fs, n, root) && dp in fs && fs[dp].kind.Dir? && k <= |fs[dp].entries|
    requires (k < |fs[dp].entries| ==> fs[dp].entries[k].inum == 0)
    ensures Slot(fs[dp].entries, k)
  {
    DotsUsed(fs, n, root, dp);
  }

  lemma LinkSlot(fs: Table, n: nat, root: nat, ip: nat, dp: nat, k: nat, name: string)
    requires Sound(fs, n, root) && ip in fs && !fs[ip].kind.Dir? && !fs[ip].kind.Gone? && LinkedDir(fs, dp) && k <= |fs[dp].entries|
    requires (k < |fs[dp].entries| ==> fs[dp].entries[k].inum == 0) && Absent(fs[dp].entries, name)
    ensures Nameable(fs, root, ip, fs[ip].(nlink := fs[ip].nlink + 1), dp, k, name)
  {
    CreateSlot(fs, n, root, dp, k);
    NewName(fs, n, root, dp, name);
  }

  lemma UnlinkTarget(fs: Table, n: nat, root: nat, dp: nat, k: nat)
    requires Sound(fs, n, root) && LinkedDir(fs, dp) && k < |fs[dp].entries| && fs[dp].entries[k].inum != 0
    requires fs[dp].entries[k].name != "." && fs[dp].entries[k].name != ".."
    ensures Names(fs, dp, k, fs[dp].entries[k].inum) && fs[fs[dp].entries[k].inum].nlink >= 1
    ensures fs[fs[dp].entries[k].inum].kind.Dir? ==> LinkedDir(fs, fs[dp].entries[k].inum)
  {
    assert DirOk(fs, root, dp);
    NamedCount(fs, n, root, dp, k);
  }

  // ------------------------------------------------------------ the whole invariant

  lemma NamedHusks(fs: Table, root: nat, ip: nat, node: Inode, dp: nat, k: nat, name: string)
    requires Husks(fs) && Nameable(fs, root, ip, node, dp, k, name)
    ensures Husks(Named(fs, ip, node, dp, k, name))
  {
  }

  lemma NamedSound(fs: Table, n: nat, root: nat, ip: nat, node: Inode, dp: nat, k: nat, name: string)
    requires Sound(fs, n, root) && Nameable(fs, root, ip, node, dp, k, name)
    requires node.nlink == (if fs[ip].kind.Gone? then 0 else fs[ip].nlink) + 1
    ensures ip != dp && Sound(Named(fs, ip, node, dp, k, name), n, root)
  {
    hide Tree, Counted, Husks;
    NamedCounts(fs, n, root, ip, node, dp, k, name);
    NamedTree(fs, n, root, ip, node, dp, k, name);
    NamedHusks(fs, root, ip, node, dp, k, name);
  }

  /** In a removed directory the new name does not count, but the file's count has gone up. */
  lemma NamedUnsound(fs: Table, n: nat, root: nat, ip: nat, node: Inode, dp: nat, k: nat, name: string)
    requires Sound(fs, n, root) && ip in fs && !fs[ip].kind.Dir? && !node.kind.Dir? && !node.kind.Gone?
    requires dp in fs && fs[dp].kind.Dir? && !LinkedDir(fs, dp) && k <= |fs[dp].entries|
    requires node.nlink == (if fs[ip].kind.Gone? then 0 else fs[ip].nlink) + 1
    ensures ip != dp && !Sound(Named(fs, ip, node, dp, k, name), n, root)
  {
    var fs1, fs' := fs[ip := node], Named(fs, ip, node, dp, k, name);
    RefsUpdate(fs, n, ip, node, ip);
    RefsUpdate(fs1, n, dp, fs'[dp], ip);
    assert Refs(fs', n, ip) == Refs(fs, n, ip);
  }

  lemma UnnamedHusks(fs: Table, dp: nat, k: nat, ip: nat)
    requires Husks(fs) && Names(fs, dp, k, ip) && !fs[ip].kind.Dir?
    ensures Husks(Unnamed(fs, dp, k, ip))
  {
  }

  lemma UnnamedSound(fs: Table, n: nat, root: nat, dp: nat, k: nat, ip: nat)
    requires Sound(fs, n, root) && Names(fs, dp, k, ip) && !fs[ip].kind.Dir?
    ensures ip != dp && Sound(Unnamed(fs, dp, k, ip), n, root)
  {
    hide Tree, Counted, Husks;
    UnnamedCounts(fs, n, root, dp, k, ip);
    UnnamedTree(fs, n, root, dp, k, ip);
    UnnamedHusks(fs, dp, k, ip);
  }

  lemma DroppedHusks(fs: Table, n: nat, root: nat, dp: nat, k: nat, ip: nat)
    requires Sound(fs, n, root) && Names(fs, dp, k, ip) && LinkedDir(fs, ip) && EmptyDir(fs[ip]) && ip != dp
    requires fs[dp].nlink >= 2 && fs[ip].entries[1].inum == dp
    ensures Husks(Dropped(fs, dp, k, ip))
  {
    assert DirOk(fs, root, ip);
    hide Counted, Targets, Parented;
    var fs' := Dropped(fs, dp, k, ip);
    assert Husk(fs'[ip], ip);
  }

  lemma DroppedSound(fs: Table, n: nat, root: nat, dp: nat, k: nat, ip: nat)
    requires Sound(fs, n, root) && Names(fs, dp, k, ip) && LinkedDir(fs, ip) && EmptyDir(fs[ip])
    ensures ip != dp && Sound(Dropped(fs, dp, k, ip), n, root) && fs[ip].nlink == 1
  {
    hide Tree, Counted, Husks;
    EmptyCount(fs, n, root, dp, k, ip);
    ParentLinks(fs, n, root, dp, k, ip);
    DroppedCounts(fs, n, root, dp, k, ip);
    DroppedTree(fs, n, root, dp, k, ip);
    DroppedHusks(fs, n, root, dp, k, ip);
  }

  lemma MadeHusks(fs: Table, ip: nat, dp: nat, k: nat, name: string)
    requires Husks(fs) && Makeable(fs, ip, dp, k, name)
    ensures Husks(Made(fs, ip, dp, k, name))
  {
  }

  lemma MadeSound(fs: Table, n: nat, root: nat, ip: nat, dp: nat, k: nat, name: string)
    requires Sound(fs, n, root) && Makeable(fs, ip, dp, k, name)
    ensures ip != dp && Sound(Made(fs, ip, dp, k, name), n, root)
  {
    hide Tree, Counted, Husks;
    MadeCounts(fs, n, root, ip, dp, k, name);
    MadeTree(fs, n, root, ip, dp, k, name);
    MadeHusks(fs, ip, dp, k, name);
  }

  /** No linked directory names a removed one. */
  lemma NotNamed(fs: Table, n: nat, root: nat, p: nat, d: nat)
    requires Sound(fs, n, root) && d in fs && fs[d].nlink <= 0 && LinkedDir(fs, p) && d != 0
    ensures !Has(fs, p, d)
  {
    if Has(fs, p, d) {
      var k :| 2 <= k < |fs[p].entries| && fs[p].entries[k].inum == d;
      NamedCount(fs, n, root, p, k);
    }
  }

  /** A removed directory is linked again by the ".." of a new one, but no directory has an entry for it. */
  lemma MadeUnsound(fs: Table, n: nat, root: nat, ip: nat, dp: nat, k: nat, name: string)
    requires Sound(fs, n, root) && ip in fs && fs[ip].kind.Gone? && dp in fs && fs[dp].kind.Dir? && !LinkedDir(fs, dp)
    requires Slot(fs[dp].entries, k)
    ensures ip != dp && !Sound(Made(fs, ip, dp, k, name), n, root)
  {
    var fs' := Made(fs, ip, dp, k, name);
    assert Husk(fs[dp], dp);
    assert Refs(fs, n, dp) == fs[dp].nlink;
    var p := fs[dp].entries[1].inum;
    assert fs'[dp].entries[1].inum == p && dp != root && dp != 0;
    if LinkedDir(fs', p) {
      if LinkedDir(fs, p) { NotNamed(fs, n, root, p, dp); }
      MadeHas(fs, ip, dp, k, name, p);
    }
    hide Counted, Husks, Dots, Targets, Has;
    assert !Parented(fs', root, dp);
    assert LinkedDir(fs', dp);
  }

  lemma MadeHas(fs: Table, ip: nat, dp: nat, k: nat, name: string, p: nat)
    requires ip in fs && dp in fs && ip != dp && dp != 0 && Husk(fs[dp], dp) && Slot(fs[dp].entries, k)
    requires p in fs && (p == ip || p == dp || !Has(fs, p, dp))
    ensures !Has(Made(fs, ip, dp, k, name), p, dp)
  {
  }

  lemma CreatedSound(fs: Table, n: nat, root: nat, ip: nat, dp: nat, k: nat, name: string, kind: Kind)
    requires Sound(fs, n, root) && ip in fs && fs[ip].kind.Gone? && dp in fs && fs[dp].kind.Dir? && !kind.Gone?
    requires Slot(fs[dp].entries, k) && name != "." && name != ".."
    ensures ip != dp
    ensures Sound(if kind.Dir? then Made(fs, ip, dp, k, name) else Named(fs, ip, Inode(kind, 1, []), dp, k, name), n, root) <==> LinkedDir(fs, dp)
  {
    hide Sound;
    if kind.Dir? {
      if LinkedDir(fs, dp) { MadeSound(fs, n, root, ip, dp, k, name); } else { MadeUnsound(fs, n, root, ip, dp, k, name); }
    } else {
      if LinkedDir(fs, dp) {
        NamedSound(fs, n, root, ip, Inode(kind, 1, []), dp, k, name);
      } else {
        NamedUnsound(fs, n, root, ip, Inode(kind, 1, []), dp, k, name);
      }
    }
  }
}
