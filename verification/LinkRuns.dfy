/** A run of the directory calls from a lone root directory. */
module LinkRuns {
  import opened LinkCount
  import opened Links
  import Fresh

  /**
   A process removes its own current directory and creates a file there: the file
   counts one link, and no linked directory names it.
   */
  method RemovedParent() returns (v: Volume, ip: nat)
    ensures fresh(v) && !v.Valid() && ip in v.fs && v.fs[ip].nlink == 1 && Refs(v.fs, v.n, ip) == 0
  {
    hide Sound;
    Fresh.RootSound(4);
    var fs := Start();
    v := new Volume(4, 1, fs);
    var d := MakeDir(v);
    RemoveDir(v, d);
    var r, made;
    ghost var k;
    ghost var s := v.fs;
    r, ip, made, k := v.Create(d, "x", File);
    Uncounted(s, v.n, v.root, ip, d, k);
  }

  method Start() returns (fs: Table)
    ensures fs == Fresh.RootOnly(4)
  {
    fs := map[1 := Inode(Dir, 1, [Entry(".", 1), Entry("..", 1)]), 2 := Inode(Gone, 0, []), 3 := Inode(Gone, 0, [])];
  }

  /** The root has one subdirectory, empty, and an inode is left. */
  ghost predicate OneDir(fs: Table, d: nat) {
    && fs.Keys == {1, 2, 3} && (d == 2 || d == 3) && fs[5 - d].kind.Gone?
    && LinkedDir(fs, 1) && fs[1].entries == [Entry(".", 1), Entry("..", 1), Entry("d", d)]
    && fs[d] == Inode(Dir, 1, [Entry(".", d), Entry("..", 1)])
  }

  method MakeDir(v: Volume) returns (d: nat)
    requires v.Valid() && v.fs == Fresh.RootOnly(4) && v.n == 4 && v.root == 1
    modifies v
    ensures v.Valid() && OneDir(v.fs, d)
  {
    hide Sound;
    assert 2 in v.fs && v.fs[2].kind.Gone?;
    var r, made;
    ghost var k;
    r, d, made, k := v.Create(1, "d", Dir);
    assert k == 2 && v.fs[1].entries == [Entry(".", 1), Entry("..", 1), Entry("d", d)];
  }

  method RemoveDir(v: Volume, d: nat)
    requires v.Valid() && OneDir(v.fs, d)
    modifies v
    ensures v.Valid() && v.fs.Keys == {1, 2, 3} && (d == 2 || d == 3) && v.fs[5 - d].kind.Gone?
    ensures v.fs[d] == Inode(Dir, 0, [Entry(".", d), Entry("..", 1)])
  {
    hide Sound;
    assert v.fs[1].entries[2] == Entry("d", d);
    var r;
    ghost var k, ip;
    r, k, ip := v.Unlink(1, "d");
  }

  lemma Uncounted(fs: Table, n: nat, root: nat, ip: nat, d: nat, k: nat)
    requires Sound(fs, n, root) && ip in fs && fs[ip].kind.Gone? && d in fs && ip != d && !LinkedDir(fs, d) && k <= |fs[d].entries|
    ensures Refs(Named(fs, ip, Inode(File, 1, []), d, k, "x"), n, ip) == 0
  {
    var fs1, fs' := fs[ip := Inode(File, 1, [])], Named(fs, ip, Inode(File, 1, []), d, k, "x");
    RefsUpdate(fs, n, ip, fs1[ip], ip);
    RefsUpdate(fs1, n, d, fs'[d], ip);
  }
}
