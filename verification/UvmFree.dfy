/** Creating an address space and freeing one: its pages, then its tables, bottom up. */
module UvmFree {
  import opened Sv39
  import opened Kalloc
  import opened Vm
  import opened Uvm

  // ---------------------------------------------------------- families of tables

  /** The table of the given level on the path from c up to the root. */
  ghost function Ancestor(c: Key, level: nat): (k: Key)
    decreases level - c.level
  {
    if c.level >= level then c else Ancestor(Parent(c), level)
  }

  ghost predicate Under(c: Key, k: Key) { c.level <= k.level && Ancestor(c, k.level) == k }

  ghost function Below(tables: map<Key, nat>, k: Key): (r: set<Key>) { set c | c in tables && Under(c, k) }

  /** Below one of the first i children of k. */
  ghost function Done(tables: map<Key, nat>, k: Key, i: nat): (r: set<Key>) {
    set c | c in tables && c.level < k.level && Under(c, k) && Ancestor(c, k.level - 1).prefix % 512 < i
  }

  lemma {:induction false} AncestorUp(c: Key, level: nat)
    requires c.level <= level
    ensures Ancestor(c, level).level == level && Ancestor(c, level).root == c.root
    ensures Ancestor(c, level + 1) == Parent(Ancestor(c, level))
    decreases level - c.level
  {
    if c.level < level { AncestorUp(Parent(c), level); }
  }

  lemma UnderChild(c: Key, k: Key, i: nat)
    requires k.level > 0 && i < NPTE
    ensures Under(c, Child(k, i)) <==> c.level < k.level && Under(c, k) && Ancestor(c, k.level - 1).prefix % 512 == i
  {
    ChildParent(k, i);
    if c.level < k.level { AncestorUp(c, k.level - 1); }
  }

  lemma DoneMore(tables: map<Key, nat>, k: Key, i: nat)
    requires k.level > 0 && i < NPTE
    ensures Done(tables, k, i + 1) == Done(tables, k, i) + Below(tables - Done(tables, k, i), Child(k, i))
  {
    forall c | c in tables
      ensures c in Done(tables, k, i + 1) <==> c in Done(tables, k, i) + Below(tables - Done(tables, k, i), Child(k, i))
    {
      UnderChild(c, k, i);
    }
  }

  lemma DoneAll(tables: map<Key, nat>, k: Key)
    requires k in tables
    ensures Below(tables, k) == Done(tables, k, 512) + {k}
  {
    forall c | c in tables ensures c in Below(tables, k) <==> c in Done(tables, k, 512) + {k} {
      if c.level < k.level { AncestorUp(c, k.level - 1); }
    }
  }

  // ----------------------------------------------------- tables leaving the tree

  /** The entry that named a table no longer there is cleared. */
  lemma Heal(mem: Mem, role: map<nat, Role>, tables: map<Key, nat>, k: Key, i: nat)
    requires k in tables && k.level > 0 && i < NPTE && TreeBut(mem, role, tables, {Child(k, i)}) && Child(k, i) !in tables
    ensures tables[k] in mem && Tree(mem[tables[k] := mem[tables[k]][i := 0]], role, tables)
  {
    assert Placed(mem, role, tables, k);
    var mem' := mem[tables[k] := mem[tables[k]][i := 0]];
    forall c | c in tables ensures Placed(mem', role, tables, c) { assert Placed(mem, role, tables, c); }
    forall c, j | c in tables && c.level > 0 && 0 <= j < NPTE ensures Linked(mem', tables, c, j) {
      ChildParent(c, j);
      ChildParent(k, i);
      assert Placed(mem, role, tables, c);
      if c != k || j != i {
        assert Child(c, j) != Child(k, i);
        assert Linked(mem, tables, c, j);
      }
    }
  }

  lemma NoChild(mem: Mem, role: map<nat, Role>, tables: map<Key, nat>, k: Key, c: Key)
    requires Tree(mem, role, tables) && k in tables && tables[k] in mem && c in tables
    requires k.level > 0 ==> forall i :: 0 <= i < NPTE ==> !V(mem[tables[k]][i])
    ensures Parent(c) != k
  {
    if k.level > 0 {
      var i := c.prefix % 512;
      assert Linked(mem, tables, k, i);
      assert Parent(c) == k ==> c == Child(k, i);
    }
  }

  /** A table with no valid entry leaves the tree; only the entry naming it is then stale. */
  lemma Pluck(mem: Mem, role: map<nat, Role>, tables: map<Key, nat>, k: Key)
    requires Tree(mem, role, tables) && k in tables && tables[k] in mem
    requires k.level > 0 ==> forall i :: 0 <= i < NPTE ==> !V(mem[tables[k]][i])
    ensures TreeBut(mem, role[tables[k] := Owned], tables - {k}, {k})
  {
    var role', tables' := role[tables[k] := Owned], tables - {k};
    assert Placed(mem, role, tables, k);
    forall c | c in tables' ensures Placed(mem, role', tables', c) {
      assert Placed(mem, role, tables, c);
      NoChild(mem, role, tables, k, c);
    }
    forall c, j | c in tables' && c.level > 0 && 0 <= j < NPTE && Child(c, j) !in {k} ensures Linked(mem, tables', c, j) {
      assert Placed(mem, role, tables, c) && Linked(mem, tables, c, j);
    }
  }

  /** From s to t exactly the tables `gone` were freed. */
  ghost predicate Dropped(s: Phys, t: Phys, gone: set<Key>) {
    && t.tables == s.tables - gone && t.role.Keys == s.role.Keys && s.mem.Keys == t.mem.Keys == s.role.Keys
    && (forall p :: p in s.role ==>
          t.role[p] == if s.role[p].Table? && s.role[p].key in gone then Free else s.role[p])
    && (forall p :: p in s.role && s.role[p] == Owned ==> t.mem[p] == s.mem[p])
  }

  /** The tables that remain, but for k, are as they were. */
  ghost predicate SameTables(s: Phys, t: Phys, k: Key) {
    forall c :: c in t.tables && c != k ==>
      && c in s.tables && s.tables[c] == t.tables[c] && s.tables[c] in s.mem && s.tables[c] in t.mem
      && t.mem[s.tables[c]] == s.mem[s.tables[c]]
  }

  lemma DroppedMore(s: Phys, t: Phys, u: Phys, g: set<Key>, h: set<Key>)
    requires Dropped(s, t, g) && Dropped(t, u, h)
    ensures Dropped(s, u, g + h)
  {
    assert u.tables == s.tables - (g + h);
  }

  /** No leaf below k maps anything. */
  ghost predicate Bare(s: Phys, k: Key) {
    forall c, i :: c in s.tables && Under(c, k) && c.level == 0 && s.tables[c] in s.mem && 0 <= i < NPTE ==> !V(s.mem[s.tables[c]][i])
  }

  /** freewalk() has dealt with the first i entries of table k, in page p. */
  ghost predicate Walked(s: Phys, t: Phys, k: Key, i: nat) {
    && k in s.tables && k in t.tables && s.tables[k] == t.tables[k] && s.tables[k] in s.mem && s.tables[k] in t.mem
    && Dropped(s, t, Done(s.tables, k, i)) && SameTables(s, t, k)
    && (forall j :: 0 <= j < NPTE ==> if j < i then !V(t.mem[t.tables[k]][j]) else t.mem[t.tables[k]][j] == s.mem[s.tables[k]][j])
  }

  lemma WalkedNone(end: nat, s: Phys, k: Key)
    requires Valid(end, s) && k in s.tables
    ensures Walked(s, s, k, 0)
  {
    RamPages(end, s);
    assert forall c :: c in s.tables ==> Placed(s.mem, s.role, s.tables, c);
    assert s.tables == s.tables - Done(s.tables, k, 0);
  }

  /** An invalid entry: the child never existed, so there is nothing to drop. */
  lemma WalkedSkip(end: nat, s: Phys, t: Phys, k: Key, i: nat)
    requires Valid(end, t) && Walked(s, t, k, i) && i < NPTE && k.level <= 2 && !V(t.mem[t.tables[k]][i])
    ensures Walked(s, t, k, i + 1)
  {
    hide Valid, Below, Dropped, SameTables;
    if k.level > 0 {
      Entry(end, t, k, i);
      DoneMore(s.tables, k, i);
      assert t.tables == s.tables - Done(s.tables, k, i) by { DroppedTables(s, t, Done(s.tables, k, i)); }
      NoneBelow(end, t, Child(k, i));
      assert Done(s.tables, k, i + 1) == Done(s.tables, k, i);
    } else {
      assert Done(s.tables, k, i + 1) == Done(s.tables, k, i);
    }
  }

  lemma DroppedTables(s: Phys, t: Phys, gone: set<Key>)
    requires Dropped(s, t, gone)
    ensures t.tables == s.tables - gone
  {
  }

  lemma NoneBelow(end: nat, s: Phys, k: Key)
    requires Valid(end, s) && k !in s.tables && k.level < 2
    ensures Below(s.tables, k) == {}
  {
    forall c | c in s.tables ensures !Under(c, k) {
      if c.level <= k.level { Ancestors(end, s, c, k.level); }
    }
  }

  lemma {:induction false} Ancestors(end: nat, s: Phys, c: Key, level: nat)
    requires Valid(end, s) && c in s.tables && c.level <= level <= 2
    ensures Ancestor(c, level) in s.tables
    decreases level - c.level
  {
    assert Placed(s.mem, s.role, s.tables, c);
    if c.level < level { Ancestors(end, s, Parent(c), level); }
  }

  /** What freewalk() of table k leaves: its family freed, everything else as before. */
  ghost predicate Freed(end: nat, s: Phys, t: Phys, k: Key) {
    && Books(end, t) && TreeBut(t.mem, t.role, t.tables, {k})
    && Dropped(s, t, Below(s.tables, k)) && SameTables(s, t, k) && k !in t.tables
  }

  ghost function Cleared(s: Phys, k: Key, i: nat): (t: Phys)
    requires k in s.tables && s.tables[k] in s.mem && i < NPTE
  {
    s.(mem := s.mem[s.tables[k] := s.mem[s.tables[k]][i := 0]])
  }

  lemma ClearedValid(end: nat, t: Phys, u: Phys, k: Key, i: nat)
    requires Valid(end, t) && k in t.tables && k.level > 0 && i < NPTE && Freed(end, t, u, Child(k, i))
    ensures k in u.tables && u.tables[k] == t.tables[k] && u.tables[k] in u.mem && u.tables[k] in t.mem && u.mem[u.tables[k]] == t.mem[t.tables[k]]
    ensures Valid(end, Cleared(u, k, i))
  {
    assert Placed(t.mem, t.role, t.tables, k);
    UnderChild(k, k, i);
    assert k in u.tables;
    Heal(u.mem, u.role, u.tables, k, i);
    assert Placed(u.mem, u.role, u.tables, k);
    BooksFrame(end, u, Cleared(u, k, i));
  }

  /** A valid entry: its table is freed with all below it, then the entry cleared. */
  lemma WalkedStep(end: nat, s: Phys, t: Phys, u: Phys, k: Key, i: nat)
    requires Valid(end, t) && Walked(s, t, k, i) && k.level > 0 && i < NPTE && Freed(end, t, u, Child(k, i))
    ensures k in u.tables && u.tables[k] in u.mem && Valid(end, Cleared(u, k, i)) && Walked(s, Cleared(u, k, i), k, i + 1)
  {
    hide Valid, Done, Below, TreeBut, Books, Dropped, SameTables;
    TableOwned(end, t, k);
    ClearedValid(end, t, u, k, i);
    var v := Cleared(u, k, i);
    DoneMore(s.tables, k, i);
    DroppedTables(s, t, Done(s.tables, k, i));
    DroppedMore(s, t, u, Done(s.tables, k, i), Below(t.tables, Child(k, i)));
    DroppedRole(s, t, k, Done(s.tables, k, i));
    ClearedDropped(s, u, k, i, Done(s.tables, k, i + 1));
    OtherPages(end, u, k, i);
    TablesTwice(s, t, u, v, k, Child(k, i));
  }

  lemma DroppedRole(s: Phys, t: Phys, k: Key, gone: set<Key>)
    requires Dropped(s, t, gone) && k in t.tables && t.tables[k] in t.role && t.role[t.tables[k]] == Table(k)
    ensures t.tables[k] in s.role && s.role[t.tables[k]] == Table(k)
  {
  }

  lemma OtherPages(end: nat, u: Phys, k: Key, i: nat)
    requires k in u.tables && u.tables[k] in u.mem && i < NPTE && Valid(end, Cleared(u, k, i))
    ensures forall d :: d in u.tables && d != k && u.tables[d] in u.mem ==> Cleared(u, k, i).mem[u.tables[d]] == u.mem[u.tables[d]]
  {
    TablesApart(end, Cleared(u, k, i), k);
    hide Valid;
  }

  lemma TableOwned(end: nat, s: Phys, k: Key)
    requires Valid(end, s) && k in s.tables
    ensures s.tables[k] in s.role && s.role[s.tables[k]] == Table(k) && s.tables[k] in s.mem
  {
    assert Placed(s.mem, s.role, s.tables, k);
  }

  lemma ClearedDropped(s: Phys, u: Phys, k: Key, i: nat, gone: set<Key>)
    requires Dropped(s, u, gone) && k in u.tables && u.tables[k] in u.mem && i < NPTE
    requires u.tables[k] in s.role && s.role[u.tables[k]].Table?
    ensures Dropped(s, Cleared(u, k, i), gone)
  {
  }

  lemma TablesTwice(s: Phys, t: Phys, u: Phys, v: Phys, k: Key, c: Key)
    requires SameTables(s, t, k) && SameTables(t, u, c) && c !in u.tables
    requires v.tables == u.tables && k in u.tables && u.tables[k] in u.mem && v.mem.Keys == u.mem.Keys
    requires forall d :: d in u.tables && d != k && u.tables[d] in u.mem ==> v.mem[u.tables[d]] == u.mem[u.tables[d]]
    ensures SameTables(s, v, k)
  {
  }

  /** The page of table k, all of whose entries are clear, is no table any more. */
  ghost function Plucked(s: Phys, k: Key): (t: Phys)
    requires k in s.tables
  {
    s.(role := s.role[s.tables[k] := Owned], tables := s.tables - {k})
  }

  lemma PluckedBooks(end: nat, u: Phys, k: Key)
    requires Valid(end, u) && k in u.tables
    requires u.tables[k] in u.mem && (k.level > 0 ==> forall j :: 0 <= j < NPTE ==> !V(u.mem[u.tables[k]][j]))
    ensures Books(end, Plucked(u, k)) && TreeBut(u.mem, Plucked(u, k).role, Plucked(u, k).tables, {k})
  {
    TableOwned(end, u, k);
    Pluck(u.mem, u.role, u.tables, k);
    BooksFrame(end, u, Plucked(u, k));
  }

  /** kfree() of the plucked page leaves the other tables alone. */
  lemma GaveTree(end: nat, u: Phys, k: Key, t: Phys)
    requires Valid(end, u) && k in u.tables && u.tables[k] in u.mem
    requires k.level > 0 ==> forall j :: 0 <= j < NPTE ==> !V(u.mem[u.tables[k]][j])
    requires Gave(Plucked(u, k), t, u.tables[k])
    ensures TreeBut(t.mem, t.role, t.tables, {k})
  {
    var v, p := Plucked(u, k), u.tables[k];
    PluckedBooks(end, u, k);
    TablesApart(end, u, k);
    hide Valid, Books;
    TreeFrame(v.mem, v.role, t.mem, t.role, v.tables, {k});
  }

  lemma GaveTables(s: Phys, u: Phys, k: Key, t: Phys)
    requires k in u.tables && Gave(Plucked(u, k), t, u.tables[k]) && SameTables(s, u, k)
    requires forall c :: c in u.tables && c != k ==> u.tables[c] != u.tables[k]
    ensures SameTables(s, t, k) && k !in t.tables
  {
  }

  lemma GaveDropped(s: Phys, u: Phys, k: Key, t: Phys, gone: set<Key>)
    requires k in u.tables && Gave(Plucked(u, k), t, u.tables[k]) && Dropped(s, u, gone)
    requires u.tables[k] in s.role && s.role[u.tables[k]] == Table(k)
    requires forall p :: p in s.role && s.role[p] == Table(k) ==> p == u.tables[k]
    ensures Dropped(s, t, gone + {k})
  {
    assert t.tables == s.tables - (gone + {k});
  }

  lemma OnePage(end: nat, s: Phys, k: Key)
    requires Valid(end, s) && k in s.tables
    ensures forall p :: p in s.role && s.role[p] == Table(k) ==> p == s.tables[k]
  {
  }

  lemma WalkedFreed(end: nat, s: Phys, u: Phys, k: Key, t: Phys)
    requires Valid(end, s) && Valid(end, u) && Walked(s, u, k, 512) && k.level <= 2
    requires Books(end, t) && Gave(Plucked(u, k), t, u.tables[k])
    ensures Freed(end, s, t, k)
  {
    hide Valid, Books, TreeBut, Done, Below, Gave, SameTables, Dropped;
    GaveTree(end, u, k, t);
    TablesApart(end, u, k);
    GaveTables(s, u, k, t);
    TableOwned(end, s, k);
    OnePage(end, s, k);
    GaveDropped(s, u, k, t, Done(s.tables, k, 512));
    DoneAll(s.tables, k);
  }

  /** No two tables share a page. */
  lemma TablesApart(end: nat, s: Phys, k: Key)
    requires Valid(end, s) && k in s.tables
    ensures forall c :: c in s.tables && c != k ==> s.tables[c] != s.tables[k] && s.tables[c] in s.mem && s.role[s.tables[c]] == Table(c)
  {
    assert Placed(s.mem, s.role, s.tables, k);
    forall c | c in s.tables ensures s.tables[c] in s.role && s.role[s.tables[c]] == Table(c) && s.tables[c] in s.mem {
      assert Placed(s.mem, s.role, s.tables, c);
    }
  }

  lemma BareChild(end: nat, s: Phys, t: Phys, k: Key, i: nat)
    requires Valid(end, s) && Bare(s, k) && Walked(s, t, k, i) && k.level > 0 && i < NPTE
    ensures Bare(t, Child(k, i))
  {
    forall c, j | c in t.tables && Under(c, Child(k, i)) && c.level == 0 && t.tables[c] in t.mem && 0 <= j < NPTE
      ensures !V(t.mem[t.tables[c]][j])
    {
      UnderChild(c, k, i);
      assert c != k && c in s.tables;
    }
  }

  /** An entry of a table in the tree has no permission bit, so the code takes it for a table. */
  lemma PointerFlags(end: nat, s: Phys, k: Key, i: nat)
    requires Valid(end, s) && k in s.tables && k.level > 0 && i < NPTE && s.tables[k] in s.mem && V(s.mem[s.tables[k]][i])
    ensures s.mem[s.tables[k]][i] / 2 % 8 == 0
  {
    hide Books;
    assert Linked(s.mem, s.tables, k, i);
    NoPermission(s.tables[Child(k, i)] / 4096);
  }

  lemma NoPermission(q: nat)
    ensures (q * 1024 + 1) / 2 % 8 == 0
  {
    assert (q * 1024 + 1) / 2 == q * 512 == 8 * (q * 64);
  }

  /** freewalk(): frees table k and every table below it; no leaf may be mapped, so it cannot panic. */
  method FreeWalk(m: Memory, p: nat, ghost k: Key)
    requires Valid(m.end, m.State()) && k in m.tables && m.tables[k] == p && k.level <= 2 && Bare(m.State(), k)
    modifies m
    ensures Freed(m.end, old(m.State()), m.State(), k)
    decreases k.level
  {
    hide Books, TreeBut, Bare, Dropped, SameTables, Done, Below, Under, Freed;
    ghost var s := m.State();
    WalkedNone(m.end, s, k);
    var i := 0;
    while i < NPTE
      invariant i <= NPTE && Valid(m.end, m.State()) && Walked(s, m.State(), k, i) && m.tables[k] == p
    {
      ghost var t := m.State();
      var e := m.mem[p][i];
      LeafClear(m.end, s, t, k, i);
      if V(e) && e / 2 % 8 == 0 {
        Entry(m.end, t, k, i);
        BareChild(m.end, s, t, k, i);
        FreeWalk(m, Pte2Pa(e), Child(k, i));
        WalkedStep(m.end, s, t, m.State(), k, i);
        m.mem := m.mem[p := m.mem[p][i := 0]];
      } else {
        if k.level > 0 && V(e) { PointerFlags(m.end, t, k, i); }
        WalkedSkip(m.end, s, t, k, i);
      }
      i := i + 1;
    }
    ghost var u := m.State();
    TableOwned(m.end, u, k);
    PluckedBooks(m.end, u, k);
    m.role, m.tables := m.role[p := Owned], m.tables - {k};
    RamPages(m.end, m.State());
    var ok := m.Kfree(p);
    WalkedFreed(m.end, s, u, k, m.State());
  }

  /** A leaf table below k holds no valid entry, at any stage. */
  lemma LeafClear(end: nat, s: Phys, t: Phys, k: Key, i: nat)
    requires Bare(s, k) && Walked(s, t, k, i) && i < NPTE
    ensures V(t.mem[t.tables[k]][i]) ==> k.level > 0
  {
    assert Under(k, k);
  }

  // ------------------------------------------------------------ whole address spaces

  /** The family of a root's top table is all its tables. */
  lemma Family(end: nat, s: Phys, root: nat)
    requires Valid(end, s)
    ensures Below(s.tables, Top(root)) == set c | c in s.tables && c.root == root
  {
    forall c | c in s.tables ensures Under(c, Top(root)) <==> c.root == root {
      assert Placed(s.mem, s.role, s.tables, c);
      Ancestors(end, s, c, 2);
      AncestorUp(c, 2);
      assert Placed(s.mem, s.role, s.tables, Ancestor(c, 2));
    }
  }

  lemma UnmappedBare(end: nat, s: Phys, root: nat)
    requires Valid(end, s) && Root(s, root) && forall v: nat :: v < PAGES ==> Map(s, root, v) == Unmapped
    ensures Bare(s, Top(root))
  {
    Family(end, s, root);
    forall c, i | c in s.tables && Under(c, Top(root)) && c.level == 0 && s.tables[c] in s.mem && 0 <= i < NPTE
      ensures !V(s.mem[s.tables[c]][i])
    {
      assert c in Below(s.tables, Top(root));
      assert Placed(s.mem, s.role, s.tables, c);
      var v := c.prefix * 512 + i;
      assert Leaf(root, v) == c && v % 512 == i;
      TreeTranslate(s.mem, s.role, s.tables, root, v);
      assert Map(s, root, v) == Unmapped;
    }
  }

  /** Root's tables and the frames `freed` are free, and the rest of the system did not change. */
  ghost predicate Vacated(s: Phys, t: Phys, root: nat, freed: seq<nat>) {
    && !Root(t, root) && t.role.Keys == s.role.Keys && s.mem.Keys == t.mem.Keys == s.role.Keys
    && (forall r :: Root(s, r) && r != root ==> Root(t, r))
    && (forall r, v: nat :: Root(s, r) && r != root && v < PAGES ==> Map(t, r, v) == Map(s, r, v))
    && (forall p :: p in s.role ==>
          t.role[p] == if (s.role[p].Table? && s.role[p].key.root == root) || p in freed then Free else s.role[p])
    && (forall p :: p in s.role && s.role[p] == Owned && p !in freed ==> t.mem[p] == s.mem[p])
  }

  lemma FreedTree(end: nat, s: Phys, t: Phys, root: nat)
    requires Freed(end, s, t, Top(root))
    ensures Valid(end, t)
  {
    forall k, i | k in t.tables && k.level > 0 && 0 <= i < NPTE ensures Linked(t.mem, t.tables, k, i) {
      assert Placed(t.mem, t.role, t.tables, k);
      assert Child(k, i) != Top(root);
    }
  }

  lemma FreedMaps(end: nat, s: Phys, t: Phys, root: nat, r: nat, v: nat)
    requires Valid(end, s) && Valid(end, t) && Freed(end, s, t, Top(root)) && Root(s, r) && r != root && v < PAGES
    ensures Root(t, r) && Map(t, r, v) == Map(s, r, v)
  {
    Family(end, s, root);
    assert Top(r) !in Below(s.tables, Top(root)) && Leaf(r, v) !in Below(s.tables, Top(root));
    assert t.tables == s.tables - Below(s.tables, Top(root));
    TreeTranslate(s.mem, s.role, s.tables, r, v);
    TreeTranslate(t.mem, t.role, t.tables, r, v);
  }

  lemma FreedVacated(end: nat, s: Phys, t: Phys, root: nat)
    requires Valid(end, s) && Freed(end, s, t, Top(root)) && Root(s, root)
    ensures Valid(end, t) && Vacated(s, t, root, [])
  {
    hide Valid, Map, Books, TreeBut, Below, SameTables;
    FreedTree(end, s, t, root);
    forall r, v: nat | Root(s, r) && r != root && v < PAGES ensures Root(t, r) && Map(t, r, v) == Map(s, r, v) {
      FreedMaps(end, s, t, root, r, v);
    }
    forall r | Root(s, r) && r != root ensures Root(t, r) { FreedMaps(end, s, t, root, r, 0); }
    Family(end, s, root);
    TableKeys(end, s);
  }

  lemma TableKeys(end: nat, s: Phys)
    requires Valid(end, s)
    ensures forall p :: p in s.role && s.role[p].Table? ==> s.role[p].key in s.tables
  {
  }

  lemma VacatedBoth(s: Phys, u: Phys, t: Phys, root: nat, n: nat, freed: seq<nat>)
    requires Removed(s, u, root, 0, n, freed, true) && Vacated(u, t, root, [])
    ensures Vacated(s, t, root, freed)
  {
    hide Map;
  }

  /** `freed` lists the frames of the first n pages. */
  ghost predicate FramesOf(s: Phys, root: nat, freed: seq<nat>, n: nat) {
    |freed| == n && forall i :: 0 <= i < n ==> Map(s, root, i).Mapped? && freed[i] == Map(s, root, i).pa
  }

  /** uvmfree(): the pages, then the tables; what belonged to the address space is free, once each. */
  method UvmFree(m: Memory, root: nat, sz: nat) returns (ok: bool, ghost freed: seq<nat>)
    requires Valid(m.end, m.State()) && Root(m.State(), root) && Private(m.State(), root, 0, PagesOf(sz))
    requires forall v: nat :: PagesOf(sz) <= v < PAGES ==> Map(m.State(), root, v) == Unmapped
    modifies m
    ensures ok <==> forall v: nat :: v < PagesOf(sz) ==> Removable(m.end, old(m.State()), root, v, true)
    ensures Valid(m.end, m.State())
    ensures ok ==> Vacated(old(m.State()), m.State(), root, freed) && FramesOf(old(m.State()), root, freed, PagesOf(sz))
  {
    hide Valid, Map, Private, Freed, Removable, Extended, Returned, Vacated, Bare;
    ghost var s := m.State();
    freed := [];
    ok := true;
    RemovedNone(m.end, s, root, 0, true);
    if sz > 0 {
      ok, freed := UvmUnmap(m, root, 0, PagesOf(sz), true);
      if !ok { return; }
    }
    ghost var u := m.State();
    RemovedAll(s, u, root, PagesOf(sz), freed);
    UnmappedBare(m.end, u, root);
    RootPage(m.end, u, root);
    FreeWalk(m, root, Top(root));
    FreedVacated(m.end, u, m.State(), root);
    VacatedBoth(s, u, m.State(), root, PagesOf(sz), freed);
  }

  lemma RemovedAll(s: Phys, u: Phys, root: nat, n: nat, freed: seq<nat>)
    requires Root(s, root) && Removed(s, u, root, 0, n, freed, true)
    requires forall v: nat :: n <= v < PAGES ==> Map(s, root, v) == Unmapped
    ensures Root(u, root) && forall v: nat :: v < PAGES ==> Map(u, root, v) == Unmapped
  {
    hide Map, Returned;
  }

  lemma RootPage(end: nat, s: Phys, root: nat)
    requires Valid(end, s) && Root(s, root)
    ensures s.tables[Top(root)] == root
  {
    assert Placed(s.mem, s.role, s.tables, Top(root));
  }

  /** uvmcreate(): an empty address space, or 0 when no page is free. */
  method UvmCreate(m: Memory) returns (root: nat)
    requires Valid(m.end, m.State())
    modifies m
    ensures Valid(m.end, m.State())
    ensures root == 0 <==> old(m.free) == []
    ensures root == 0 ==> m.State() == old(m.State())
    ensures root != 0 ==> !Root(old(m.State()), root) && Root(m.State(), root) && Kept(old(m.State()), m.State())
    ensures root != 0 ==> forall v: nat :: v < PAGES ==> Map(m.State(), root, v) == Unmapped
    ensures root != 0 ==> |old(m.free)| == |m.free| + 1
  {
    hide Books, TreeBut, Kept, Map;
    ghost var s := m.State();
    root := m.Kalloc();
    if root == 0 { return; }
    ghost var t := m.State();
    m.mem := m.mem[root := Fill(0)];
    ghost var f := m.State();
    FilledIs(s, t, f, root, Fill(0));
    FilledMaps(m.end, s, t, root, Fill(0));
    CreatedValid(m.end, s, t, root);
    m.role, m.tables := m.role[root := Table(Top(root))], m.tables[Top(root) := root];
  }

  ghost function Rooted(f: Phys, root: nat): (u: Phys) {
    f.(role := f.role[root := Table(Top(root))], tables := f.tables[Top(root) := root])
  }

  lemma CreatedBooks(end: nat, f: Phys, root: nat)
    requires Books(end, f) && root in f.role && f.role[root] == Owned
    ensures Books(end, Rooted(f, root))
  {
    RamPages(end, f);
    BooksFrame(end, f, Rooted(f, root));
  }

  lemma CreatedTree(end: nat, f: Phys, root: nat)
    requires Valid(end, f) && root in f.role && f.role[root] == Owned && root in f.mem && f.mem[root] == Fill(0) && PageAligned(root)
    ensures Valid(end, Rooted(f, root)) && !Root(f, root)
  {
    hide Books;
    var u := Rooted(f, root);
    CreatedBooks(end, f, root);
    NotRoot(end, f, root);
    forall k | k in u.tables ensures Placed(u.mem, u.role, u.tables, k) {
      if k in f.tables { assert Placed(f.mem, f.role, f.tables, k); }
    }
    forall k, i | k in u.tables && k.level > 0 && 0 <= i < NPTE ensures Linked(u.mem, u.tables, k, i) {
      CreatedLinked(end, f, root, k, i);
    }
  }

  /** A page handed out as data is no root. */
  lemma NotRoot(end: nat, f: Phys, root: nat)
    requires Tree(f.mem, f.role, f.tables) && root in f.role && f.role[root] == Owned
    ensures !Root(f, root)
  {
    AllPlaced(f.mem, f.role, f.tables, {});
  }

  lemma CreatedLinked(end: nat, f: Phys, root: nat, k: Key, i: nat)
    requires Tree(f.mem, f.role, f.tables) && !Root(f, root) && root in f.mem && f.mem[root] == Fill(0) && i < NPTE
    requires k.level > 0 && (k in f.tables || k == Top(root))
    ensures Rooted(f, root).tables[k] in f.mem && Linked(f.mem, Rooted(f, root).tables, k, i)
  {
    ChildParent(k, i);
    AllPlaced(f.mem, f.role, f.tables, {});
    if k in f.tables {
      assert Linked(f.mem, f.tables, k, i);
    }
  }

  lemma CreatedMaps(end: nat, f: Phys, root: nat)
    requires Valid(end, f) && Valid(end, Rooted(f, root)) && !Root(f, root) && root in f.mem && f.mem[root] == Fill(0)
    ensures SameMaps(f, Rooted(f, root))
    ensures forall v: nat :: v < PAGES ==> Map(Rooted(f, root), root, v) == Unmapped
  {
    var u := Rooted(f, root);
    forall v: nat | v < PAGES ensures Map(u, root, v) == Unmapped { }
  }

  lemma CreatedValid(end: nat, s: Phys, t: Phys, root: nat)
    requires Valid(end, s) && Took(s, t, root) && PageAligned(root)
    requires Valid(end, Filled(s, t, root, Fill(0))) && SameMaps(s, Filled(s, t, root, Fill(0)))
    ensures var u := Rooted(Filled(s, t, root, Fill(0)), root);
            Valid(end, u) && Root(u, root) && !Root(s, root) && Kept(s, u) && forall v: nat :: v < PAGES ==> Map(u, root, v) == Unmapped
  {
    hide Valid, Map;
    var f := Filled(s, t, root, Fill(0));
    var u := Rooted(f, root);
    ValidRam(end, s);
    CreatedTree(end, f, root);
    CreatedMaps(end, f, root);
    assert SameOwned(s, u) && NoLeak(s, u) by { hide SameMaps, Root; }
    hide SameOwned, NoLeak;
    assert SameMaps(s, u);
  }

  /** walkaddr(): the frame of a user page, or 0. */
  method WalkAddr(m: Memory, root: nat, va: nat) returns (pa: nat)
    requires Valid(m.end, m.State()) && Root(m.State(), root)
    modifies m
    ensures m.State() == old(m.State())
    ensures var e := Map(m.State(), root, va / PGSIZE);
            pa == if va < MAXVA && e.Mapped? && e.flags / 16 % 2 == 1 then e.pa else 0
  {
    hide Valid, Map;
    if va >= MAXVA { return 0; }
    var slot := Walk(m, root, va, false);
    if slot.Missing? { return 0; }
    SlotEntry(m.end, m.State(), root, va / PGSIZE);
    var e := m.mem[slot.page][slot.i];
    if !V(e) || e / 16 % 2 == 0 { return 0; }
    UserBit(e);
    return Pte2Pa(e);
  }

  lemma UserBit(e: nat)
    ensures e / 16 % 2 == Flags(e) / 16 % 2
  {
    assert e == e / 1024 * 1024 + e % 1024;
    assert e / 16 == e / 1024 * 64 + e % 1024 / 16;
  }
}
