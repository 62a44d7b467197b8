/** User page tables: walk, map, unmap, grow, shrink, copy and free, over the page allocator. */
module Vm {
  import opened Sv39
  import opened Kalloc

  const MAXVA: nat := PAGES * PGSIZE
  const USER: nat := 31 // PTE_W|PTE_X|PTE_R|PTE_U and PTE_V

  ghost predicate Valid(end: nat, s: Phys) { Books(end, s) && Tree(s.mem, s.role, s.tables) }

  /** What `root` maps page vpn to, as the hardware finds it. */
  ghost function Map(s: Phys, root: nat, vpn: nat): (m: Mapping) { Translate(s.mem, root, vpn) }

  ghost predicate Root(s: Phys, root: nat) { Top(root) in s.tables }

  // --------------------------------------------- what an operation leaves alone

  /** Pages handed out before are still handed out, unread and unwritten, and no others are. */
  ghost predicate SameOwned(s: Phys, t: Phys) {
    && (forall p :: p in s.role && s.role[p] == Owned ==>
          p in t.role && t.role[p] == Owned && p in s.mem && p in t.mem && t.mem[p] == s.mem[p])
    && (forall p :: p in t.role && t.role[p] == Owned ==> p in s.role && s.role[p] == Owned)
  }

  /** No translation of any page table changed. */
  ghost predicate SameMaps(s: Phys, t: Phys) {
    && (forall r :: Root(s, r) ==> Root(t, r))
    && (forall r, v: nat :: Root(s, r) && v < PAGES ==> Map(t, r, v) == Map(s, r, v))
  }

  /** Only free pages became tables. */
  ghost predicate NoLeak(s: Phys, t: Phys) {
    && t.role.Keys == s.role.Keys
    && forall p :: p in s.role ==> (t.role[p] == Free ==> s.role[p] == Free) && (s.role[p].Table? ==> t.role[p] == s.role[p])
  }

  ghost predicate Kept(s: Phys, t: Phys) { SameOwned(s, t) && SameMaps(s, t) && NoLeak(s, t) }

  lemma KeptTwice(s: Phys, t: Phys, u: Phys)
    requires Kept(s, t) && Kept(t, u)
    ensures Kept(s, u)
  {
    hide Map;
  }

  // ---------------------------------------------------------------- the walk

  datatype Slot = TooHigh | Missing | Pte(page: nat, i: nat)

  /** The table of the given level on the way to page vpn. */
  ghost function Cover(root: nat, level: nat, vpn: nat): (k: Key)
    requires level <= 2
  {
    if level == 2 then Top(root) else if level == 1 then Key(root, 1, vpn / 512 / 512) else Leaf(root, vpn)
  }

  /** PX(level, va), by page number */
  function Px(level: nat, vpn: nat): (i: nat)
    requires 1 <= level <= 2
    ensures i < NPTE
  {
    if level == 2 then vpn / 512 / 512 % 512 else vpn / 512 % 512
  }

  lemma CoverChild(root: nat, level: nat, vpn: nat)
    requires 1 <= level <= 2 && vpn < PAGES
    ensures Child(Cover(root, level, vpn), Px(level, vpn)) == Cover(root, level - 1, vpn)
    ensures InRange(Cover(root, level - 1, vpn))
  {
    IndexParts(vpn);
  }

  /** No table at some level means no translation. */
  lemma CoverMissing(end: nat, s: Phys, root: nat, level: nat, vpn: nat)
    requires Valid(end, s) && Root(s, root) && vpn < PAGES && level < 2 && Cover(root, level, vpn) !in s.tables
    ensures Leaf(root, vpn) !in s.tables && Map(s, root, vpn) == Unmapped
  {
    TreeTranslate(s.mem, s.role, s.tables, root, vpn);
    LeafParent(end, s, root, vpn);
  }

  lemma LeafParent(end: nat, s: Phys, root: nat, vpn: nat)
    requires Valid(end, s)
    ensures Leaf(root, vpn) in s.tables ==> Cover(root, 1, vpn) in s.tables
  {
    if Leaf(root, vpn) in s.tables {
      assert Placed(s.mem, s.role, s.tables, Leaf(root, vpn));
    }
  }

  /** A change away from the free pages. */
  lemma BooksFrame(end: nat, s: Phys, t: Phys)
    requires Books(end, s) && t.mem.Keys == s.mem.Keys && t.role.Keys == s.role.Keys
    requires t.free == s.free && t.freelist == s.freelist
    requires forall p :: p in s.role ==> (s.role[p] == Free <==> t.role[p] == Free)
    requires forall p :: p in s.mem && s.role[p] == Free ==> t.mem[p] == s.mem[p]
    ensures Books(end, t)
  {
    forall i | 0 <= i < |s.free| ensures t.mem[s.free[i]][0] == At(t.free, i + 1) { assert s.free[i] in s.free; }
  }

  /** Page pa, just taken, becomes the table of entry i of table k. */
  ghost function Hung(t: Phys, k: Key, i: nat, pa: nat): (u: Phys)
    requires k in t.tables && t.tables[k] in t.mem && k.level > 0 && i < NPTE
  {
    t.(mem := t.mem[pa := Fill(0)][t.tables[k] := t.mem[t.tables[k]][i := MakePte(pa, 0)]],
       role := t.role[pa := Table(Child(k, i))], tables := t.tables[Child(k, i) := pa])
  }

  ghost predicate Hangable(end: nat, s: Phys, t: Phys, k: Key, i: nat, pa: nat) {
    && Valid(end, s) && Books(end, t) && Took(s, t, pa) && pa % PGSIZE == 0
    && k in s.tables && k.level > 0 && i < NPTE && s.tables[k] in s.mem && !V(s.mem[s.tables[k]][i])
    && InRange(Child(k, i))
  }

  lemma HungMem(end: nat, s: Phys, t: Phys, k: Key, i: nat, pa: nat)
    requires Hangable(end, s, t, k, i, pa)
    ensures s.role[s.tables[k]] == Table(k) && s.tables[k] != pa && Child(k, i) !in s.tables
    ensures k in t.tables && t.tables[k] in t.mem
    ensures Hung(t, k, i, pa).mem == s.mem[pa := Fill(0)][s.tables[k] := s.mem[s.tables[k]][i := MakePte(pa, 0)]]
    ensures Hung(t, k, i, pa).role == s.role[pa := Table(Child(k, i))]
  {
    hide Books;
    assert Placed(s.mem, s.role, s.tables, k) && Linked(s.mem, s.tables, k, i);
  }

  lemma HungValid(end: nat, s: Phys, t: Phys, k: Key, i: nat, pa: nat)
    requires Hangable(end, s, t, k, i, pa)
    ensures k in t.tables && t.tables[k] in t.mem && Valid(end, Hung(t, k, i, pa))
  {
    HungMem(end, s, t, k, i, pa);
    GrowTree(s.mem, s.role, s.tables, k, i, pa);
    BooksFrame(end, t, Hung(t, k, i, pa));
  }

  lemma HungMaps(end: nat, s: Phys, t: Phys, k: Key, i: nat, pa: nat)
    requires Hangable(end, s, t, k, i, pa)
    ensures k in t.tables && t.tables[k] in t.mem && SameMaps(s, Hung(t, k, i, pa))
  {
    HungMem(end, s, t, k, i, pa);
    var u := Hung(t, k, i, pa);
    forall r, v: nat | Root(s, r) && v < PAGES ensures Map(u, r, v) == Map(s, r, v) {
      GrowTranslate(s.mem, s.role, s.tables, k, i, pa, r, v);
    }
  }

  /** Free page pa became a table, and table page q changed. */
  lemma HungOwned(s: Phys, u: Phys, q: nat, pa: nat, c: Key)
    requires s.mem.Keys == s.role.Keys == u.mem.Keys && pa in s.role && s.role[pa] == Free && q in s.role && s.role[q].Table?
    requires u.role == s.role[pa := Table(c)] && forall p :: p in s.mem && p != pa && p != q ==> u.mem[p] == s.mem[p]
    ensures SameOwned(s, u) && NoLeak(s, u)
  {
  }

  /** A new table for an empty entry keeps every translation. */
  lemma HungKept(end: nat, s: Phys, t: Phys, k: Key, i: nat, pa: nat)
    requires Hangable(end, s, t, k, i, pa)
    ensures k in t.tables && t.tables[k] in t.mem && Valid(end, Hung(t, k, i, pa)) && Kept(s, Hung(t, k, i, pa))
  {
    assert Took(s, t, pa) && s.mem.Keys == s.role.Keys;
    hide Hangable, Valid, SameMaps, Hung;
    HungMem(end, s, t, k, i, pa);
    HungValid(end, s, t, k, i, pa);
    HungMaps(end, s, t, k, i, pa);
    HungOwned(s, Hung(t, k, i, pa), s.tables[k], pa, Child(k, i));
    hide SameOwned, NoLeak, Took;
  }

  /** One level down: follow the entry, or allocate the table it should name. */
  method Descend(m: Memory, pt: nat, i: nat, alloc: bool, ghost k: Key) returns (next: nat)
    requires Valid(m.end, m.State()) && k in m.tables && m.tables[k] == pt && k.level > 0 && i < NPTE
    requires InRange(Child(k, i))
    modifies m
    ensures Valid(m.end, m.State()) && Kept(old(m.State()), m.State())
    ensures next == 0 ==> m.State() == old(m.State()) && Child(k, i) !in m.tables && (!alloc || m.free == [])
    ensures next != 0 ==> Child(k, i) in m.tables && m.tables[Child(k, i)] == next
    ensures !alloc ==> m.State() == old(m.State())
    ensures |old(m.free)| <= |m.free| + 1
  {
    hide TreeBut, Books, Kept, FreeList, Hung;
    ghost var s := m.State();
    Entry(m.end, s, k, i);
    KeptSame(m.end, s);
    var e := m.mem[pt][i];
    if V(e) {
      next := Pte2Pa(e);
    } else {
      if !alloc { return 0; }
      next := m.Kalloc();
      if next == 0 { return; }
      ghost var t := m.State();
      HungKept(m.end, s, t, k, i, next);
      HungMem(m.end, s, t, k, i, next);
      m.mem := m.mem[next := Fill(0)];
      m.mem := m.mem[pt := m.mem[pt][i := MakePte(next, 0)]];
      m.role := m.role[next := Table(Child(k, i))];
      m.tables := m.tables[Child(k, i) := next];
      SameHung(t, m.State(), k, i, next);
    }
  }

  lemma SameHung(t: Phys, u: Phys, k: Key, i: nat, pa: nat)
    requires k in t.tables && t.tables[k] in t.mem && t.tables[k] != pa && k.level > 0 && i < NPTE
    requires u.mem == t.mem[pa := Fill(0)][t.tables[k] := t.mem[pa := Fill(0)][t.tables[k]][i := MakePte(pa, 0)]]
    requires u.role == t.role[pa := Table(Child(k, i))] && u.tables == t.tables[Child(k, i) := pa]
    requires u.free == t.free && u.freelist == t.freelist
    ensures u == Hung(t, k, i, pa)
  {
  }

  lemma KeptSame(end: nat, s: Phys)
    requires Valid(end, s)
    ensures Kept(s, s)
  {
  }

  lemma Entry(end: nat, s: Phys, k: Key, i: nat)
    requires Valid(end, s) && k in s.tables && k.level > 0 && i < NPTE
    ensures s.tables[k] in s.mem && (V(s.mem[s.tables[k]][i]) <==> Child(k, i) in s.tables)
    ensures Child(k, i) in s.tables ==> s.tables[Child(k, i)] == Pte2Pa(s.mem[s.tables[k]][i]) && s.tables[Child(k, i)] != 0
  {
    assert Placed(s.mem, s.role, s.tables, k) && Linked(s.mem, s.tables, k, i);
    if Child(k, i) in s.tables {
      assert Placed(s.mem, s.role, s.tables, Child(k, i));
      PteRoundTrip(s.tables[Child(k, i)], 0);
      assert InRam(end, s.tables[Child(k, i)]);
    }
  }

  /** walk(): the slot of va's entry, in the leaf table of its page. */
  method Walk(m: Memory, root: nat, va: nat, alloc: bool) returns (slot: Slot)
    requires Valid(m.end, m.State()) && Root(m.State(), root)
    modifies m
    ensures Valid(m.end, m.State()) && Kept(old(m.State()), m.State())
    ensures slot.TooHigh? <==> va >= MAXVA
    ensures slot.Pte? ==> Leaf(root, va / PGSIZE) in m.tables && slot == Pte(m.tables[Leaf(root, va / PGSIZE)], va / PGSIZE % NPTE)
    ensures slot.Missing? ==> Leaf(root, va / PGSIZE) !in m.tables && Map(m.State(), root, va / PGSIZE) == Unmapped
    ensures slot.Missing? && alloc ==> m.free == []
    ensures !alloc ==> m.State() == old(m.State())
    ensures |old(m.free)| <= |m.free| + 2
  {
    if va >= MAXVA { return TooHigh; } // panic("walk")
    var vpn := va / PGSIZE;
    var pt, level := root, 2;
    assert Placed(m.mem, m.role, m.tables, Top(root));
    while level > 0
      invariant level <= 2 && Valid(m.end, m.State()) && Kept(old(m.State()), m.State())
      invariant Cover(root, level, vpn) in m.tables && m.tables[Cover(root, level, vpn)] == pt
      invariant !alloc ==> m.State() == old(m.State())
      invariant |old(m.free)| <= |m.free| + 2 - level
    {
      ghost var s := m.State();
      CoverChild(root, level, vpn);
      pt := Descend(m, pt, Px(level, vpn), alloc, Cover(root, level, vpn));
      KeptTwice(old(m.State()), s, m.State());
      level := level - 1;
      if pt == 0 {
        CoverMissing(m.end, m.State(), root, level, vpn);
        return Missing;
      }
    }
    return Pte(pt, vpn % NPTE);
  }

  /** walk() gives two addresses the same slot exactly when they share a page. */
  lemma SlotSame(end: nat, s: Phys, root: nat, va: nat, root': nat, va': nat)
    requires Valid(end, s) && Leaf(root, va / PGSIZE) in s.tables && Leaf(root', va' / PGSIZE) in s.tables
    ensures (s.tables[Leaf(root, va / PGSIZE)] == s.tables[Leaf(root', va' / PGSIZE)] && va / PGSIZE % NPTE == va' / PGSIZE % NPTE)
        <==> (root == root' && va / PGSIZE == va' / PGSIZE)
  {
    assert Placed(s.mem, s.role, s.tables, Leaf(root, va / PGSIZE));
    assert Placed(s.mem, s.role, s.tables, Leaf(root', va' / PGSIZE));
  }

  // ------------------------------------------------------------------- mapping

  datatype Outcome = Ok | NoMem | Panic

  /** From s to t, pages lo onwards of `root` came to map to `maps`, and no other translation changed. */
  ghost predicate Extended(s: Phys, t: Phys, root: nat, lo: nat, maps: seq<Mapping>) {
    && (forall r :: Root(s, r) ==> Root(t, r))
    && (forall r, v: nat :: Root(s, r) && v < PAGES ==>
          Map(t, r, v) == if r == root && lo <= v < lo + |maps| then maps[v - lo] else Map(s, r, v))
  }

  lemma ExtendedMore(s: Phys, t: Phys, u: Phys, root: nat, lo: nat, maps: seq<Mapping>, m: Mapping)
    requires Extended(s, t, root, lo, maps) && Extended(t, u, root, lo + |maps|, [m])
    ensures Extended(s, u, root, lo, maps + [m])
  {
    hide Map, Root;
  }

  lemma SameExtended(s: Phys, t: Phys, u: Phys, root: nat, lo: nat, m: Mapping)
    requires SameMaps(s, t) && Extended(t, u, root, lo, [m])
    ensures Extended(s, u, root, lo, [m])
  {
    hide Map, Root;
  }

  lemma OwnedTwice(s: Phys, t: Phys, u: Phys)
    requires SameOwned(s, t) && NoLeak(s, t) && SameOwned(t, u) && NoLeak(t, u)
    ensures SameOwned(s, u) && NoLeak(s, u)
  {
  }

  /** The state after a store to the leaf entry of page vpn. */
  ghost function Stored(s: Phys, root: nat, vpn: nat, e: nat): (t: Phys)
    requires Leaf(root, vpn) in s.tables && s.tables[Leaf(root, vpn)] in s.mem
  {
    var p := s.tables[Leaf(root, vpn)];
    s.(mem := s.mem[p := s.mem[p][vpn % NPTE := e]])
  }

  lemma StoredMaps(end: nat, s: Phys, root: nat, vpn: nat, e: nat)
    requires Valid(end, s) && Leaf(root, vpn) in s.tables && vpn < PAGES
    ensures s.tables[Leaf(root, vpn)] in s.mem && Extended(s, Stored(s, root, vpn, e), root, vpn, [Decode(e)])
  {
    var k := Leaf(root, vpn);
    assert Placed(s.mem, s.role, s.tables, k);
    var t := Stored(s, root, vpn, e);
    forall r, v: nat | Root(s, r) && v < PAGES
      ensures Map(t, r, v) == if r == root && v == vpn then Decode(e) else Map(s, r, v)
    {
      LeafTranslate(s.mem, s.role, s.tables, k, vpn % NPTE, e, r, v);
    }
    hide Map, Valid;
  }

  lemma StoredValid(end: nat, s: Phys, root: nat, vpn: nat, e: nat)
    requires Valid(end, s) && Leaf(root, vpn) in s.tables
    ensures s.tables[Leaf(root, vpn)] in s.mem && Valid(end, Stored(s, root, vpn, e))
    ensures SameOwned(s, Stored(s, root, vpn, e)) && NoLeak(s, Stored(s, root, vpn, e))
  {
    var k := Leaf(root, vpn);
    assert Placed(s.mem, s.role, s.tables, k);
    LeafStore(s.mem, s.role, s.tables, k, vpn % NPTE, e);
    BooksFrame(end, s, Stored(s, root, vpn, e));
    RamPages(end, s);
    hide TreeBut, Books;
  }

  /** In a valid state the walk's slot holds the page's entry. */
  lemma SlotEntry(end: nat, s: Phys, root: nat, vpn: nat)
    requires Valid(end, s) && Root(s, root) && Leaf(root, vpn) in s.tables && vpn < PAGES
    ensures s.tables[Leaf(root, vpn)] in s.mem && Map(s, root, vpn) == Decode(s.mem[s.tables[Leaf(root, vpn)]][vpn % NPTE])
  {
    assert Placed(s.mem, s.role, s.tables, Leaf(root, vpn));
    TreeTranslate(s.mem, s.role, s.tables, root, vpn);
  }

  function FrameOf(pa: nat): (p: nat) { pa / 4096 * 4096 }

  ghost predicate MappedOne(s: Phys, t: Phys, root: nat, a: nat, pa: nat, perm: nat, r: Outcome) {
    && SameOwned(s, t) && NoLeak(s, t)
    && match r
       case Ok =>
         && a < MAXVA && Map(s, root, a / PGSIZE) == Unmapped
         && Extended(s, t, root, a / PGSIZE, [Mapped(FrameOf(pa), WithV(perm))])
       case NoMem => SameMaps(s, t) && t.free == []
       case Panic => SameMaps(s, t) && (a >= MAXVA || Map(s, root, a / PGSIZE) != Unmapped)
  }

  /** One round of mappages(): page a / PGSIZE, unless memory runs out or it is mapped already. */
  method MapOne(m: Memory, root: nat, a: nat, pa: nat, perm: nat) returns (r: Outcome)
    requires Valid(m.end, m.State()) && Root(m.State(), root) && perm < 1024
    modifies m
    ensures Valid(m.end, m.State()) && MappedOne(old(m.State()), m.State(), root, a, pa, perm, r)
    ensures |old(m.free)| <= |m.free| + 2
  {
    hide Books, TreeBut, Map, Extended, SameOwned, NoLeak;
    ghost var s := m.State();
    var slot := Walk(m, root, a, true);
    ghost var t, vpn := m.State(), a / PGSIZE;
    if slot.TooHigh? { return Panic; }
    if slot.Missing? { return NoMem; }
    SlotEntry(m.end, t, root, vpn);
    if V(m.mem[slot.page][slot.i]) { return Panic; }
    PteRoundTrip(pa, perm);
    StoredMaps(m.end, t, root, vpn, MakePte(pa, perm));
    StoredValid(m.end, t, root, vpn, MakePte(pa, perm));
    m.mem := m.mem[slot.page := m.mem[slot.page][slot.i := MakePte(pa, perm)]];
    assert m.State() == Stored(t, root, vpn, MakePte(pa, perm));
    SameExtended(s, t, m.State(), root, vpn, Mapped(FrameOf(pa), WithV(perm)));
    OwnedTwice(s, t, m.State());
    return Ok;
  }

  /** The n mappings mappages() installs from physical address pa on. */
  ghost function Frames(pa: nat, perm: nat, n: nat): (maps: seq<Mapping>)
    ensures |maps| == n
    ensures forall i :: 0 <= i < n ==> maps[i] == Mapped(FrameOf(pa) + i * 4096, WithV(perm))
  {
    seq(n, i requires 0 <= i => Mapped(FrameOf(pa) + i * 4096, WithV(perm)))
  }

  lemma FramesMore(pa: nat, perm: nat, n: nat)
    ensures Frames(pa, perm, n + 1) == Frames(pa, perm, n) + [Mapped(FrameOf(pa + n * 4096), WithV(perm))]
  {
    assert FrameOf(pa + n * 4096) == FrameOf(pa) + n * 4096;
  }

  /** After n rounds: that many pages mapped, each of them unmapped before. */
  ghost predicate MappedSome(s: Phys, t: Phys, root: nat, lo: nat, pa: nat, perm: nat, n: nat) {
    && SameOwned(s, t) && NoLeak(s, t) && Extended(s, t, root, lo, Frames(pa, perm, n)) && (n > 0 ==> lo + n <= PAGES)
    && forall v: nat :: lo <= v < lo + n ==> Map(s, root, v) == Unmapped
  }

  lemma MappedMore(s: Phys, t: Phys, u: Phys, root: nat, lo: nat, pa: nat, perm: nat, n: nat)
    requires Root(s, root) && MappedSome(s, t, root, lo, pa, perm, n)
    requires MappedOne(t, u, root, (lo + n) * PGSIZE, pa + n * PGSIZE, perm, Ok)
    ensures MappedSome(s, u, root, lo, pa, perm, n + 1)
  {
    hide Map, SameOwned, NoLeak;
    FramesMore(pa, perm, n);
    assert (lo + n) * PGSIZE / PGSIZE == lo + n;
    ExtendedMore(s, t, u, root, lo, Frames(pa, perm, n), Mapped(FrameOf(pa + n * 4096), WithV(perm)));
    OwnedTwice(s, t, u);
  }

  lemma MappedNone(end: nat, s: Phys, root: nat, lo: nat, pa: nat, perm: nat)
    requires Valid(end, s)
    ensures MappedSome(s, s, root, lo, pa, perm, 0)
  {
    RamPages(end, s);
  }

  /** The rounds stop short: out of memory, or at a page out of range or already mapped. */
  lemma MappedStop(s: Phys, t: Phys, u: Phys, root: nat, lo: nat, pa: nat, perm: nat, n: nat, r: Outcome)
    requires Root(s, root) && MappedSome(s, t, root, lo, pa, perm, n) && !r.Ok?
    requires MappedOne(t, u, root, (lo + n) * PGSIZE, pa + n * PGSIZE, perm, r)
    ensures MappedSome(s, u, root, lo, pa, perm, n)
    ensures r.NoMem? ==> u.free == []
    ensures r.Panic? ==> lo + n >= PAGES || Map(s, root, lo + n) != Unmapped
  {
    hide Map, SameOwned, NoLeak;
    assert (lo + n) * PGSIZE / PGSIZE == lo + n;
    OwnedTwice(s, t, u);
  }

  /**
   mappages(): map extension. Success maps every page of the range; failure leaves
   the n pages reached so far, and says why it stopped.
   */
  method MapPages(m: Memory, root: nat, va: nat, size: nat, pa: nat, perm: nat) returns (r: Outcome, ghost n: nat)
    requires Valid(m.end, m.State()) && Root(m.State(), root) && perm < 1024
    modifies m
    ensures Valid(m.end, m.State()) && MappedSome(old(m.State()), m.State(), root, va / PGSIZE, pa, perm, n)
    ensures r.Ok? ==> (va / PGSIZE + n - 1) * PGSIZE == (va + size - 1) / PGSIZE * PGSIZE
    ensures !r.Ok? && size > 0 ==> va / PGSIZE + n <= (va + size - 1) / PGSIZE
    ensures r.NoMem? ==> m.free == []
    ensures |old(m.free)| <= |m.free| + 2 * (if r.Ok? then n else n + 1)
    ensures r.Panic? ==> va / PGSIZE + n >= PAGES || Map(old(m.State()), root, va / PGSIZE + n) != Unmapped
  {
    hide Valid, MappedSome, Map, MappedOne;
    ghost var s, lo := m.State(), va / PGSIZE;
    var a, last, p := va / PGSIZE * PGSIZE, (va + size - 1) / PGSIZE * PGSIZE, pa;
    n := 0;
    MappedNone(m.end, s, root, lo, pa, perm);
    while true
      invariant Valid(m.end, m.State()) && Root(m.State(), root) && MappedSome(s, m.State(), root, lo, pa, perm, n)
      invariant a == (lo + n) * PGSIZE && p == pa + n * PGSIZE && n <= PAGES
      invariant size > 0 ==> lo + n <= (va + size - 1) / PGSIZE
      invariant |old(m.free)| <= |m.free| + 2 * n
      decreases PAGES - n
    {
      ghost var t := m.State();
      r := MapOne(m, root, a, p, perm);
      if !r.Ok? {
        MappedStop(s, t, m.State(), root, lo, pa, perm, n, r);
        return;
      }
      MappedMore(s, t, m.State(), root, lo, pa, perm, n);
      MappedRoot(s, m.State(), root, lo, pa, perm, n + 1);
      n := n + 1;
      if a == last { return; }
      a, p := a + PGSIZE, p + PGSIZE;
    }
  }

  lemma MappedRoot(s: Phys, t: Phys, root: nat, lo: nat, pa: nat, perm: nat, n: nat)
    requires Root(s, root) && MappedSome(s, t, root, lo, pa, perm, n)
    ensures Root(t, root) && n <= PAGES
  {
  }
}
