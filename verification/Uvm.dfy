/** Removing, growing, copying and freeing user memory, with rollback when pages run out. */
module Uvm {
  import opened Sv39
  import opened Kalloc
  import opened Vm

  // ------------------------------------------------------------------ unmapping

  /** Exactly the pages `freed` went back to the free list; nothing else changed hands or content. */
  ghost predicate Returned(s: Phys, t: Phys, freed: seq<nat>) {
    && t.role.Keys == s.role.Keys && s.mem.Keys == t.mem.Keys == s.role.Keys
    && (forall p :: p in freed ==> p in s.role && s.role[p] == Owned && t.role[p] == Free)
    && (forall p :: p in s.role && p !in freed ==> t.role[p] == s.role[p] && (s.role[p] == Owned ==> t.mem[p] == s.mem[p]))
  }

  /** uvmunmap() can remove this mapping: it exists, has a permission bit and, to be freed, is in RAM. */
  ghost predicate Removable(end: nat, s: Phys, root: nat, vpn: nat, doFree: bool) {
    && vpn < PAGES && Map(s, root, vpn).Mapped? && Map(s, root, vpn).flags != 1
    && (doFree ==> InRam(end, Map(s, root, vpn).pa))
  }

  /** Page pa of a valid state goes back to the allocator. */
  lemma GaveMaps(end: nat, s: Phys, t: Phys, pa: nat)
    requires Valid(end, s) && Books(end, t) && Gave(s, t, pa) && s.role[pa] == Owned
    ensures Valid(end, t) && SameMaps(s, t) && Returned(s, t, [pa])
  {
    RamPages(end, s);
    RamPages(end, t);
    assert forall k :: k in s.tables ==> Placed(s.mem, s.role, s.tables, k);
    assert t.mem.Keys == s.mem.Keys;
    hide Books;
    TreeFrame(s.mem, s.role, t.mem, t.role, s.tables, {});
    forall r, v: nat | Root(s, r) && v < PAGES ensures Map(t, r, v) == Map(s, r, v) {
      TranslateFrame(s.mem, s.role, t.mem, t.role, s.tables, r, v);
    }
  }

  lemma UnmappedOne(end: nat, s: Phys, t: Phys, u: Phys, root: nat, vpn: nat, freed: seq<nat>)
    requires Valid(end, t) && SameMaps(s, t) && Returned(s, t, freed) && Leaf(root, vpn) in t.tables && vpn < PAGES
    requires t.tables[Leaf(root, vpn)] in t.mem && u == Stored(t, root, vpn, 0)
    ensures Valid(end, u) && Extended(s, u, root, vpn, [Unmapped]) && Returned(s, u, freed)
  {
    StoredMaps(end, t, root, vpn, 0);
    StoredValid(end, t, root, vpn, 0);
    hide Map, Valid;
    SameExtended(s, t, u, root, vpn, Unmapped);
    assert u.role == t.role && u.mem.Keys == t.mem.Keys;
    hide Extended, SameMaps, Stored;
  }

  /** One round of uvmunmap(). */
  method UnmapOne(m: Memory, root: nat, a: nat, doFree: bool) returns (ok: bool, ghost freed: seq<nat>)
    requires Valid(m.end, m.State()) && Root(m.State(), root)
    requires doFree && a < MAXVA && Map(m.State(), root, a / PGSIZE).Mapped? && Map(m.State(), root, a / PGSIZE).pa in m.role ==>
               m.role[Map(m.State(), root, a / PGSIZE).pa] == Owned
    modifies m
    ensures ok <==> Removable(m.end, old(m.State()), root, a / PGSIZE, doFree)
    ensures !ok ==> m.State() == old(m.State())
    ensures ok ==> Valid(m.end, m.State()) && Extended(old(m.State()), m.State(), root, a / PGSIZE, [Unmapped])
    ensures ok ==> Returned(old(m.State()), m.State(), freed)
    ensures ok ==> freed == if doFree then [Map(old(m.State()), root, a / PGSIZE).pa] else []
  {
    hide Books, TreeBut, Map, Extended, SameOwned, NoLeak, Returned, Gave;
    freed := [];
    ghost var s, vpn := m.State(), a / PGSIZE;
    var slot := Walk(m, root, a, false);
    if !slot.Pte? { return false, freed; } // panic
    SlotEntry(m.end, s, root, vpn);
    var e := m.mem[slot.page][slot.i];
    if !V(e) || Flags(e) == 1 { return false, freed; } // panic
    SameReturned(m.end, s);
    if doFree {
      ok := m.Kfree(Pte2Pa(e));
      if !ok { return; } // panic
      freed := [Pte2Pa(e)];
      GaveOwned(s, m.State(), Pte2Pa(e));
      GaveMaps(m.end, s, m.State(), Pte2Pa(e));
    }
    ghost var t := m.State();
    SlotEntry(m.end, t, root, vpn);
    m.mem := m.mem[slot.page := m.mem[slot.page][slot.i := 0]];
    UnmappedOne(m.end, s, t, m.State(), root, vpn, freed);
    ok := true;
  }

  lemma GaveOwned(s: Phys, t: Phys, pa: nat)
    requires Gave(s, t, pa)
    ensures t.tables == s.tables
  {
  }

  lemma SameReturned(end: nat, s: Phys)
    requires Valid(end, s)
    ensures Returned(s, s, []) && SameMaps(s, s)
  {
    RamPages(end, s);
  }

  ghost function Nothing(n: nat): (maps: seq<Mapping>)
    ensures |maps| == n && forall i :: 0 <= i < n ==> maps[i] == Unmapped
  {
    seq(n, i => Unmapped)
  }

  /** Pages lo to lo + n of `root` were mapped and no longer are; their frames were freed, if asked. */
  ghost predicate Removed(s: Phys, t: Phys, root: nat, lo: nat, n: nat, freed: seq<nat>, doFree: bool) {
    && Extended(s, t, root, lo, Nothing(n)) && Returned(s, t, freed) && (n > 0 ==> lo + n <= PAGES)
    && (forall v: nat :: lo <= v < lo + n ==> Map(s, root, v).Mapped?)
    && |freed| == (if doFree then n else 0)
    && (doFree ==> forall i :: 0 <= i < n ==> freed[i] == Map(s, root, lo + i).pa)
  }

  /** The mapped frames of a range are handed out, and no two pages of it share one. */
  ghost predicate Private(s: Phys, root: nat, lo: nat, n: nat) {
    && (forall v: nat :: lo <= v < lo + n && Map(s, root, v).Mapped? && Map(s, root, v).pa in s.role ==>
          s.role[Map(s, root, v).pa] == Owned)
    && (forall v: nat, w: nat :: lo <= v < w < lo + n && Map(s, root, v).Mapped? && Map(s, root, w).Mapped? ==>
          Map(s, root, v).pa != Map(s, root, w).pa)
  }

  lemma RemovedNone(end: nat, s: Phys, root: nat, lo: nat, doFree: bool)
    requires Valid(end, s)
    ensures Removed(s, s, root, lo, 0, [], doFree)
  {
    SameReturned(end, s);
  }

  /** Mid-way, the next page is still mapped as at first and its frame still handed out. */
  lemma RemovedNext(end: nat, s: Phys, t: Phys, root: nat, lo: nat, n: nat, freed: seq<nat>, doFree: bool)
    requires Root(s, root) && Removed(s, t, root, lo, n, freed, doFree)
    requires doFree ==> Private(s, root, lo, n + 1)
    ensures Root(t, root) && (lo + n < PAGES ==> Map(t, root, lo + n) == Map(s, root, lo + n))
    ensures doFree && lo + n < PAGES && Map(t, root, lo + n).Mapped? && Map(t, root, lo + n).pa in t.role ==>
              t.role[Map(t, root, lo + n).pa] == Owned
  {
    if doFree && lo + n < PAGES && Map(s, root, lo + n).Mapped? {
      var pa := Map(s, root, lo + n).pa;
      hide Map;
      forall i | 0 <= i < |freed| ensures freed[i] != pa {
        assert freed[i] == Map(s, root, lo + i).pa;
      }
    }
  }

  lemma RemovedMore(s: Phys, t: Phys, u: Phys, root: nat, lo: nat, n: nat, freed: seq<nat>, more: seq<nat>, doFree: bool)
    requires Root(s, root) && Removed(s, t, root, lo, n, freed, doFree) && lo + n < PAGES
    requires Extended(t, u, root, lo + n, [Unmapped]) && Returned(t, u, more)
    requires Map(s, root, lo + n).Mapped? && more == if doFree then [Map(s, root, lo + n).pa] else []
    ensures Removed(s, u, root, lo, n + 1, freed + more, doFree)
  {
    hide Map;
    ExtendedMore(s, t, u, root, lo, Nothing(n), Unmapped);
    assert Nothing(n + 1) == Nothing(n) + [Unmapped];
    ReturnedMore(s, t, u, freed, more);
  }

  lemma ReturnedMore(s: Phys, t: Phys, u: Phys, freed: seq<nat>, more: seq<nat>)
    requires Returned(s, t, freed) && Returned(t, u, more)
    ensures Returned(s, u, freed + more)
  {
  }

  /** uvmunmap(): map removal. It succeeds exactly when every page of the range can be removed. */
  method UvmUnmap(m: Memory, root: nat, va: nat, npages: nat, doFree: bool) returns (ok: bool, ghost freed: seq<nat>)
    requires Valid(m.end, m.State()) && Root(m.State(), root)
    requires doFree ==> Private(m.State(), root, va / PGSIZE, npages)
    modifies m
    ensures ok <==> va % PGSIZE == 0 && forall v: nat :: va / PGSIZE <= v < va / PGSIZE + npages ==>
                      Removable(m.end, old(m.State()), root, v, doFree)
    ensures Valid(m.end, m.State())
    ensures ok ==> Removed(old(m.State()), m.State(), root, va / PGSIZE, npages, freed, doFree)
  {
    hide Valid, Map, Extended, Returned, Removed, Private;
    freed := [];
    if va % PGSIZE != 0 { return false, freed; } // panic
    ghost var s, lo := m.State(), va / PGSIZE;
    var a, n := va, 0;
    RemovedNone(m.end, s, root, lo, doFree);
    while n < npages
      invariant n <= npages && a == va + n * PGSIZE && lo + n == a / PGSIZE
      invariant Valid(m.end, m.State()) && Removed(s, m.State(), root, lo, n, freed, doFree)
      invariant forall v: nat :: lo <= v < lo + n ==> Removable(m.end, s, root, v, doFree)
    {
      ghost var t := m.State();
      if doFree { PrivatePart(s, root, lo, npages, n + 1); }
      RemovedNext(m.end, s, t, root, lo, n, freed, doFree);
      ghost var more;
      ok, more := UnmapOne(m, root, a, doFree);
      if !ok {
        assert !Removable(m.end, s, root, lo + n, doFree);
        return;
      }
      RemovedMore(s, t, m.State(), root, lo, n, freed, more, doFree);
      freed := freed + more;
      a, n := a + PGSIZE, n + 1;
    }
    return true, freed;
  }

  lemma PrivatePart(s: Phys, root: nat, lo: nat, n: nat, k: nat)
    requires Private(s, root, lo, n) && k <= n
    ensures Private(s, root, lo, k)
  {
  }

  // -------------------------------------------------------------------- growing

  ghost function Pa(m: Mapping): (pa: nat) { if m.Mapped? then m.pa else 0 }

  /** Page p is among the frames of `maps`. */
  ghost predicate Among(p: nat, maps: seq<Mapping>) { exists i :: 0 <= i < |maps| && Pa(maps[i]) == p }

  /** From s to t the frames of `maps` came out of the free pages, one each, and nothing else was handed out. */
  ghost predicate Bought(s: Phys, t: Phys, maps: seq<Mapping>) {
    && (forall i :: 0 <= i < |maps| ==> maps[i].Mapped? && Pa(maps[i]) in s.role && s.role[Pa(maps[i])] == Free)
    && (forall i :: 0 <= i < |maps| ==> Pa(maps[i]) in t.role && t.role[Pa(maps[i])] == Owned)
    && (forall i, j :: 0 <= i < j < |maps| ==> Pa(maps[i]) != Pa(maps[j]))
    && (forall p :: p in s.role && s.role[p] == Owned ==>
          p in t.role && t.role[p] == Owned && p in s.mem && p in t.mem && t.mem[p] == s.mem[p])
    && (forall p :: p in t.role && t.role[p] == Owned ==> p in s.role && (s.role[p] == Owned || Among(p, maps)))
    && NoLeak(s, t)
  }

  /** Pages lo onwards of `root`, unmapped before, now map to newly bought frames. */
  ghost predicate Grown(s: Phys, t: Phys, root: nat, lo: nat, maps: seq<Mapping>) {
    && Extended(s, t, root, lo, maps) && Bought(s, t, maps) && (maps != [] ==> lo + |maps| <= PAGES)
    && forall v: nat :: lo <= v < lo + |maps| ==> Map(s, root, v) == Unmapped
  }

  lemma BoughtMore(s: Phys, t: Phys, u: Phys, maps: seq<Mapping>, m: Mapping)
    requires Bought(s, t, maps) && Bought(t, u, [m])
    ensures Bought(s, u, maps + [m])
  {
    var more := maps + [m];
    assert [m][0] == m && t.role[Pa([m][0])] == Free && u.role[Pa([m][0])] == Owned;
    forall i | 0 <= i < |maps| ensures more[i] == maps[i] && Pa(maps[i]) != Pa(m) { assert t.role[Pa(maps[i])] == Owned; }
    forall p | p in u.role && u.role[p] == Owned ensures p in s.role && (s.role[p] == Owned || Among(p, more)) {
      if p in t.role && t.role[p] == Owned {
        if Among(p, maps) {
          var i :| 0 <= i < |maps| && Pa(maps[i]) == p;
          assert more[i] == maps[i];
        }
      } else {
        assert Among(p, [m]);
        assert more[|maps|] == m && Pa(m) == p;
      }
    }
  }

  lemma GrownMore(s: Phys, t: Phys, u: Phys, root: nat, lo: nat, maps: seq<Mapping>, m: Mapping)
    requires Root(s, root) && Grown(s, t, root, lo, maps) && Grown(t, u, root, lo + |maps|, [m])
    ensures Grown(s, u, root, lo, maps + [m])
  {
    hide Map, Bought;
    ExtendedMore(s, t, u, root, lo, maps, m);
    BoughtMore(s, t, u, maps, m);
  }

  lemma GrownNone(end: nat, s: Phys, root: nat, lo: nat)
    requires Valid(end, s)
    ensures Grown(s, s, root, lo, [])
  {
    RamPages(end, s);
  }

  /** What was grown can be taken back. */
  lemma GrownPrivate(s: Phys, t: Phys, root: nat, lo: nat, maps: seq<Mapping>)
    requires Root(s, root) && Grown(s, t, root, lo, maps)
    ensures Private(t, root, lo, |maps|) && Root(t, root)
    ensures forall v: nat :: lo <= v < lo + |maps| ==> v < PAGES && Map(t, root, v) == maps[v - lo]
  {
    hide Map;
    forall v: nat | lo <= v < lo + |maps| ensures v < PAGES && Map(t, root, v) == maps[v - lo] { }
    assert forall v: nat :: lo <= v < lo + |maps| ==> Map(t, root, v).Mapped? && Map(t, root, v).pa == Pa(maps[v - lo]);
  }

  /** Growing and then removing leaves the maps and the pages handed out as they were. */
  lemma RolledBack(s: Phys, t: Phys, u: Phys, root: nat, lo: nat, maps: seq<Mapping>, freed: seq<nat>)
    requires Root(s, root) && Grown(s, t, root, lo, maps) && Removed(t, u, root, lo, |maps|, freed, true)
    ensures Kept(s, u)
  {
    GrownPrivate(s, t, root, lo, maps);
    hide Map;
    forall i | 0 <= i < |maps| ensures freed[i] == Pa(maps[i]) {
      assert freed[i] == Map(t, root, lo + i).pa;
    }
    assert SameMaps(s, u);
    BoughtBack(s, t, u, maps, freed);
  }

  lemma BoughtBack(s: Phys, t: Phys, u: Phys, maps: seq<Mapping>, freed: seq<nat>)
    requires Bought(s, t, maps) && Returned(t, u, freed) && |freed| == |maps| && forall i :: 0 <= i < |maps| ==> freed[i] == Pa(maps[i])
    ensures SameOwned(s, u) && NoLeak(s, u)
  {
    forall p | p in freed ensures p in s.role && s.role[p] == Free {
      var i :| 0 <= i < |freed| && freed[i] == p;
    }
    forall p | p in t.role && t.role[p] == Owned && s.role[p] != Owned ensures p in freed {
      var i :| 0 <= i < |maps| && Pa(maps[i]) == p;
      assert freed[i] == p;
    }
  }

  /** kalloc() and a fill: page pa is handed out with the given content. */
  ghost function Filled(s: Phys, t: Phys, pa: nat, page: Page): (u: Phys) {
    t.(mem := s.mem[pa := page], role := s.role[pa := Owned])
  }

  lemma FilledBooks(end: nat, s: Phys, t: Phys, pa: nat, page: Page)
    requires Books(end, s) && Books(end, t) && Took(s, t, pa)
    ensures Books(end, Filled(s, t, pa, page))
  {
    BooksFrame(end, t, Filled(s, t, pa, page));
  }

  lemma FilledMaps(end: nat, s: Phys, t: Phys, pa: nat, page: Page)
    requires Valid(end, s) && Books(end, t) && Took(s, t, pa)
    ensures Valid(end, Filled(s, t, pa, page)) && SameMaps(s, Filled(s, t, pa, page))
  {
    hide Books;
    var u := Filled(s, t, pa, page);
    FilledBooks(end, s, t, pa, page);
    assert forall k :: k in s.tables ==> Placed(s.mem, s.role, s.tables, k);
    TreeFrame(s.mem, s.role, u.mem, u.role, s.tables, {});
    forall r, v: nat | Root(s, r) && v < PAGES ensures Map(u, r, v) == Map(s, r, v) {
      TranslateFrame(s.mem, s.role, u.mem, u.role, s.tables, r, v);
    }
  }

  /** mappages() of a page just filled, after which it is bought; when that fails, kfree() takes it back. */
  lemma FilledMapped(end: nat, s: Phys, t: Phys, pa: nat, page: Page, u: Phys, root: nat, vpn: nat, perm: nat)
    requires Valid(end, s) && Took(s, t, pa) && PageAligned(pa) && SameMaps(s, Filled(s, t, pa, page)) && Root(s, root)
    requires MappedSome(Filled(s, t, pa, page), u, root, vpn, pa, perm, 1)
    ensures Grown(s, u, root, vpn, [Mapped(pa, WithV(perm))]) && pa in u.mem && u.mem[pa] == page
  {
    var f := Filled(s, t, pa, page);
    hide Map, Valid, SameOwned, NoLeak;
    ValidRam(end, s);
    assert Frames(pa, perm, 1) == [Mapped(pa, WithV(perm))];
    hide Frames;
    SameExtended(s, f, u, root, vpn, Mapped(pa, WithV(perm)));
    FilledBought(s, t, pa, page, u, WithV(perm));
    hide Bought, SameOwned, NoLeak;
    assert Map(f, root, vpn) == Unmapped;
  }

  lemma FilledBought(s: Phys, t: Phys, pa: nat, page: Page, u: Phys, flags: nat)
    requires Took(s, t, pa) && s.mem.Keys == s.role.Keys
    requires SameOwned(Filled(s, t, pa, page), u) && NoLeak(Filled(s, t, pa, page), u)
    ensures Bought(s, u, [Mapped(pa, flags)]) && pa in u.mem && u.mem[pa] == page
  {
    var maps := [Mapped(pa, flags)];
    assert Pa(maps[0]) == pa;
    assert Among(pa, maps);
  }

  lemma ValidRam(end: nat, s: Phys)
    requires Valid(end, s)
    ensures s.mem.Keys == s.role.Keys
  {
    RamPages(end, s);
  }

  lemma FilledReturned(end: nat, s: Phys, t: Phys, pa: nat, page: Page, u: Phys, w: Phys)
    requires Valid(end, s) && Took(s, t, pa) && SameMaps(s, Filled(s, t, pa, page))
    requires Kept(Filled(s, t, pa, page), u) && SameMaps(u, w) && Returned(u, w, [pa])
    ensures Kept(s, w)
  {
    hide Map, Valid;
    ValidRam(end, s);
    assert SameMaps(s, w);
    hide SameMaps;
    FilledBought(s, t, pa, page, u, 0);
    hide SameOwned, NoLeak;
    BoughtBack(s, u, w, [Mapped(pa, 0)], [pa]);
  }

  /** Maps the page just filled at address a; frees it again when a table page is missing. */
  method MapFrame(m: Memory, root: nat, a: nat, pa: nat, perm: nat, ghost s: Phys, ghost t: Phys, ghost page: Page) returns (r: Outcome)
    requires Valid(m.end, s) && Took(s, t, pa) && PageAligned(pa) && Root(s, root) && perm < 1024 && PageAligned(a)
    requires m.State() == Filled(s, t, pa, page) && Valid(m.end, m.State()) && SameMaps(s, m.State())
    modifies m
    ensures Valid(m.end, m.State())
    ensures r.Ok? ==> Grown(s, m.State(), root, a / PGSIZE, [Mapped(pa, WithV(perm))])
    ensures r.Ok? ==> pa in m.mem && m.mem[pa] == page
    ensures r.NoMem? ==> Kept(s, m.State())
    ensures r.Panic? ==> a / PGSIZE >= PAGES || Map(s, root, a / PGSIZE) != Unmapped
    ensures r.Ok? ==> |t.free| <= |m.free| + 2
    ensures r.NoMem? ==> |t.free| <= 2
  {
    hide Valid, Map, SameOwned, NoLeak, Took, Grown, Frames, Extended;
    ghost var f := m.State();
    ghost var n;
    r, n := MapPages(m, root, a, PGSIZE, pa, perm);
    if r.Ok? {
      assert n == 1;
      FilledMapped(m.end, s, t, pa, page, m.State(), root, a / PGSIZE, perm);
    } else {
      assert n == 0;
      ghost var u := m.State();
      MappedNothing(f, u, root, a / PGSIZE, pa, perm);
      if r.NoMem? {
        FilledOwned(m.end, s, t, pa, page, u);
        var ok := m.Kfree(pa);
        GaveMaps(m.end, u, m.State(), pa);
        FilledReturned(m.end, s, t, pa, page, u, m.State());
      }
    }
  }

  lemma MappedNothing(s: Phys, t: Phys, root: nat, lo: nat, pa: nat, perm: nat)
    requires MappedSome(s, t, root, lo, pa, perm, 0)
    ensures Kept(s, t)
  {
    hide Map;
  }

  lemma FilledOwned(end: nat, s: Phys, t: Phys, pa: nat, page: Page, u: Phys)
    requires Valid(end, u) && Took(s, t, pa) && Kept(Filled(s, t, pa, page), u)
    ensures Books(end, u) && pa in u.role && u.role[pa] == Owned && InRam(end, pa)
  {
    RamPages(end, u);
  }

  /** One round of uvmalloc(): a zeroed page at address a. */
  method AllocOne(m: Memory, root: nat, a: nat) returns (r: Outcome, ghost pa: nat)
    requires Valid(m.end, m.State()) && Root(m.State(), root) && PageAligned(a)
    modifies m
    ensures Valid(m.end, m.State())
    ensures r.Ok? ==> Grown(old(m.State()), m.State(), root, a / PGSIZE, [Mapped(pa, USER)])
    ensures r.Ok? ==> pa in m.mem && m.mem[pa] == Fill(0)
    ensures r.NoMem? ==> Kept(old(m.State()), m.State())
    ensures r.Panic? ==> a / PGSIZE >= PAGES || Map(old(m.State()), root, a / PGSIZE) != Unmapped
    ensures r.Ok? ==> |old(m.free)| <= |m.free| + 3
    ensures r.NoMem? ==> |old(m.free)| <= 3
  {
    ghost var s := m.State();
    KeptSame(m.end, s);
    hide Books, TreeBut, Map, Kept, SameMaps, Took, Grown;
    var p := m.Kalloc();
    pa := p;
    if p == 0 { return NoMem, pa; }
    ghost var t := m.State();
    m.mem := m.mem[p := Fill(0)];
    FilledIs(s, t, m.State(), p, Fill(0));
    FilledMaps(m.end, s, t, p, Fill(0));
    r := MapFrame(m, root, a, p, 30, s, t, Fill(0));
  }

  lemma FilledIs(s: Phys, t: Phys, u: Phys, pa: nat, page: Page)
    requires Took(s, t, pa) && u == t.(mem := t.mem[pa := page])
    ensures u == Filled(s, t, pa, page)
  {
  }

  /** Pages below a size, PGROUNDUP(sz) / PGSIZE. */
  function PagesOf(sz: nat): (n: nat)
    ensures n * PGSIZE == RoundUp(sz)
  {
    (sz + PGSIZE - 1) / PGSIZE
  }

  /** uvmdealloc(): unmaps and frees the pages between the two sizes. */
  method UvmDealloc(m: Memory, root: nat, oldsz: nat, newsz: nat) returns (ok: bool, sz: nat, ghost freed: seq<nat>)
    requires Valid(m.end, m.State()) && Root(m.State(), root)
    requires newsz < oldsz ==> Private(m.State(), root, PagesOf(newsz), PagesOf(oldsz) - PagesOf(newsz))
    modifies m
    ensures Valid(m.end, m.State())
    ensures newsz >= oldsz ==> ok && sz == oldsz && m.State() == old(m.State())
    ensures newsz < oldsz ==>
              (ok <==> forall v: nat :: PagesOf(newsz) <= v < PagesOf(oldsz) ==> Removable(m.end, old(m.State()), root, v, true))
    ensures newsz < oldsz && ok ==> sz == newsz
    ensures newsz < oldsz && ok ==>
              Removed(old(m.State()), m.State(), root, PagesOf(newsz), PagesOf(oldsz) - PagesOf(newsz), freed, true)
  {
    hide Valid, Map, Removed, Private, Removable;
    freed := [];
    if newsz >= oldsz { return true, oldsz, freed; }
    if RoundUp(newsz) < RoundUp(oldsz) {
      var npages := (RoundUp(oldsz) - RoundUp(newsz)) / PGSIZE;
      assert npages == PagesOf(oldsz) - PagesOf(newsz);
      ok, freed := UvmUnmap(m, root, RoundUp(newsz), npages, true);
    } else {
      ok := true;
      RemovedNone(m.end, m.State(), root, PagesOf(newsz), true);
    }
    sz := newsz;
  }

  /** The first n pages were grown as zeroed user pages. */
  ghost predicate Zeroed(t: Phys, maps: seq<Mapping>) {
    forall i :: 0 <= i < |maps| ==> maps[i].Mapped? && maps[i].flags == USER && Pa(maps[i]) in t.mem && t.mem[Pa(maps[i])] == Fill(0)
  }

  lemma ZeroedMore(t: Phys, u: Phys, maps: seq<Mapping>, pa: nat, s: Phys)
    requires Zeroed(t, maps) && Bought(s, t, maps) && Bought(t, u, [Mapped(pa, USER)]) && pa in u.mem && u.mem[pa] == Fill(0)
    ensures Zeroed(u, maps + [Mapped(pa, USER)])
  {
    forall i | 0 <= i < |maps| ensures Pa(maps[i]) in u.mem && u.mem[Pa(maps[i])] == Fill(0) {
      assert t.role[Pa(maps[i])] == Owned;
    }
  }

  /** mappages() panics at this page: it is beyond MAXVA or mapped already. */
  ghost predicate Blocked(s: Phys, root: nat, vpn: nat) { vpn >= PAGES || Map(s, root, vpn) != Unmapped }

  /**
   uvmalloc(): grows from oldsz to newsz with zeroed pages. When pages run out every
   translation and every page handed out is as it was before the call.
   */
  method UvmAlloc(m: Memory, root: nat, oldsz: nat, newsz: nat) returns (r: Outcome, sz: nat, ghost maps: seq<Mapping>)
    requires Valid(m.end, m.State()) && Root(m.State(), root)
    modifies m
    ensures Valid(m.end, m.State())
    ensures newsz < oldsz ==> r.Ok? && sz == oldsz && m.State() == old(m.State())
    ensures newsz >= oldsz && r.Ok? ==> sz == newsz && |maps| == PagesOf(newsz) - PagesOf(oldsz)
    ensures newsz >= oldsz && r.Ok? ==> Grown(old(m.State()), m.State(), root, PagesOf(oldsz), maps) && Zeroed(m.State(), maps)
    ensures r.NoMem? ==> sz == 0 && Kept(old(m.State()), m.State())
    ensures r.NoMem? ==> |old(m.free)| <= 3 * (PagesOf(newsz) - PagesOf(oldsz))
    ensures r.Panic? ==> exists v: nat :: PagesOf(oldsz) <= v < PagesOf(newsz) && Blocked(old(m.State()), root, v)
  {
    hide Valid, Map, Grown, Zeroed, Removed, Private, Kept, Bought;
    maps := [];
    if newsz < oldsz { return Ok, oldsz, maps; }
    ghost var s, lo := m.State(), PagesOf(oldsz);
    var start := RoundUp(oldsz);
    var a := start;
    GrownNone(m.end, s, root, lo);
    ZeroedNone(s);
    while a < newsz
      invariant Valid(m.end, m.State()) && Root(m.State(), root) && Grown(s, m.State(), root, lo, maps) && Zeroed(m.State(), maps)
      invariant a == start + |maps| * PGSIZE && start == lo * PGSIZE && lo + |maps| <= PagesOf(newsz)
      invariant |old(m.free)| <= |m.free| + 3 * |maps|
    {
      ghost var t := m.State();
      ghost var pa;
      assert PageAligned(a) && a / PGSIZE == lo + |maps|;
      GrownAfter(s, t, root, lo, maps);
      r, pa := AllocOne(m, root, a);
      if r.Panic? {
        assert lo + |maps| < PagesOf(newsz) && Blocked(s, root, lo + |maps|);
        return Panic, 0, maps;
      }
      if r.NoMem? {
        UndoKept(s, t, m.State(), root, lo, maps);
        ZeroedFlags(t, maps);
        RollBack(m, root, a, start, s, lo, maps);
        return NoMem, 0, maps;
      }
      GrownPair(s, t, m.State(), root, lo, maps, pa);
      maps := maps + [Mapped(pa, USER)];
      a := a + PGSIZE;
    }
    return Ok, newsz, maps;
  }

  lemma ZeroedNone(s: Phys)
    ensures Zeroed(s, [])
  {
  }

  lemma ZeroedFlags(s: Phys, maps: seq<Mapping>)
    requires Zeroed(s, maps)
    ensures forall i :: 0 <= i < |maps| ==> maps[i].Mapped? && maps[i].flags == USER
  {
  }

  /** The next page still has the mapping it had at first. */
  lemma GrownAfter(s: Phys, t: Phys, root: nat, lo: nat, maps: seq<Mapping>)
    requires Root(s, root) && Grown(s, t, root, lo, maps)
    ensures Root(t, root) && (lo + |maps| < PAGES ==> Map(t, root, lo + |maps|) == Map(s, root, lo + |maps|))
  {
    hide Map, Bought;
  }

  lemma GrownPair(s: Phys, t: Phys, u: Phys, root: nat, lo: nat, maps: seq<Mapping>, pa: nat)
    requires Root(s, root) && Grown(s, t, root, lo, maps) && Grown(t, u, root, lo + |maps|, [Mapped(pa, USER)])
    requires Zeroed(t, maps) && pa in u.mem && u.mem[pa] == Fill(0)
    ensures Grown(s, u, root, lo, maps + [Mapped(pa, USER)]) && Zeroed(u, maps + [Mapped(pa, USER)]) && Root(u, root)
  {
    GrownMore(s, t, u, root, lo, maps, Mapped(pa, USER));
    ZeroedMore(t, u, maps, pa, s);
    hide Map, Bought, Zeroed;
  }

  /** A failed round does not disturb what was grown before it. */
  lemma UndoKept(s: Phys, t: Phys, u: Phys, root: nat, lo: nat, maps: seq<Mapping>)
    requires Grown(s, t, root, lo, maps) && Kept(t, u)
    ensures Grown(s, u, root, lo, maps)
  {
    hide Map;
    assert Extended(s, u, root, lo, maps);
  }

  /** The error path: uvmdealloc(pagetable, a, oldsz) takes back the pages grown so far. */
  method RollBack(m: Memory, root: nat, a: nat, start: nat, ghost s: Phys, ghost lo: nat, ghost maps: seq<Mapping>)
    requires Valid(m.end, m.State()) && Root(s, root) && Grown(s, m.State(), root, lo, maps)
    requires start == lo * PGSIZE && a == start + |maps| * PGSIZE
    requires forall i :: 0 <= i < |maps| ==> maps[i].Mapped? && maps[i].flags == USER
    modifies m
    ensures Valid(m.end, m.State()) && Kept(s, m.State())
  {
    hide Valid, Map, Grown, Removed, Private, Removable;
    ghost var t := m.State();
    GrownPrivate(s, t, root, lo, maps);
    GrownRemovable(m.end, s, t, root, lo, maps);
    assert PagesOf(start) == lo && PagesOf(a) == lo + |maps|;
    ghost var freed;
    var ok, sz;
    ok, sz, freed := UvmDealloc(m, root, a, start);
    if |maps| == 0 { RemovedNone(m.end, t, root, lo, true); freed := []; }
    RolledBack(s, t, m.State(), root, lo, maps, freed);
  }

  lemma GrownRemovable(end: nat, s: Phys, t: Phys, root: nat, lo: nat, maps: seq<Mapping>)
    requires Valid(end, t) && Root(s, root) && Grown(s, t, root, lo, maps)
    requires forall i :: 0 <= i < |maps| ==> maps[i].Mapped? && maps[i].flags != 1
    ensures forall v: nat :: lo <= v < lo + |maps| ==> Removable(end, t, root, v, true)
  {
    GrownPrivate(s, t, root, lo, maps);
    RamPages(end, t);
    hide Map, Valid;
    forall v: nat | lo <= v < lo + |maps| ensures Removable(end, t, root, v, true) {
      assert Pa(maps[v - lo]) in t.role;
    }
  }

  // -------------------------------------------------------------------- copying

  /** The frames of the first n pages are handed out. */
  ghost predicate Backed(s: Phys, root: nat, n: nat) {
    forall v: nat :: v < n && Map(s, root, v).Mapped? ==> Map(s, root, v).pa in s.role && s.role[Map(s, root, v).pa] == Owned
  }

  /** Page v cannot be copied: absent in the parent or present in the child. */
  ghost predicate Uncopyable(s: Phys, parent: nat, child: nat, v: nat) {
    v >= PAGES || Map(s, parent, v) == Unmapped || Map(s, child, v) != Unmapped
  }

  /** One of the first n pages has no permission bit: uvmunmap() takes it for a page table. */
  ghost predicate Permless(s: Phys, root: nat, n: nat) {
    exists v: nat :: v < n && v < PAGES && Map(s, root, v) != Unmapped && Map(s, root, v).flags == 1
  }

  /** The child's pages hold the parent's bytes under the parent's flags. */
  ghost predicate Copied(s: Phys, t: Phys, parent: nat, maps: seq<Mapping>) {
    forall v: nat :: v < |maps| ==>
      && Map(s, parent, v).Mapped? && maps[v].Mapped? && maps[v].flags == Map(s, parent, v).flags
      && Map(s, parent, v).pa in s.mem && Pa(maps[v]) in t.mem && t.mem[Pa(maps[v])] == s.mem[Map(s, parent, v).pa]
  }

  /** One round of uvmcopy(). */
  method CopyOne(m: Memory, parent: nat, child: nat, v: nat) returns (r: Outcome, ghost new_: Mapping)
    requires Valid(m.end, m.State()) && Root(m.State(), parent) && Root(m.State(), child)
    requires v < PAGES && Map(m.State(), parent, v).Mapped? ==>
               Map(m.State(), parent, v).pa in m.role && m.role[Map(m.State(), parent, v).pa] == Owned
    modifies m
    ensures Valid(m.end, m.State())
    ensures r.Ok? ==> v < PAGES && Grown(old(m.State()), m.State(), child, v, [new_])
    ensures r.Ok? ==> CopiedOne(old(m.State()), m.State(), parent, v, new_)
    ensures r.NoMem? ==> Kept(old(m.State()), m.State())
    ensures r.Panic? ==> Uncopyable(old(m.State()), parent, child, v)
    ensures r.Ok? ==> |old(m.free)| <= |m.free| + 3
    ensures r.NoMem? ==> |old(m.free)| <= 3
  {
    hide Books, TreeBut, Map, SameMaps, Took, Grown, SameOwned, NoLeak;
    ghost var s := m.State();
    new_ := Unmapped;
    assert v * PGSIZE / PGSIZE == v && (v * PGSIZE >= MAXVA <==> v >= PAGES) && PageAligned(v * PGSIZE);
    var slot := Walk(m, parent, v * PGSIZE, false);
    if !slot.Pte? { return Panic, new_; }
    SlotEntry(m.end, s, parent, v);
    var e := m.mem[slot.page][slot.i];
    if !V(e) { return Panic, new_; }
    var pa, flags := Pte2Pa(e), Flags(e);
    var p := m.Kalloc();
    if p == 0 {
      KeptSame(m.end, s);
      return NoMem, new_;
    }
    ghost var t := m.State();
    ParentPage(m.end, s, t, p, pa);
    m.mem := m.mem[p := m.mem[pa]];
    FilledIs(s, t, m.State(), p, s.mem[pa]);
    FilledMaps(m.end, s, t, p, s.mem[pa]);
    r := MapFrame(m, child, v * PGSIZE, p, flags, s, t, s.mem[pa]);
    OddFlags(e);
    new_ := Mapped(p, flags);
  }

  ghost predicate CopiedOne(s: Phys, t: Phys, parent: nat, v: nat, m: Mapping) {
    && Map(s, parent, v).Mapped? && m.Mapped? && m.flags == Map(s, parent, v).flags
    && Map(s, parent, v).pa in s.mem && Pa(m) in t.mem && t.mem[Pa(m)] == s.mem[Map(s, parent, v).pa]
  }

  lemma OddFlags(e: nat)
    requires V(e)
    ensures WithV(Flags(e)) == Flags(e)
  {
  }

  /** kalloc() takes a free page, so not the parent's. */
  lemma ParentPage(end: nat, s: Phys, t: Phys, p: nat, pa: nat)
    requires Valid(end, s) && Took(s, t, p) && pa in s.role && s.role[pa] == Owned
    ensures pa in s.mem && pa in t.mem && t.mem[pa] == s.mem[pa]
  {
    RamPages(end, s);
  }

  lemma CopiedMore(s: Phys, t: Phys, u: Phys, parent: nat, child: nat, maps: seq<Mapping>, m: Mapping)
    requires Root(s, parent) && Root(s, child) && Backed(s, parent, |maps| + 1)
    requires Grown(s, t, child, 0, maps) && Copied(s, t, parent, maps)
    requires |maps| < PAGES && Grown(t, u, child, |maps|, [m]) && CopiedOne(t, u, parent, |maps|, m)
    ensures Grown(s, u, child, 0, maps + [m]) && Copied(s, u, parent, maps + [m]) && Root(u, parent) && Root(u, child)
  {
    hide Map;
    GrownMore(s, t, u, child, 0, maps, m);
    var more := maps + [m];
    assert Map(t, parent, |maps|) == Map(s, parent, |maps|);
    forall v: nat | v < |more| ensures CopiedOne(s, u, parent, v, more[v]) {
      if v < |maps| {
        assert more[v] == maps[v] && t.role[Pa(maps[v])] == Owned;
      } else {
        assert more[v] == m;
      }
    }
  }

  /** Before a round: both tables still there, the parent's next page as at first and still backed. */
  lemma CopyNext(s: Phys, t: Phys, parent: nat, child: nat, maps: seq<Mapping>)
    requires Root(s, parent) && Root(s, child) && Backed(s, parent, |maps| + 1) && Grown(s, t, child, 0, maps)
    ensures Root(t, parent) && Root(t, child)
    ensures |maps| < PAGES ==> Map(t, parent, |maps|) == Map(s, parent, |maps|) && Map(t, child, |maps|) == Map(s, child, |maps|)
    ensures |maps| < PAGES && Map(t, parent, |maps|).Mapped? ==>
              Map(t, parent, |maps|).pa in t.role && t.role[Map(t, parent, |maps|).pa] == Owned
  {
    hide Map;
  }

  lemma CopiedNone(end: nat, s: Phys, parent: nat, child: nat)
    requires Valid(end, s)
    ensures Grown(s, s, child, 0, []) && Copied(s, s, parent, [])
  {
    GrownNone(end, s, child, 0);
  }

  lemma CopiedFlags(s: Phys, t: Phys, parent: nat, maps: seq<Mapping>)
    requires Copied(s, t, parent, maps)
    ensures forall v: nat :: v < |maps| ==> maps[v].Mapped? && Map(s, parent, v).Mapped? && maps[v].flags == Map(s, parent, v).flags
  {
  }

  lemma BackedPart(s: Phys, root: nat, n: nat, k: nat)
    requires Backed(s, root, n) && k <= n
    ensures Backed(s, root, k)
  {
  }

  /**
   uvmcopy(): the child gets the parent's bytes and flags on pages that were free.
   When pages run out (`short`) after |maps| of them, all is undone and every page
   given to the child is free again, or, exactly when one of those pages has no
   permission bit, the undoing panics.
   */
  method UvmCopy(m: Memory, parent: nat, child: nat, sz: nat) returns (r: Outcome, ghost maps: seq<Mapping>, ghost short: bool)
    requires Valid(m.end, m.State()) && Root(m.State(), parent) && Root(m.State(), child)
    requires Backed(m.State(), parent, PagesOf(sz))
    modifies m
    ensures Valid(m.end, m.State())
    ensures r.Ok? ==> |maps| == PagesOf(sz) && Grown(old(m.State()), m.State(), child, 0, maps)
    ensures r.Ok? ==> Copied(old(m.State()), m.State(), parent, maps)
    ensures r.NoMem? ==> Kept(old(m.State()), m.State())
    ensures r.Ok? ==> !short
    ensures !r.Ok? ==> |maps| < PagesOf(sz)
    ensures short ==> (r.Panic? <==> Permless(old(m.State()), parent, |maps|)) && (r.NoMem? <==> !Permless(old(m.State()), parent, |maps|))
    ensures short ==> |old(m.free)| <= 3 * (|maps| + 1)
    ensures !short && !r.Ok? ==> r.Panic? && Uncopyable(old(m.State()), parent, child, |maps|)
  {
    hide Valid, Map, Grown, Copied, CopiedOne, Removed, Private, Kept, Bought, Backed, Permless;
    ghost var s := m.State();
    maps, short := [], false;
    CopiedNone(m.end, s, parent, child);
    var i, n := 0, 0;
    while i < sz
      invariant i == n * PGSIZE && n == |maps| <= PagesOf(sz) && Valid(m.end, m.State())
      invariant Grown(s, m.State(), child, 0, maps) && Copied(s, m.State(), parent, maps)
      invariant |old(m.free)| <= |m.free| + 3 * |maps|
    {
      ghost var t := m.State();
      ghost var new_;
      BackedPart(s, parent, PagesOf(sz), n + 1);
      CopyNext(s, t, parent, child, maps);
      r, new_ := CopyOne(m, parent, child, n);
      if r.Panic? {
        return;
      }
      if r.NoMem? {
        short := true;
        UndoKept(s, t, m.State(), child, 0, maps);
        CopiedFlags(s, t, parent, maps);
        CopiedPermless(s, t, parent, child, maps);
        var ok := CopyBack(m, child, i / PGSIZE, s, maps);
        if !ok { r := Panic; }
        return;
      }
      CopiedMore(s, t, m.State(), parent, child, maps, new_);
      maps := maps + [new_];
      i, n := i + PGSIZE, n + 1;
    }
    return Ok, maps, false;
  }

  /** The copies without a permission bit are those of pages without one. */
  lemma CopiedPermless(s: Phys, t: Phys, parent: nat, child: nat, maps: seq<Mapping>)
    requires Copied(s, t, parent, maps) && Grown(s, t, child, 0, maps)
    ensures Permless(s, parent, |maps|) <==> exists v :: 0 <= v < |maps| && maps[v].flags == 1
  {
    hide Map;
    if Permless(s, parent, |maps|) {
      var v: nat :| v < |maps| && v < PAGES && Map(s, parent, v) != Unmapped && Map(s, parent, v).flags == 1;
      assert maps[v].flags == 1;
    }
    if v :| 0 <= v < |maps| && maps[v].flags == 1 {
      assert Map(s, parent, v).flags == 1;
    }
  }

  /** The child's frames are none of the parent's. */
  lemma CopyApart(s: Phys, t: Phys, parent: nat, child: nat, maps: seq<Mapping>, n: nat, v: nat, w: nat)
    requires Grown(s, t, child, 0, maps) && Backed(s, parent, n) && v < |maps| && w < n && Map(s, parent, w).Mapped?
    ensures Pa(maps[v]) != Map(s, parent, w).pa
  {
    assert s.role[Pa(maps[v])] == Free;
  }

  /** The error path: uvmunmap(new, 0, i / PGSIZE, 1), which panics exactly at a page without any permission bit. */
  method CopyBack(m: Memory, child: nat, npages: nat, ghost s: Phys, ghost maps: seq<Mapping>) returns (ok: bool)
    requires Valid(m.end, m.State()) && Root(s, child) && Grown(s, m.State(), child, 0, maps) && npages == |maps|
    requires forall i :: 0 <= i < |maps| ==> maps[i].Mapped?
    modifies m
    ensures Valid(m.end, m.State())
    ensures ok ==> Kept(s, m.State())
    ensures ok <==> !exists v :: 0 <= v < |maps| && maps[v].flags == 1
  {
    hide Valid, Map, Grown, Removed, Private, Removable;
    ghost var t := m.State();
    GrownPrivate(s, t, child, 0, maps);
    if v :| 0 <= v < |maps| && maps[v].flags == 1 {
      PermlessStays(m.end, s, t, child, maps, v);
    } else {
      GrownRemovable(m.end, s, t, child, 0, maps);
    }
    ghost var freed;
    ok, freed := UvmUnmap(m, child, 0, npages, true);
    if ok { RolledBack(s, t, m.State(), child, 0, maps, freed); }
  }

  lemma PermlessStays(end: nat, s: Phys, t: Phys, child: nat, maps: seq<Mapping>, v: nat)
    requires Root(s, child) && Grown(s, t, child, 0, maps) && v < |maps| && maps[v].Mapped? && maps[v].flags == 1
    ensures !Removable(end, t, child, v, true)
  {
    hide Map;
  }
}
