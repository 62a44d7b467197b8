/**
 The physical page allocator, and what the kernel's pages are used for. The free
 list runs through word 0 of the free pages themselves.
 */
module Kalloc {
  import opened Sv39

  const PHYSTOP: nat := 0x8800_0000
  const FREED: nat := 0x0101_0101_0101_0101 // memset(pa, 1, PGSIZE), by words
  const JUNK: nat := 0x0505_0505_0505_0505  // memset(r, 5, PGSIZE), by words

  predicate InRam(end: nat, pa: nat) { pa % PGSIZE == 0 && end <= pa < PHYSTOP }

  /** Physical memory, with the allocator's and the page tables' bookkeeping beside it. */
  datatype Phys = Phys(mem: Mem, freelist: nat, free: seq<nat>, role: map<nat, Role>, tables: map<Key, nat>)

  ghost function At(s: seq<nat>, k: nat): (x: nat) { if k < |s| then s[k] else 0 }

  ghost predicate Ram(end: nat, s: Phys) {
    && 0 < end && s.mem.Keys == s.role.Keys
    && forall p :: p in s.mem <==> InRam(end, p)
  }

  /** The free list passes once through every free page, and through no other. */
  ghost predicate FreeList(s: Phys) {
    && s.freelist == At(s.free, 0)
    && (forall i :: 0 <= i < |s.free| ==> s.free[i] in s.mem && s.free[i] != 0 && s.mem[s.free[i]][0] == At(s.free, i + 1))
    && (forall i, j :: 0 <= i < j < |s.free| ==> s.free[i] != s.free[j])
    && (forall p :: p in s.role ==> (s.role[p] == Free <==> p in s.free))
  }

  ghost predicate Books(end: nat, s: Phys) { Ram(end, s) && FreeList(s) }

  /** kalloc() took page pa off the list. */
  ghost predicate Took(s: Phys, t: Phys, pa: nat) {
    && pa != 0 && s.free == [pa] + t.free && pa in s.role && s.role[pa] == Free && pa in s.mem
    && t.role == s.role[pa := Owned] && t.mem == s.mem[pa := Fill(JUNK)] && t.tables == s.tables
  }

  /** kfree() put page pa at its front. */
  ghost predicate Gave(s: Phys, t: Phys, pa: nat) {
    && t.free == [pa] + s.free && pa in s.role && pa in s.mem
    && t.role == s.role[pa := Free] && t.mem == s.mem[pa := Fill(FREED)[0 := s.freelist]] && t.tables == s.tables
  }

  lemma TookBooks(end: nat, s: Phys, t: Phys, pa: nat)
    requires Books(end, s) && Took(s, t, pa) && t.freelist == s.mem[pa][0]
    ensures Books(end, t)
  {
    assert s.free[0] == pa && t.free == s.free[1..];
    forall i | 0 <= i < |t.free| ensures t.free[i] == s.free[i + 1] && t.free[i] in t.mem && t.mem[t.free[i]][0] == At(t.free, i + 1) {
      assert s.mem[s.free[i + 1]][0] == At(s.free, i + 2);
    }
    Rest(s.free, t.free);
  }

  lemma Rest(s: seq<nat>, t: seq<nat>)
    requires |s| > 0 && t == s[1..] && forall i, j :: 0 <= i < j < |s| ==> s[i] != s[j]
    ensures forall p :: p in t <==> p in s && p != s[0]
    ensures forall i, j :: 0 <= i < j < |t| ==> t[i] != t[j]
  {
    assert s == [s[0]] + t;
  }

  /** A page given back twice is on the list twice. */
  lemma GaveTwice(end: nat, s: Phys, t: Phys, pa: nat)
    requires Books(end, s) && Gave(s, t, pa) && s.role[pa] == Free
    ensures !Books(end, t)
  {
    var j :| 0 <= j < |s.free| && s.free[j] == pa;
    assert t.free[0] == t.free[j + 1];
  }

  lemma GaveBooks(end: nat, s: Phys, t: Phys, pa: nat)
    requires Books(end, s) && Gave(s, t, pa) && s.role[pa] != Free && t.freelist == pa
    ensures Books(end, t)
  {
    assert pa !in s.free;
    forall i | 0 <= i < |t.free| ensures t.free[i] in t.mem && t.free[i] != 0 && t.mem[t.free[i]][0] == At(t.free, i + 1) {
      if i > 0 {
        assert t.free[i] == s.free[i - 1] && s.free[i - 1] in s.free;
      }
    }
  }

  predicate PageAligned(x: nat) { x % PGSIZE == 0 }

  /** PGROUNDUP */
  function RoundUp(x: nat): (r: nat)
    ensures PageAligned(r) && x <= r < x + PGSIZE
  {
    (x + PGSIZE - 1) / PGSIZE * PGSIZE
  }

  lemma RamPages(end: nat, s: Phys)
    requires Books(end, s)
    ensures s.mem.Keys == s.role.Keys && forall p :: p in s.role <==> InRam(end, p)
  {
  }

  lemma FirstPage(end: nat, p: nat, pages: set<nat>)
    requires PageAligned(p) && p < end + PGSIZE && forall q :: q in pages ==> InRam(end, q)
    ensures forall q :: q in pages ==> p <= q
  {
    forall q | q in pages ensures p <= q { Aligned(q, p); }
  }

  lemma NextPage(end: nat, p: nat, pages: set<nat>)
    requires PageAligned(p) && end <= p && p + PGSIZE <= PHYSTOP && forall q :: q in pages ==> InRam(end, q)
    ensures InRam(end, p) && PageAligned(p + PGSIZE) && forall q :: q in pages ==> (q < p + PGSIZE <==> q <= p)
  {
    forall q | q in pages ensures q < p + PGSIZE <==> q <= p { Aligned(p, q); }
  }

  lemma LastPage(end: nat, p: nat, pages: set<nat>)
    requires PageAligned(p) && p + PGSIZE > PHYSTOP && forall q :: q in pages ==> InRam(end, q)
    ensures forall q :: q in pages ==> q < p
  {
    Aligned(p, PHYSTOP);
  }

  lemma Aligned(p: nat, q: nat)
    requires p % PGSIZE == 0 && q % PGSIZE == 0
    ensures q < p + PGSIZE <==> q <= p
  {
  }

  class Memory {
    const end: nat
    var mem: Mem
    var freelist: nat
    ghost var free: seq<nat>
    ghost var role: map<nat, Role>
    ghost var tables: map<Key, nat>

    ghost function State(): (s: Phys)
      reads this
    {
      Phys(mem, freelist, free, role, tables)
    }

    /** kinit(): every page from the end of the kernel to PHYSTOP is freed once, in address order. */
    constructor (end: nat, ram: Mem)
      requires 0 < end && forall p :: p in ram <==> InRam(end, p)
      ensures this.end == end && Books(end, State()) && tables == map[] && mem.Keys == ram.Keys
      ensures forall p :: p in role ==> role[p] == Free
    {
      this.end := end;
      mem := ram;
      freelist := 0;
      free := [];
      tables := map[];
      role := map p | p in ram :: Owned;
      new;
      FreeRange();
    }

    /** freerange(end, PHYSTOP) */
    method FreeRange()
      requires Books(end, State()) && forall p :: InRam(end, p) ==> p in role && role[p] == Owned
      modifies this
      ensures Books(end, State()) && tables == old(tables) && mem.Keys == old(mem.Keys)
      ensures forall p :: p in role ==> role[p] == Free
    {
      hide Books, InRam, PageAligned, RoundUp;
      RamPages(end, State());
      ghost var pages := role.Keys;
      var p := RoundUp(end);
      FirstPage(end, p, pages);
      while p + PGSIZE <= PHYSTOP
        invariant PageAligned(p) && end <= p
        invariant Books(end, State()) && tables == old(tables) && mem.Keys == old(mem.Keys) && role.Keys == pages
        invariant forall q :: q in role ==> role[q] == if q < p then Free else Owned
      {
        NextPage(end, p, pages);
        FreeOne(p);
        p := p + PGSIZE;
      }
      LastPage(end, p, pages);
    }

    method FreeOne(pa: nat)
      requires Books(end, State()) && InRam(end, pa) && pa in role && role[pa] == Owned
      modifies this
      ensures Books(end, State()) && tables == old(tables) && mem.Keys == old(mem.Keys) && role == old(role)[pa := Free]
    {
      var ok := Kfree(pa);
    }

    /** kfree(): the list stays exact unless the page is free already, which the code does not test. */
    method Kfree(pa: nat) returns (ok: bool)
      requires Books(end, State())
      modifies this
      ensures ok <==> InRam(end, pa)
      ensures !ok ==> State() == old(State())
      ensures ok ==> Gave(old(State()), State(), pa) && (Books(end, State()) <==> old(role)[pa] != Free)
    {
      if pa % PGSIZE != 0 || pa < end || pa >= PHYSTOP {
        return false; // panic("kfree")
      }
      ghost var s := State();
      mem := mem[pa := Fill(FREED)];
      mem := mem[pa := mem[pa][0 := freelist]];
      freelist := pa;
      free, role := [pa] + free, role[pa := Free];
      assert mem == s.mem[pa := Fill(FREED)[0 := s.freelist]];
      if s.role[pa] == Free { GaveTwice(end, s, State(), pa); } else { GaveBooks(end, s, State(), pa); }
      return true;
    }

    method Kalloc() returns (pa: nat)
      requires Books(end, State())
      modifies this
      ensures Books(end, State())
      ensures pa == 0 <==> old(free) == []
      ensures pa == 0 ==> State() == old(State())
      ensures pa != 0 ==> Took(old(State()), State(), pa) && InRam(end, pa)
    {
      pa := freelist;
      if pa != 0 {
        ghost var s := State();
        assert free[0] == pa;
        freelist := mem[pa][0];
        mem := mem[pa := Fill(JUNK)];
        free, role := free[1..], role[pa := Owned];
        TookBooks(end, s, State(), pa);
      }
    }
  }
}
