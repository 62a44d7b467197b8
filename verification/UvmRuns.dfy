/** Runs of the memory calls from boot. */
module UvmRuns {
  import opened Sv39
  import opened Kalloc
  import opened Vm
  import opened Uvm
  import opened UvmFree
  import Counting

  /** After kinit() there are pages, no page table, and the memory invariant. */
  lemma BootValid(end: nat, s: Phys)
    requires Books(end, s) && s.tables == map[] && forall p :: p in s.role ==> s.role[p] == Free
    ensures Valid(end, s)
  {
    hide Books;
  }

  /** The address a machine of n pages of RAM starts at. */
  function Start(n: nat): (a: nat)
    requires n <= 64
    ensures a > 0 && a % PGSIZE == 0
  {
    PHYSTOP - n * PGSIZE
  }

  /** Page k of the machine. */
  function Nth(n: nat, k: nat): (p: nat)
    requires k < n <= 64
    ensures InRam(Start(n), p)
  {
    Start(n) + k * PGSIZE
  }

  lemma NthOf(n: nat, p: nat)
    requires n <= 64 && InRam(Start(n), p)
    ensures p >= Start(n) && (p - Start(n)) / PGSIZE < n && p == Nth(n, (p - Start(n)) / PGSIZE)
  {
  }

  method Ram(n: nat) returns (ram: Mem)
    requires n <= 64
    ensures forall p :: p in ram <==> InRam(Start(n), p)
  {
    ram := map k | 0 <= k < n :: Nth(n, k) := Fill(0);
    forall p: nat | InRam(Start(n), p) ensures p in ram {
      NthOf(n, p);
      assert 0 <= (p - Start(n)) / PGSIZE < n;
    }
  }

  /** A booted machine of n pages has n free pages. */
  lemma FreeCount(n: nat, s: Phys)
    requires n <= 64 && Books(Start(n), s) && forall p :: p in s.role ==> s.role[p] == Free
    ensures |s.free| >= n
  {
    RamPages(Start(n), s);
    FreeListed(Start(n), s);
    hide Books;
    var w := seq(n, k requires 0 <= k < n => Nth(n, k));
    Counting.DistinctInto(w, s.free);
  }

  lemma FreeListed(end: nat, s: Phys)
    requires Books(end, s)
    ensures forall p :: p in s.role && s.role[p] == Free ==> p in s.free
  {
  }

  // ------------------------------------- copying a page without a permission bit

  /** The parent's first n pages map the one frame p without a permission bit; the child maps nothing. */
  ghost predicate Ready(s: Phys, parent: nat, child: nat, p: nat, n: nat) {
    && n <= 64 && Root(s, parent) && Root(s, child) && parent != child
    && p in s.role && s.role[p] == Owned && PageAligned(p)
    && (forall v: nat :: v < PAGES ==> Map(s, parent, v) == if v < n then Mapped(p, 1) else Unmapped)
    && (forall v: nat :: v < PAGES ==> Map(s, child, v) == Unmapped)
  }

  lemma ReadySame(s: Phys, t: Phys, parent: nat, child: nat, p: nat, n: nat)
    requires Ready(s, parent, child, p, n) && SameMaps(s, t) && p in t.role && t.role[p] == Owned
    ensures Ready(t, parent, child, p, n)
  {
    hide Map;
  }

  lemma ReadyMore(s: Phys, t: Phys, parent: nat, child: nat, p: nat, n: nat)
    requires Ready(s, parent, child, p, n) && n < 64 && MappedSome(s, t, parent, n, p, 0, 1)
    ensures Ready(t, parent, child, p, n + 1)
  {
    hide Map;
    assert FrameOf(p) == p;
  }

  /** kalloc() changes no translation. */
  lemma TookMaps(end: nat, s: Phys, t: Phys, p: nat)
    requires Valid(end, s) && Books(end, t) && Took(s, t, p)
    ensures Valid(end, t) && SameMaps(s, t)
  {
    hide Valid, Books, Map, SameMaps;
    FilledIs(s, t, t, p, Fill(JUNK));
    FilledMaps(end, s, t, p, Fill(JUNK));
  }

  /** Two address spaces and a frame, on a machine of 64 pages. */
  method Setup() returns (m: Memory, parent: nat, child: nat, p: nat)
    ensures fresh(m) && Valid(m.end, m.State()) && Ready(m.State(), parent, child, p, 0) && |m.free| >= 61
  {
    hide Valid, Books, Map, Kept, InRam;
    var ram := Ram(64);
    m := new Memory(Start(64), ram);
    FreeCount(64, m.State());
    BootValid(m.end, m.State());
    ghost var s := m.State();
    parent := UvmCreate(m);
    ghost var t := m.State();
    child := UvmCreate(m);
    ghost var u := m.State();
    ValidBooks(m.end, u);
    p := m.Kalloc();
    TookMaps(m.end, u, m.State(), p);
    SetUp(m.end, t, u, m.State(), parent, child, p);
  }

  lemma ValidBooks(end: nat, s: Phys)
    requires Valid(end, s)
    ensures Books(end, s)
  {
  }

  lemma SetUp(end: nat, s: Phys, t: Phys, u: Phys, parent: nat, child: nat, p: nat)
    requires Root(s, parent) && !Root(s, child) && Kept(s, t) && Root(t, child) && SameMaps(t, u) && Took(t, u, p) && InRam(end, p)
    requires forall v: nat :: v < PAGES ==> Map(s, parent, v) == Unmapped
    requires forall v: nat :: v < PAGES ==> Map(t, child, v) == Unmapped
    ensures Ready(u, parent, child, p, 0)
  {
    hide Map;
  }

  /** Five pages of the parent, all onto the one frame. */
  method MapFive(m: Memory, parent: nat, ghost child: nat, p: nat)
    requires Valid(m.end, m.State()) && Ready(m.State(), parent, child, p, 0) && |m.free| >= 61
    modifies m
    ensures Valid(m.end, m.State()) && Ready(m.State(), parent, child, p, 5) && |m.free| >= 51
  {
    hide Valid, Map, MappedSome;
    var n := 0;
    while n < 5
      invariant n <= 5 && Valid(m.end, m.State()) && Ready(m.State(), parent, child, p, n) && |m.free| >= 61 - 2 * n
    {
      ghost var s := m.State();
      var r;
      ghost var k;
      r, k := MapPages(m, parent, n * PGSIZE, PGSIZE, p, 0);
      ReadyMore(s, m.State(), parent, child, p, n);
      n := n + 1;
    }
  }

  /** Different pages handed out, none of them p. */
  ghost predicate Held(end: nat, s: Phys, pages: seq<nat>, p: nat) {
    && (forall i :: 0 <= i < |pages| ==> pages[i] in s.role && s.role[pages[i]] == Owned && InRam(end, pages[i]) && pages[i] != p)
    && (forall i, j :: 0 <= i < j < |pages| ==> pages[i] != pages[j])
  }

  lemma HeldTook(end: nat, s: Phys, t: Phys, parent: nat, child: nat, pages: seq<nat>, p: nat, q: nat)
    requires Ready(s, parent, child, p, 5) && Held(end, s, pages, p) && SameMaps(s, t) && Took(s, t, q) && InRam(end, q)
    ensures Ready(t, parent, child, p, 5) && Held(end, t, pages + [q], p)
  {
    hide Map;
    ReadySame(s, t, parent, child, p, 5);
  }

  lemma HeldGave(end: nat, s: Phys, t: Phys, parent: nat, child: nat, pages: seq<nat>, p: nat)
    requires pages != [] && Ready(s, parent, child, p, 5) && Held(end, s, pages, p) && SameMaps(s, t) && Gave(s, t, pages[0])
    ensures Ready(t, parent, child, p, 5) && Held(end, t, pages[1..], p)
  {
    hide Map;
    ReadySame(s, t, parent, child, p, 5);
  }

  method TakeAll(m: Memory, ghost parent: nat, ghost child: nat, ghost p: nat) returns (pages: seq<nat>)
    requires Valid(m.end, m.State()) && Ready(m.State(), parent, child, p, 5)
    modifies m
    ensures Valid(m.end, m.State()) && Ready(m.State(), parent, child, p, 5) && m.free == []
    ensures |pages| == |old(m.free)| && Held(m.end, m.State(), pages, p)
  {
    hide Valid, Books, Map, Ready, SameMaps;
    pages := [];
    while true
      invariant Valid(m.end, m.State()) && Ready(m.State(), parent, child, p, 5)
      invariant |pages| + |m.free| == |old(m.free)| && Held(m.end, m.State(), pages, p)
      decreases |m.free|
    {
      ghost var s := m.State();
      ValidBooks(m.end, s);
      var q := m.Kalloc();
      if q == 0 { return; }
      TookMaps(m.end, s, m.State(), q);
      HeldTook(m.end, s, m.State(), parent, child, pages, p, q);
      pages := pages + [q];
    }
  }

  /** All pages are allocated but four. */
  method LeaveFour(m: Memory, ghost parent: nat, ghost child: nat, ghost p: nat)
    requires Valid(m.end, m.State()) && Ready(m.State(), parent, child, p, 5) && |m.free| >= 4
    modifies m
    ensures Valid(m.end, m.State()) && Ready(m.State(), parent, child, p, 5) && |m.free| == 4
  {
    hide Valid, Books, Map, Ready, SameMaps;
    var pages := TakeAll(m, parent, child, p);
    var n := 0;
    while n < 4
      invariant n <= 4 <= |pages| && Valid(m.end, m.State()) && Ready(m.State(), parent, child, p, 5) && |m.free| == n
      invariant Held(m.end, m.State(), pages[n..], p)
    {
      ghost var s := m.State();
      ValidBooks(m.end, s);
      assert pages[n..][0] == pages[n] && pages[n..][1..] == pages[n + 1..];
      var ok := m.Kfree(pages[n]);
      GaveMaps(m.end, s, m.State(), pages[n]);
      HeldGave(m.end, s, m.State(), parent, child, pages[n..], p);
      n := n + 1;
    }
  }

  /** No copy of five pages fits four. */
  lemma TooFew(end: nat, s: Phys, t: Phys, child: nat, maps: seq<Mapping>)
    requires Valid(end, s) && Grown(s, t, child, 0, maps)
    ensures |maps| <= |s.free|
  {
    hide Map, Extended, Books;
    FreeListed(end, s);
    var w := seq(|maps|, i requires 0 <= i < |maps| => Pa(maps[i]));
    Counting.DistinctInto(w, s.free);
  }

  lemma ReadyCopy(s: Phys, parent: nat, child: nat, p: nat)
    requires Ready(s, parent, child, p, 5)
    ensures Backed(s, parent, 5) && forall n: nat :: n < 5 ==> !Uncopyable(s, parent, child, n) && (n > 0 ==> Permless(s, parent, n))
  {
    hide Map;
    assert Map(s, parent, 0) == Mapped(p, 1);
  }

  /**
   A run in which uvmcopy() panics although every page can be copied: a parent with
   pages that have no permission bit, and too little memory for the child.
   */
  method BareCopy() returns (r: Outcome)
    ensures r.Panic?
  {
    hide Valid, Books, Map, Ready, Backed, Permless, Uncopyable, Grown, Copied, Kept;
    var m, parent, child, p := Setup();
    MapFive(m, parent, child, p);
    LeaveFour(m, parent, child, p);
    ghost var s := m.State();
    ReadyCopy(s, parent, child, p);
    ReadyRoots(s, parent, child, p);
    ghost var maps, short;
    assert PagesOf(5 * PGSIZE) == 5;
    r, maps, short := UvmCopy(m, parent, child, 5 * PGSIZE);
    if r.Ok? { TooFew(m.end, s, m.State(), child, maps); }
  }

  lemma ReadyRoots(s: Phys, parent: nat, child: nat, p: nat)
    requires Ready(s, parent, child, p, 5)
    ensures Root(s, parent) && Root(s, child)
  {
  }
}
