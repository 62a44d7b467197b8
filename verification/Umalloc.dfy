/**
 The user-level allocator of Kernighan and Ritchie: a circular list of free
 blocks in address order, headers in place. Addresses and sizes count units of
 sizeof(Header), 16 bytes. sbrk() is a parameter: it refuses, or grants a region
 at or above everything granted before.
 */
module Umalloc {
  import opened FreeBlocks

  datatype Header = Header(ptr: nat, size: nat)
  type Headers = map<nat, Header>

  datatype Core = Refused | Granted(addr: nat)

  const MIN_CORE: nat := 4096

  ghost function Next(l: seq<Block>, i: nat): (a: nat)
    requires i < |l|
  {
    if i + 1 < |l| then l[i + 1].addr else l[0].addr
  }

  /** Each block's header names its size and the next block, the last one's the first. */
  ghost predicate Linked(mem: Headers, l: seq<Block>) {
    forall i :: 0 <= i < |l| ==> l[i].addr in mem && mem[l[i].addr] == Header(Next(l, i), l[i].size)
  }

  ghost predicate Apart(x: Block, y: Block) { x.End() <= y.addr || y.End() <= x.addr }

  // ------------------------------------------------------------- sums over maps

  /** The sizes of the blocks that start below n. */
  ghost function Sum(m: map<nat, nat>, n: nat): (r: nat) {
    if n == 0 then 0 else Sum(m, n - 1) + if n - 1 in m then m[n - 1] else 0
  }

  lemma {:induction false} SumWith(m: map<nat, nat>, k: nat, v: nat, n: nat)
    requires k !in m
    ensures Sum(m[k := v], n) == Sum(m, n) + if k < n then v else 0
  {
    if n > 0 { SumWith(m, k, v, n - 1); }
  }

  lemma SumWithout(m: map<nat, nat>, k: nat, n: nat)
    requires k in m
    ensures Sum(m, n) == Sum(m - {k}, n) + if k < n then m[k] else 0
  {
    SumWith(m - {k}, k, m[k], n);
    assert (m - {k})[k := m[k]] == m;
  }

  lemma {:induction false} SumGrow(m: map<nat, nat>, n: nat, n': nat)
    requires n <= n' && forall k :: k in m ==> k < n
    ensures Sum(m, n') == Sum(m, n)
    decreases n'
  {
    if n < n' { SumGrow(m, n, n' - 1); }
  }

  // ------------------------------------------------------------ linking a block

  /** What free() writes: first the block's own header, then its predecessor's. */
  function Joined(mem: Headers, p: nat, bp: nat): (h: Header)
    requires p in mem && bp in mem && mem[p].ptr in mem
  {
    if bp + mem[bp].size == mem[p].ptr then Header(mem[mem[p].ptr].ptr, mem[bp].size + mem[mem[p].ptr].size)
    else Header(mem[p].ptr, mem[bp].size)
  }

  function Tied(h: Header, p: nat, size: nat, bp: nat): (q: Header) {
    if p + size == bp then Header(h.ptr, size + h.size) else Header(bp, size)
  }

  lemma PutLinked(base: nat, mem: Headers, l: seq<Block>, j: nat, bp: nat)
    requires Shape(base, l) && Linked(mem, l) && bp in mem && Gap(l, j, Block(bp, mem[bp].size))
    ensures l[j].addr in mem && mem[l[j].addr].ptr in mem
    ensures var p, h := l[j].addr, Joined(mem, l[j].addr, bp);
            Linked(mem[bp := h][p := Tied(h, p, mem[p].size, bp)], Put(l, j, Block(bp, mem[bp].size)))
  {
    hide Put;
    NextAfter(base, mem, l, j, bp);
    var b := Block(bp, mem[bp].size);
    var r, k := Put(l, j, b), From(l, j, b);
    var mem' := Rewritten(mem, l[j].addr, bp);
    forall i | 0 <= i < |r| ensures r[i].addr in mem' && mem'[r[i].addr] == Header(Next(r, i), r[i].size) {
      if i < k && i != j {
        PutBefore(base, mem, l, j, bp, i);
      } else if i > k {
        PutAfter(base, mem, l, j, bp, i);
      } else {
        PutHere(base, mem, l, j, bp, i);
      }
    }
  }

  ghost function Rewritten(mem: Headers, p: nat, bp: nat): (mem': Headers)
    requires p in mem && bp in mem && mem[p].ptr in mem
  {
    mem[bp := Joined(mem, p, bp)][p := Tied(Joined(mem, p, bp), p, mem[p].size, bp)]
  }

  /** The list's blocks lie at different addresses, none of them the new one's. */
  lemma OtherBlock(base: nat, l: seq<Block>, j: nat, b: Block, i: nat)
    requires Shape(base, l) && Gap(l, j, b) && i < |l|
    ensures l[i].addr != b.addr && (i < j ==> l[i].addr < l[j].addr) && (i > j ==> l[i].addr > l[j].addr)
  {
    if i < j { assert l[i].End() < l[j].addr; }
    if i > j {
      assert l[j].End() < l[i].addr;
      assert i > j + 1 ==> l[j + 1].End() < l[i].addr;
    }
  }

  lemma PutBefore(base: nat, mem: Headers, l: seq<Block>, j: nat, bp: nat, i: nat)
    requires Shape(base, l) && Linked(mem, l) && bp in mem && Gap(l, j, Block(bp, mem[bp].size)) && i < j
    requires l[j].addr in mem && mem[l[j].addr].ptr in mem
    ensures var r := Put(l, j, Block(bp, mem[bp].size)); var mem' := Rewritten(mem, l[j].addr, bp);
            i < |r| && r[i].addr in mem' && mem'[r[i].addr] == Header(Next(r, i), r[i].size)
  {
    hide Put, Joined, Tied;
    OtherBlock(base, l, j, Block(bp, mem[bp].size), i);
    assert mem[l[i].addr] == Header(l[i + 1].addr, l[i].size);
  }

  lemma PutAfter(base: nat, mem: Headers, l: seq<Block>, j: nat, bp: nat, i: nat)
    requires Shape(base, l) && Linked(mem, l) && bp in mem && Gap(l, j, Block(bp, mem[bp].size))
    requires l[j].addr in mem && mem[l[j].addr].ptr in mem
    requires var b := Block(bp, mem[bp].size); From(l, j, b) < i < |Put(l, j, b)|
    ensures var r := Put(l, j, Block(bp, mem[bp].size)); var mem' := Rewritten(mem, l[j].addr, bp);
            r[i].addr in mem' && mem'[r[i].addr] == Header(Next(r, i), r[i].size)
  {
    hide Put, Joined, Tied;
    var b := Block(bp, mem[bp].size);
    var x := i - From(l, j, b) - 1 + To(l, j, b);
    OtherBlock(base, l, j, b, x);
    assert mem[l[x].addr] == Header(Next(l, x), l[x].size);
    assert j == 0 ==> !Low(l, j, b);
    assert Put(l, j, b)[0] == l[0];
  }

  lemma PutHere(base: nat, mem: Headers, l: seq<Block>, j: nat, bp: nat, i: nat)
    requires Shape(base, l) && Linked(mem, l) && bp in mem && Gap(l, j, Block(bp, mem[bp].size))
    requires l[j].addr in mem && mem[l[j].addr].ptr in mem
    requires var b := Block(bp, mem[bp].size); i == j < From(l, j, b) || i == From(l, j, b)
    ensures var r := Put(l, j, Block(bp, mem[bp].size)); var mem' := Rewritten(mem, l[j].addr, bp);
            i < |r| && r[i].addr in mem' && mem'[r[i].addr] == Header(Next(r, i), r[i].size)
  {
    NextAfter(base, mem, l, j, bp);
    hide Put, Joined;
    var b := Block(bp, mem[bp].size);
    assert mem[l[j].addr].size == l[j].size;
    assert j == 0 ==> !Low(l, j, b);
    assert Low(l, j, b) ==> Put(l, j, b)[0] == l[0];
  }

  /** The new block's header leads where the list goes on after it. */
  lemma NextAfter(base: nat, mem: Headers, l: seq<Block>, j: nat, bp: nat)
    requires Shape(base, l) && Linked(mem, l) && bp in mem && Gap(l, j, Block(bp, mem[bp].size))
    ensures l[j].addr in mem && mem[l[j].addr].ptr in mem
    ensures var b, h := Block(bp, mem[bp].size), Joined(mem, l[j].addr, bp);
            && h.ptr == (if To(l, j, b) < |l| then l[To(l, j, b)].addr else l[0].addr)
            && h.size == b.size + if Up(l, j, b) then l[j + 1].size else 0
  {
    var b := Block(bp, mem[bp].size);
    assert mem[l[j].addr] == Header(Next(l, j), l[j].size);
    if j + 1 < |l| {
      assert mem[l[j + 1].addr] == Header(Next(l, j + 1), l[j + 1].size);
    } else {
      assert l[0].addr <= l[j].addr < bp;
    }
  }

  // ----------------------------------------------------------------- invariants

  ghost predicate Blocks(base: nat, l: seq<Block>, top: nat) {
    && 0 < base < top && Shape(base, l) && forall i :: 0 <= i < |l| ==> l[i].End() <= top
  }

  ghost predicate LiveOk(base: nat, mem: Headers, live: map<nat, nat>, top: nat) {
    forall a :: a in live ==> a in mem && mem[a].size == live[a] > 0 && base < a && a + live[a] <= top
  }

  /** Live blocks overlap neither free ones nor each other. */
  ghost predicate Disjoint(l: seq<Block>, live: map<nat, nat>) {
    && (forall a, i :: a in live && 0 <= i < |l| ==> Apart(Block(a, live[a]), l[i]))
    && (forall a, b :: a in live && b in live && a != b ==> Apart(Block(a, live[a]), Block(b, live[b])))
  }

  ghost predicate Sound(base: nat, mem: Headers, l: seq<Block>, live: map<nat, nat>, top: nat, obtained: nat) {
    && Blocks(base, l, top) && Linked(mem, l) && LiveOk(base, mem, live, top) && Disjoint(l, live)
    && Total(l) + Sum(live, top) == obtained
  }

  lemma MergedLive(l: seq<Block>, j: nat, b: Block, a: Block)
    requires j < |l| && Gap(l, j, b) && a.size > 0 && Apart(a, b) && Apart(a, l[j]) && (j + 1 < |l| ==> Apart(a, l[j + 1]))
    ensures Apart(a, Merged(l, j, b))
  {
  }

  lemma PutDisjoint(l: seq<Block>, live: map<nat, nat>, j: nat, bp: nat)
    requires Disjoint(l, live) && bp in live && Gap(l, j, Block(bp, live[bp])) && forall a :: a in live ==> live[a] > 0
    ensures Disjoint(Put(l, j, Block(bp, live[bp])), live - {bp})
  {
    hide Put;
    var b := Block(bp, live[bp]);
    var r := Put(l, j, b);
    forall a, i | a in live && a != bp && 0 <= i < |r| ensures Apart(Block(a, live[a]), r[i]) {
      MergedLive(l, j, b, Block(a, live[a]));
    }
  }

  lemma PutBlocks(base: nat, l: seq<Block>, top: nat, j: nat, b: Block)
    requires Blocks(base, l, top) && Gap(l, j, b) && b.End() <= top
    ensures Blocks(base, Put(l, j, b), top)
  {
    PutShape(base, l, j, b);
    hide Put, Shape;
  }

  lemma FreeSound(base: nat, mem: Headers, l: seq<Block>, live: map<nat, nat>, top: nat, obtained: nat, j: nat, bp: nat)
    requires Sound(base, mem, l, live, top, obtained) && bp in live && j < |l| && Gap(l, j, Block(bp, live[bp]))
    ensures l[j].addr in mem && bp in mem && mem[l[j].addr].ptr in mem
    ensures Sound(base, Rewritten(mem, l[j].addr, bp), Put(l, j, Block(bp, live[bp])), live - {bp}, top, obtained)
  {
    hide Put, Total, Sum, Disjoint, Blocks, Linked, LiveOk, Gap;
    var b := Block(bp, live[bp]);
    FreeParts(base, mem, l, live, top, bp);
    LinkedAt(mem, l, j);
    PutLinked(base, mem, l, j, bp);
    PutBlocks(base, l, top, j, b);
    PutDisjoint(l, live, j, bp);
    PutTotal(l, j, b);
    SumWithout(live, bp, top);
    FreeLive(base, mem, l, live, top, j, bp);
  }

  lemma FreeParts(base: nat, mem: Headers, l: seq<Block>, live: map<nat, nat>, top: nat, bp: nat)
    requires Blocks(base, l, top) && LiveOk(base, mem, live, top) && bp in live
    ensures Shape(base, l) && bp in mem && mem[bp].size == live[bp] && bp + live[bp] <= top && bp < top
    ensures forall a :: a in live ==> live[a] > 0
  {
  }

  lemma LinkedAt(mem: Headers, l: seq<Block>, i: nat)
    requires Linked(mem, l) && i < |l|
    ensures l[i].addr in mem && mem[l[i].addr] == Header(Next(l, i), l[i].size) && Next(l, i) in mem
  {
    assert l[if i + 1 < |l| then i + 1 else 0].addr in mem;
  }

  lemma FreeLive(base: nat, mem: Headers, l: seq<Block>, live: map<nat, nat>, top: nat, j: nat, bp: nat)
    requires LiveOk(base, mem, live, top) && Disjoint(l, live) && Shape(base, l) && j < |l| && bp in live
    requires l[j].addr in mem && mem[l[j].addr].ptr in mem
    ensures bp in mem && LiveOk(base, Rewritten(mem, l[j].addr, bp), live - {bp}, top)
  {
    forall a | a in live && a != bp ensures a != l[j].addr {
      assert Apart(Block(a, live[a]), l[j]);
    }
  }

  // ---------------------------------------------------------- finding the place

  /** The insertion point of an address apart from every block. */
  lemma {:induction false} Place(base: nat, l: seq<Block>, b: Block, n: nat) returns (j: nat)
    requires Shape(base, l) && base < b.addr && b.size > 0 && 0 < n <= |l|
    requires (n < |l| ==> b.addr < l[n].addr) && forall i :: 0 <= i < |l| ==> Apart(b, l[i])
    ensures Gap(l, j, b)
    decreases n
  {
    if l[n - 1].addr < b.addr {
      j := n - 1;
    } else {
      assert Apart(b, l[n - 1]);
      assert n - 1 > 0;
      j := Place(base, l, b, n - 1);
    }
  }

  /** Only there does the code's search stop. */
  lemma StopsThere(base: nat, l: seq<Block>, b: Block, j: nat, i: nat)
    requires Shape(base, l) && Gap(l, j, b) && i < |l|
    ensures ((b.addr > l[i].addr && b.addr < Next(l, i)) || (l[i].addr >= Next(l, i) && (b.addr > l[i].addr || b.addr < Next(l, i))))
        <==> i == j
  {
    OtherBlock(base, l, j, b, i);
    if i + 1 < |l| { OtherBlock(base, l, j, b, i + 1); assert l[i].End() < l[i + 1].addr; }
    if i > 0 { assert l[0].End() < l[i].addr; }
    if j > 0 { assert l[0].End() < l[j].addr; }
  }

  /** How far round the circle from block i to block j. */
  ghost function Round(i: nat, j: nat, n: nat): (d: nat)
    requires i < n && j < n
  {
    if i <= j then j - i else n - i + j
  }

  class Heap {
    const base: nat // &base, in the data segment below the heap
    var mem: Headers
    var freep: nat
    ghost var list: seq<Block>
    ghost var live: map<nat, nat>
    ghost var top: nat
    ghost var obtained: nat // units entered in the list so far
    ghost var granted: int  // bytes sbrk() has been asked for, and gave

    constructor (base: nat, top: nat)
      requires 0 < base < top
      ensures Valid() && live == map[] && obtained == 0 && granted == 0 && this.base == base && this.top == top && freep == 0
    {
      this.base, mem, freep := base, map[], 0;
      list, live, this.top, obtained, granted := [Block(base, 0)], map[], top, 0, 0;
    }

    /** Before the first malloc() the list is not linked yet. */
    ghost predicate Valid()
      reads this
    {
      if freep == 0 then
        list == [Block(base, 0)] && live == map[] && obtained == 0 && 0 < base < top
      else
        Sound(base, mem, list, live, top, obtained) && exists i :: 0 <= i < |list| && list[i].addr == freep
    }

    /** free()'s search for the block after which bp belongs. */
    method Locate(bp: nat, ghost size: nat) returns (p: nat, ghost j: nat)
      requires Blocks(base, list, top) && Linked(mem, list) && exists i :: 0 <= i < |list| && list[i].addr == freep
      requires base < bp && size > 0 && forall i :: 0 <= i < |list| ==> Apart(Block(bp, size), list[i])
      ensures Gap(list, j, Block(bp, size)) && p == list[j].addr
    {
      hide Linked, Gap, Blocks, Shape;
      BlocksShape(base, list, top);
      j := Place(base, list, Block(bp, size), |list|);
      GapBound(list, j, Block(bp, size));
      ghost var i :| 0 <= i < |list| && list[i].addr == freep;
      p := freep;
      LinkedAt(mem, list, i);
      StopsThere(base, list, Block(bp, size), j, i);
      while !(bp > p && bp < mem[p].ptr)
        invariant 0 <= i < |list| && p == list[i].addr && p in mem && mem[p] == Header(Next(list, i), list[i].size)
        invariant ((bp > p && bp < mem[p].ptr) || (p >= mem[p].ptr && (bp > p || bp < mem[p].ptr))) <==> i == j
        decreases Round(i, j, |list|)
      {
        if p >= mem[p].ptr && (bp > p || bp < mem[p].ptr) { break; }
        p, i := mem[p].ptr, if i + 1 < |list| then i + 1 else 0;
        LinkedAt(mem, list, i);
        StopsThere(base, list, Block(bp, size), j, i);
      }
    }

    /** free()'s stores, once the place is found. */
    method Link(p: nat, bp: nat)
      requires p in mem && bp in mem && mem[p].ptr in mem && p != bp
      modifies `mem, `freep
      ensures mem == Rewritten(old(mem), p, bp) && freep == p
    {
      if bp + mem[bp].size == mem[p].ptr {
        mem := mem[bp := Header(mem[mem[p].ptr].ptr, mem[bp].size + mem[mem[p].ptr].size)];
      } else {
        mem := mem[bp := Header(mem[p].ptr, mem[bp].size)];
      }
      if p + mem[p].size == bp {
        mem := mem[p := Header(mem[bp].ptr, mem[p].size + mem[bp].size)];
      } else {
        mem := mem[p := Header(bp, mem[p].size)];
      }
      freep := p;
    }

    /** free(): the block joins the free units, merged with any block it touches. */
    method Free(ap: nat)
      requires Valid() && ap > 0 && ap - 1 in live
      modifies this
      ensures Valid() && freep != 0 && live == old(live) - {ap - 1} && top == old(top) && obtained == old(obtained) && granted == old(granted)
      ensures AddedUnits(old(list), list, Block(ap - 1, old(live[ap - 1])))
      ensures Within(list, Block(ap - 1, old(live[ap - 1])))
    {
      hide Sound, Put, Gap, AddedUnits, Rewritten, Blocks, Linked, Within, Shape;
      var bp := ap - 1;
      ghost var b := Block(bp, live[bp]);
      FreeReady(base, mem, list, live, top, obtained, bp);
      var p;
      ghost var j;
      p, j := Locate(bp, live[bp]);
      GapBound(list, j, b);
      FreeSound(base, mem, list, live, top, obtained, j, bp);
      FreedUnits(list, j, b);
      PutKeeps(list, j, b);
      PutWithin(list, j, b);
      Link(p, bp);
      list, live := Put(list, j, b), live - {bp};
    }

    /** morecore(): a new region, entered as a block in use and then freed. */
    method MoreCore(nu: nat, core: Core) returns (r: nat)
      requires Valid() && freep != 0 && (core.Granted? ==> core.addr >= top)
      modifies this
      ensures Valid() && freep != 0 && live == old(live) && r == if core.Granted? then freep else 0
      ensures core.Refused? ==> list == old(list) && freep == old(freep) && top == old(top) && obtained == old(obtained) && granted == old(granted)
      ensures core.Granted? ==> obtained == old(obtained) + Asked(nu) && top == core.addr + Asked(nu)
      ensures core.Granted? ==> granted == old(granted) + SbrkArg(Asked(nu))
      ensures core.Granted? ==> AddedUnits(old(list), list, Block(core.addr, Asked(nu))) && Within(list, Block(core.addr, Asked(nu)))
    {
      hide Sound, AddedUnits, Within;
      if core.Refused? { return 0; }
      var hp, n := core.addr, Asked(nu);
      CoreSound(base, mem, list, live, top, obtained, hp, n);
      mem := mem[hp := Header(0, n)];
      live, top, obtained, granted := live[hp := n], hp + n, obtained + n, granted + SbrkArg(n);
      Free(hp + 1);
      assert live == old(live);
      return freep;
    }

    /** malloc()'s walk once round the circle from freep->ptr to freep: the first block large enough. */
    method Search(nunits: nat) returns (found: bool, prevp: nat, p: nat, ghost i: nat)
      requires Valid() && freep != 0 && nunits > 0
      ensures found ==> 0 < i < |list| && p == list[i].addr && prevp == list[i - 1].addr && FirstFit(list, freep, nunits, i)
      ensures !found ==> NoFit(list, nunits)
    {
      hide Sound, Shape, Linked, NoFit;
      ghost var f :| 0 <= f < |list| && list[f].addr == freep;
      SoundParts(base, mem, list, live, top, obtained);
      ghost var n, c := |list|, 0;
      LinkedAt(mem, list, f);
      prevp := freep;
      p, i := mem[prevp].ptr, Circle(f, 0, n);
      while true
        invariant 0 <= c < n && i == Circle(f, c, n) && p == list[i].addr
        invariant prevp == list[if i == 0 then n - 1 else i - 1].addr
        invariant forall t :: 0 <= t < c ==> list[Circle(f, t, n)].size < nunits
        decreases n - c
      {
        LinkedAt(mem, list, i);
        if mem[p].size >= nunits {
          found := true;
          FitFound(list, freep, nunits, f, c);
          return;
        }
        if p == freep {
          SameBlock(base, list, i, f);
          AllSeen(list, nunits, f);
          found := false;
          return;
        }
        SameBlock(base, list, i, f);
        prevp, p, c := p, mem[p].ptr, c + 1;
        i := Circle(f, c, n);
      }
    }

    /** malloc() takes nunits from the end of block i. */
    method Carve(prevp: nat, p: nat, nunits: nat, ghost i: nat) returns (ap: nat)
      requires Valid() && freep != 0 && 0 < i < |list| && p == list[i].addr && prevp == list[i - 1].addr
      requires 0 < nunits <= list[i].size
      modifies this
      ensures Valid() && freep != 0 && ap > 0 && ap - 1 !in old(live) && live == old(live)[ap - 1 := nunits]
      ensures top == old(top) && obtained == old(obtained) && granted == old(granted)
      ensures freep == prevp && Block(ap - 1, nunits) == Taken(old(list)[i], nunits) && list == Take(old(list), i, nunits)
      ensures RemovedUnits(old(list), list, Block(ap - 1, nunits))
      ensures forall u :: Block(ap - 1, nunits).Has(u) ==> Holds(old(list), u)
    {
      hide Sound, Shape, Take, RemovedUnits, Holds;
      SoundParts(base, mem, list, live, top, obtained);
      TakeSound(base, mem, list, live, top, obtained, i, nunits);
      TakenUnits(base, list, i, nunits);
      TakeKeeps(list, i, nunits);
      NonZero(base, list, i - 1);
      ghost var mem' := Carved(mem, prevp, p, nunits);
      var q := p;
      if mem[p].size == nunits {
        mem := mem[prevp := Header(mem[p].ptr, mem[prevp].size)];
      } else {
        mem := mem[p := Header(mem[p].ptr, mem[p].size - nunits)];
        q := p + mem[p].size;
        mem := mem[q := Header(if q in mem then mem[q].ptr else 0, nunits)];
      }
      assert mem == mem';
      freep := prevp;
      list, live := Take(list, i, nunits), live[q := nunits];
      ap := q + 1;
    }

    /**
     malloc(): nil exactly when no free block is large enough and sbrk() refuses.
     Otherwise a block of the units asked for leaves the free ones, which may have
     grown by a new region; no live block is touched and no unit is lost. The bytes
     obtained from the kernel stay those of the units recorded exactly when a new
     region has less than 2^31 bytes.
     */
    method Malloc(nbytes: nat, core: Core) returns (ap: nat)
      requires Valid() && (core.Granted? ==> core.addr >= top)
      modifies this
      ensures Valid()
      ensures ap == 0 <==> NoFit(old(list), Units(nbytes)) && core.Refused?
      ensures ap == 0 ==> live == old(live) && list == old(list) && obtained == old(obtained) && top == old(top)
      ensures old(granted) == 16 * old(obtained) ==>
                (granted == 16 * obtained <==> (core.Granted? && NoFit(old(list), Units(nbytes)) ==> Asked(Units(nbytes)) < 0x800_0000))
      ensures ap != 0 ==> ap - 1 !in old(live) && live == old(live)[ap - 1 := Units(nbytes)]
      ensures ap != 0 && !NoFit(old(list), Units(nbytes)) ==> FromFirstFit(old(list), old(freep), Units(nbytes), ap, freep, list)
      ensures ap != 0 && !NoFit(old(list), Units(nbytes)) ==>
                obtained == old(obtained) && RemovedUnits(old(list), list, Block(ap - 1, Units(nbytes)))
      ensures ap != 0 && NoFit(old(list), Units(nbytes)) ==>
                && obtained == old(obtained) + Asked(Units(nbytes))
                && MovedUnits(old(list), list, Block(core.addr, Asked(Units(nbytes))), Block(ap - 1, Units(nbytes)))
    {
      hide Sound, Shape, NoFit, RemovedUnits, AddedUnits, Within, MovedUnits;
      var nunits := Units(nbytes);
      if freep == 0 {
        FirstSound(base, mem, top);
        mem := mem[base := Header(base, 0)];
        freep := base;
        assert list[0].addr == freep;
      }
      var found, prevp, p;
      ghost var i;
      ghost var l := list;
      found, prevp, p, i := Search(nunits);
      if !found {
        SbrkExact(Asked(nunits));
        var r := MoreCore(nunits, core);
        if r == 0 { return 0; }
        WithinFits(list, Block(core.addr, Asked(nunits)), nunits);
        found, prevp, p, i := Search(nunits);
        ghost var grown := list;
        ap := Carve(prevp, p, nunits, i);
        Moved(l, grown, list, Block(core.addr, Asked(nunits)), Block(ap - 1, nunits));
      } else {
        Fits(list, i, nunits);
        ap := Carve(prevp, p, nunits, i);
        assert FirstFit(l, old(freep), nunits, i);
      }
    }
  }

  /** malloc()'s unit count: the bytes rounded up, and one for the header. */
  function Units(nbytes: nat): (n: nat)
    ensures n >= 1 && (n - 1) * 16 >= nbytes && (n - 2) * 16 < nbytes
  {
    (nbytes + 15) / 16 + 1
  }

  /** The argument sbrk() receives: a C int. */
  function SbrkArg(nu: nat): (n: int) {
    var w := nu * 16 % 0x1_0000_0000;
    if w < 0x8000_0000 then w else w - 0x1_0000_0000
  }

  /** It asks for the region recorded exactly when that is below 2^31 bytes. */
  lemma SbrkExact(nu: nat)
    ensures SbrkArg(nu) == nu * 16 <==> nu < 0x800_0000
  {
  }

  /** For a request of 2^32 - 32 bytes the region is recorded as 2^28 - 1 units, but sbrk(-16) is called. */
  lemma SbrkTruncates()
    ensures Units(0xFFFF_FFE0) == 0xFFF_FFFF && SbrkArg(Asked(0xFFF_FFFF)) == -16
  {
  }

  /** The free units of m are those of l and the new region, less the block handed out. */
  ghost predicate MovedUnits(l: seq<Block>, m: seq<Block>, core: Block, b: Block) {
    && (forall u :: Holds(m, u) <==> (Holds(l, u) || core.Has(u)) && !b.Has(u))
    && (forall u :: b.Has(u) ==> Holds(l, u) || core.Has(u))
  }

  lemma Moved(l: seq<Block>, g: seq<Block>, m: seq<Block>, core: Block, b: Block)
    requires AddedUnits(l, g, core) && RemovedUnits(g, m, b) && forall u :: b.Has(u) ==> Holds(g, u)
    ensures MovedUnits(l, m, core, b)
  {
    hide Holds;
  }

  lemma WithinFits(l: seq<Block>, b: Block, n: nat)
    requires Within(l, b) && n <= b.size
    ensures !NoFit(l, n)
  {
  }

  lemma Fits(l: seq<Block>, i: nat, n: nat)
    requires i < |l| && n <= l[i].size
    ensures !NoFit(l, n)
  {
  }

  lemma FirstSound(base: nat, mem: Headers, top: nat)
    requires 0 < base < top
    ensures Sound(base, mem[base := Header(base, 0)], [Block(base, 0)], map[], top, 0)
  {
    TotalOne(Block(base, 0));
    NoneLive(top);
  }

  lemma {:induction false} NoneLive(n: nat)
    ensures Sum(map[], n) == 0
  {
    if n > 0 { NoneLive(n - 1); }
  }

  lemma TakeKeeps(l: seq<Block>, i: nat, n: nat)
    requires 0 < i < |l| && n <= l[i].size
    ensures i - 1 < |Take(l, i, n)| && Take(l, i, n)[i - 1] == l[i - 1]
  {
  }

  lemma NonZero(base: nat, l: seq<Block>, i: nat)
    requires Shape(base, l) && i < |l| && base > 0
    ensures l[i].addr > 0
  {
    if i > 0 { assert l[0].End() < l[i].addr; }
  }

  // ------------------------------------------------------------- carving a block

  /** What malloc() writes: the predecessor's link, or the shortened block and the new one's size. */
  ghost function Carved(mem: Headers, prevp: nat, p: nat, n: nat): (mem': Headers)
    requires p in mem && prevp in mem && n <= mem[p].size
  {
    if mem[p].size == n then mem[prevp := Header(mem[p].ptr, mem[prevp].size)]
    else
      var q := p + mem[p].size - n;
      mem[p := Header(mem[p].ptr, mem[p].size - n)][q := Header(if q in mem then mem[q].ptr else 0, n)]
  }

  lemma TakeLinked(base: nat, mem: Headers, l: seq<Block>, i: nat, n: nat)
    requires Shape(base, l) && Linked(mem, l) && 0 < i < |l| && 0 < n <= l[i].size
    ensures l[i].addr in mem && l[i - 1].addr in mem && mem[l[i].addr].size == l[i].size
    ensures Linked(Carved(mem, l[i - 1].addr, l[i].addr, n), Take(l, i, n))
  {
    hide Take, Carved, Shape;
    LinkedAt(mem, l, i);
    LinkedAt(mem, l, i - 1);
    var r, mem' := Take(l, i, n), Carved(mem, l[i - 1].addr, l[i].addr, n);
    forall k | 0 <= k < |r| ensures r[k].addr in mem' && mem'[r[k].addr] == Header(Next(r, k), r[k].size) {
      TakeLinkedAt(base, mem, l, i, n, k);
    }
  }

  lemma TakeLinkedAt(base: nat, mem: Headers, l: seq<Block>, i: nat, n: nat, k: nat)
    requires Shape(base, l) && Linked(mem, l) && 0 < i < |l| && 0 < n <= l[i].size && k < |Take(l, i, n)|
    requires l[i].addr in mem && l[i - 1].addr in mem && mem[l[i].addr] == Header(Next(l, i), l[i].size)
    ensures var r, mem' := Take(l, i, n), Carved(mem, l[i - 1].addr, l[i].addr, n);
            r[k].addr in mem' && mem'[r[k].addr] == Header(Next(r, k), r[k].size)
  {
    hide Take, Shape, Linked;
    var j := if n == l[i].size && k >= i then k + 1 else k;
    LinkedAt(mem, l, j);
    SameBlock(base, l, j, i);
    SameBlock(base, l, j, i - 1);
    NotInside(base, l, i, j);
  }

  /** No block starts inside another. */
  lemma NotInside(base: nat, l: seq<Block>, i: nat, j: nat)
    requires Shape(base, l) && i < |l| && j < |l|
    ensures !(l[i].addr < l[j].addr < l[i].End())
  {
    if i < j { assert l[i].End() < l[j].addr; }
    if j < i { assert l[j].End() < l[i].addr; }
  }

  lemma TakeBlocks(base: nat, l: seq<Block>, top: nat, i: nat, n: nat)
    requires Blocks(base, l, top) && 0 < i < |l| && 0 < n <= l[i].size
    ensures Blocks(base, Take(l, i, n), top)
  {
    hide Take;
    TakeShape(base, l, i, n);
    forall k | 0 <= k < |Take(l, i, n)| ensures Take(l, i, n)[k].End() <= top { TakePart(l, i, n, k); }
  }

  lemma TakeDisjoint(base: nat, l: seq<Block>, live: map<nat, nat>, i: nat, n: nat)
    requires Shape(base, l) && Disjoint(l, live) && 0 < i < |l| && 0 < n <= l[i].size && forall a :: a in live ==> live[a] > 0
    ensures var b := Taken(l[i], n); b.addr !in live && Disjoint(Take(l, i, n), live[b.addr := n])
  {
    hide Take;
    var r, b := Take(l, i, n), Taken(l[i], n);
    forall a | a in live ensures Apart(Block(a, live[a]), b) && a != b.addr { assert Apart(Block(a, live[a]), l[i]); }
    forall k | 0 <= k < |r| ensures Apart(b, r[k]) && forall a :: a in live ==> Apart(Block(a, live[a]), r[k]) {
      TakePart(l, i, n, k);
      var j :| 0 <= j < |l| && r[k].addr == l[j].addr && r[k].End() <= l[j].End() && (j == i ==> r[k].End() <= b.addr);
      if j < i { assert l[j].End() < l[i].addr; }
      if j > i { assert l[i].End() < l[j].addr; }
    }
  }

  lemma TakeLive(base: nat, mem: Headers, l: seq<Block>, live: map<nat, nat>, top: nat, i: nat, n: nat)
    requires Blocks(base, l, top) && Linked(mem, l) && LiveOk(base, mem, live, top) && Disjoint(l, live) && 0 < i < |l| && 0 < n <= l[i].size
    ensures l[i].addr in mem && l[i - 1].addr in mem && mem[l[i].addr].size == l[i].size
    ensures LiveOk(base, Carved(mem, l[i - 1].addr, l[i].addr, n), live[Taken(l[i], n).addr := n], top)
  {
    hide Linked, Disjoint, Shape;
    LinkedAt(mem, l, i);
    LinkedAt(mem, l, i - 1);
    forall a | a in live ensures a != l[i].addr && a != l[i - 1].addr && a != Taken(l[i], n).addr {
      LiveApart(l, live, a, i);
      LiveApart(l, live, a, i - 1);
    }
    Above(base, l, i);
  }

  lemma LiveApart(l: seq<Block>, live: map<nat, nat>, a: nat, i: nat)
    requires Disjoint(l, live) && a in live && i < |l|
    ensures Apart(Block(a, live[a]), l[i])
  {
  }

  lemma Above(base: nat, l: seq<Block>, i: nat)
    requires Shape(base, l) && 0 < i < |l|
    ensures base < l[i].addr
  {
    assert l[0].End() < l[i].addr;
  }

  lemma TakeSound(base: nat, mem: Headers, l: seq<Block>, live: map<nat, nat>, top: nat, obtained: nat, i: nat, n: nat)
    requires Sound(base, mem, l, live, top, obtained) && 0 < i < |l| && 0 < n <= l[i].size
    ensures l[i].addr in mem && l[i - 1].addr in mem && mem[l[i].addr].size == l[i].size && Taken(l[i], n).addr !in live
    ensures Sound(base, Carved(mem, l[i - 1].addr, l[i].addr, n), Take(l, i, n), live[Taken(l[i], n).addr := n], top, obtained)
  {
    hide Take, Total, Sum, Linked, Disjoint, LiveOk, Carved, Shape;
    TakeParts(base, mem, l, live, top, i, n);
    TakeLinked(base, mem, l, i, n);
    TakeBlocks(base, l, top, i, n);
    TakeDisjoint(base, l, live, i, n);
    TakeLive(base, mem, l, live, top, i, n);
    TakeTotal(l, i, n);
    SumWith(live, Taken(l[i], n).addr, n, top);
    hide Blocks;
  }

  lemma TakeParts(base: nat, mem: Headers, l: seq<Block>, live: map<nat, nat>, top: nat, i: nat, n: nat)
    requires Blocks(base, l, top) && LiveOk(base, mem, live, top) && 0 < i < |l| && 0 < n <= l[i].size
    ensures Shape(base, l) && Taken(l[i], n).addr < top && forall a :: a in live ==> live[a] > 0
  {
    assert l[i].End() <= top;
  }

  /** The free units of m are those of l outside b. */
  ghost predicate RemovedUnits(l: seq<Block>, m: seq<Block>, b: Block) {
    forall u :: Holds(m, u) <==> Holds(l, u) && !b.Has(u)
  }

  lemma TakenUnits(base: nat, l: seq<Block>, i: nat, n: nat)
    requires Shape(base, l) && 0 < i < |l| && 0 < n <= l[i].size
    ensures RemovedUnits(l, Take(l, i, n), Taken(l[i], n)) && forall u :: Taken(l[i], n).Has(u) ==> Holds(l, u)
  {
    forall u ensures Holds(Take(l, i, n), u) <==> Holds(l, u) && !Taken(l[i], n).Has(u) { TakeHolds(base, l, i, n, u); }
    forall u | Taken(l[i], n).Has(u) ensures Holds(l, u) { assert l[i].Has(u); }
  }

  /** Asking for less than 4096 units asks for 4096. */
  function Asked(nu: nat): (n: nat) { if nu < MIN_CORE then MIN_CORE else nu }

  ghost predicate NoFit(l: seq<Block>, n: nat) { forall i :: 0 <= i < |l| ==> l[i].size < n }

  /** Block i is the first large enough one on the circle after the block at `start`. */
  ghost predicate FirstFit(l: seq<Block>, start: nat, n: nat, i: nat) {
    i < |l| && l[i].size >= n && exists f, c :: FitAfter(l, start, n, i, f, c)
  }

  ghost predicate FitAfter(l: seq<Block>, start: nat, n: nat, i: nat, f: nat, c: nat) {
    && f < |l| && c < |l| && l[f].addr == start && i == Circle(f, c, |l|)
    && forall t :: 0 <= t < c ==> l[Circle(f, t, |l|)].size < n
  }

  lemma FitFound(l: seq<Block>, start: nat, n: nat, f: nat, c: nat)
    requires f < |l| && c < |l| && l[f].addr == start && l[Circle(f, c, |l|)].size >= n
    requires forall t :: 0 <= t < c ==> l[Circle(f, t, |l|)].size < n
    ensures FirstFit(l, start, n, Circle(f, c, |l|))
  {
    assert FitAfter(l, start, n, Circle(f, c, |l|), f, c);
  }

  /** The units are the last ones of the first fit, and the next search begins at the block before it. */
  ghost predicate FromFirstFit(l: seq<Block>, start: nat, n: nat, ap: nat, freep: nat, l': seq<Block>) {
    ap > 0 && exists i :: 0 < i < |l| && FirstFit(l, start, n, i) && Block(ap - 1, n) == Taken(l[i], n) && l' == Take(l, i, n) && freep == l[i - 1].addr
  }

  /** The block t steps after the successor of block f. */
  ghost function Circle(f: nat, t: nat, n: nat): (i: nat)
    requires f < n && t < n
    ensures i < n
  {
    if f + 1 + t < n then f + 1 + t else f + 1 + t - n
  }

  lemma SameBlock(base: nat, l: seq<Block>, i: nat, j: nat)
    requires Shape(base, l) && i < |l| && j < |l|
    ensures l[i].addr == l[j].addr <==> i == j
  {
    if i < j { assert l[i].End() < l[j].addr; }
    if j < i { assert l[j].End() < l[i].addr; }
  }

  lemma AllSeen(l: seq<Block>, n: nat, f: nat)
    requires f < |l| && l[f].size < n && forall t :: 0 <= t < |l| - 1 ==> l[Circle(f, t, |l|)].size < n
    ensures NoFit(l, n)
  {
    forall i | 0 <= i < |l| ensures l[i].size < n {
      if i != f {
        var t := if i > f then i - f - 1 else i + |l| - f - 1;
        assert Circle(f, t, |l|) == i;
      }
    }
  }

  lemma SoundParts(base: nat, mem: Headers, l: seq<Block>, live: map<nat, nat>, top: nat, obtained: nat)
    requires Sound(base, mem, l, live, top, obtained)
    ensures Linked(mem, l) && Shape(base, l) && l[0].size == 0 && |l| > 0 && base > 0
  {
  }

  lemma CoreSound(base: nat, mem: Headers, l: seq<Block>, live: map<nat, nat>, top: nat, obtained: nat, hp: nat, n: nat)
    requires Sound(base, mem, l, live, top, obtained) && hp >= top && n > 0
    ensures hp !in live && Sound(base, mem[hp := Header(0, n)], l, live[hp := n], hp + n, obtained + n)
  {
    hide Total, Sum, Shape;
    assert Linked(mem[hp := Header(0, n)], l) by { CoreLinked(base, mem, l, top, hp, n); }
    hide Linked;
    SumWith(live, hp, n, hp + n);
    SumGrow(live, top, hp + n);
  }

  lemma CoreLinked(base: nat, mem: Headers, l: seq<Block>, top: nat, hp: nat, n: nat)
    requires Blocks(base, l, top) && Linked(mem, l) && hp >= top
    ensures Linked(mem[hp := Header(0, n)], l)
  {
    forall i | 0 <= i < |l| ensures l[i].addr < hp { assert i > 0 ==> l[i].addr < l[i].End() <= top; }
    hide Shape;
  }

  /** The free units of m are those of l and those of b. */
  ghost predicate AddedUnits(l: seq<Block>, m: seq<Block>, b: Block) {
    forall u :: Holds(m, u) <==> Holds(l, u) || b.Has(u)
  }

  lemma FreedUnits(l: seq<Block>, j: nat, b: Block)
    requires j < |l| && Gap(l, j, b)
    ensures AddedUnits(l, Put(l, j, b), b)
  {
    hide Put, Holds;
    forall u ensures Holds(Put(l, j, b), u) <==> Holds(l, u) || b.Has(u) { PutHolds(l, j, b, u); }
  }

  /** Block b lies in one block of the list. */
  ghost predicate Within(l: seq<Block>, b: Block) {
    exists i :: 0 <= i < |l| && l[i].addr <= b.addr && b.End() <= l[i].End()
  }

  lemma PutWithin(l: seq<Block>, j: nat, b: Block)
    requires j < |l| && Gap(l, j, b)
    ensures Within(Put(l, j, b), b)
  {
    hide Put;
    var m := Put(l, j, b)[From(l, j, b)];
    assert m.addr <= b.addr && b.End() <= m.End();
  }

  lemma BlocksShape(base: nat, l: seq<Block>, top: nat)
    requires Blocks(base, l, top)
    ensures Shape(base, l) && |l| > 0
  {
  }

  lemma GapBound(l: seq<Block>, j: nat, b: Block)
    requires Gap(l, j, b)
    ensures j < |l| && l[j].addr < b.addr
  {
  }

  lemma FreeReady(base: nat, mem: Headers, l: seq<Block>, live: map<nat, nat>, top: nat, obtained: nat, bp: nat)
    requires Sound(base, mem, l, live, top, obtained) && bp in live
    ensures Blocks(base, l, top) && Linked(mem, l) && base < bp && live[bp] > 0
    ensures forall i :: 0 <= i < |l| ==> Apart(Block(bp, live[bp]), l[i])
    ensures forall i :: 0 <= i < |l| ==> l[i].addr != 0
  {
    assert forall i :: 0 < i < |l| ==> l[0].End() < l[i].addr;
  }

  /** The block before the new one is still listed, at its address. */
  lemma PutKeeps(l: seq<Block>, j: nat, b: Block)
    requires j < |l|
    ensures j < |Put(l, j, b)| && Put(l, j, b)[j].addr == l[j].addr
  {
    hide Put;
  }
}
