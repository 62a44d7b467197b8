/** Free lists as sequences of blocks: putting a block in, with coalescing, and taking units out. */
module FreeBlocks {
  datatype Block = Block(addr: nat, size: nat) { // in units of sizeof(Header)
    function End(): (e: nat) { addr + size }

    predicate Has(u: nat) { addr <= u < End() }
  }

  /** In address order, and no two blocks touch. */
  ghost predicate Sorted(l: seq<Block>) {
    forall i, j :: 0 <= i < j < |l| ==> l[i].End() < l[j].addr
  }

  /** The list starts at the static `base`, the only block without units. */
  ghost predicate Shape(base: nat, l: seq<Block>) {
    && |l| > 0 && l[0] == Block(base, 0) && Sorted(l)
    && forall i :: 0 < i < |l| ==> l[i].size > 0
  }

  ghost predicate Holds(l: seq<Block>, u: nat) { exists i :: 0 <= i < |l| && l[i].Has(u) }

  ghost function Total(l: seq<Block>): (n: nat) {
    if |l| == 0 then 0 else l[0].size + Total(l[1..])
  }

  lemma {:induction false} TotalConcat(l: seq<Block>, m: seq<Block>)
    ensures Total(l + m) == Total(l) + Total(m)
  {
    if |l| == 0 {
      assert l + m == m;
    } else {
      TotalConcat(l[1..], m);
      assert (l + m)[1..] == l[1..] + m && (l + m)[0] == l[0];
    }
  }

  // -------------------------------------------------------------- putting in

  /** Block b lies in the gap after block j. */
  ghost predicate Gap(l: seq<Block>, j: nat, b: Block) {
    && j < |l| && b.size > 0 && l[j].addr < b.addr && l[j].End() <= b.addr
    && (j + 1 < |l| ==> b.End() <= l[j + 1].addr)
  }

  ghost predicate Up(l: seq<Block>, j: nat, b: Block) { j + 1 < |l| && b.End() == l[j + 1].addr }

  ghost predicate Low(l: seq<Block>, j: nat, b: Block)
    requires j < |l|
  {
    l[j].End() == b.addr
  }

  /** The block that results, merged with those it touches. */
  ghost function Merged(l: seq<Block>, j: nat, b: Block): (m: Block)
    requires j < |l|
  {
    var size := b.size + if Up(l, j, b) then l[j + 1].size else 0;
    if Low(l, j, b) then Block(l[j].addr, l[j].size + size) else Block(b.addr, size)
  }

  /** The first block of the list that gives way, and the first after it that stays. */
  ghost function From(l: seq<Block>, j: nat, b: Block): (k: nat)
    requires j < |l|
  {
    if Low(l, j, b) then j else j + 1
  }

  ghost function To(l: seq<Block>, j: nat, b: Block): (d: nat)
    requires j < |l|
    ensures d <= |l|
  {
    if Up(l, j, b) then j + 2 else j + 1
  }

  ghost function Put(l: seq<Block>, j: nat, b: Block): (r: seq<Block>)
    requires j < |l|
    ensures |r| == From(l, j, b) + 1 + |l| - To(l, j, b)
    ensures forall i :: 0 <= i < From(l, j, b) ==> r[i] == l[i]
    ensures r[From(l, j, b)] == Merged(l, j, b)
    ensures forall i :: From(l, j, b) < i < |r| ==> r[i] == l[i - From(l, j, b) - 1 + To(l, j, b)]
  {
    l[..From(l, j, b)] + [Merged(l, j, b)] + l[To(l, j, b)..]
  }

  /** The merged block keeps clear of its new neighbours. */
  lemma MergedApart(l: seq<Block>, j: nat, b: Block)
    requires Sorted(l) && Gap(l, j, b)
    ensures forall i :: 0 <= i < From(l, j, b) ==> l[i].End() < Merged(l, j, b).addr
    ensures forall i :: To(l, j, b) <= i < |l| ==> Merged(l, j, b).End() < l[i].addr
  {
    assert forall i :: 0 <= i < j ==> l[i].End() < l[j].addr;
    if j + 1 < |l| {
      assert l[j].End() < l[j + 1].addr;
      assert forall i :: j + 1 < i < |l| ==> l[j + 1].End() < l[i].addr;
    }
  }

  lemma PutShape(base: nat, l: seq<Block>, j: nat, b: Block)
    requires Shape(base, l) && Gap(l, j, b)
    ensures Shape(base, Put(l, j, b))
  {
    MergedApart(l, j, b);
    MergedSize(l, j, b);
    assert j == 0 ==> !Low(l, j, b);
    hide Merged, Sorted;
    Spliced(l, From(l, j, b), To(l, j, b), Merged(l, j, b));
  }

  lemma Spliced(l: seq<Block>, k: nat, d: nat, m: Block)
    requires Sorted(l) && k <= d <= |l|
    requires (forall i :: 0 <= i < k ==> l[i].End() < m.addr) && forall i :: d <= i < |l| ==> m.End() < l[i].addr
    ensures Sorted(l[..k] + [m] + l[d..])
  {
    var r := l[..k] + [m] + l[d..];
    forall i, j | 0 <= i < j < |r| ensures r[i].End() < r[j].addr {
      assert r[i] == if i < k then l[i] else if i == k then m else l[i - k - 1 + d];
      assert r[j] == if j < k then l[j] else if j == k then m else l[j - k - 1 + d];
    }
  }

  lemma MergedSize(l: seq<Block>, j: nat, b: Block)
    requires j < |l| && b.size > 0
    ensures Merged(l, j, b).size > 0
  {
  }

  lemma PutHolds(l: seq<Block>, j: nat, b: Block, u: nat)
    requires Gap(l, j, b)
    ensures Holds(Put(l, j, b), u) <==> Holds(l, u) || b.Has(u)
  {
    hide Put;
    var r, k, d := Put(l, j, b), From(l, j, b), To(l, j, b);
    if Holds(r, u) {
      var i :| 0 <= i < |r| && r[i].Has(u);
      if i == k {
        assert b.Has(u) || (Low(l, j, b) && l[j].Has(u)) || (Up(l, j, b) && l[j + 1].Has(u));
      }
    }
    if Holds(l, u) {
      var i :| 0 <= i < |l| && l[i].Has(u);
      assert r[if i < k then i else if i < d then k else i - d + k + 1].Has(u);
    }
    if b.Has(u) { assert r[k].Has(u); }
  }

  lemma TotalSplit(l: seq<Block>, k: nat, d: nat)
    requires k <= d <= |l|
    ensures Total(l) == Total(l[..k]) + Total(l[k..d]) + Total(l[d..])
  {
    hide Total;
    TotalConcat(l[..k], l[k..]);
    assert l[..k] + l[k..] == l;
    TotalConcat(l[k..d], l[d..]);
    assert l[k..d] + l[d..] == l[k..];
  }

  lemma PutTotal(l: seq<Block>, j: nat, b: Block)
    requires j < |l|
    ensures Total(Put(l, j, b)) == Total(l) + b.size
  {
    var k, d := From(l, j, b), To(l, j, b);
    var m := Merged(l, j, b);
    TotalSplit(l, k, d);
    MiddleTotal(l, j, b);
    hide Total;
    TotalConcat(l[..k] + [m], l[d..]);
    TotalConcat(l[..k], [m]);
    TotalOne(m);
  }

  lemma MiddleTotal(l: seq<Block>, j: nat, b: Block)
    requires j < |l|
    ensures Total(l[From(l, j, b)..To(l, j, b)]) + b.size == Merged(l, j, b).size
  {
    TotalOne(l[j]);
    if Up(l, j, b) {
      TotalOne(l[j + 1]);
      TotalConcat([l[j]], [l[j + 1]]);
      assert l[j..j + 2] == [l[j]] + [l[j + 1]] && l[j + 1..j + 2] == [l[j + 1]];
    } else {
      assert l[j..j + 1] == [l[j]] && l[j + 1..j + 1] == [];
    }
  }

  lemma TotalOne(b: Block)
    ensures Total([b]) == b.size
  {
    assert [b][1..] == [];
  }

  // -------------------------------------------------------------- taking out

  /** n units leave the end of block i, and the block with them when it has no more. */
  ghost function Take(l: seq<Block>, i: nat, n: nat): (r: seq<Block>)
    requires i < |l| && n <= l[i].size
    ensures n < l[i].size ==> r == l[i := Block(l[i].addr, l[i].size - n)]
    ensures n == l[i].size ==> |r| == |l| - 1
    ensures n == l[i].size ==> forall k :: 0 <= k < i ==> r[k] == l[k]
    ensures n == l[i].size ==> forall k :: i <= k < |r| ==> r[k] == l[k + 1]
  {
    if n == l[i].size then l[..i] + l[i + 1..] else l[i := Block(l[i].addr, l[i].size - n)]
  }

  function Taken(b: Block, n: nat): (t: Block)
    requires n <= b.size
  {
    Block(b.addr + b.size - n, n)
  }

  /** Every block left is a block that was, or what remains of block i. */
  lemma TakePart(l: seq<Block>, i: nat, n: nat, k: nat)
    requires i < |l| && n <= l[i].size && k < |Take(l, i, n)|
    ensures var r := Take(l, i, n)[k]; exists j :: 0 <= j < |l| && r.addr == l[j].addr && r.End() <= l[j].End() && (j == i ==> r.End() <= Taken(l[i], n).addr)
  {
    hide Take;
    var j := if n == l[i].size && k >= i then k + 1 else k;
    assert Take(l, i, n)[k].addr == l[j].addr;
  }

  lemma TakeShape(base: nat, l: seq<Block>, i: nat, n: nat)
    requires Shape(base, l) && 0 < i < |l| && 0 < n <= l[i].size
    ensures Shape(base, Take(l, i, n))
  {
    hide Take;
    var r := Take(l, i, n);
    forall k, m | 0 <= k < m < |r| ensures r[k].End() < r[m].addr {
      var k', m' := if n == l[i].size && k >= i then k + 1 else k, if n == l[i].size && m >= i then m + 1 else m;
      assert l[k'].End() < l[m'].addr;
    }
  }

  lemma TakeHolds(base: nat, l: seq<Block>, i: nat, n: nat, u: nat)
    requires Shape(base, l) && 0 < i < |l| && 0 < n <= l[i].size
    ensures Holds(Take(l, i, n), u) <==> Holds(l, u) && !Taken(l[i], n).Has(u)
  {
    hide Take, Shape;
    if Holds(Take(l, i, n), u) { TakeHeld(base, l, i, n, u); }
    if Holds(l, u) && !Taken(l[i], n).Has(u) {
      var j :| 0 <= j < |l| && l[j].Has(u);
      assert Take(l, i, n)[if n == l[i].size && j > i then j - 1 else j].Has(u);
    }
  }

  lemma TakeHeld(base: nat, l: seq<Block>, i: nat, n: nat, u: nat)
    requires Shape(base, l) && 0 < i < |l| && 0 < n <= l[i].size && Holds(Take(l, i, n), u)
    ensures Holds(l, u) && !Taken(l[i], n).Has(u)
  {
    hide Take, Shape;
    var r := Take(l, i, n);
    var k :| 0 <= k < |r| && r[k].Has(u);
    var j := if n == l[i].size && k >= i then k + 1 else k;
    assert l[j].Has(u);
    InOrder(base, l, i, j);
  }

  lemma InOrder(base: nat, l: seq<Block>, i: nat, j: nat)
    requires Shape(base, l) && i < |l| && j < |l|
    ensures i < j ==> l[i].End() < l[j].addr
    ensures j < i ==> l[j].End() < l[i].addr
  {
  }

  lemma TakeTotal(l: seq<Block>, i: nat, n: nat)
    requires i < |l| && n <= l[i].size
    ensures Total(Take(l, i, n)) + n == Total(l)
  {
    hide Total;
    TotalSplit(l, i, i + 1);
    assert l[i..i + 1] == [l[i]];
    TotalOne(l[i]);
    if n == l[i].size {
      TotalConcat(l[..i], l[i + 1..]);
    } else {
      TotalAt(l, i, Block(l[i].addr, l[i].size - n));
    }
  }

  lemma TotalAt(l: seq<Block>, i: nat, b: Block)
    requires i < |l|
    ensures Total(l[i := b]) == Total(l[..i]) + b.size + Total(l[i + 1..])
  {
    hide Total;
    TotalConcat(l[..i] + [b], l[i + 1..]);
    TotalConcat(l[..i], [b]);
    TotalOne(b);
    assert l[i := b] == l[..i] + [b] + l[i + 1..];
  }
}
