/** The free map: one bit per disk block, eight to a byte, BPB to a bitmap block. */
module Bitmap {
  import opened Blocks

  const BPB := 8192 // BSIZE * 8

  function Pow2(n: nat): (p: nat) { if n == 0 then 1 else 2 * Pow2(n - 1) }

  /** x & (1 << k) is nonzero */
  predicate Test(x: nat, k: nat) {
    if k == 0 then x % 2 == 1 else Test(x / 2, k - 1)
  }

  /** x | (1 << k), for n-bit x */
  function Set(x: nat, k: nat, n: nat): (r: nat)
    requires k < n && x < Pow2(n)
    ensures r < Pow2(n)
    ensures forall j: nat :: Test(r, j) <==> j == k || Test(x, j)
  {
    if k == 0 then (if x % 2 == 1 then x else x + 1)
    else 2 * Set(x / 2, k - 1, n - 1) + x % 2
  }

  /** x & ~(1 << k), for n-bit x */
  function Clear(x: nat, k: nat, n: nat): (r: nat)
    requires k < n && x < Pow2(n)
    ensures r < Pow2(n)
    ensures forall j: nat :: Test(r, j) <==> j != k && Test(x, j)
  {
    if k == 0 then (if x % 2 == 1 then x - 1 else x)
    else 2 * Clear(x / 2, k - 1, n - 1) + x % 2
  }

  lemma ByteBits()
    ensures Pow2(8) == 256
  {
    assert Pow2(4) == 16;
  }

  predicate Bit(b: Block, i: nat)
    requires i < BPB
  {
    Test(b[i / 8], i % 8)
  }

  function SetBit(b: Block, i: nat): (r: Block)
    requires i < BPB
    ensures forall j :: 0 <= j < BPB ==> (Bit(r, j) <==> j == i || Bit(b, j))
  {
    ByteBits();
    b[i / 8 := Set(b[i / 8], i % 8, 8)]
  }

  function ClearBit(b: Block, i: nat): (r: Block)
    requires i < BPB
    ensures forall j :: 0 <= j < BPB ==> (Bit(r, j) <==> j != i && Bit(b, j))
  {
    ByteBits();
    b[i / 8 := Clear(b[i / 8], i % 8, 8)]
  }
}
