/**
 Disk blocks as byte sequences, with the little-endian 32-bit words that the
 log header, the on-disk inodes and the indirect blocks are made of.
 */
module Blocks {
  const BSIZE := 1024
  const WORDS := 256 // BSIZE / sizeof(uint)

  type Byte = x: int | 0 <= x < 256
  type U32 = x: int | 0 <= x < 0x1_0000_0000
  type Block = b: seq<Byte> | |b| == BSIZE witness seq(BSIZE, _ => 0)

  type Disk = map<nat, Block>

  /** The contents of a freshly zeroed block. */
  function Zero(): (b: Block)
    ensures forall i :: 0 <= i < BSIZE ==> b[i] == 0
  {
    seq(BSIZE, _ => 0)
  }

  /** The i-th 32-bit word of a block. */
  function Word(b: Block, i: nat): (w: U32)
    requires i < WORDS
  {
    var b0: int, b1: int, b2: int, b3: int := b[4 * i], b[4 * i + 1], b[4 * i + 2], b[4 * i + 3];
    b0 + 0x100 * b1 + 0x1_0000 * b2 + 0x100_0000 * b3
  }

  function PutWord(b: Block, i: nat, w: U32): (r: Block)
    requires i < WORDS
  {
    b[4 * i := w % 0x100]
     [4 * i + 1 := w / 0x100 % 0x100]
     [4 * i + 2 := w / 0x1_0000 % 0x100]
     [4 * i + 3 := w / 0x100_0000]
  }

  /** Overwrite consecutive words starting at word `at`. */
  function PutWords(b: Block, at: nat, ws: seq<U32>): (r: Block)
    requires at + |ws| <= WORDS
    decreases |ws|
  {
    if ws == [] then b else PutWords(PutWord(b, at, ws[0]), at + 1, ws[1..])
  }

  /** n consecutive words starting at word `at`. */
  function Words(b: Block, at: nat, n: nat): (ws: seq<U32>)
    requires at + n <= WORDS
    ensures |ws| == n && forall k :: 0 <= k < n ==> ws[k] == Word(b, at + k)
  {
    seq<U32>(n, k requires 0 <= k < n => Word(b, at + k))
  }

  lemma FourBytes(w: nat)
    ensures w == w % 0x100 + 0x100 * (w / 0x100 % 0x100) + 0x1_0000 * (w / 0x1_0000 % 0x100) + 0x100_0000 * (w / 0x100_0000)
  {
    var w1 := w / 0x100;
    var w2 := w1 / 0x100;
    assert w2 == w / 0x1_0000;
    assert w2 / 0x100 == w / 0x100_0000;
  }

  lemma PutWordRead(b: Block, i: nat, w: U32, j: nat)
    requires i < WORDS && j < WORDS
    ensures Word(PutWord(b, i, w), j) == if i == j then w else Word(b, j)
  {
    FourBytes(w);
    var r := PutWord(b, i, w);
    if i == j {
      assert r[4 * i] == w % 0x100;
      assert r[4 * i + 1] == w / 0x100 % 0x100;
      assert r[4 * i + 2] == w / 0x1_0000 % 0x100;
      assert r[4 * i + 3] == w / 0x100_0000;
    } else {
      assert r[4 * j] == b[4 * j] && r[4 * j + 1] == b[4 * j + 1];
      assert r[4 * j + 2] == b[4 * j + 2] && r[4 * j + 3] == b[4 * j + 3];
    }
  }

  /** Reading back overwritten words gives what was written; all others are kept. */
  lemma {:induction false} PutWordsRead(b: Block, at: nat, ws: seq<U32>, j: nat)
    requires at + |ws| <= WORDS && j < WORDS
    ensures Word(PutWords(b, at, ws), j) == if at <= j < at + |ws| then ws[j - at] else Word(b, j)
    decreases |ws|
  {
    if ws != [] {
      PutWordsRead(PutWord(b, at, ws[0]), at + 1, ws[1..], j);
      PutWordRead(b, at, ws[0], j);
    }
  }

  /** A record written over words reads back whole, and a record elsewhere is untouched. */
  lemma PutWordsRecord(b: Block, at: nat, ws: seq<U32>, at': nat)
    requires at + |ws| <= WORDS && at' + |ws| <= WORDS
    requires at == at' || at + |ws| <= at' || at' + |ws| <= at
    ensures Words(PutWords(b, at, ws), at', |ws|) == if at == at' then ws else Words(b, at', |ws|)
  {
    hide PutWords, Word;
    var got, was := Words(PutWords(b, at, ws), at', |ws|), Words(b, at', |ws|);
    forall k | 0 <= k < |ws|
      ensures got[k] == if at == at' then ws[k] else was[k]
    {
      PutWordsRead(b, at, ws, at' + k);
      assert got[k] == Word(PutWords(b, at, ws), at' + k);
      assert was[k] == Word(b, at' + k);
    }
  }

  lemma {:induction false} PutWordsAppend(b: Block, at: nat, ws: seq<U32>, w: U32)
    requires at + |ws| < WORDS
    ensures PutWords(b, at, ws + [w]) == PutWord(PutWords(b, at, ws), at + |ws|, w)
    decreases |ws|
  {
    if ws != [] {
      assert (ws + [w])[1..] == ws[1..] + [w];
      PutWordsAppend(PutWord(b, at, ws[0]), at + 1, ws[1..], w);
    }
  }

  lemma ZeroWord(j: nat)
    requires j < WORDS
    ensures Word(Zero(), j) == 0
  {
  }
}
