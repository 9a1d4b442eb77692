/**
 Disk blocks: BSIZE bytes, and the two other ways the kernel looks at them:
 as BSIZE/4 little-endian 32-bit words (the log header, indirect blocks) and as
 BSIZE*8 bits (the free map).
 */
module Blocks {
  import opened Common

  const BSIZE: nat := 1024
  const WORDS: nat := 256
  const BITS: nat := 8192
  const TWO32: nat := 0x1_0000_0000

  type Word = x: int | 0 <= x < 0x1_0000_0000
  type Block = b: seq<Byte> | |b| == 1024 witness seq(1024, _ => 0)

  function ZeroBlock(): (z: Block)
    ensures forall i :: 0 <= i < BSIZE ==> z[i] == 0
  {
    seq(1024, _ => 0)
  }

  /** The i-th 32-bit word of a block. */
  function GetWord(b: Block, i: nat): (w: Word)
    requires i < WORDS
  {
    var b0: int, b1: int, b2: int, b3: int := b[4 * i], b[4 * i + 1], b[4 * i + 2], b[4 * i + 3];
    b0 + 0x100 * b1 + 0x1_0000 * b2 + 0x100_0000 * b3
  }

  function PutWord(b: Block, i: nat, w: Word): (r: Block)
    requires i < WORDS
  {
    b[4 * i := w % 0x100][4 * i + 1 := (w / 0x100) % 0x100]
    [4 * i + 2 := (w / 0x1_0000) % 0x100][4 * i + 3 := w / 0x100_0000]
  }

  /** The four bytes of a word make the word. */
  lemma WordParts(w: Word)
    ensures w == w % 0x100 + 0x100 * ((w / 0x100) % 0x100)
                 + 0x1_0000 * ((w / 0x1_0000) % 0x100) + 0x100_0000 * (w / 0x100_0000)
  {
    var x := w / 0x100;
    var y := x / 0x100;
    assert w / 0x1_0000 == y && w / 0x100_0000 == y / 0x100;
  }

  lemma PutWordSame(b: Block, i: nat, w: Word)
    requires i < WORDS
    ensures GetWord(PutWord(b, i, w), i) == w
  {
    var r := PutWord(b, i, w);
    assert r[4 * i] == w % 0x100;
    assert r[4 * i + 1] == (w / 0x100) % 0x100;
    assert r[4 * i + 2] == (w / 0x1_0000) % 0x100;
    assert r[4 * i + 3] == w / 0x100_0000;
    WordParts(w);
  }

  lemma PutWordOther(b: Block, i: nat, w: Word, j: nat)
    requires i < WORDS && j < WORDS && i != j
    ensures GetWord(PutWord(b, i, w), j) == GetWord(b, j)
  {
    var r := PutWord(b, i, w);
    assert r[4 * j] == b[4 * j] && r[4 * j + 1] == b[4 * j + 1];
    assert r[4 * j + 2] == b[4 * j + 2] && r[4 * j + 3] == b[4 * j + 3];
  }

  /** Storing a word changes exactly that word. */
  lemma GetPutWord(b: Block, i: nat, w: Word, j: nat)
    requires i < WORDS && j < WORDS
    ensures GetWord(PutWord(b, i, w), j) == if i == j then w else GetWord(b, j)
  {
    if i == j {
      PutWordSame(b, i, w);
    } else {
      PutWordOther(b, i, w, j);
    }
  }

  lemma ZeroWord(i: nat)
    requires i < WORDS
    ensures GetWord(ZeroBlock(), i) == 0
  {
  }

  /** Bit k of x. */
  predicate Bit(x: nat, k: nat)
  {
    if k == 0 then x % 2 == 1 else Bit(x / 2, k - 1)
  }

  /** x | (1 << k) */
  function OrBit(x: nat, k: nat): (r: nat)
  {
    if k == 0 then x / 2 * 2 + 1 else OrBit(x / 2, k - 1) * 2 + x % 2
  }

  /** x & ~(1 << k) */
  function AndNotBit(x: nat, k: nat): (r: nat)
  {
    if k == 0 then x / 2 * 2 else AndNotBit(x / 2, k - 1) * 2 + x % 2
  }

  lemma {:induction false} OrBitBits(x: nat, k: nat, j: nat)
    ensures Bit(OrBit(x, k), j) <==> j == k || Bit(x, j)
  {
    if k > 0 && j > 0 {
      OrBitBits(x / 2, k - 1, j - 1);
    }
  }

  lemma {:induction false} AndNotBitBits(x: nat, k: nat, j: nat)
    ensures Bit(AndNotBit(x, k), j) <==> j != k && Bit(x, j)
  {
    if k > 0 && j > 0 {
      AndNotBitBits(x / 2, k - 1, j - 1);
    }
  }

  function Pow2(m: nat): (p: nat)
    ensures p > 0
  {
    if m == 0 then 1 else 2 * Pow2(m - 1)
  }

  lemma {:induction false} BitOpsBound(x: nat, k: nat, m: nat)
    requires x < Pow2(m) && k < m
    ensures OrBit(x, k) < Pow2(m)
    ensures AndNotBit(x, k) < Pow2(m)
  {
    if k > 0 {
      BitOpsBound(x / 2, k - 1, m - 1);
    }
  }

  lemma ByteOps(x: Byte, k: nat)
    requires k < 8
    ensures OrBit(x, k) < 256 && AndNotBit(x, k) < 256
  {
    assert Pow2(8) == 256 by {
      assert Pow2(4) == 16;
    }
    BitOpsBound(x, k, 8);
  }

  predicate GetBit(b: Block, i: nat)
    requires i < BITS
  {
    Bit(b[i / 8], i % 8)
  }

  function SetBit(b: Block, i: nat): (r: Block)
    requires i < BITS
  {
    ByteOps(b[i / 8], i % 8);
    b[i / 8 := OrBit(b[i / 8], i % 8)]
  }

  function ClearBit(b: Block, i: nat): (r: Block)
    requires i < BITS
  {
    ByteOps(b[i / 8], i % 8);
    b[i / 8 := AndNotBit(b[i / 8], i % 8)]
  }

  /** Setting or clearing a bit changes exactly that bit. */
  lemma GetSetBit(b: Block, i: nat, j: nat)
    requires i < BITS && j < BITS
    ensures GetBit(SetBit(b, i), j) <==> i == j || GetBit(b, j)
    ensures GetBit(ClearBit(b, i), j) <==> i != j && GetBit(b, j)
  {
    if i / 8 == j / 8 {
      OrBitBits(b[i / 8], i % 8, j % 8);
      AndNotBitBits(b[i / 8], i % 8, j % 8);
    }
  }
}
