/** Disk blocks as bytes, and the little-endian words the kernel overlays on them
    (xv6/fs.h, xv6/log.c). */
module Blocks {
  import opened Numbers

  const BSIZE := 512
  const WORDS := 128
  const UINT_MAX := 0xffffffff

  type uint = x: int | 0 <= x <= UINT_MAX

  type Block = b: seq<byte> | |b| == BSIZE witness seq(BSIZE, _ => 0)

  function ZeroBlock(): (z: Block)
    ensures forall k :: 0 <= k < BSIZE ==> z[k] == 0
  {
    seq(BSIZE, _ => 0)
  }

  /** Word i of a block. */
  function Word(b: Block, i: nat): (w: uint)
    requires i < WORDS
  {
    var b0: int, b1: int, b2: int, b3: int := b[4 * i], b[4 * i + 1], b[4 * i + 2], b[4 * i + 3];
    b0 + 0x100 * b1 + 0x10000 * b2 + 0x1000000 * b3
  }

  /** A word is the sum of its bytes. */
  lemma WordBytes(v: uint)
    ensures v / 0x1000000 < 0x100
    ensures v == v % 0x100 + 0x100 * (v / 0x100 % 0x100) + 0x10000 * (v / 0x10000 % 0x100) + 0x1000000 * (v / 0x1000000)
  {
    assert v / 0x10000 == v / 0x100 / 0x100 && v / 0x1000000 == v / 0x10000 / 0x100;
  }

  function SetWord(b: Block, i: nat, v: uint): (r: Block)
    requires i < WORDS
    ensures Word(r, i) == v
    ensures forall j :: 0 <= j < WORDS && j != i ==> Word(r, j) == Word(b, j)
    ensures forall k :: 0 <= k < BSIZE && k / 4 != i ==> r[k] == b[k]
  {
    WordBytes(v);
    var b0: byte, b1: byte, b2: byte, b3: byte := v % 0x100, v / 0x100 % 0x100, v / 0x10000 % 0x100, v / 0x1000000;
    b[4 * i := b0][4 * i + 1 := b1][4 * i + 2 := b2][4 * i + 3 := b3]
  }

  // ------------------------------------------------------------------------------------
  // Bits
  // ------------------------------------------------------------------------------------

  const BPB := 4096

  /** x & 1 << k, as a truth value. */
  predicate ByteBit(x: nat, k: nat) {
    if k == 0 then x % 2 == 1 else ByteBit(x / 2, k - 1)
  }

  /** x | 1 << k if on, x & ~(1 << k) if not. */
  function AssignBit(x: nat, k: nat, on: bool): nat {
    if k == 0 then x / 2 * 2 + (if on then 1 else 0) else AssignBit(x / 2, k - 1, on) * 2 + x % 2
  }

  lemma {:induction false} AssignBitIs(x: nat, k: nat, on: bool, j: nat)
    ensures ByteBit(AssignBit(x, k, on), j) == if j == k then on else ByteBit(x, j)
  {
    if k == 0 {
      assert j > 0 ==> AssignBit(x, k, on) / 2 == x / 2;
    } else {
      assert AssignBit(x, k, on) / 2 == AssignBit(x / 2, k - 1, on);
      if j > 0 {
        AssignBitIs(x / 2, k - 1, on, j - 1);
      }
    }
  }

  function Power2(n: nat): nat {
    if n == 0 then 1 else 2 * Power2(n - 1)
  }

  lemma {:induction false} AssignBitBound(x: nat, k: nat, on: bool, n: nat)
    requires k < n && x < Power2(n)
    ensures AssignBit(x, k, on) < Power2(n)
  {
    if k > 0 {
      AssignBitBound(x / 2, k - 1, on, n - 1);
    }
  }

  /** Bit i of a bitmap block. */
  predicate Bit(b: Block, i: nat)
    requires i < BPB
  {
    ByteBit(b[i / 8], i % 8)
  }

  lemma AssignByte(x: byte, k: nat, on: bool)
    requires k < 8
    ensures AssignBit(x, k, on) < 256
  {
    assert Power2(2) == 4 && Power2(4) == 16 && Power2(6) == 64 && Power2(8) == 256;
    AssignBitBound(x, k, on, 8);
  }

  function SetBit(b: Block, i: nat, on: bool): Block
    requires i < BPB
  {
    AssignByte(b[i / 8], i % 8, on);
    b[i / 8 := AssignBit(b[i / 8], i % 8, on)]
  }

  lemma SetBitIs(b: Block, i: nat, on: bool, j: nat)
    requires i < BPB && j < BPB
    ensures Bit(SetBit(b, i, on), j) == if j == i then on else Bit(b, j)
  {
    AssignBitIs(b[i / 8], i % 8, on, j % 8);
  }
}
