/** Disk blocks: sequences of bytes that the kernel also reads as little-endian
    32-bit words (the log header and the indirect blocks) and as bits (the free map). */
module Blocks {
  import opened Values

  const BSIZE := 1024
  const NWORDS := BSIZE / 4
  const WORD_LIMIT := 0x1_0000_0000

  /** A disk block: exactly BSIZE bytes. */
  type Block = b: seq<Byte> | |b| == BSIZE witness seq(BSIZE, _ => 0)

  function ZeroBlock(): Block {
    seq(BSIZE, _ => 0)
  }

  // ---------------------------------------------------------------- words

  function Word(b: Block, i: nat): (v: nat)
    requires i < NWORDS
    ensures v < WORD_LIMIT
  {
    (b[4 * i] as int) + 256 * (b[4 * i + 1] as int) + 65536 * (b[4 * i + 2] as int)
    + 16777216 * (b[4 * i + 3] as int)
  }

  function WithWord(b: Block, i: nat, v: nat): (r: Block)
    requires i < NWORDS && v < WORD_LIMIT
  {
    b[4 * i := v % 256][4 * i + 1 := v / 256 % 256]
     [4 * i + 2 := v / 256 / 256 % 256][4 * i + 3 := v / 256 / 256 / 256]
  }

  /** Storing a word changes that word and no other. */
  lemma WordOfWithWord(b: Block, i: nat, v: nat, j: nat)
    requires i < NWORDS && j < NWORDS && v < WORD_LIMIT
    ensures Word(WithWord(b, i, v), j) == if i == j then v else Word(b, j)
  {
    var r := WithWord(b, i, v);
    if i == j {
      var v1 := v / 256;
      var v2 := v1 / 256;
      assert v == 256 * v1 + r[4 * i] as int;
      assert v1 == 256 * v2 + r[4 * i + 1] as int;
      assert v2 == 256 * (r[4 * i + 3] as int) + r[4 * i + 2] as int;
    } else {
      assert r[4 * j] == b[4 * j] && r[4 * j + 1] == b[4 * j + 1];
      assert r[4 * j + 2] == b[4 * j + 2] && r[4 * j + 3] == b[4 * j + 3];
    }
  }

  lemma WordOfZero(i: nat)
    requires i < NWORDS
    ensures Word(ZeroBlock(), i) == 0
  {
  }

  // ---------------------------------------------------------------- bits

  /** `1 << i` */
  function Mask(i: nat): (m: nat)
    ensures m >= 1
  {
    if i == 0 then 1 else 2 * Mask(i - 1)
  }

  /** `(x & (1 << i)) != 0` */
  predicate Bit(x: nat, i: nat) {
    if i == 0 then x % 2 == 1 else Bit(x / 2, i - 1)
  }

  /** `x |= 1 << i` */
  function SetBit(x: nat, i: nat): (r: nat) {
    if Bit(x, i) then x else x + Mask(i)
  }

  /** `x &= ~(1 << i)` */
  function ClearBit(x: nat, i: nat): (r: nat) {
    BitWeight(x, i);
    if Bit(x, i) then x - Mask(i) else x
  }

  lemma {:induction false} BitWeight(x: nat, i: nat)
    ensures Bit(x, i) ==> x >= Mask(i) && !Bit(x - Mask(i), i)
  {
    if i != 0 {
      BitWeight(x / 2, i - 1);
      assert Bit(x, i) ==> (x - Mask(i)) / 2 == x / 2 - Mask(i - 1);
    }
  }

  lemma {:induction false} AddMask(x: nat, i: nat, j: nat)
    requires !Bit(x, i)
    ensures Bit(x + Mask(i), j) <==> (i == j || Bit(x, j))
  {
    if i == 0 {
      assert j > 0 ==> (x + 1) / 2 == x / 2;
    } else if j > 0 {
      AddMask(x / 2, i - 1, j - 1);
      assert (x + Mask(i)) / 2 == x / 2 + Mask(i - 1);
    }
  }

  lemma {:induction false} AddMaskFits(x: nat, i: nat, w: nat)
    requires !Bit(x, i) && i < w && x < Mask(w)
    ensures x + Mask(i) < Mask(w)
  {
    var half, top := x / 2, Mask(w - 1);
    assert x == 2 * half + x % 2 && Mask(w) == 2 * top;
    if i != 0 {
      var m := Mask(i - 1);
      assert half + m < top by { AddMaskFits(half, i - 1, w - 1); }
      assert Mask(i) == 2 * m;
    }
  }

  /** Setting and clearing a bit of a byte: the byte stays a byte and only that bit changes. */
  lemma SetBitBits(x: Byte, i: nat, j: nat)
    requires i < 8
    ensures SetBit(x, i) < 256
    ensures Bit(SetBit(x, i), j) <==> (i == j || Bit(x, j))
  {
    assert Mask(8) == 256 by {
      assert Mask(1) == 2; assert Mask(3) == 8; assert Mask(5) == 32; assert Mask(7) == 128;
    }
    if !Bit(x, i) {
      AddMask(x, i, j);
      AddMaskFits(x, i, 8);
    }
  }

  lemma ClearBitBits(x: Byte, i: nat, j: nat)
    requires i < 8
    ensures ClearBit(x, i) < 256
    ensures Bit(ClearBit(x, i), j) <==> (i != j && Bit(x, j))
  {
    BitWeight(x, i);
    if Bit(x, i) {
      AddMask(x - Mask(i), i, j);
    }
  }
}
