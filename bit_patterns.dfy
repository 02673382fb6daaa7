/**
 * The bit pattern of a 32-bit unsigned number as a `bv32`, assembled bit
 * by bit from its bit sequence, so that each of its bits can be read off.
 */
module BitPatterns {
  import opened Words

  /** The low i bits of w, bit j of w on bit j of the result. */
  function Pack(w: Word, i: nat): (v: bv32)
    requires i <= |w| && i <= 32
  {
    if i == 0 then 0 else Pack(w, i - 1) | (if w[i - 1] then (1 as bv32) << (i - 1) else 0)
  }

  lemma OrBit(v: bv32, k: nat, j: nat)
    requires k < 32 && j < 32
    ensures ((v | ((1 as bv32) << k)) >> j) & 1 == if (v >> j) & 1 == 1 || k == j then 1 else 0
  {
  }

  lemma {:induction false} PackBit(w: Word, i: nat, j: nat)
    requires i <= |w| && i <= 32 && j < 32
    ensures Bit(Pack(w, i), j) == (j < i && w[j])
  {
    if i > 0 {
      PackBit(w, i - 1, j);
      if w[i - 1] {
        OrBit(Pack(w, i - 1), i - 1, j);
      } else {
        assert Pack(w, i) == Pack(w, i - 1) | 0;
      }
    }
  }

  /** Packing a word whose bits from 1 up are clear gives just its lowest bit. */
  lemma {:induction false} PackLowOnly(w: Word, i: nat)
    requires 1 <= i <= |w| && i <= 32
    requires forall j :: 1 <= j < i ==> !w[j]
    ensures Pack(w, i) == if w[0] then 1 else 0
  {
    if i > 1 {
      PackLowOnly(w, i - 1);
      assert !w[i - 1];
    }
  }

  /** Bit j of v. */
  predicate Bit(v: bv32, j: nat)
    requires j < 32
  {
    (v >> j) & 1 == 1
  }

  /** The `uint32_t` bit pattern of x < 2^32. */
  function U32Bits(x: nat): bv32 {
    Pack(FromNat(x, 32), 32)
  }

  /** Bit j of the pattern is bit j of the number. */
  lemma U32BitsBit(x: nat, j: nat)
    requires j < 32
    ensures Bit(U32Bits(x), j) == FromNat(x, 32)[j]
  {
    PackBit(FromNat(x, 32), 32, j);
  }

  /** The patterns of 0 and 1 are the words 0 and 1. */
  lemma U32BitsSmall(x: nat)
    requires x < 2
    ensures U32Bits(x) == if x == 0 then 0 else 1
  {
    SmallWord(x, 32);
  }

  lemma SmallWord(x: nat, width: nat)
    requires x < 2 && 1 <= width <= 32
    ensures Pack(FromNat(x, width), width) == if x == 0 then 0 else 1
  {
    var w := FromNat(x, width);
    assert w[0] == (x % 2 == 1);
    assert Pow2(1) == 2;
    FromNatHighClear(x, width, 1);
    PackLowOnly(w, width);
  }

  /** Numbers below 2^k whose patterns agree on the low k bits are equal. */
  lemma U32BitsInjective(a: nat, b: nat, k: nat)
    requires k <= 32 && a < Pow2(k) && b < Pow2(k)
    requires forall j :: 0 <= j < k ==> Bit(U32Bits(a), j) == Bit(U32Bits(b), j)
    ensures a == b
  {
    FromNatHighClear(a, 32, k);
    FromNatHighClear(b, 32, k);
    forall j | 0 <= j < k
      ensures FromNat(a, 32)[j] == FromNat(b, 32)[j]
    {
      U32BitsBit(a, j);
      U32BitsBit(b, j);
    }
    assert FromNat(a, 32) == FromNat(b, 32);
    Pow2Monotone(k, 32);
    FromNatInjective(a, b, 32);
  }
}
