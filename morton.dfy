/**
 * The Morton (Z-curve) key of `math::sfc`, duplicated as `split_by_3` and
 * `morton_3d_64` in `container::internal`: it interleaves the bits of
 * three 32-bit coordinates into a 64-bit key.
 */
module Morton {

  /** Every third bit, starting at bit 0. */
  const SPREAD_MASK: bv64 := 0x1249249249249249

  /** Gathers every third bit back into the low 21 bits: the inverse of SplitBy3. */
  function Compact(m: bv64): bv64 {
    var x0 := m & SPREAD_MASK;
    var x1 := (x0 | (x0 >> 2)) & 0x10c30c30c30c30c3;
    var x2 := (x1 | (x1 >> 4)) & 0x100f00f00f00f00f;
    var x3 := (x2 | (x2 >> 8)) & 0x1f0000ff0000ff;
    var x4 := (x3 | (x3 >> 16)) & 0x1f00000000ffff;
    (x4 | (x4 >> 32)) & 0x1fffff
  }

  /** The five shift-and-mask rounds of `split_by_3`, on an already masked value. */
  function Spread(x0: bv64): bv64 {
    var x1 := (x0 | (x0 << 32)) & 0x1f00000000ffff;
    var x2 := (x1 | (x1 << 16)) & 0x1f0000ff0000ff;
    var x3 := (x2 | (x2 << 8)) & 0x100f00f00f00f00f;
    var x4 := (x3 | (x3 << 4)) & 0x10c30c30c30c30c3;
    (x4 | (x4 << 2)) & SPREAD_MASK
  }

  /**
   * `split_by_3`: keep the low 21 bits of a and move bit i to bit 3i. Only
   * bits at multiples of 3 can be set.
   */
  function SplitBy3(a: bv32): (r: bv64)
    ensures r & !SPREAD_MASK == 0
  {
    Spread((a as bv64) & 0x1fffff)
  }

  lemma SpreadBits(x: bv64, i: bv64)
    requires i < 21 && x & 0x1fffff == x
    ensures (Spread(x) >> (3 * i)) & 1 == (x >> i) & 1
  {
    if i == 0 {
    } else if i == 1 {
    } else if i == 2 {
    } else if i == 3 {
    } else if i == 4 {
    } else if i == 5 {
    } else if i == 6 {
    } else if i == 7 {
    } else if i == 8 {
    } else if i == 9 {
    } else if i == 10 {
    } else if i == 11 {
    } else if i == 12 {
    } else if i == 13 {
    } else if i == 14 {
    } else if i == 15 {
    } else if i == 16 {
    } else if i == 17 {
    } else if i == 18 {
    } else if i == 19 {
    } else if i == 20 {
    }
  }

  /** Bit i of the input lands on bit 3i of the output, for i < 21. */
  lemma SplitBy3Bits(a: bv32, i: bv64)
    requires i < 21
    ensures (SplitBy3(a) >> (3 * i)) & 1 == ((a as bv64) >> i) & 1
  {
    var x := (a as bv64) & 0x1fffff;
    assert x & 0x1fffff == x;
    SpreadBits(x, i);
    assert SplitBy3(a) == Spread(x);
  }

  /** Compact recovers the low 21 bits, so SplitBy3 is one-to-one on them. */
  lemma SplitBy3Inverse(a: bv32)
    ensures Compact(SplitBy3(a)) == (a as bv64) & 0x1fffff
  {
  }

  /** `split_by_3(7) == 73` and `split_by_3(2) == 8`. */
  lemma SplitBy3Examples()
    ensures SplitBy3(7) == 73 && SplitBy3(2) == 8
  {
  }

  /**
   * `morton_key` / `morton_3d_64`: x on bits 0, 3, 6, ..., y on bits 1, 4,
   * 7, ..., z on bits 2, 5, 8, ...; each lane is that coordinate's spread.
   */
  function MortonKey(x: bv32, y: bv32, z: bv32): (k: bv64)
    ensures k & SPREAD_MASK == SplitBy3(x)
    ensures (k >> 1) & SPREAD_MASK == SplitBy3(y)
    ensures (k >> 2) & SPREAD_MASK == SplitBy3(z)
  {
    SplitBy3(x) | (SplitBy3(y) << 1) | (SplitBy3(z) << 2)
  }

  /** Cells with coordinates below 2^21 have distinct Morton keys. */
  lemma MortonInjective(x: bv32, y: bv32, z: bv32, x': bv32, y': bv32, z': bv32)
    requires x < 0x200000 && y < 0x200000 && z < 0x200000
    requires x' < 0x200000 && y' < 0x200000 && z' < 0x200000
    requires MortonKey(x, y, z) == MortonKey(x', y', z')
    ensures x == x' && y == y' && z == z'
  {
    SplitBy3Inverse(x);
    SplitBy3Inverse(y);
    SplitBy3Inverse(z);
    SplitBy3Inverse(x');
    SplitBy3Inverse(y');
    SplitBy3Inverse(z');
    assert (x as bv64) & 0x1fffff == x as bv64;
    assert (x' as bv64) & 0x1fffff == x' as bv64;
    assert (y as bv64) & 0x1fffff == y as bv64;
    assert (y' as bv64) & 0x1fffff == y' as bv64;
    assert (z as bv64) & 0x1fffff == z as bv64;
    assert (z' as bv64) & 0x1fffff == z' as bv64;
  }

  /** Agreeing on the low 21 bits, two words agree on each of those bits. */
  lemma LowBit(a: bv32, b: bv32, j: nat)
    requires j < 21 && (a as bv64) & 0x1fffff == (b as bv64) & 0x1fffff
    ensures (a >> j) & 1 == (b >> j) & 1
  {
    assert a & 0x1fffff == b & 0x1fffff;
    if j == 0 {
    } else if j == 1 {
    } else if j == 2 {
    } else if j == 3 {
    } else if j == 4 {
    } else if j == 5 {
    } else if j == 6 {
    } else if j == 7 {
    } else if j == 8 {
    } else if j == 9 {
    } else if j == 10 {
    } else if j == 11 {
    } else if j == 12 {
    } else if j == 13 {
    } else if j == 14 {
    } else if j == 15 {
    } else if j == 16 {
    } else if j == 17 {
    } else if j == 18 {
    } else if j == 19 {
    } else if j == 20 {
    }
  }

  /** Equal Morton keys come from coordinates that agree on their low 21 bits. */
  lemma MortonLowBits(x: bv32, y: bv32, z: bv32, x': bv32, y': bv32, z': bv32, j: nat)
    requires j < 21
    requires MortonKey(x, y, z) == MortonKey(x', y', z')
    ensures (x >> j) & 1 == (x' >> j) & 1
    ensures (y >> j) & 1 == (y' >> j) & 1
    ensures (z >> j) & 1 == (z' >> j) & 1
  {
    SplitBy3Inverse(x);
    SplitBy3Inverse(y);
    SplitBy3Inverse(z);
    SplitBy3Inverse(x');
    SplitBy3Inverse(y');
    SplitBy3Inverse(z');
    LowBit(x, x', j);
    LowBit(y, y', j);
    LowBit(z, z', j);
  }

  /** On the 2 x 2 x 2 cube the Morton key is x + 2y + 4z, the flat index. */
  lemma MortonUnitCube(x: bv32, y: bv32, z: bv32)
    requires x < 2 && y < 2 && z < 2
    ensures MortonKey(x, y, z) == (x as bv64) + 2 * (y as bv64) + 4 * (z as bv64)
  {
  }

}
