/**
 * Fixed-width unsigned machine words as sequences of bits, least
 * significant bit first: bit j of a word w is w[j]. XOR, AND, shifts and
 * masks act bit by bit, which keeps proofs about XOR cascades per bit.
 */
module Words {
  type Word = seq<bool>

  function Pow2(n: nat): (p: nat)
    ensures p >= 1
  {
    if n == 0 then 1 else 2 * Pow2(n - 1)
  }

  lemma {:induction false} Pow2Monotone(m: nat, n: nat)
    requires m <= n
    ensures Pow2(m) <= Pow2(n)
    decreases n
  {
    if m < n {
      Pow2Monotone(m, n - 1);
    }
  }

  /** 2^21 and 2^32, unfolded one step at a time. */
  lemma Pow2Values()
    ensures Pow2(21) == 0x200000 && Pow2(32) == 0x1_0000_0000
  {
    assert Pow2(1) == 0x2;
    assert Pow2(2) == 0x4;
    assert Pow2(3) == 0x8;
    assert Pow2(4) == 0x10;
    assert Pow2(5) == 0x20;
    assert Pow2(6) == 0x40;
    assert Pow2(7) == 0x80;
    assert Pow2(8) == 0x100;
    assert Pow2(9) == 0x200;
    assert Pow2(10) == 0x400;
    assert Pow2(11) == 0x800;
    assert Pow2(12) == 0x1000;
    assert Pow2(13) == 0x2000;
    assert Pow2(14) == 0x4000;
    assert Pow2(15) == 0x8000;
    assert Pow2(16) == 0x10000;
    assert Pow2(17) == 0x20000;
    assert Pow2(18) == 0x40000;
    assert Pow2(19) == 0x80000;
    assert Pow2(20) == 0x100000;
    assert Pow2(21) == 0x200000;
    assert Pow2(22) == 0x400000;
    assert Pow2(23) == 0x800000;
    assert Pow2(24) == 0x1000000;
    assert Pow2(25) == 0x2000000;
    assert Pow2(26) == 0x4000000;
    assert Pow2(27) == 0x8000000;
    assert Pow2(28) == 0x10000000;
    assert Pow2(29) == 0x20000000;
    assert Pow2(30) == 0x40000000;
    assert Pow2(31) == 0x80000000;
    assert Pow2(32) == 0x100000000;
  }

  function Zeros(width: nat): (w: Word)
    ensures |w| == width
    ensures forall j :: 0 <= j < width ==> !w[j]
  {
    seq(width, _ => false)
  }

  /** The low `width` bits of v. */
  function FromNat(v: nat, width: nat): (w: Word)
    ensures |w| == width
    decreases width
  {
    if width == 0 then [] else [v % 2 == 1] + FromNat(v / 2, width - 1)
  }

  /** The unsigned value of a word. */
  function ToNat(w: Word): (v: nat)
    decreases |w|
  {
    if w == [] then 0 else (if w[0] then 1 else 0) + 2 * ToNat(w[1..])
  }

  /** A word's value is below 2^width. */
  lemma {:induction false} ToNatBelow(w: Word)
    ensures ToNat(w) < Pow2(|w|)
    decreases |w|
  {
    if w != [] {
      ToNatBelow(w[1..]);
    }
  }

  /** A word whose bits from k up are clear has a value below 2^k. */
  lemma {:induction false} ToNatHighClear(w: Word, k: nat)
    requires forall j :: k <= j < |w| ==> !w[j]
    ensures ToNat(w) < Pow2(k)
    decreases |w|
  {
    if k >= |w| {
      ToNatBelow(w);
      Pow2Monotone(|w|, k);
    } else if k == 0 {
      ToNatHighClear(w[1..], 0);
    } else {
      ToNatHighClear(w[1..], k - 1);
    }
  }

  /** Converting a value below 2^width to bits and back gives the value. */
  lemma {:induction false} ToNatFromNat(v: nat, width: nat)
    requires v < Pow2(width)
    ensures ToNat(FromNat(v, width)) == v
    decreases width
  {
    if width > 0 {
      var w := FromNat(v, width);
      assert w[1..] == FromNat(v / 2, width - 1);
      ToNatFromNat(v / 2, width - 1);
    }
  }

  /** A value below 2^k has no bit set from k up. */
  lemma {:induction false} FromNatHighClear(v: nat, width: nat, k: nat)
    requires v < Pow2(k)
    ensures forall j :: k <= j < width ==> !FromNat(v, width)[j]
    decreases width
  {
    if width > 0 {
      var w := FromNat(v, width);
      assert w[1..] == FromNat(v / 2, width - 1);
      if k == 0 {
        FromNatHighClear(v / 2, width - 1, 0);
      } else {
        FromNatHighClear(v / 2, width - 1, k - 1);
      }
    }
  }

  /** Words of equal width with equal values are equal. */
  lemma {:induction false} ToNatInjective(a: Word, b: Word)
    requires |a| == |b| && ToNat(a) == ToNat(b)
    ensures a == b
    decreases |a|
  {
    if a != [] {
      ToNatInjective(a[1..], b[1..]);
      assert a == [a[0]] + a[1..];
      assert b == [b[0]] + b[1..];
    }
  }

  lemma FromNatInjective(u: nat, v: nat, width: nat)
    requires u < Pow2(width) && v < Pow2(width) && FromNat(u, width) == FromNat(v, width)
    ensures u == v
  {
    ToNatFromNat(u, width);
    ToNatFromNat(v, width);
  }

  /** `a ^ b`. */
  function Xor(a: Word, b: Word): (r: Word)
    requires |a| == |b|
    ensures |r| == |a|
    ensures forall j :: 0 <= j < |a| ==> r[j] == (a[j] != b[j])
  {
    seq(|a|, j requires 0 <= j < |a| => a[j] != b[j])
  }

  /** `a & b`. */
  function And(a: Word, b: Word): (r: Word)
    requires |a| == |b|
    ensures |r| == |a|
    ensures forall j :: 0 <= j < |a| ==> r[j] == (a[j] && b[j])
  {
    seq(|a|, j requires 0 <= j < |a| => a[j] && b[j])
  }

  /** `(1 << i) - 1` in a word of the given width: the bits below i. */
  function LowMask(i: nat, width: nat): (m: Word)
    requires i < width
    ensures |m| == width
    ensures forall j :: 0 <= j < width ==> m[j] == (j < i)
  {
    seq(width, j => j < i)
  }

  /** `a >> s`: zeros come in at the top. */
  function Shr(a: Word, s: nat): (r: Word)
    ensures |r| == |a|
    ensures forall j :: 0 <= j < |a| ==> r[j] == (j + s < |a| && a[j + s])
  {
    seq(|a|, j requires 0 <= j < |a| => j + s < |a| && a[j + s])
  }

  /** `(a << 1) | b` for a one-bit b: the top bit falls off. */
  function ShlOr(a: Word, b: bool): (r: Word)
    requires |a| > 0
    ensures |r| == |a|
    ensures r[0] == b
    ensures forall j :: 1 <= j < |a| ==> r[j] == a[j - 1]
  {
    [b] + a[..|a| - 1]
  }

  /** Whether an odd number of the bits are set. */
  function Parity(s: seq<bool>): bool
    decreases |s|
  {
    if s == [] then false else s[0] != Parity(s[1..])
  }

  lemma {:induction false} ParityConcat(a: seq<bool>, b: seq<bool>)
    ensures Parity(a + b) == (Parity(a) != Parity(b))
    decreases |a|
  {
    if a != [] {
      assert (a + b)[0] == a[0];
      assert (a + b)[1..] == a[1..] + b;
      ParityConcat(a[1..], b);
    } else {
      assert a + b == b;
    }
  }
}
