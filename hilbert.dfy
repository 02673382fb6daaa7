/**
 * The Hilbert key of `math::sfc::hilbert_key`, duplicated as
 * `container::internal::hilbert_encode`: Skilling's transform of the
 * coordinates, the Gray index packed from their bits, and its conversion
 * to binary. The 32-bit coordinates and the 64-bit key are modelled as bit
 * sequences (module Words), so the XOR steps are reasoned about bit by bit.
 */
module Hilbert {
  import opened Ints
  import opened Wrappers
  import opened Words

  /** `hilbert_key` works on three 32-bit coordinates. */
  predicate IsCoords(c: seq<Word>) {
    |c| == 3 && |c[0]| == 32 && |c[1]| == 32 && |c[2]| == 32
  }

  /** Coordinate bits from `nb` up are clear: every coordinate is below 2^nb. */
  predicate HighClear(c: seq<Word>, nb: nat)
    requires IsCoords(c)
  {
    forall k, j :: 0 <= k < 3 && nb <= j < 32 ==> !c[k][j]
  }

  datatype HilbertError = Overflow // `std::overflow_error`

  /** `num_dims * num_bits > 64`, evaluated in `size_t` with num_bits converted from `int`. */
  predicate Overflows(numBits: int) {
    (3 * (numBits % U64_LIMIT)) % U64_LIMIT > 64
  }

  /** For an `int` argument the check rejects exactly the negative counts and those above 21. */
  lemma OverflowsIff(numBits: int)
    requires -0x8000_0000 <= numBits < 0x8000_0000
    ensures Overflows(numBits) <==> numBits < 0 || numBits > 21
  {
    if numBits >= 0 {
      assert numBits % U64_LIMIT == numBits;
      assert (3 * numBits) % U64_LIMIT == 3 * numBits;
    } else {
      assert numBits % U64_LIMIT == U64_LIMIT + numBits;
      assert 3 * (U64_LIMIT + numBits) == 2 * U64_LIMIT + (U64_LIMIT + 3 * numBits);
      assert (3 * (U64_LIMIT + numBits)) % U64_LIMIT == U64_LIMIT + 3 * numBits;
    }
  }

  /**
   * One inner step at level i for dimension d: if bit i of coordinate d is
   * set, flip the bits of coordinate 0 below i; otherwise exchange the bits
   * below i of coordinates 0 and d (through `t = (c0 ^ cd) & mask`).
   */
  function Step(c: seq<Word>, i: nat, d: nat): (r: seq<Word>)
    requires IsCoords(c) && i < 32 && d < 3
    ensures IsCoords(r)
  {
    var mask := LowMask(i, 32);
    if c[d][i] then c[0 := Xor(c[0], mask)]
    else
      var t := And(Xor(c[0], c[d]), mask);
      var c1 := c[0 := Xor(c[0], t)];
      c1[d := Xor(c1[d], t)]
  }

  /** A step changes only bits below i. */
  lemma StepKeepsHigh(c: seq<Word>, i: nat, d: nat)
    requires IsCoords(c) && i < 32 && d < 3
    ensures forall k, j :: 0 <= k < 3 && i <= j < 32 ==> Step(c, i, d)[k][j] == c[k][j]
  {
  }

  /** Applying a step twice gives the coordinates back. */
  lemma StepInvolution(c: seq<Word>, i: nat, d: nat)
    requires IsCoords(c) && i < 32 && d < 3
    ensures Step(Step(c, i, d), i, d) == c
  {
    var s := Step(c, i, d);
    StepKeepsHigh(c, i, d);
    assert s[d][i] == c[d][i];
    var s2 := Step(s, i, d);
    forall k | 0 <= k < 3 ensures s2[k] == c[k] {
      assert forall j :: 0 <= j < 32 ==> s2[k][j] == c[k][j];
    }
  }

  /** Dimensions d, d+1, ..., 2 of level i, in that order. */
  function LevelFrom(c: seq<Word>, i: nat, d: nat): (r: seq<Word>)
    requires IsCoords(c) && i < 32 && d <= 3
    ensures IsCoords(r)
    decreases 3 - d
  {
    if d == 3 then c else LevelFrom(Step(c, i, d), i, d + 1)
  }

  /** Levels i, i-1, ..., 0: the first loop of `hilbert_key`. */
  function TransformFrom(c: seq<Word>, i: int): (r: seq<Word>)
    requires IsCoords(c) && i < 32
    ensures IsCoords(r)
    decreases i + 1
  {
    if i < 0 then c else TransformFrom(LevelFrom(c, i, 0), i - 1)
  }

  lemma {:induction false} LevelInjective(a: seq<Word>, b: seq<Word>, i: nat, d: nat)
    requires IsCoords(a) && IsCoords(b) && i < 32 && d <= 3
    requires LevelFrom(a, i, d) == LevelFrom(b, i, d)
    ensures a == b
    decreases 3 - d
  {
    if d < 3 {
      LevelInjective(Step(a, i, d), Step(b, i, d), i, d + 1);
      StepInvolution(a, i, d);
      StepInvolution(b, i, d);
    }
  }

  lemma {:induction false} LevelKeepsHigh(c: seq<Word>, i: nat, d: nat)
    requires IsCoords(c) && i < 32 && d <= 3
    ensures forall k, j :: 0 <= k < 3 && i <= j < 32 ==> LevelFrom(c, i, d)[k][j] == c[k][j]
    decreases 3 - d
  {
    if d < 3 {
      StepKeepsHigh(c, i, d);
      LevelKeepsHigh(Step(c, i, d), i, d + 1);
    }
  }

  /** The transform is one-to-one. */
  lemma {:induction false} TransformInjective(a: seq<Word>, b: seq<Word>, i: int)
    requires IsCoords(a) && IsCoords(b) && i < 32
    requires TransformFrom(a, i) == TransformFrom(b, i)
    ensures a == b
    decreases i + 1
  {
    if i >= 0 {
      TransformInjective(LevelFrom(a, i, 0), LevelFrom(b, i, 0), i - 1);
      LevelInjective(a, b, i, 0);
    }
  }

  /** The transform below level nb leaves the bits from nb up as they were. */
  lemma {:induction false} TransformKeepsHigh(c: seq<Word>, i: int, nb: nat)
    requires IsCoords(c) && i < nb <= 32
    ensures forall k, j :: 0 <= k < 3 && nb <= j < 32 ==> TransformFrom(c, i)[k][j] == c[k][j]
    decreases i + 1
  {
    if i >= 0 {
      LevelKeepsHigh(c, i, 0);
      TransformKeepsHigh(LevelFrom(c, i, 0), i - 1, nb);
    }
  }

  // ---------------------------------------------------------------------
  // Gray index and its conversion to binary
  // ---------------------------------------------------------------------

  /** Bit i of each coordinate, in dimension order 0, 1, 2. */
  function LevelBits(c: seq<Word>, i: nat): (bits: seq<bool>)
    requires IsCoords(c) && i < 32
    ensures |bits| == 3
    ensures forall k :: 0 <= k < 3 ==> bits[k] == c[k][i]
  {
    [c[0][i], c[1][i], c[2][i]]
  }

  /** The bits the second loop of `hilbert_key` pushes for levels nb-1 down to i+1, in order. */
  function Top(c: seq<Word>, nb: nat, i: int): (bits: seq<bool>)
    requires IsCoords(c) && nb <= 32 && -1 <= i < nb
    ensures |bits| == 3 * (nb - 1 - i)
    decreases nb - i
  {
    if i == nb - 1 then [] else Top(c, nb, i + 1) + LevelBits(c, i + 1)
  }

  /** Bit k of level j, for every level above i, sits at position 3 (nb-1-j) + k of Top. */
  lemma {:induction false} TopAt(c: seq<Word>, nb: nat, i: int)
    requires IsCoords(c) && nb <= 32 && -1 <= i < nb
    ensures forall j, k :: i < j < nb && 0 <= k < 3 ==> Top(c, nb, i)[3 * (nb - 1 - j) + k] == c[k][j]
    decreases nb - i
  {
    if i < nb - 1 {
      TopAt(c, nb, i + 1);
    }
  }

  /**
   * The 64-bit word that pushing `bits` one at a time with `(g << 1) | bit`
   * builds from 0: the last bit pushed is bit 0.
   */
  function GrayOf(bits: seq<bool>): (g: Word)
    requires |bits| <= 64
    ensures |g| == 64
    ensures forall j :: 0 <= j < |bits| ==> g[j] == bits[|bits| - 1 - j]
    ensures forall j :: |bits| <= j < 64 ==> !g[j]
  {
    seq(64, j requires 0 <= j < 64 => j < |bits| && bits[|bits| - 1 - j])
  }

  lemma GrayOfPush(bits: seq<bool>, b: bool)
    requires |bits| < 64
    ensures GrayOf(bits + [b]) == ShlOr(GrayOf(bits), b)
  {
    var l := GrayOf(bits + [b]);
    var r := ShlOr(GrayOf(bits), b);
    assert forall j :: 0 <= j < 64 ==> l[j] == r[j];
  }

  lemma GrayOfInjective(a: seq<bool>, b: seq<bool>)
    requires |a| == |b| <= 64 && GrayOf(a) == GrayOf(b)
    ensures a == b
  {
    forall j | 0 <= j < |a| ensures a[j] == b[j] {
      assert GrayOf(a)[|a| - 1 - j] == GrayOf(b)[|a| - 1 - j];
    }
  }

  /** The six `bin ^= bin >> s` steps, s = 1, 2, 4, ..., 32. */
  function GrayToBinary(g: Word): (b: Word)
    requires |g| == 64
    ensures |b| == 64
  {
    var b1 := Xor(g, Shr(g, 1));
    var b2 := Xor(b1, Shr(b1, 2));
    var b3 := Xor(b2, Shr(b2, 4));
    var b4 := Xor(b3, Shr(b3, 8));
    var b5 := Xor(b4, Shr(b4, 16));
    Xor(b5, Shr(b5, 32))
  }

  function Min(a: nat, b: nat): nat { if a <= b then a else b }

  /** Bit j holds the parity of the s bits of g starting at j (fewer at the top). */
  predicate ParityWindows(w: Word, g: Word, s: nat)
    requires |w| == |g| == 64
  {
    forall j :: 0 <= j < 64 ==> w[j] == Parity(g[j..Min(j + s, 64)])
  }

  /** One cascade step doubles the window. */
  lemma CascadeStep(w: Word, g: Word, s: nat)
    requires |w| == |g| == 64 && s > 0 && ParityWindows(w, g, s)
    ensures ParityWindows(Xor(w, Shr(w, s)), g, 2 * s)
  {
    var r := Xor(w, Shr(w, s));
    forall j | 0 <= j < 64 ensures r[j] == Parity(g[j..Min(j + 2 * s, 64)]) {
      var m := Min(j + s, 64);
      var e := Min(j + 2 * s, 64);
      assert g[j..e] == g[j..m] + g[m..e];
      ParityConcat(g[j..m], g[m..e]);
      if j + s >= 64 {
        assert g[m..e] == [];
      }
    }
  }

  /** Bit j of the converted word is the parity of the Gray bits from j up. */
  lemma GrayToBinaryParity(g: Word)
    requires |g| == 64
    ensures forall j :: 0 <= j < 64 ==> GrayToBinary(g)[j] == Parity(g[j..])
  {
    forall j | 0 <= j < 64 ensures g[j] == Parity(g[j..Min(j + 1, 64)]) {
      assert g[j..j + 1] == [g[j]];
    }
    var b1 := Xor(g, Shr(g, 1));
    var b2 := Xor(b1, Shr(b1, 2));
    var b3 := Xor(b2, Shr(b2, 4));
    var b4 := Xor(b3, Shr(b3, 8));
    var b5 := Xor(b4, Shr(b4, 16));
    CascadeStep(g, g, 1);
    CascadeStep(b1, g, 2);
    CascadeStep(b2, g, 4);
    CascadeStep(b3, g, 8);
    CascadeStep(b4, g, 16);
    CascadeStep(b5, g, 32);
    forall j | 0 <= j < 64 ensures g[j..Min(j + 64, 64)] == g[j..] { }
  }

  /** `b ^ (b >> 1)` undoes the conversion: it is the binary-to-Gray map. */
  lemma GrayToBinaryInverse(g: Word)
    requires |g| == 64
    ensures Xor(GrayToBinary(g), Shr(GrayToBinary(g), 1)) == g
  {
    var b := GrayToBinary(g);
    GrayToBinaryParity(g);
    forall j | 0 <= j < 64 ensures (b[j] != (j + 1 < 64 && b[j + 1])) == g[j] {
      assert g[j..] == [g[j]] + g[j + 1..];
      ParityConcat([g[j]], g[j + 1..]);
      if j + 1 == 64 {
        assert g[j + 1..] == [];
      }
    }
  }

  lemma GrayToBinaryInjective(g: Word, h: Word)
    requires |g| == |h| == 64 && GrayToBinary(g) == GrayToBinary(h)
    ensures g == h
  {
    GrayToBinaryInverse(g);
    GrayToBinaryInverse(h);
  }

  /** Conversion keeps a Gray index below 2^k below 2^k: the shifts only move bits down. */
  lemma GrayToBinaryHighClear(g: Word, k: nat)
    requires |g| == 64 && forall j :: k <= j < 64 ==> !g[j]
    ensures forall j :: k <= j < 64 ==> !GrayToBinary(g)[j]
  {
    GrayToBinaryParity(g);
    forall j | k <= j < 64 ensures !Parity(g[j..]) {
      AllClearParity(g[j..]);
    }
  }

  lemma {:induction false} AllClearParity(s: seq<bool>)
    requires forall j :: 0 <= j < |s| ==> !s[j]
    ensures !Parity(s)
    decreases |s|
  {
    if s != [] {
      AllClearParity(s[1..]);
    }
  }

  // ---------------------------------------------------------------------
  // The key
  // ---------------------------------------------------------------------

  /** The Hilbert key of coordinates c at depth nb, as the source computes it. */
  function HilbertSpec(c: seq<Word>, nb: nat): (key: nat)
    requires IsCoords(c) && nb <= 21
  {
    ToNat(GrayToBinary(GrayOf(Top(TransformFrom(c, nb - 1), nb, -1))))
  }

  /**
   * The first loop of `hilbert_key`: for each level i from num_bits-1 down
   * to 0 and each dimension d, reflect or transpose the bits below i.
   */
  method Transform(coords: seq<Word>, numBits: nat) returns (cs: seq<Word>)
    requires IsCoords(coords) && numBits <= 21
    ensures cs == TransformFrom(coords, numBits - 1)
  {
    cs := coords;
    var i := numBits - 1;
    while i >= 0
      invariant -1 <= i < numBits && IsCoords(cs)
      invariant TransformFrom(cs, i) == TransformFrom(coords, numBits - 1)
      decreases i + 1
    {
      var mask := LowMask(i, 32);
      ghost var start := cs;
      var d := 0;
      while d < 3
        invariant 0 <= d <= 3 && IsCoords(cs)
        invariant LevelFrom(cs, i, d) == LevelFrom(start, i, 0)
      {
        if cs[d][i] {
          cs := cs[0 := Xor(cs[0], mask)];
        } else {
          var t := And(Xor(cs[0], cs[d]), mask);
          cs := cs[0 := Xor(cs[0], t)];
          cs := cs[d := Xor(cs[d], t)];
        }
        d := d + 1;
      }
      i := i - 1;
    }
  }

  /**
   * The second loop: starting from 0, push bit i of each coordinate, most
   * significant level first and dimensions in order, with `(g << 1) | bit`.
   */
  method PackGray(cs: seq<Word>, numBits: nat) returns (gray: Word)
    requires IsCoords(cs) && numBits <= 21
    ensures gray == GrayOf(Top(cs, numBits, -1))
  {
    gray := Zeros(64);
    assert gray == GrayOf([]);
    var i := numBits - 1;
    while i >= 0
      invariant -1 <= i < numBits
      invariant gray == GrayOf(Top(cs, numBits, i))
      decreases i + 1
    {
      ghost var top := Top(cs, numBits, i);
      ghost var level := LevelBits(cs, i);
      var d := 0;
      while d < 3
        invariant 0 <= d <= 3
        invariant gray == GrayOf(top + level[..d])
      {
        GrayOfPush(top + level[..d], cs[d][i]);
        assert top + level[..d + 1] == top + level[..d] + [cs[d][i]];
        gray := ShlOr(gray, cs[d][i]);
        d := d + 1;
      }
      assert level[..3] == level;
      i := i - 1;
    }
  }

  /**
   * `hilbert_key(coords, num_bits)`: rejects a depth whose 3 * num_bits
   * exceeds 64 bits, transforms a copy of the coordinates, packs their bits
   * into the Gray index and converts that to binary with six
   * `bin ^= bin >> s` steps.
   */
  method HilbertKey(coords: seq<Word>, numBits: int) returns (r: Result<nat, HilbertError>)
    requires IsCoords(coords) && -0x8000_0000 <= numBits < 0x8000_0000
    ensures r.Err? <==> numBits < 0 || numBits > 21
    ensures r.Err? ==> r.error == Overflow
    ensures r.Ok? ==> r.value == HilbertSpec(coords, numBits)
  {
    OverflowsIff(numBits);
    if Overflows(numBits) {
      return Err(Overflow);
    }
    var cs := Transform(coords, numBits);
    var gray := PackGray(cs, numBits);
    var bin := gray;
    bin := Xor(bin, Shr(bin, 1));
    bin := Xor(bin, Shr(bin, 2));
    bin := Xor(bin, Shr(bin, 4));
    bin := Xor(bin, Shr(bin, 8));
    bin := Xor(bin, Shr(bin, 16));
    bin := Xor(bin, Shr(bin, 32));
    return Ok(ToNat(bin));
  }

  /** With num_bits = 0 both loops are skipped and the key is 0. */
  lemma HilbertZeroBits(c: seq<Word>)
    requires IsCoords(c)
    ensures HilbertSpec(c, 0) == 0
  {
    var g := GrayOf([]);
    GrayToBinaryHighClear(g, 0);
    ToNatHighClear(GrayToBinary(g), 0);
  }

  /** The key uses at most 3 * num_bits bits. */
  lemma HilbertBound(c: seq<Word>, nb: nat)
    requires IsCoords(c) && nb <= 21
    ensures HilbertSpec(c, nb) < Pow2(3 * nb)
  {
    var g := GrayOf(Top(TransformFrom(c, nb - 1), nb, -1));
    GrayToBinaryHighClear(g, 3 * nb);
    ToNatHighClear(GrayToBinary(g), 3 * nb);
  }

  /** Coordinates below 2^nb are determined by the bits the packing loop pushes. */
  lemma PackInjective(a: seq<Word>, b: seq<Word>, nb: nat)
    requires IsCoords(a) && IsCoords(b) && nb <= 21
    requires HighClear(a, nb) && HighClear(b, nb)
    requires Top(a, nb, -1) == Top(b, nb, -1)
    ensures a == b
  {
    TopAt(a, nb, -1);
    TopAt(b, nb, -1);
    forall k | 0 <= k < 3 ensures a[k] == b[k] {
      forall j | 0 <= j < 32 ensures a[k][j] == b[k][j] {
        if j < nb {
          assert Top(a, nb, -1)[3 * (nb - 1 - j) + k] == Top(b, nb, -1)[3 * (nb - 1 - j) + k];
        }
      }
    }
  }

  /** Coordinates below 2^num_bits have distinct keys. */
  lemma HilbertInjective(a: seq<Word>, b: seq<Word>, nb: nat)
    requires IsCoords(a) && IsCoords(b) && nb <= 21
    requires HighClear(a, nb) && HighClear(b, nb)
    requires HilbertSpec(a, nb) == HilbertSpec(b, nb)
    ensures a == b
  {
    var ta := TransformFrom(a, nb - 1);
    var tb := TransformFrom(b, nb - 1);
    var ga := GrayOf(Top(ta, nb, -1));
    var gb := GrayOf(Top(tb, nb, -1));
    ToNatInjective(GrayToBinary(ga), GrayToBinary(gb));
    GrayToBinaryInjective(ga, gb);
    GrayOfInjective(Top(ta, nb, -1), Top(tb, nb, -1));
    TransformKeepsHigh(a, nb - 1, nb);
    TransformKeepsHigh(b, nb - 1, nb);
    PackInjective(ta, tb, nb);
    TransformInjective(a, b, nb - 1);
  }
}
