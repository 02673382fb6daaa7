/**
 * `container::morton_order` and `container::hilbert_order`: rank the cells
 * of an Nx x Ny x Nz grid along a space-filling curve. Each cell gets a
 * curve key; the (flat index, key) pairs are sorted by key, and
 * `ordering[flat]` is the position of that cell in the sorted list.
 */
module CellOrderings {
  import opened Ints
  import opened Wrappers
  import opened Words
  import opened Seqs
  import opened Grids
  import opened BitPatterns
  import Morton
  import Hilbert

  /** `uint3 cells_per_axis`: each axis count fits in 32 bits. */
  predicate IsUint3(g: Dims) {
    g.x < U32_LIMIT && g.y < U32_LIMIT && g.z < U32_LIMIT
  }

  /** The `Coord` helper struct: a cell's flat index and its curve key. */
  datatype Coord = Coord(flat: nat, key: nat)

  /** A curve key as a function of the cell coordinates. */
  type KeyFn = (nat, nat, nat) -> nat

  /** The key of the cell whose flat index is p. */
  function KeyOf(g: Dims, key: KeyFn, p: nat): nat
    requires p < Count(g)
  {
    var c := CellOf(g, p);
    key(c.0, c.1, c.2)
  }

  /** Reference list: entry p is flat index p with its cell's key. */
  function Cells(g: Dims, key: KeyFn): (cs: seq<Coord>)
    ensures |cs| == Count(g)
  {
    seq(Count(g), p requires 0 <= p < Count(g) => Coord(p, KeyOf(g, key, p)))
  }

  /** `coords` is a prefix of the reference list. */
  ghost predicate IsPrefix(coords: seq<Coord>, g: Dims, key: KeyFn) {
    && |coords| <= Count(g)
    && forall p :: 0 <= p < |coords| ==> coords[p] == Coord(p, KeyOf(g, key, p))
  }

  /**
   * Pushing cell (x, y, z) when the list holds exactly the cells before it
   * in loop order extends the prefix by one.
   */
  lemma PushCell(coords: seq<Coord>, g: Dims, key: KeyFn, x: nat, y: nat, z: nat)
    requires InGrid(g, x, y, z) && IsPrefix(coords, g, key) && |coords| == Flat(g, x, y, z)
    ensures IsPrefix(coords + [Coord(Flat(g, x, y, z), key(x, y, z))], g, key)
  {
    CellOfFlat(g, x, y, z);
  }

  /** Once all Nx Ny Nz cells are pushed, the list is the reference list. */
  lemma PrefixComplete(coords: seq<Coord>, g: Dims, key: KeyFn)
    requires IsPrefix(coords, g, key) && |coords| == Count(g)
    ensures coords == Cells(g, key)
  {
  }

  // ---------------------------------------------------------------------
  // Sorting by key and the rank table
  // ---------------------------------------------------------------------

  predicate SortedByKey(s: seq<Coord>) {
    forall i, j :: 0 <= i < j < |s| ==> s[i].key <= s[j].key
  }

  /** A cell with a key no larger than the head of a sorted list can go in front of it. */
  lemma SortedCons(c: Coord, rest: seq<Coord>)
    requires SortedByKey(rest) && (rest != [] ==> c.key <= rest[0].key)
    ensures SortedByKey([c] + rest)
  {
    var r := [c] + rest;
    forall i, j | 0 <= i < j < |r|
      ensures r[i].key <= r[j].key
    {
      if i == 0 && j > 1 {
        assert rest[0].key <= rest[j - 1].key;
      }
    }
  }

  function InsertByKey(c: Coord, s: seq<Coord>): (r: seq<Coord>)
    requires SortedByKey(s)
    ensures SortedByKey(r)
    ensures multiset(r) == multiset(s) + multiset{c}
    ensures r[0] == c || (s != [] && r[0] == s[0])
    decreases |s|
  {
    if s == [] then [c]
    else if c.key <= s[0].key then
      SortedCons(c, s);
      [c] + s
    else
      var rest := InsertByKey(c, s[1..]);
      assert s == [s[0]] + s[1..];
      SortedCons(s[0], rest);
      [s[0]] + rest
  }

  /**
   * `std::ranges::sort` by key: a permutation of its input in non-decreasing
   * key order. The library sort is not stable; this one is, which is one of
   * the orders it may produce.
   */
  function SortByKey(s: seq<Coord>): (r: seq<Coord>)
    ensures SortedByKey(r)
    ensures multiset(r) == multiset(s)
    decreases |s|
  {
    if s == [] then []
    else
      assert s == [s[0]] + s[1..];
      InsertByKey(s[0], SortByKey(s[1..]))
  }

  /** Entry p of the list describes flat index p. */
  predicate Indexed(cells: seq<Coord>) {
    forall p :: 0 <= p < |cells| ==> cells[p].flat == p
  }

  /** A vector of length n holding each of 0 .. n-1 exactly once. */
  predicate IsPermutation(ordering: seq<nat>, n: nat) {
    && |ordering| == n
    && (forall f :: 0 <= f < n ==> ordering[f] < n)
    && (forall f1, f2 :: 0 <= f1 < f2 < n ==> ordering[f1] != ordering[f2])
  }

  /** A cell ranked before another has a key no larger. */
  predicate RankedByKey(ordering: seq<nat>, cells: seq<Coord>)
    requires |ordering| == |cells|
  {
    forall f1, f2 :: 0 <= f1 < |cells| && 0 <= f2 < |cells| && ordering[f1] < ordering[f2] ==>
      cells[f1].key <= cells[f2].key
  }

  /** No two cells share a key. */
  predicate DistinctKeys(cells: seq<Coord>) {
    forall p1, p2 :: 0 <= p1 < p2 < |cells| ==> cells[p1].key != cells[p2].key
  }

  /** Ranks follow keys exactly: one cell comes before another iff its key is smaller. */
  predicate StrictlyRankedByKey(ordering: seq<nat>, cells: seq<Coord>)
    requires |ordering| == |cells|
  {
    forall f1, f2 :: 0 <= f1 < |cells| && 0 <= f2 < |cells| ==>
      (ordering[f1] < ordering[f2] <==> cells[f1].key < cells[f2].key)
  }

  /** With distinct keys, a permutation ranked by key ranks strictly by key. */
  lemma DistinctKeysStrict(ordering: seq<nat>, cells: seq<Coord>)
    requires |ordering| == |cells| && IsPermutation(ordering, |cells|)
    requires RankedByKey(ordering, cells) && DistinctKeys(cells)
    ensures StrictlyRankedByKey(ordering, cells)
  {
    forall f1, f2 | 0 <= f1 < |cells| && 0 <= f2 < |cells|
      ensures ordering[f1] < ordering[f2] <==> cells[f1].key < cells[f2].key
    {
      if f1 != f2 {
        assert cells[f1].key != cells[f2].key;
        assert ordering[f1] != ordering[f2];
      }
    }
  }

  /** The sorted list holds each cell once: entry j is the cell its flat index names. */
  lemma SortedCells(cells: seq<Coord>, sorted: seq<Coord>)
    requires Indexed(cells) && multiset(sorted) == multiset(cells)
    ensures |sorted| == |cells|
    ensures forall j :: 0 <= j < |sorted| ==> sorted[j].flat < |cells| && sorted[j] == cells[sorted[j].flat]
    ensures FlatsArePositions(sorted, |cells|)
    ensures forall f :: 0 <= f < |cells| ==> cells[f] in sorted
  {
    assert |sorted| == |multiset(sorted)| == |cells|;
    forall j | 0 <= j < |sorted|
      ensures sorted[j].flat < |cells| && sorted[j] == cells[sorted[j].flat]
    {
      assert sorted[j] in multiset(cells);
    }
    assert Distinct(cells);
    DistinctPermutation(sorted, cells);
    forall f | 0 <= f < |cells|
      ensures cells[f] in sorted
    {
      assert cells[f] in multiset(sorted);
    }
  }

  /** Positions in a key-sorted list of the cells are a permutation ranked by key. */
  lemma RanksFromSorted(ordering: seq<nat>, cells: seq<Coord>, sorted: seq<Coord>)
    requires Indexed(cells) && SortedByKey(sorted)
    requires |ordering| == |cells| == |sorted|
    requires forall f :: 0 <= f < |cells| ==> ordering[f] < |cells| && sorted[ordering[f]] == cells[f]
    ensures IsPermutation(ordering, |cells|)
    ensures RankedByKey(ordering, cells)
  {
    forall f1, f2 | 0 <= f1 < f2 < |cells|
      ensures ordering[f1] != ordering[f2]
    {
      assert cells[f1].flat != cells[f2].flat;
    }
  }

  /** Flat indices that a sorted list of n cells carries, each once and each below n. */
  ghost predicate FlatsArePositions(sorted: seq<Coord>, n: nat) {
    && |sorted| == n
    && (forall j :: 0 <= j < n ==> sorted[j].flat < n)
    && (forall j1, j2 :: 0 <= j1 < j2 < n ==> sorted[j1].flat != sorted[j2].flat)
  }

  /** The lookup loop: `cell_ordering[coords[i].original_flat_index] = i` for each i in turn. */
  method FillRanks(sorted: seq<Coord>, n: nat) returns (ordering: seq<nat>)
    requires FlatsArePositions(sorted, n)
    ensures |ordering| == n
    ensures forall j :: 0 <= j < n ==> ordering[sorted[j].flat] == j
  {
    ordering := seq(n, _ => 0);
    for i := 0 to n
      invariant |ordering| == n
      invariant forall j :: 0 <= j < i ==> ordering[sorted[j].flat] == j
    {
      ordering := ordering[sorted[i].flat := i];
    }
  }

  /**
   * The shared tail of both orderings: sort the (flat, key) list by key,
   * then write each cell's sorted position at its flat index.
   */
  method RankByKey(cells: seq<Coord>) returns (ordering: seq<nat>)
    requires Indexed(cells)
    ensures IsPermutation(ordering, |cells|)
    ensures RankedByKey(ordering, cells)
  {
    var sorted := SortByKey(cells);
    SortedCells(cells, sorted);
    ordering := FillRanks(sorted, |cells|);
    RanksOfCells(ordering, cells, sorted);
    RanksFromSorted(ordering, cells, sorted);
  }

  /** Every cell sits in the sorted list at the position the lookup table gives it. */
  lemma RanksOfCells(ordering: seq<nat>, cells: seq<Coord>, sorted: seq<Coord>)
    requires Indexed(cells)
    requires |ordering| == |cells| == |sorted|
    requires forall j :: 0 <= j < |sorted| ==> sorted[j].flat < |cells| && sorted[j] == cells[sorted[j].flat]
    requires forall f :: 0 <= f < |cells| ==> cells[f] in sorted
    requires forall j :: 0 <= j < |sorted| ==> ordering[sorted[j].flat] == j
    ensures forall f :: 0 <= f < |cells| ==> ordering[f] < |cells| && sorted[ordering[f]] == cells[f]
  {
    forall f | 0 <= f < |cells|
      ensures ordering[f] < |cells| && sorted[ordering[f]] == cells[f]
    {
      var j :| 0 <= j < |sorted| && sorted[j] == cells[f];
      assert sorted[j].flat == f;
    }
  }

  // ---------------------------------------------------------------------
  // Morton order
  // ---------------------------------------------------------------------

  /** `morton_3d_64(x, y, z)` of three `uint32_t` loop counters, as an unsigned number. */
  function MortonAt(x: nat, y: nat, z: nat): nat {
    Morton.MortonKey(U32Bits(x), U32Bits(y), U32Bits(z)) as nat
  }

  function MortonCells(g: Dims): seq<Coord> {
    Cells(g, MortonAt)
  }

  /** The three nested loops of `morton_order`: one (flat, key) entry per cell, x fastest. */
  method MortonCoords(g: Dims) returns (coords: seq<Coord>)
    requires IsUint3(g) && Count(g) < U32_LIMIT
    ensures coords == MortonCells(g)
  {
    coords := [];
    for z := 0 to g.z
      invariant IsPrefix(coords, g, MortonAt) && |coords| == Flat(g, 0, 0, z)
    {
      for y := 0 to g.y
        invariant IsPrefix(coords, g, MortonAt) && |coords| == Flat(g, 0, y, z)
      {
        for x := 0 to g.x
          invariant IsPrefix(coords, g, MortonAt) && |coords| == Flat(g, x, y, z)
        {
          var m := Morton.MortonKey(U32Bits(x), U32Bits(y), U32Bits(z)) as nat;
          FlatBound(g, x, y, z);
          var flat := Wrap32(Flat(g, x, y, z));
          PushCell(coords, g, MortonAt, x, y, z);
          coords := coords + [Coord(flat, m)];
        }
        RowEnd(g, y, z);
      }
      PlaneEnd(g, z);
    }
    GridEnd(g);
    PrefixComplete(coords, g, MortonAt);
  }

  /**
   * `morton_order(cells_per_axis)`: a permutation of the flat indices in
   * which cells are ranked by Morton key; when every axis has at most 2^21
   * cells the keys are distinct and the ranks follow them exactly.
   */
  method MortonOrder(g: Dims) returns (ordering: seq<nat>)
    requires IsUint3(g) && Count(g) < U32_LIMIT
    ensures IsPermutation(ordering, Count(g))
    ensures RankedByKey(ordering, MortonCells(g))
    ensures g.x <= 0x200000 && g.y <= 0x200000 && g.z <= 0x200000 ==>
      StrictlyRankedByKey(ordering, MortonCells(g))
  {
    var coords := MortonCoords(g);
    ordering := RankByKey(coords);
    if g.x <= 0x200000 && g.y <= 0x200000 && g.z <= 0x200000 {
      MortonDistinct(g);
      DistinctKeysStrict(ordering, coords);
    }
  }

  /** With at most 2^21 cells per axis, different cells have different Morton keys. */
  lemma MortonDistinct(g: Dims)
    requires g.x <= 0x200000 && g.y <= 0x200000 && g.z <= 0x200000
    ensures DistinctKeys(MortonCells(g))
  {
    var cells := MortonCells(g);
    forall p1, p2 | 0 <= p1 < p2 < |cells|
      ensures cells[p1].key != cells[p2].key
    {
      var c1 := CellOf(g, p1);
      var c2 := CellOf(g, p2);
      MortonAtInjective(c1.0, c1.1, c1.2, c2.0, c2.1, c2.2);
    }
  }

  /** Equal Morton keys mean equal low 21 bits on each axis. */
  lemma MortonKeyLowBits(x1: bv32, y1: bv32, z1: bv32, x2: bv32, y2: bv32, z2: bv32)
    requires Morton.MortonKey(x1, y1, z1) == Morton.MortonKey(x2, y2, z2)
    ensures forall j :: 0 <= j < 21 ==> Bit(x1, j) == Bit(x2, j)
    ensures forall j :: 0 <= j < 21 ==> Bit(y1, j) == Bit(y2, j)
    ensures forall j :: 0 <= j < 21 ==> Bit(z1, j) == Bit(z2, j)
  {
    forall j | 0 <= j < 21
      ensures Bit(x1, j) == Bit(x2, j) && Bit(y1, j) == Bit(y2, j) && Bit(z1, j) == Bit(z2, j)
    {
      Morton.MortonLowBits(x1, y1, z1, x2, y2, z2, j);
    }
  }

  /** A 64-bit word is determined by its value. */
  lemma Bv64Value(a: bv64, b: bv64)
    requires a as nat == b as nat
    ensures a == b
  {
    assert (a as nat) as bv64 == a;
    assert (b as nat) as bv64 == b;
  }

  /** Coordinates below 2^21 are determined by their Morton key. */
  lemma MortonAtInjective(x1: nat, y1: nat, z1: nat, x2: nat, y2: nat, z2: nat)
    requires x1 < 0x200000 && y1 < 0x200000 && z1 < 0x200000
    requires x2 < 0x200000 && y2 < 0x200000 && z2 < 0x200000
    ensures MortonAt(x1, y1, z1) == MortonAt(x2, y2, z2) ==> x1 == x2 && y1 == y2 && z1 == z2
  {
    if MortonAt(x1, y1, z1) == MortonAt(x2, y2, z2) {
      Bv64Value(Morton.MortonKey(U32Bits(x1), U32Bits(y1), U32Bits(z1)),
                Morton.MortonKey(U32Bits(x2), U32Bits(y2), U32Bits(z2)));
      MortonKeyLowBits(U32Bits(x1), U32Bits(y1), U32Bits(z1), U32Bits(x2), U32Bits(y2), U32Bits(z2));
      Pow2Values();
      U32BitsInjective(x1, x2, 21);
      U32BitsInjective(y1, y2, 21);
      U32BitsInjective(z1, z2, 21);
    }
  }

  // ---------------------------------------------------------------------
  // Hilbert order
  // ---------------------------------------------------------------------

  /** `std::bit_width(v)`: the number of bits needed to write v. */
  function BitWidth(v: nat): (b: nat)
    ensures v < Pow2(b)
    ensures b > 0 ==> Pow2(b - 1) <= v
  {
    if v == 0 then 0 else 1 + BitWidth(v / 2)
  }

  function MaxDim(g: Dims): (m: nat)
    ensures m == g.x || m == g.y || m == g.z
    ensures g.x <= m && g.y <= m && g.z <= m
  {
    if g.x >= g.y && g.x >= g.z then g.x else if g.y >= g.z then g.y else g.z
  }

  /** The curve depth bit_width(max_dim - 1) (0 when max_dim is 0). */
  function Depth(g: Dims): nat {
    BitWidth(if MaxDim(g) > 0 then MaxDim(g) - 1 else 0)
  }

  /**
   * The depth is the fewest bits that hold every coordinate of the grid,
   * and it is at most 21 (so the key fits in 64 bits) exactly when no axis
   * has more than 2^21 cells.
   */
  lemma DepthFits(g: Dims)
    ensures MaxDim(g) <= Pow2(Depth(g))
    ensures Depth(g) > 0 ==> Pow2(Depth(g) - 1) < MaxDim(g)
    ensures Depth(g) <= 21 <==> MaxDim(g) <= 0x200000
    ensures IsUint3(g) ==> Depth(g) <= 32
  {
    var b := Depth(g);
    Pow2Values();
    if b > 21 {
      Pow2Monotone(21, b - 1);
    } else {
      Pow2Monotone(b, 21);
    }
    if b > 32 {
      Pow2Monotone(32, b - 1);
    }
  }

  /** The coordinate vector `{x, y, z}` of 32-bit words. */
  function Coords3(x: nat, y: nat, z: nat): (c: seq<Word>)
    ensures Hilbert.IsCoords(c)
  {
    [FromNat(x, 32), FromNat(y, 32), FromNat(z, 32)]
  }

  /** `hilbert_encode_3d(x, y, z, bits)` where it does not throw. */
  function HilbertAt(nb: nat, x: nat, y: nat, z: nat): nat {
    if nb <= 21 then Hilbert.HilbertSpec(Coords3(x, y, z), nb) else 0
  }

  function HilbertKeys(nb: nat): KeyFn {
    (x, y, z) => HilbertAt(nb, x, y, z)
  }

  function HilbertCells(g: Dims): seq<Coord> {
    Cells(g, HilbertKeys(Depth(g)))
  }

  /**
   * The three nested loops of `hilbert_order`. Each key call throws once
   * 3 * bits exceeds 64, so the first cell already fails then; an empty
   * grid makes no call.
   */
  method HilbertCoords(g: Dims, bits: nat) returns (r: Result<seq<Coord>, Hilbert.HilbertError>)
    requires IsUint3(g) && Count(g) < U32_LIMIT && bits <= 32
    ensures r.Err? <==> Count(g) > 0 && bits > 21
    ensures r.Err? ==> r.error == Hilbert.Overflow
    ensures r.Ok? ==> r.value == Cells(g, HilbertKeys(bits))
  {
    var coords: seq<Coord> := [];
    for z := 0 to g.z
      invariant IsPrefix(coords, g, HilbertKeys(bits)) && |coords| == Flat(g, 0, 0, z)
      invariant coords != [] ==> bits <= 21
    {
      for y := 0 to g.y
        invariant IsPrefix(coords, g, HilbertKeys(bits)) && |coords| == Flat(g, 0, y, z)
        invariant coords != [] ==> bits <= 21
      {
        for x := 0 to g.x
          invariant IsPrefix(coords, g, HilbertKeys(bits)) && |coords| == Flat(g, x, y, z)
          invariant coords != [] ==> bits <= 21
        {
          var k := Hilbert.HilbertKey(Coords3(x, y, z), bits);
          FlatBound(g, x, y, z);
          if k.Err? {
            return Err(k.error);
          }
          var flat := Wrap32(Flat(g, x, y, z));
          PushCell(coords, g, HilbertKeys(bits), x, y, z);
          coords := coords + [Coord(flat, k.value)];
        }
        RowEnd(g, y, z);
      }
      PlaneEnd(g, z);
    }
    GridEnd(g);
    PrefixComplete(coords, g, HilbertKeys(bits));
    return Ok(coords);
  }

  /**
   * `hilbert_order(cells_per_axis)`. The depth is bit_width(max_dim - 1);
   * the key overflows exactly when some axis has more than 2^21 cells, and
   * an empty grid computes no key and cannot fail. Otherwise the keys are
   * distinct and the ranks follow them exactly.
   */
  method HilbertOrder(g: Dims) returns (r: Result<seq<nat>, Hilbert.HilbertError>)
    requires IsUint3(g) && Count(g) < U32_LIMIT
    ensures r.Err? <==> Count(g) > 0 && MaxDim(g) > 0x200000
    ensures r.Err? ==> r.error == Hilbert.Overflow
    ensures r.Ok? ==> IsPermutation(r.value, Count(g)) && StrictlyRankedByKey(r.value, HilbertCells(g))
  {
    var maxDim := MaxDim(g);
    var bits := BitWidth(if maxDim > 0 then maxDim - 1 else 0);
    DepthFits(g);
    var coords := HilbertCoords(g, bits);
    if coords.Err? {
      return Err(coords.error);
    }
    var ordering := RankByKey(coords.value);
    if Count(g) > 0 {
      HilbertDistinct(g);
      DistinctKeysStrict(ordering, coords.value);
    }
    return Ok(ordering);
  }

  /** Within the curve's depth, different cells have different Hilbert keys. */
  lemma HilbertDistinct(g: Dims)
    requires MaxDim(g) <= 0x200000
    ensures DistinctKeys(HilbertCells(g))
  {
    var nb := Depth(g);
    DepthFits(g);
    var cells := HilbertCells(g);
    forall p1, p2 | 0 <= p1 < p2 < |cells|
      ensures cells[p1].key != cells[p2].key
    {
      var c1 := CellOf(g, p1);
      var c2 := CellOf(g, p2);
      HilbertAtInjective(nb, c1.0, c1.1, c1.2, c2.0, c2.1, c2.2);
    }
  }

  /** Coordinates below 2^32 are determined by their bit sequences. */
  lemma Coords3Injective(x1: nat, y1: nat, z1: nat, x2: nat, y2: nat, z2: nat)
    requires x1 < U32_LIMIT && y1 < U32_LIMIT && z1 < U32_LIMIT
    requires x2 < U32_LIMIT && y2 < U32_LIMIT && z2 < U32_LIMIT
    requires Coords3(x1, y1, z1) == Coords3(x2, y2, z2)
    ensures x1 == x2 && y1 == y2 && z1 == z2
  {
    Pow2Values();
    assert Coords3(x1, y1, z1)[0] == Coords3(x2, y2, z2)[0];
    assert Coords3(x1, y1, z1)[1] == Coords3(x2, y2, z2)[1];
    assert Coords3(x1, y1, z1)[2] == Coords3(x2, y2, z2)[2];
    FromNatInjective(x1, x2, 32);
    FromNatInjective(y1, y2, 32);
    FromNatInjective(z1, z2, 32);
  }

  /** Coordinates below 2^nb (nb <= 21) are determined by their Hilbert key. */
  lemma HilbertAtInjective(nb: nat, x1: nat, y1: nat, z1: nat, x2: nat, y2: nat, z2: nat)
    requires nb <= 21
    requires x1 < Pow2(nb) && y1 < Pow2(nb) && z1 < Pow2(nb)
    requires x2 < Pow2(nb) && y2 < Pow2(nb) && z2 < Pow2(nb)
    ensures HilbertAt(nb, x1, y1, z1) == HilbertAt(nb, x2, y2, z2) ==> x1 == x2 && y1 == y2 && z1 == z2
  {
    if HilbertAt(nb, x1, y1, z1) == HilbertAt(nb, x2, y2, z2) {
      CoordsHighClear(nb, x1, y1, z1);
      CoordsHighClear(nb, x2, y2, z2);
      Hilbert.HilbertInjective(Coords3(x1, y1, z1), Coords3(x2, y2, z2), nb);
      Pow2Monotone(nb, 32);
      Pow2Values();
      Coords3Injective(x1, y1, z1, x2, y2, z2);
    }
  }

  lemma CoordsHighClear(nb: nat, x: nat, y: nat, z: nat)
    requires x < Pow2(nb) && y < Pow2(nb) && z < Pow2(nb)
    ensures Hilbert.HighClear(Coords3(x, y, z), nb)
  {
    FromNatHighClear(x, 32, nb);
    FromNatHighClear(y, 32, nb);
    FromNatHighClear(z, 32, nb);
  }

  // ---------------------------------------------------------------------
  // The 2 x 2 x 2 grid
  // ---------------------------------------------------------------------

  /** A permutation that keeps the order of its indices is the identity. */
  lemma MonotonePermutationIdentity(ordering: seq<nat>, n: nat)
    requires IsPermutation(ordering, n)
    requires forall f1, f2 :: 0 <= f1 < f2 < n ==> ordering[f1] < ordering[f2]
    ensures forall f :: 0 <= f < n ==> ordering[f] == f
  {
    forall f | 0 <= f < n
      ensures ordering[f] == f
    {
      AtLeastIndex(ordering, n, f);
      AtMostIndex(ordering, n, f);
    }
  }

  lemma {:induction false} AtLeastIndex(ordering: seq<nat>, n: nat, f: nat)
    requires |ordering| == n && f < n
    requires forall f1, f2 :: 0 <= f1 < f2 < n ==> ordering[f1] < ordering[f2]
    ensures ordering[f] >= f
  {
    if f > 0 {
      AtLeastIndex(ordering, n, f - 1);
    }
  }

  lemma {:induction false} AtMostIndex(ordering: seq<nat>, n: nat, f: nat)
    requires IsPermutation(ordering, n) && f < n
    requires forall f1, f2 :: 0 <= f1 < f2 < n ==> ordering[f1] < ordering[f2]
    ensures ordering[f] <= f
    decreases n - f
  {
    if f + 1 < n {
      AtMostIndex(ordering, n, f + 1);
    }
  }

  /** On the 2 x 2 x 2 grid each cell's Morton key is its flat index. */
  lemma UnitCubeKeys()
    ensures forall p :: 0 <= p < 8 ==> MortonCells(Dims(2, 2, 2))[p].key == p
  {
    var g := Dims(2, 2, 2);
    forall p | 0 <= p < 8
      ensures MortonCells(g)[p].key == p
    {
      var c := CellOf(g, p);
      UnitCubeKey(c.0, c.1, c.2);
    }
  }

  lemma UnitCubeKey(x: nat, y: nat, z: nat)
    requires x < 2 && y < 2 && z < 2
    ensures MortonAt(x, y, z) == x + 2 * y + 4 * z
  {
    U32BitsSmall(x);
    U32BitsSmall(y);
    U32BitsSmall(z);
    var bx, by', bz := U32Bits(x), U32Bits(y), U32Bits(z);
    Morton.MortonUnitCube(bx, by', bz);
    SmallKey(bx, by', bz, x, y, z);
  }

  /** Three single bits placed at bits 0, 1 and 2 read as the number x + 2 y + 4 z. */
  lemma SmallKey(bx: bv32, by': bv32, bz: bv32, x: nat, y: nat, z: nat)
    requires bx == (if x == 0 then 0 else 1) && by' == (if y == 0 then 0 else 1) && bz == (if z == 0 then 0 else 1)
    requires x < 2 && y < 2 && z < 2
    ensures ((bx as bv64) + 2 * (by' as bv64) + 4 * (bz as bv64)) as nat == x + 2 * y + 4 * z
  {
  }

  /** A strict ranking of cells whose keys are their indices is the identity. */
  lemma KeysAreRanks(ordering: seq<nat>, cells: seq<Coord>)
    requires IsPermutation(ordering, |cells|) && StrictlyRankedByKey(ordering, cells)
    requires forall p :: 0 <= p < |cells| ==> cells[p].key == p
    ensures forall f :: 0 <= f < |cells| ==> ordering[f] == f
  {
    forall f1, f2 | 0 <= f1 < f2 < |cells|
      ensures ordering[f1] < ordering[f2]
    {
      assert cells[f1].key < cells[f2].key;
    }
    MonotonePermutationIdentity(ordering, |cells|);
  }

  /** The Morton order of the 2 x 2 x 2 grid is the identity. */
  method UnitCubeMortonOrder() returns (ordering: seq<nat>)
    ensures ordering == [0, 1, 2, 3, 4, 5, 6, 7]
  {
    var g := Dims(2, 2, 2);
    ordering := MortonOrder(g);
    UnitCubeKeys();
    KeysAreRanks(ordering, MortonCells(g));
  }
}
