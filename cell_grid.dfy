/**
 * The grid of the linked-cells containers: how many cells each axis gets,
 * how a (cell, type) pair names a bin, how cell coordinates become cell ids
 * (flat, or through a space-filling-curve ordering), the neighbour lookup,
 * the cell of a position and the cells a box overlaps.
 *
 * The grid has Nx * Ny * Nz cells plus one extra "outside" cell whose id is
 * Nx * Ny * Nz; particles that leave the grid are binned there.
 */
module CellGrids {
  import opened Ints
  import opened Grids
  import opened ParticleRecords
  import opened Seqs
  import CellOrderings

  /** An integer displacement between cells (an `int3`). */
  datatype Offset = Offset(x: int, y: int, z: int)

  /**
   * A configured grid: cells per axis, number of particle types, the
   * optional cell ordering (empty when none is configured), the domain's
   * lower corner and the inverse cell size per axis.
   */
  datatype CellGrid = CellGrid(axes: Dims, nTypes: nat, ordering: seq<nat>, origin: Vec3, invCellSize: Vec3)

  /**
   * At least one cell per axis, cell ids that fit the 32-bit cell index
   * type, an ordering that is either absent or a permutation of the grid
   * cells, and inverse cell sizes that are never negative.
   */
  predicate Valid(g: CellGrid) {
    && g.axes.x >= 1 && g.axes.y >= 1 && g.axes.z >= 1
    && Count(g.axes) < U32_LIMIT
    && (g.ordering == [] || CellOrderings.IsPermutation(g.ordering, Count(g.axes)))
    && g.invCellSize.0 >= 0.0 && g.invCellSize.1 >= 0.0 && g.invCellSize.2 >= 0.0
  }

  function GridCells(g: CellGrid): nat {
    Count(g.axes)
  }

  /** The id of the extra cell that collects everything outside the grid. */
  function OutsideCell(g: CellGrid): nat {
    GridCells(g)
  }

  /** Grid cells plus the outside cell. */
  function NumCells(g: CellGrid): nat {
    GridCells(g) + 1
  }

  function NumBins(g: CellGrid): nat {
    Mul(NumCells(g), g.nTypes)
  }

  /**
   * a * b by repeated addition. Bin counts and bin indices multiply cell
   * counts that are products themselves; written this way, those products
   * stay out of proofs that only move bins around.
   */
  function Mul(a: nat, b: nat): nat {
    if a == 0 then 0 else Mul(a - 1, b) + b
  }

  lemma {:induction false} MulIsProduct(a: nat, b: nat)
    ensures Mul(a, b) == a * b
  {
    if a > 0 {
      MulIsProduct(a - 1, b);
      Distribute(a - 1, 1, b);
    }
  }

  /**
   * Cells along one axis from the floored ratio extent / cell width: at
   * least one, otherwise the floor itself.
   */
  function AxisCells(floor: int): (n: nat)
    ensures n >= 1
    ensures n >= floor && (floor >= 1 ==> n == floor)
  {
    if floor < 1 then 1 else floor
  }

  /** The bin of particles of type t in cell c. */
  function BinIndex(g: CellGrid, c: nat, t: nat): nat {
    Mul(c, g.nTypes) + t
  }

  /** Bins decode back to their cell and type: no two (cell, type) pairs share a bin. */
  lemma BinIndexDecode(g: CellGrid, c: nat, t: nat)
    requires t < g.nTypes
    ensures BinIndex(g, c, t) / g.nTypes == c && BinIndex(g, c, t) % g.nTypes == t
  {
    MulIsProduct(c, g.nTypes);
    DivMod(BinIndex(g, c, t), g.nTypes);
    RadixUnique(c, t, BinIndex(g, c, t) / g.nTypes, BinIndex(g, c, t) % g.nTypes, g.nTypes);
  }

  /** The bins of a valid (cell, type) pair fill 0 .. NumBins - 1. */
  lemma BinIndexBound(g: CellGrid, c: nat, t: nat)
    requires c < NumCells(g) && t < g.nTypes
    ensures BinIndex(g, c, t) < NumBins(g)
  {
    MulIsProduct(c, g.nTypes);
    MulIsProduct(NumCells(g), g.nTypes);
    DigitBelow(c, t, NumCells(g), g.nTypes);
  }

  /** The bins of one cell are consecutive: type 0 of cell c + 1 follows the last type of cell c. */
  lemma BinsOfCell(g: CellGrid, c: nat, t: nat)
    requires t < g.nTypes
    ensures BinIndex(g, c, 0) <= BinIndex(g, c, t) < BinIndex(g, c + 1, 0)
    ensures BinIndex(g, c + 1, 0) == BinIndex(g, c, 0) + g.nTypes
  {
    MulIsProduct(c, g.nTypes);
    MulIsProduct(c + 1, g.nTypes);
    Distribute(c, 1, g.nTypes);
  }

  /**
   * The id of the cell at grid coordinates (x, y, z): its flat index
   * z * Nx * Ny + y * Nx + x, or the ordering's rank of that flat index.
   */
  function CellPosToIdx(g: CellGrid, x: nat, y: nat, z: nat): (c: nat)
    requires Valid(g) && InGrid(g.axes, x, y, z)
    ensures c < GridCells(g)
    ensures g.ordering == [] ==> c == Flat(g.axes, x, y, z)
  {
    FlatBound(g.axes, x, y, z);
    if g.ordering == [] then Flat(g.axes, x, y, z) else g.ordering[Flat(g.axes, x, y, z)]
  }

  /** Different cells get different ids, with or without an ordering. */
  lemma CellPosToIdxInjective(g: CellGrid, x: nat, y: nat, z: nat, x': nat, y': nat, z': nat)
    requires Valid(g) && InGrid(g.axes, x, y, z) && InGrid(g.axes, x', y', z')
    ensures CellPosToIdx(g, x, y, z) == CellPosToIdx(g, x', y', z') ==> x == x' && y == y' && z == z'
  {
    FlatBound(g.axes, x, y, z);
    FlatBound(g.axes, x', y', z');
    FlatInjective(g.axes, x, y, z, x', y', z');
    var f, f' := Flat(g.axes, x, y, z), Flat(g.axes, x', y', z');
    if g.ordering != [] && f != f' {
      if f < f' {
        assert g.ordering[f] != g.ordering[f'];
      } else {
        assert g.ordering[f'] != g.ordering[f];
      }
    }
  }

  /** Without an ordering every grid cell id is reached, by the cell it decodes to. */
  lemma FlatIdsOnto(g: CellGrid, c: nat)
    requires Valid(g) && g.ordering == [] && c < GridCells(g)
    ensures InGrid(g.axes, CellOf(g.axes, c).0, CellOf(g.axes, c).1, CellOf(g.axes, c).2)
    ensures CellPosToIdx(g, CellOf(g.axes, c).0, CellOf(g.axes, c).1, CellOf(g.axes, c).2) == c
  {
  }

  predicate InAxes(g: CellGrid, x: int, y: int, z: int) {
    0 <= x < g.axes.x && 0 <= y < g.axes.y && 0 <= z < g.axes.z
  }

  /** The cell id of the neighbour at `offset`, or the outside cell when it leaves the grid. */
  function NeighborIdx(g: CellGrid, x: nat, y: nat, z: nat, offset: Offset): (c: nat)
    requires Valid(g) && InGrid(g.axes, x, y, z)
    ensures c == OutsideCell(g) <==> !InAxes(g, x + offset.x, y + offset.y, z + offset.z)
    ensures InAxes(g, x + offset.x, y + offset.y, z + offset.z) ==>
      c == CellPosToIdx(g, x + offset.x, y + offset.y, z + offset.z)
  {
    var nx, ny, nz := x + offset.x, y + offset.y, z + offset.z;
    if nx < 0 || ny < 0 || nz < 0 || nx >= g.axes.x || ny >= g.axes.y || nz >= g.axes.z then
      OutsideCell(g)
    else
      CellPosToIdx(g, nx, ny, nz)
  }

  /** A scaled coordinate: distance from the corner times the inverse cell size, truncated. */
  function Scaled(p: real, inv: real): int {
    (p * inv).Floor
  }

  lemma ScaledNonneg(p: real, inv: real)
    requires p >= 0.0 && inv >= 0.0
    ensures Scaled(p, inv) >= 0
  {
    assert p * inv >= 0.0;
  }

  /**
   * The cell of a position: the outside cell when the position lies below
   * the domain's lower corner on some axis, or when a scaled coordinate is
   * past the last cell of its axis; otherwise the cell at the scaled
   * coordinates. Positions are exact reals here.
   */
  function CellIndexFromPosition(g: CellGrid, position: Vec3): (c: nat)
    requires Valid(g)
    ensures c < NumCells(g)
    ensures c == OutsideCell(g) <==>
      || position.0 - g.origin.0 < 0.0 || position.1 - g.origin.1 < 0.0 || position.2 - g.origin.2 < 0.0
      || Scaled(position.0 - g.origin.0, g.invCellSize.0) >= g.axes.x
      || Scaled(position.1 - g.origin.1, g.invCellSize.1) >= g.axes.y
      || Scaled(position.2 - g.origin.2, g.invCellSize.2) >= g.axes.z
  {
    var px, py, pz := position.0 - g.origin.0, position.1 - g.origin.1, position.2 - g.origin.2;
    if px < 0.0 || py < 0.0 || pz < 0.0 then
      OutsideCell(g)
    else
      ScaledNonneg(px, g.invCellSize.0);
      ScaledNonneg(py, g.invCellSize.1);
      ScaledNonneg(pz, g.invCellSize.2);
      var x, y, z := Scaled(px, g.invCellSize.0), Scaled(py, g.invCellSize.1), Scaled(pz, g.invCellSize.2);
      if x >= g.axes.x || y >= g.axes.y || z >= g.axes.z then
        OutsideCell(g)
      else
        CellPosToIdx(g, x, y, z)
  }

  /** Where a particle is binned: its cell, then its type within the cell. */
  function BinOf(g: CellGrid, r: Record): nat
    requires Valid(g)
  {
    BinIndex(g, CellIndexFromPosition(g, r.position), r.ptype)
  }

  /** With dense types, every particle's bin is a real bin of the grid. */
  lemma BinOfBound(g: CellGrid, r: Record)
    requires Valid(g) && r.ptype < g.nTypes
    ensures BinOf(g, r) < NumBins(g)
  {
    BinIndexBound(g, CellIndexFromPosition(g, r.position), r.ptype);
  }

  // ---- the cells a box overlaps ----

  function Clamp(v: int, hi: nat): (r: nat)
    ensures r <= hi && (0 <= v <= hi ==> r == v)
  {
    if v < 0 then 0 else if v > hi then hi else v
  }

  function Ceil(r: real): int {
    -((-r).Floor)
  }

  /** Grid coordinates, as a triple. */
  type Cell = (nat, nat, nat)

  predicate InBox(p: Cell, lo: Cell, hi: Cell) {
    lo.0 <= p.0 <= hi.0 && lo.1 <= p.1 <= hi.1 && lo.2 <= p.2 <= hi.2
  }

  /** The number of values lo .. hi, none when hi < lo. */
  function Span(lo: nat, hi: nat): nat {
    if hi + 1 <= lo then 0 else hi + 1 - lo
  }

  /** The number of values lo .. x - 1. */
  function Len(lo: nat, x: nat): nat {
    if x <= lo then 0 else x - lo
  }

  /** One more block of `a` entries: k blocks and one make k + 1. */
  lemma Blocks(k: nat, a: nat, prev: nat, total: nat)
    requires prev == k * a && total == prev + a
    ensures total == (k + 1) * a
  {
  }

  /**
   * The clamped corner cells of a box: the floor of the scaled lower corner
   * and the ceiling of the scaled upper corner, each clamped to 0 .. N - 1.
   */
  function RegionCorners(g: CellGrid, minScaled: Vec3, maxScaled: Vec3): (corners: (Cell, Cell))
    requires Valid(g)
    ensures InGrid(g.axes, corners.0.0, corners.0.1, corners.0.2) && InGrid(g.axes, corners.1.0, corners.1.1, corners.1.2)
  {
    ((Clamp(minScaled.0.Floor, g.axes.x - 1), Clamp(minScaled.1.Floor, g.axes.y - 1), Clamp(minScaled.2.Floor, g.axes.z - 1)),
     (Clamp(Ceil(maxScaled.0), g.axes.x - 1), Clamp(Ceil(maxScaled.1), g.axes.y - 1), Clamp(Ceil(maxScaled.2), g.axes.z - 1)))
  }

  /** The ids the z loop pushes: cells (x, y, lo .. z - 1). */
  function ZIds(g: CellGrid, x: nat, y: nat, lo: nat, z: nat): (s: seq<nat>)
    requires Valid(g) && x < g.axes.x && y < g.axes.y && z <= g.axes.z
    ensures forall i :: 0 <= i < |s| ==> s[i] < GridCells(g)
    decreases z
  {
    if z <= lo then [] else ZIds(g, x, y, lo, z - 1) + [CellPosToIdx(g, x, y, z - 1)]
  }

  /** The ids the y loop pushes: rows lo.1 .. y - 1 of column x. */
  function YIds(g: CellGrid, x: nat, lo: Cell, hi: Cell, y: nat): (s: seq<nat>)
    requires Valid(g) && x < g.axes.x && y <= g.axes.y && hi.2 < g.axes.z
    ensures forall i :: 0 <= i < |s| ==> s[i] < GridCells(g)
    decreases y
  {
    if y <= lo.1 then [] else YIds(g, x, lo, hi, y - 1) + ZIds(g, x, y - 1, lo.2, hi.2 + 1)
  }

  /** The ids the x loop pushes: columns lo.0 .. x - 1. */
  function XIds(g: CellGrid, lo: Cell, hi: Cell, x: nat): (s: seq<nat>)
    requires Valid(g) && x <= g.axes.x && hi.1 < g.axes.y && hi.2 < g.axes.z
    ensures forall i :: 0 <= i < |s| ==> s[i] < GridCells(g)
    decreases x
  {
    if x <= lo.0 then [] else XIds(g, lo, hi, x - 1) + YIds(g, x - 1, lo, hi, hi.1 + 1)
  }

  lemma {:induction false} ZIdsLength(g: CellGrid, x: nat, y: nat, lo: nat, z: nat)
    requires Valid(g) && x < g.axes.x && y < g.axes.y && z <= g.axes.z
    ensures |ZIds(g, x, y, lo, z)| == Len(lo, z)
    decreases z
  {
    if z > lo {
      ZIdsLength(g, x, y, lo, z - 1);
    }
  }

  lemma {:induction false} YIdsLength(g: CellGrid, x: nat, lo: Cell, hi: Cell, y: nat)
    requires Valid(g) && x < g.axes.x && y <= g.axes.y && hi.2 < g.axes.z
    ensures |YIds(g, x, lo, hi, y)| == Len(lo.1, y) * Span(lo.2, hi.2)
    decreases y
  {
    if y > lo.1 {
      YIdsLength(g, x, lo, hi, y - 1);
      ZIdsLength(g, x, y - 1, lo.2, hi.2 + 1);
      Blocks(Len(lo.1, y - 1), Span(lo.2, hi.2), |YIds(g, x, lo, hi, y - 1)|, |YIds(g, x, lo, hi, y)|);
    }
  }

  lemma {:induction false} XIdsLength(g: CellGrid, lo: Cell, hi: Cell, x: nat)
    requires Valid(g) && x <= g.axes.x && hi.1 < g.axes.y && hi.2 < g.axes.z
    ensures |XIds(g, lo, hi, x)| == Len(lo.0, x) * (Span(lo.1, hi.1) * Span(lo.2, hi.2))
    decreases x
  {
    if x > lo.0 {
      XIdsLength(g, lo, hi, x - 1);
      YIdsLength(g, x - 1, lo, hi, hi.1 + 1);
      Blocks(Len(lo.0, x - 1), Span(lo.1, hi.1) * Span(lo.2, hi.2), |XIds(g, lo, hi, x - 1)|, |XIds(g, lo, hi, x)|);
    }
  }

  lemma {:induction false} ZIdsHas(g: CellGrid, x: nat, y: nat, lo: nat, z: nat, p: Cell)
    requires Valid(g) && x < g.axes.x && y < g.axes.y && z <= g.axes.z && InGrid(g.axes, p.0, p.1, p.2)
    ensures CellPosToIdx(g, p.0, p.1, p.2) in ZIds(g, x, y, lo, z) <==> p.0 == x && p.1 == y && lo <= p.2 < z
    decreases z
  {
    if z > lo {
      ZIdsHas(g, x, y, lo, z - 1, p);
      CellPosToIdxInjective(g, p.0, p.1, p.2, x, y, z - 1);
      Seqs.InConcat(CellPosToIdx(g, p.0, p.1, p.2), ZIds(g, x, y, lo, z - 1), [CellPosToIdx(g, x, y, z - 1)]);
    }
  }

  lemma {:induction false} YIdsHas(g: CellGrid, x: nat, lo: Cell, hi: Cell, y: nat, p: Cell)
    requires Valid(g) && x < g.axes.x && y <= g.axes.y && hi.2 < g.axes.z && InGrid(g.axes, p.0, p.1, p.2)
    ensures CellPosToIdx(g, p.0, p.1, p.2) in YIds(g, x, lo, hi, y) <==> p.0 == x && lo.1 <= p.1 < y && lo.2 <= p.2 <= hi.2
    decreases y
  {
    if y > lo.1 {
      YIdsHas(g, x, lo, hi, y - 1, p);
      ZIdsHas(g, x, y - 1, lo.2, hi.2 + 1, p);
      Seqs.InConcat(CellPosToIdx(g, p.0, p.1, p.2), YIds(g, x, lo, hi, y - 1), ZIds(g, x, y - 1, lo.2, hi.2 + 1));
    }
  }

  lemma {:induction false} XIdsHas(g: CellGrid, lo: Cell, hi: Cell, x: nat, p: Cell)
    requires Valid(g) && x <= g.axes.x && hi.1 < g.axes.y && hi.2 < g.axes.z && InGrid(g.axes, p.0, p.1, p.2)
    ensures CellPosToIdx(g, p.0, p.1, p.2) in XIds(g, lo, hi, x) <==> lo.0 <= p.0 < x && lo.1 <= p.1 <= hi.1 && lo.2 <= p.2 <= hi.2
    decreases x
  {
    if x > lo.0 {
      XIdsHas(g, lo, hi, x - 1, p);
      YIdsHas(g, x - 1, lo, hi, hi.1 + 1, p);
      Seqs.InConcat(CellPosToIdx(g, p.0, p.1, p.2), XIds(g, lo, hi, x - 1), YIds(g, x - 1, lo, hi, hi.1 + 1));
    }
  }

  /** The z loop of `get_cells_in_region`. */
  method RegionColumn(g: CellGrid, x: nat, y: nat, lo: nat, hi: nat) returns (cells: seq<nat>)
    requires Valid(g) && x < g.axes.x && y < g.axes.y && lo < g.axes.z && hi < g.axes.z
    ensures cells == ZIds(g, x, y, lo, hi + 1)
  {
    cells := [];
    var z := lo;
    while z <= hi
      invariant lo <= z && (z <= hi + 1 || z == lo)
      invariant cells == ZIds(g, x, y, lo, z)
    {
      cells := cells + [CellPosToIdx(g, x, y, z)];
      z := z + 1;
    }
  }

  /** The y loop of `get_cells_in_region`. */
  method RegionSlab(g: CellGrid, x: nat, lo: Cell, hi: Cell) returns (cells: seq<nat>)
    requires Valid(g) && x < g.axes.x && InGrid(g.axes, lo.0, lo.1, lo.2) && hi.1 < g.axes.y && hi.2 < g.axes.z
    ensures cells == YIds(g, x, lo, hi, hi.1 + 1)
  {
    cells := [];
    var y := lo.1;
    while y <= hi.1
      invariant lo.1 <= y && (y <= hi.1 + 1 || y == lo.1)
      invariant cells == YIds(g, x, lo, hi, y)
    {
      var column := RegionColumn(g, x, y, lo.2, hi.2);
      cells := cells + column;
      y := y + 1;
    }
  }

  /** The ids of every grid cell in the box lo .. hi, x-major and z fastest. */
  function RegionIds(g: CellGrid, lo: Cell, hi: Cell): seq<nat>
    requires Valid(g) && InGrid(g.axes, hi.0, hi.1, hi.2)
  {
    XIds(g, lo, hi, hi.0 + 1)
  }

  /**
   * `get_cells_in_region`: every cell of the clamped box, x outermost and
   * z innermost, followed by the outside cell when the box is not within
   * the domain. The scaled corners and the within-domain test are
   * floating-point results and come in as parameters.
   */
  method GetCellsInRegion(g: CellGrid, minScaled: Vec3, maxScaled: Vec3, withinDomain: bool) returns (cells: seq<nat>)
    requires Valid(g)
    ensures var corners := RegionCorners(g, minScaled, maxScaled);
      cells == RegionIds(g, corners.0, corners.1) + (if withinDomain then [] else [OutsideCell(g)])
  {
    var corners := RegionCorners(g, minScaled, maxScaled);
    var lo, hi := corners.0, corners.1;
    cells := [];
    var x := lo.0;
    while x <= hi.0
      invariant lo.0 <= x && (x <= hi.0 + 1 || x == lo.0)
      invariant cells == XIds(g, lo, hi, x)
    {
      var slab := RegionSlab(g, x, lo, hi);
      cells := cells + slab;
      x := x + 1;
    }
    if !withinDomain {
      cells := cells + [OutsideCell(g)];
    }
  }

  /**
   * The region lists the ids of exactly the grid cells inside the box, one
   * entry per cell; the outside cell is not among them, and is added only
   * for a box that is not within the domain.
   */
  lemma RegionCells(g: CellGrid, lo: Cell, hi: Cell, p: Cell)
    requires Valid(g) && InGrid(g.axes, hi.0, hi.1, hi.2) && InGrid(g.axes, p.0, p.1, p.2)
    ensures |RegionIds(g, lo, hi)| == Span(lo.0, hi.0) * (Span(lo.1, hi.1) * Span(lo.2, hi.2))
    ensures CellPosToIdx(g, p.0, p.1, p.2) in RegionIds(g, lo, hi) <==> InBox(p, lo, hi)
    ensures OutsideCell(g) !in RegionIds(g, lo, hi)
  {
    assert |RegionIds(g, lo, hi)| == Span(lo.0, hi.0) * (Span(lo.1, hi.1) * Span(lo.2, hi.2)) by {
      XIdsLength(g, lo, hi, hi.0 + 1);
      assert Len(lo.0, hi.0 + 1) == Span(lo.0, hi.0);
    }
    assert CellPosToIdx(g, p.0, p.1, p.2) in RegionIds(g, lo, hi) <==> InBox(p, lo, hi) by {
      XIdsHas(g, lo, hi, hi.0 + 1, p);
    }
  }
}
