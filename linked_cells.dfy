/**
 * The plain linked-cells container of `linked_cells.hpp`, over the
 * array-of-structs storage.
 *
 * `build` stores the particles, plans the grid, regroups the storage by
 * (cell, type) bin with a counting sort and lists the neighbouring and
 * wrapped cell pairs; the interaction batches are then read off the bin
 * start indices. The container keeps a scratch vector of records that the
 * counting sort scatters into before the two vectors are exchanged.
 */
module LinkedCells {
  import opened Wrappers
  import opened Ints
  import opened Grids
  import opened ParticleRecords
  import opened Seqs
  import opened CellGrids
  import opened CountingSort
  import Stencils
  import CellBatches
  import BuildBoundary
  import AoSContainers

  // ---- planning the grid ----

  /** An entry of the force schema: whether it is active, whether some type uses it, and its cutoff. */
  datatype SchemaInteraction = SchemaInteraction(isActive: bool, usedByTypes: bool, cutoff: real)

  /** An interaction whose cutoff bounds the cell size: active and used by at least one type. */
  predicate Counts(s: SchemaInteraction) {
    s.isActive && s.usedByTypes
  }

  /**
   * The largest cutoff among the interactions that count, or 0 when none
   * of them has a positive cutoff.
   */
  function MaxActiveCutoff(xs: seq<SchemaInteraction>): (m: real)
    ensures m >= 0.0
    ensures forall i :: 0 <= i < |xs| && Counts(xs[i]) ==> xs[i].cutoff <= m
    ensures m == 0.0 || exists i :: 0 <= i < |xs| && Counts(xs[i]) && xs[i].cutoff == m
  {
    if xs == [] then 0.0
    else
      var m := MaxActiveCutoff(xs[..|xs| - 1]);
      var last := xs[|xs| - 1];
      assert forall i :: 0 <= i < |xs| - 1 ==> xs[..|xs| - 1][i] == xs[i];
      if Counts(last) && last.cutoff > m then last.cutoff else m
  }

  /** The scan of the schema in `setup_cell_grid`: a cutoff replaces the maximum only when it is larger. */
  method ScanMaxCutoff(xs: seq<SchemaInteraction>) returns (m: real)
    ensures m == MaxActiveCutoff(xs)
  {
    m := 0.0;
    for i := 0 to |xs|
      invariant m == MaxActiveCutoff(xs[..i])
    {
      assert xs[..i + 1][..i] == xs[..i];
      if xs[i].isActive && xs[i].usedByTypes && xs[i].cutoff > m {
        m := xs[i].cutoff;
      }
    }
    assert xs[..|xs|] == xs;
  }

  function MinOf(e: Vec3): real {
    if e.0 <= e.1 && e.0 <= e.2 then e.0 else if e.1 <= e.2 then e.1 else e.2
  }

  /** Extents that are positive on every axis, as any domain has. */
  predicate PositiveExtent(e: Vec3) {
    e.0 > 0.0 && e.1 > 0.0 && e.2 > 0.0
  }

  /**
   * The width the cells aim for: the configured hint; otherwise the
   * largest cutoff, replaced by half the smallest extent when there is no
   * cutoff or it is wider than the domain. Without a hint the target is
   * positive and fits the domain, and a cutoff that fits is kept.
   */
  function TargetCellSize(hint: Option<real>, maxCutoff: real, minExtent: real): (h: real)
    requires maxCutoff >= 0.0 && minExtent > 0.0
    ensures hint.Some? ==> h == hint.value
    ensures hint.None? ==> 0.0 < h <= minExtent
    ensures hint.None? && 0.0 < maxCutoff <= minExtent ==> h == maxCutoff
    ensures hint.None? && (maxCutoff == 0.0 || maxCutoff > minExtent) ==> h == minExtent / 2.0
  {
    match hint
    case Some(v) => v
    case None => if maxCutoff == 0.0 || maxCutoff > minExtent then minExtent / 2.0 else maxCutoff
  }

  /** Cells along one axis: the extent over the target width, floored, at least 1. */
  function AxisCount(extent: real, h: real): nat
    requires h > 0.0
  {
    AxisCells((extent / h).Floor)
  }

  /** The cell width along one axis: the extent stretched evenly over the cells. */
  function CellWidth(extent: real, n: nat): real
    requires n >= 1
  {
    extent / n as real
  }

  /** The cached inverse width, 0 for a zero width. */
  function Inverse(w: real): (inv: real)
    ensures w > 0.0 ==> inv * w == 1.0
    ensures w <= 0.0 ==> inv == 0.0
  {
    if w > 0.0 then 1.0 / w else 0.0
  }

  /**
   * The cells are never narrower than the target width when the axis is at
   * least that long, and never wider than the axis; a shorter axis gets a
   * single cell spanning it.
   */
  lemma CellWidthCoversTarget(extent: real, h: real)
    requires h > 0.0 && extent > 0.0
    ensures extent >= h ==> h <= CellWidth(extent, AxisCount(extent, h)) <= extent
    ensures extent < h ==> AxisCount(extent, h) == 1 && CellWidth(extent, AxisCount(extent, h)) == extent
  {
    var q := extent / h;
    QuotientVsOne(extent, h);
    if extent >= h {
      var n := AxisCount(extent, h);
      assert n == q.Floor && 1.0 <= n as real <= q;
      WidthBetween(extent, h, n as real);
    }
  }

  /** The quotient extent / h reaches 1 exactly when the extent reaches h. */
  lemma QuotientVsOne(extent: real, h: real)
    requires h > 0.0
    ensures extent / h >= 1.0 <==> extent >= h
  {
    var q := extent / h;
    assert extent == q * h;
    if q >= 1.0 {
      assert q * h >= 1.0 * h;
    } else {
      assert q * h < 1.0 * h;
    }
  }

  /** Spreading the extent over n cells, 1 <= n <= extent / h, gives widths between h and the extent. */
  lemma WidthBetween(extent: real, h: real, n: real)
    requires h > 0.0 && extent > 0.0 && 1.0 <= n <= extent / h
    ensures h <= extent / n <= extent
  {
    var w := extent / n;
    assert n * w == extent;
    assert n * h <= extent by {
      assert n * h <= (extent / h) * h;
    }
  }

  /** The axes `setup_cell_grid` chooses for a domain of the given extent. */
  function PlanAxes(hint: Option<real>, xs: seq<SchemaInteraction>, extent: Vec3): (d: Dims)
    requires hint.Some? ==> hint.value > 0.0
    requires PositiveExtent(extent)
    ensures d.x >= 1 && d.y >= 1 && d.z >= 1
  {
    var h := TargetCellSize(hint, MaxActiveCutoff(xs), MinOf(extent));
    Dims(AxisCount(extent.0, h), AxisCount(extent.1, h), AxisCount(extent.2, h))
  }

  /** The cell widths that go with those axes. */
  function PlanCellSize(hint: Option<real>, xs: seq<SchemaInteraction>, extent: Vec3): Vec3
    requires hint.Some? ==> hint.value > 0.0
    requires PositiveExtent(extent)
  {
    var d := PlanAxes(hint, xs, extent);
    (CellWidth(extent.0, d.x), CellWidth(extent.1, d.y), CellWidth(extent.2, d.z))
  }

  /**
   * The grid of `setup_cell_grid`: the planned axes, one type slot per
   * schema type, no cell ordering, the domain's lower corner and the
   * inverse widths.
   */
  function PlanGrid(hint: Option<real>, xs: seq<SchemaInteraction>, nTypes: nat, origin: Vec3, extent: Vec3): (g: CellGrid)
    requires hint.Some? ==> hint.value > 0.0
    requires PositiveExtent(extent)
    ensures Count(PlanAxes(hint, xs, extent)) < U32_LIMIT ==> Valid(g)
    ensures g.axes == PlanAxes(hint, xs, extent) && g.nTypes == nTypes && g.ordering == []
  {
    var w := PlanCellSize(hint, xs, extent);
    assert w.0 > 0.0 && w.1 > 0.0 && w.2 > 0.0;
    CellGrid(PlanAxes(hint, xs, extent), nTypes, [], origin, (Inverse(w.0), Inverse(w.1), Inverse(w.2)))
  }

  // ---- the counting sort ----

  /** The bin the counting sort files a record under: its cell, then its type. */
  function BinKey(g: CellGrid): Record -> nat {
    r => if Valid(g) then BinOf(g, r) else 0
  }

  /** The cell a record's position falls in. */
  function CellKey(g: CellGrid): Record -> nat {
    (r: Record) => if Valid(g) then CellIndexFromPosition(g, r.position) else 0
  }

  predicate TypesBelow(rs: seq<Record>, nTypes: nat) {
    forall i :: 0 <= i < |rs| ==> rs[i].ptype < nTypes
  }

  /**
   * The state `rebuild_structure` leaves, for records filed under `key`
   * into `numBins` bins: the bin starts (with the sentinel) are the
   * exclusive prefix sums of the bin sizes, every record sits at the slot
   * the stable scatter gives it, and the id map points every moved id at
   * its new slot and leaves the other entries alone.
   */
  predicate Rebuilt(key: Record -> nat, numBins: nat, before: seq<Record>, starts: seq<nat>, after: seq<Record>, oldMap: seq<nat>, newMap: seq<nat>) {
    var keys := KeysOf(before, key);
    && |starts| == numBins + 1 && StartsOf(starts, keys)
    && |after| == |before|
    && (forall i :: 0 <= i < |before| ==> after[Dest(keys, i)] == before[i])
    && |newMap| == |oldMap|
    && (forall i :: 0 <= i < |before| ==> before[i].id < |newMap| && newMap[before[i].id] == Dest(keys, i))
    && (forall id :: 0 <= id < |oldMap| && (forall i :: 0 <= i < |before| ==> before[i].id != id) ==>
          newMap[id] == oldMap[id])
  }

  predicate KeyedBelow(key: Record -> nat, rs: seq<Record>, numBins: nat) {
    forall i :: 0 <= i < |rs| ==> key(rs[i]) < numBins
  }

  /** With dense types every record's bin is a bin of the grid, below the sentinel. */
  lemma GridKeys(g: CellGrid, rs: seq<Record>)
    requires Valid(g) && TypesBelow(rs, g.nTypes)
    ensures KeyedBelow(BinKey(g), rs, NumBins(g))
  {
    forall i | 0 <= i < |rs|
      ensures BinKey(g)(rs[i]) < NumBins(g)
    {
      BinOfBound(g, rs[i]);
    }
  }

  /**
   * After a rebuild the bin starts begin at 0, never decrease and end at
   * the particle count; the storage holds the same records, ordered by bin;
   * and the id map points every stored id at its slot.
   */
  lemma RebuildLaysOutBins(key: Record -> nat, numBins: nat, before: seq<Record>, starts: seq<nat>, after: seq<Record>, oldMap: seq<nat>, newMap: seq<nat>)
    requires KeyedBelow(key, before, numBins)
    requires Rebuilt(key, numBins, before, starts, after, oldMap, newMap)
    ensures starts[0] == 0 && starts[|starts| - 1] == |before|
    ensures forall b :: 0 <= b < |starts| - 1 ==> starts[b] <= starts[b + 1]
    ensures multiset(after) == multiset(before)
    ensures forall d1, d2 :: 0 <= d1 <= d2 < |after| ==> key(after[d1]) <= key(after[d2])
    ensures MapsIds(after, newMap)
  {
    var keys := KeysOf(before, key);
    assert KeysBelow(keys, |starts| - 1);
    StartsShape(starts, keys);
    PermutedMultiset(before, keys, after);
    RebuiltSorted(before, key, numBins, after);
    RebuiltMap(before, keys, numBins, after, newMap);
  }

  /** The scatter is stable: two records of the same bin keep their relative order. */
  lemma RebuildIsStable(key: Record -> nat, numBins: nat, before: seq<Record>, starts: seq<nat>, after: seq<Record>, oldMap: seq<nat>, newMap: seq<nat>, i: nat, j: nat)
    requires Rebuilt(key, numBins, before, starts, after, oldMap, newMap)
    requires i < j < |before| && key(before[i]) == key(before[j])
    ensures Dest(KeysOf(before, key), i) < Dest(KeysOf(before, key), j)
    ensures after[Dest(KeysOf(before, key), i)] == before[i] && after[Dest(KeysOf(before, key), j)] == before[j]
  {
    DestOrder(KeysOf(before, key), i, j);
  }

  /**
   * A slot that lies in the range of key k lies in the range of key b
   * exactly when b is k: the ranges of different keys do not overlap.
   */
  lemma RangesDisjoint(keys: seq<nat>, k: nat, b: nat, d: nat)
    requires Below(keys, k) <= d < Below(keys, k + 1)
    ensures Below(keys, b) <= d < Below(keys, b + 1) <==> k == b
  {
    if k < b {
      BelowMono(keys, k + 1, b);
    } else if k > b {
      BelowMono(keys, b + 1, k);
    }
  }

  /** Slot d of the rebuilt storage lies in bin b's range exactly when its record belongs to bin b. */
  lemma BinRangeHolds(key: Record -> nat, numBins: nat, before: seq<Record>, starts: seq<nat>, after: seq<Record>, oldMap: seq<nat>, newMap: seq<nat>, b: nat, d: nat)
    requires KeyedBelow(key, before, numBins)
    requires Rebuilt(key, numBins, before, starts, after, oldMap, newMap)
    requires b < numBins && d < |after|
    ensures starts[b] <= d < starts[b + 1] <==> key(after[d]) == b
  {
    var keys := KeysOf(before, key);
    RebuiltInBins(before, key, numBins, after);
    RangesDisjoint(keys, key(after[d]), b, d);
  }

  /**
   * `cell_index_range(c)`: from the start of the cell's first bin to the
   * start of the next cell's first bin, which for the outside cell is the
   * sentinel.
   */
  function CellRange(g: CellGrid, starts: seq<nat>, c: nat): (nat, nat)
    requires |starts| == NumBins(g) + 1 && c < NumCells(g)
  {
    if g.nTypes == 0 then (starts[0], starts[0])
    else
      BinsOfCell(g, c, g.nTypes - 1);
      BinIndexBound(g, c, g.nTypes - 1);
      (starts[BinIndex(g, c, 0)], starts[BinIndex(g, c, 0) + g.nTypes])
  }

  /** The scatter only moves records, so the types stay dense. */
  lemma TypesKept(before: seq<Record>, keys: seq<nat>, m: nat, after: seq<Record>, n: nat)
    requires |keys| == |before| == |after| && KeysBelow(keys, m)
    requires forall i :: 0 <= i < |before| ==> after[Dest(keys, i)] == before[i]
    requires TypesBelow(before, n)
    ensures TypesBelow(after, n)
  {
    forall d | 0 <= d < |after|
      ensures after[d].ptype < n
    {
      SlotOrigin(before, keys, m, after, d);
    }
  }

  /**
   * Slot d of the rebuilt storage lies in the joint range of bins
   * lo .. hi - 1 exactly when its record belongs to one of them.
   */
  lemma BlockRangeHolds(key: Record -> nat, numBins: nat, before: seq<Record>, starts: seq<nat>, after: seq<Record>, oldMap: seq<nat>, newMap: seq<nat>, lo: nat, hi: nat, d: nat)
    requires KeyedBelow(key, before, numBins)
    requires Rebuilt(key, numBins, before, starts, after, oldMap, newMap)
    requires lo <= hi <= numBins && d < |after|
    ensures starts[lo] <= d < starts[hi] <==> lo <= key(after[d]) < hi
  {
    RebuiltInBins(before, key, numBins, after);
    BlockOfRanges(KeysOf(before, key), lo, hi, key(after[d]), d);
  }

  /**
   * After a rebuild, slot d lies in the index range of cell c exactly when
   * its record's position falls in cell c: each cell's particles are one
   * contiguous block, whatever their types.
   */
  lemma CellRangeHolds(g: CellGrid, before: seq<Record>, starts: seq<nat>, after: seq<Record>, oldMap: seq<nat>, newMap: seq<nat>, c: nat, d: nat)
    requires Valid(g) && g.nTypes >= 1 && TypesBelow(before, g.nTypes)
    requires Rebuilt(BinKey(g), NumBins(g), before, starts, after, oldMap, newMap)
    requires c < NumCells(g) && d < |after|
    ensures CellRange(g, starts, c).0 <= d < CellRange(g, starts, c).1 <==> CellKey(g)(after[d]) == c
  {
    var keys := KeysOf(before, BinKey(g));
    var n := g.nTypes;
    GridKeys(g, before);
    TypesKept(before, keys, NumBins(g), after, n);
    BinsOfCell(g, c, n - 1);
    BinIndexBound(g, c, n - 1);
    MulIsProduct(c, n);
    MulIsProduct(CellKey(g)(after[d]), n);
    BlockRangeHolds(BinKey(g), NumBins(g), before, starts, after, oldMap, newMap, c * n, c * n + n, d);
    BinInCell(n, c, CellKey(g)(after[d]), after[d].ptype);
  }

  /** Bin c' n + t (t < n) is one of the bins c n .. c n + n - 1 of cell c exactly when c' is c. */
  lemma BinInCell(n: nat, c: nat, c': nat, t: nat)
    requires t < n
    ensures c * n <= c' * n + t < c * n + n <==> c' == c
  {
    if c' < c {
      DigitBelow(c', t, c, n);
    } else if c' > c {
      MulLe(c + 1, c', n);
      Distribute(c, 1, n);
    }
  }

  /**
   * A slot in the range of key k lies in the joint range of keys lo .. hi - 1
   * exactly when k is one of them.
   */
  lemma BlockOfRanges(keys: seq<nat>, lo: nat, hi: nat, k: nat, d: nat)
    requires lo <= hi && Below(keys, k) <= d < Below(keys, k + 1)
    ensures Below(keys, lo) <= d < Below(keys, hi) <==> lo <= k < hi
  {
    if lo <= k < hi {
      BelowMono(keys, lo, k);
      BelowMono(keys, k + 1, hi);
    } else if k < lo {
      BelowMono(keys, k + 1, lo);
    } else {
      BelowMono(keys, hi, k);
    }
  }

  // ---- the container ----

  datatype LinkedCellsError =
    | InfiniteDomainUnsupported // `std::logic_error`
    | MissingCellSize           // `std::bad_optional_access`: a manual cell-size strategy without a size

  /** `LinkedCellsAoS`: the base AoS container plus the grid, the bins and the cell pairs. */
  class LinkedCellsAoS {
    const storage: AoSContainers.AoSContainer
    const hint: Option<real>
    const interactions: seq<SchemaInteraction>
    const nTypes: nat
    const origin: Vec3
    const extent: Vec3
    const flags: BuildBoundary.ContainerFlags

    var tmp: seq<Record>
    var grid: CellGrid
    var cellSize: Vec3
    var binStarts: seq<nat>
    var neighborPairs: seq<Stencils.CellPair>
    var wrappedPairs: seq<Stencils.WrappedPair>

    constructor(hint: Option<real>, interactions: seq<SchemaInteraction>, nTypes: nat, origin: Vec3, extent: Vec3, flags: BuildBoundary.ContainerFlags)
      ensures fresh(storage) && storage.particles == [] && storage.idMap == [] && !storage.isBuilt
      ensures this.hint == hint && this.interactions == interactions && this.nTypes == nTypes
      ensures this.origin == origin && this.extent == extent && this.flags == flags
      ensures tmp == [] && binStarts == [] && neighborPairs == [] && wrappedPairs == []
    {
      storage := new AoSContainers.AoSContainer();
      this.hint, this.interactions, this.nTypes := hint, interactions, nTypes;
      this.origin, this.extent, this.flags := origin, extent, flags;
      tmp, binStarts, neighborPairs, wrappedPairs := [], [], [], [];
      grid := CellGrid(Dims(1, 1, 1), 0, [], (0.0, 0.0, 0.0), (0.0, 0.0, 0.0));
      cellSize := (0.0, 0.0, 0.0);
    }

    /** A positive hint when one is given, and a domain with positive extents. */
    predicate ConfigOk() {
      (hint.Some? ==> hint.value > 0.0) && PositiveExtent(extent)
    }

    /** The planned grid has cell ids that fit `uint32_t`. */
    predicate GridFits()
      requires ConfigOk()
    {
      Count(PlanAxes(hint, interactions, extent)) < U32_LIMIT
    }

    function Periodic(): Stencils.Periodic {
      Stencils.Periodic(flags.periodicX, flags.periodicY, flags.periodicZ)
    }

    /**
     * `setup_cell_grid`: plans the grid, sizes the bin starts to one entry
     * per bin plus the sentinel and sizes the scratch vector to the particle
     * count (`allocate_tmp_storage`).
     */
    method SetupCellGrid()
      requires ConfigOk() && GridFits()
      modifies this
      ensures grid == PlanGrid(hint, interactions, nTypes, origin, extent) && Valid(grid)
      ensures cellSize == PlanCellSize(hint, interactions, extent)
      ensures binStarts == Fit(old(binStarts), NumBins(grid) + 1, 0)
      ensures tmp == Fit(old(tmp), |storage.particles|, Blank)
      ensures neighborPairs == old(neighborPairs) && wrappedPairs == old(wrappedPairs)
    {
      var maxCutoff := ScanMaxCutoff(interactions);
      cellSize := PlanCellSize(hint, interactions, extent);
      grid := PlanGrid(hint, interactions, nTypes, origin, extent);
      binStarts := Fit(binStarts, NumBins(grid) + 1, 0);
      tmp := Fit(tmp, |storage.particles|, Blank);
    }

    /**
     * `rebuild_structure`: counts the particles of every bin, turns the
     * counts into start indices, scatters every particle to its bin's next
     * free slot of the scratch vector and points its id there, then
     * exchanges the two vectors.
     */
    method RebuildStructure()
      requires Valid(grid) && |binStarts| == NumBins(grid) + 1 && |tmp| == |storage.particles|
      requires TypesBelow(storage.particles, grid.nTypes)
      requires DistinctIds(storage.particles) && IdsBelow(storage.particles, |storage.idMap|)
      modifies this, storage
      ensures Rebuilt(BinKey(grid), NumBins(grid), old(storage.particles), binStarts, storage.particles, old(storage.idMap), storage.idMap)
      ensures tmp == old(storage.particles) && storage.isBuilt == old(storage.isBuilt)
      ensures grid == old(grid) && cellSize == old(cellSize)
      ensures neighborPairs == old(neighborPairs) && wrappedPairs == old(wrappedPairs)
    {
      var before := storage.particles;
      forall i | 0 <= i < |before|
        ensures BinKey(grid)(before[i]) < |binStarts|
      {
        BinOfBound(grid, before[i]);
      }
      var starts, sorted, newMap := RebuildByBins(before, BinKey(grid), |binStarts|, storage.idMap);
      binStarts := starts;
      storage.particles, tmp := sorted, before;
      storage.idMap := newMap;
    }

    /** `compute_cell_pairs`: appends the plain neighbour pairs and the wrapped pairs of the 13 displacements. */
    method ComputeCellPairs()
      requires Valid(grid)
      modifies this
      ensures grid == old(grid) && binStarts == old(binStarts) && tmp == old(tmp) && cellSize == old(cellSize)
      ensures neighborPairs == old(neighborPairs) + Stencils.NeighborPairs(grid, Periodic(), |Stencils.Displacements|)
      ensures wrappedPairs == old(wrappedPairs) + Stencils.WrappedPairs(grid, Periodic(), |Stencils.Displacements|)
    {
      var ns, ws := Stencils.ComputeCellPairs(grid, Periodic());
      neighborPairs := neighborPairs + ns;
      wrappedPairs := wrappedPairs + ws;
    }

    /**
     * `build`: stores the particles, plans the grid, rebuilds the bins and
     * lists the cell pairs, and only then rejects an infinite domain, so
     * the container is fully built even when the error is raised.
     */
    method Build(input: seq<Record>) returns (r: Result<(), LinkedCellsError>)
      requires !storage.isBuilt && ConfigOk() && GridFits()
      requires DistinctIds(input) && IdsBelow(input, |input|) && TypesBelow(input, nTypes)
      requires neighborPairs == [] && wrappedPairs == []
      modifies this, storage
      ensures r.Err? <==> flags.infiniteDomain
      ensures storage.isBuilt && grid == PlanGrid(hint, interactions, nTypes, origin, extent) && Valid(grid)
      ensures |binStarts| == NumBins(grid) + 1 && StartsOf(binStarts, KeysOf(input, BinKey(grid)))
      ensures |storage.particles| == |input|
      ensures forall i :: 0 <= i < |input| ==> storage.particles[Dest(KeysOf(input, BinKey(grid)), i)] == input[i]
      ensures multiset(storage.particles) == multiset(input) && MapsIds(storage.particles, storage.idMap)
      ensures neighborPairs == Stencils.NeighborPairs(grid, Periodic(), |Stencils.Displacements|)
      ensures wrappedPairs == Stencils.WrappedPairs(grid, Periodic(), |Stencils.Displacements|)
    {
      storage.BuildStorage(input);
      ghost var built := storage.idMap;
      SetupCellGrid();
      RebuildStructure();
      GridKeys(grid, input);
      RebuildLaysOutBins(BinKey(grid), NumBins(grid), input, binStarts, storage.particles, built, storage.idMap);
      ComputeCellPairs();
      if flags.infiniteDomain {
        return Err(InfiniteDomainUnsupported);
      }
      return Ok(());
    }

    /**
     * `for_each_interaction_batch`: the four phases in order; the batches
     * handed to the callback are returned.
     */
    method ForEachInteractionBatch() returns (batches: seq<CellBatches.Batch>)
      requires Valid(grid) && CellBatches.Sized(grid, binStarts)
      requires CellBatches.PairsIn(grid, neighborPairs) && CellBatches.WrappedIn(grid, wrappedPairs)
      ensures batches == CellBatches.InteractionBatches(grid, binStarts, neighborPairs, wrappedPairs)
    {
      var sym := CellBatches.SymmetricPhase(grid, binStarts);
      var same := CellBatches.SameCellPhase(grid, binStarts);
      var nbr := CellBatches.NeighborPhase(grid, binStarts, neighborPairs);
      var wrapped := CellBatches.WrappedPhase(grid, binStarts, wrappedPairs);
      batches := sym + same + nbr + wrapped;
    }
  }
}
