/**
 * The linked-cells container of `linked_cells_aosoa.hpp`, over the chunked
 * (array-of-structs-of-arrays) storage.
 *
 * `build` refuses an infinite domain before it touches anything, then
 * stores the particles, plans the grid, installs the cell order, regroups
 * the particles by (cell, type) bin with a counting sort and builds the
 * neighbour stencil and the wrapped cell pairs. The counting sort writes
 * every particle into a scratch chunk storage, lane by lane, and then the
 * chunk vectors of the two storages are exchanged.
 */
module LinkedCellsAoSoA {
  import opened Wrappers
  import opened Ints
  import opened Grids
  import opened ParticleRecords
  import opened CellGrids
  import opened CountingSort
  import opened ChunkedStorages
  import opened Seqs
  import Stencils
  import CellOrderings
  import LinkedCells
  import LinkedCellsCore
  import BuildBoundary
  import AoSoAContainers

  // ---- the scratch storage ----

  /**
   * `write_to_tmp_storage(dst, src)`: every field of slot src of the main
   * chunks is copied into slot dst of the scratch chunks; no other scratch
   * slot changes.
   */
  method WriteToTmp(data: seq<Chunk>, tmp: seq<Chunk>, size: nat, dstI: nat, srcI: nat) returns (out: seq<Chunk>)
    requires size > 0 && Shaped(data, size) && Shaped(tmp, size)
    requires srcI < |data| * size && dstI < |tmp| * size
    ensures Shaped(out, size) && |out| == |tmp|
    ensures Lanes(out, size) == Lanes(tmp, size)[dstI := Lanes(data, size)[srcI]]
  {
    LocateBelow(srcI, size, |data|);
    LocateBelow(dstI, size, |tmp|);
    var (srcC, srcL) := Locate(srcI, size);
    var (dstC, dstL) := Locate(dstI, size);
    out := tmp[dstC := tmp[dstC][dstL := data[srcC][srcL]]];
    assert out == SetLane(tmp, size, dstI, Lane(data, size, srcI));
    SetLaneLanes(tmp, size, dstI, Lane(data, size, srcI));
  }

  /**
   * The scatter pass after i particles, over the slots read as one
   * sequence: each write pointer has moved past the particles of its bin
   * seen so far, those particles sit at their destinations with their ids
   * pointed there, and slots past the particle count and ids of unseen
   * particles are untouched.
   */
  ghost predicate Scattered(before: seq<Record>, records: seq<Record>, keys: seq<nat>, ptr: seq<nat>,
                            idMap: seq<nat>, lanes: seq<Record>, newMap: seq<nat>, i: nat) {
    && i <= |records| && |keys| == |records| <= |before| && |lanes| == |before|
    && |newMap| == |idMap| && IdsBelow(records, |idMap|)
    && (forall b :: 0 <= b < |ptr| ==> ptr[b] == Below(keys, b) + Occ(keys[..i], b))
    && (forall j :: 0 <= j < i ==> lanes[Dest(keys, j)] == records[j])
    && (forall p :: |records| <= p < |before| ==> lanes[p] == before[p])
    && (forall j :: 0 <= j < i ==> newMap[records[j].id] == Dest(keys, j))
    && (forall id :: 0 <= id < |idMap| && (forall j :: 0 <= j < i ==> records[j].id != id) ==>
          newMap[id] == idMap[id])
  }

  /** Scattering particle i to `ptr[keys[i]]`, its destination, extends the scatter pass by one. */
  lemma ScatterStep(before: seq<Record>, records: seq<Record>, keys: seq<nat>, ptr: seq<nat>,
                    idMap: seq<nat>, lanes: seq<Record>, newMap: seq<nat>, i: nat)
    requires Scattered(before, records, keys, ptr, idMap, lanes, newMap, i) && i < |records|
    requires KeysBelow(keys, |ptr|) && DistinctIds(records)
    ensures ptr[keys[i]] == Dest(keys, i)
    ensures Scattered(before, records, keys, ptr[keys[i] := Dest(keys, i) + 1], idMap,
                      lanes[Dest(keys, i) := records[i]], newMap[records[i].id := Dest(keys, i)], i + 1)
  {
    var dst := Dest(keys, i);
    var ptr' := ptr[keys[i] := dst + 1];
    forall b | 0 <= b < |ptr|
      ensures ptr'[b] == Below(keys, b) + Occ(keys[..i + 1], b)
    {
      OccStep(keys, i, b);
    }
    forall j | 0 <= j < i
      ensures Dest(keys, j) != dst
    {
      DestOrder(keys, j, i);
      DestOrder(keys, i, j);
    }
    forall j | 0 <= j < i
      ensures records[j].id != records[i].id
    {
    }
  }

  /**
   * The scatter pass of `rebuild_structure`: particle i (slot i of the main
   * chunks) is written to slot `write_ptr[key]++` of the scratch chunks and
   * its id is pointed there. Scratch slots past the particle count keep what
   * they held, and every write pointer ends at the end of its bin.
   */
  method ScatterLanes(data: seq<Chunk>, tmp: seq<Chunk>, size: nat, records: seq<Record>, keys: seq<nat>,
                      writePtr: array<nat>, idMap: seq<nat>)
    returns (out: seq<Chunk>, newMap: seq<nat>)
    requires size > 0 && Shaped(data, size) && Shaped(tmp, size)
    requires |keys| == |records| <= |data| * size && |records| <= |tmp| * size
    requires forall i :: 0 <= i < |records| ==> Lanes(data, size)[i] == records[i]
    requires KeysBelow(keys, writePtr.Length) && StartsOf(writePtr[..], keys)
    requires DistinctIds(records) && IdsBelow(records, |idMap|)
    modifies writePtr
    ensures Shaped(out, size) && |out| == |tmp|
    ensures forall i :: 0 <= i < |records| ==> Lanes(out, size)[Dest(keys, i)] == records[i]
    ensures forall p :: |records| <= p < |tmp| * size ==> Lanes(out, size)[p] == Lanes(tmp, size)[p]
    ensures forall b :: 0 <= b < writePtr.Length ==> writePtr[b] == Below(keys, b) + Occ(keys, b)
    ensures |newMap| == |idMap|
    ensures forall i :: 0 <= i < |records| ==> newMap[records[i].id] == Dest(keys, i)
    ensures forall id :: 0 <= id < |idMap| && (forall i :: 0 <= i < |records| ==> records[i].id != id) ==>
      newMap[id] == idMap[id]
  {
    out, newMap := tmp, idMap;
    BelowAll(keys, writePtr.Length);
    for i := 0 to |records|
      invariant Shaped(out, size) && |out| == |tmp|
      invariant Scattered(Lanes(tmp, size), records, keys, writePtr[..], idMap, Lanes(out, size), newMap, i)
    {
      var bin := keys[i];
      var dst := writePtr[bin];
      ScatterStep(Lanes(tmp, size), records, keys, writePtr[..], idMap, Lanes(out, size), newMap, i);
      writePtr[bin] := dst + 1;
      out := WriteToTmp(data, out, size, dst, i);
      newMap := newMap[records[i].id := dst];
    }
    assert keys[..|records|] == keys;
  }

  /**
   * The counting sort of `rebuild_structure` on the chunk vectors as
   * values: the bin sizes are counted and turned into start indices, the
   * write pointers start as a copy of them, and the first n slots of the
   * main chunks are scattered into the scratch chunks.
   */
  method RebuildChunks(data: seq<Chunk>, tmp: seq<Chunk>, size: nat, n: nat, key: Record -> nat, numBins: nat, idMap: seq<nat>)
    returns (starts: seq<nat>, ends: seq<nat>, out: seq<Chunk>, newMap: seq<nat>)
    requires size > 0 && Shaped(data, size) && Shaped(tmp, size) && n <= |data| * size && n <= |tmp| * size
    requires LinkedCells.KeyedBelow(key, Lanes(data, size)[..n], numBins)
    requires DistinctIds(Lanes(data, size)[..n]) && IdsBelow(Lanes(data, size)[..n], |idMap|)
    ensures Shaped(out, size) && |out| == |tmp|
    ensures LinkedCells.Rebuilt(key, numBins, Lanes(data, size)[..n], starts, Lanes(out, size)[..n], idMap, newMap)
    ensures forall p :: n <= p < |tmp| * size ==> Lanes(out, size)[p] == Lanes(tmp, size)[p]
    ensures |ends| == |starts| && forall b :: 0 <= b < numBins ==> ends[b] == starts[b + 1]
  {
    var before := Lanes(data, size)[..n];
    var keys := KeysOf(before, key);
    var counts := new nat[numBins + 1];
    CountKeys(keys, counts);
    ExclusivePrefix(keys, counts);
    starts := counts[..];
    var ptr := new nat[numBins + 1](b requires 0 <= b < numBins + 1 => starts[b]);
    assert ptr[..] == starts;
    out, newMap := ScatterLanes(data, tmp, size, before, keys, ptr, idMap);
    ends := ptr[..];
    StartsShape(starts, keys);
  }

  // ---- the container ----

  /** `LinkedCellsAoSoA`: the chunked container plus the grid, the bins, the stencil and a scratch chunk storage. */
  class LinkedCellsChunked {
    const storage: AoSoAContainers.AoSoAContainer
    const tmp: ChunkedStorage
    const config: LinkedCellsCore.Config
    const interactions: seq<LinkedCells.SchemaInteraction>
    const nTypes: nat
    const origin: Vec3
    const extent: Vec3
    const flags: BuildBoundary.ContainerFlags

    var grid: CellGrid
    var cellSize: Vec3
    var globalCutoff: real
    var binStarts: seq<nat>
    var writePtr: seq<nat>
    var stencil: seq<Offset>
    var wrappedPairs: seq<Stencils.WrappedPair>

    constructor(size: nat, config: LinkedCellsCore.Config, interactions: seq<LinkedCells.SchemaInteraction>, nTypes: nat,
                origin: Vec3, extent: Vec3, flags: BuildBoundary.ContainerFlags)
      requires ChunkSizeOk(size)
      ensures fresh(storage) && fresh(storage.data) && fresh(tmp) && Valid()
      ensures storage.data.size == size && storage.data.chunks == [] && storage.data.nParticles == 0 && storage.idMap == []
      ensures tmp.chunks == [] && tmp.nParticles == 0
      ensures this.config == config && this.interactions == interactions && this.nTypes == nTypes
      ensures this.origin == origin && this.extent == extent && this.flags == flags
      ensures binStarts == [] && writePtr == [] && stencil == [] && wrappedPairs == []
    {
      storage := new AoSoAContainers.AoSoAContainer(size);
      tmp := new ChunkedStorage(size);
      this.config, this.interactions, this.nTypes := config, interactions, nTypes;
      this.origin, this.extent, this.flags := origin, extent, flags;
      grid := CellGrid(Dims(1, 1, 1), 0, [], (0.0, 0.0, 0.0), (0.0, 0.0, 0.0));
      cellSize, globalCutoff := (0.0, 0.0, 0.0), 0.0;
      binStarts, writePtr, stencil, wrappedPairs := [], [], [], [];
    }

    /**
     * Two distinct chunk storages of the same chunk size, each holding at
     * least as many lanes as its particle count.
     */
    predicate Valid()
      reads this, storage, storage.data, tmp
    {
      && storage.data.Valid() && tmp.Valid() && storage.data != tmp && tmp.size == storage.data.size
      && storage.data.nParticles <= storage.data.Capacity() && tmp.nParticles <= tmp.Capacity()
    }

    function Particles(): seq<Record>
      reads this, storage, storage.data, tmp
      requires Valid()
    {
      storage.Particles()
    }

    function Periodic(): Stencils.Periodic {
      Stencils.Periodic(flags.periodicX, flags.periodicY, flags.periodicZ)
    }

    /** The width `get_width` returns for the settled cutoff. */
    function Width(): Option<real>
      requires LinkedCells.PositiveExtent(extent)
    {
      LinkedCellsCore.GetWidth(config, LinkedCellsCore.CoreCutoff(interactions, extent))
    }

    /**
     * What the setup demands: a domain of positive extent, a cell width
     * (`get_width` throws without one), a positive width (`AP_ASSERT`), a
     * cell count below 2^32 (the source casts the axis counts to `uint32_t`
     * and multiplies them without a check, so a larger grid would wrap), and
     * a configured ordering that is a permutation of the grid's cells.
     */
    predicate ConfigOk() {
      && LinkedCells.PositiveExtent(extent)
      && Width().Some? && Width().value > 0.0
      && Count(LinkedCellsCore.CoreAxes(Width().value, extent)) < U32_LIMIT
      && (config.orderingFn.Some? ==>
        var axes := LinkedCellsCore.CoreAxes(Width().value, extent);
        CellOrderings.IsPermutation(config.orderingFn.value(axes), Count(axes)))
    }

    /** The grid `setup_cell_grid` plans. */
    function PlannedGrid(): CellGrid
      requires ConfigOk()
    {
      LinkedCellsCore.CoreGrid(Width().value, nTypes, origin, extent)
    }

    /**
     * `allocate_tmp_storage`: the scratch storage is resized to the particle
     * count when it is sized for fewer particles, and left alone otherwise.
     */
    method AllocateTmpStorage()
      requires Valid()
      modifies tmp
      ensures Valid()
      ensures old(tmp.nParticles) < storage.data.nParticles ==>
        && tmp.nParticles == storage.data.nParticles && |tmp.chunks| == ChunksFor(storage.data.nParticles, tmp.size)
        && forall p :: 0 <= p < tmp.Capacity() ==> tmp.Slots()[p] == if p < old(tmp.Capacity()) then old(tmp.Slots())[p] else Blank
      ensures storage.data.nParticles <= old(tmp.nParticles) ==> tmp.chunks == old(tmp.chunks) && tmp.nParticles == old(tmp.nParticles)
    {
      if tmp.nParticles < storage.data.nParticles {
        tmp.Resize(storage.data.nParticles);
      }
    }

    /**
     * `setup_cell_grid`: settles the cutoff, plans the grid for its width,
     * sizes the bin starts and the write pointers to one entry per bin plus
     * the sentinel, and allocates the scratch storage.
     */
    method SetupCellGrid()
      requires ConfigOk() && Valid()
      modifies this, tmp
      ensures Valid() && globalCutoff == LinkedCellsCore.CoreCutoff(interactions, extent)
      ensures grid == PlannedGrid() && CellGrids.Valid(grid) && cellSize == LinkedCellsCore.CoreCellSize(Width().value, extent)
      ensures binStarts == Fit(old(binStarts), NumBins(grid) + 1, 0) && writePtr == Fit(old(writePtr), NumBins(grid) + 1, 0)
      ensures tmp.nParticles == if old(tmp.nParticles) < storage.data.nParticles then storage.data.nParticles else old(tmp.nParticles)
      ensures stencil == old(stencil) && wrappedPairs == old(wrappedPairs)
    {
      var maxCutoff := LinkedCells.ScanMaxCutoff(interactions);
      var minExtent := LinkedCells.MinOf(extent);
      var cutoff := if maxCutoff <= 0.0 || maxCutoff > minExtent then minExtent / 2.0 else maxCutoff;
      var width := LinkedCellsCore.GetWidth(config, cutoff).value;
      grid := LinkedCellsCore.CoreGrid(width, nTypes, origin, extent);
      cellSize := LinkedCellsCore.CoreCellSize(width, extent);
      globalCutoff := cutoff;
      binStarts := Fit(binStarts, NumBins(grid) + 1, 0);
      writePtr := Fit(writePtr, NumBins(grid) + 1, 0);
      AllocateTmpStorage();
    }

    /** `init_cell_order`: installs the configured ordering of the grid's axes, if any. */
    method InitCellOrder()
      requires CellGrids.Valid(grid)
      requires config.orderingFn.Some? ==> CellOrderings.IsPermutation(config.orderingFn.value(grid.axes), Count(grid.axes))
      modifies this
      ensures grid == LinkedCellsCore.OrderedGrid(config, old(grid)) && CellGrids.Valid(grid)
      ensures cellSize == old(cellSize) && globalCutoff == old(globalCutoff)
      ensures binStarts == old(binStarts) && writePtr == old(writePtr)
      ensures stencil == old(stencil) && wrappedPairs == old(wrappedPairs)
    {
      if config.orderingFn.Some? {
        grid := grid.(ordering := config.orderingFn.value(grid.axes));
      }
    }

    /**
     * `swap_tmp_storage`: the chunk vectors of the main and the scratch
     * storage are exchanged, and the main storage takes the scratch
     * storage's particle count.
     */
    method SwapTmpStorage()
      requires Valid() && tmp.nParticles <= storage.data.Capacity()
      modifies storage.data, tmp
      ensures Valid()
      ensures storage.data.chunks == old(tmp.chunks) && tmp.chunks == old(storage.data.chunks)
      ensures storage.data.nParticles == old(tmp.nParticles) && tmp.nParticles == old(tmp.nParticles)
    {
      storage.data.chunks, tmp.chunks := tmp.chunks, storage.data.chunks;
      storage.data.nParticles := tmp.nParticles;
    }

    /**
     * `rebuild_structure`: counts the particles of every bin, turns the
     * counts into start indices, copies them into the write pointers,
     * writes every particle to its bin's next free scratch slot and points
     * its id there, then swaps the storages. The particles come out grouped
     * by bin in their old relative order, and the lanes past the particle
     * count are the scratch storage's.
     */
    method RebuildStructure()
      requires Valid() && CellGrids.Valid(grid) && |binStarts| == NumBins(grid) + 1
      requires tmp.nParticles == storage.data.nParticles
      requires LinkedCells.TypesBelow(Particles(), grid.nTypes)
      requires DistinctIds(Particles()) && IdsBelow(Particles(), |storage.idMap|)
      modifies this, storage, storage.data, tmp
      ensures Valid() && storage.data.nParticles == old(storage.data.nParticles) && tmp.nParticles == old(tmp.nParticles)
      ensures LinkedCells.Rebuilt(LinkedCells.BinKey(grid), NumBins(grid), old(Particles()), binStarts, Particles(),
                                  old(storage.idMap), storage.idMap)
      ensures |storage.data.chunks| == old(|tmp.chunks|)
      ensures forall p :: old(storage.data.nParticles) <= p < storage.data.Capacity() ==> storage.data.Slots()[p] == old(tmp.Slots())[p]
      ensures tmp.chunks == old(storage.data.chunks)
      ensures |writePtr| == |binStarts| && forall b :: 0 <= b < NumBins(grid) ==> writePtr[b] == binStarts[b + 1]
      ensures grid == old(grid) && cellSize == old(cellSize) && globalCutoff == old(globalCutoff)
      ensures stencil == old(stencil) && wrappedPairs == old(wrappedPairs)
    {
      LinkedCells.GridKeys(grid, Particles());
      var out, newMap;
      binStarts, writePtr, out, newMap :=
        RebuildChunks(storage.data.chunks, tmp.chunks, storage.data.size, storage.data.nParticles, LinkedCells.BinKey(grid), NumBins(grid), storage.idMap);
      tmp.chunks := out;
      storage.idMap := newMap;
      SwapTmpStorage();
    }

    /** `create_neighbor_stencil`: appends the forward offsets within the cutoff. */
    method CreateNeighborStencil()
      requires CellGrids.Valid(grid) && globalCutoff >= 0.0
      modifies this
      ensures grid == old(grid) && cellSize == old(cellSize) && globalCutoff == old(globalCutoff)
      ensures binStarts == old(binStarts) && writePtr == old(writePtr) && wrappedPairs == old(wrappedPairs)
      ensures stencil == old(stencil) + Stencils.Stencil(LinkedCellsCore.StencilFor(grid, cellSize, globalCutoff))
    {
      var offsets := Stencils.CreateNeighborStencil(LinkedCellsCore.StencilFor(grid, cellSize, globalCutoff));
      stencil := stencil + offsets;
    }

    /** `compute_wrapped_cell_pairs`: appends the pairs that cross a periodic face. */
    method ComputeWrappedCellPairs()
      requires CellGrids.Valid(grid)
      modifies this
      ensures grid == old(grid) && cellSize == old(cellSize) && globalCutoff == old(globalCutoff)
      ensures binStarts == old(binStarts) && writePtr == old(writePtr) && stencil == old(stencil)
      ensures wrappedPairs == old(wrappedPairs) + Stencils.GridWrapped(grid, Periodic(), stencil)
    {
      var pairs := Stencils.ComputeWrappedCellPairs(grid, Periodic(), stencil);
      wrappedPairs := wrappedPairs + pairs;
    }

    /**
     * The state a build from `input` leaves: the bin starts are the prefix
     * sums of the bin sizes, each particle sits at the slot the stable
     * scatter gives it, so the stored particles are a permutation of the
     * input ordered by bin, and every id maps to its slot.
     */
    predicate GroupedFrom(input: seq<Record>)
      reads this, storage, storage.data, tmp
      requires Valid() && CellGrids.Valid(grid)
    {
      var key := LinkedCells.BinKey(grid);
      var keys := KeysOf(input, key);
      && |Particles()| == |input| && StartsOf(binStarts, keys)
      && (forall i :: 0 <= i < |input| ==> Particles()[Dest(keys, i)] == input[i])
      && multiset(Particles()) == multiset(input) && MapsIds(Particles(), storage.idMap)
      && (forall d1, d2 :: 0 <= d1 <= d2 < |input| ==> key(Particles()[d1]) <= key(Particles()[d2]))
    }

    /** The first four steps of `build` after the domain check: storage, grid, cell order and bins. */
    method StoreAndGroup(input: seq<Record>)
      requires Valid() && ConfigOk() && tmp.nParticles <= |input|
      requires DistinctIds(input) && IdsBelow(input, |input|) && LinkedCells.TypesBelow(input, nTypes)
      modifies this, storage, storage.data, tmp
      ensures Valid() && grid == LinkedCellsCore.OrderedGrid(config, PlannedGrid()) && CellGrids.Valid(grid)
      ensures GroupedFrom(input) && globalCutoff == LinkedCellsCore.CoreCutoff(interactions, extent)
      ensures stencil == old(stencil) && wrappedPairs == old(wrappedPairs)
    {
      storage.BuildStorage(input);
      ghost var built := storage.idMap;
      SetupCellGrid();
      InitCellOrder();
      RebuildStructure();
      LinkedCells.GridKeys(grid, input);
      LinkedCells.RebuildLaysOutBins(LinkedCells.BinKey(grid), NumBins(grid), input, binStarts, Particles(), built, storage.idMap);
    }

    /** The steps of `build` after the domain check, in the source's order. */
    method BuildSteps(input: seq<Record>)
      requires Valid() && ConfigOk() && tmp.nParticles <= |input|
      requires DistinctIds(input) && IdsBelow(input, |input|) && LinkedCells.TypesBelow(input, nTypes)
      modifies this, storage, storage.data, tmp
      ensures Valid() && grid == LinkedCellsCore.OrderedGrid(config, PlannedGrid()) && CellGrids.Valid(grid)
      ensures GroupedFrom(input) && globalCutoff == LinkedCellsCore.CoreCutoff(interactions, extent)
      ensures stencil == old(stencil) + Stencils.Stencil(LinkedCellsCore.StencilFor(grid, cellSize, globalCutoff))
      ensures wrappedPairs == old(wrappedPairs) + Stencils.GridWrapped(grid, Periodic(), stencil)
    {
      StoreAndGroup(input);
      CreateNeighborStencil();
      ComputeWrappedCellPairs();
    }

    /**
     * `build`: an infinite domain is refused before anything is touched;
     * otherwise the particles are stored, the grid planned and ordered, the
     * bins rebuilt, and the stencil and the wrapped pairs appended. A manual
     * cell-size strategy without a size throws from `get_width` once the
     * particles are stored.
     */
    method Build(input: seq<Record>) returns (r: Result<(), LinkedCells.LinkedCellsError>)
      requires Valid() && LinkedCells.PositiveExtent(extent) && (Width().Some? ==> ConfigOk())
      requires tmp.nParticles <= |input|
      requires DistinctIds(input) && IdsBelow(input, |input|) && LinkedCells.TypesBelow(input, nTypes)
      modifies this, storage, storage.data, tmp
      ensures r.Err? <==> flags.infiniteDomain || Width().None?
      ensures r.Err? && flags.infiniteDomain ==> r.error == LinkedCells.InfiniteDomainUnsupported
      ensures r.Err? && flags.infiniteDomain ==> unchanged(this, storage, storage.data, tmp)
      ensures r.Err? && !flags.infiniteDomain ==> r.error == LinkedCells.MissingCellSize
      ensures r.Err? && !flags.infiniteDomain ==> Valid() && Particles() == input && MapsIds(Particles(), storage.idMap)
      ensures r.Ok? ==> Valid() && grid == LinkedCellsCore.OrderedGrid(config, PlannedGrid()) && CellGrids.Valid(grid)
      ensures r.Ok? ==> GroupedFrom(input) && globalCutoff == LinkedCellsCore.CoreCutoff(interactions, extent)
      ensures r.Ok? ==> stencil == old(stencil) + Stencils.Stencil(LinkedCellsCore.StencilFor(grid, cellSize, globalCutoff))
      ensures r.Ok? ==> wrappedPairs == old(wrappedPairs) + Stencils.GridWrapped(grid, Periodic(), stencil)
    {
      if flags.infiniteDomain {
        return Err(LinkedCells.InfiniteDomainUnsupported);
      }
      if Width().None? {
        storage.BuildStorage(input);
        return Err(LinkedCells.MissingCellSize);
      }
      BuildSteps(input);
      return Ok(());
    }
  }
}
