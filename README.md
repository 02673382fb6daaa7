# april: a verified model of the particle bookkeeping

april is a C++ molecular-dynamics library. A small Python script
replays the snapshot files the library writes. This project models, in
Dafny, the parts of april that are integer and index bookkeeping rather than
floating-point physics. It proves the properties the library's code and
tests rely on.

Covered:

- **Snapshot frames and their replay.** `BinaryOutput::record` writes a
  28-byte header (`PART`, version, step, count, flags) and one packed 21-byte
  record per particle. The model gives the exact byte layout and proves that
  decoding with the replay script's reader gets back the step, the count and
  every record (`FrameFormat`). The replay side (`FrameReader`) models:
  - the file listing in sorted order;
  - header decoding and rejection of a bad magic;
  - reading up to `count` records;
  - normalisation of the type column to [0, 1];
  - the frame index, which wraps once per timer tick.
- **Small utilities.**
  - `math::Range`, the half-open interval, with its iterator (`IndexRange`).
  - `utils::IndexSet`, the sparse set with swap-remove (`SparseSets`).
  - `utils::DensePairMap`, the symmetric N x N lookup table (`PairMaps`).
  - The step and time `Trigger`s and their combinators (`Triggers`).
  - The 8-bit `ParticleState` flags (`ParticleStates`).
  - The face and axis helpers and the container flags derived from boundary
    topologies (`Faces`, `BuildBoundary`).
- **Cell orderings.**
  - The Morton key as a bit interleaving (`Morton`).
  - The Hilbert key, with Skilling's transform and the Gray-code
    conversion, on bit sequences (`Words`, `Hilbert`).
  - `morton_order` and `hilbert_order`. Each returns a permutation of the
    cells whose curve keys increase along the ranks (`CellOrderings`).
- **Build-time validation and renumbering.**
  - The duplicate, unknown-key, self-interaction and mass checks.
  - Filling in missing ids.
  - The dense maps from user types and ids onto 0 .. n - 1, with
    interacting ids first (`BuildParticles`). The id map keeps the ids at
    32 bits, which corrects the library's 16-bit truncation (see
    "Findings"); the truncating map is modelled beside it.
  - The force-table construction: symmetric type and id tables,
    off-diagonal type slots mixed from the diagonals, and the largest cutoff
    (`Forces`, `ForceTables`).
- **Containers.**
  - **Storages.** The array-of-structs, struct-of-arrays and chunked
    (array-of-structs-of-arrays) storages and layouts. They are classes
    whose methods update the records, the scratch buffer and the
    id-to-index map in place. Every move keeps `map[id] == index`.
  - **Linked cells.** The grid and its bins (`CellGrids`). The half-shell
    stencil and the periodic wrap pairs (`Stencils`). The counting sort with
    its prefix sum and stable `write_ptr` scatter (`CountingSort`). The
    batches handed to the force loop (`CellBatches`, `LinkedCellsCore`).
  - **Direct sum.** Grouping or sorting the storage by type; the sort
    applies its permutation in place by following its cycles. Then one
    symmetric batch per type and one asymmetric batch per type pair
    (`DirectSumCores`, `DirectSums`).
  - **Pair batches.** Scalar and chunked pair batches enumerate every pair
    of the product, or every unordered pair, exactly once (`Batching`).
- **Particle generators.** The cuboid and sphere generators with their
  fluent setters (`Generators`). The cuboid fills a lattice, x outermost and
  z innermost. The sphere keeps the lattice points inside the ellipsoid.
  - The sphere's loops run from -reach to reach - 1 on every axis, so the
    +reach layer is never generated; this asymmetry is proved as
    `Generators.SphereMissesUpperLayer`.
  - A radius no larger than the spacing leaves only the centre particle.

A class in the model stands for a C++ object whose fields its methods
update. `seq` fields stand for `std::vector`s. Operations that throw or
raise return a `Result`; debug assertions (`AP_ASSERT`) and limits the
library leaves unchecked are preconditions, listed under "Left out". Floating-point values are exact reals, or their
32-bit patterns where bytes are written. Widths such as `uint16_t`,
`uint32_t` and `uint64_t` are bounded naturals, with any wrap-around
written out explicitly (`Ints`).

The chunked layout's `build_storage` (include/april/containers/layout/aosoa.hpp:200-250)
never assigns `n_particles`. The model keeps that as written:
`LayoutAoSoA.AoSoALayout.BuildStorage` leaves the count unchanged.

## Model

| member | source | states |
|---|---|---|
| IndexRange.Wrap | include/april/math/range.hpp:90 | `size_t` arithmetic is modulo 2^64 and leaves in-range values unchanged |
| IndexRange.Make | include/april/math/range.hpp:72-73 | `Range(start, stop)` keeps start and stores max(start, stop), so start <= stop always holds |
| IndexRange.FromPair | include/april/math/range.hpp:76-78 | the pair constructor casts both ends to `size_t` and then behaves as `Range(start, stop)` |
| IndexRange.FromSized | include/april/math/range.hpp:85-92 | an empty source gives [0, 0); otherwise start is the first element and the size is the source's size |
| IndexRange.Range.Size | include/april/math/range.hpp:96-98 | start + size() == stop |
| IndexRange.Range.Intersection | include/april/math/range.hpp:108-112 | the intersection is a valid range starting at the larger start |
| IndexRange.SizeEmpty | include/april/math/range.hpp:96-101 | size() == stop - start, and `empty()` holds exactly when the size is 0 |
| IndexRange.ContainsBounds | include/april/math/range.hpp:102-104 | `contains(v)` iff start <= v < stop; an empty range contains nothing |
| IndexRange.IntersectsSymmetric | include/april/math/range.hpp:105-107 | `intersects` is symmetric, and ranges that only touch do not intersect |
| IndexRange.IntersectsIffShared | include/april/math/range.hpp:105-107 | two non-empty ranges intersect iff some value lies in both |
| IndexRange.IntersectionContains | include/april/math/range.hpp:108-112 | the intersection contains v iff both ranges contain v |
| IndexRange.DisjointIntersection | include/april/math/range.hpp:108-112 | disjoint ranges intersect to the empty range [max start, max start) |
| IndexRange.OverlapIntersection | include/april/math/range.hpp:108-112 | overlapping ranges intersect to [max start, min stop) |
| IndexRange.EmptyRangeIntersects | include/april/math/range.hpp:105-107 | [5, 5) "intersects" [0, 10) although it holds no value: the test compares bounds only |
| IndexRange.IterationValues | include/april/math/range.hpp:115-121 | iterating from begin() to end() yields start, start+1, ..., stop-1, which equals r[0], ..., r[size()-1] |
| IndexRange.WalkCounts | include/april/math/range.hpp:25-27 | n increments of the iterator from `from` visit exactly from, from+1, ..., from+n-1 |
| IndexRange.Signed | include/april/math/range.hpp:46 | `static_cast<ptrdiff_t>` of a `size_t`: a value in -2^63 .. 2^63 - 1 whose `size_t` reading is the input |
| IndexRange.Iterator.Deref | include/april/math/range.hpp:59 | `*it` is the counter |
| IndexRange.Iterator.Next | include/april/math/range.hpp:25-30 | `++it` adds 1, and the largest `size_t` wraps to 0 |
| IndexRange.Iterator.Prev | include/april/math/range.hpp:31-36 | `--it` subtracts 1, and 0 wraps to the largest `size_t` |
| IndexRange.Iterator.Advance | include/april/math/range.hpp:39-56 | `it + n`, `n + it`, `it += n` (and `-` with -n): the counter moved by n, modulo 2^64, exactly n when that stays in range |
| IndexRange.Iterator.Index | include/april/math/range.hpp:60 | `it[n]` is the counter of `it + n` |
| IndexRange.Iterator.Distance | include/april/math/range.hpp:45-47 | `a - b` is a 64-bit signed value congruent to the counters' difference modulo 2^64 |
| IndexRange.BeginEnd | include/april/math/range.hpp:45-53 | begin() advanced by size() is end(); end() - begin() is size() when the size is below 2^63, and size() - 2^64 (negative) otherwise |
| IndexRange.DistanceOfWrap | include/april/math/range.hpp:45-47 | a `ptrdiff_t` value is determined by its `size_t` reading |
| IndexRange.HugeRangeDistance | include/april/math/range.hpp:45-47 | for `Range(0, 2^63)` the iterators' difference is -2^63, not the size |
| Triggers.MakePeriodically | include/april/shared/trigger.h:80-81 | `periodically(period, offset)` starts with last = offset - period |
| Triggers.Eval | include/april/shared/trigger.h:42-139 | firing a trigger keeps it well formed, and a trigger without `periodically` inside is unchanged by firing |
| Triggers.Trigger.constructor | include/april/shared/trigger.h:46 | `Trigger(fn)` stores the given trigger |
| Triggers.Trigger.Call | include/april/shared/trigger.h:42-44 | `operator()` returns what the trigger decides for the context and keeps the trigger's updated captured state |
| Triggers.EveryFires | include/april/shared/trigger.h:52-54 | `every(N, offset)` fires iff (step + offset) mod N == 0, the sum taken modulo 2^64 |
| Triggers.StepTriggers | include/april/shared/trigger.h:57-109 | `after(s)` iff step >= s, `at_step(s)` iff step == s, `between(a, b)` iff a <= step < b (end excluded), `always()` always |
| Triggers.CombinatorsPointwise | include/april/shared/trigger.h:119-139 | on stateless operands `&&`, `||` and `!` are the pointwise boolean operations |
| Triggers.AndShortCircuits | include/april/shared/trigger.h:119-124 | when the left operand of `&&` is false the result is false and the right operand is not called |
| Triggers.OrShortCircuits | include/april/shared/trigger.h:127-132 | when the left operand of `||` is true the result is true and the right operand is not called |
| Triggers.PeriodicallyFirst | include/april/shared/trigger.h:80-88 | a fresh `periodically(period, offset)` fires iff time >= offset |
| Triggers.PeriodicallySpacing | include/april/shared/trigger.h:82-85 | after firing at time t, `last` becomes t and the trigger next fires exactly at times >= t + period |
| Triggers.PeriodicallyMiss | include/april/shared/trigger.h:82-86 | a call that does not fire leaves `last` unchanged |
| SparseSets.IndexSet.constructor | include/april/utils/set.hpp:16-21 | `IndexSet(maxId)` sets N = maxId + 1 (in `size_t`) and starts empty, with the sparse/dense invariant established |
| SparseSets.IndexSet.Contains | include/april/utils/set.hpp:45-49 | `contains(id)` is true exactly for the ids inserted and not since erased (false for id >= N) |
| SparseSets.IndexSet.Size | include/april/utils/set.hpp:54 | `size()` is the number of live ids |
| SparseSets.IndexSet.DenseDistinct | include/april/utils/set.hpp:26-38 | because sparse[dense[p]] == p, no id appears twice in `dense` |
| SparseSets.IndexSet.RoomForOne | include/april/utils/set.hpp:20 | a set missing some id below N has fewer than N members, so `dense` never outgrows the reserved N |
| SparseSets.IndexSet.Insert | include/april/utils/set.hpp:24-28 | for an absent in-range id: the id becomes a member, is appended to `dense`, and the invariant sparse[dense[p]] == p is kept |
| SparseSets.IndexSet.Erase | include/april/utils/set.hpp:31-42 | for a member: the id leaves the set, every other member stays, the last dense entry moves into its slot and `dense` shrinks by one |
| SparseSets.DistinctCard | include/april/utils/set.hpp:52-54 | iterating a repeat-free `dense` yields exactly size() distinct ids |
| SparseSets.Below | include/april/utils/set.hpp:11 | the universe 0 .. N-1 has N members |
| SparseSets.SubsetCard | include/april/utils/set.hpp:11 | a set of ids below N has at most N members |
| SparseSets.ReinsertAfterErase | include/april/utils/set.hpp:24-42 | erasing an id and inserting it again leaves it a member and the set as before |
| PairMaps.Cell | include/april/utils/map.hpp:62-71 | the row-major cell a·N + b of an in-range pair lies inside the N·N table |
| PairMaps.CellInjective | include/april/utils/map.hpp:62-63 | distinct key pairs use distinct cells, so writes to different pairs do not collide |
| PairMaps.Fill | include/april/utils/map.hpp:53-64 | the table after writing the first pairs has N·N entries |
| PairMaps.Writer | include/april/utils/map.hpp:55-64 | reference definition: the last key pair naming {a, b}, or none when no pair names it |
| PairMaps.FillIsWriter | include/april/utils/map.hpp:53-64 | each cell of the filled table holds the value of the last pair naming it, and null when none does |
| PairMaps.WriterSymmetric | include/april/utils/map.hpp:62-63 | (a, b) and (b, a) are written by the same pair |
| PairMaps.InRangePrefix | include/april/utils/map.hpp:55-59 | the pairs before the stopping point are all in range and the pair at it (if any) is not |
| PairMaps.InRangePrefixAll | include/april/utils/map.hpp:55-59 | the loop reaches the end exactly when every key component is below N |
| PairMaps.PrefixStops | include/april/utils/map.hpp:58-59 | `build` throws at pair i exactly when pair i is the first out-of-range pair |
| PairMaps.FillSnoc | include/april/utils/map.hpp:61-63 | writing pair i sets its two cells and nothing else |
| PairMaps.DensePairMap.constructor | include/april/utils/map.hpp:79-81 | a new map has N = 0 and no entries |
| PairMaps.DensePairMap.Build | include/april/utils/map.hpp:46-65 | N = |values|; a size mismatch throws `invalid_argument` before anything else changes; otherwise storage takes the values and the table holds the pairs written before the first out-of-range key, which throws `out_of_range` |
| PairMaps.DensePairMap.Get | include/april/utils/map.hpp:67-72 | for a, b < N: null iff no written pair names {a, b}, otherwise the value of a pair that does |
| PairMaps.DensePairMap.KeySize | include/april/utils/map.hpp:74-76 | `key_size()` is N |
| PairMaps.DensePairMap.GetSymmetric | include/april/utils/map.hpp:62-72 | get(a, b) == get(b, a) |
| PairMaps.DensePairMap.GetLastWriter | include/april/utils/map.hpp:55-64 | when several pairs name the same cells, the last one wins |
| ParticleStates.Or | include/april/particle/defs.hpp:20-24 | `a \| b` has exactly the flags set in either operand |
| ParticleStates.And | include/april/particle/defs.hpp:27-31 | `a & b` has exactly the flags set in both operands |
| ParticleStates.Not | include/april/particle/defs.hpp:34-38 | `~a`, narrowed back to 8 bits, has exactly the flags `a` lacks |
| ParticleStates.OrAssign | include/april/particle/defs.hpp:41-44 | `a \|= b` assigns `a \| b` |
| ParticleStates.AndAssign | include/april/particle/defs.hpp:47-50 | `a &= b` assigns `a & b` |
| ParticleStates.BaseStatesAreBits | include/april/particle/defs.hpp:8-12 | ALIVE, DEAD, PASSIVE, STATIONARY and INVALID are bits 0, 1, 2, 3 and 7 and pairwise disjoint |
| ParticleStates.CompositeStates | include/april/particle/defs.hpp:13-15 | EXERTING = 9, MOVABLE = 5, ALL shares no bit with INVALID, ALL \| INVALID covers every bit, and ~INVALID == ALL |
| ParticleStates.InvalidNeverPasses | include/april/containers/layout/aos.hpp:48-50 | the iteration filter `state & (mask & ~INVALID)` never passes an INVALID slot, and ALL passes every base state |
| Faces.FaceToInt | include/april/boundaries/boundary.hpp:15-30 | `face_to_int(f)` is f's enumerator value in 0..5, and `all_faces` lists face i at position i |
| Faces.AxisOfFace | include/april/boundaries/boundary.hpp:32-34 | `axis_of_face(f) = face_to_int(f) / 2`, always 0, 1 or 2 |
| Faces.FaceSignPos | include/april/boundaries/boundary.hpp:36-38 | `face_sign_pos(f)` holds exactly for the three Plus faces |
| Faces.NonFaceAxis | include/april/boundaries/boundary.hpp:40-47 | `non_face_axis(f)` returns two distinct axes, neither of them f's own axis |
| Faces.FacesNumbered | include/april/boundaries/boundary.hpp:15-25 | `all_faces` has six entries, entry i is numbered i, and the numbering is injective |
| Faces.AxisFaces | include/april/boundaries/boundary.hpp:32-38 | two different faces of one axis have opposite signs |
| BuildBoundary.ExtractTopologies | include/april/system/build_helpers_boundary.h:10-17 | six topologies, the topology of face f at position face_to_int(f) |
| BuildBoundary.SetDefaultBoundaries | include/april/system/build_helpers_boundary.h:20-25 | every sentinel entry becomes Open and every other entry is unchanged |
| BuildBoundary.SetContainerFlags | include/april/system/build_helpers_boundary.h:33-46 | periodic_a is set iff some face of axis a forces wrapping; the other flags stay false |
| BuildBoundary.AxisWrapsByIndex | include/april/system/build_helpers_boundary.h:35-43 | axis a wraps iff some face number j with j / 2 == a has `force_wrap` |
| Forces.MakeForce | include/april/forces/force.hpp:18 | `Force(cutoff)` stores the cutoff and its square |
| Forces.WithCutoff | include/april/forces/force.hpp:79-83 | `with_cutoff(c)` sets the cutoff to c and keeps cutoff2 == c·c; `has_cutoff()` then holds iff c < no_cutoff; the force's kind and parameters are unchanged |
| Forces.Equals | include/april/forces/force.hpp:85-98 | `equals` is false for different concrete types or different cutoffs and otherwise defers to `==`; overall it coincides with `==` |
| Forces.MakeInteraction | include/april/forces/force.hpp:147-149 | `TypeInteraction`/`IdInteraction` store the smaller key first and the larger second, together with the force |
| Forces.InteractionSymmetric | include/april/forces/force.hpp:157-159 | naming the two keys in either order gives the same interaction |
| FrameFormat.U32Le | include/april/monitors/binary_output.h:58-60 | the four bytes written for a `uint32_t` (little-endian host) read back as the value |
| FrameFormat.U64Le | include/april/monitors/binary_output.h:58-60 | the eight bytes written for a `uint64_t` read back as the value |
| FrameFormat.U32LeInjective | include/april/monitors/binary_output.h:58-60 | distinct 32-bit values have distinct encodings |
| FrameFormat.U64LeInjective | include/april/monitors/binary_output.h:58-60 | distinct 64-bit values have distinct encodings |
| FrameFormat.ToRecord | include/april/monitors/binary_output.h:46-54 | a record keeps the particle's position bits, type, id and state |
| FrameFormat.HeaderBytes | include/april/monitors/binary_output.h:39-43 | the header is 4 + 4 + 8 + 8 + 4 = 28 bytes |
| FrameFormat.RecordBytes | include/april/monitors/binary_output.h:48-54 | a record is 3·4 + 4 + 4 + 1 = 21 bytes |
| FrameFormat.RecordsBytes | include/april/monitors/binary_output.h:45-55 | n records take 21·n bytes |
| FrameFormat.RecordsBytesSnoc | include/april/monitors/binary_output.h:45-55 | one more particle appends exactly its record |
| FrameFormat.RecordsBytesAt | include/april/monitors/binary_output.h:45-55 | record k occupies bytes [21k, 21k + 21) of the record area |
| FrameFormat.FrameBytes | include/april/monitors/binary_output.h:38-55 | a frame file is the 28-byte header followed by 21 bytes per particle |
| FrameFormat.DecimalDigits | include/april/monitors/binary_output.h:32 | the decimal digits of n, with no leading zero, read back as n |
| FrameFormat.ZeroPaddedValue | include/april/monitors/binary_output.h:32 | `{:05}` gives at least five digits that read back as the step |
| FrameFormat.JoinPath | include/april/monitors/binary_output.h:33 | `fs::path(dir) / filename` ends with the file name |
| FrameFormat.FileNameShape | include/april/monitors/binary_output.h:32 | the file name is base_name, "_", the zero-padded step and ".bin" |
| FrameFormat.FileName | include/april/monitors/binary_output.h:32 | `std::format("{}_{:05}.bin", base_name, step)`, whose shape `FileNameShape` states |
| FrameFormat.FramePath | include/april/monitors/binary_output.h:32-33 | the output directory joined with the frame's file name |
| FrameFormat.WriteHeader | include/april/monitors/binary_output.h:39-43 | the five header writes produce magic "PART", version 1, the step, the count and flags 0 |
| FrameFormat.WriteParticle | include/april/monitors/binary_output.h:46-54 | the six writes of one particle append its 21-byte record |
| FrameFormat.WriteRecords | include/april/monitors/binary_output.h:45-55 | the loop over [start, end) appends one record per index, in index order |
| FrameFormat.Record | include/april/monitors/binary_output.h:25-56 | a failed `create_directories` or open is an error; otherwise the file `dir/base_NNNNN.bin` holds the header with count = end - start followed by the records of [start, end) |
| FrameReader.SortNames | animation/animate.py:12 | `sorted` returns an ascending permutation of the names it is given |
| FrameReader.ListBinFiles | animation/animate.py:10-12 | the list holds exactly the `*.bin` entries of the folder listing, each as often as listed, in ascending order |
| FrameReader.UnpackHeader | animation/animate.py:17-20 | a file shorter than the 28-byte header is an error; otherwise magic, version, step, count and flags are the little-endian fields at offsets 0, 4, 8, 16 and 24 |
| FrameReader.DecodeRecordBytes | animation/animate.py:26-33 | the 21-byte packed record dtype reads back position, type, id and state as written |
| FrameReader.DecodeRecords | animation/animate.py:37 | `fromfile` with `count` yields `n` records, record `k` from bytes [21k, 21k+21) |
| FrameReader.DecodeRecordsAt | animation/animate.py:37 | record `k` of the decoded list is the decoding of the `k`-th 21-byte slice |
| FrameReader.DecodeRecordsPrefix | animation/animate.py:37 | bytes after the first `n` records do not change those records |
| FrameReader.DecodeBody | animation/animate.py:37 | record `k` read after the header comes from file bytes [28+21k, 28+21k+21) |
| FrameReader.LoadParticles | animation/animate.py:14-39 | a short header or a wrong magic is an error; a count whose 21-byte records total 2^63 bytes or more is an error, as `np.fromfile` cannot size that array; otherwise the step is returned with min(count, whole records present) records, record `k` decoded from its slice; version and flags are ignored |
| FrameReader.ToRecords | include/april/monitors/binary_output.h:45-55 | one file record per particle, in index order |
| FrameReader.HeaderFields | include/april/monitors/binary_output.h:39-43 | the written header parses back to magic, version, step, count and flags |
| FrameReader.FrameHeaderFields | include/april/monitors/binary_output.h:38-55 | a written frame carries the magic, the step and the particle count, and its body holds exactly that many whole records |
| FrameReader.FrameRecordAt | include/april/monitors/binary_output.h:45-55 | record `k` of a written frame decodes to particle `k`'s record |
| FrameReader.FrameRecords | include/april/monitors/binary_output.h:45-55 | every record of a written frame decodes to its particle's record |
| FrameReader.LoadExactly | animation/animate.py:14-39 | bytes whose header and records match a step and a record list load as exactly those |
| FrameReader.RoundTrip | include/april/monitors/binary_output.h:38-55 | what the monitor writes, `load_particles` reads back: the step and every particle's record in index order, for every frame whose records numpy can size (under 2^63 bytes) |
| FrameReader.HugeCountRejected | animation/animate.py:37 | a header announcing 2^64 - 1 records is refused even though a whole record follows it |
| FrameReader.WrittenFrameTooLarge | animation/animate.py:37 | a written frame of so many particles that their records total 2^63 bytes or more does not read back |
| FrameReader.EmptyFrame | include/april/monitors/binary_output.h:38-55 | a frame of no particles is the header alone and loads as no records |
| FrameReader.Spread | animation/animate.py:102-103 | the divisor is `max - min` of the types, or 1 when that is 0 |
| FrameReader.ColorByType | animation/animate.py:100-104 | one normalised value per particle |
| FrameReader.ColorByTypeAt | animation/animate.py:103 | value `i` is `(type_i - min) / divisor` |
| FrameReader.ColorByTypeRange | animation/animate.py:100-104 | every value lies in [0, 1] and is 0 exactly for the smallest type |
| FrameReader.ColorByTypeMonotone | animation/animate.py:100-104 | a larger type never gets a smaller value |
| FrameReader.ColorByTypeTop | animation/animate.py:100-104 | when the types differ, the largest type and only it maps to 1 |
| FrameReader.ColorByTypeFlat | animation/animate.py:102-103 | when all types are equal every value is 0 |
| FrameReader.Player.constructor | animation/animate.py:80-81 | the player starts on the sorted file list at index 0 |
| FrameReader.Player.UpdateFrame | animation/animate.py:87-98 | an index past the end is reset to 0; the file at the index is loaded and coloured; the index advances only on success |
| FrameReader.ShowFile | animation/animate.py:91-97 | one tick's body: a missing file, an undecodable file or uncolourable types each give their error, otherwise the file, its frame and its colours |
| FrameReader.NextIndex | animation/animate.py:88-98 | the index after a successful tick: the shown index, reset to 0 past the end, plus one |
| FrameReader.TicksCycleAt | animation/animate.py:87-98 | tick `q*n + r` of an `n`-file list shows file `r` |
| FrameReader.TicksCycle | animation/animate.py:87-98 | with every tick succeeding, tick `k` shows file `k mod n` |
| FrameReader.EmptyFrameStalls | animation/animate.py:94-103 | a file announcing no records cannot be coloured, so the tick fails and the index stays |
| Words.FromNat | include/april/math/sfc.hpp:95-113 | the low `width` bits of a value, as the fixed-width words of the key computation hold it |
| Words.ToNatFromNat | include/april/math/sfc.hpp:95-113 | a value below 2^width survives the conversion to a word and back |
| Words.ToNatInjective | include/april/math/sfc.hpp:95-113 | words of one width with equal values are equal |
| Words.Xor | include/april/math/sfc.hpp:80-89 | `a ^ b` sets exactly the bits where the operands differ |
| Words.And | include/april/math/sfc.hpp:87 | `a & b` sets exactly the bits set in both |
| Words.LowMask | include/april/math/sfc.hpp:66 | `(1U << i) - 1` sets exactly the bits below `i` |
| Words.Shr | include/april/math/sfc.hpp:106-112 | `a >> s` moves bit `j + s` to bit `j` and clears the top `s` bits |
| Words.ShlOr | include/april/math/sfc.hpp:101 | `(g << 1) \| bit` drops the top bit, shifts the rest up and puts the bit at the bottom |
| BitPatterns.U32BitsBit | include/april/math/sfc.hpp:75 | bit `j` of a 32-bit coordinate's pattern is `(c >> j) & 1` |
| BitPatterns.U32BitsInjective | include/april/math/sfc.hpp:48 | coordinates below 2^k whose low `k` bits agree are equal |
| Morton.SplitBy3 | include/april/math/sfc.hpp:16-24 | `split_by_3` keeps the low 21 bits and sets only bits at multiples of 3 |
| Morton.SplitBy3Bits | include/april/math/sfc.hpp:16-24 | input bit `i` lands on output bit `3i`, for `i < 21` |
| Morton.SplitBy3Inverse | include/april/math/sfc.hpp:16-24 | gathering every third bit recovers the low 21 input bits, so the spread is one-to-one on them |
| Morton.SplitBy3Examples | include/april/containers/cell_orderings.hpp:14-22 | `split_by_3(7) == 73` and `split_by_3(2) == 8` |
| Morton.MortonKey | include/april/math/sfc.hpp:26-28 | x's spread on bits 0, 3, 6, ..., y's on bits 1, 4, 7, ..., z's on bits 2, 5, 8, ... |
| Morton.MortonLowBits | include/april/math/sfc.hpp:26-28 | equal keys come from coordinates that agree on their low 21 bits |
| Morton.MortonInjective | include/april/math/sfc.hpp:26-28 | cells with coordinates below 2^21 have distinct Morton keys |
| Morton.MortonUnitCube | include/april/containers/cell_orderings.hpp:24-26 | on the 2 x 2 x 2 cube the key is x + 2y + 4z, the flat index |
| Hilbert.OverflowsIff | include/april/math/sfc.hpp:54-56 | for an `int` depth, `3 * num_bits > 64` in `size_t` rejects exactly the negative depths and those above 21 |
| Hilbert.Step | include/april/math/sfc.hpp:75-90 | one inner step changes only the bits below level `i` |
| Hilbert.StepInvolution | include/april/math/sfc.hpp:75-90 | a reflect or transpose step undone by itself gives the coordinates back |
| Hilbert.TransformInjective | include/april/math/sfc.hpp:61-92 | Skilling's transform of the coordinates is one-to-one |
| Hilbert.TransformKeepsHigh | include/april/math/sfc.hpp:61-92 | the transform below level `nb` leaves the bits from `nb` up unchanged |
| Hilbert.Transform | include/april/math/sfc.hpp:61-92 | the first loop computes the transform, level `num_bits - 1` down to 0, dimensions in order |
| Hilbert.TopAt | include/april/math/sfc.hpp:97-103 | bit `k` of level `j` is pushed at position `3 (nb - 1 - j) + k` |
| Hilbert.GrayOfInjective | include/april/math/sfc.hpp:95-103 | at most 64 pushed bits are determined by the word they build |
| Hilbert.PackGray | include/april/math/sfc.hpp:95-103 | the second loop builds the Gray index from the transformed coordinates' bits, most significant level first |
| Hilbert.GrayToBinaryParity | include/april/math/sfc.hpp:106-112 | bit `j` of the converted word is the parity of the Gray bits from `j` up |
| Hilbert.GrayToBinaryInverse | include/april/math/sfc.hpp:106-112 | `b ^ (b >> 1)` undoes the conversion, so it is the Gray-to-binary map |
| Hilbert.GrayToBinaryInjective | include/april/math/sfc.hpp:106-112 | distinct Gray indices convert to distinct keys |
| Hilbert.GrayToBinaryHighClear | include/april/math/sfc.hpp:106-112 | a Gray index below 2^k converts to a key below 2^k |
| Hilbert.HilbertKey | include/april/math/sfc.hpp:48-114 | overflow exactly for a negative depth or one above 21; otherwise the key of the transform, pack and conversion |
| Hilbert.HilbertZeroBits | include/april/math/sfc.hpp:61-103 | with depth 0 both loops are skipped and the key is 0 |
| Hilbert.HilbertBound | include/april/math/sfc.hpp:48-114 | the key is below 2^(3 num_bits) |
| Hilbert.PackInjective | include/april/math/sfc.hpp:95-103 | coordinates below 2^nb are determined by the bits the packing loop pushes |
| Hilbert.HilbertInjective | include/april/math/sfc.hpp:48-114 | coordinates below 2^num_bits have distinct Hilbert keys |
| CellOrderings.PushCell | include/april/containers/cell_orderings.hpp:129-138 | pushing cell (x, y, z) after exactly the cells before it in loop order extends that prefix by one |
| CellOrderings.PrefixComplete | include/april/containers/cell_orderings.hpp:129-138 | after all Nx Ny Nz pushes, entry p is flat index p with its cell's key |
| CellOrderings.SortByKey | include/april/containers/cell_orderings.hpp:141-143 | the sort returns a permutation of its input in non-decreasing key order |
| CellOrderings.DistinctKeysStrict | include/april/containers/cell_orderings.hpp:141-143 | with distinct keys, a ranking by key is strictly increasing in key |
| CellOrderings.SortedCells | include/april/containers/cell_orderings.hpp:141-150 | the sorted list holds each cell once |
| CellOrderings.RanksFromSorted | include/april/containers/cell_orderings.hpp:145-150 | positions in a key-sorted list of the cells form a permutation ranked by key |
| CellOrderings.FillRanks | include/april/containers/cell_orderings.hpp:148-150 | `cell_ordering[coords[i].original_flat_index] == i` for every sorted position `i` |
| CellOrderings.RankByKey | include/april/containers/cell_orderings.hpp:141-150 | sorting then filling gives a permutation of 0..N-1 that ranks cells by key |
| CellOrderings.RanksOfCells | include/april/containers/cell_orderings.hpp:145-150 | every cell sits in the sorted list at the position the table gives it |
| CellOrderings.MortonCoords | include/april/containers/cell_orderings.hpp:127-138 | one (flat, key) entry per cell with flat index z Ny Nx + y Nx + x, x fastest |
| CellOrderings.MortonOrder | include/april/containers/cell_orderings.hpp:116-153 | the result is a permutation of 0..N-1 ranking cells by Morton key, strictly when every axis has at most 2^21 cells |
| CellOrderings.MortonDistinct | include/april/containers/cell_orderings.hpp:133 | with at most 2^21 cells per axis, different cells have different Morton keys |
| CellOrderings.MortonAtInjective | include/april/containers/cell_orderings.hpp:24-26 | coordinates below 2^21 are determined by their Morton key |
| CellOrderings.BitWidth | include/april/containers/cell_orderings.hpp:166 | `std::bit_width(v)` is the fewest bits that write `v` |
| CellOrderings.DepthFits | include/april/containers/cell_orderings.hpp:164-166 | the depth is the fewest bits holding every coordinate, and it is at most 21 exactly when no axis has more than 2^21 cells |
| CellOrderings.HilbertCoords | include/april/containers/cell_orderings.hpp:174-186 | overflow exactly when the grid is non-empty and the depth is above 21; otherwise one (flat, key) entry per cell |
| CellOrderings.HilbertOrder | include/april/containers/cell_orderings.hpp:159-201 | overflow exactly when the grid is non-empty with an axis above 2^21 cells; otherwise a permutation of 0..N-1 ranking cells strictly by Hilbert key |
| CellOrderings.HilbertDistinct | include/april/containers/cell_orderings.hpp:181 | within the curve's depth, different cells have different Hilbert keys |
| CellOrderings.HilbertAtInjective | include/april/containers/cell_orderings.hpp:107-109 | coordinates below 2^nb, nb at most 21, are determined by their Hilbert key |
| CellOrderings.MonotonePermutationIdentity | include/april/containers/cell_orderings.hpp:141-150 | a permutation that keeps the order of its indices is the identity |
| CellOrderings.UnitCubeKeys | include/april/containers/cell_orderings.hpp:129-135 | on the 2 x 2 x 2 grid each cell's Morton key is its flat index |
| CellOrderings.KeysAreRanks | include/april/containers/cell_orderings.hpp:141-150 | a strict ranking of cells whose keys are their indices is the identity |
| CellOrderings.UnitCubeMortonOrder | include/april/containers/cell_orderings.hpp:116-153 | the Morton order of the 2 x 2 x 2 grid is 0, 1, ..., 7 |
| ParticleRecords.Swap | include/april/containers/layout/aos.hpp:124 | `std::swap(particles[i], particles[j])` exchanges the two records and leaves every other one |
| ParticleRecords.IdSetCard | include/april/containers/layout/aos.hpp:91-97 | with distinct ids, the first `m` records carry `m` ids |
| ParticleRecords.DenseIds | include/april/containers/layout/aos.hpp:91-97 | `n` records with distinct ids below `n` use every id below `n`, as the dense renumbering at build time produces them |
| ParticleRecords.Selected | include/april/containers/layout/aos.hpp:44-58 | `iterate` visits, in ascending order, only slots below the capacity whose state passes the mask |
| ParticleRecords.SelectedComplete | include/april/containers/layout/aos.hpp:44-58 | every slot below the capacity whose state passes the mask is visited |
| ParticleRecords.SelectedSkipsInvalid | include/april/containers/layout/aos.hpp:50 | a slot in the INVALID state is never visited, whatever the mask |
| ParticleRecords.PointIds | include/april/containers/layout/aos.hpp:113-117 | after the rebuild every record's id entry points back at a record with that id, entries of ids no record carries are kept, and with distinct ids each id maps to its record |
| ParticleRecords.BuildIdMap | include/april/containers/layout/aos.hpp:91-97 | the map has one entry per record, each record's entry points back at it, and with distinct ids the map is consistent |
| ParticleRecords.GrowTo | include/april/containers/layout/soa.hpp:244-246 | `resize(id + 1, UINT32_MAX)` keeps old entries and fills the new ones with the not-found marker |
| ParticleRecords.Point | include/april/containers/layout/soa.hpp:243-247 | one rebuild step grows the map to reach the id if needed and points the id at `i`, changing no other entry |
| ParticleRecords.PointStep | include/april/containers/layout/soa.hpp:243-247 | one step of the growing rebuild keeps its invariant for one more record |
| ParticleRecords.PointIdsGrowing | include/april/containers/layout/soa.hpp:241-248 | the growing rebuild reaches every record's id, each entry written points back at a record with that id, untouched entries keep their old value or the not-found marker |
| BuildParticles.SortPairs | include/april/system/build_helpers_particle.h:18-19 | the sort of the copied pairs is an ordered permutation of them |
| BuildParticles.SortedNeighboursDistinct | include/april/system/build_helpers_particle.h:21-24 | a sorted sequence with no equal neighbours has no repeats at all |
| BuildParticles.CountedTwice | include/april/system/build_helpers_particle.h:21-24 | a pair that occurs twice is a repeat |
| BuildParticles.ValidateNoDuplicates | include/april/system/build_helpers_particle.h:15-30 | fails exactly when some pair occurs twice, naming such a pair; the caller's pairs are not touched |
| BuildParticles.SelfTypes | include/april/system/build_helpers_particle.h:50-57 | the types left off the "without interaction" set are exactly those with a (t, t) pair |
| BuildParticles.ValidateTypes | include/april/system/build_helpers_particle.h:32-65 | succeeds exactly when no pair repeats, every named type is a user type and every user type has a self-interaction; a repeat is reported first |
| BuildParticles.ValidateIds | include/april/system/build_helpers_particle.h:68-92 | succeeds exactly when no pair repeats and every pair names two distinct user ids; each error names an offending pair |
| BuildParticles.ValidateParticles | include/april/system/build_helpers_particle.h:94-104 | succeeds exactly when every mass is positive; otherwise names a particle whose mass is not |
| BuildParticles.NextFree | include/april/system/build_helpers_particle.h:137 | the first id from the candidate on that is not taken |
| BuildParticles.KeepStep | include/april/system/build_helpers_particle.h:134 | a particle that has an id keeps it |
| BuildParticles.AssignStep | include/april/system/build_helpers_particle.h:136-140 | giving the next id-less particle the first free id extends the assignment by one particle |
| BuildParticles.AssignMissingIds | include/april/system/build_helpers_particle.h:127-142 | every particle ends with an id: existing ones untouched, missing ones given the smallest free id from the previous candidate on, each added to the set |
| BuildParticles.AssignedIdsDistinct | include/april/system/build_helpers_particle.h:127-142 | when the existing ids are distinct and in the set, all ids after assignment are distinct |
| BuildParticles.IndexMap | include/april/system/build_helpers_particle.h:186-188 | `map[v[i]] = i` in order: each value maps to its last index |
| BuildParticles.DistinctIndexMap | include/april/system/build_helpers_particle.h:154-156 | over values without repeats, the map is a bijection onto 0 .. n-1 with `map[v[i]] == i` |
| BuildParticles.CreateTypeMap | include/april/system/build_helpers_particle.h:144-159 | the user types map one-to-one onto 0 .. n-1, in iteration order |
| BuildParticles.Interacting | include/april/system/build_helpers_particle.h:174-178 | exactly the ids named by some id interaction |
| BuildParticles.Partition | include/april/system/build_helpers_particle.h:181-183 | a rearrangement of the ids with every interacting id before every other |
| BuildParticles.TruncatedIds | include/april/system/build_helpers_particle.h:167-171 | the copy into a vector of 16-bit `ParticleType` keeps each id modulo 2^16 |
| BuildParticles.CreateIdMapAsWritten | include/april/system/build_helpers_particle.h:162-191 | the map as written: truncated ids, partitioned, numbered by last index |
| BuildParticles.TruncatedKeys | include/april/system/build_helpers_particle.h:167-188 | the keys of the as-written map are the truncated ids |
| BuildParticles.IdTruncationLosesIds | include/april/system/build_helpers_particle.h:167-171 | with user ids 0 and 65536, 65536 gets no entry and the map has the single key 0 |
| BuildParticles.CreateIdMap | include/april/system/build_helpers_particle.h:162-191 | with ids kept at 32 bits: a bijection from the user ids onto 0 .. n-1 that numbers every interacting id before every other |
| BuildParticles.CreateParticleMappings | include/april/system/build_helpers_particle.h:193-210 | succeeds exactly when all three validations do; the type map is then a bijection onto 0 .. t - 1, and the id map, built by the corrected 32-bit `CreateIdMap` rather than the truncating one the source calls, is injective onto 0 .. n - 1 with every interacting id mapped below every other id |
| BuildParticles.BuildRecords | include/april/system/build_helpers_particle.h:222-258 | succeeds exactly when every id and type is in its map; record `i` then holds particle `i`'s mapped id and type, its mass, state and kinematics, and zero for each force or position not given |
| ForceTables.CountKeys | include/april/forces/force_table.h:114-120 | fails with a missing key exactly when some interaction names an unmapped key; otherwise counts the distinct mapped keys |
| ForceTables.KeySetSnoc | include/april/forces/force_table.h:115-118 | inserting one interaction's two mapped keys adds exactly those to the set |
| ForceTables.ExplicitCell | include/april/forces/force_table.h:124-129 | each cell holds the force of the last interaction naming its pair in either order, a sentinel where none does, and equals its mirror cell |
| ForceTables.ExplicitSymmetric | include/april/forces/force_table.h:124-129 | the table of explicit interactions is symmetric |
| ForceTables.ExplicitSnoc | include/april/forces/force_table.h:124-128 | writing one more interaction sets its cell and leaves the rest |
| ForceTables.FillExplicit | include/april/forces/force_table.h:124-129 | the second loop builds exactly the explicit table |
| ForceTables.MixSlots | include/april/forces/force_table.h:140-146 | mixing gives a sentinel exactly when both self-interactions are sentinels |
| ForceTables.DiagFixed | include/april/forces/force_table.h:132-151 | the walk never changes a diagonal cell, so it always mixes the explicit self-interactions |
| ForceTables.SentinelIsPending | include/april/forces/force_table.h:135 | a sentinel reached off the diagonal was not set explicitly |
| ForceTables.SkipStep | include/april/forces/force_table.h:135 | skipping a diagonal or explicit cell keeps the walk's invariant |
| ForceTables.MixStep | include/april/forces/force_table.h:137-149 | writing the mix into both cells of a pending pair keeps the walk's invariant |
| ForceTables.MixFails | include/april/forces/force_table.h:140-146 | a pending pair whose self-interactions are different force kinds makes the table unmixable |
| ForceTables.NextRow | include/april/forces/force_table.h:132-133 | finishing row `a` is starting row `a + 1` |
| ForceTables.MixMissing | include/april/forces/force_table.h:131-151 | fails with "cannot mix" exactly when some pending pair has self-interactions of different kinds; otherwise every unset off-diagonal pair gets the mix of its two diagonals, in both cells |
| ForceTables.MixedKeepsExplicit | include/april/forces/force_table.h:131-151 | mixing keeps every explicit entry and the symmetry of the table |
| ForceTables.MixedHasNoSentinel | include/april/forces/force_table.h:188-191 | when every type has a self-interaction the mixed table has no sentinel, as the debug check asks |
| ForceTables.SelfInteractionOnDiagonal | include/april/forces/force_table.h:124-129 | a type with a self-interaction has a force on its diagonal cell |
| ForceTables.FillStep | include/april/forces/force_table.h:178-181 | one cell of the fill keeps the loop's invariant |
| ForceTables.FillNoForce | include/april/forces/force_table.h:175-183 | every off-diagonal sentinel becomes `NoForce`; the diagonal and explicit entries stay |
| ForceTables.NoForceSymmetric | include/april/forces/force_table.h:175-183 | the fill keeps a symmetric table symmetric and its diagonal unchanged |
| ForceTables.IdTableShape | include/april/forces/force_table.h:193-202 | without self-pairs, exactly the diagonal of the id table holds sentinels, as the debug check asks |
| ForceTables.MaxCutoff | include/april/forces/force_table.h:207-223 | the scan is at least its start value and every cutoff it reads, and is one of them |
| ForceTables.ForceTable.Empty | include/april/forces/force_table.h:91-99 | a table starts with no types, no ids and cutoff 0 |
| ForceTables.ForceTable.BuildTypeForces | include/april/forces/force_table.h:111-152 | fails on an unmapped type or an unmixable pair; otherwise `n_types` is the number of distinct mapped types and the table is the mixed explicit table |
| ForceTables.ForceTable.BuildIdForces | include/april/forces/force_table.h:155-184 | fails on an unmapped id; otherwise `n_ids` is the number of distinct mapped ids and the table is the explicit table filled with `NoForce` |
| ForceTables.ForceTable.ComputeMaxCutoff | include/april/forces/force_table.h:207-223 | the cutoff is the largest of 0, every type slot's cutoff and every non-sentinel id slot's cutoff |
| ForceTables.ForceTable.GetMaxCutoff | include/april/forces/force_table.h:70-72 | at least 0 and at least every force's cutoff |
| ForceTables.ForceTable.GetTypeForce | include/april/forces/force_table.h:75-77 | the same slot in either order, at `n_types * a + b` |
| ForceTables.ForceTable.GetIdForce | include/april/forces/force_table.h:79-81 | the same slot in either order, at `n_ids * a + b` |
| ForceTables.NewForceTable | include/april/forces/force_table.h:38-48 | succeeds exactly when every key is mapped and the type table mixes; the new table then has one type per type key with the explicit forces mixed into the type table, and one id per id key with each id cell holding its explicit force or the no-force entry |
| CellGrids.AxisCells | include/april/containers/linked_cells/lc_core.hpp:144-146 | an axis gets at least one cell, and exactly the floored ratio when that is at least 1 |
| CellGrids.BinIndexDecode | include/april/containers/linked_cells/lc_core.hpp:483-485 | `cell * n_types + type` decodes back to its cell and type: no two pairs share a bin |
| CellGrids.BinIndexBound | include/april/containers/linked_cells/lc_core.hpp:172 | the bins of valid (cell, type) pairs lie below `n_cells * n_types` |
| CellGrids.BinsOfCell | include/april/containers/linked_cells/lc_core.hpp:487-490 | the bins of one cell are consecutive, and type 0 of the next cell follows its last type |
| CellGrids.CellPosToIdx | include/april/containers/linked_cells/lc_core.hpp:496-499 | a grid cell's id is below the grid size, and it is the flat index `z Nx Ny + y Nx + x` without an ordering |
| CellGrids.CellPosToIdxInjective | include/april/containers/linked_cells/lc_core.hpp:496-499 | different grid cells get different ids, with or without an ordering |
| CellGrids.FlatIdsOnto | include/april/containers/linked_cells/lc_core.hpp:496-499 | without an ordering every grid cell id is the id of the cell it decodes to |
| CellGrids.NeighborIdx | include/april/containers/linked_cells/lc_core.hpp:415-429 | the outside cell exactly when the offset cell leaves the grid, otherwise that cell's id |
| CellGrids.CellIndexFromPosition | include/april/containers/linked_cells/lc_core.hpp:501-517 | the outside cell exactly when the position lies below the domain or a truncated scaled coordinate is past its axis; otherwise the id of that cell |
| CellGrids.BinOfBound | include/april/containers/linked_cells/lc_core.hpp:53-73 | with dense types every particle's bin is a bin of the grid |
| CellGrids.Clamp | include/april/containers/linked_cells/lc_core.hpp:438-448 | `std::clamp` to 0 .. N - 1 keeps a value already in range |
| CellGrids.RegionCorners | include/april/containers/linked_cells/lc_core.hpp:434-462 | both clamped corner cells of a box lie in the grid |
| CellGrids.ZIdsLength | include/april/containers/linked_cells/lc_core.hpp:470-472 | the z loop pushes one id per z |
| CellGrids.YIdsLength | include/april/containers/linked_cells/lc_core.hpp:469-473 | the y loop pushes one column per y |
| CellGrids.XIdsLength | include/april/containers/linked_cells/lc_core.hpp:468-474 | the x loop pushes one slab per x |
| CellGrids.ZIdsHas | include/april/containers/linked_cells/lc_core.hpp:470-472 | the z loop pushes a cell's id exactly when the cell lies in its column range |
| CellGrids.YIdsHas | include/april/containers/linked_cells/lc_core.hpp:469-473 | the y loop pushes a cell's id exactly when the cell lies in its slab |
| CellGrids.XIdsHas | include/april/containers/linked_cells/lc_core.hpp:468-474 | the x loop pushes a cell's id exactly when the cell lies in its box |
| CellGrids.RegionColumn | include/april/containers/linked_cells/lc_core.hpp:470-472 | the z loop's ids |
| CellGrids.RegionSlab | include/april/containers/linked_cells/lc_core.hpp:469-473 | the y loop's ids |
| CellGrids.GetCellsInRegion | include/april/containers/linked_cells/lc_core.hpp:432-481 | every cell of the clamped box, x outermost and z innermost, followed by the outside cell exactly when the box is not inside the domain |
| CellGrids.RegionCells | include/april/containers/linked_cells/lc_core.hpp:464-474 | the region holds one id per cell of the box, exactly the ids of the cells inside it, and never the outside cell |
| Stencils.ForwardHalf | include/april/containers/linked_cells/lc_core.hpp:198-200 | the zero offset is not forward, an offset and its negation are never both forward, and of every other pair one is |
| Stencils.StencilRowStep | include/april/containers/linked_cells/lc_core.hpp:195-211 | one more x step appends that offset when it is kept |
| Stencils.StencilRowHas | include/april/containers/linked_cells/lc_core.hpp:195-211 | the x loop keeps exactly the forward, near offsets of its row up to x |
| Stencils.StencilPlaneHas | include/april/containers/linked_cells/lc_core.hpp:194-212 | the y loop keeps exactly the forward, near offsets of its plane up to y |
| Stencils.StencilUpToHas | include/april/containers/linked_cells/lc_core.hpp:193-214 | the z loop keeps exactly the forward, near offsets of the planes up to z |
| Stencils.StencilMembers | include/april/containers/linked_cells/lc_core.hpp:183-215 | the stencil holds exactly the forward offsets of the reach box whose gap to the centre cell is within the cutoff |
| Stencils.NearNeg | include/april/containers/linked_cells/lc_core.hpp:203-209 | the gap test does not depend on the direction of an offset |
| Stencils.StencilHalfShell | include/april/containers/linked_cells/lc_core.hpp:183-215 | the stencil never holds the zero offset nor an offset and its negation, and of every other near offset in reach it holds it or its negation |
| Stencils.UnitStencil | include/april/containers/linked_cells/lc_core.hpp:203-209 | adjacent cells are always near, so a reach-1 stencil holds every forward unit offset |
| Stencils.StencilRowLoop | include/april/containers/linked_cells/lc_core.hpp:195-211 | the x loop's kept offsets |
| Stencils.StencilPlaneLoop | include/april/containers/linked_cells/lc_core.hpp:194-212 | the y loop's kept offsets |
| Stencils.CreateNeighborStencil | include/april/containers/linked_cells/lc_core.hpp:183-215 | the stencil, z from 0 to nz, y from -ny to ny, x from -nx to nx |
| Stencils.WrapAxis | include/april/containers/linked_cells/lc_core.hpp:219-237 | an unwrapped axis keeps its coordinate, and the shift sign is -1, 0 or 1 |
| Stencils.WrapIf | include/april/containers/linked_cells/lc_core.hpp:257-259 | only periodic axes are wrapped |
| Stencils.WrapRulesAgree | include/april/containers/linked_cells.hpp:352-363 | for unit displacements the plain container's -1/N wrap and the general wrap agree |
| Stencils.FlagsEncodeShift | include/april/containers/linked_cells/lc_core.hpp:236 | an axis is wrapped exactly when its flag bit `1 << ax` is set |
| Stencils.UnwrappedNeighbor | include/april/containers/linked_cells/lc_core.hpp:219-237 | a neighbour inside the grid keeps its coordinates and gets no shift |
| Stencils.WrappedCandidate | include/april/containers/linked_cells/lc_core.hpp:252-275 | at most one wrapped pair, between two grid cells with a non-zero shift |
| Stencils.NeighborCandidate | include/april/containers/linked_cells.hpp:369-390 | at most one neighbour pair, between two grid cells |
| Stencils.NeighborIffInGrid | include/april/containers/linked_cells.hpp:369-390 | a displacement gives a neighbour pair exactly when the displaced cell is in the grid, and then it is that cell; the zero offset gives no wrapped pair |
| Stencils.CellWrapped | include/april/containers/linked_cells/lc_core.hpp:243-276 | the wrapped pairs one cell collects over the stencil all join two grid cells with a non-zero shift |
| Stencils.CellWrappedHas | include/april/containers/linked_cells/lc_core.hpp:243-276 | every wrapped pair of a cell and a stencil offset is collected for that cell |
| Stencils.CellWrappedLoop | include/april/containers/linked_cells/lc_core.hpp:243-276 | the stencil loop of one cell collects its wrapped pairs |
| Stencils.GridNeighbors | include/april/containers/linked_cells.hpp:366-401 | the x, y, z sweep of one displacement yields only pairs of grid cells |
| Stencils.GridHasNeighbor | include/april/containers/linked_cells.hpp:365-402 | whatever neighbour pair one grid cell contributes is in the sweep over the grid |
| Stencils.GridWraps | include/april/containers/linked_cells/lc_core.hpp:240-279 | the z, y, x sweep yields only wrapped pairs of grid cells with a non-zero shift |
| Stencils.GridHasWrap | include/april/containers/linked_cells/lc_core.hpp:240-279 | whatever wrapped pair one grid cell contributes is in the sweep over the grid |
| Stencils.WrappedComplete | include/april/containers/linked_cells/lc_core.hpp:217-280 | every listed pair joins two grid cells with a non-zero shift, and every wrapped pair of a grid cell and a non-zero stencil offset is listed |
| Stencils.WrappedRowLoop | include/april/containers/linked_cells/lc_core.hpp:242-277 | the x loop's wrapped pairs |
| Stencils.WrappedPlaneLoop | include/april/containers/linked_cells/lc_core.hpp:241-278 | the y loop's wrapped pairs |
| Stencils.ComputeWrappedCellPairs | include/april/containers/linked_cells/lc_core.hpp:217-280 | the wrapped pairs of every cell in (z, y, x) order and every non-zero stencil offset |
| Stencils.DisplacementsForward | include/april/containers/linked_cells.hpp:344-350 | the 13 displacements are exactly the unit offsets forward in (z, x, y) order |
| Stencils.DisplacementsHalfShell | include/april/containers/linked_cells.hpp:344-350 | the 13 displacements exclude zero and hold exactly one of every other unit offset and its negation |
| Stencils.NeighborPairs | include/april/containers/linked_cells.hpp:365-402 | the neighbour pairs of all displacements join grid cells only |
| Stencils.NeighborPairsHas | include/april/containers/linked_cells.hpp:365-402 | every neighbour pair of a displacement and a cell is collected |
| Stencils.WrappedPairs | include/april/containers/linked_cells.hpp:365-402 | the wrapped pairs of all displacements join grid cells with a non-zero shift |
| Stencils.WrappedPairsHas | include/april/containers/linked_cells.hpp:365-402 | every wrapped pair of a displacement and a cell is collected |
| Stencils.CellPairsComplete | include/april/containers/linked_cells.hpp:341-403 | every grid cell with a displaced cell in the grid forms a neighbour pair, and every wrapped pair of a displacement is listed |
| Stencils.NeighborPairOnce | include/april/containers/linked_cells.hpp:344-390 | each unordered pair of adjacent grid cells arises from one (cell, displacement) source only |
| Stencils.SweepRow | include/april/containers/linked_cells.hpp:368-399 | the x loop of one displacement |
| Stencils.SweepPlane | include/april/containers/linked_cells.hpp:367-400 | the y loop of one displacement |
| Stencils.Sweep | include/april/containers/linked_cells.hpp:366-401 | one displacement's sweep over the grid |
| Stencils.ComputeCellPairs | include/april/containers/linked_cells.hpp:341-403 | the neighbour and wrapped pairs of all 13 displacements over the grid |
| CountingSort.Dest | include/april/containers/linked_cells.hpp:233-240 | each particle's slot lies inside its bin's range, after every smaller bin |
| CountingSort.OccStep | include/april/containers/linked_cells.hpp:216-221 | counting one more particle raises only its own bin's count |
| CountingSort.BelowStep | include/april/containers/linked_cells.hpp:224-229 | the start of bin b + 1 is the start of bin b plus b's count |
| CountingSort.BelowMono | include/april/containers/linked_cells.hpp:224-229 | starts never decrease |
| CountingSort.BelowAll | include/april/containers/linked_cells.hpp:224-229 | when every key is below the sentinel, the sentinel's start is the particle count |
| CountingSort.EarlierInBin | include/april/containers/linked_cells.hpp:236 | the earlier particles of a bin and the particle itself fit inside the bin |
| CountingSort.DestOrder | include/april/containers/linked_cells.hpp:233-240 | one slot precedes another exactly when its bin is smaller, or the bin is equal and the particle came first |
| CountingSort.DestOnto | include/april/containers/linked_cells.hpp:233-240 | every slot below the particle count receives some particle |
| CountingSort.DestsPermutation | include/april/containers/linked_cells.hpp:233-240 | distinct particles go to distinct slots below the particle count |
| CountingSort.DestsOnto | include/april/containers/linked_cells.hpp:233-240 | every slot below the particle count is some particle's slot |
| CountingSort.DestIsStableSort | include/april/containers/linked_cells.hpp:209-244 | the scatter is a stable sort by bin: a permutation of the slots in which order follows bin, then original index |
| CountingSort.StartsShape | include/april/containers/linked_cells.hpp:223-229 | the starts begin at 0, never decrease, differ by each bin's size and end at the particle count |
| CountingSort.CountKeys | include/april/containers/linked_cells.hpp:212-221 | after the counting pass every bin holds its number of particles |
| CountingSort.ExclusivePrefix | include/april/containers/linked_cells.hpp:223-229 | each count is replaced by the sum of the counts before it |
| CountingSort.Scatter | include/april/containers/linked_cells.hpp:231-240 | particle i is written to its slot `write_ptr[bin]++` and its id points there; ids of no particle keep their entries |
| CountingSort.KeysOf | include/april/containers/linked_cells.hpp:218-220 | the bin of every record, from its cell and type |
| CountingSort.RebuildByBins | include/april/containers/linked_cells.hpp:209-244 | the starts are the exclusive prefix sums of the bin sizes, each record lands in its slot and each id points at it |
| CountingSort.SlotOrigin | include/april/containers/linked_cells.hpp:231-243 | every slot of the rebuilt storage holds the record scattered to it |
| CountingSort.RebuiltSorted | include/april/containers/linked_cells.hpp:209-244 | the rebuilt storage is ordered by bin |
| CountingSort.RebuiltInBins | include/april/containers/linked_cells.hpp:209-244 | every rebuilt record lies inside the slot range of its own bin |
| CountingSort.RebuiltMap | include/april/containers/linked_cells.hpp:239 | after the rebuild the id map points every stored id at its slot |
| CountingSort.PermutedMultiset | include/april/containers/linked_cells.hpp:231-243 | the rebuild keeps every record with its multiplicity |
| CountingSort.SeqPermutation | include/april/containers/linked_cells.hpp:236-238 | moving every element to a distinct slot is a rearrangement |
| Bins.Flatten | include/april/containers/layout/aos.hpp:105-109 | no bins flatten to the empty order |
| Bins.Offsets | include/april/containers/layout/aos.hpp:105-109 | one start position per bin |
| Bins.Sizes | include/april/containers/layout/aos.hpp:105-109 | the size of every bin |
| Bins.FlattenAppend | include/april/containers/layout/aos.hpp:105-109 | flattening two lists of bins concatenates their flat orders |
| Bins.FlattenSlice | include/april/containers/layout/aos.hpp:105-109 | each bin is the slice of the flat order from its offset, as long as the bin |
| Bins.OffsetsStep | include/april/containers/layout/aos.hpp:105-109 | offsets start at 0 and step by each bin's size, and the flat order ends after the last bin |
| Bins.Gather | include/april/containers/layout/aos.hpp:105-110 | `tmp[current_idx++] = particles[old_idx]` puts record `order[k]` at slot k |
| Bins.GatherPermutes | include/april/containers/layout/aos.hpp:101-110 | gathering along a permutation keeps every record with its multiplicity |
| Bins.GatherDistinct | include/april/containers/layout/aos.hpp:101-110 | gathering along a permutation keeps ids distinct |
| Bins.GatherBin | include/april/containers/layout/aos.hpp:105-109 | bin k's j-th entry lands at the bin's offset plus j |
| Bins.GatherAlongBins | include/april/containers/layout/aos.hpp:101-110 | when the bins list every slot once, reordering keeps every record, keeps ids distinct and lays each bin out contiguously |
| LinkedCellsCore.OffsetsTile | include/april/containers/layout/soa.hpp:217-230 | the ranges `reorder_storage` records tile the gathered slots |
| LinkedCellsCore.OneRangeTiled | include/april/containers/layout/soa.hpp:184-193 | the single range [0, n) that `build_storage` records tiles the storage |
| LinkedCellsCore.ReorderedTiled | include/april/containers/layout/soa.hpp:217-230 | the ranges left after a reorder tile the storage |
| LinkedCellsCore.Push | include/april/containers/linked_cells/lc_core.hpp:63-69 | each visited index is appended to the bin its cell and type name |
| LinkedCellsCore.PushSelects | include/april/containers/linked_cells/lc_core.hpp:55-70 | from cleared bins, bin b ends up holding exactly the visited indices of bin b, in visit order |
| LinkedCellsCore.PushKeepsVisits | include/april/containers/linked_cells/lc_core.hpp:55-70 | the filled bins list every visited index as often as it was visited |
| LinkedCellsCore.AssignmentPermutes | include/april/containers/linked_cells/lc_core.hpp:55-70 | pushing every slot of a tiled storage into cleared bins lists every slot exactly once |
| LinkedCellsCore.IotaPermutation | include/april/containers/linked_cells/lc_core.hpp:60-70 | the slot indices 0 .. n - 1 that the loop over the tiled ranges visits form a permutation of 0 .. n - 1 |
| LinkedCellsCore.SameMultisetPermutation | include/april/containers/linked_cells/lc_core.hpp:55-72 | a sequence with the same elements as a permutation of 0 .. n - 1 is one too |
| LinkedCellsCore.AssignBins | include/april/containers/linked_cells/lc_core.hpp:53-70 | every bin cleared, then each layout range visited in order |
| LinkedCellsCore.PushRange | include/april/containers/linked_cells/lc_core.hpp:60-70 | every index of one layout range goes, in order, to the end of its bin |
| LinkedCellsCore.PushOne | include/april/containers/linked_cells/lc_core.hpp:64-68 | one index goes to the end of the bin of its cell and type |
| LinkedCellsCore.Locate | include/april/containers/layout/soa.hpp:217-230 | slot j of the bins laid end to end belongs to one bin at one position within it |
| LinkedCellsCore.BlockHoldsKeys | include/april/containers/linked_cells/lc_core.hpp:53-73 | slot j lies in the joint range of bins lo .. hi - 1 exactly when the index stored there has a key among them |
| LinkedCellsCore.CellIndexRangeSpans | include/april/containers/linked_cells/lc_core.hpp:487-494 | the index range of a cell is the joint range of its `n_types` bins |
| LinkedCellsCore.RebuiltCellRange | include/april/containers/linked_cells/lc_core.hpp:53-73 | after a rebuild a slot lies in the index range of cell c exactly when its particle belongs to cell c, whatever its type |
| LinkedCellsCore.OffsetParts | include/april/containers/linked_cells/lc_core.hpp:362-382 | one block of adds per stencil offset |
| LinkedCellsCore.ProcessCellInteractions | include/april/containers/linked_cells/lc_core.hpp:337-383 | the intra-cell add, the early return for an empty cell of one type, then the stencil sweep |
| LinkedCellsCore.SweepStencil | include/april/containers/linked_cells/lc_core.hpp:362-382 | the adds of every stencil offset in order |
| LinkedCellsCore.OffsetStep | include/april/containers/linked_cells/lc_core.hpp:363-381 | for one offset: nothing outside the grid; Cell(t1) with Neighbour(t2), and for two types Neighbour(t1) with Cell(t2), each only when both are non-empty |
| LinkedCellsCore.IntraStep | include/april/containers/linked_cells/lc_core.hpp:348-355 | one type adds its cell range when it holds more than one particle; two types add both ranges when both are non-empty |
| LinkedCellsCore.SweepHas | include/april/containers/linked_cells/lc_core.hpp:362-382 | a sweep holds exactly the adds of its first k offsets |
| LinkedCellsCore.NeighborAddsAsym | include/april/containers/linked_cells/lc_core.hpp:362-382 | every add of the stencil sweep pairs two non-empty ranges |
| LinkedCellsCore.KernelAddsPresent | include/april/containers/linked_cells/lc_core.hpp:337-383 | the kernel never hands on an empty range; a symmetric range only for one type with two or more particles in the cell, and first; nothing at all for one type in an empty cell |
| LinkedCellsCore.KernelCoversNeighbors | include/april/containers/linked_cells/lc_core.hpp:362-382 | for every stencil neighbour in the grid, Cell(t1) is paired with Neighbour(t2), and for two types Neighbour(t1) with Cell(t2), whenever both ranges are non-empty |
| LinkedCellsCore.TypePairs | include/april/containers/linked_cells/lc_core.hpp:309-313 | every pair t1 <= t2 of the n types, once each, ordered by t1 then t2 |
| LinkedCellsCore.GetWidth | include/april/containers/linked_cells_types.hpp:73-82 | no width exactly for a manual strategy without a size; the presets give rc, rc / 2 or rc / 3; the manual strategies give the size or the size times rc |
| LinkedCellsCore.CoreCutoff | include/april/containers/linked_cells/lc_core.hpp:125-137 | the largest active cutoff, or half the smallest extent when there is none or it exceeds the smallest extent |
| LinkedCellsCore.CoreAxes | include/april/containers/linked_cells/lc_core.hpp:144-146 | the floored ratio of extent to width per axis, at least 1 |
| LinkedCellsCore.CoreGrid | include/april/containers/linked_cells/lc_core.hpp:144-168 | the grid for the target width, with `n_grid_cells + 1` cells and the outside cell last |
| LinkedCellsCore.CoreCellsCoverWidth | include/april/containers/linked_cells/lc_core.hpp:142-153 | the cells are at least the target width on every axis that long, never wider than their axis, and one cell spans a shorter axis |
| LinkedCellsCore.Reach | include/april/containers/linked_cells/lc_core.hpp:186-188 | the stencil reach along an axis is the cutoff in cell widths, rounded up |
| LinkedCellsCore.OrderedGrid | include/april/containers/linked_cells/lc_core.hpp:176-181 | the grid after `init_cell_order` carries the configured ordering of its axes, if any |
| LinkedCellsCore.RebuildGroupsCells | include/april/containers/linked_cells/lc_core.hpp:53-73 | after a rebuild every particle index lies in exactly one assignment bin, and each cell's index range holds exactly its particles |
| LinkedCellsCore.Core.constructor | include/april/containers/linked_cells/lc_core.hpp:38-41 | the core starts with empty storage, no stencil, no wrapped pairs and no assignment bins |
| LinkedCellsCore.Core.SetupCellGrid | include/april/containers/linked_cells/lc_core.hpp:123-174 | settles the cutoff, plans the grid for its width and sizes the bin starts and assignment bins to one entry per bin |
| LinkedCellsCore.Core.Width | include/april/containers/linked_cells/lc_core.hpp:124-138 | the width `get_width` returns for the settled cutoff, none when it would throw |
| LinkedCellsCore.Core.InitCellOrder | include/april/containers/linked_cells/lc_core.hpp:176-181 | installs the configured ordering, if any |
| LinkedCellsCore.Core.CreateNeighborStencil | include/april/containers/linked_cells/lc_core.hpp:183-215 | appends the forward offsets within the cutoff |
| LinkedCellsCore.Core.ComputeWrappedCellPairs | include/april/containers/linked_cells/lc_core.hpp:217-280 | appends the pairs that cross a periodic face |
| LinkedCellsCore.Core.PreAllocateAssignmentBins | include/april/containers/linked_cells/lc_core.hpp:282-291 | one assignment bin per bin |
| LinkedCellsCore.Core.RebuildStructure | include/april/containers/linked_cells/lc_core.hpp:53-73 | the bins list every slot once, grouped by cell and type; the storage is gathered along them, the ranges tile it and the id map points back |
| LinkedCellsCore.Core.PlanCells | include/april/containers/linked_cells/lc_core.hpp:44-47 | the grid, the cell order, the stencil and the wrapped pairs, in that order |
| LinkedCellsCore.Core.BuildSteps | include/april/containers/linked_cells/lc_core.hpp:43-51 | with a configured width: the planned grid, cutoff, stencil and wrapped pairs, one assignment bin per bin holding its slots in order, the storage the input gathered along the bins, the bin ranges tiling it, and with distinct ids a consistent id map |
| LinkedCellsCore.Core.Build | include/april/containers/linked_cells/lc_core.hpp:43-51 | fails with `MissingCellSize`, changing nothing, exactly when no cell width is configured; otherwise plans the cells, stores the particles, sizes the bins and rebuilds: the storage is the input gathered by bin, tiled, and with distinct ids the id map is consistent |
| CellBatches.SymChunks | include/april/containers/linked_cells.hpp:119-123 | every chunk of one type holds at least two particles |
| CellBatches.SymChunksIff | include/april/containers/linked_cells.hpp:119-123 | a range is a chunk of type t exactly when it is the range of a grid cell holding at least two particles of t |
| CellBatches.SymBatches | include/april/containers/linked_cells.hpp:115-128 | one symmetric batch per type that has a chunk, types in increasing order, each with the same type on both sides |
| CellBatches.SymBatchesHas | include/april/containers/linked_cells.hpp:115-128 | every type with a chunk gets its batch carrying all its chunks |
| CellBatches.SymChunksLoop | include/april/containers/linked_cells.hpp:119-123 | the cell loop collects exactly the chunks of type t |
| CellBatches.SymmetricPhase | include/april/containers/linked_cells.hpp:111-128 | the intra-cell phase emits exactly the symmetric batches |
| CellBatches.PairChunks | include/april/containers/linked_cells.hpp:140-148 | every chunk pair has two non-empty ranges |
| CellBatches.PairChunksIff | include/april/containers/linked_cells.hpp:140-148 | a pair of ranges is a chunk pair exactly when it is the (t1, t2) ranges of one grid cell, both non-empty |
| CellBatches.SameCellRow | include/april/containers/linked_cells.hpp:135-153 | for one t1 only larger types t2 occur, in order, each batch non-empty |
| CellBatches.SameCellRowExact | include/april/containers/linked_cells.hpp:135-153 | every batch of the row of t1 carries exactly the chunk pairs of t1 and its second type |
| CellBatches.SameCellBatches | include/april/containers/linked_cells.hpp:134-154 | every same-cell batch pairs two types with t1 < t2 |
| CellBatches.SameCellBatchesExact | include/april/containers/linked_cells.hpp:134-154 | every same-cell batch carries exactly the chunk pairs of its two types |
| CellBatches.SameCellBatchesHas | include/april/containers/linked_cells.hpp:134-154 | every type pair t1 < t2 with a chunk pair gets its batch |
| CellBatches.SameCellRowHas | include/april/containers/linked_cells.hpp:135-153 | the row of t1 holds the batch of every larger t2 that has a chunk pair |
| CellBatches.PairChunksLoop | include/april/containers/linked_cells.hpp:140-148 | the cell loop collects exactly the chunk pairs of (t1, t2) |
| CellBatches.SameCellPhase | include/april/containers/linked_cells.hpp:130-154 | the two-type intra-cell phase emits exactly the same-cell batches |
| CellBatches.SameCellRowLoop | include/april/containers/linked_cells.hpp:135-153 | the t2 loop for one t1 emits exactly that row |
| CellBatches.NeighborChunks | include/april/containers/linked_cells.hpp:166-174 | every neighbour chunk pair has two non-empty ranges |
| CellBatches.NeighborChunksSound | include/april/containers/linked_cells.hpp:166-174 | every neighbour chunk pair is the (t1, t2) ranges of some precomputed neighbour pair |
| CellBatches.NeighborChunksComplete | include/april/containers/linked_cells.hpp:166-174 | the (t1, t2) ranges of every precomputed neighbour pair, both non-empty, are a neighbour chunk pair |
| CellBatches.NeighborChunksIff | include/april/containers/linked_cells.hpp:166-174 | a pair of ranges is a chunk pair exactly when it is the (t1, t2) ranges of a precomputed neighbour pair, both non-empty |
| CellBatches.NeighborRow | include/april/containers/linked_cells.hpp:161-179 | reference definition of the t2 loop for one t1: the batches of the t2 in order that have neighbour chunk pairs, skipping the others; `NeighborRowLoop` is proved to emit it and `NeighborRowExact`/`NeighborRowHas` state its contents |
| CellBatches.NeighborBatches | include/april/containers/linked_cells.hpp:160-180 | reference definition of the neighbour phase: the rows of t1 = 0 .. nt - 1 concatenated; `NeighborPhase` is proved to emit it and `NeighborBatchesExact`/`NeighborBatchesHas` state its contents |
| CellBatches.NeighborRowExact | include/april/containers/linked_cells.hpp:161-179 | every batch of the row of t1 has first type t1, a second type of the grid, and exactly the non-empty list of neighbour chunk pairs of those two types |
| CellBatches.NeighborBatchesExact | include/april/containers/linked_cells.hpp:160-180 | every neighbour batch of the first nt rows has its first type below nt and carries exactly the non-empty list of neighbour chunk pairs of its two types |
| CellBatches.NeighborRowHas | include/april/containers/linked_cells.hpp:161-179 | the row of t1 holds the batch of every t2 that has a neighbour chunk pair |
| CellBatches.NeighborBatchesHas | include/april/containers/linked_cells.hpp:160-180 | every ordered type pair with a neighbour chunk pair gets its batch |
| CellBatches.NeighborChunksLoop | include/april/containers/linked_cells.hpp:166-174 | the pair loop collects exactly the neighbour chunk pairs of (t1, t2) |
| CellBatches.NeighborPhase | include/april/containers/linked_cells.hpp:156-180 | the neighbour phase emits exactly the neighbour batches |
| CellBatches.NeighborRowLoop | include/april/containers/linked_cells.hpp:161-179 | the t2 loop for one t1 emits exactly that row |
| CellBatches.WrappedRow | include/april/containers/linked_cells.hpp:193-203 | every wrapped batch of a row has a non-empty second range and the pair's shift |
| CellBatches.WrappedPairBatches | include/april/containers/linked_cells.hpp:189-204 | every batch of one wrapped pair has two non-empty ranges and that pair's shift |
| CellBatches.WrappedBatches | include/april/containers/linked_cells.hpp:184-205 | every wrapped batch has two non-empty ranges |
| CellBatches.WrappedRowAt | include/april/containers/linked_cells.hpp:193-203 | the batch of (t1, t2) is found in the row of t1 when its second range is non-empty |
| CellBatches.PairBatchesSplit | include/april/containers/linked_cells.hpp:189-204 | the batches of one pair are those of the smaller types followed by the row of the last type when its first range is non-empty |
| CellBatches.WrappedPairBatchesAt | include/april/containers/linked_cells.hpp:189-204 | the batch of (t1, t2) is found among the pair's batches when both ranges are non-empty |
| CellBatches.KeepIndex | include/april/containers/linked_cells.hpp:189-204 | adding a type keeps the earlier batches in place |
| CellBatches.LastRowIndex | include/april/containers/linked_cells.hpp:189-204 | the row of the last type follows the batches of the smaller types |
| CellBatches.WrappedBatchesHas | include/april/containers/linked_cells.hpp:184-205 | every wrapped pair and type pair with both ranges non-empty gets its own batch with the pair's shift |
| CellBatches.WrappedBatchesConcat | include/april/containers/linked_cells.hpp:184-205 | the wrapped batches are those of each wrapped pair, concatenated in pair order |
| CellBatches.WrappedBatchesCover | include/april/containers/linked_cells.hpp:184-205 | the batches of an earlier wrapped pair remain among those of any longer prefix |
| CellBatches.BatchesStep | include/april/containers/linked_cells.hpp:184-205 | the batches of n pairs are those of n - 1 pairs followed by those of pair n - 1 |
| CellBatches.WrappedPairLoop | include/april/containers/linked_cells.hpp:189-204 | the type loops of one wrapped pair emit exactly its batches |
| CellBatches.WrappedRowLoop | include/april/containers/linked_cells.hpp:193-203 | the t2 loop emits exactly the row of t1 |
| CellBatches.WrappedPhase | include/april/containers/linked_cells.hpp:182-205 | the wrapped phase emits exactly the wrapped batches, pair by pair |
| CellBatches.BatchesNonEmpty | include/april/containers/linked_cells.hpp:103-206 | the callback never receives an empty batch or an empty range, and symmetric chunks hold at least two particles |
| LinkedCells.MaxActiveCutoff | include/april/containers/linked_cells.hpp:299-304 | the largest cutoff of an active interaction some type uses: at least every such cutoff, and one of them unless it is 0 |
| LinkedCells.ScanMaxCutoff | include/april/containers/linked_cells.hpp:299-304 | the scan over the schema finds exactly that maximum |
| LinkedCells.TargetCellSize | include/april/containers/linked_cells.hpp:294-311 | the hint when given; otherwise the largest cutoff when it is positive and fits the smallest extent, else half that extent |
| LinkedCells.Inverse | include/april/containers/linked_cells.hpp:320-324 | the cached inverse times the width is 1 for a positive width, and 0 otherwise |
| LinkedCells.CellWidthCoversTarget | include/april/containers/linked_cells.hpp:314-319 | cells are at least the target width and at most the axis when the axis reaches the target; a shorter axis gets one cell spanning it |
| LinkedCells.QuotientVsOne | include/april/containers/linked_cells.hpp:314-316 | the floored quotient reaches 1 exactly when the extent reaches the target |
| LinkedCells.WidthBetween | include/april/containers/linked_cells.hpp:319 | spreading the extent over 1 .. extent / h cells gives widths between h and the extent |
| LinkedCells.PlanAxes | include/april/containers/linked_cells.hpp:314-316 | every axis has at least one cell |
| LinkedCells.PlanGrid | include/april/containers/linked_cells.hpp:326-332 | the planned axes, one slot per schema type, the domain corner; valid whenever the cell count fits uint32 |
| LinkedCells.GridKeys | include/april/containers/linked_cells.hpp:216-221 | with dense types every particle's bin lies below the sentinel |
| LinkedCells.RebuildLaysOutBins | include/april/containers/linked_cells.hpp:209-244 | after a rebuild the bin starts run from 0 to the particle count without decreasing, the storage is a permutation ordered by bin, and the id map points every id at its slot |
| LinkedCells.RebuildIsStable | include/april/containers/linked_cells.hpp:231-240 | two particles of the same bin keep their relative order |
| LinkedCells.RangesDisjoint | include/april/containers/linked_cells.hpp:223-229 | the slot ranges of different bins do not overlap |
| LinkedCells.BinRangeHolds | include/april/containers/linked_cells.hpp:209-244 | slot d lies in bin b's range exactly when its particle belongs to bin b |
| LinkedCells.TypesKept | include/april/containers/linked_cells.hpp:231-240 | the scatter keeps every type below the type count |
| LinkedCells.BlockRangeHolds | include/april/containers/linked_cells.hpp:209-244 | slot d lies in the joint range of bins lo .. hi - 1 exactly when its particle belongs to one of them |
| LinkedCells.CellRangeHolds | include/april/containers/linked_cells.hpp:464-470 | after a rebuild, slot d lies in the index range of cell c exactly when its particle's position falls in cell c |
| LinkedCells.BinInCell | include/april/containers/linked_cells.hpp:460-466 | bin c' n + t lies among the n bins of cell c exactly when c' is c |
| LinkedCells.BlockOfRanges | include/april/containers/linked_cells.hpp:464-470 | a slot of key k lies in the joint range of keys lo .. hi - 1 exactly when k is among them |
| LinkedCells.LinkedCellsAoS.constructor | include/april/containers/linked_cells.hpp:88 | an empty, unbuilt container holding the configuration, with no bins and no cell pairs |
| LinkedCells.LinkedCellsAoS.SetupCellGrid | include/april/containers/linked_cells.hpp:293-338 | the planned grid and cell widths, one bin start per bin plus the sentinel, scratch storage sized to the particle count |
| LinkedCells.LinkedCellsAoS.RebuildStructure | include/april/containers/linked_cells.hpp:209-244 | the counting sort by (cell, type) bin: prefix-sum starts, stable scatter, id map updated, old storage left in the scratch vector |
| LinkedCells.LinkedCellsAoS.ComputeCellPairs | include/april/containers/linked_cells.hpp:341-403 | appends exactly the plain neighbour pairs and the wrapped pairs of the 13 half-stencil displacements |
| LinkedCells.LinkedCellsAoS.Build | include/april/containers/linked_cells.hpp:90-99 | a full build (storage, grid, bins, pairs) holding a permutation of the input grouped by bin, failing exactly on an infinite domain |
| LinkedCells.LinkedCellsAoS.ForEachInteractionBatch | include/april/containers/linked_cells.hpp:103-206 | the callback receives the intra-cell, two-type, neighbour and wrapped batches, in that order |
| LinkedCellsAoSoA.WriteToTmp | include/april/containers/linked_cells_aosoa.hpp:555-588 | slot dst of the scratch chunks receives every field of slot src of the main chunks; no other scratch slot changes |
| LinkedCellsAoSoA.ScatterStep | include/april/containers/linked_cells_aosoa.hpp:224-231 | scattering one more particle to its write pointer puts it at its stable destination and keeps the scatter invariant |
| LinkedCellsAoSoA.ScatterLanes | include/april/containers/linked_cells_aosoa.hpp:223-231 | every particle lands at its stable destination with its id pointed there, slots past the count are untouched, and every write pointer ends at the end of its bin |
| LinkedCellsAoSoA.RebuildChunks | include/april/containers/linked_cells_aosoa.hpp:194-234 | the counting sort over the chunk lanes leaves the rebuilt state (prefix-sum starts, stable scatter, updated id map) and the write pointers at the bin ends |
| LinkedCellsAoSoA.LinkedCellsChunked.constructor | include/april/containers/linked_cells_aosoa.hpp:32 | an empty container and an empty scratch storage of the given chunk size, holding the configuration |
| LinkedCellsAoSoA.LinkedCellsChunked.AllocateTmpStorage | include/april/containers/linked_cells_aosoa.hpp:548-553 | the scratch storage grows to the particle count when smaller and is left alone otherwise |
| LinkedCellsAoSoA.LinkedCellsChunked.SetupCellGrid | include/april/containers/linked_cells_aosoa.hpp:296-348 | the settled cutoff, the grid planned from the configured width, bin starts and write pointers sized to the bins plus the sentinel, scratch grown to the particle count |
| LinkedCellsAoSoA.LinkedCellsChunked.Width | include/april/containers/linked_cells_aosoa.hpp:297-311 | the width `get_width` returns for the settled cutoff, none when it would throw |
| LinkedCellsAoSoA.LinkedCellsChunked.InitCellOrder | include/april/containers/linked_cells_aosoa.hpp:350-355 | installs the configured ordering of the axes, if any, and changes nothing else |
| LinkedCellsAoSoA.LinkedCellsChunked.SwapTmpStorage | include/april/containers/linked_cells_aosoa.hpp:590-595 | the chunk vectors of the main and scratch storage are exchanged and the main count becomes the scratch count |
| LinkedCellsAoSoA.LinkedCellsChunked.RebuildStructure | include/april/containers/linked_cells_aosoa.hpp:194-235 | the counting sort by (cell, type) bin over the chunked storage, ending with the exchange of chunk vectors |
| LinkedCellsAoSoA.LinkedCellsChunked.CreateNeighborStencil | include/april/containers/linked_cells_aosoa.hpp:357-389 | appends exactly the forward offsets whose gap to the centre cell is within the cutoff |
| LinkedCellsAoSoA.LinkedCellsChunked.ComputeWrappedCellPairs | include/april/containers/linked_cells_aosoa.hpp:391-454 | appends exactly the cell pairs of the stencil that cross a periodic face, with their shifts |
| LinkedCellsAoSoA.LinkedCellsChunked.StoreAndGroup | include/april/containers/linked_cells_aosoa.hpp:42-45 | storage filled, grid planned and ordered, particles grouped by bin |
| LinkedCellsAoSoA.LinkedCellsChunked.BuildSteps | include/april/containers/linked_cells_aosoa.hpp:42-47 | the six build steps in order: grouped particles, the stencil and the wrapped pairs |
| LinkedCellsAoSoA.LinkedCellsChunked.Build | include/april/containers/linked_cells_aosoa.hpp:37-48 | an infinite domain is refused before anything changes; without a configured cell width the particles are stored and the build fails with `MissingCellSize`; otherwise the container is fully built |
| AoSContainers.AoSContainer.constructor | include/april/containers/aos.hpp:19-35 | an empty, unbuilt container with an empty id map |
| AoSContainers.AoSContainer.BuildStorage | include/april/containers/aos.hpp:37-47 | only once: the records are copied, the map has one entry per record pointing back at it, and the container is marked built |
| AoSContainers.AoSContainer.IdToIndex | include/april/containers/aos.hpp:57-59 | with a consistent map, the index returned is the one record carrying the id |
| AoSContainers.AoSContainer.MaxId | include/april/containers/aos.hpp:65-67 | `max_id()`: the number of stored records, one past the largest of n dense ids |
| AoSContainers.AoSContainer.ParticleCount | include/april/containers/aos.hpp:75-77 | `particle_count()`: the number of stored records |
| AoSContainers.AoSContainer.ContainsAsWritten | include/april/containers/aos.hpp:71-73 | `contains` as the library writes it: every id up to and including `max_id()` (one too many, see `ContainsAsWrittenOffByOne`) |
| AoSContainers.AoSContainer.Contains | include/april/containers/aos.hpp:71-73 | `contains` as intended: the ids below `max_id()`, exactly the stored ids by `ContainsExact` |
| AoSContainers.AoSContainer.ContainsAsWrittenOffByOne | include/april/containers/aos.hpp:65-73 | `contains(max_id())` holds although no record carries that id |
| AoSContainers.AoSContainer.ContainsExact | include/april/containers/aos.hpp:71-73 | the corrected query holds exactly for the stored ids |
| AoSContainers.AoSContainer.SwapParticles | include/april/containers/aos.hpp:80-86 | swaps the two records and the map entries of their ids, keeping a consistent map consistent |
| LayoutAoS.AoSLayout.constructor | include/april/containers/layout/aos.hpp:19-35 | empty particles, scratch vector and id map |
| LayoutAoS.AoSLayout.BuildStorage | include/april/containers/layout/aos.hpp:91-100 | the input is copied, every record's id entry points back at it, and the scratch vector is sized to the particle count |
| LayoutAoS.AoSLayout.ReorderStorage | include/april/containers/layout/aos.hpp:102-118 | the records end up in the bins' order laid end to end, the old vector becomes the scratch, and every id points at its new slot |
| LayoutAoS.AoSLayout.SwapParticles | include/april/containers/layout/aos.hpp:120-126 | swaps the two records and the map entries of their ids, keeping a consistent map consistent |
| LayoutAoS.AoSLayout.Iterate | include/april/containers/layout/aos.hpp:44-58 | the kernel visits exactly the slots whose state passes the mask without INVALID, in ascending order |
| LayoutAoS.AoSLayout.IdToIndex | include/april/containers/layout/aos.hpp:61-63 | with a consistent map, the index returned is the one record carrying the id |
| LayoutAoS.AoSLayout.MaxId | include/april/containers/layout/aos.hpp:67-69 | `max_id()`: the number of stored records |
| LayoutAoS.AoSLayout.ParticleCount | include/april/containers/layout/aos.hpp:82-84 | `particle_count()`: the number of stored records |
| LayoutAoS.AoSLayout.Capacity | include/april/containers/layout/aos.hpp:79-81 | `capacity()`: the particle count, as the layout keeps no spare slots |
| LayoutAoS.AoSLayout.IndexIsValid | include/april/containers/layout/aos.hpp:73-75 | `index_is_valid`: exactly the indices of stored records |
| LayoutAoS.AoSLayout.ContainsIdAsWritten | include/april/containers/layout/aos.hpp:70-72 | `contains_id` as the library writes it: every id up to and including `max_id()` |
| LayoutAoS.AoSLayout.ContainsId | include/april/containers/layout/aos.hpp:70-72 | `contains_id` as intended: the ids below `max_id()`, exactly the stored ids by `ContainsIdExact` |
| LayoutAoS.AoSLayout.ContainsIdAsWrittenOffByOne | include/april/containers/layout/aos.hpp:67-72 | `contains_id(max_id())` holds although no record carries that id |
| LayoutAoS.AoSLayout.ContainsIdExact | include/april/containers/layout/aos.hpp:70-72 | the corrected query holds exactly for the stored ids |
| LayoutAoS.WriteInBinOrder | include/april/containers/layout/aos.hpp:104-109 | the scatter loop writes the gathered records to the front of the scratch vector and leaves the rest |
| SoAStorages.SoAStorage.At | include/april/containers/layout/soa.hpp:11-20 | slot i read across every field vector is the record with those fields |
| SoAStorages.SoAStorage.Records | include/april/containers/layout/soa.hpp:9-20 | the storage read as records has one record per slot, each gathered from the field vectors |
| SoAStorages.SoAStorage.constructor | include/april/containers/layout/soa.hpp:9-20 | empty field vectors |
| SoAStorages.SoAStorage.Resize | include/april/containers/layout/soa.hpp:61-69 | every field vector gets length n; kept slots are unchanged and new slots are blank |
| SoAStorages.SoAStorage.Write | include/april/containers/layout/soa.hpp:194-208 | writing a record's fields into slot i changes that slot only |
| SoAStorages.SoAStorage.CopyFrom | include/april/containers/layout/soa.hpp:73-84 | slot dest receives every field of the source slot; nothing else changes |
| SoAStorages.SoAStorage.Swap | include/april/containers/layout/soa.hpp:86-100 | the two slots exchange every field; nothing happens for i == j |
| SoAContainers.SoAContainer.constructor | include/april/containers/soa.hpp:17-33 | an empty, unbuilt container with an empty id map |
| SoAContainers.SoAContainer.BuildStorage | include/april/containers/soa.hpp:170-197 | only once: particle i's fields land in slot i, the map has one entry per record pointing back at it, and the container is marked built |
| SoAContainers.SoAContainer.SwapParticles | include/april/containers/soa.hpp:199-202 | swaps the two slots and the map entries of their ids, keeping a consistent map consistent |
| SoAContainers.SoAContainer.Iterate | include/april/containers/soa.hpp:42-58 | the kernel visits exactly the valid slots whose state passes the mask without INVALID, in ascending order |
| SoAContainers.SoAContainer.ParticleCount | include/april/containers/soa.hpp:83-85 | `particle_count()`: the number of stored slots |
| SoAContainers.SoAContainer.IndexIsValid | include/april/containers/soa.hpp:71-73 | `index_is_valid`: exactly the stored slots |
| SoAContainers.SoAContainer.MaxId | include/april/containers/soa.hpp:68-70 | `max_id()`: the size of the id map |
| SoAContainers.SoAContainer.ContainsIdAsWritten | include/april/containers/soa.hpp:74-76 | `contains_id` as the library writes it: every id up to and including the map size |
| SoAContainers.SoAContainer.ContainsId | include/april/containers/soa.hpp:74-76 | `contains_id` as intended: the ids the map has an entry for, exactly the stored ids by `ContainsIdExact` |
| SoAContainers.SoAContainer.ContainsIdAsWrittenOffByOne | include/april/containers/soa.hpp:68-76 | after a build, `contains_id(max_id())` holds although no record carries that id |
| SoAContainers.SoAContainer.ContainsIdExact | include/april/containers/soa.hpp:74-76 | the corrected query holds exactly for the stored ids |
| LayoutSoA.SoALayout.constructor | include/april/containers/layout/soa.hpp:113-129 | empty storages, bins and id map |
| LayoutSoA.SoALayout.BuildStorage | include/april/containers/layout/soa.hpp:184-215 | particle i's fields land in slot i, one bin [0, n) is recorded, every id points back at its record and the scratch storage is sized to n |
| LayoutSoA.SoALayout.ReorderStorage | include/april/containers/layout/soa.hpp:217-249 | the particles end up in the bins' order laid end to end, each bin's start and size is recorded, the storages are exchanged and every stored id points at its slot, the map only growing |
| LayoutSoA.SoALayout.PhysicalBinRange | include/april/containers/layout/soa.hpp:251-254 | the range of bin t is as long as the bin |
| LayoutSoA.SoALayout.PhysicalBinRangeHoldsBin | include/april/containers/layout/soa.hpp:217-254 | after a reorder, the physical range of bin t holds bin t's particles in list order |
| LayoutSoA.SoALayout.ContainsIdAsWrittenOffByOne | include/april/containers/layout/soa.hpp:157-165 | `contains_id(max_id())` holds although no stored particle carries that id |
| LayoutSoA.SoALayout.ParticleCount | include/april/containers/layout/soa.hpp:172-174 | `particle_count()`: the number of stored slots |
| LayoutSoA.SoALayout.IndexIsValid | include/april/containers/layout/soa.hpp:160-162 | `index_is_valid`: exactly the stored slots; the capacity is the particle count |
| LayoutSoA.SoALayout.MaxId | include/april/containers/layout/soa.hpp:157-159 | `max_id()`: the size of the id map |
| LayoutSoA.SoALayout.ContainsIdAsWritten | include/april/containers/layout/soa.hpp:163-165 | `contains_id` as the library writes it: every id up to and including the map size |
| LayoutSoA.SoALayout.ContainsId | include/april/containers/layout/soa.hpp:163-165 | `contains_id` as intended: the ids the map has an entry for |
| LayoutSoA.SoALayout.ContainsIdExact | include/april/containers/layout/soa.hpp:163-165 | after a build with dense ids, the corrected query holds exactly for the stored ids |
| LayoutSoA.WriteAll | include/april/containers/layout/soa.hpp:194-212 | the build loop leaves the storage holding exactly the input records |
| LayoutSoA.CopyBin | include/april/containers/layout/soa.hpp:230-233 | slot `bin[j]` of the main storage is copied to slot `cur + j` of the scratch, other slots unchanged |
| LayoutSoA.Scatter | include/april/containers/layout/soa.hpp:222-234 | the scratch holds the gathered records at its front, and the recorded starts and sizes are the bins' offsets and sizes |
| LayoutSoA.BinInBounds | include/april/containers/layout/soa.hpp:225-233 | bin b sits in the flat order right after the bins before it and lists slots of the source |
| LayoutSoA.OffsetsPrefix | include/april/containers/layout/soa.hpp:226-228 | recording bin b extends the recorded starts and sizes by one entry each |
| LayoutSoA.ScatterStep | include/april/containers/layout/soa.hpp:230-233 | copying bin b to the cursor extends the placed prefix by the bin |
| ChunkedStorages.BlankChunk | include/april/containers/aosoa.hpp:67 | a value-initialised chunk of S blank lanes |
| ChunkedStorages.ChunksFor | include/april/containers/aosoa.hpp:66 | ceil(n / S): the fewest chunks whose lanes hold n particles |
| ChunkedStorages.Locate | include/april/containers/aosoa.hpp:70-72 | the lane is below the chunk size and chunk times size plus lane gives the index back |
| ChunkedStorages.LocateInverse | include/april/containers/aosoa.hpp:70-72 | every chunk/lane pair is located from exactly one linear index |
| ChunkedStorages.LocateBelow | include/april/containers/aosoa.hpp:70-72 | an index below k chunks' lanes lies in one of those k chunks |
| ChunkedStorages.Lanes | include/april/containers/aosoa.hpp:57-61 | the chunks read as one flat sequence of lanes, by linear index |
| ChunkedStorages.SetLaneLanes | include/april/containers/aosoa.hpp:141-172 | writing one lane changes that slot of the flat view and no other |
| ChunkedStorages.FitLanes | include/april/containers/aosoa.hpp:64-68 | resizing the chunk vector keeps the lanes of kept chunks and blanks those of new chunks |
| ChunkedStorages.ChunkedStorage.Slots | include/april/containers/aosoa.hpp:57-61 | one slot per lane of every chunk |
| ChunkedStorages.ChunkedStorage.constructor | include/april/containers/aosoa.hpp:58-61 | no chunks and no particles |
| ChunkedStorages.ChunkedStorage.Resize | include/april/containers/aosoa.hpp:64-68 | the count becomes n, the chunk count ceil(n / S), capacity between n and n + S - 1, kept lanes unchanged and new lanes blank |
| ChunkedStorages.ChunkedStorage.WriteSlot | include/april/containers/aosoa.hpp:144-169 | one slot receives the record; nothing else changes |
| ChunkedStorages.ChunkedStorage.Swap | include/april/containers/aosoa.hpp:75-96 | the two slots exchange every field, across chunks; nothing else changes |
| AoSoAContainers.AoSoAContainer.constructor | include/april/containers/aosoa.hpp:112-126 | empty storage of the given chunk size and an empty id map |
| AoSoAContainers.AoSoAContainer.Particles | include/april/containers/aosoa.hpp:192-194 | the stored particles are the first `particle_count()` slots |
| AoSoAContainers.AoSoAContainer.BuildStorage | include/april/containers/aosoa.hpp:136-174 | particle i lands in slot i, lanes past n keep what the resize left, and every id points back at its particle |
| AoSoAContainers.AoSoAContainer.IdToIndex | include/april/containers/aosoa.hpp:177-179 | with a consistent map, the index returned is the one particle carrying the id |
| AoSoAContainers.AoSoAContainer.MaxId | include/april/containers/aosoa.hpp:183-185 | `max_id()`: the size of the id map |
| AoSoAContainers.AoSoAContainer.ParticleCount | include/april/containers/aosoa.hpp:192-194 | `particle_count()`: the storage's particle count |
| AoSoAContainers.AoSoAContainer.ContainsAsWritten | include/april/containers/aosoa.hpp:189-191 | `contains` as the library writes it: every id up to and including `max_id()` |
| AoSoAContainers.AoSoAContainer.Contains | include/april/containers/aosoa.hpp:189-191 | `contains` as intended: the ids below `max_id()`, exactly the stored ids by `ContainsExact` |
| AoSoAContainers.AoSoAContainer.ContainsAsWrittenOffByOne | include/april/containers/aosoa.hpp:183-191 | `contains(max_id())` holds although no particle carries that id |
| AoSoAContainers.AoSoAContainer.ContainsExact | include/april/containers/aosoa.hpp:189-191 | the corrected query holds exactly for the stored ids |
| AoSoAContainers.AoSoAContainer.SwapParticles | include/april/containers/aosoa.hpp:199-213 | the two slots and the map entries of their ids are exchanged, keeping a consistent map consistent |
| LayoutAoSoA.PadLane | include/april/containers/layout/aosoa.hpp:245-249 | a padding lane is INVALID and carries the maximum id |
| LayoutAoSoA.ChunkStarts | include/april/containers/layout/aosoa.hpp:260-268 | one chunk start per bin plus the total |
| LayoutAoSoA.PaddedBin | include/april/containers/layout/aosoa.hpp:277-341 | a bin's destination lanes fill whole chunks |
| LayoutAoSoA.PaddedOrder | include/april/containers/layout/aosoa.hpp:277-342 | the destination lanes of all bins fill exactly the chunks counted |
| LayoutAoSoA.Arrange | include/april/containers/layout/aosoa.hpp:277-343 | every lane holds its copied record or a sentinel |
| LayoutAoSoA.MovedOfCopies | include/april/containers/layout/aosoa.hpp:280-319 | the copies of one bin are its listed slots in order |
| LayoutAoSoA.PaddedOrderMoves | include/april/containers/layout/aosoa.hpp:277-342 | without the sentinels the lanes hold the bins laid end to end, in list order |
| LayoutAoSoA.PaddedOrderBin | include/april/containers/layout/aosoa.hpp:277-342 | bin b's lanes follow those of the bins before it, starting on its recorded chunk |
| LayoutAoSoA.ArrangeBin | include/april/containers/layout/aosoa.hpp:277-342 | bin k's chunks hold its particles in list order, then sentinels up to the next bin |
| LayoutAoSoA.ChunkStartsStep | include/april/containers/layout/aosoa.hpp:260-268 | chunk starts begin at 0, step by each bin's chunk count and end at the total |
| LayoutAoSoA.CopyStep | include/april/containers/layout/aosoa.hpp:280-318 | copying one record to the cursor and pointing its id there keeps the scatter invariants one lane further |
| LayoutAoSoA.PadStep | include/april/containers/layout/aosoa.hpp:322-337 | writing a sentinel at the cursor keeps the scatter invariants one lane further |
| LayoutAoSoA.TracksExact | include/april/containers/layout/aosoa.hpp:310-312 | with distinct copied ids every copied lane's id points at that lane |
| LayoutAoSoA.AoSoALayout.constructor | include/april/containers/layout/aosoa.hpp:77-91 | no chunks, bins or map; capacity and count 0 |
| LayoutAoSoA.AoSoALayout.Slots | include/april/containers/layout/aosoa.hpp:191 | one slot per lane of every chunk |
| LayoutAoSoA.AoSoALayout.BuildStorage | include/april/containers/layout/aosoa.hpp:200-250 | ceil(n / S) chunks, particle i in slot i, the lanes from n to the capacity INVALID with the maximum id, and every id pointing back at its particle |
| LayoutAoSoA.AoSoALayout.ReorderStorage | include/april/containers/layout/aosoa.hpp:253-345 | the bins' chunk starts are recorded, each bin's particles are copied in order onto a fresh chunk, partial chunks are padded with sentinels, and every copied id points at its lane |
| LayoutAoSoA.AoSoALayout.BinRange | include/april/containers/layout/aosoa.hpp:349-351 | a bin's range is from its first chunk to the next bin's first chunk |
| LayoutAoSoA.AoSoALayout.BinRangeHoldsBin | include/april/containers/layout/aosoa.hpp:253-351 | after a reorder, bin k's chunk range begins with its particles in list order and holds only invalid lanes after them |
| LayoutAoSoA.AoSoALayout.Iterate | include/april/containers/layout/aosoa.hpp:103-133 | the kernel visits exactly the lanes whose state passes the mask without INVALID, chunk by chunk, lane by lane |
| LayoutAoSoA.AoSoALayout.ContainsIdExact | include/april/containers/layout/aosoa.hpp:173-176 | after a reorder an id is contained exactly when some copied lane carries it |
| LayoutAoSoA.AoSoALayout.IndexIsValid | include/april/containers/layout/aosoa.hpp:167-172 | `index_is_valid`: a lane below the capacity whose state is not INVALID |
| LayoutAoSoA.AoSoALayout.ContainsId | include/april/containers/layout/aosoa.hpp:173-176 | `contains_id`: the id has a map entry that is not `ID_NOT_FOUND` |
| LayoutAoSoA.AoSoALayout.IdToIndex | include/april/containers/layout/aosoa.hpp:152-154 | `id_to_index`: the id's map entry, the lane its particle was copied to when the map tracks the reorder |
| LayoutAoSoA.AoSoALayout.MaxId | include/april/containers/layout/aosoa.hpp:158-160 | `max_id()`: the size of the id map |
| LayoutAoSoA.AoSoALayout.ParticleCount | include/april/containers/layout/aosoa.hpp:177-179 | `particle_count()`: the count field, which neither build nor reorder assigns |
| LayoutAoSoA.BuiltLanes | include/april/containers/layout/aosoa.hpp:211-249 | the particles in order, then INVALID lanes with the maximum id up to the capacity |
| LayoutAoSoA.BuildChunks | include/april/containers/layout/aosoa.hpp:203-249 | the resize, the write loop and the padding loop produce those lanes |
| LayoutAoSoA.BuiltFromSteps | include/april/containers/layout/aosoa.hpp:211-249 | the write loop then the padding loop give the built lanes |
| LayoutAoSoA.WriteLanes | include/april/containers/layout/aosoa.hpp:211-243 | particle i goes to lane `locate(i)`; other lanes keep their content |
| LayoutAoSoA.PadLanes | include/april/containers/layout/aosoa.hpp:245-249 | every lane from n to the capacity is padded; lanes below n keep their content |
| LayoutAoSoA.VisitLanes | include/april/containers/layout/aosoa.hpp:108-132 | the chunk and lane loops visit exactly the lanes whose state passes the mask |
| LayoutAoSoA.CountChunks | include/april/containers/layout/aosoa.hpp:260-268 | the first loop records every bin's chunk start and the total |
| LayoutAoSoA.CopyBin | include/april/containers/layout/aosoa.hpp:280-319 | one bin's slots are copied from the cursor on, each id pointed at its lane |
| LayoutAoSoA.PadChunk | include/april/containers/layout/aosoa.hpp:322-341 | the rest of the current chunk becomes sentinels and the cursor moves to the next chunk |
| LayoutAoSoA.ScatterBin | include/april/containers/layout/aosoa.hpp:277-342 | one bin of the cursor loop ends on its last chunk boundary with its lanes filled |
| LayoutAoSoA.ScatterPadded | include/april/containers/layout/aosoa.hpp:273-342 | the cursor loop fills the scratch chunks with the arranged lanes and points every copied id at its lane |
| Batching.IndexRowShape | include/april/containers/batching/scalar.hpp:18-20 | the inner loop for one p1 pairs it with every index of range2, each once |
| Batching.ProductShape | include/april/containers/batching/scalar.hpp:16-22 | the nested loops visit each pair of the two ranges once and nothing else, n1 n2 pairs in all |
| Batching.UpperShape | include/april/containers/batching/scalar.hpp:36-42 | the triangular loops visit each pair i < j once; twice their number is m(2n - m - 1) |
| Batching.AsymmetricScalarPairs | include/april/containers/batching/scalar.hpp:16-22 | every pair (p1, p2) of range1 x range2 exactly once, in row order, n1 n2 calls |
| Batching.SymmetricScalarPairs | include/april/containers/batching/scalar.hpp:36-42 | every pair i < j of the range exactly once, n(n - 1)/2 calls |
| Batching.LaneRowShape | include/april/containers/batching/chunked.hpp:39-42 | one lane of c1 against lanes lo .. hi - 1 of c2, each once |
| Batching.RowsShape | include/april/containers/batching/chunked.hpp:37-43 | the lane loops of one chunk pair visit each lane pair of the block once |
| Batching.RowsCount | include/april/containers/batching/chunked.hpp:37-43 | a chunk pair block has k n2 calls |
| Batching.TriShape | include/april/containers/batching/chunked.hpp:112-118 | the chunk self loops visit each lane pair i < j of the chunk once |
| Batching.TriCount | include/april/containers/batching/chunked.hpp:112-118 | twice the self-interaction count is k(2n - k - 1) |
| Batching.Chunks2Shape | include/april/containers/batching/chunked.hpp:34-44 | one chunk against a run of chunks visits each lane pair of the block once |
| Batching.Chunks2Count | include/april/containers/batching/chunked.hpp:34-44 | and the count is the chunks times n1 n2 |
| Batching.Chunks1Shape | include/april/containers/batching/chunked.hpp:31-45 | the nested chunk loops visit each lane pair of the block once |
| Batching.Chunks1Count | include/april/containers/batching/chunked.hpp:31-45 | and the count is the product of chunk and lane counts |
| Batching.SymBodyShape | include/april/containers/batching/chunked.hpp:108-131 | the symmetric body loops visit each pair of body lanes in storage order once |
| Batching.SymBodyCount | include/april/containers/batching/chunked.hpp:108-131 | twice the body count is the triangle of body chunks plus the self pairs |
| Batching.Limit | include/april/containers/batching/chunked.hpp:27-28 | a non-zero tail is the lanes of the last chunk; 0 means a full chunk |
| Batching.VisitChunkPair | include/april/containers/batching/chunked.hpp:37-43 | the (i, j) loops of one chunk pair visit exactly that block |
| Batching.VisitChunkSelf | include/april/containers/batching/chunked.hpp:112-118 | the self loops visit exactly the lane pairs i < j of the chunk |
| Batching.VisitChunkRow | include/april/containers/batching/chunked.hpp:34-44 | the c2 loop visits exactly chunk c1 against the run |
| Batching.VisitChunkColumn | include/april/containers/batching/chunked.hpp:60-69 | the c2 loop against the other range's tail visits exactly that block |
| Batching.VisitChunkBlocks | include/april/containers/batching/chunked.hpp:31-45 | the body x body loops visit exactly the block of both bodies |
| Batching.VisitSymmetricBody | include/april/containers/batching/chunked.hpp:108-131 | the symmetric body loop visits exactly the body pairs in storage order |
| Batching.AsymmetricCover | include/april/containers/batching/chunked.hpp:16-79 | body x body, body x tail, tail x body and tail x tail together visit every pair of valid lanes once |
| Batching.AsymmetricCount | include/april/containers/batching/chunked.hpp:16-79 | the call count is the product of the two ranges' valid lane counts |
| Batching.AsymmetricChunkedPairs | include/april/containers/batching/chunked.hpp:16-79 | nothing for an empty chunk range; otherwise every pair of valid lanes of the two ranges exactly once, v1 v2 calls |
| Batching.SymmetricCover | include/april/containers/batching/chunked.hpp:99-153 | the body, body x tail and tail loops together visit every pair of valid lanes in storage order once |
| Batching.SymmetricCount | include/april/containers/batching/chunked.hpp:99-153 | twice the call count is v(v - 1) for v valid lanes |
| Batching.SymmetricChunkedPairs | include/april/containers/batching/chunked.hpp:99-153 | nothing for an empty chunk range; otherwise every pair of valid lanes in storage order exactly once, v(v - 1)/2 calls |
| DirectSumCores.TypesOf | include/april/containers/direct_sum/ds_core.hpp:90-92 | the type of every stored record, in storage order |
| DirectSumCores.OfType | include/april/containers/direct_sum/ds_core.hpp:90-97 | a bucket lists only visited indices of its type, in increasing order |
| DirectSumCores.OfTypeAbsent | include/april/containers/direct_sum/ds_core.hpp:93-96 | a type no visited particle has gets an empty bucket |
| DirectSumCores.OfTypeComplete | include/april/containers/direct_sum/ds_core.hpp:90-97 | every visited index of type t is in bucket t |
| DirectSumCores.BucketCount | include/april/containers/direct_sum/ds_core.hpp:93-95 | the bucket list ends one past the largest type of a visited particle, and is empty when none is visited |
| DirectSumCores.VisitOrderStep | include/april/containers/layout/aos.hpp:48-57 | iterating one more slot appends it exactly when its state shares a bit with the mask ALL, so INVALID and 0 slots are skipped |
| DirectSumCores.VisitOrderLength | include/april/containers/layout/aos.hpp:48-57 | the iteration visits each slot at most once |
| DirectSumCores.VisitOrderAll | include/april/containers/layout/aos.hpp:48-57 | when every slot passes the mask, every slot is visited |
| DirectSumCores.VisitedOnce | include/april/containers/direct_sum/ds_core.hpp:90-97 | the flattened buckets list every visited slot exactly once and no other index |
| DirectSumCores.FlattenPush | include/april/containers/direct_sum/ds_core.hpp:96 | pushing an index onto one bucket adds it once to the flattened buckets |
| DirectSumCores.FlattenEmptyTail | include/april/containers/direct_sum/ds_core.hpp:94 | the empty buckets `resize` appends do not change the flattened order |
| DirectSumCores.TypeBuckets | include/april/containers/direct_sum/ds_core.hpp:88-98 | the bucket loop over the visited slots ends with one bucket per type up to the largest visited one, bucket t holding exactly the visited indices of type t in order, together a rearrangement of the visiting order |
| DirectSumCores.Visit | include/april/containers/direct_sum/ds_core.hpp:91-97 | one visit keeps the bucket invariant for one more particle |
| DirectSumCores.SkipSlot | include/april/containers/layout/aos.hpp:50-51 | a slot the mask skips leaves the buckets as they are and the invariant holds one slot further |
| DirectSumCores.GrowBuckets | include/april/containers/direct_sum/ds_core.hpp:93-95 | growing the bucket list adds only empty buckets |
| DirectSumCores.PushBucket | include/april/containers/direct_sum/ds_core.hpp:96 | pushing a visited i onto its type's bucket extends the buckets from i to i + 1 slots |
| DirectSumCores.BucketOrderSorted | include/april/containers/direct_sum/ds_core.hpp:100-102 | gathering along the first m buckets yields types below m in non-decreasing order |
| DirectSumCores.SortedStep | include/april/containers/direct_sum/ds_core.hpp:100-102 | a run of type t after runs of smaller types keeps the gathered records sorted |
| DirectSumCores.GatherRearranged | include/april/containers/layout/aos.hpp:104-109 | gathering along two rearrangements of the same indices yields the same records as a multiset |
| DirectSumCores.GatherLast | include/april/containers/layout/aos.hpp:106-108 | the last copied index contributes exactly its record |
| DirectSumCores.GatherRemoveAt | include/april/containers/layout/aos.hpp:106-108 | dropping one index from the copy order drops exactly its record |
| DirectSumCores.RemoveOne | include/april/containers/direct_sum/ds_core.hpp:90-97 | removing one occurrence of the same index from two rearrangements leaves two rearrangements |
| DirectSumCores.GatherAppend | include/april/containers/layout/aos.hpp:104-109 | copying along two orders one after the other writes the two gathered runs one after the other |
| DirectSumCores.GroupedSorted | include/april/containers/direct_sum/ds_core.hpp:85-107 | the first m slots, m the number of visited records, hold exactly the visited records sorted by type; the remaining scratch slots are stale and unchanged; distinct ids stay distinct |
| DirectSumCores.GroupedDropsSkipped | include/april/containers/layout/aos.hpp:48-57 | with distinct ids, a record in state INVALID or 0 appears in none of the grouped slots |
| DirectSumCores.GroupedAllVisited | include/april/containers/direct_sum/ds_core.hpp:85-107 | when every record passes ALL, the buckets are a permutation of all indices and the storage is a rearrangement of the input |
| DirectSumCores.GroupedKeepsOrder | include/april/containers/direct_sum/ds_core.hpp:85-107 | within one type the records keep their storage order: the k-th record of bucket t lands at the bucket's offset plus k |
| DirectSumCores.Mode | include/april/containers/direct_sum/ds_core.hpp:28-30 | the jump-table index of the periodicity flags is below 8 |
| DirectSumCores.JumpTableMatchesFlags | include/april/containers/direct_sum/ds_core.hpp:43-54 | every flag combination runs the specialisation periodic in exactly the flagged axes, so the unreachable default is never taken |
| DirectSumCores.ModeInjective | include/april/containers/direct_sum/ds_core.hpp:28-30 | distinct flag combinations select distinct cases |
| DirectSumCores.Dispatch | include/april/containers/direct_sum/ds_core.hpp:25-55 | one call per batch: every symmetric batch in order, then every asymmetric batch in order, each with the flags' boundary correction |
| DirectSumCores.SymmetricFirst | include/april/containers/direct_sum/ds_core.hpp:39-40 | no symmetric call follows an asymmetric one |
| DirectSumCores.DirectSumCore.constructor | include/april/containers/direct_sum/ds_core.hpp:16 | an empty layout |
| DirectSumCores.DirectSumCore.BuildBatches | include/april/containers/direct_sum/ds_core.hpp:85-107 | the storage becomes the visited records grouped by type bucket followed by the stale tail of the scratch vector, the scratch vector the old storage, and every grouped id points at its new slot |
| DirectSumCores.DirectSumCore.Build | include/april/containers/direct_sum/ds_core.hpp:20-23 | the input is stored, its visited records grouped by type with each type keeping its input order, the stale scratch tail after them; when every record passes ALL the storage is a rearrangement of the input with a consistent id map |
| DirectSumCores.DirectSumCore.RebuildStructure | include/april/containers/direct_sum/ds_core.hpp:82 | nothing changes |
| DirectSums.InsertAt | include/april/containers/direct_sum.hpp:103-107 | the list with x at position pos and everything else shifted after it |
| DirectSums.InsertKeepsOrder | include/april/containers/direct_sum.hpp:103-107 | inserting an index between the smaller-or-equal and the larger types keeps a type-ordered arrangement of distinct indices |
| DirectSums.SortIndicesByType | include/april/containers/direct_sum.hpp:100-107 | the sorted indices are a permutation of 0 .. n - 1 ordered by particle type |
| DirectSums.GatherSortsByType | include/april/containers/direct_sum.hpp:100-120 | gathering along a type-ordered permutation sorts the records by type, keeps every record and keeps ids distinct |
| DirectSums.StartCycle | include/april/containers/direct_sum.hpp:110-113 | entering a cycle at an unfinished index sets up the cycle invariant |
| DirectSums.ShapeStep | include/april/containers/direct_sum.hpp:113-117 | the next index of an open cycle is unfinished and new, and stepping to it keeps the cycle's shape |
| DirectSums.DataStep | include/april/containers/direct_sum.hpp:114-116 | swapping with the next index moves the target into place and carries the start element on |
| DirectSums.Injective | include/april/containers/direct_sum.hpp:100-107 | a permutation maps distinct indices to distinct indices |
| DirectSums.NextInCycle | include/april/containers/direct_sum.hpp:113-117 | one swap of the cycle keeps the loop invariant |
| DirectSums.CloseShape | include/april/containers/direct_sum.hpp:113-119 | closing a cycle adds a whole cycle to the finished set, which stays closed under the permutation |
| DirectSums.CloseCycle | include/april/containers/direct_sum.hpp:113-119 | when the cycle closes, every index of it holds its target |
| DirectSums.SkipFinished | include/april/containers/direct_sum.hpp:110-119 | an index finished by an earlier cycle has p reset, so its loop does not run |
| DirectSums.DoneFinished | include/april/containers/direct_sum.hpp:111 | only finished indices carry the done flag |
| DirectSums.PrefixFinished | include/april/containers/direct_sum.hpp:110-120 | after index i's turn every index up to i is finished |
| DirectSums.AllApplied | include/april/containers/direct_sum.hpp:109-120 | once every index is finished the storage is the records gathered along the permutation |
| DirectSums.SwapIdsBelow | include/april/containers/direct_sum.hpp:115 | a swap keeps every id below the map size |
| DirectSums.TypeRanges | include/april/containers/direct_sum.hpp:133-145 | every type present gets a range, no other type does, and each range is that type's last run |
| DirectSums.RangeOf | include/april/containers/direct_sum.hpp:153 | a type without a run gets the empty range `operator[]` default-constructs |
| DirectSums.BelowRunSmaller | include/april/containers/direct_sum.hpp:133-145 | in storage sorted by type, everything before a type's run has a smaller type |
| DirectSums.SortedRunExact | include/april/containers/direct_sum.hpp:133-145 | in storage sorted by type, the run of type t holds exactly the indices of type t |
| DirectSums.NumTypes | include/april/containers/direct_sum.hpp:147 | the corrected type count exceeds the largest type |
| DirectSums.NumTypesAsWritten | include/april/containers/direct_sum.hpp:147 | the 16-bit count is below 65536 and one past the largest type when that is below 65535 |
| DirectSums.NumTypesWraps | include/april/containers/direct_sum.hpp:147 | with 65535 as the largest type the 16-bit count wraps to 0 |
| DirectSums.PairsOf | include/april/containers/direct_sum.hpp:158-166 | the type pair of every asymmetric batch, in order |
| DirectSums.MakeSymmetric | include/april/containers/direct_sum.hpp:149-155 | one batch per type below the type count, over that type's range |
| DirectSums.MakeAsymmetric | include/april/containers/direct_sum.hpp:157-166 | one batch per pair of types t1 < t2, over both types' ranges |
| DirectSums.BatchesCoverPairs | include/april/containers/direct_sum.hpp:129-167 | with sorted storage every pair of particles lies in one batch: same types in their type's symmetric batch, different types in the asymmetric batch of their pair |
| DirectSums.DirectSumBase.constructor | include/april/containers/direct_sum.hpp:25 | an empty, unbuilt storage and no batches |
| DirectSums.DirectSumBase.SortStorageByType | include/april/containers/direct_sum.hpp:96-127 | the storage becomes the records gathered along a type-ordered permutation, applied in place, with every id pointing at its new slot |
| DirectSums.DirectSumBase.ApplyInPlace | include/april/containers/direct_sum.hpp:109-120 | the cycle loop leaves the records gathered along the permutation |
| DirectSums.DirectSumBase.FollowCycle | include/april/containers/direct_sum.hpp:111-119 | one cycle turn finishes the cycle through i and keeps the other indices' state |
| DirectSums.DirectSumBase.BuildBatches | include/april/containers/direct_sum.hpp:129-167 | appends a symmetric batch per type and an asymmetric batch per type pair over the type ranges, counting types with the corrected `NumTypes` rather than the wrapping 16-bit `n_types`; nothing for an empty storage |
| DirectSums.DirectSumBase.Build | include/april/containers/direct_sum.hpp:27-31 | the input sorted by type in place, a consistent id map, and the batches of the sorted storage, counted with the corrected `NumTypes` |
| Generators.CuboidZ | include/april/particle/generators.hpp:75-88 | the z loop yields one particle per z index |
| Generators.CuboidY | include/april/particle/generators.hpp:74-89 | the y loop yields ny nz particles per x |
| Generators.CuboidX | include/april/particle/generators.hpp:73-90 | the x loop yields nx ny nz particles |
| Generators.CuboidZAt | include/april/particle/generators.hpp:75-88 | the z-th particle of a row is the lattice point (x, y, z) |
| Generators.CuboidYAt | include/april/particle/generators.hpp:74-89 | the particle at y nz + z of a plane is the lattice point (x, y, z) |
| Generators.CuboidXAt | include/april/particle/generators.hpp:73-90 | the particle at (x ny + y) nz + z is the lattice point (x, y, z) |
| Generators.CuboidLayout | include/april/particle/generators.hpp:66-93 | the cuboid has nx ny nz particles, and the one at (x ny + y) nz + z sits at origin + (x d, y d, z d) with the shared type, velocity, mass, state and data |
| Generators.CuboidEmpty | include/april/particle/generators.hpp:73-75 | a zero count on any axis gives no particles |
| Generators.CuboidPointOf | include/april/particle/generators.hpp:73-90 | every generated particle is the particle of exactly one lattice point of the box |
| Generators.CuboidEnds | include/april/particle/generators.hpp:73-90 | the first particle sits at the origin and the last at origin + (count - 1) d |
| Generators.Cuboid.constructor | include/april/particle/generators.hpp:17-26 | value-initialised fields, the zero thermal velocity and state ALIVE |
| Generators.Cuboid.At | include/april/particle/generators.hpp:29-31 | sets the origin and nothing else, returning the same generator |
| Generators.Cuboid.AtXYZ | include/april/particle/generators.hpp:32-34 | sets the origin from three components and nothing else |
| Generators.Cuboid.Velocity | include/april/particle/generators.hpp:35-37 | sets the mean velocity and nothing else |
| Generators.Cuboid.VelocityXYZ | include/april/particle/generators.hpp:38-40 | sets the mean velocity from three components and nothing else |
| Generators.Cuboid.Count | include/april/particle/generators.hpp:41-43 | sets the particle count and nothing else |
| Generators.Cuboid.CountXYZ | include/april/particle/generators.hpp:44-46 | sets the particle count from three components and nothing else |
| Generators.Cuboid.Spacing | include/april/particle/generators.hpp:47-49 | sets the spacing and nothing else |
| Generators.Cuboid.Mass | include/april/particle/generators.hpp:50-52 | sets the mass and nothing else |
| Generators.Cuboid.Type | include/april/particle/generators.hpp:53-55 | sets the type to the argument converted to 16 bits, and nothing else |
| Generators.Cuboid.Thermal | include/april/particle/generators.hpp:56-58 | sets the thermal velocity function and nothing else |
| Generators.Cuboid.State | include/april/particle/generators.hpp:59-61 | sets the particle state and nothing else |
| Generators.Cuboid.WithData | include/april/particle/generators.hpp:62-64 | sets the user data and nothing else |
| Generators.Cuboid.ToParticles | include/april/particle/generators.hpp:66-93 | a zero spacing is an error; otherwise the lattice particles, x outermost and z innermost |
| Generators.CuboidPlaneLoop | include/april/particle/generators.hpp:74-89 | the y and z loops for one x give that x's plane of the lattice |
| Generators.BallOf | include/april/particle/generators.hpp:153-165 | the effective radii are max(radius, spacing) and each loop's reach is the truncated quotient of effective radius and spacing; a reach of at least 1 implies a non-zero effective radius |
| Generators.ReachesNonZero | include/april/particle/generators.hpp:163-177 | when every loop runs, the inside test never divides by zero |
| Generators.SphereZMember | include/april/particle/generators.hpp:165-190 | every particle of a z loop is an inside lattice point of that loop's range |
| Generators.SphereYMember | include/april/particle/generators.hpp:164-191 | every particle of a y loop is an inside lattice point of that loop's range |
| Generators.SphereXMember | include/april/particle/generators.hpp:163-192 | every particle of the x loop is an inside lattice point of the loop box |
| Generators.SphereZHas | include/april/particle/generators.hpp:165-190 | every inside lattice point of a z loop's range is generated by it |
| Generators.SphereYHas | include/april/particle/generators.hpp:164-191 | every inside lattice point of a y loop's range is generated by it |
| Generators.SphereXHas | include/april/particle/generators.hpp:163-192 | every inside lattice point of the loop box is generated by the x loop |
| Generators.SphereMember | include/april/particle/generators.hpp:163-192 | every generated particle is the particle of a lattice point in the loop box that passes the inside test |
| Generators.SphereComplete | include/april/particle/generators.hpp:163-192 | every lattice point in the loop box that passes the inside test is generated |
| Generators.SphereFlatZ | include/april/particle/generators.hpp:153-177 | a z radius no larger than the spacing keeps every particle in the centre's z plane |
| Generators.SphereSmall | include/april/particle/generators.hpp:148-195 | radii no larger than the spacing give exactly one particle, at the centre |
| Generators.SphereMissesUpperLayer | include/april/particle/generators.hpp:163-165 | the loops stop at reach - 1, so a point at -reach on the x axis is generated while its mirror at +reach never is |
| Generators.Sphere.constructor | include/april/particle/generators.hpp:97-106 | value-initialised fields, the zero thermal velocity and state ALIVE |
| Generators.Sphere.At | include/april/particle/generators.hpp:109-111 | sets the centre and nothing else, returning the same generator |
| Generators.Sphere.AtXYZ | include/april/particle/generators.hpp:112-114 | sets the centre from three components and nothing else |
| Generators.Sphere.Velocity | include/april/particle/generators.hpp:115-117 | sets the mean velocity and nothing else |
| Generators.Sphere.VelocityXYZ | include/april/particle/generators.hpp:118-120 | sets the mean velocity from three components and nothing else |
| Generators.Sphere.RadiusVec | include/april/particle/generators.hpp:121-123 | sets the three radii and nothing else |
| Generators.Sphere.RadiusXYZ | include/april/particle/generators.hpp:124-126 | sets the three radii from components and nothing else |
| Generators.Sphere.Radius | include/april/particle/generators.hpp:127-129 | sets all three radii to one value and nothing else |
| Generators.Sphere.Spacing | include/april/particle/generators.hpp:130-132 | sets the spacing and nothing else |
| Generators.Sphere.Mass | include/april/particle/generators.hpp:133-135 | sets the mass and nothing else |
| Generators.Sphere.Type | include/april/particle/generators.hpp:136-138 | sets the type to the argument converted to 16 bits, and nothing else |
| Generators.Sphere.Thermal | include/april/particle/generators.hpp:139-141 | sets the thermal velocity function and nothing else |
| Generators.Sphere.State | include/april/particle/generators.hpp:142-144 | sets the particle state and nothing else |
| Generators.Sphere.WithData | include/april/particle/generators.hpp:145-147 | sets the user data and nothing else |
| Generators.Sphere.ToParticles | include/april/particle/generators.hpp:148-195 | a zero spacing is an error; otherwise the inside lattice points of the loop box, x outermost and z innermost |
| Generators.SpherePlaneLoop | include/april/particle/generators.hpp:164-191 | the y loop for one x gives that x's slice of the sphere |
| Generators.SphereRowLoop | include/april/particle/generators.hpp:165-190 | the z loop for one (x, y) keeps exactly the inside points of that row |

## Left out

- The replay script's renderer: the vispy canvas, the markers, the timer and the colour-map lookup (animation/animate.py:64-85, 97, 101). These are external libraries. The model keeps the index logic, the decoding and the normalisation.
- File-system I/O. The directory listing (`Path.glob`) and the file bytes (`np.fromfile`) are inputs to the reader. The writer produces the frame as a byte sequence instead of writing it through `std::ofstream` and `create_directories`.
- FrameReader.LoadParticles: a count that numpy can size but the machine cannot allocate raises MemoryError in `np.fromfile`. The model cannot know the memory limit, so it decodes such a frame. Counts whose 21-byte records total 2^63 bytes or more are refused as `CountTooLarge`.
- IndexRange.Iterator.Distance: the subtraction of the two `ptrdiff_t` values can overflow, which C++ leaves undefined. The model takes the two's-complement result the compiled code produces.
- Floating point:
  - Every `double` is an exact real: positions, velocities, masses, radii, spacings, cutoffs, domain extents, cell widths, and the trigger's times and periods. Rounding is not modelled, so `Triggers.MakePeriodically`'s `last + period == offset` and `Triggers.PeriodicallyFirst`'s "fires iff time >= offset" hold in exact arithmetic only; in `double`, `offset - period` can round.
  - The frame format carries each `float` as its 32-bit pattern; converting a double to that pattern is not modelled.
  - The force laws (`eval`, `mix`) are not modelled; a force is its kind, its parameters and its cutoff.
  - The thermal-velocity callback is any total function of the position.
  - The periodic `minimum_image` correction (include/april/containers/direct_sum.hpp:170) is not modelled: `DirectSumCores.Dispatch` records which specialisation runs, not the vector it computes.
- Generators.Sphere.ToParticles: the `reserve` size (which uses the ellipsoid volume with pi as 3.14) is not modelled. Neither are the float casts of the lattice coordinates or `int` overflow of the loop bounds; `static_cast<int>` is modelled as truncation toward zero.
- `std::any` user data is an opaque integer. `std::unordered_set` arguments are given as sequences without repeats, in the iteration order the library happens to use.
- `collect_indices_in_region` (include/april/containers/linked_cells.hpp:247, include/april/containers/linked_cells_aosoa.hpp:238, include/april/containers/direct_sum.hpp:64, include/april/containers/direct_sum/ds_core.hpp:57) is not modelled: it tests floating-point positions against a box. The cell query it relies on, `get_cells_in_region`, is modelled (`CellGrids.GetCellsInRegion`).
- The topology batches are not modelled. The containers' constructors collect one batch per active interaction that names particle ids (include/april/containers/aos.hpp:19-35, include/april/containers/soa.hpp:17-33, include/april/containers/aosoa.hpp:112-126), and `for_each_topology_batch` hands them to the callback. Their input, the force schema assembled by the system builder, is not part of this model. The constructors are modelled for their storage and id map only.
- `for_each_interaction_batch` of include/april/containers/linked_cells_aosoa.hpp is not modelled separately. It runs the same per-cell scheme as `LinkedCellsCore.ProcessCellInteractions` over chunk ranges.
- The layout-specific `generate_batches` of include/april/containers/direct_sum/ds_aos.hpp and ds_aosoa.hpp are not modelled. They use bin-range members that the AoS and AoSoA layouts do not declare. `DirectSumCores.DirectSumCore.BuildBatches` stops where `generate_batches` is called.
- DirectSumCores.DirectSumCore.Build: requires the ids in the scratch vector to be below the particle count, as the input's are. `reorder_storage` re-points the id of every record in the swapped-in storage, including the stale scratch records past the visited ones, and an id beyond the map would index past it. A freshly constructed core has an empty scratch vector, which `build_storage` resizes with blank records.
- `DirectSumBase` is modelled over the array-of-structs container only. The struct-of-arrays instantiation runs the same code over the same `swap_particles` contract.
- `LinkedCellsCore` is modelled over the struct-of-arrays layout only. The other layouts' drivers are either glue or use members their layouts lack.
- LayoutAoSoA.AoSoALayout.ReorderStorage: always pads every bin's last chunk. The `sentinel_pad = false` branch is not modelled because no caller passes it. The method also requires the new capacity to stay at or below `ID_NOT_FOUND`, so that a lane index fits the `uint32_t` map.
- ChunkedStorages.Locate: `i >> log2(S)` and `i & (S - 1)` are written as `i / S` and `i % S`. The two agree because S is required to be a power of two of at least 8.
- LinkedCellsAoSoA.LinkedCellsChunked.RebuildStructure: requires the scratch storage to hold as many particles as the data storage, which `build` establishes through `allocate_tmp_storage`. `LinkedCellsAoSoA.LinkedCellsChunked.Build` requires the scratch storage to hold at most as many particles as the input (`tmp.nParticles <= |input|`), distinct ids below the particle count and types below the type count.
- CellOrderings.MortonOrder: requires the cell count to be below 2^32, because the library computes flat indices in `uint32_t` and they would wrap beyond that. The ranks follow the keys strictly only when every dimension is at most 2^21; above that, `split_by_3`'s 21-bit mask makes keys collide, as in the library.
- CellOrderings.HilbertOrder: requires the cell count to be below 2^32, for the same reason.
- CellOrderings.SortByKey: `std::ranges::sort` is not stable. The model's sort is, so equal keys come out in one of the orders the library may produce.
- DirectSums.SortIndicesByType: states only what `std::ranges::sort` promises, a permutation ordered by type. The order of equal types is left open.
- BuildParticles.Partition: `std::partition` is not stable. The model keeps the input order within each part, which is one order the library may produce.
- The library's `AP_ASSERT` checks are preconditions in the model, not runtime failures: a positive cell width (include/april/containers/linked_cells/lc_core.hpp:140, include/april/containers/linked_cells_aosoa.hpp:313), a positive cell-size hint (include/april/containers/linked_cells.hpp:296), a storage built only once (include/april/containers/aos.hpp:38, include/april/containers/soa.hpp:171) and a particle id set during the build (include/april/system/build_helpers_particle.h:232).
- LinkedCellsCore.Core.ConfigOk and LinkedCellsAoSoA.LinkedCellsChunked.ConfigOk: require the cell count to stay below 2^32. The library checks nothing there; it casts the axis counts with `static_cast` and multiplies them in `uint32_t`, which would wrap. The model requires the limit instead of modelling the wrap.
- BuildParticles.CreateParticleMappings: composes the corrected `CreateIdMap`, not the truncating `create_id_map` the library calls (include/april/system/build_helpers_particle.h:207). With user ids of 65536 or more the library's id map loses entries, as the Findings row for build_helpers_particle.h:165-169 shows; the model states the intended bijection instead.
- DirectSums.DirectSumBase.BuildBatches and DirectSums.DirectSumBase.Build: count the types with the corrected `NumTypes` (the largest type plus one, as an unbounded natural), not the library's 16-bit `n_types` (include/april/containers/direct_sum.hpp:147-149). With 65535 as the largest type, which 65536 user types produce, the library's count wraps to 0 and it makes no batch, as the Findings row for direct_sum.hpp:147 shows; the model builds the intended batches instead. Record types are unbounded naturals, so the model also accepts types the 16-bit `ParticleType` cannot store.
- `validate_topologies` (include/april/system/build_helpers_boundary.h:28-30) is an unimplemented stub that accepts every input, so there is nothing to model.
- `pre_allocate_assignment_bins` reserves vector capacity; only the bins it creates are modelled, not the reservation.

## Findings

| source | as written | input that shows it | evidently intended | confidence | as-written member | corrected member |
|---|---|---|---|---|---|---|
| include/april/containers/aos.hpp:71-73 | `contains(id)` is `id <= max_id()`, where `max_id()` is the particle count | n particles with the dense ids 0 .. n - 1, queried with id n | `id < max_id()`: exactly the stored ids | medium, not executed | AoSContainers.AoSContainer.ContainsAsWrittenOffByOne | AoSContainers.AoSContainer.ContainsExact |
| include/april/containers/soa.hpp:74-76 | `contains_id(id)` is `id <= max_id()`, where `max_id()` is the id map's size | a built container of n particles, queried with id n | `id < max_id()` | medium, not executed | SoAContainers.SoAContainer.ContainsIdAsWrittenOffByOne | SoAContainers.SoAContainer.ContainsIdExact |
| include/april/containers/layout/aos.hpp:70-72 | `contains_id(id)` is `id <= max_id()` | a built layout of n records, queried with id n | `id < max_id()` | medium, not executed | LayoutAoS.AoSLayout.ContainsIdAsWrittenOffByOne | LayoutAoS.AoSLayout.ContainsIdExact |
| include/april/containers/layout/soa.hpp:163-165 | `contains_id(id)` is `id <= max_id()` | a built layout of n particles, queried with id n | `id < max_id()` | medium, not executed | LayoutSoA.SoALayout.ContainsIdAsWrittenOffByOne | LayoutSoA.SoALayout.ContainsIdExact |
| include/april/containers/aosoa.hpp:189-191 | `contains(id)` is `id <= max_id()` | a built container of n particles, queried with id n | `id < max_id()` | medium, not executed | AoSoAContainers.AoSoAContainer.ContainsAsWrittenOffByOne | AoSoAContainers.AoSoAContainer.ContainsExact |
| include/april/containers/direct_sum.hpp:147 | `n_types = current_type + 1` is stored in the 16-bit `ParticleType` | particles whose largest type is 65535: the count wraps to 0 and no batch is made | a type count one past the largest type, so that every pair is in a batch (`DirectSums.BatchesCoverPairs`) | low, not executed | DirectSums.NumTypesWraps | DirectSums.NumTypes |
| include/april/system/build_helpers_particle.h:165-169 | the user ids are copied into a `std::vector<env::ParticleType>`, which truncates them to 16 bits | user ids {0, 65536}: both become key 0, and id 65536 gets no entry | a bijection from the 32-bit user ids onto 0 .. n - 1, interacting ids first | medium, not executed | BuildParticles.IdTruncationLosesIds | BuildParticles.CreateIdMap |
