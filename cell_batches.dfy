/**
 * The interaction batches that the linked-cells container hands to the force
 * loop (`for_each_interaction_batch` of `linked_cells.hpp`), given the bin
 * start indices of a rebuilt grid and its precomputed cell pairs. Each call
 * of the callback is one element of the returned batch sequence, in call
 * order. Four phases follow one another: particles of one type inside one
 * cell, two types inside one cell, neighbouring cells, and wrapped cells.
 */
module CellBatches {
  import opened Grids
  import opened CellGrids
  import opened Stencils
  import Seqs

  /** A run of storage slots [start, stop), as an `iota_view {start, end}`. */
  datatype Indices = Indices(start: nat, stop: nat)

  function Size(r: Indices): int {
    r.stop - r.start
  }

  predicate Empty(r: Indices) {
    r.start == r.stop
  }

  /**
   * One callback invocation: a symmetric chunked batch of one type, an
   * asymmetric chunked batch of two types (no boundary shift), or a single
   * asymmetric batch of a wrapped cell pair with that pair's shift.
   */
  datatype Batch =
    | SymmetricChunked(t: nat, chunks: seq<Indices>)
    | AsymmetricChunked(t1: nat, t2: nat, chunkPairs: seq<(Indices, Indices)>)
    | Asymmetric(t1: nat, t2: nat, indices1: Indices, indices2: Indices, shift: Offset)

  /** One start per bin plus the sentinel. */
  predicate Sized(g: CellGrid, starts: seq<nat>) {
    |starts| == NumBins(g) + 1
  }

  /** Both cells of every pair are cells of the grid (the outside cell included). */
  predicate PairsIn(g: CellGrid, cellPairs: seq<CellPair>) {
    forall k :: 0 <= k < |cellPairs| ==> cellPairs[k].c1 < NumCells(g) && cellPairs[k].c2 < NumCells(g)
  }

  predicate WrappedIn(g: CellGrid, ws: seq<WrappedPair>) {
    forall k :: 0 <= k < |ws| ==> ws[k].c1 < NumCells(g) && ws[k].c2 < NumCells(g)
  }

  /** `get_indices(c, t)`: the slots of bin (c, t), up to the start of the next bin. */
  function BinRange(g: CellGrid, starts: seq<nat>, c: nat, t: nat): Indices
    requires Sized(g, starts) && c < NumCells(g) && t < g.nTypes
  {
    BinIndexBound(g, c, t);
    Indices(starts[BinIndex(g, c, t)], starts[BinIndex(g, c, t) + 1])
  }

  /** Both ranges of every chunk pair hold at least one particle. */
  predicate PairsNonEmpty(ps: seq<(Indices, Indices)>) {
    forall k :: 0 <= k < |ps| ==> !Empty(ps[k].0) && !Empty(ps[k].1)
  }

  // ---- phase 1: one type inside one cell ----

  /** The chunks of type t over grid cells 0 .. n - 1: only ranges holding at least two particles. */
  function SymChunks(g: CellGrid, starts: seq<nat>, t: nat, n: nat): (r: seq<Indices>)
    requires Sized(g, starts) && t < g.nTypes && n <= GridCells(g)
    ensures forall k :: 0 <= k < |r| ==> Size(r[k]) >= 2
  {
    if n == 0 then []
    else
      var range := BinRange(g, starts, n - 1, t);
      SymChunks(g, starts, t, n - 1) + if Size(range) < 2 then [] else [range]
  }

  /** A range is a chunk of type t exactly when it is the range of some cell below n with at least two particles. */
  lemma {:induction false} SymChunksIff(g: CellGrid, starts: seq<nat>, t: nat, n: nat, ch: Indices)
    requires Sized(g, starts) && t < g.nTypes && n <= GridCells(g)
    ensures ch in SymChunks(g, starts, t, n) <==>
      exists c :: 0 <= c < n && ch == BinRange(g, starts, c, t) && Size(ch) >= 2
  {
    if n > 0 {
      SymChunksIff(g, starts, t, n - 1, ch);
      var last := BinRange(g, starts, n - 1, t);
      if ch in SymChunks(g, starts, t, n) && ch !in SymChunks(g, starts, t, n - 1) {
        assert ch == last;
      }
      if exists c :: 0 <= c < n && ch == BinRange(g, starts, c, t) && Size(ch) >= 2 {
        var c :| 0 <= c < n && ch == BinRange(g, starts, c, t) && Size(ch) >= 2;
        if c == n - 1 {
          assert ch in SymChunks(g, starts, t, n)[|SymChunks(g, starts, t, n - 1)|..];
        }
      }
    }
  }

  /** The batches of types 0 .. nt - 1: one per type that has a chunk, in type order, carrying all of its chunks. */
  function SymBatches(g: CellGrid, starts: seq<nat>, nt: nat): (r: seq<Batch>)
    requires Sized(g, starts) && nt <= g.nTypes
    ensures forall k :: 0 <= k < |r| ==>
      && r[k].SymmetricChunked? && r[k].t < nt && r[k].chunks != []
      && r[k].chunks == SymChunks(g, starts, r[k].t, GridCells(g))
    ensures forall j, k :: 0 <= j < k < |r| ==> r[j].t < r[k].t
  {
    if nt == 0 then []
    else
      var chunks := SymChunks(g, starts, nt - 1, GridCells(g));
      SymBatches(g, starts, nt - 1) + if chunks == [] then [] else [SymmetricChunked(nt - 1, chunks)]
  }

  /** Every type with at least one chunk gets its batch. */
  lemma {:induction false} SymBatchesHas(g: CellGrid, starts: seq<nat>, nt: nat, t: nat)
    requires Sized(g, starts) && t < nt <= g.nTypes
    requires SymChunks(g, starts, t, GridCells(g)) != []
    ensures SymmetricChunked(t, SymChunks(g, starts, t, GridCells(g))) in SymBatches(g, starts, nt)
  {
    if t < nt - 1 {
      SymBatchesHas(g, starts, nt - 1, t);
    } else {
      var r := SymBatches(g, starts, nt);
      assert r[|r| - 1] == SymmetricChunked(t, SymChunks(g, starts, t, GridCells(g)));
    }
  }

  /** The inner loop of phase 1 for type t. */
  method SymChunksLoop(g: CellGrid, starts: seq<nat>, t: nat) returns (chunks: seq<Indices>)
    requires Sized(g, starts) && t < g.nTypes
    ensures chunks == SymChunks(g, starts, t, GridCells(g))
  {
    chunks := [];
    for c := 0 to GridCells(g)
      invariant chunks == SymChunks(g, starts, t, c)
    {
      var range := BinRange(g, starts, c, t);
      if Size(range) < 2 {
        continue;
      }
      chunks := chunks + [range];
    }
  }

  /** Phase 1: for every type, collect its chunks and emit a batch when there are any. */
  method SymmetricPhase(g: CellGrid, starts: seq<nat>) returns (batches: seq<Batch>)
    requires Sized(g, starts)
    ensures batches == SymBatches(g, starts, g.nTypes)
  {
    batches := [];
    for t := 0 to g.nTypes
      invariant batches == SymBatches(g, starts, t)
    {
      var chunks := SymChunksLoop(g, starts, t);
      if chunks != [] {
        batches := batches + [SymmetricChunked(t, chunks)];
      }
    }
  }

  // ---- phase 2: two types inside one cell ----

  /** The chunk pairs of types (t1, t2) over grid cells 0 .. n - 1: only cells where both ranges are non-empty. */
  function PairChunks(g: CellGrid, starts: seq<nat>, t1: nat, t2: nat, n: nat): (r: seq<(Indices, Indices)>)
    requires Sized(g, starts) && t1 < g.nTypes && t2 < g.nTypes && n <= GridCells(g)
    ensures PairsNonEmpty(r)
  {
    if n == 0 then []
    else
      var r1, r2 := BinRange(g, starts, n - 1, t1), BinRange(g, starts, n - 1, t2);
      PairChunks(g, starts, t1, t2, n - 1) + if Empty(r1) || Empty(r2) then [] else [(r1, r2)]
  }

  /** A pair of ranges is a chunk pair exactly when it is the two ranges of some cell below n, both non-empty. */
  lemma {:induction false} PairChunksIff(g: CellGrid, starts: seq<nat>, t1: nat, t2: nat, n: nat, ch: (Indices, Indices))
    requires Sized(g, starts) && t1 < g.nTypes && t2 < g.nTypes && n <= GridCells(g)
    ensures ch in PairChunks(g, starts, t1, t2, n) <==>
      exists c :: 0 <= c < n && ch == (BinRange(g, starts, c, t1), BinRange(g, starts, c, t2)) && !Empty(ch.0) && !Empty(ch.1)
  {
    if n > 0 {
      PairChunksIff(g, starts, t1, t2, n - 1, ch);
      var prev := PairChunks(g, starts, t1, t2, n - 1);
      var r1, r2 := BinRange(g, starts, n - 1, t1), BinRange(g, starts, n - 1, t2);
      var more := if Empty(r1) || Empty(r2) then [] else [(r1, r2)];
      Seqs.InConcat(ch, prev, more);
      if ch in more {
        assert ch == (BinRange(g, starts, n - 1, t1), BinRange(g, starts, n - 1, t2));
      }
      if exists c :: 0 <= c < n && ch == (BinRange(g, starts, c, t1), BinRange(g, starts, c, t2)) && !Empty(ch.0) && !Empty(ch.1) {
        var c :| 0 <= c < n && ch == (BinRange(g, starts, c, t1), BinRange(g, starts, c, t2)) && !Empty(ch.0) && !Empty(ch.1);
        if c == n - 1 {
          assert ch in more;
        } else {
          assert ch in prev;
        }
      }
    }
  }

  /** For one t1, the batches of t2 = t1 + 1 .. m - 1 that have a chunk pair, in t2 order. */
  function SameCellRow(g: CellGrid, starts: seq<nat>, t1: nat, m: nat): (r: seq<Batch>)
    requires Sized(g, starts) && t1 < g.nTypes && m <= g.nTypes
    ensures forall k :: 0 <= k < |r| ==>
      && r[k].AsymmetricChunked? && r[k].t1 == t1 && t1 < r[k].t2 < m && r[k].chunkPairs != []
      && PairsNonEmpty(r[k].chunkPairs)
  {
    if m <= t1 + 1 then []
    else
      var chunks := PairChunks(g, starts, t1, m - 1, GridCells(g));
      SameCellRow(g, starts, t1, m - 1) + if chunks == [] then [] else [AsymmetricChunked(t1, m - 1, chunks)]
  }

  /** Every batch of the row of t1 carries exactly the chunk pairs of t1 and its second type. */
  lemma {:induction false} SameCellRowExact(g: CellGrid, starts: seq<nat>, t1: nat, m: nat)
    requires Sized(g, starts) && t1 < g.nTypes && m <= g.nTypes
    ensures forall k :: 0 <= k < |SameCellRow(g, starts, t1, m)| ==>
      SameCellRow(g, starts, t1, m)[k].chunkPairs == PairChunks(g, starts, t1, SameCellRow(g, starts, t1, m)[k].t2, GridCells(g))
  {
    if m > t1 + 1 {
      SameCellRowExact(g, starts, t1, m - 1);
      var chunks := PairChunks(g, starts, t1, m - 1, GridCells(g));
      var prev: seq<Batch> := SameCellRow(g, starts, t1, m - 1);
      var last: seq<Batch> := if chunks == [] then [] else [AsymmetricChunked(t1, m - 1, chunks)];
      forall k | 0 <= k < |prev + last|
        ensures (prev + last)[k].chunkPairs == PairChunks(g, starts, t1, (prev + last)[k].t2, GridCells(g))
      {
        if k < |prev| {
          Seqs.IndexLeft(prev, last, k);
        } else {
          Seqs.IndexRight(prev, last, k - |prev|);
        }
      }
    }
  }

  /** The batches of t1 = 0 .. nt - 1, each with every larger type: only t1 < t2 occurs. */
  function SameCellBatches(g: CellGrid, starts: seq<nat>, nt: nat): (r: seq<Batch>)
    requires Sized(g, starts) && nt <= g.nTypes
    ensures forall k :: 0 <= k < |r| ==>
      && r[k].AsymmetricChunked? && r[k].t1 < nt && r[k].t1 < r[k].t2 < g.nTypes && r[k].chunkPairs != []
      && PairsNonEmpty(r[k].chunkPairs)
  {
    if nt == 0 then [] else SameCellBatches(g, starts, nt - 1) + SameCellRow(g, starts, nt - 1, g.nTypes)
  }

  /** Every same-cell batch carries exactly the chunk pairs of its two types. */
  lemma {:induction false} SameCellBatchesExact(g: CellGrid, starts: seq<nat>, nt: nat)
    requires Sized(g, starts) && nt <= g.nTypes
    ensures forall k :: 0 <= k < |SameCellBatches(g, starts, nt)| ==>
      SameCellBatches(g, starts, nt)[k].chunkPairs
        == PairChunks(g, starts, SameCellBatches(g, starts, nt)[k].t1, SameCellBatches(g, starts, nt)[k].t2, GridCells(g))
  {
    if nt > 0 {
      SameCellBatchesExact(g, starts, nt - 1);
      SameCellRowExact(g, starts, nt - 1, g.nTypes);
      var prev: seq<Batch>, row: seq<Batch> := SameCellBatches(g, starts, nt - 1), SameCellRow(g, starts, nt - 1, g.nTypes);
      forall k | 0 <= k < |prev + row|
        ensures (prev + row)[k].chunkPairs == PairChunks(g, starts, (prev + row)[k].t1, (prev + row)[k].t2, GridCells(g))
      {
        if k < |prev| {
          Seqs.IndexLeft(prev, row, k);
        } else {
          Seqs.IndexRight(prev, row, k - |prev|);
        }
      }
    }
  }

  /** Every pair of types t1 < t2 with at least one chunk pair gets its batch. */
  lemma {:induction false} SameCellBatchesHas(g: CellGrid, starts: seq<nat>, nt: nat, t1: nat, t2: nat)
    requires Sized(g, starts) && t1 < nt <= g.nTypes && t1 < t2 < g.nTypes
    requires PairChunks(g, starts, t1, t2, GridCells(g)) != []
    ensures AsymmetricChunked(t1, t2, PairChunks(g, starts, t1, t2, GridCells(g))) in SameCellBatches(g, starts, nt)
  {
    var b := AsymmetricChunked(t1, t2, PairChunks(g, starts, t1, t2, GridCells(g)));
    var prev, row := SameCellBatches(g, starts, nt - 1), SameCellRow(g, starts, nt - 1, g.nTypes);
    assert SameCellBatches(g, starts, nt) == prev + row;
    if t1 < nt - 1 {
      SameCellBatchesHas(g, starts, nt - 1, t1, t2);
    } else {
      SameCellRowHas(g, starts, t1, g.nTypes, t2);
    }
    Seqs.InConcat(b, prev, row);
  }

  lemma {:induction false} SameCellRowHas(g: CellGrid, starts: seq<nat>, t1: nat, m: nat, t2: nat)
    requires Sized(g, starts) && t1 < t2 < m <= g.nTypes
    requires PairChunks(g, starts, t1, t2, GridCells(g)) != []
    ensures AsymmetricChunked(t1, t2, PairChunks(g, starts, t1, t2, GridCells(g))) in SameCellRow(g, starts, t1, m)
  {
    if t2 < m - 1 {
      SameCellRowHas(g, starts, t1, m - 1, t2);
    } else {
      var r := SameCellRow(g, starts, t1, m);
      assert r[|r| - 1] == AsymmetricChunked(t1, t2, PairChunks(g, starts, t1, t2, GridCells(g)));
    }
  }

  /** The inner loop of phase 2 for types (t1, t2). */
  method PairChunksLoop(g: CellGrid, starts: seq<nat>, t1: nat, t2: nat) returns (chunks: seq<(Indices, Indices)>)
    requires Sized(g, starts) && t1 < g.nTypes && t2 < g.nTypes
    ensures chunks == PairChunks(g, starts, t1, t2, GridCells(g))
  {
    chunks := [];
    for c := 0 to GridCells(g)
      invariant chunks == PairChunks(g, starts, t1, t2, c)
    {
      var range1 := BinRange(g, starts, c, t1);
      if Empty(range1) {
        continue;
      }
      var range2 := BinRange(g, starts, c, t2);
      if Empty(range2) {
        continue;
      }
      chunks := chunks + [(range1, range2)];
    }
  }

  /** Phase 2: every type pair t1 < t2, emitting a batch when it has chunk pairs. */
  method SameCellPhase(g: CellGrid, starts: seq<nat>) returns (batches: seq<Batch>)
    requires Sized(g, starts)
    ensures batches == SameCellBatches(g, starts, g.nTypes)
  {
    batches := [];
    for t1 := 0 to g.nTypes
      invariant batches == SameCellBatches(g, starts, t1)
    {
      var row := SameCellRowLoop(g, starts, t1);
      batches := batches + row;
    }
  }

  /** The inner loop of phase 2 for one t1: every larger t2 in order. */
  method SameCellRowLoop(g: CellGrid, starts: seq<nat>, t1: nat) returns (row: seq<Batch>)
    requires Sized(g, starts) && t1 < g.nTypes
    ensures row == SameCellRow(g, starts, t1, g.nTypes)
  {
    row := [];
    for t2 := t1 + 1 to g.nTypes
      invariant row == SameCellRow(g, starts, t1, t2)
    {
      var chunks := PairChunksLoop(g, starts, t1, t2);
      if chunks != [] {
        row := row + [AsymmetricChunked(t1, t2, chunks)];
      }
    }
  }

  // ---- phase 3: neighbouring cells ----

  /** The chunk pairs of types (t1, t2) over the first n neighbour pairs: only pairs whose two ranges are non-empty. */
  function NeighborChunks(g: CellGrid, starts: seq<nat>, cellPairs: seq<CellPair>, t1: nat, t2: nat, n: nat): (r: seq<(Indices, Indices)>)
    requires Sized(g, starts) && PairsIn(g, cellPairs) && t1 < g.nTypes && t2 < g.nTypes && n <= |cellPairs|
    ensures PairsNonEmpty(r)
  {
    if n == 0 then []
    else
      var p := cellPairs[n - 1];
      var r1, r2 := BinRange(g, starts, p.c1, t1), BinRange(g, starts, p.c2, t2);
      NeighborChunks(g, starts, cellPairs, t1, t2, n - 1) + if Empty(r1) || Empty(r2) then [] else [(r1, r2)]
  }

  /** Each neighbour chunk pair is the (t1, t2) ranges of some neighbour pair k below n. */
  lemma {:induction false} NeighborChunksSound(g: CellGrid, starts: seq<nat>, cellPairs: seq<CellPair>, t1: nat, t2: nat, n: nat, ch: (Indices, Indices))
    returns (k: nat)
    requires Sized(g, starts) && PairsIn(g, cellPairs) && t1 < g.nTypes && t2 < g.nTypes && n <= |cellPairs|
    requires ch in NeighborChunks(g, starts, cellPairs, t1, t2, n)
    ensures k < n && ch == (BinRange(g, starts, cellPairs[k].c1, t1), BinRange(g, starts, cellPairs[k].c2, t2))
  {
    var prev := NeighborChunks(g, starts, cellPairs, t1, t2, n - 1);
    var p := cellPairs[n - 1];
    var r1, r2 := BinRange(g, starts, p.c1, t1), BinRange(g, starts, p.c2, t2);
    var more := if Empty(r1) || Empty(r2) then [] else [(r1, r2)];
    Seqs.InConcat(ch, prev, more);
    if ch in prev {
      k := NeighborChunksSound(g, starts, cellPairs, t1, t2, n - 1, ch);
    } else {
      k := n - 1;
    }
  }

  /** The (t1, t2) ranges of neighbour pair k below n, when both are non-empty, are a neighbour chunk pair. */
  lemma {:induction false} NeighborChunksComplete(g: CellGrid, starts: seq<nat>, cellPairs: seq<CellPair>, t1: nat, t2: nat, n: nat, k: nat)
    requires Sized(g, starts) && PairsIn(g, cellPairs) && t1 < g.nTypes && t2 < g.nTypes && k < n <= |cellPairs|
    requires !Empty(BinRange(g, starts, cellPairs[k].c1, t1)) && !Empty(BinRange(g, starts, cellPairs[k].c2, t2))
    ensures (BinRange(g, starts, cellPairs[k].c1, t1), BinRange(g, starts, cellPairs[k].c2, t2)) in NeighborChunks(g, starts, cellPairs, t1, t2, n)
  {
    var ch := (BinRange(g, starts, cellPairs[k].c1, t1), BinRange(g, starts, cellPairs[k].c2, t2));
    var prev := NeighborChunks(g, starts, cellPairs, t1, t2, n - 1);
    var p := cellPairs[n - 1];
    var r1, r2 := BinRange(g, starts, p.c1, t1), BinRange(g, starts, p.c2, t2);
    var more := if Empty(r1) || Empty(r2) then [] else [(r1, r2)];
    if k < n - 1 {
      NeighborChunksComplete(g, starts, cellPairs, t1, t2, n - 1, k);
    }
    Seqs.InConcat(ch, prev, more);
  }

  /** A pair of ranges is a chunk pair exactly when it is the (t1, t2) ranges of some neighbour pair below n, both non-empty. */
  lemma NeighborChunksIff(g: CellGrid, starts: seq<nat>, cellPairs: seq<CellPair>, t1: nat, t2: nat, n: nat, ch: (Indices, Indices))
    requires Sized(g, starts) && PairsIn(g, cellPairs) && t1 < g.nTypes && t2 < g.nTypes && n <= |cellPairs|
    ensures ch in NeighborChunks(g, starts, cellPairs, t1, t2, n) <==>
      exists k :: 0 <= k < n && ch == (BinRange(g, starts, cellPairs[k].c1, t1), BinRange(g, starts, cellPairs[k].c2, t2))
        && !Empty(ch.0) && !Empty(ch.1)
  {
    if ch in NeighborChunks(g, starts, cellPairs, t1, t2, n) {
      var k := NeighborChunksSound(g, starts, cellPairs, t1, t2, n, ch);
    }
    if exists k :: (0 <= k < n && ch == (BinRange(g, starts, cellPairs[k].c1, t1), BinRange(g, starts, cellPairs[k].c2, t2))
      && !Empty(ch.0) && !Empty(ch.1))
    {
      var k :| 0 <= k < n && ch == (BinRange(g, starts, cellPairs[k].c1, t1), BinRange(g, starts, cellPairs[k].c2, t2))
        && !Empty(ch.0) && !Empty(ch.1);
      NeighborChunksComplete(g, starts, cellPairs, t1, t2, n, k);
    }
  }

  /** For one t1, the batches of t2 = 0 .. m - 1 that have a chunk pair, in t2 order. */
  function NeighborRow(g: CellGrid, starts: seq<nat>, cellPairs: seq<CellPair>, t1: nat, m: nat): seq<Batch>
    requires Sized(g, starts) && PairsIn(g, cellPairs) && t1 < g.nTypes && m <= g.nTypes
  {
    if m == 0 then []
    else
      var chunks := NeighborChunks(g, starts, cellPairs, t1, m - 1, |cellPairs|);
      NeighborRow(g, starts, cellPairs, t1, m - 1) + if chunks == [] then [] else [AsymmetricChunked(t1, m - 1, chunks)]
  }

  /** A neighbour batch: two types of the grid and exactly their non-empty list of neighbour chunk pairs. */
  predicate NeighborBatch(g: CellGrid, starts: seq<nat>, cellPairs: seq<CellPair>, b: Batch)
    requires Sized(g, starts) && PairsIn(g, cellPairs)
  {
    && b.AsymmetricChunked? && b.t1 < g.nTypes && b.t2 < g.nTypes
    && b.chunkPairs == NeighborChunks(g, starts, cellPairs, b.t1, b.t2, |cellPairs|) && b.chunkPairs != []
  }

  /** Every batch of the row of t1 is a neighbour batch whose first type is t1. */
  lemma {:induction false} NeighborRowExact(g: CellGrid, starts: seq<nat>, cellPairs: seq<CellPair>, t1: nat, m: nat, b: Batch)
    requires Sized(g, starts) && PairsIn(g, cellPairs) && t1 < g.nTypes && m <= g.nTypes
    requires b in NeighborRow(g, starts, cellPairs, t1, m)
    ensures NeighborBatch(g, starts, cellPairs, b) && b.t1 == t1
  {
    if m > 0 {
      var chunks := NeighborChunks(g, starts, cellPairs, t1, m - 1, |cellPairs|);
      var prev: seq<Batch> := NeighborRow(g, starts, cellPairs, t1, m - 1);
      var last: seq<Batch> := if chunks == [] then [] else [AsymmetricChunked(t1, m - 1, chunks)];
      Seqs.InConcat(b, prev, last);
      if b in prev {
        NeighborRowExact(g, starts, cellPairs, t1, m - 1, b);
      }
    }
  }

  /** Row t1 of the neighbour phase as part t1 of a concatenation. */
  function NeighborParts(g: CellGrid, starts: seq<nat>, cellPairs: seq<CellPair>): nat -> seq<Batch>
    requires Sized(g, starts) && PairsIn(g, cellPairs)
  {
    (t1: nat) => if t1 < g.nTypes then NeighborRow(g, starts, cellPairs, t1, g.nTypes) else []
  }

  /** The batches of t1 = 0 .. nt - 1, each with every type: both orders of two types occur. */
  function NeighborBatches(g: CellGrid, starts: seq<nat>, cellPairs: seq<CellPair>, nt: nat): seq<Batch>
    requires Sized(g, starts) && PairsIn(g, cellPairs) && nt <= g.nTypes
  {
    Seqs.Concat(NeighborParts(g, starts, cellPairs), nt)
  }

  /** Every batch of the first nt rows is a neighbour batch whose first type is below nt. */
  lemma NeighborBatchesExact(g: CellGrid, starts: seq<nat>, cellPairs: seq<CellPair>, nt: nat, b: Batch)
    requires Sized(g, starts) && PairsIn(g, cellPairs) && nt <= g.nTypes
    requires b in NeighborBatches(g, starts, cellPairs, nt)
    ensures NeighborBatch(g, starts, cellPairs, b) && b.t1 < nt
  {
    var part := NeighborParts(g, starts, cellPairs);
    var t1 := Seqs.ConcatFrom(part, nt, b);
    assert part(t1) == NeighborRow(g, starts, cellPairs, t1, g.nTypes);
    NeighborRowExact(g, starts, cellPairs, t1, g.nTypes, b);
  }

  lemma {:induction false} NeighborRowHas(g: CellGrid, starts: seq<nat>, cellPairs: seq<CellPair>, t1: nat, m: nat, t2: nat)
    requires Sized(g, starts) && PairsIn(g, cellPairs) && t1 < g.nTypes && t2 < m <= g.nTypes
    requires NeighborChunks(g, starts, cellPairs, t1, t2, |cellPairs|) != []
    ensures AsymmetricChunked(t1, t2, NeighborChunks(g, starts, cellPairs, t1, t2, |cellPairs|)) in NeighborRow(g, starts, cellPairs, t1, m)
  {
    if t2 < m - 1 {
      NeighborRowHas(g, starts, cellPairs, t1, m - 1, t2);
    } else {
      var r := NeighborRow(g, starts, cellPairs, t1, m);
      assert r[|r| - 1] == AsymmetricChunked(t1, t2, NeighborChunks(g, starts, cellPairs, t1, t2, |cellPairs|));
    }
  }

  /** Every ordered pair of types with at least one neighbour chunk pair gets its batch. */
  lemma NeighborBatchesHas(g: CellGrid, starts: seq<nat>, cellPairs: seq<CellPair>, nt: nat, t1: nat, t2: nat)
    requires Sized(g, starts) && PairsIn(g, cellPairs) && t1 < nt <= g.nTypes && t2 < g.nTypes
    requires NeighborChunks(g, starts, cellPairs, t1, t2, |cellPairs|) != []
    ensures AsymmetricChunked(t1, t2, NeighborChunks(g, starts, cellPairs, t1, t2, |cellPairs|)) in NeighborBatches(g, starts, cellPairs, nt)
  {
    NeighborRowHas(g, starts, cellPairs, t1, g.nTypes, t2);
    var part := NeighborParts(g, starts, cellPairs);
    assert part(t1) == NeighborRow(g, starts, cellPairs, t1, g.nTypes);
    Seqs.ConcatHas(part, nt, t1, AsymmetricChunked(t1, t2, NeighborChunks(g, starts, cellPairs, t1, t2, |cellPairs|)));
  }

  /** Neighbour pair k adds its two ranges when both are non-empty, and nothing otherwise. */
  lemma NeighborChunksStep(g: CellGrid, starts: seq<nat>, cellPairs: seq<CellPair>, t1: nat, t2: nat, k: nat)
    requires Sized(g, starts) && PairsIn(g, cellPairs) && t1 < g.nTypes && t2 < g.nTypes && k < |cellPairs|
    ensures var r1, r2 := BinRange(g, starts, cellPairs[k].c1, t1), BinRange(g, starts, cellPairs[k].c2, t2);
      && (Empty(r1) || Empty(r2) ==> NeighborChunks(g, starts, cellPairs, t1, t2, k + 1) == NeighborChunks(g, starts, cellPairs, t1, t2, k))
      && (!Empty(r1) && !Empty(r2) ==>
        NeighborChunks(g, starts, cellPairs, t1, t2, k + 1) == NeighborChunks(g, starts, cellPairs, t1, t2, k) + [(r1, r2)])
  {
    var r1, r2 := BinRange(g, starts, cellPairs[k].c1, t1), BinRange(g, starts, cellPairs[k].c2, t2);
    if Empty(r1) || Empty(r2) {
      assert NeighborChunks(g, starts, cellPairs, t1, t2, k) + [] == NeighborChunks(g, starts, cellPairs, t1, t2, k);
    }
  }

  /** The inner loop of phase 3 for types (t1, t2). */
  method NeighborChunksLoop(g: CellGrid, starts: seq<nat>, cellPairs: seq<CellPair>, t1: nat, t2: nat) returns (chunks: seq<(Indices, Indices)>)
    requires Sized(g, starts) && PairsIn(g, cellPairs) && t1 < g.nTypes && t2 < g.nTypes
    ensures chunks == NeighborChunks(g, starts, cellPairs, t1, t2, |cellPairs|)
  {
    chunks := [];
    for k := 0 to |cellPairs|
      invariant chunks == NeighborChunks(g, starts, cellPairs, t1, t2, k)
    {
      NeighborChunksStep(g, starts, cellPairs, t1, t2, k);
      var range1 := BinRange(g, starts, cellPairs[k].c1, t1);
      if Empty(range1) {
        continue;
      }
      var range2 := BinRange(g, starts, cellPairs[k].c2, t2);
      if Empty(range2) {
        continue;
      }
      chunks := chunks + [(range1, range2)];
    }
  }

  /** Phase 3: every ordered type pair, emitting a batch when it has chunk pairs. */
  method NeighborPhase(g: CellGrid, starts: seq<nat>, cellPairs: seq<CellPair>) returns (batches: seq<Batch>)
    requires Sized(g, starts) && PairsIn(g, cellPairs)
    ensures batches == NeighborBatches(g, starts, cellPairs, g.nTypes)
  {
    batches := [];
    for t1 := 0 to g.nTypes
      invariant batches == NeighborBatches(g, starts, cellPairs, t1)
    {
      var row := NeighborRowLoop(g, starts, cellPairs, t1);
      Seqs.ConcatStep(NeighborParts(g, starts, cellPairs), t1);
      batches := batches + row;
    }
  }

  /** The inner loop of phase 3 for one t1: every t2 in order. */
  method NeighborRowLoop(g: CellGrid, starts: seq<nat>, cellPairs: seq<CellPair>, t1: nat) returns (row: seq<Batch>)
    requires Sized(g, starts) && PairsIn(g, cellPairs) && t1 < g.nTypes
    ensures row == NeighborRow(g, starts, cellPairs, t1, g.nTypes)
  {
    row := [];
    for t2 := 0 to g.nTypes
      invariant row == NeighborRow(g, starts, cellPairs, t1, t2)
    {
      var chunks := NeighborChunksLoop(g, starts, cellPairs, t1, t2);
      if chunks != [] {
        row := row + [AsymmetricChunked(t1, t2, chunks)];
      }
    }
  }

  // ---- phase 4: wrapped cell pairs ----

  /** For wrapped pair w and type t1, one batch per t2 below m whose range in the second cell is non-empty. */
  function WrappedRow(g: CellGrid, starts: seq<nat>, w: WrappedPair, t1: nat, m: nat): (r: seq<Batch>)
    requires Sized(g, starts) && w.c1 < NumCells(g) && w.c2 < NumCells(g) && t1 < g.nTypes && m <= g.nTypes
    ensures forall k :: 0 <= k < |r| ==>
      && r[k].Asymmetric? && r[k].t1 == t1 && r[k].t2 < m && r[k].shift == w.shift
      && r[k].indices1 == BinRange(g, starts, w.c1, t1) && !Empty(r[k].indices2)
  {
    if m == 0 then []
    else
      var range2 := BinRange(g, starts, w.c2, m - 1);
      WrappedRow(g, starts, w, t1, m - 1)
        + if Empty(range2) then [] else [Asymmetric(t1, m - 1, BinRange(g, starts, w.c1, t1), range2, w.shift)]
  }

  /** For wrapped pair w, the batches of every t1 below nt whose range in the first cell is non-empty. */
  function WrappedPairBatches(g: CellGrid, starts: seq<nat>, w: WrappedPair, nt: nat): (r: seq<Batch>)
    requires Sized(g, starts) && w.c1 < NumCells(g) && w.c2 < NumCells(g) && nt <= g.nTypes
    ensures forall k :: 0 <= k < |r| ==>
      && r[k].Asymmetric? && r[k].t1 < nt && r[k].t2 < g.nTypes && r[k].shift == w.shift
      && !Empty(r[k].indices1) && !Empty(r[k].indices2)
  {
    if nt == 0 then []
    else
      var range1 := BinRange(g, starts, w.c1, nt - 1);
      WrappedPairBatches(g, starts, w, nt - 1) + if Empty(range1) then [] else WrappedRow(g, starts, w, nt - 1, g.nTypes)
  }

  /** The batches of the first n wrapped pairs, pair by pair: every batch has two non-empty ranges. */
  function WrappedBatches(g: CellGrid, starts: seq<nat>, ws: seq<WrappedPair>, n: nat): (r: seq<Batch>)
    requires Sized(g, starts) && WrappedIn(g, ws) && n <= |ws|
    ensures forall k :: 0 <= k < |r| ==>
      && r[k].Asymmetric? && r[k].t1 < g.nTypes && r[k].t2 < g.nTypes
      && !Empty(r[k].indices1) && !Empty(r[k].indices2)
  {
    if n == 0 then [] else WrappedBatches(g, starts, ws, n - 1) + WrappedPairBatches(g, starts, ws[n - 1], g.nTypes)
  }

  /** The batch of types t1 and t2 sits in the row of t1, at index j. */
  lemma {:induction false} WrappedRowAt(g: CellGrid, starts: seq<nat>, w: WrappedPair, t1: nat, m: nat, t2: nat)
    returns (j: nat)
    requires Sized(g, starts) && w.c1 < NumCells(g) && w.c2 < NumCells(g) && t1 < g.nTypes && t2 < m <= g.nTypes
    requires !Empty(BinRange(g, starts, w.c2, t2))
    ensures j < |WrappedRow(g, starts, w, t1, m)|
    ensures WrappedRow(g, starts, w, t1, m)[j]
      == Asymmetric(t1, t2, BinRange(g, starts, w.c1, t1), BinRange(g, starts, w.c2, t2), w.shift)
  {
    var prev := WrappedRow(g, starts, w, t1, m - 1);
    var range2 := BinRange(g, starts, w.c2, m - 1);
    var more := if Empty(range2) then [] else [Asymmetric(t1, m - 1, BinRange(g, starts, w.c1, t1), range2, w.shift)];
    assert WrappedRow(g, starts, w, t1, m) == prev + more;
    if t2 < m - 1 {
      j := WrappedRowAt(g, starts, w, t1, m - 1, t2);
    } else {
      j := |prev|;
    }
  }

  /** The batches of wrapped pair w for the types below nt: those below nt - 1, then the row of type nt - 1. */
  lemma PairBatchesSplit(g: CellGrid, starts: seq<nat>, w: WrappedPair, nt: nat)
    requires Sized(g, starts) && w.c1 < NumCells(g) && w.c2 < NumCells(g) && 0 < nt <= g.nTypes
    ensures !Empty(BinRange(g, starts, w.c1, nt - 1)) ==>
      WrappedPairBatches(g, starts, w, nt)
        == WrappedPairBatches(g, starts, w, nt - 1) + WrappedRow(g, starts, w, nt - 1, g.nTypes)
    ensures Empty(BinRange(g, starts, w.c1, nt - 1)) ==>
      WrappedPairBatches(g, starts, w, nt) == WrappedPairBatches(g, starts, w, nt - 1)
  {
  }

  /** The batch of types t1 and t2 sits among the batches of wrapped pair w, at index k. */
  lemma {:induction false} WrappedPairBatchesAt(g: CellGrid, starts: seq<nat>, w: WrappedPair, nt: nat, t1: nat, t2: nat)
    returns (k: nat)
    requires Sized(g, starts) && w.c1 < NumCells(g) && w.c2 < NumCells(g) && t1 < nt <= g.nTypes && t2 < g.nTypes
    requires !Empty(BinRange(g, starts, w.c1, t1)) && !Empty(BinRange(g, starts, w.c2, t2))
    ensures k < |WrappedPairBatches(g, starts, w, nt)|
    ensures WrappedPairBatches(g, starts, w, nt)[k]
      == Asymmetric(t1, t2, BinRange(g, starts, w.c1, t1), BinRange(g, starts, w.c2, t2), w.shift)
    decreases nt
  {
    if t1 < nt - 1 {
      var i := WrappedPairBatchesAt(g, starts, w, nt - 1, t1, t2);
      k := KeepIndex(g, starts, w, nt, i);
    } else {
      var j := WrappedRowAt(g, starts, w, t1, g.nTypes, t2);
      k := LastRowIndex(g, starts, w, nt, j);
    }
  }

  /** The batches for the types below nt - 1 are a prefix of those for the types below nt. */
  lemma KeepIndex(g: CellGrid, starts: seq<nat>, w: WrappedPair, nt: nat, i: nat) returns (k: nat)
    requires Sized(g, starts) && w.c1 < NumCells(g) && w.c2 < NumCells(g) && 0 < nt <= g.nTypes
    requires i < |WrappedPairBatches(g, starts, w, nt - 1)|
    ensures k == i && k < |WrappedPairBatches(g, starts, w, nt)|
    ensures WrappedPairBatches(g, starts, w, nt)[k] == WrappedPairBatches(g, starts, w, nt - 1)[i]
  {
    PairBatchesSplit(g, starts, w, nt);
    k := i;
  }

  /** Entry j of the row of type nt - 1, non-empty in the first cell, follows the batches of the types below it. */
  lemma LastRowIndex(g: CellGrid, starts: seq<nat>, w: WrappedPair, nt: nat, j: nat) returns (k: nat)
    requires Sized(g, starts) && w.c1 < NumCells(g) && w.c2 < NumCells(g) && 0 < nt <= g.nTypes
    requires !Empty(BinRange(g, starts, w.c1, nt - 1)) && j < |WrappedRow(g, starts, w, nt - 1, g.nTypes)|
    ensures k < |WrappedPairBatches(g, starts, w, nt)|
    ensures WrappedPairBatches(g, starts, w, nt)[k] == WrappedRow(g, starts, w, nt - 1, g.nTypes)[j]
  {
    PairBatchesSplit(g, starts, w, nt);
    k := |WrappedPairBatches(g, starts, w, nt - 1)| + j;
  }

  /**
   * Every wrapped pair among the first n, with any two types whose ranges in
   * its two cells are both non-empty, gets its own batch carrying the pair's shift.
   */
  lemma {:induction false} WrappedBatchesHas(g: CellGrid, starts: seq<nat>, ws: seq<WrappedPair>, n: nat, k: nat, t1: nat, t2: nat)
    requires Sized(g, starts) && WrappedIn(g, ws) && k < n <= |ws| && t1 < g.nTypes && t2 < g.nTypes
    requires !Empty(BinRange(g, starts, ws[k].c1, t1)) && !Empty(BinRange(g, starts, ws[k].c2, t2))
    ensures Asymmetric(t1, t2, BinRange(g, starts, ws[k].c1, t1), BinRange(g, starts, ws[k].c2, t2), ws[k].shift)
      in WrappedBatches(g, starts, ws, n)
  {
    var i := WrappedPairBatchesAt(g, starts, ws[k], g.nTypes, t1, t2);
    var j := WrappedBatchesCover(g, starts, ws, n, k, i);
    assert WrappedBatches(g, starts, ws, n)[j] == WrappedPairBatches(g, starts, ws[k], g.nTypes)[i];
  }

  /** The batches of each wrapped pair, as the parts of a concatenation (no batches past the last pair). */
  function WrappedParts(g: CellGrid, starts: seq<nat>, ws: seq<WrappedPair>): nat -> seq<Batch>
    requires Sized(g, starts) && WrappedIn(g, ws)
  {
    (x: nat) => if x < |ws| then WrappedPairBatches(g, starts, ws[x], g.nTypes) else []
  }

  /** The batches of the first n wrapped pairs are the concatenation of their batches, pair by pair. */
  lemma {:induction false} WrappedBatchesConcat(g: CellGrid, starts: seq<nat>, ws: seq<WrappedPair>, n: nat)
    requires Sized(g, starts) && WrappedIn(g, ws) && n <= |ws|
    ensures WrappedBatches(g, starts, ws, n) == Seqs.Concat(WrappedParts(g, starts, ws), n)
  {
    if n > 0 {
      WrappedBatchesConcat(g, starts, ws, n - 1);
      var part := WrappedParts(g, starts, ws);
      assert part(n - 1) == if n - 1 < |ws| then WrappedPairBatches(g, starts, ws[n - 1], g.nTypes) else [];
    }
  }

  /** Batch i of wrapped pair k sits among the batches of the first n pairs, for any n above k, at index j. */
  lemma WrappedBatchesCover(g: CellGrid, starts: seq<nat>, ws: seq<WrappedPair>, n: nat, k: nat, i: nat)
    returns (j: nat)
    requires Sized(g, starts) && WrappedIn(g, ws) && k < n <= |ws|
    requires i < |WrappedPairBatches(g, starts, ws[k], g.nTypes)|
    ensures j < |WrappedBatches(g, starts, ws, n)|
    ensures WrappedBatches(g, starts, ws, n)[j] == WrappedPairBatches(g, starts, ws[k], g.nTypes)[i]
  {
    WrappedBatchesConcat(g, starts, ws, n);
    var part := WrappedParts(g, starts, ws);
    assert part(k) == if k < |ws| then WrappedPairBatches(g, starts, ws[k], g.nTypes) else [];
    j := Seqs.ConcatAt(part, n, k, i);
  }

  /** The batches of the first n wrapped pairs: those of the first n - 1, then those of pair n - 1. */
  lemma BatchesStep(g: CellGrid, starts: seq<nat>, ws: seq<WrappedPair>, n: nat)
    requires Sized(g, starts) && WrappedIn(g, ws) && 0 < n <= |ws|
    ensures WrappedBatches(g, starts, ws, n)
      == WrappedBatches(g, starts, ws, n - 1) + WrappedPairBatches(g, starts, ws[n - 1], g.nTypes)
  {
  }

  /** The loops over t1 and t2 for one wrapped pair. */
  method WrappedPairLoop(g: CellGrid, starts: seq<nat>, w: WrappedPair) returns (batches: seq<Batch>)
    requires Sized(g, starts) && w.c1 < NumCells(g) && w.c2 < NumCells(g)
    ensures batches == WrappedPairBatches(g, starts, w, g.nTypes)
  {
    batches := [];
    for t1 := 0 to g.nTypes
      invariant batches == WrappedPairBatches(g, starts, w, t1)
    {
      PairBatchesSplit(g, starts, w, t1 + 1);
      if !Empty(BinRange(g, starts, w.c1, t1)) {
        var row := WrappedRowLoop(g, starts, w, t1);
        batches := batches + row;
      }
    }
  }

  /** The inner loop over t2 for wrapped pair w and a type t1 present in its first cell. */
  method WrappedRowLoop(g: CellGrid, starts: seq<nat>, w: WrappedPair, t1: nat) returns (row: seq<Batch>)
    requires Sized(g, starts) && w.c1 < NumCells(g) && w.c2 < NumCells(g) && t1 < g.nTypes
    ensures row == WrappedRow(g, starts, w, t1, g.nTypes)
  {
    var range1 := BinRange(g, starts, w.c1, t1);
    row := [];
    for t2 := 0 to g.nTypes
      invariant row == WrappedRow(g, starts, w, t1, t2)
    {
      var range2 := BinRange(g, starts, w.c2, t2);
      if !Empty(range2) {
        row := row + [Asymmetric(t1, t2, range1, range2, w.shift)];
      }
    }
  }

  /** Phase 4: every wrapped pair in order. */
  method WrappedPhase(g: CellGrid, starts: seq<nat>, ws: seq<WrappedPair>) returns (batches: seq<Batch>)
    requires Sized(g, starts) && WrappedIn(g, ws)
    ensures batches == WrappedBatches(g, starts, ws, |ws|)
  {
    batches := [];
    for k := 0 to |ws|
      invariant batches == WrappedBatches(g, starts, ws, k)
    {
      var more := WrappedPairLoop(g, starts, ws[k]);
      batches := batches + more;
    }
  }

  /** All four phases, one after the other. */
  function InteractionBatches(g: CellGrid, starts: seq<nat>, cellPairs: seq<CellPair>, ws: seq<WrappedPair>): seq<Batch>
    requires Sized(g, starts) && PairsIn(g, cellPairs) && WrappedIn(g, ws)
  {
    SymBatches(g, starts, g.nTypes) + SameCellBatches(g, starts, g.nTypes)
      + NeighborBatches(g, starts, cellPairs, g.nTypes) + WrappedBatches(g, starts, ws, |ws|)
  }

  /** The callback never receives an empty batch: every chunk list is non-empty and every range non-empty (two or more for a symmetric chunk). */
  lemma BatchesNonEmpty(g: CellGrid, starts: seq<nat>, cellPairs: seq<CellPair>, ws: seq<WrappedPair>, b: Batch)
    requires Sized(g, starts) && PairsIn(g, cellPairs) && WrappedIn(g, ws)
    requires b in InteractionBatches(g, starts, cellPairs, ws)
    ensures b.SymmetricChunked? ==> b.chunks != [] && forall k :: 0 <= k < |b.chunks| ==> Size(b.chunks[k]) >= 2
    ensures b.AsymmetricChunked? ==> b.chunkPairs != [] && forall k :: 0 <= k < |b.chunkPairs| ==> !Empty(b.chunkPairs[k].0) && !Empty(b.chunkPairs[k].1)
    ensures b.Asymmetric? ==> !Empty(b.indices1) && !Empty(b.indices2)
  {
    var front := SymBatches(g, starts, g.nTypes) + SameCellBatches(g, starts, g.nTypes);
    var neighbor := NeighborBatches(g, starts, cellPairs, g.nTypes);
    Seqs.InConcat(b, front + neighbor, WrappedBatches(g, starts, ws, |ws|));
    Seqs.InConcat(b, front, neighbor);
    if b in neighbor {
      NeighborBatchesExact(g, starts, cellPairs, g.nTypes, b);
    }
  }
}
