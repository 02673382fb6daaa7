/**
 * The generic linked-cells core of `linked_cells/lc_core.hpp`, over the
 * struct-of-arrays layout.
 *
 * Unlike the plain container, the core does not sort by counting: its
 * rebuild walks the layout's current bins in order, pushes every particle
 * index onto the list of the (cell, type) bin its position and type name,
 * and hands those lists to the layout's `reorder_storage`. The cell index
 * range of a cell then spans the physical ranges of its bins. The force
 * loop is driven by a per-cell kernel that reports symmetric ranges (one
 * type in one cell) and asymmetric range pairs (two types, or a cell and a
 * stencil neighbour).
 */
module LinkedCellsCore {
  import opened Wrappers
  import opened Ints
  import opened Grids
  import opened ParticleRecords
  import opened Seqs
  import opened CellGrids
  import opened Bins
  import opened CellBatches
  import CountingSort
  import CellOrderings
  import Stencils
  import LinkedCells
  import LayoutSoA

  // ---- visiting the layout's bins ----

  /** lo, lo + 1, ..., hi - 1. */
  function Iota(lo: nat, hi: nat): (s: seq<nat>)
    requires lo <= hi
    ensures |s| == hi - lo && forall j :: 0 <= j < |s| ==> s[j] == lo + j
  {
    seq(hi - lo, j requires 0 <= j < hi - lo => lo + j)
  }

  /** The indices the rebuild visits: the physical range of each of the first i layout bins, bin by bin. */
  function Visit(starts: seq<nat>, sizes: seq<nat>, i: nat): seq<nat>
    requires i <= |starts| && i <= |sizes|
  {
    if i == 0 then [] else Visit(starts, sizes, i - 1) + Iota(starts[i - 1], starts[i - 1] + sizes[i - 1])
  }

  /** The layout's ranges lie one after another and cover the slots 0 .. n - 1 once each. */
  predicate Tiled(starts: seq<nat>, sizes: seq<nat>, n: nat) {
    RangesIn(starts, sizes, n) && Visit(starts, sizes, |starts|) == Iota(0, n)
  }

  /** The ranges a layout records after `reorder_storage(bins)` tile the gathered slots. */
  lemma {:induction false} OffsetsTile(bins: seq<seq<nat>>, k: nat)
    requires k <= |bins|
    ensures Visit(Offsets(bins), Sizes(bins), k) == Iota(0, |Flatten(bins[..k])|)
  {
    if k == 0 {
      assert bins[..0] == [];
    } else {
      OffsetsTile(bins, k - 1);
      var prev := Iota(0, |Flatten(bins[..k - 1])|);
      assert bins[..k][..k - 1] == bins[..k - 1];
      assert Offsets(bins)[k - 1] == |Flatten(bins[..k - 1])|;
      assert |Flatten(bins[..k])| == |Flatten(bins[..k - 1])| + |bins[k - 1]|;
      IotaSplit(0, |Flatten(bins[..k - 1])|, |Flatten(bins[..k])|);
    }
  }

  lemma IotaSplit(lo: nat, mid: nat, hi: nat)
    requires lo <= mid <= hi
    ensures Iota(lo, hi) == Iota(lo, mid) + Iota(mid, hi)
  {
  }

  /** The single range [0, n) that `build_storage` records tiles the storage. */
  lemma OneRangeTiled(n: nat)
    ensures Tiled([0], [n], n)
  {
    assert Visit([0], [n], 1) == Visit([0], [n], 0) + Iota(0, n);
  }

  /** The ranges `reorder_storage` leaves tile the storage. */
  lemma ReorderedTiled(bins: seq<seq<nat>>)
    ensures Tiled(Offsets(bins), Sizes(bins), |Flatten(bins)|)
  {
    OffsetsTile(bins, |bins|);
    assert bins[..|bins|] == bins;
    forall k | 0 <= k < |bins|
      ensures Offsets(bins)[k] + Sizes(bins)[k] <= |Flatten(bins)|
    {
      FlattenSlice(bins, k);
    }
  }

  // ---- filling the assignment bins ----

  /** Every visited index has a key, and every key names one of m bins. */
  predicate VisitOk(visit: seq<nat>, keys: seq<nat>, m: nat) {
    forall j :: 0 <= j < |visit| ==> visit[j] < |keys| && keys[visit[j]] < m
  }

  function Empties(m: nat): (bins: seq<seq<nat>>)
    ensures |bins| == m && forall b :: 0 <= b < m ==> bins[b] == []
  {
    seq(m, _ => [])
  }

  /**
   * The bins after each visited index, in visit order, is appended to the
   * bin its key names (an index without a key or with a key past the last
   * bin, which an admissible visit never has, is dropped).
   */
  function Push(bins: seq<seq<nat>>, keys: seq<nat>, visit: seq<nat>): (r: seq<seq<nat>>)
    ensures |r| == |bins|
  {
    if visit == [] then bins
    else
      var x := visit[|visit| - 1];
      var r := Push(bins, keys, visit[..|visit| - 1]);
      if x < |keys| && keys[x] < |r| then r[keys[x] := r[keys[x]] + [x]] else r
  }

  /** The visited indices whose key is b, in visit order. */
  function Select(visit: seq<nat>, keys: seq<nat>, b: nat): (s: seq<nat>)
    requires forall j :: 0 <= j < |visit| ==> visit[j] < |keys|
    ensures forall x :: x in s <==> x in visit && keys[x] == b
  {
    if visit == [] then []
    else
      var x := visit[|visit| - 1];
      var p := visit[..|visit| - 1];
      assert visit == p + [x];
      Select(p, keys, b) + (if keys[x] == b then [x] else [])
  }

  /**
   * Starting from cleared bins, bin b ends up holding exactly the visited
   * indices whose key is b, in the order they were visited.
   */
  lemma {:induction false} PushSelects(keys: seq<nat>, visit: seq<nat>, m: nat, b: nat)
    requires VisitOk(visit, keys, m) && b < m
    ensures Push(Empties(m), keys, visit)[b] == Select(visit, keys, b)
  {
    if visit != [] {
      PushSelects(keys, visit[..|visit| - 1], m, b);
    }
  }

  /** Appending x to one bin adds x once to the bins laid end to end. */
  lemma FlattenPush(bins: seq<seq<nat>>, k: nat, x: nat)
    requires k < |bins|
    ensures multiset(Flatten(bins[k := bins[k] + [x]])) == multiset(Flatten(bins)) + multiset{x}
  {
    var bins' := bins[k := bins[k] + [x]];
    assert bins == bins[..k] + ([bins[k]] + bins[k + 1..]);
    assert bins' == bins[..k] + ([bins[k] + [x]] + bins[k + 1..]);
    FlattenAppend(bins[..k], [bins[k]] + bins[k + 1..]);
    FlattenAppend([bins[k]], bins[k + 1..]);
    FlattenAppend(bins[..k], [bins[k] + [x]] + bins[k + 1..]);
    FlattenAppend([bins[k] + [x]], bins[k + 1..]);
    FlattenOne(bins[k]);
    FlattenOne(bins[k] + [x]);
  }

  lemma FlattenOne(s: seq<nat>)
    ensures Flatten([s]) == s
  {
    var one: seq<seq<nat>> := [s];
    assert one[..0] == [];
  }

  /** The filled bins list every visited index as often as it was visited. */
  lemma {:induction false} PushKeepsVisits(bins: seq<seq<nat>>, keys: seq<nat>, visit: seq<nat>)
    requires VisitOk(visit, keys, |bins|)
    ensures multiset(Flatten(Push(bins, keys, visit))) == multiset(Flatten(bins)) + multiset(visit)
  {
    if visit != [] {
      var p, x := visit[..|visit| - 1], visit[|visit| - 1];
      assert visit == p + [x];
      PushKeepsVisits(bins, keys, p);
      FlattenPush(Push(bins, keys, p), keys[x], x);
    }
  }

  /** The lists of every slot of a tiled storage, pushed into cleared bins, list every slot exactly once. */
  lemma AssignmentPermutes(keys: seq<nat>, n: nat, m: nat)
    requires VisitOk(Iota(0, n), keys, m)
    ensures CellOrderings.IsPermutation(Flatten(Push(Empties(m), keys, Iota(0, n))), n)
  {
    var f := Flatten(Push(Empties(m), keys, Iota(0, n)));
    PushKeepsVisits(Empties(m), keys, Iota(0, n));
    EmptiesFlatten(m);
    IotaPermutation(n);
    SameMultisetPermutation(f, Iota(0, n), n);
  }

  lemma {:induction false} EmptiesFlatten(m: nat)
    ensures Flatten(Empties(m)) == []
  {
    if m > 0 {
      assert Empties(m)[..m - 1] == Empties(m - 1);
      EmptiesFlatten(m - 1);
    }
  }

  lemma IotaPermutation(n: nat)
    ensures CellOrderings.IsPermutation(Iota(0, n), n)
  {
  }

  /** A sequence with the same elements as a permutation of 0 .. n - 1 is one too. */
  lemma SameMultisetPermutation(a: seq<nat>, b: seq<nat>, n: nat)
    requires multiset(a) == multiset(b) && CellOrderings.IsPermutation(b, n)
    ensures CellOrderings.IsPermutation(a, n)
  {
    assert |a| == |multiset(a)| == |multiset(b)| == |b|;
    forall f | 0 <= f < n
      ensures a[f] < n
    {
      assert a[f] in multiset(a);
      assert a[f] in multiset(b);
      var g :| 0 <= g < |b| && b[g] == a[f];
    }
    forall f1, f2 | 0 <= f1 < f2 < n
      ensures a[f1] != a[f2]
    {
      if a[f1] == a[f2] {
        TwiceCounted(a, f1, f2);
        DistinctCounted(b, a[f1]);
        assert false;
      }
    }
  }

  lemma TwiceCounted(a: seq<nat>, f1: nat, f2: nat)
    requires f1 < f2 < |a| && a[f1] == a[f2]
    ensures multiset(a)[a[f1]] >= 2
  {
    assert a == a[..f2] + [a[f2]] + a[f2 + 1..];
    assert a[..f2][f1] == a[f1];
    assert a[f1] in multiset(a[..f2]);
  }

  lemma {:induction false} DistinctCounted(b: seq<nat>, v: nat)
    requires forall i, j :: 0 <= i < j < |b| ==> b[i] != b[j]
    ensures multiset(b)[v] <= 1
  {
    if b != [] {
      var p, last := b[..|b| - 1], b[|b| - 1];
      assert b == p + [last];
      DistinctCounted(p, v);
      if last == v {
        assert forall i :: 0 <= i < |p| ==> p[i] == b[i] != b[|b| - 1];
        assert v !in p;
      }
    }
  }

  /** Every layout range lies below n. */
  predicate RangesIn(starts: seq<nat>, sizes: seq<nat>, n: nat) {
    |starts| == |sizes| && forall i :: 0 <= i < |starts| ==> starts[i] + sizes[i] <= n
  }

  /** Visiting ranges below the key count, with every key naming a bin, is admissible. */
  lemma {:induction false} VisitInRanges(starts: seq<nat>, sizes: seq<nat>, keys: seq<nat>, m: nat, i: nat)
    requires RangesIn(starts, sizes, |keys|) && CountingSort.KeysBelow(keys, m) && i <= |starts|
    ensures VisitOk(Visit(starts, sizes, i), keys, m)
  {
    if i > 0 {
      VisitInRanges(starts, sizes, keys, m, i - 1);
    }
  }

  /** `rebuild_structure`'s assignment loops: every bin cleared, then each layout range visited in order. */
  method AssignBins(keys: seq<nat>, starts: seq<nat>, sizes: seq<nat>, m: nat) returns (bins: seq<seq<nat>>)
    requires RangesIn(starts, sizes, |keys|) && CountingSort.KeysBelow(keys, m)
    ensures bins == Push(Empties(m), keys, Visit(starts, sizes, |starts|))
  {
    bins := Empties(m);
    for i := 0 to |sizes|
      invariant bins == Push(Empties(m), keys, Visit(starts, sizes, i))
    {
      bins := PushRange(bins, keys, Visit(starts, sizes, i), starts[i], starts[i] + sizes[i], m);
      assert Visit(starts, sizes, i + 1) == Visit(starts, sizes, i) + Iota(starts[i], starts[i] + sizes[i]);
    }
  }

  /** The inner loop of the rebuild: every index of one layout range, in order, goes to the end of its key's bin. */
  method PushRange(bins: seq<seq<nat>>, keys: seq<nat>, done: seq<nat>, start: nat, end: nat, m: nat)
    returns (bins': seq<seq<nat>>)
    requires start <= end <= |keys| && CountingSort.KeysBelow(keys, m) && |bins| == m
    requires bins == Push(Empties(m), keys, done)
    ensures bins' == Push(Empties(m), keys, done + Iota(start, end))
  {
    assert done + Iota(start, start) == done;
    bins' := bins;
    for idx := start to end
      invariant |bins'| == m
      invariant bins' == Push(Empties(m), keys, done + Iota(start, idx))
    {
      bins' := PushOne(bins', keys, done, start, idx, m);
    }
  }

  /** One push of the inner loop: index idx goes to the end of the bin its key names. */
  method PushOne(bins: seq<seq<nat>>, keys: seq<nat>, done: seq<nat>, start: nat, idx: nat, m: nat)
    returns (bins': seq<seq<nat>>)
    requires start <= idx < |keys| && CountingSort.KeysBelow(keys, m) && |bins| == m
    requires bins == Push(Empties(m), keys, done + Iota(start, idx))
    ensures bins' == Push(Empties(m), keys, done + Iota(start, idx + 1))
  {
    var v := done + Iota(start, idx);
    var v' := done + Iota(start, idx + 1);
    assert v' == v + [idx] && v'[..|v'| - 1] == v;
    assert v'[|v'| - 1] == idx;
    bins' := bins[keys[idx] := bins[keys[idx]] + [idx]];
  }

  // ---- the index range of a cell ----

  /**
   * `cell_index_range(c)`: from the start of the cell's first bin to the
   * start of the next cell's first bin, or to the capacity when there is
   * no next cell.
   */
  function CellIndexRange(starts: seq<nat>, nTypes: nat, capacity: nat, c: nat): (nat, nat)
    requires c * nTypes < |starts|
  {
    var first := c * nTypes;
    (starts[first], if first + nTypes >= |starts| then capacity else starts[first + nTypes])
  }

  /** The length of the first k bins laid end to end. */
  function Upto(bins: seq<seq<nat>>, k: nat): nat
    requires k <= |bins|
  {
    |Flatten(bins[..k])|
  }

  lemma UptoStep(bins: seq<seq<nat>>, k: nat)
    requires k < |bins|
    ensures Upto(bins, k + 1) == Upto(bins, k) + |bins[k]|
    ensures Flatten(bins[..k + 1]) == Flatten(bins[..k]) + bins[k]
  {
    assert bins[..k + 1][..k] == bins[..k];
  }

  lemma {:induction false} UptoMono(bins: seq<seq<nat>>, a: nat, b: nat)
    requires a <= b <= |bins|
    ensures Upto(bins, a) <= Upto(bins, b)
  {
    if a < b {
      UptoMono(bins, a, b - 1);
      UptoStep(bins, b - 1);
    }
  }

  /** Slot j of the bins laid end to end belongs to bin k, at position j - Upto(k) within it. */
  lemma {:induction false} Locate(bins: seq<seq<nat>>, j: nat) returns (k: nat)
    requires j < |Flatten(bins)|
    ensures k < |bins| && Upto(bins, k) <= j < Upto(bins, k + 1) == Upto(bins, k) + |bins[k]|
    ensures Flatten(bins)[j] == bins[k][j - Upto(bins, k)]
    decreases |bins|
  {
    var l := |bins| - 1;
    var prefix := bins[..l];
    assert bins == prefix + [bins[l]];
    UptoStep(bins, l);
    assert bins[..l + 1] == bins;
    FlattenAppend(prefix, [bins[l]]);
    FlattenOne(bins[l]);
    if j < |Flatten(prefix)| {
      k := Locate(prefix, j);
      assert prefix[..k] == bins[..k] && prefix[..k + 1] == bins[..k + 1];
    } else {
      k := l;
    }
  }

  /**
   * After filling cleared bins from a visit, slot j of the bins laid end to
   * end lies in the joint range of bins lo .. hi - 1 exactly when the index
   * stored there has a key among lo .. hi - 1.
   */
  lemma BlockHoldsKeys(keys: seq<nat>, visit: seq<nat>, m: nat, lo: nat, hi: nat, j: nat)
    requires VisitOk(visit, keys, m) && lo <= hi <= m
    requires j < |Flatten(Push(Empties(m), keys, visit))|
    ensures Flatten(Push(Empties(m), keys, visit))[j] < |keys|
    ensures Upto(Push(Empties(m), keys, visit), lo) <= j < Upto(Push(Empties(m), keys, visit), hi)
      <==> lo <= keys[Flatten(Push(Empties(m), keys, visit))[j]] < hi
  {
    var bins := Push(Empties(m), keys, visit);
    var k := Locate(bins, j);
    PushSelects(keys, visit, m, k);
    var x := Flatten(bins)[j];
    assert x in bins[k];
    assert x in visit && keys[x] == k;
    if lo <= k < hi {
      UptoMono(bins, lo, k);
      UptoMono(bins, k + 1, hi);
    } else if k < lo {
      UptoMono(bins, k + 1, lo);
    } else {
      UptoMono(bins, hi, k);
    }
  }

  /**
   * With the offsets a reorder records and the capacity equal to the slot
   * count, the range of cell c is the joint range of its n bins.
   */
  lemma CellIndexRangeSpans(bins: seq<seq<nat>>, n: nat, c: nat)
    requires c * n + n <= |bins| && c * n < |bins|
    ensures CellIndexRange(Offsets(bins), n, |Flatten(bins)|, c) == (Upto(bins, c * n), Upto(bins, c * n + n))
  {
    var lo := c * n;
    OffsetsSpan(bins, lo, lo + n);
    assert CellIndexRange(Offsets(bins), n, |Flatten(bins)|, c)
      == (Offsets(bins)[lo], if lo + n >= |Offsets(bins)| then |Flatten(bins)| else Offsets(bins)[lo + n]);
  }

  /** The offsets of bins lo and hi, with the slot count past the last bin, are the lengths of the first lo and hi bins. */
  lemma OffsetsSpan(bins: seq<seq<nat>>, lo: nat, hi: nat)
    requires lo <= hi <= |bins| && lo < |bins|
    ensures Offsets(bins)[lo] == Upto(bins, lo)
    ensures (if hi >= |bins| then |Flatten(bins)| else Offsets(bins)[hi]) == Upto(bins, hi)
  {
    if hi == |bins| {
      assert bins[..hi] == bins;
    }
  }

  /**
   * After a rebuild, storage slot j lies in the index range of cell c
   * exactly when the particle stored there belongs to cell c, whatever its
   * type: bins are numbered cell by cell (bin = cell * n + type), and the
   * storage is the old storage gathered along the filled bins.
   */
  lemma RebuiltCellRange(key: Record -> nat, cell: Record -> nat, n: nat, m: nat, before: seq<Record>, c: nat, j: nat)
    requires forall i :: 0 <= i < |before| ==> before[i].ptype < n && key(before[i]) == cell(before[i]) * n + before[i].ptype
    requires CountingSort.KeysBelow(CountingSort.KeysOf(before, key), m)
    requires c * n + n <= m && c * n < m && j < |before|
    ensures CellOrderings.IsPermutation(Flatten(Push(Empties(m), CountingSort.KeysOf(before, key), Iota(0, |before|))), |before|)
    ensures var bins := Push(Empties(m), CountingSort.KeysOf(before, key), Iota(0, |before|));
      (CellIndexRange(Offsets(bins), n, |before|, c).0 <= j < CellIndexRange(Offsets(bins), n, |before|, c).1)
        <==> cell(Gather(before, Flatten(bins))[j]) == c
  {
    var keys := CountingSort.KeysOf(before, key);
    var bins := Push(Empties(m), keys, Iota(0, |before|));
    assert VisitOk(Iota(0, |before|), keys, m);
    AssignmentPermutes(keys, |before|, m);
    CellIndexRangeSpans(bins, n, c);
    BlockHoldsKeys(keys, Iota(0, |before|), m, c * n, c * n + n, j);
    var x := Flatten(bins)[j];
    LinkedCells.BinInCell(n, c, cell(before[x]), before[x].ptype);
  }

  // ---- the interaction kernel ----

  /** What the kernel hands on: one symmetric range, or an ordered pair of ranges. */
  datatype Add = AddSym(r: Indices) | AddAsym(r1: Indices, r2: Indices)

  /** One range per bin, as `get_range(c, t)` returns for bin (c, t). */
  predicate RangesFit(g: CellGrid, ranges: seq<Indices>) {
    |ranges| == NumBins(g)
  }

  function GetRange(g: CellGrid, ranges: seq<Indices>, c: nat, t: nat): Indices
    requires RangesFit(g, ranges) && c < NumCells(g) && t < g.nTypes
  {
    BinIndexBound(g, c, t);
    ranges[BinIndex(g, c, t)]
  }

  /** The arguments the kernel takes: a grid cell and two types. */
  predicate KernelArgs(g: CellGrid, ranges: seq<Indices>, x: nat, y: nat, z: nat, t1: nat, t2: nat) {
    Valid(g) && RangesFit(g, ranges) && InGrid(g.axes, x, y, z) && t1 < g.nTypes && t2 < g.nTypes
  }

  /** The intra-cell part: type t1 with itself when it has at least two particles, or t1 with t2 when both are present. */
  function IntraCell(g: CellGrid, ranges: seq<Indices>, x: nat, y: nat, z: nat, t1: nat, t2: nat): seq<Add>
    requires KernelArgs(g, ranges, x, y, z, t1, t2)
  {
    var c := CellPosToIdx(g, x, y, z);
    var r1 := GetRange(g, ranges, c, t1);
    if t1 == t2 then
      (if Size(r1) > 1 then [AddSym(r1)] else [])
    else
      var r2 := GetRange(g, ranges, c, t2);
      if !Empty(r1) && !Empty(r2) then [AddAsym(r1, r2)] else []
  }

  /**
   * One stencil offset: nothing when the neighbour leaves the grid;
   * otherwise Cell(t1) with Neighbour(t2), and for two different types
   * also Neighbour(t1) with Cell(t2), each when both ranges are present.
   */
  function OffsetAdds(g: CellGrid, ranges: seq<Indices>, x: nat, y: nat, z: nat, t1: nat, t2: nat, o: Offset): seq<Add>
    requires KernelArgs(g, ranges, x, y, z, t1, t2)
  {
    var cn := NeighborIdx(g, x, y, z, o);
    if cn == OutsideCell(g) then []
    else
      var c := CellPosToIdx(g, x, y, z);
      var r1, rn2 := GetRange(g, ranges, c, t1), GetRange(g, ranges, cn, t2);
      var forward := if !Empty(r1) && !Empty(rn2) then [AddAsym(r1, rn2)] else [];
      if t1 == t2 then forward
      else
        var r2, rn1 := GetRange(g, ranges, c, t2), GetRange(g, ranges, cn, t1);
        forward + (if !Empty(r2) && !Empty(rn1) then [AddAsym(rn1, r2)] else [])
  }

  /** The adds of every stencil offset, one block per offset. */
  function OffsetParts(g: CellGrid, ranges: seq<Indices>, stencil: seq<Offset>, x: nat, y: nat, z: nat, t1: nat, t2: nat): (parts: seq<seq<Add>>)
    requires KernelArgs(g, ranges, x, y, z, t1, t2)
    ensures |parts| == |stencil|
    ensures forall j :: 0 <= j < |stencil| ==> parts[j] == OffsetAdds(g, ranges, x, y, z, t1, t2, stencil[j])
  {
    seq(|stencil|, j requires 0 <= j < |stencil| => OffsetAdds(g, ranges, x, y, z, t1, t2, stencil[j]))
  }

  /** The first k blocks, concatenated in order. */
  function Sweep<T>(parts: seq<seq<T>>, k: nat): seq<T>
    requires k <= |parts|
  {
    if k == 0 then [] else Sweep(parts, k - 1) + parts[k - 1]
  }

  /** The adds of the first k stencil offsets, in stencil order. */
  function NeighborAdds(g: CellGrid, ranges: seq<Indices>, stencil: seq<Offset>, x: nat, y: nat, z: nat, t1: nat, t2: nat, k: nat): seq<Add>
    requires KernelArgs(g, ranges, x, y, z, t1, t2) && k <= |stencil|
  {
    Sweep(OffsetParts(g, ranges, stencil, x, y, z, t1, t2), k)
  }

  /** Everything the kernel adds for one cell and one type pair, in call order. */
  function CellAdds(g: CellGrid, ranges: seq<Indices>, stencil: seq<Offset>, x: nat, y: nat, z: nat, t1: nat, t2: nat): seq<Add>
    requires KernelArgs(g, ranges, x, y, z, t1, t2)
  {
    var r1 := GetRange(g, ranges, CellPosToIdx(g, x, y, z), t1);
    IntraCell(g, ranges, x, y, z, t1, t2)
      + (if Empty(r1) && t1 == t2 then [] else NeighborAdds(g, ranges, stencil, x, y, z, t1, t2, |stencil|))
  }

  /**
   * `process_cell_interactions`: the intra-cell add, the early return for
   * an empty cell of one type, then the stencil sweep.
   */
  method ProcessCellInteractions(g: CellGrid, ranges: seq<Indices>, stencil: seq<Offset>, x: nat, y: nat, z: nat, t1: nat, t2: nat)
    returns (adds: seq<Add>)
    requires KernelArgs(g, ranges, x, y, z, t1, t2)
    ensures adds == CellAdds(g, ranges, stencil, x, y, z, t1, t2)
  {
    var range1 := GetRange(g, ranges, CellPosToIdx(g, x, y, z), t1);
    adds := IntraStep(g, ranges, x, y, z, t1, t2);
    if Empty(range1) && t1 == t2 {
      return;
    }
    var swept := SweepStencil(g, ranges, stencil, x, y, z, t1, t2);
    adds := adds + swept;
  }

  /** The loop over the stencil offsets. */
  method SweepStencil(g: CellGrid, ranges: seq<Indices>, stencil: seq<Offset>, x: nat, y: nat, z: nat, t1: nat, t2: nat)
    returns (adds: seq<Add>)
    requires KernelArgs(g, ranges, x, y, z, t1, t2)
    ensures adds == NeighborAdds(g, ranges, stencil, x, y, z, t1, t2, |stencil|)
  {
    ghost var parts := OffsetParts(g, ranges, stencil, x, y, z, t1, t2);
    adds := [];
    for k := 0 to |stencil|
      invariant adds == Sweep(parts, k)
    {
      var more := OffsetStep(g, ranges, x, y, z, t1, t2, stencil[k]);
      adds := adds + more;
    }
  }


  /** The body of the stencil sweep for one offset. */
  method OffsetStep(g: CellGrid, ranges: seq<Indices>, x: nat, y: nat, z: nat, t1: nat, t2: nat, o: Offset)
    returns (adds: seq<Add>)
    requires KernelArgs(g, ranges, x, y, z, t1, t2)
    ensures adds == OffsetAdds(g, ranges, x, y, z, t1, t2, o)
  {
    adds := [];
    var cn := NeighborIdx(g, x, y, z, o);
    if cn == OutsideCell(g) {
      return;
    }
    var c := CellPosToIdx(g, x, y, z);
    var range1 := GetRange(g, ranges, c, t1);
    var rangeN2 := GetRange(g, ranges, cn, t2);
    if !Empty(range1) && !Empty(rangeN2) {
      adds := adds + [AddAsym(range1, rangeN2)];
    }
    if t1 != t2 {
      var range2 := GetRange(g, ranges, c, t2);
      var rangeN1 := GetRange(g, ranges, cn, t1);
      if !Empty(range2) && !Empty(rangeN1) {
        adds := adds + [AddAsym(rangeN1, range2)];
      }
    }
  }

  /** The intra-cell part of the kernel. */
  method IntraStep(g: CellGrid, ranges: seq<Indices>, x: nat, y: nat, z: nat, t1: nat, t2: nat)
    returns (adds: seq<Add>)
    requires KernelArgs(g, ranges, x, y, z, t1, t2)
    ensures adds == IntraCell(g, ranges, x, y, z, t1, t2)
  {
    var c := CellPosToIdx(g, x, y, z);
    var range1 := GetRange(g, ranges, c, t1);
    adds := [];
    if t1 == t2 {
      if Size(range1) > 1 {
        adds := [AddSym(range1)];
      }
    } else {
      var range2 := GetRange(g, ranges, c, t2);
      if !Empty(range1) && !Empty(range2) {
        adds := [AddAsym(range1, range2)];
      }
    }
  }

  /** A sweep holds exactly the elements of its first k blocks. */
  lemma {:induction false} SweepHas<T>(parts: seq<seq<T>>, k: nat, a: T)
    requires k <= |parts|
    ensures a in Sweep(parts, k) <==> exists j :: 0 <= j < k && a in parts[j]
  {
    if k > 0 {
      SweepHas(parts, k - 1, a);
    }
  }

  lemma OffsetAddsAsym(g: CellGrid, ranges: seq<Indices>, x: nat, y: nat, z: nat, t1: nat, t2: nat, o: Offset)
    requires KernelArgs(g, ranges, x, y, z, t1, t2)
    ensures forall a :: a in OffsetAdds(g, ranges, x, y, z, t1, t2, o) ==> a.AddAsym? && !Empty(a.r1) && !Empty(a.r2)
  {
  }

  /** Every add of the stencil sweep pairs two non-empty ranges. */
  lemma NeighborAddsAsym(g: CellGrid, ranges: seq<Indices>, stencil: seq<Offset>, x: nat, y: nat, z: nat, t1: nat, t2: nat)
    requires KernelArgs(g, ranges, x, y, z, t1, t2)
    ensures forall a :: a in NeighborAdds(g, ranges, stencil, x, y, z, t1, t2, |stencil|) ==> a.AddAsym? && !Empty(a.r1) && !Empty(a.r2)
  {
    var parts := OffsetParts(g, ranges, stencil, x, y, z, t1, t2);
    forall a: Add | a in Sweep(parts, |stencil|)
      ensures a.AddAsym? && !Empty(a.r1) && !Empty(a.r2)
    {
      SweepHas(parts, |stencil|, a);
      var j :| 0 <= j < |stencil| && a in parts[j];
      OffsetAddsAsym(g, ranges, x, y, z, t1, t2, stencil[j]);
    }
  }

  /**
   * The kernel never hands on an empty range; a symmetric range only for
   * one type with at least two particles in the cell, and then first; and
   * nothing at all for one type whose cell range is empty.
   */
  lemma KernelAddsPresent(g: CellGrid, ranges: seq<Indices>, stencil: seq<Offset>, x: nat, y: nat, z: nat, t1: nat, t2: nat)
    requires KernelArgs(g, ranges, x, y, z, t1, t2)
    ensures forall a :: a in CellAdds(g, ranges, stencil, x, y, z, t1, t2) ==>
      (a.AddSym? ==> t1 == t2 && a.r == GetRange(g, ranges, CellPosToIdx(g, x, y, z), t1) && Size(a.r) > 1)
      && (a.AddAsym? ==> !Empty(a.r1) && !Empty(a.r2))
    ensures t1 == t2 && Size(GetRange(g, ranges, CellPosToIdx(g, x, y, z), t1)) > 1 ==>
      CellAdds(g, ranges, stencil, x, y, z, t1, t2)[0] == AddSym(GetRange(g, ranges, CellPosToIdx(g, x, y, z), t1))
    ensures t1 == t2 && Empty(GetRange(g, ranges, CellPosToIdx(g, x, y, z), t1)) ==> CellAdds(g, ranges, stencil, x, y, z, t1, t2) == []
  {
    NeighborAddsAsym(g, ranges, stencil, x, y, z, t1, t2);
  }

  /**
   * For every stencil offset whose neighbour lies in the grid, the kernel
   * adds Cell(t1) with Neighbour(t2), and for two different types also
   * Neighbour(t1) with Cell(t2), whenever both ranges are present: the half
   * stencil still covers both orders of a mixed pair.
   */
  lemma KernelCoversNeighbors(g: CellGrid, ranges: seq<Indices>, stencil: seq<Offset>, x: nat, y: nat, z: nat, t1: nat, t2: nat, j: nat)
    requires KernelArgs(g, ranges, x, y, z, t1, t2) && j < |stencil|
    requires InAxes(g, x + stencil[j].x, y + stencil[j].y, z + stencil[j].z)
    ensures var c, cn := CellPosToIdx(g, x, y, z), NeighborIdx(g, x, y, z, stencil[j]);
      cn < NumCells(g)
      && (!Empty(GetRange(g, ranges, c, t1)) && !Empty(GetRange(g, ranges, cn, t2)) ==>
        AddAsym(GetRange(g, ranges, c, t1), GetRange(g, ranges, cn, t2)) in CellAdds(g, ranges, stencil, x, y, z, t1, t2))
      && (t1 != t2 && !Empty(GetRange(g, ranges, c, t2)) && !Empty(GetRange(g, ranges, cn, t1)) ==>
        AddAsym(GetRange(g, ranges, cn, t1), GetRange(g, ranges, c, t2)) in CellAdds(g, ranges, stencil, x, y, z, t1, t2))
  {
    var c, cn := CellPosToIdx(g, x, y, z), NeighborIdx(g, x, y, z, stencil[j]);
    var r1, rn2 := GetRange(g, ranges, c, t1), GetRange(g, ranges, cn, t2);
    var parts := OffsetParts(g, ranges, stencil, x, y, z, t1, t2);
    if !Empty(r1) && !Empty(rn2) {
      assert AddAsym(r1, rn2) in parts[j];
      SweepHas(parts, |stencil|, AddAsym(r1, rn2));
    }
    if t1 != t2 && !Empty(GetRange(g, ranges, c, t2)) && !Empty(GetRange(g, ranges, cn, t1)) {
      var back := AddAsym(GetRange(g, ranges, cn, t1), GetRange(g, ranges, c, t2));
      assert back in parts[j];
      SweepHas(parts, |stencil|, back);
    }
  }

  // ---- type pairs ----

  /** The order `for_each_type_pair` visits pairs in: by first type, then by second. */
  predicate PairBefore(p: (nat, nat), q: (nat, nat)) {
    p.0 < q.0 || (p.0 == q.0 && p.1 < q.1)
  }

  /**
   * `for_each_type_pair`: every pair t1 <= t2 of the n types, each once, in
   * increasing order of t1 and then of t2.
   */
  method TypePairs(n: nat) returns (pairs: seq<(nat, nat)>)
    ensures forall p :: p in pairs <==> p.0 <= p.1 < n
    ensures forall i, j :: 0 <= i < j < |pairs| ==> PairBefore(pairs[i], pairs[j])
  {
    pairs := [];
    for t1 := 0 to n
      invariant forall p :: p in pairs <==> p.0 <= p.1 < n && p.0 < t1
      invariant forall i, j :: 0 <= i < j < |pairs| ==> PairBefore(pairs[i], pairs[j])
    {
      for t2 := t1 to n
        invariant forall p :: p in pairs <==> p.0 <= p.1 < n && (p.0 < t1 || (p.0 == t1 && p.1 < t2))
        invariant forall i, j :: 0 <= i < j < |pairs| ==> PairBefore(pairs[i], pairs[j])
      {
        pairs := pairs + [(t1, t2)];
      }
    }
  }

  // ---- the grid setup ----

  /** `CellSize`: the cell width as a multiple of the cutoff, or configured outright. */
  datatype CellSize = Cutoff | Half | Third | ManualAbs | ManualFac

  /** The part of `LinkedCellsConfig` the core reads. */
  datatype Config = Config(strategy: CellSize, manualCellSize: Option<real>, orderingFn: Option<Dims -> seq<nat>>)

  /**
   * `get_width`: the cell width for the cutoff rc. The preset strategies
   * give rc, rc / 2 or rc / 3, so a positive cutoff gives a width between
   * rc / 3 and rc; the manual ones read the configured value, and without
   * one `value()` throws (None here).
   */
  function GetWidth(config: Config, rc: real): (w: Option<real>)
    ensures w.None? <==> (config.strategy == ManualAbs || config.strategy == ManualFac) && config.manualCellSize.None?
    ensures rc > 0.0 && (config.strategy == Cutoff || config.strategy == Half || config.strategy == Third) ==>
      w.Some? && rc / 3.0 <= w.value <= rc && w.value > 0.0
    ensures config.strategy == ManualAbs && w.Some? ==> Some(w.value) == config.manualCellSize
    ensures config.strategy == ManualFac && w.Some? && rc > 0.0 && config.manualCellSize.value > 0.0 ==> w.value > 0.0
  {
    match config.strategy
    case Cutoff => Some(rc)
    case Half => Some(rc / 2.0)
    case Third => Some(rc / 3.0)
    case ManualAbs => config.manualCellSize
    case ManualFac => if config.manualCellSize.Some? then Some(config.manualCellSize.value * rc) else None
  }

  /**
   * The cutoff `setup_cell_grid` settles on: the largest active cutoff,
   * replaced by half the smallest extent when there is none or it does not
   * fit the domain.
   */
  function CoreCutoff(xs: seq<LinkedCells.SchemaInteraction>, extent: Vec3): (rc: real)
    requires LinkedCells.PositiveExtent(extent)
    ensures 0.0 < rc <= LinkedCells.MinOf(extent)
  {
    LinkedCells.TargetCellSize(None, LinkedCells.MaxActiveCutoff(xs), LinkedCells.MinOf(extent))
  }

  /** The axes for a target width: the floored ratio per axis, at least 1. */
  function CoreAxes(w: real, extent: Vec3): (d: Dims)
    requires w > 0.0
    ensures d.x >= 1 && d.y >= 1 && d.z >= 1
  {
    Dims(LinkedCells.AxisCount(extent.0, w), LinkedCells.AxisCount(extent.1, w), LinkedCells.AxisCount(extent.2, w))
  }

  /** The cell widths: each extent stretched evenly over its cells. */
  function CoreCellSize(w: real, extent: Vec3): Vec3
    requires w > 0.0
  {
    var d := CoreAxes(w, extent);
    (LinkedCells.CellWidth(extent.0, d.x), LinkedCells.CellWidth(extent.1, d.y), LinkedCells.CellWidth(extent.2, d.z))
  }

  /** The grid of `setup_cell_grid` for the target width, before any cell ordering. */
  function CoreGrid(w: real, nTypes: nat, origin: Vec3, extent: Vec3): (g: CellGrid)
    requires w > 0.0 && LinkedCells.PositiveExtent(extent)
    ensures Count(CoreAxes(w, extent)) < U32_LIMIT ==> Valid(g)
    ensures g.axes == CoreAxes(w, extent) && g.nTypes == nTypes && g.ordering == [] && g.origin == origin
  {
    var cs := CoreCellSize(w, extent);
    assert cs.0 > 0.0 && cs.1 > 0.0 && cs.2 > 0.0;
    CellGrid(CoreAxes(w, extent), nTypes, [], origin, (LinkedCells.Inverse(cs.0), LinkedCells.Inverse(cs.1), LinkedCells.Inverse(cs.2)))
  }

  /**
   * The cells are at least the target width wide on every axis at least
   * that long, never wider than their axis, and a single cell spans an
   * axis shorter than the target.
   */
  lemma CoreCellsCoverWidth(w: real, extent: Vec3)
    requires w > 0.0 && LinkedCells.PositiveExtent(extent)
    ensures var cs := CoreCellSize(w, extent);
      && (extent.0 >= w ==> w <= cs.0 <= extent.0) && (extent.0 < w ==> CoreAxes(w, extent).x == 1 && cs.0 == extent.0)
      && (extent.1 >= w ==> w <= cs.1 <= extent.1) && (extent.1 < w ==> CoreAxes(w, extent).y == 1 && cs.1 == extent.1)
      && (extent.2 >= w ==> w <= cs.2 <= extent.2) && (extent.2 < w ==> CoreAxes(w, extent).z == 1 && cs.2 == extent.2)
  {
    LinkedCells.CellWidthCoversTarget(extent.0, w);
    LinkedCells.CellWidthCoversTarget(extent.1, w);
    LinkedCells.CellWidthCoversTarget(extent.2, w);
  }

  /** The stencil reach along one axis: the cutoff in cell widths, rounded up. */
  function Reach(v: real): (n: nat)
    requires v >= 0.0
    ensures n as real >= v && (n as real) - 1.0 < v
  {
    var c := Ceil(v);
    assert c as real >= v && (c as real) - 1.0 < v;
    c
  }

  /** The stencil parameters `create_neighbor_stencil` derives from the grid and the cutoff. */
  function StencilFor(g: CellGrid, cellSize: Vec3, rc: real): Stencils.StencilParams
    requires Valid(g) && rc >= 0.0
  {
    Stencils.StencilParams(Reach(rc * g.invCellSize.0), Reach(rc * g.invCellSize.1), Reach(rc * g.invCellSize.2), cellSize, rc)
  }

  /** The grid after `init_cell_order`: the configured ordering of its axes, if any. */
  function OrderedGrid(config: Config, g: CellGrid): (g': CellGrid)
    ensures g'.axes == g.axes && g'.nTypes == g.nTypes && g'.origin == g.origin && g'.invCellSize == g.invCellSize
    ensures config.orderingFn.None? ==> g' == g
    ensures config.orderingFn.Some? ==> g'.ordering == config.orderingFn.value(g.axes)
  {
    if config.orderingFn.Some? then g.(ordering := config.orderingFn.value(g.axes)) else g
  }

  // ---- the rebuild, stated on the grid ----

  /**
   * After a rebuild from one bin per layout range, every particle index
   * lies in exactly one assignment bin, and the cell index range of cell c
   * holds exactly the particles whose position falls in cell c.
   */
  lemma RebuildGroupsCells(g: CellGrid, before: seq<Record>, c: nat, j: nat)
    requires Valid(g) && g.nTypes >= 1 && LinkedCells.TypesBelow(before, g.nTypes)
    requires c < NumCells(g) && j < |before|
    ensures c * g.nTypes + g.nTypes <= NumBins(g)
    ensures var bins := Push(Empties(NumBins(g)), CountingSort.KeysOf(before, LinkedCells.BinKey(g)), Iota(0, |before|));
      && CellOrderings.IsPermutation(Flatten(bins), |before|)
      && ((CellIndexRange(Offsets(bins), g.nTypes, |before|, c).0 <= j < CellIndexRange(Offsets(bins), g.nTypes, |before|, c).1)
        <==> CellIndexFromPosition(g, Gather(before, Flatten(bins))[j].position) == c)
  {
    var n := g.nTypes;
    var key, cell := LinkedCells.BinKey(g), LinkedCells.CellKey(g);
    forall i | 0 <= i < |before|
      ensures before[i].ptype < n && key(before[i]) == cell(before[i]) * n + before[i].ptype
    {
      MulIsProduct(cell(before[i]), n);
    }
    LinkedCells.GridKeys(g, before);
    DigitBelow(c, n - 1, NumCells(g), n);
    MulIsProduct(NumCells(g), n);
    RebuiltCellRange(key, cell, n, NumBins(g), before, c, j);
  }

  // ---- the container ----

  /**
   * `LinkedCellsCore` over the struct-of-arrays layout: the layout's
   * storage and bins, the grid, the stencil, the wrapped pairs and the
   * assignment bins.
   */
  class Core {
    const layout: LayoutSoA.SoALayout
    const config: Config
    const interactions: seq<LinkedCells.SchemaInteraction>
    const nTypes: nat
    const origin: Vec3
    const extent: Vec3
    const periodic: Stencils.Periodic

    var grid: CellGrid
    var cellSize: Vec3
    var globalCutoff: real
    var stencil: seq<Offset>
    var wrappedPairs: seq<Stencils.WrappedPair>
    var binAssignments: seq<seq<nat>>

    constructor(config: Config, interactions: seq<LinkedCells.SchemaInteraction>, nTypes: nat, origin: Vec3, extent: Vec3, periodic: Stencils.Periodic)
      ensures fresh(layout) && fresh(layout.data) && fresh(layout.tmp) && layout.Valid()
      ensures layout.data.Records() == [] && layout.tmp.Records() == []
      ensures this.config == config && this.interactions == interactions && this.nTypes == nTypes
      ensures this.origin == origin && this.extent == extent && this.periodic == periodic
      ensures stencil == [] && wrappedPairs == [] && binAssignments == []
    {
      layout := new LayoutSoA.SoALayout();
      this.config, this.interactions, this.nTypes := config, interactions, nTypes;
      this.origin, this.extent, this.periodic := origin, extent, periodic;
      grid := CellGrid(Dims(1, 1, 1), 0, [], (0.0, 0.0, 0.0), (0.0, 0.0, 0.0));
      cellSize, globalCutoff := (0.0, 0.0, 0.0), 0.0;
      stencil, wrappedPairs, binAssignments := [], [], [];
    }

    /** The width `get_width` returns for the settled cutoff. */
    function Width(): Option<real>
      requires LinkedCells.PositiveExtent(extent)
    {
      GetWidth(config, CoreCutoff(interactions, extent))
    }

    /**
     * What the setup demands: a domain of positive extent, a cell width
     * (`get_width` throws without one), a positive width (`AP_ASSERT`), a
     * cell count below 2^32 (the source casts the axis counts to `uint32_t`
     * and multiplies them without a check, so a larger grid would wrap), and
     * a configured ordering that is a permutation of the grid's cells.
     */
    predicate ConfigOk() {
      && LinkedCells.PositiveExtent(extent)
      && Width().Some? && Width().value > 0.0
      && Count(CoreAxes(Width().value, extent)) < U32_LIMIT
      && (config.orderingFn.Some? ==>
        CellOrderings.IsPermutation(config.orderingFn.value(CoreAxes(Width().value, extent)), Count(CoreAxes(Width().value, extent))))
    }

    /** The grid `setup_cell_grid` plans. */
    function PlannedGrid(): CellGrid
      requires ConfigOk()
    {
      CoreGrid(Width().value, nTypes, origin, extent)
    }

    /**
     * `setup_cell_grid`: settles the cutoff, plans the grid for its width
     * and sizes the bin starts and the assignment bins to one entry per bin.
     */
    method SetupCellGrid()
      requires ConfigOk() && layout.Valid()
      modifies this, layout
      ensures globalCutoff == CoreCutoff(interactions, extent) && grid == PlannedGrid() && Valid(grid)
      ensures cellSize == CoreCellSize(Width().value, extent)
      ensures layout.binStarts == Fit(old(layout.binStarts), NumBins(grid), 0)
      ensures binAssignments == Fit(old(binAssignments), NumBins(grid), [])
      ensures layout.data == old(layout.data) && layout.tmp == old(layout.tmp) && layout.Valid()
      ensures layout.binSizes == old(layout.binSizes) && layout.idMap == old(layout.idMap)
      ensures stencil == old(stencil) && wrappedPairs == old(wrappedPairs)
    {
      var maxCutoff := LinkedCells.ScanMaxCutoff(interactions);
      var minExtent := LinkedCells.MinOf(extent);
      var cutoff := if maxCutoff <= 0.0 || maxCutoff > minExtent then minExtent / 2.0 else maxCutoff;
      var width := GetWidth(config, cutoff).value;
      grid := CoreGrid(width, nTypes, origin, extent);
      cellSize := CoreCellSize(width, extent);
      globalCutoff := cutoff;
      layout.binStarts := Fit(layout.binStarts, NumBins(grid), 0);
      binAssignments := Fit(binAssignments, NumBins(grid), []);
    }

    /** `init_cell_order`: installs the configured ordering of the grid's axes, if any. */
    method InitCellOrder()
      requires Valid(grid)
      requires config.orderingFn.Some? ==> CellOrderings.IsPermutation(config.orderingFn.value(grid.axes), Count(grid.axes))
      modifies this
      ensures grid == OrderedGrid(config, old(grid)) && Valid(grid)
      ensures cellSize == old(cellSize) && globalCutoff == old(globalCutoff)
      ensures stencil == old(stencil) && wrappedPairs == old(wrappedPairs) && binAssignments == old(binAssignments)
    {
      if config.orderingFn.Some? {
        grid := grid.(ordering := config.orderingFn.value(grid.axes));
      }
    }

    /** `create_neighbor_stencil`: appends the forward offsets within the cutoff. */
    method CreateNeighborStencil()
      requires Valid(grid) && globalCutoff >= 0.0
      modifies this
      ensures grid == old(grid) && cellSize == old(cellSize) && globalCutoff == old(globalCutoff)
      ensures stencil == old(stencil) + Stencils.Stencil(StencilFor(grid, cellSize, globalCutoff))
      ensures wrappedPairs == old(wrappedPairs) && binAssignments == old(binAssignments)
    {
      var offsets := Stencils.CreateNeighborStencil(StencilFor(grid, cellSize, globalCutoff));
      stencil := stencil + offsets;
    }

    /** `compute_wrapped_cell_pairs`: appends the pairs that cross a periodic face. */
    method ComputeWrappedCellPairs()
      requires Valid(grid)
      modifies this
      ensures grid == old(grid) && cellSize == old(cellSize) && globalCutoff == old(globalCutoff)
      ensures stencil == old(stencil) && binAssignments == old(binAssignments)
      ensures wrappedPairs == old(wrappedPairs) + Stencils.GridWrapped(grid, periodic, stencil)
    {
      var pairs := Stencils.ComputeWrappedCellPairs(grid, periodic, stencil);
      wrappedPairs := wrappedPairs + pairs;
    }

    /** `pre_allocate_assignment_bins`: one assignment bin per bin; the reservation is not modelled. */
    method PreAllocateAssignmentBins()
      modifies this
      ensures binAssignments == Fit(old(binAssignments), NumBins(grid), [])
      ensures grid == old(grid) && cellSize == old(cellSize) && globalCutoff == old(globalCutoff)
      ensures stencil == old(stencil) && wrappedPairs == old(wrappedPairs)
    {
      binAssignments := Fit(binAssignments, NumBins(grid), []);
    }

    /**
     * `rebuild_structure`: clears the assignment bins, walks the layout's
     * ranges in order pushing every index onto the bin of its cell and
     * type, and hands the bins to `reorder_storage`. The new layout ranges
     * tile the storage again, so the next rebuild may follow.
     */
    method RebuildStructure()
      requires layout.Valid() && Valid(grid) && |binAssignments| == NumBins(grid)
      requires Tiled(layout.binStarts, layout.binSizes, layout.data.Size()) && layout.data.Size() <= layout.tmp.Size()
      requires LinkedCells.TypesBelow(layout.data.Records(), grid.nTypes)
      modifies this, layout, layout.tmp
      ensures layout.Valid() && layout.data == old(layout.tmp) && layout.tmp == old(layout.data)
      ensures binAssignments == Push(Empties(NumBins(grid)), CountingSort.KeysOf(old(layout.data.Records()), LinkedCells.BinKey(grid)), Iota(0, old(layout.data.Size())))
      ensures CellOrderings.IsPermutation(Flatten(binAssignments), old(layout.data.Size()))
      ensures layout.data.Records() == Gather(old(layout.data.Records()), Flatten(binAssignments)) + old(layout.tmp.Records())[old(layout.data.Size())..]
      ensures layout.tmp.Records() == old(layout.data.Records())
      ensures layout.binStarts == Offsets(binAssignments) && layout.binSizes == Sizes(binAssignments)
      ensures Tiled(layout.binStarts, layout.binSizes, old(layout.data.Size()))
      ensures PointsBack(layout.data.Records(), layout.idMap)
      ensures DistinctIds(layout.data.Records()) ==> MapsIds(layout.data.Records(), layout.idMap)
      ensures grid == old(grid) && cellSize == old(cellSize) && globalCutoff == old(globalCutoff)
      ensures stencil == old(stencil) && wrappedPairs == old(wrappedPairs)
    {
      var before := layout.data.Records();
      var n := |before|;
      var keys := CountingSort.KeysOf(before, LinkedCells.BinKey(grid));
      LinkedCells.GridKeys(grid, before);
      assert Visit(layout.binStarts, layout.binSizes, |layout.binStarts|) == Iota(0, n);
      var bins := AssignBins(keys, layout.binStarts, layout.binSizes, |binAssignments|);
      binAssignments := bins;
      AssignmentPermutes(keys, n, NumBins(grid));
      layout.ReorderStorage(bins);
      ReorderedTiled(bins);
    }

    /** The first four steps of `build`: the grid, the cell order, the stencil and the wrapped pairs. */
    method PlanCells()
      requires ConfigOk() && layout.Valid()
      modifies this, layout
      ensures grid == OrderedGrid(config, PlannedGrid()) && Valid(grid)
      ensures globalCutoff == CoreCutoff(interactions, extent) && cellSize == CoreCellSize(Width().value, extent)
      ensures stencil == old(stencil) + Stencils.Stencil(StencilFor(grid, cellSize, globalCutoff))
      ensures wrappedPairs == old(wrappedPairs) + Stencils.GridWrapped(grid, periodic, stencil)
      ensures |binAssignments| == NumBins(grid)
      ensures layout.data == old(layout.data) && layout.tmp == old(layout.tmp) && layout.Valid()
    {
      SetupCellGrid();
      InitCellOrder();
      CreateNeighborStencil();
      ComputeWrappedCellPairs();
    }

    /** The steps of `build` once `get_width` has a width, in the source's order. */
    method BuildSteps(input: seq<Record>)
      requires ConfigOk() && layout.Valid() && nTypes >= 1
      requires IdsBelow(input, |input|) && LinkedCells.TypesBelow(input, nTypes)
      modifies this, layout, layout.data, layout.tmp
      ensures grid == OrderedGrid(config, PlannedGrid()) && Valid(grid)
      ensures globalCutoff == CoreCutoff(interactions, extent)
      ensures stencil == old(stencil) + Stencils.Stencil(StencilFor(grid, cellSize, globalCutoff))
      ensures wrappedPairs == old(wrappedPairs) + Stencils.GridWrapped(grid, periodic, stencil)
      ensures binAssignments == Push(Empties(NumBins(grid)), CountingSort.KeysOf(input, LinkedCells.BinKey(grid)), Iota(0, |input|))
      ensures CellOrderings.IsPermutation(Flatten(binAssignments), |input|)
      ensures layout.Valid() && layout.data.Records() == Gather(input, Flatten(binAssignments))
      ensures layout.binStarts == Offsets(binAssignments) && Tiled(layout.binStarts, layout.binSizes, |input|)
      ensures DistinctIds(input) ==> MapsIds(layout.data.Records(), layout.idMap)
    {
      PlanCells();
      layout.BuildStorage(input);
      PreAllocateAssignmentBins();
      OneRangeTiled(|input|);
      RebuildStructure();
      assert layout.tmp.Records() == input;
      if DistinctIds(input) {
        GatherDistinct(input, Flatten(binAssignments));
      }
    }

    /**
     * `build`: sets up the grid, installs the cell order, builds the stencil
     * and the wrapped pairs, stores the particles as one range, sizes the
     * assignment bins and rebuilds. A manual cell-size strategy without a
     * size throws from `get_width` before anything is changed.
     */
    method Build(input: seq<Record>) returns (r: Result<(), LinkedCells.LinkedCellsError>)
      requires LinkedCells.PositiveExtent(extent) && (Width().Some? ==> ConfigOk())
      requires layout.Valid() && nTypes >= 1
      requires IdsBelow(input, |input|) && LinkedCells.TypesBelow(input, nTypes)
      modifies this, layout, layout.data, layout.tmp
      ensures r.Err? <==> Width().None?
      ensures r.Err? ==> r.error == LinkedCells.MissingCellSize && unchanged(this, layout) && unchanged(old(layout.data), old(layout.tmp))
      ensures r.Ok? ==> grid == OrderedGrid(config, PlannedGrid()) && Valid(grid)
      ensures r.Ok? ==> globalCutoff == CoreCutoff(interactions, extent)
      ensures r.Ok? ==> stencil == old(stencil) + Stencils.Stencil(StencilFor(grid, cellSize, globalCutoff))
      ensures r.Ok? ==> wrappedPairs == old(wrappedPairs) + Stencils.GridWrapped(grid, periodic, stencil)
      ensures r.Ok? ==>
        binAssignments == Push(Empties(NumBins(grid)), CountingSort.KeysOf(input, LinkedCells.BinKey(grid)), Iota(0, |input|))
      ensures r.Ok? ==> CellOrderings.IsPermutation(Flatten(binAssignments), |input|)
      ensures r.Ok? ==> layout.Valid() && layout.data.Records() == Gather(input, Flatten(binAssignments))
      ensures r.Ok? ==> layout.binStarts == Offsets(binAssignments) && Tiled(layout.binStarts, layout.binSizes, |input|)
      ensures r.Ok? ==> DistinctIds(input) ==> MapsIds(layout.data.Records(), layout.idMap)
    {
      if Width().None? {
        return Err(LinkedCells.MissingCellSize);
      }
      BuildSteps(input);
      return Ok(());
    }
  }
}
