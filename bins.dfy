/**
 * Lists of particle indices grouped into bins, as the containers hand them
 * to `reorder_storage`: the bins laid end to end give the new storage order,
 * and each bin occupies one contiguous range of it.
 */
module Bins {
  import opened ParticleRecords
  import CellOrderings
  import CountingSort

  /** The bins laid end to end, in bin order and in list order within a bin. */
  function Flatten(bins: seq<seq<nat>>): (f: seq<nat>)
    ensures |bins| == 0 ==> f == []
  {
    if |bins| == 0 then [] else Flatten(bins[..|bins| - 1]) + bins[|bins| - 1]
  }

  /** The first position of each bin in the flattened order: the sum of the sizes of the bins before it. */
  function Offsets(bins: seq<seq<nat>>): (starts: seq<nat>)
    ensures |starts| == |bins|
  {
    seq(|bins|, k requires 0 <= k < |bins| => |Flatten(bins[..k])|)
  }

  /** The size of each bin. */
  function Sizes(bins: seq<seq<nat>>): (sizes: seq<nat>)
    ensures |sizes| == |bins| && forall k :: 0 <= k < |bins| ==> sizes[k] == |bins[k]|
  {
    seq(|bins|, k requires 0 <= k < |bins| => |bins[k]|)
  }

  lemma {:induction false} FlattenAppend(a: seq<seq<nat>>, b: seq<seq<nat>>)
    ensures Flatten(a + b) == Flatten(a) + Flatten(b)
    decreases |b|
  {
    if |b| > 0 {
      var last := |b| - 1;
      assert (a + b)[..|a + b| - 1] == a + b[..last];
      FlattenAppend(a, b[..last]);
    } else {
      assert a + b == a;
    }
  }

  /** Each bin is the slice of the flattened order from its offset, as long as the bin. */
  lemma FlattenSlice(bins: seq<seq<nat>>, k: nat)
    requires k < |bins|
    ensures Offsets(bins)[k] + |bins[k]| <= |Flatten(bins)|
    ensures Flatten(bins)[Offsets(bins)[k]..Offsets(bins)[k] + |bins[k]|] == bins[k]
  {
    assert bins == bins[..k] + ([bins[k]] + bins[k + 1..]);
    FlattenAppend(bins[..k], [bins[k]] + bins[k + 1..]);
    FlattenAppend([bins[k]], bins[k + 1..]);
    assert Flatten([bins[k]]) == bins[k] by {
      var one: seq<seq<nat>> := [bins[k]];
      assert one[..0] == [];
    }
  }

  /** The offsets start at 0 and step by each bin's size; the flattened order is as long as the last offset plus the last bin. */
  lemma OffsetsStep(bins: seq<seq<nat>>, k: nat)
    requires k < |bins|
    ensures Offsets(bins)[0] == 0
    ensures k + 1 < |bins| ==> Offsets(bins)[k + 1] == Offsets(bins)[k] + |bins[k]|
    ensures k + 1 == |bins| ==> |Flatten(bins)| == Offsets(bins)[k] + |bins[k]|
  {
    assert bins[..0] == [];
    assert bins[..k + 1][..k] == bins[..k];
    if k + 1 == |bins| {
      assert bins[..k + 1] == bins;
    }
  }

  /** The records of `src` in the order given by `order`. */
  function Gather<T>(src: seq<T>, order: seq<nat>): (g: seq<T>)
    requires forall k :: 0 <= k < |order| ==> order[k] < |src|
    ensures |g| == |order| && forall k :: 0 <= k < |order| ==> g[k] == src[order[k]]
  {
    seq(|order|, k requires 0 <= k < |order| => src[order[k]])
  }

  /** Gathering along a permutation keeps every record, with its multiplicity. */
  lemma GatherPermutes<T>(src: seq<T>, order: seq<nat>)
    requires CellOrderings.IsPermutation(order, |src|)
    ensures multiset(Gather(src, order)) == multiset(src)
  {
    CountingSort.SeqPermutation(Gather(src, order), src, order);
  }

  /** Gathering along a permutation keeps the ids distinct. */
  lemma GatherDistinct(src: seq<Record>, order: seq<nat>)
    requires CellOrderings.IsPermutation(order, |src|) && DistinctIds(src)
    ensures DistinctIds(Gather(src, order))
  {
  }

  /** Every index listed in some bin, i.e. every entry of the flattened order, is below n. */
  predicate IndicesBelow(bins: seq<seq<nat>>, n: nat) {
    forall k :: 0 <= k < |Flatten(bins)| ==> Flatten(bins)[k] < n
  }

  /**
   * After gathering along the flattened bins, bin k's j-th entry sits at
   * the bin's offset plus j: each bin is one contiguous physical range.
   */
  lemma GatherBin<T>(src: seq<T>, bins: seq<seq<nat>>, k: nat, j: nat)
    requires IndicesBelow(bins, |src|) && k < |bins| && j < |bins[k]|
    ensures Offsets(bins)[k] + j < |Flatten(bins)|
    ensures Flatten(bins)[Offsets(bins)[k] + j] == bins[k][j] && bins[k][j] < |src|
    ensures Gather(src, Flatten(bins))[Offsets(bins)[k] + j] == src[bins[k][j]]
  {
    FlattenSlice(bins, k);
    var s := Offsets(bins)[k];
    assert Flatten(bins)[s..s + |bins[k]|][j] == Flatten(bins)[s + j];
  }

  /**
   * When the bins list every slot exactly once, as the containers pass them,
   * reordering keeps every record, keeps ids distinct and places bin k at
   * the range starting at its offset.
   */
  lemma GatherAlongBins(before: seq<Record>, bins: seq<seq<nat>>, k: nat, j: nat)
    requires CellOrderings.IsPermutation(Flatten(bins), |before|) && DistinctIds(before)
    requires k < |bins| && j < |bins[k]|
    ensures multiset(Gather(before, Flatten(bins))) == multiset(before)
    ensures DistinctIds(Gather(before, Flatten(bins)))
    ensures Offsets(bins)[k] + j < |before| && bins[k][j] < |before|
    ensures Gather(before, Flatten(bins))[Offsets(bins)[k] + j] == before[bins[k][j]]
  {
    GatherPermutes(before, Flatten(bins));
    GatherDistinct(before, Flatten(bins));
    GatherBin(before, bins, k, j);
  }
}
