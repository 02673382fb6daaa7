/**
 * The struct-of-arrays layout of `layout/soa.hpp`: the field-vector storage,
 * a scratch storage that reordering fills before the two are exchanged, the
 * physical range of every bin and the id-to-index map.
 */
module LayoutSoA {
  import opened ParticleRecords
  import opened Seqs
  import opened Bins
  import opened SoAStorages
  import CellOrderings

  class SoALayout {
    var data: SoAStorage
    var tmp: SoAStorage
    var binStarts: seq<nat>
    var binSizes: seq<nat>
    var idMap: seq<nat>

    /** Two distinct, well-formed storages. */
    predicate Valid()
      reads this, data, tmp
    {
      data != tmp && data.Valid() && tmp.Valid()
    }

    constructor()
      ensures Valid() && fresh(data) && fresh(tmp)
      ensures data.Records() == [] && tmp.Records() == [] && binStarts == [] && binSizes == [] && idMap == []
    {
      data := new SoAStorage();
      tmp := new SoAStorage();
      binStarts, binSizes, idMap := [], [], [];
    }

    /**
     * `build_storage`: one bin [0, n); particle i's fields written at index
     * i, its id pointed at i in the map resized to n; the scratch storage
     * sized to n.
     */
    method BuildStorage(input: seq<Record>)
      requires Valid() && IdsBelow(input, |input|)
      modifies this, data, tmp
      ensures Valid() && data == old(data) && tmp == old(tmp)
      ensures data.Records() == input && tmp.Size() == |input|
      ensures binStarts == [0] && binSizes == [|input|]
      ensures |idMap| == |input| && PointsBack(input, idMap)
      ensures DistinctIds(input) ==> MapsIds(data.Records(), idMap)
    {
      var n := |input|;
      WriteAll(data, input);
      binStarts, binSizes := [0], [n];
      idMap := PointIds(input, Fit(idMap, n, 0));
      tmp.Resize(n);
    }

    /**
     * `reorder_storage`: the scatter into `tmp`, recording each bin's start
     * and size; then the two storages are exchanged and the map is rebuilt,
     * growing with `ID_NOT_FOUND` to reach any id beyond it.
     */
    method ReorderStorage(bins: seq<seq<nat>>)
      requires Valid() && IndicesBelow(bins, data.Size()) && |Flatten(bins)| <= tmp.Size()
      modifies this, tmp
      ensures Valid() && data == old(tmp) && tmp == old(data)
      ensures data.Records() == Gather(old(data.Records()), Flatten(bins)) + old(tmp.Records())[|Flatten(bins)|..]
      ensures tmp.Records() == old(data.Records())
      ensures binStarts == Offsets(bins) && binSizes == Sizes(bins)
      ensures |idMap| >= old(|idMap|) && PointsBack(data.Records(), idMap)
      ensures DistinctIds(data.Records()) ==> MapsIds(data.Records(), idMap)
    {
      var d, t := data, tmp;
      ghost var src, buf := d.Records(), t.Records();
      var starts, sizes := Scatter(d, t, bins);
      var out := t.Records();
      assert d.Records() == src && out == Gather(src, Flatten(bins)) + buf[|Flatten(bins)|..];
      data, tmp := t, d;
      binStarts, binSizes := starts, sizes;
      idMap := PointIdsGrowing(out, idMap);
    }

    /** `get_physical_bin_range`: the half-open range of slots that bin t occupies. */
    function PhysicalBinRange(t: nat): (range: (nat, nat))
      reads this
      requires t < |binStarts| && t < |binSizes|
      ensures range.1 - range.0 == binSizes[t]
    {
      (binStarts[t], binStarts[t] + binSizes[t])
    }

    /**
     * After `reorder_storage(bins)`, the physical range of bin t holds bin
     * t's particles in list order.
     */
    lemma PhysicalBinRangeHoldsBin(before: seq<Record>, bins: seq<seq<nat>>, t: nat, j: nat)
      requires Valid() && binStarts == Offsets(bins) && binSizes == Sizes(bins)
      requires CellOrderings.IsPermutation(Flatten(bins), |before|) && DistinctIds(before)
      requires data.Records() == Gather(before, Flatten(bins))
      requires t < |bins| && j < |bins[t]|
      ensures PhysicalBinRange(t).0 + j < PhysicalBinRange(t).1 <= data.Size() && bins[t][j] < |before|
      ensures data.Records()[PhysicalBinRange(t).0 + j] == before[bins[t][j]]
    {
      GatherAlongBins(before, bins, t, j);
      FlattenSlice(bins, t);
    }

    function ParticleCount(): nat
      reads this, data
    {
      data.Size()
    }

    /** `index_is_valid`: exactly the stored slots; the capacity is the particle count. */
    predicate IndexIsValid(i: nat)
      reads this, data
    {
      i < ParticleCount()
    }

    /** `max_id`: the size of the id map. */
    function MaxId(): nat
      reads this
    {
      |idMap|
    }

    /** `contains_id` as written: every id up to and including the map size. */
    predicate ContainsIdAsWritten(id: nat)
      reads this
    {
      id <= MaxId()
    }

    /** `contains_id` as intended: the ids the map has an entry for. */
    predicate ContainsId(id: nat)
      reads this
    {
      id < MaxId()
    }

    /** The map size is reported as contained, though no stored particle carries it. */
    lemma ContainsIdAsWrittenOffByOne()
      requires Valid() && IdsBelow(data.Records(), |idMap|)
      ensures ContainsIdAsWritten(MaxId()) && !ContainsId(MaxId())
      ensures forall k :: 0 <= k < data.Size() ==> data.ids[k] != MaxId()
    {
      forall k | 0 <= k < data.Size()
        ensures data.ids[k] != MaxId()
      {
        assert data.Records()[k].id == data.ids[k];
      }
    }

    /** With the dense ids of a build, `ContainsId` holds exactly for the ids that are stored. */
    lemma ContainsIdExact(id: nat)
      requires Valid() && |idMap| == data.Size() && DistinctIds(data.Records()) && IdsBelow(data.Records(), |idMap|)
      ensures ContainsId(id) <==> exists k :: 0 <= k < data.Size() && data.ids[k] == id
    {
      var rs := data.Records();
      if ContainsId(id) {
        DenseIds(rs, id);
        var k :| 0 <= k < |rs| && rs[k].id == id;
        assert data.ids[k] == id;
      } else {
        forall k | 0 <= k < data.Size()
          ensures data.ids[k] != id
        {
          assert rs[k].id == data.ids[k];
        }
      }
    }
  }

  /** The loop of `build_storage` that writes particle i's fields at index i. */
  method WriteAll(d: SoAStorage, input: seq<Record>)
    requires d.Valid()
    modifies d
    ensures d.Valid() && d.Records() == input
  {
    d.Resize(|input|);
    for i := 0 to |input|
      invariant d.Valid() && d.Size() == |input|
      invariant forall k :: 0 <= k < i ==> d.Records()[k] == input[k]
    {
      d.Write(i, input[i]);
    }
  }

  /** The inner loop of the scatter: slot `bin[j]` of `d` is copied into slot `cur + j` of `t`. */
  method CopyBin(t: SoAStorage, d: SoAStorage, bin: seq<nat>, cur: nat)
    requires t != d && t.Valid() && d.Valid() && cur + |bin| <= t.Size()
    requires forall j :: 0 <= j < |bin| ==> bin[j] < d.Size()
    modifies t
    ensures t.Valid() && t.Size() == old(t.Size())
    ensures forall k :: 0 <= k < t.Size() ==>
      t.Records()[k] == if cur <= k < cur + |bin| then d.Records()[bin[k - cur]] else old(t.Records())[k]
  {
    for j := 0 to |bin|
      invariant t.Valid() && t.Size() == old(t.Size())
      invariant forall k :: 0 <= k < t.Size() ==>
        t.Records()[k] == if cur <= k < cur + j then d.Records()[bin[k - cur]] else old(t.Records())[k]
    {
      t.CopyFrom(cur + j, d, bin[j]);
    }
  }

  /**
   * The scatter of `reorder_storage`: bin by bin, the bin's start and size
   * are recorded and its listed slots of `d` are copied into the next slots
   * of `t`.
   */
  method Scatter(d: SoAStorage, t: SoAStorage, bins: seq<seq<nat>>) returns (starts: seq<nat>, sizes: seq<nat>)
    requires t != d && t.Valid() && d.Valid() && IndicesBelow(bins, d.Size()) && |Flatten(bins)| <= t.Size()
    modifies t
    ensures t.Valid() && t.Records() == Gather(d.Records(), Flatten(bins)) + old(t.Records())[|Flatten(bins)|..]
    ensures starts == Offsets(bins) && sizes == Sizes(bins)
  {
    ghost var buf := t.Records();
    starts, sizes := [], [];
    var cur := 0;
    for b := 0 to |bins|
      invariant t.Valid() && t.Size() == |buf|
      invariant cur == |Flatten(bins[..b])| <= |Flatten(bins)|
      invariant starts == Offsets(bins)[..b] && sizes == Sizes(bins)[..b]
      invariant Placed(d.Records(), bins, buf, t.Records(), cur)
    {
      var bin := bins[b];
      ghost var src := d.Records();
      BinInBounds(src, bins, b);
      OffsetsPrefix(bins, b);
      starts, sizes := starts + [cur], sizes + [|bin|];
      ghost var before := t.Records();
      CopyBin(t, d, bin, cur);
      ghost var after := t.Records();
      ScatterStep(src, bins, b, cur, buf, before, after);
      cur := cur + |bin|;
    }
    assert bins[..|bins|] == bins;
    assert Offsets(bins)[..|bins|] == Offsets(bins) && Sizes(bins)[..|bins|] == Sizes(bins);
  }

  /** The first `cur` slots of `out` hold the gathered records, and the rest still hold `buf`. */
  predicate Placed(src: seq<Record>, bins: seq<seq<nat>>, buf: seq<Record>, out: seq<Record>, cur: nat)
    requires IndicesBelow(bins, |src|) && cur <= |Flatten(bins)|
  {
    && |out| == |buf| && cur <= |out|
    && (forall k :: 0 <= k < cur ==> out[k] == src[Flatten(bins)[k]])
    && (forall k :: cur <= k < |buf| ==> out[k] == buf[k])
  }

  /** Bin b lies inside the flattened order, right after the bins before it, and lists slots of `src`. */
  lemma BinInBounds(src: seq<Record>, bins: seq<seq<nat>>, b: nat)
    requires IndicesBelow(bins, |src|) && b < |bins|
    ensures |Flatten(bins[..b])| + |bins[b]| == |Flatten(bins[..b + 1])| <= |Flatten(bins)|
    ensures forall j :: 0 <= j < |bins[b]| ==> bins[b][j] < |src| && Flatten(bins)[|Flatten(bins[..b])| + j] == bins[b][j]
  {
    FlattenSlice(bins, b);
    assert bins[..b + 1][..b] == bins[..b];
    var cur := |Flatten(bins[..b])|;
    forall j | 0 <= j < |bins[b]|
      ensures Flatten(bins)[cur + j] == bins[b][j]
    {
      assert Flatten(bins)[cur..cur + |bins[b]|][j] == Flatten(bins)[cur + j];
    }
    if b + 1 < |bins| {
      FlattenSlice(bins, b + 1);
    } else {
      assert bins[..b + 1] == bins;
    }
  }

  /** Recording bin b's start and size extends the recorded prefixes by one entry. */
  lemma OffsetsPrefix(bins: seq<seq<nat>>, b: nat)
    requires b < |bins|
    ensures Offsets(bins)[..b + 1] == Offsets(bins)[..b] + [|Flatten(bins[..b])|]
    ensures Sizes(bins)[..b + 1] == Sizes(bins)[..b] + [|bins[b]|]
  {
  }

  /** Copying bin b to the cursor extends the placed prefix by the bin. */
  lemma ScatterStep(src: seq<Record>, bins: seq<seq<nat>>, b: nat, cur: nat, buf: seq<Record>, before: seq<Record>, after: seq<Record>)
    requires IndicesBelow(bins, |src|) && b < |bins| && cur == |Flatten(bins[..b])|
    requires cur <= |Flatten(bins)| <= |buf|
    requires Placed(src, bins, buf, before, cur)
    requires |after| == |before|
    requires forall j :: 0 <= j < |bins[b]| ==> bins[b][j] < |src|
    requires forall k :: 0 <= k < |after| ==>
      after[k] == if cur <= k < cur + |bins[b]| then src[bins[b][k - cur]] else before[k]
    ensures cur + |bins[b]| == |Flatten(bins[..b + 1])| <= |Flatten(bins)|
    ensures Placed(src, bins, buf, after, cur + |bins[b]|)
  {
    BinInBounds(src, bins, b);
    forall k | cur <= k < cur + |bins[b]|
      ensures after[k] == src[Flatten(bins)[k]]
    {
      assert Flatten(bins)[cur + (k - cur)] == bins[b][k - cur];
    }
  }
}
