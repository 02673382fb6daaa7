/**
 * The array-of-structs layout of `layout/aos.hpp`: the particle vector, a
 * scratch vector of the same size that reordering writes into before the two
 * are exchanged, and the id-to-index map.
 */
module LayoutAoS {
  import opened ParticleRecords
  import opened Seqs
  import opened Bins
  import ParticleStates

  class AoSLayout {
    var particles: seq<Record>
    var tmp: seq<Record>
    var idMap: seq<nat>

    constructor()
      ensures particles == [] && tmp == [] && idMap == []
    {
      particles, tmp, idMap := [], [], [];
    }

    /**
     * `build_storage`: copies the input, resizes the map to n and points
     * every id at its record, and sizes the scratch vector to n.
     */
    method BuildStorage(input: seq<Record>)
      requires IdsBelow(input, |input|)
      modifies this
      ensures particles == input && tmp == Fit(old(tmp), |input|, Blank)
      ensures |idMap| == |input| && PointsBack(input, idMap)
      ensures DistinctIds(input) ==> MapsIds(particles, idMap)
    {
      particles := input;
      idMap := PointIds(input, Fit(idMap, |input|, 0));
      tmp := Fit(tmp, |input|, Blank);
    }

    /**
     * `reorder_storage`: writes the particles into the scratch vector in
     * the order of the bins laid end to end, exchanges the two vectors and
     * points every id at its new index. Slots of the scratch vector beyond
     * the listed indices keep what they held.
     */
    method ReorderStorage(bins: seq<seq<nat>>)
      requires IndicesBelow(bins, |particles|) && |Flatten(bins)| <= |tmp|
      requires IdsBelow(particles, |idMap|) && IdsBelow(tmp[|Flatten(bins)|..], |idMap|)
      modifies this
      ensures particles == Gather(old(particles), Flatten(bins)) + old(tmp)[|Flatten(bins)|..]
      ensures tmp == old(particles)
      ensures |idMap| == old(|idMap|) && PointsBack(particles, idMap)
      ensures DistinctIds(particles) ==> MapsIds(particles, idMap)
    {
      tmp := WriteInBinOrder(particles, bins, tmp);
      particles, tmp := tmp, particles;
      idMap := PointIds(particles, idMap);
    }

    /** `swap_particles`: no-op for i == j; otherwise swaps the two records and the map entries of their ids. */
    method SwapParticles(i: nat, j: nat)
      requires i < |particles| && j < |particles| && IdsBelow(particles, |idMap|)
      modifies this
      ensures particles == Swap(old(particles), i, j) && tmp == old(tmp)
      ensures idMap == Swap(old(idMap), old(particles)[i].id, old(particles)[j].id)
      ensures old(MapsIds(particles, idMap)) ==> MapsIds(particles, idMap)
    {
      if i == j {
        return;
      }
      var id1, id2 := particles[i].id, particles[j].id;
      particles := Swap(particles, i, j);
      idMap := Swap(idMap, id1, id2);
    }

    /**
     * `iterate`: visits every slot below the capacity whose state passes the
     * mask; the kernel calls are returned as the visited indices.
     */
    method Iterate(mask: ParticleStates.ParticleState) returns (visited: seq<nat>)
      ensures visited == Selected(StatesOf(particles), mask, |particles|)
    {
      visited := [];
      var states := StatesOf(particles);
      for i := 0 to Capacity()
        invariant visited == Selected(states, mask, i)
      {
        if ParticleStates.PassesMask(particles[i].state, mask) {
          visited := visited + [i];
        }
      }
    }

    function ParticleCount(): nat
      reads this
    {
      |particles|
    }

    function Capacity(): nat
      reads this
    {
      ParticleCount()
    }

    /** `index_is_valid`: exactly the stored slots. */
    predicate IndexIsValid(i: nat)
      reads this
    {
      i < ParticleCount()
    }

    /** `id_to_index`: with a consistent map, the index of the record carrying `id`. */
    function IdToIndex(id: nat): (i: nat)
      reads this
      requires id < |idMap|
      ensures MapsIds(particles, idMap) ==> forall k :: 0 <= k < |particles| && particles[k].id == id ==> i == k
    {
      idMap[id]
    }

    function MaxId(): nat
      reads this
    {
      |particles|
    }

    /** `contains_id` as written: every id up to and including `max_id()`. */
    predicate ContainsIdAsWritten(id: nat)
      reads this
    {
      id <= MaxId()
    }

    /** `contains_id` as intended: the ids below `max_id()`. */
    predicate ContainsId(id: nat)
      reads this
    {
      id < MaxId()
    }

    /** The id `max_id()` is reported as contained, though no record carries it. */
    lemma ContainsIdAsWrittenOffByOne()
      requires IdsBelow(particles, |particles|)
      ensures ContainsIdAsWritten(MaxId()) && !ContainsId(MaxId())
      ensures forall k :: 0 <= k < |particles| ==> particles[k].id != MaxId()
    {
    }

    /** With dense ids, `ContainsId` holds exactly for the ids that are stored. */
    lemma ContainsIdExact(id: nat)
      requires DistinctIds(particles) && IdsBelow(particles, |particles|)
      ensures ContainsId(id) <==> exists k :: 0 <= k < |particles| && particles[k].id == id
    {
      if ContainsId(id) {
        DenseIds(particles, id);
      }
    }
  }

  /**
   * The scatter loop of `reorder_storage`: a cursor walks `buf` from 0 and
   * receives `src[beforeidx]` for every index of every bin, in bin order.
   */
  method WriteInBinOrder<T>(src: seq<T>, bins: seq<seq<nat>>, buf: seq<T>) returns (out: seq<T>)
    requires IndicesBelow(bins, |src|) && |Flatten(bins)| <= |buf|
    ensures out == Gather(src, Flatten(bins)) + buf[|Flatten(bins)|..]
  {
    var order := Flatten(bins);
    out := buf;
    var cur := 0;
    for b := 0 to |bins|
      invariant |out| == |buf| && cur == |Flatten(bins[..b])| <= |order|
      invariant forall k :: 0 <= k < cur ==> out[k] == src[order[k]]
      invariant forall k :: cur <= k < |out| ==> out[k] == buf[k]
    {
      FlattenSlice(bins, b);
      assert bins[..b + 1][..b] == bins[..b];
      for j := 0 to |bins[b]|
        invariant |out| == |buf| && cur == |Flatten(bins[..b])| + j
        invariant forall k :: 0 <= k < cur ==> out[k] == src[order[k]]
        invariant forall k :: cur <= k < |out| ==> out[k] == buf[k]
      {
        assert order[cur] == bins[b][j] by {
          assert order[Offsets(bins)[b]..Offsets(bins)[b] + |bins[b]|][j] == order[cur];
        }
        out := out[cur := src[bins[b][j]]];
        cur := cur + 1;
      }
    }
    assert bins[..|bins|] == bins;
  }
}
