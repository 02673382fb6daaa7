/**
 * The array-of-structs-of-arrays particle container of `aosoa.hpp`: a
 * chunked storage and the id-to-index map that follows the particles.
 */
module AoSoAContainers {
  import opened ParticleRecords
  import opened ChunkedStorages
  import opened Seqs

  class AoSoAContainer {
    const data: ChunkedStorage
    var idMap: seq<nat>

    constructor(size: nat)
      requires ChunkSizeOk(size)
      ensures fresh(data) && data.Valid() && data.size == size && data.chunks == [] && data.nParticles == 0 && idMap == []
    {
      data := new ChunkedStorage(size);
      idMap := [];
    }

    /** The stored particles: the first `particle_count()` slots. */
    function Particles(): (rs: seq<Record>)
      reads this, data
      requires data.Valid() && data.nParticles <= data.Capacity()
      ensures |rs| == data.nParticles
    {
      data.Slots()[..data.nParticles]
    }

    /**
     * `build_storage`: sizes the storage for n particles, stores particle i
     * in slot i (lane i mod S of chunk i / S), resizes the map to n and points
     * every id at its particle's index. Lanes past n keep what the resize left.
     */
    method BuildStorage(input: seq<Record>)
      requires data.Valid() && IdsBelow(input, |input|)
      modifies this, data
      ensures data.Valid() && data.nParticles == |input| && |data.chunks| == ChunksFor(|input|, data.size)
      ensures Particles() == input
      ensures forall p :: |input| <= p < data.Capacity() ==>
        data.Slots()[p] == if p < old(data.Capacity()) then old(data.Slots())[p] else Blank
      ensures |idMap| == |input| && PointsBack(input, idMap)
      ensures DistinctIds(input) ==> MapsIds(Particles(), idMap)
    {
      var n := |input|;
      data.Resize(n);
      ghost var sized := data.Slots();
      for i := 0 to n
        invariant data.Valid() && data.nParticles == n && |data.chunks| == ChunksFor(n, data.size)
        invariant forall k :: 0 <= k < i ==> data.Slots()[k] == input[k]
        invariant forall p :: i <= p < data.Capacity() ==> data.Slots()[p] == sized[p]
      {
        data.WriteSlot(i, input[i]);
      }
      idMap := PointIds(input, Fit(idMap, n, 0));
    }

    /** `id_to_index`: with a consistent map, the index of the particle carrying `id`. */
    function IdToIndex(id: nat): (i: nat)
      reads this, data
      requires id < |idMap| && data.Valid() && data.nParticles <= data.Capacity()
      ensures MapsIds(Particles(), idMap) ==> forall k :: 0 <= k < data.nParticles && Particles()[k].id == id ==> i == k
    {
      idMap[id]
    }

    /** `max_id`: the size of the id map. */
    function MaxId(): nat
      reads this
    {
      |idMap|
    }

    function ParticleCount(): nat
      reads this, data
    {
      data.nParticles
    }

    /** `contains` as written: every id up to and including `max_id()`. */
    predicate ContainsAsWritten(id: nat)
      reads this
    {
      id <= MaxId()
    }

    /** `contains` as intended: the ids below `max_id()`. */
    predicate Contains(id: nat)
      reads this
    {
      id < MaxId()
    }

    /** After a build, `max_id()` itself is reported as contained, though no particle carries it. */
    lemma ContainsAsWrittenOffByOne()
      requires data.Valid() && data.nParticles <= data.Capacity() && IdsBelow(Particles(), |idMap|)
      ensures ContainsAsWritten(MaxId()) && !Contains(MaxId())
      ensures forall k :: 0 <= k < data.nParticles ==> Particles()[k].id != MaxId()
    {
    }

    /** With the dense ids of a build, `Contains` holds exactly for the ids that are stored. */
    lemma ContainsExact(id: nat)
      requires data.Valid() && data.nParticles <= data.Capacity() && |idMap| == data.nParticles
      requires DistinctIds(Particles()) && IdsBelow(Particles(), |idMap|)
      ensures Contains(id) <==> exists k :: 0 <= k < data.nParticles && Particles()[k].id == id
    {
      if Contains(id) {
        DenseIds(Particles(), id);
      }
    }

    /**
     * `swap_particles`: nothing for i == j; otherwise exchanges the two slots
     * and the map entries of their ids, so a consistent map stays consistent.
     */
    method SwapParticles(i: nat, j: nat)
      requires data.Valid() && data.nParticles <= data.Capacity() && i < data.nParticles && j < data.nParticles
      requires IdsBelow(Particles(), |idMap|)
      modifies this, data
      ensures data.Valid() && |data.chunks| == old(|data.chunks|) && data.nParticles == old(data.nParticles)
      ensures data.Slots() == Swap(old(data.Slots()), i, j)
      ensures idMap == Swap(old(idMap), old(data.Slots())[i].id, old(data.Slots())[j].id)
      ensures old(MapsIds(Particles(), idMap)) ==> MapsIds(Particles(), idMap)
    {
      if i == j {
        return;
      }
      var (c1, l1) := Locate(i, data.size);
      var (c2, l2) := Locate(j, data.size);
      LocateBelow(i, data.size, |data.chunks|);
      LocateBelow(j, data.size, |data.chunks|);
      var id1, id2 := data.chunks[c1][l1].id, data.chunks[c2][l2].id;
      assert id1 == Particles()[i].id && id2 == Particles()[j].id;
      data.Swap(i, j);
      idMap := Swap(idMap, id1, id2);
      assert Particles() == Swap(old(Particles()), i, j);
    }
  }
}
