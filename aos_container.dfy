/**
 * The array-of-structs particle container: the particle records in one
 * vector, and the id-to-index map that follows them when they move.
 */
module AoSContainers {
  import opened ParticleRecords

  /** The container of `aos.hpp`. */
  class AoSContainer {
    var particles: seq<Record>
    var idMap: seq<nat>
    var isBuilt: bool

    constructor()
      ensures particles == [] && idMap == [] && !isBuilt
    {
      particles, idMap, isBuilt := [], [], false;
    }

    /**
     * `build_storage`: only once; copies the records, fills the id map and
     * marks the storage built. Ids must index the n-entry map.
     */
    method BuildStorage(input: seq<Record>)
      requires !isBuilt && IdsBelow(input, |input|)
      modifies this
      ensures isBuilt && particles == input && |idMap| == |input|
      ensures PointsBack(input, idMap)
      ensures DistinctIds(input) ==> MapsIds(particles, idMap)
    {
      particles := input;
      idMap := BuildIdMap(input);
      isBuilt := true;
    }

    /** `id_to_index`: with a consistent map, the index of the record carrying `id`. */
    function IdToIndex(id: nat): (i: nat)
      reads this
      requires id < |idMap|
      ensures MapsIds(particles, idMap) ==> forall k :: 0 <= k < |particles| && particles[k].id == id ==> i == k
    {
      idMap[id]
    }

    function MaxId(): nat
      reads this
    {
      |particles|
    }

    function ParticleCount(): nat
      reads this
    {
      |particles|
    }

    /** `contains` as written: every id up to and including `max_id()`. */
    predicate ContainsAsWritten(id: nat)
      reads this
    {
      id <= MaxId()
    }

    /** `contains` as intended: the ids below `max_id()`. */
    predicate Contains(id: nat)
      reads this
    {
      id < MaxId()
    }

    /** `max_id()` itself is reported as contained, though no particle carries it. */
    lemma ContainsAsWrittenOffByOne()
      requires IdsBelow(particles, |particles|)
      ensures ContainsAsWritten(MaxId())
      ensures forall k :: 0 <= k < |particles| ==> particles[k].id != MaxId()
    {
    }

    /** With the dense ids of a built container, `Contains` holds exactly for the ids that are stored. */
    lemma ContainsExact(id: nat)
      requires DistinctIds(particles) && IdsBelow(particles, |particles|)
      ensures Contains(id) <==> exists k :: 0 <= k < |particles| && particles[k].id == id
    {
      if Contains(id) {
        DenseIds(particles, id);
      }
    }

    /**
     * `swap_particles`: exchanges two records and the map entries of their
     * ids (nothing happens for i == j), so a consistent map stays consistent.
     */
    method SwapParticles(i: nat, j: nat)
      requires i < |particles| && j < |particles| && IdsBelow(particles, |idMap|)
      modifies this
      ensures particles == Swap(old(particles), i, j)
      ensures idMap == Swap(old(idMap), old(particles)[i].id, old(particles)[j].id)
      ensures isBuilt == old(isBuilt)
      ensures old(MapsIds(particles, idMap)) ==> MapsIds(particles, idMap)
    {
      if i == j {
        return;
      }
      var id1, id2 := particles[i].id, particles[j].id;
      particles := Swap(particles, i, j);
      idMap := Swap(idMap, id1, id2);
    }
  }
}
