/**
 * The struct-of-arrays particle container of `soa.hpp`: a field-vector
 * storage object and the id-to-index map that follows the particles.
 */
module SoAContainers {
  import opened ParticleRecords
  import opened SoAStorages
  import ParticleStates

  class SoAContainer {
    const data: SoAStorage
    var idMap: seq<nat>
    var isBuilt: bool

    constructor()
      ensures fresh(data) && data.Valid() && data.Records() == [] && idMap == [] && !isBuilt
    {
      data := new SoAStorage();
      idMap, isBuilt := [], false;
    }

    /**
     * `build_storage`: only once; resizes the field vectors and the map to n,
     * writes particle i's fields at index i and points its id at i.
     */
    method BuildStorage(input: seq<Record>)
      requires !isBuilt && data.Valid() && IdsBelow(input, |input|)
      modifies this, data
      ensures isBuilt && data.Valid() && data.Records() == input && |idMap| == |input|
      ensures PointsBack(input, idMap)
      ensures DistinctIds(input) ==> MapsIds(data.Records(), idMap)
    {
      var n := |input|;
      data.Resize(n);
      for i := 0 to n
        invariant data.Valid() && data.Size() == n
        invariant forall k :: 0 <= k < i ==> data.Records()[k] == input[k]
      {
        data.Write(i, input[i]);
      }
      idMap := BuildIdMap(input);
      isBuilt := true;
    }

    /** `swap_particles`: swaps the two slots and the map entries of their ids, keeping a consistent map consistent. */
    method SwapParticles(i: nat, j: nat)
      requires data.Valid() && i < data.Size() && j < data.Size() && IdsBelow(data.Records(), |idMap|)
      modifies this, data
      ensures data.Valid() && data.Records() == Swap(old(data.Records()), i, j)
      ensures idMap == Swap(old(idMap), old(data.ids[i]), old(data.ids[j]))
      ensures isBuilt == old(isBuilt)
      ensures old(MapsIds(data.Records(), idMap)) ==> MapsIds(data.Records(), idMap)
    {
      assert data.Records()[i].id == data.ids[i] && data.Records()[j].id == data.ids[j];
      data.Swap(i, j);
      assert data.Records()[i].id == data.ids[i] && data.Records()[j].id == data.ids[j];
      idMap := Swap(idMap, data.ids[i], data.ids[j]);
    }

    function ParticleCount(): nat
      reads this, data
    {
      data.Size()
    }

    /** `index_is_valid`: exactly the stored slots. */
    predicate IndexIsValid(i: nat)
      reads this, data
    {
      i < ParticleCount()
    }

    /**
     * `iterate`: walks every slot below the capacity, skips invalid indices
     * and hands the kernel each slot whose state passes the mask; the kernel
     * calls are returned as the visited indices.
     */
    method Iterate(mask: ParticleStates.ParticleState) returns (visited: seq<nat>)
      requires data.Valid()
      ensures visited == Selected(data.states, mask, data.Size())
    {
      visited := [];
      for i := 0 to ParticleCount()
        invariant visited == Selected(data.states, mask, i)
      {
        if !IndexIsValid(i) {
          continue;
        }
        if ParticleStates.PassesMask(data.states[i], mask) {
          visited := visited + [i];
        }
      }
    }

    /** `max_id`: the size of the id map. */
    function MaxId(): nat
      reads this
    {
      |idMap|
    }

    /** `contains_id` as written: every id up to and including the map size. */
    predicate ContainsIdAsWritten(id: nat)
      reads this
    {
      id <= MaxId()
    }

    /** `contains_id` as intended: the ids the map has an entry for. */
    predicate ContainsId(id: nat)
      reads this
    {
      id < MaxId()
    }

    /** After a build from n records, the map size n is reported as contained, though no record carries it. */
    lemma ContainsIdAsWrittenOffByOne()
      requires data.Valid() && |idMap| == data.Size() && IdsBelow(data.Records(), |idMap|)
      ensures ContainsIdAsWritten(MaxId()) && !ContainsId(MaxId())
      ensures forall k :: 0 <= k < data.Size() ==> data.Records()[k].id != MaxId()
    {
    }

    /** With the dense ids of a build, `ContainsId` holds exactly for the ids that are stored. */
    lemma ContainsIdExact(id: nat)
      requires data.Valid() && |idMap| == data.Size() && DistinctIds(data.Records()) && IdsBelow(data.Records(), |idMap|)
      ensures ContainsId(id) <==> exists k :: 0 <= k < data.Size() && data.ids[k] == id
    {
      var rs := data.Records();
      if ContainsId(id) {
        DenseIds(rs, id);
        var k :| 0 <= k < |rs| && rs[k].id == id;
        assert data.ids[k] == id;
      } else {
        forall k | 0 <= k < data.Size()
          ensures data.ids[k] != id
        {
          assert rs[k].id == data.ids[k];
        }
      }
    }
  }
}
