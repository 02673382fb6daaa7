/**
 * The struct-of-arrays particle storage: one vector per particle field.
 * Each triple of coordinate vectors (x, y and z of position, velocity,
 * force and old position) is kept here as one vector of triples.
 * `Records()` reads the vectors back as particle records, and every
 * operation is stated on that view.
 */
module SoAStorages {
  import opened ParticleRecords
  import opened Seqs
  import ParticleStates

  class SoAStorage {
    var positions: seq<Vec3>
    var velocities: seq<Vec3>
    var forces: seq<Vec3>
    var oldPositions: seq<Vec3>
    var masses: seq<real>
    var states: seq<ParticleStates.ParticleState>
    var types: seq<nat>
    var ids: seq<nat>
    var userData: seq<int>

    /** All field vectors have the same length. */
    predicate Valid()
      reads this
    {
      && |velocities| == |positions| && |forces| == |positions| && |oldPositions| == |positions|
      && |masses| == |positions| && |states| == |positions| && |types| == |positions|
      && |ids| == |positions| && |userData| == |positions|
    }

    function Size(): nat
      reads this
    {
      |positions|
    }

    /** The particle in slot i, gathered from every field vector. */
    function At(i: nat): (r: Record)
      reads this
      requires Valid() && i < Size()
      ensures r.id == ids[i] && r.ptype == types[i] && r.state == states[i] && r.position == positions[i]
    {
      Record(ids[i], types[i], positions[i], oldPositions[i], velocities[i], forces[i], states[i], masses[i], userData[i])
    }

    /** The whole storage as records. */
    function Records(): (rs: seq<Record>)
      reads this
      requires Valid()
      ensures |rs| == Size() && forall i :: 0 <= i < Size() ==> rs[i] == At(i)
    {
      seq(Size(), i requires 0 <= i < Size() && Valid() reads this => At(i))
    }

    constructor()
      ensures Valid() && Records() == []
    {
      positions, velocities, forces, oldPositions := [], [], [], [];
      masses, states, types, ids, userData := [], [], [], [], [];
    }

    /** `resize(n)`: every field vector gets length n; kept slots are unchanged and new slots are blank. */
    method Resize(n: nat)
      requires Valid()
      modifies this
      ensures Valid() && Size() == n
      ensures forall i :: 0 <= i < n ==> Records()[i] == if i < old(Size()) then old(Records())[i] else Blank
    {
      positions := Fit(positions, n, Blank.position);
      velocities := Fit(velocities, n, Blank.velocity);
      forces := Fit(forces, n, Blank.force);
      oldPositions := Fit(oldPositions, n, Blank.oldPosition);
      masses := Fit(masses, n, Blank.mass);
      states := Fit(states, n, Blank.state);
      types := Fit(types, n, Blank.ptype);
      ids := Fit(ids, n, Blank.id);
      userData := Fit(userData, n, Blank.userData);
    }

    /** Writes every field of `r` into slot i, as `build_storage` does per input particle. */
    method Write(i: nat, r: Record)
      requires Valid() && i < Size()
      modifies this
      ensures Valid() && Records() == old(Records())[i := r]
    {
      positions, velocities, forces, oldPositions := positions[i := r.position], velocities[i := r.velocity], forces[i := r.force], oldPositions[i := r.oldPosition];
      masses, states, types, ids, userData := masses[i := r.mass], states[i := r.state], types[i := r.ptype], ids[i := r.id], userData[i := r.userData];
    }

    /** `copy_from`: every field of slot `srcI` of `src` is copied into slot `dest`. */
    method CopyFrom(dest: nat, src: SoAStorage, srcI: nat)
      requires Valid() && src.Valid() && dest < Size() && srcI < src.Size()
      modifies this
      ensures Valid() && Records() == old(Records())[dest := old(src.At(srcI))]
    {
      var r := src.At(srcI);
      Write(dest, r);
    }

    /** `swap(i, j)`: every field of the two slots is exchanged; nothing happens for i == j. */
    method Swap(i: nat, j: nat)
      requires Valid() && i < Size() && j < Size()
      modifies this
      ensures Valid() && Records() == ParticleRecords.Swap(old(Records()), i, j)
    {
      if i == j {
        return;
      }
      var a, b := At(i), At(j);
      Write(i, b);
      Write(j, a);
    }
  }
}
