/**
 * The per-particle data that every container stores and moves around.
 * Floating-point vectors are kept as triples of reals; the containers only
 * copy them, so their arithmetic plays no part in the model.
 */
module ParticleRecords {
  import ParticleStates

  type Vec3 = (real, real, real)

  /** One particle as the containers hold it: its id, type, kinematics, state, mass and user data. */
  datatype Record = Record(
    id: nat,
    ptype: nat,
    position: Vec3,
    oldPosition: Vec3,
    velocity: Vec3,
    force: Vec3,
    state: ParticleStates.ParticleState,
    mass: real,
    userData: int)

  /** The value-initialised slot that `resize` appends to a storage. */
  const Blank: Record := Record(0, 0, (0.0, 0.0, 0.0), (0.0, 0.0, 0.0), (0.0, 0.0, 0.0), (0.0, 0.0, 0.0), 0, 0.0, 0)

  /** Ids that occur at most once among the records. */
  predicate DistinctIds(rs: seq<Record>) {
    forall i, j :: 0 <= i < j < |rs| ==> rs[i].id != rs[j].id
  }

  /** Every record's id indexes an id-to-index map of size `size`. */
  predicate IdsBelow(rs: seq<Record>, size: nat) {
    forall i :: 0 <= i < |rs| ==> rs[i].id < size
  }

  /** The id-to-index map points every record's id at that record's position. */
  predicate MapsIds(rs: seq<Record>, idMap: seq<nat>) {
    forall i :: 0 <= i < |rs| ==> rs[i].id < |idMap| && idMap[rs[i].id] == i
  }

  /** `s` with the elements at i and j exchanged. */
  function Swap<T>(s: seq<T>, i: nat, j: nat): (r: seq<T>)
    requires i < |s| && j < |s|
    ensures |r| == |s| && r[i] == s[j] && r[j] == s[i]
    ensures forall k :: 0 <= k < |s| && k != i && k != j ==> r[k] == s[k]
    ensures multiset(r) == multiset(s)
  {
    if i == j then s else s[i := s[j]][j := s[i]]
  }

  /** The ids of the first m records. */
  function IdSet(rs: seq<Record>, m: nat): (ids: set<nat>)
    requires m <= |rs|
    ensures forall k :: 0 <= k < m ==> rs[k].id in ids
  {
    if m == 0 then {} else IdSet(rs, m - 1) + {rs[m - 1].id}
  }

  /** The numbers 0 .. n - 1. */
  function Naturals(n: nat): (s: set<nat>)
    ensures forall i: nat :: i in s <==> i < n
  {
    if n == 0 then {} else Naturals(n - 1) + {n - 1}
  }

  lemma {:induction false} NaturalsCard(n: nat)
    ensures |Naturals(n)| == n
  {
    if n > 0 {
      NaturalsCard(n - 1);
      assert n - 1 !in Naturals(n - 1);
    }
  }

  /** With distinct ids, the first m records have m ids. */
  lemma {:induction false} IdSetCard(rs: seq<Record>, m: nat)
    requires m <= |rs| && DistinctIds(rs)
    ensures |IdSet(rs, m)| == m
  {
    if m > 0 {
      IdSetCard(rs, m - 1);
      if rs[m - 1].id in IdSet(rs, m - 1) {
        var k := IdSetMember(rs, m - 1, rs[m - 1].id);
        assert false;
      }
    }
  }

  /** Every id in the set is the id of one of the first m records, at index k. */
  lemma {:induction false} IdSetMember(rs: seq<Record>, m: nat, id: nat) returns (k: nat)
    requires m <= |rs| && id in IdSet(rs, m)
    ensures k < m && rs[k].id == id
  {
    if id == rs[m - 1].id {
      k := m - 1;
    } else {
      k := IdSetMember(rs, m - 1, id);
    }
  }

  lemma {:induction false} SubsetCard<T>(a: set<T>, b: set<T>)
    requires a <= b
    ensures |a| <= |b|
    decreases |b|
  {
    if b != {} {
      var x :| x in b;
      SubsetCard(a - {x}, b - {x});
    }
  }

  /**
   * n records with distinct ids below n use every id below n: the ids are
   * exactly 0 .. n - 1, as the dense id mapping at build time produces them.
   */
  lemma DenseIds(rs: seq<Record>, id: nat)
    requires DistinctIds(rs) && IdsBelow(rs, |rs|) && id < |rs|
    ensures exists k :: 0 <= k < |rs| && rs[k].id == id
  {
    var n := |rs|;
    IdSetCard(rs, n);
    NaturalsCard(n);
    if id !in IdSet(rs, n) {
      forall x | x in IdSet(rs, n)
        ensures x in Naturals(n) - {id}
      {
        var k := IdSetMember(rs, n, x);
      }
      SubsetCard(IdSet(rs, n), Naturals(n) - {id});
      assert false;
    }
    var k := IdSetMember(rs, n, id);
  }

  /** The state of every record, in storage order. */
  function StatesOf(rs: seq<Record>): (states: seq<ParticleStates.ParticleState>)
    ensures |states| == |rs| && forall k :: 0 <= k < |rs| ==> states[k] == rs[k].state
  {
    seq(|rs|, k requires 0 <= k < |rs| => rs[k].state)
  }

  /**
   * The slots below n whose state passes `mask`, in ascending order: the
   * indices an `iterate` call hands to its kernel.
   */
  function Selected(states: seq<ParticleStates.ParticleState>, mask: ParticleStates.ParticleState, n: nat): (ks: seq<nat>)
    requires n <= |states|
    ensures forall j :: 0 <= j < |ks| ==> ks[j] < n && ParticleStates.PassesMask(states[ks[j]], mask)
    ensures forall i, j :: 0 <= i < j < |ks| ==> ks[i] < ks[j]
  {
    if n == 0 then []
    else Selected(states, mask, n - 1) + (if ParticleStates.PassesMask(states[n - 1], mask) then [n - 1] else [])
  }

  /** Every slot below n that passes the mask is visited; with the ensures of `Selected`, exactly those are. */
  lemma {:induction false} SelectedComplete(states: seq<ParticleStates.ParticleState>, mask: ParticleStates.ParticleState, n: nat, k: nat)
    requires n <= |states| && k < n && ParticleStates.PassesMask(states[k], mask)
    ensures k in Selected(states, mask, n)
  {
    if k < n - 1 {
      SelectedComplete(states, mask, n - 1, k);
    }
  }

  /** An INVALID slot is never visited, whatever the mask. */
  lemma SelectedSkipsInvalid(states: seq<ParticleStates.ParticleState>, mask: ParticleStates.ParticleState, n: nat, k: nat)
    requires n <= |states| && k < |states| && states[k] == ParticleStates.INVALID
    ensures k !in Selected(states, mask, n)
  {
    ParticleStates.InvalidNeverPasses(mask);
  }

  /** Every record's id has a map entry, and that entry points back at a record carrying the id. */
  predicate PointsBack(rs: seq<Record>, idMap: seq<nat>) {
    forall i :: 0 <= i < |rs| ==> rs[i].id < |idMap| && idMap[rs[i].id] < |rs| && rs[idMap[rs[i].id]].id == rs[i].id
  }

  /** The `uint32_t` maximum that marks an id-map entry with no particle. */
  const ID_NOT_FOUND: nat := 0xFFFF_FFFF

  /**
   * The loop that rebuilds an id map after the records moved: for every
   * record in storage order, its id's entry is set to its index. Every entry
   * written points back at a record with that id, entries of ids no record
   * carries are kept, and with distinct ids the map is consistent.
   */
  method PointIds(rs: seq<Record>, idMap: seq<nat>) returns (m: seq<nat>)
    requires IdsBelow(rs, |idMap|)
    ensures |m| == |idMap| && PointsBack(rs, m)
    ensures forall x :: 0 <= x < |m| && m[x] != idMap[x] ==> exists i :: 0 <= i < |rs| && rs[i].id == x
    ensures DistinctIds(rs) ==> MapsIds(rs, m)
  {
    m := idMap;
    for i := 0 to |rs|
      invariant |m| == |idMap|
      invariant forall j :: 0 <= j < i ==> m[rs[j].id] < i && rs[m[rs[j].id]].id == rs[j].id
      invariant forall x :: 0 <= x < |m| && m[x] != idMap[x] ==> exists j :: 0 <= j < i && rs[j].id == x
    {
      m := m[rs[i].id := i];
    }
  }

  /**
   * The id map as `build_storage` fills it: resized to n entries, then each
   * record's id pointed at its index.
   */
  method BuildIdMap(input: seq<Record>) returns (idMap: seq<nat>)
    requires IdsBelow(input, |input|)
    ensures |idMap| == |input| && PointsBack(input, idMap)
    ensures DistinctIds(input) ==> MapsIds(input, idMap)
  {
    idMap := PointIds(input, seq(|input|, _ => 0));
  }

  /** The entry an id had before the rebuild: its old entry, or `ID_NOT_FOUND` beyond the old map. */
  function Before(idMap: seq<nat>, x: nat): nat {
    if x < |idMap| then idMap[x] else ID_NOT_FOUND
  }

  /** `resize(n, ID_NOT_FOUND)` on a map shorter than n. */
  function GrowTo(m: seq<nat>, n: nat): (r: seq<nat>)
    requires |m| <= n
    ensures |r| == n && forall x :: 0 <= x < n ==> r[x] == Before(m, x)
  {
    m + seq(n - |m|, _ => ID_NOT_FOUND)
  }

  /** One step of the rebuild: grow the map to reach `id` if it is too short, then point `id` at i. */
  function Point(m: seq<nat>, id: nat, i: nat): (r: seq<nat>)
    ensures |r| == if id < |m| then |m| else id + 1
    ensures r[id] == i && forall x :: 0 <= x < |r| && x != id ==> r[x] == Before(m, x)
  {
    (if id < |m| then m else GrowTo(m, id + 1))[id := i]
  }

  /** What the growing rebuild has established after its first i records. */
  predicate RebuiltUpTo(rs: seq<Record>, idMap: seq<nat>, m: seq<nat>, i: nat)
    requires i <= |rs|
  {
    && |idMap| <= |m| && (forall j :: 0 <= j < i ==> rs[j].id < |m|)
    && (|idMap| < |m| ==> exists j :: 0 <= j < i && rs[j].id == |m| - 1)
    && (forall j :: 0 <= j < i ==> m[rs[j].id] < i && rs[m[rs[j].id]].id == rs[j].id)
    && (forall x :: 0 <= x < |m| && m[x] != Before(idMap, x) ==> exists j :: 0 <= j < i && rs[j].id == x)
  }

  lemma PointStep(rs: seq<Record>, idMap: seq<nat>, m: seq<nat>, i: nat)
    requires i < |rs| && RebuiltUpTo(rs, idMap, m, i)
    ensures RebuiltUpTo(rs, idMap, Point(m, rs[i].id, i), i + 1)
  {
    var id := rs[i].id;
    var next := Point(m, id, i);
    forall j | 0 <= j < i + 1
      ensures rs[j].id < |next| && next[rs[j].id] < i + 1 && rs[next[rs[j].id]].id == rs[j].id
    {
      if rs[j].id != id {
        assert next[rs[j].id] == m[rs[j].id];
      }
    }
    if |idMap| < |next| {
      if |next| == |m| {
        var j :| 0 <= j < i && rs[j].id == |m| - 1;
        assert rs[j].id == |next| - 1;
      } else {
        assert rs[i].id == |next| - 1;
      }
    }
    forall x | 0 <= x < |next| && next[x] != Before(idMap, x)
      ensures exists j :: 0 <= j < i + 1 && rs[j].id == x
    {
      if x != id {
        assert x < |m| && m[x] != Before(idMap, x);
        var j :| 0 <= j < i && rs[j].id == x;
        assert 0 <= j < i + 1 && rs[j].id == x;
      } else {
        assert rs[i].id == x;
      }
    }
  }

  /**
   * The id-map rebuild of the struct-of-arrays layout: before an id beyond
   * the map is written, the map is grown to reach it, new entries holding
   * `ID_NOT_FOUND`, so the map ends just past the largest id beyond it. An
   * entry that differs from what it held before belongs to an id some record
   * carries.
   */
  method PointIdsGrowing(rs: seq<Record>, idMap: seq<nat>) returns (m: seq<nat>)
    ensures |idMap| <= |m| && IdsBelow(rs, |m|)
    ensures |idMap| < |m| ==> exists i :: 0 <= i < |rs| && rs[i].id == |m| - 1
    ensures PointsBack(rs, m)
    ensures forall x :: 0 <= x < |m| && m[x] != Before(idMap, x) ==> exists i :: 0 <= i < |rs| && rs[i].id == x
    ensures DistinctIds(rs) ==> MapsIds(rs, m)
  {
    m := idMap;
    for i := 0 to |rs|
      invariant RebuiltUpTo(rs, idMap, m, i)
    {
      PointStep(rs, idMap, m, i);
      m := Point(m, rs[i].id, i);
    }
  }
}
