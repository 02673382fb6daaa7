/**
 * Build-time checks on particles and interactions, and the dense
 * renumbering of user particle types (`uint16_t`) and ids (`uint32_t`)
 * onto 0 .. n-1 (`build_helpers_particle.h`). Each check that throws
 * `std::invalid_argument` returns `Err`. A `std::unordered_set` whose
 * iteration order matters is given as its elements in that order, which
 * the library leaves unspecified; a set has no repeats.
 */
module BuildParticles {
  import opened Ints
  import opened Wrappers
  import opened Seqs
  import ParticleStates

  /** A pair of types or ids, `std::pair<T, T>`. */
  type Pair = (nat, nat)

  datatype BuildError =
    | DuplicatePair(first: nat, second: nat)
    | UnknownType(t: nat)
    | TypesWithoutInteraction(types: set<nat>)
    | UnknownIds(id1: nat, id2: nat)
    | SelfInteraction(id: nat)
    | NonPositiveMass(id: nat)
    /** `std::bad_optional_access`: the mass message reads the id of a particle without one. */
    | MissingId
    /** `std::out_of_range` from `unordered_map::at`. */
    | NotFound

  /** A vector of three doubles, kept as reals: the build only copies them. */
  type Vec3 = (real, real, real)

  /** The value-initialised `vec3{}`. */
  const Zero: Vec3 := (0.0, 0.0, 0.0)

  /**
   * A user particle: an optional id, its type, kinematics, mass and state,
   * the optional snapshot fields, and user data (an integer stands for the
   * `std::any`).
   */
  datatype Particle = Particle(
    id: Option<nat>,
    ptype: nat,
    position: Vec3,
    velocity: Vec3,
    mass: real,
    state: ParticleStates.ParticleState,
    oldPosition: Option<Vec3>,
    oldForce: Option<Vec3>,
    force: Option<Vec3>,
    userData: int)

  // ---------------------------------------------------------------------
  // validate_no_duplicates: sort a copy, then look for equal neighbours
  // ---------------------------------------------------------------------

  /** `std::pair`'s `<=`: by the first component, then by the second. */
  predicate PairLe(a: Pair, b: Pair) {
    a.0 < b.0 || (a.0 == b.0 && a.1 <= b.1)
  }

  predicate SortedPairs(s: seq<Pair>) {
    forall i, j :: 0 <= i < j < |s| ==> PairLe(s[i], s[j])
  }

  function InsertPair(p: Pair, s: seq<Pair>): (r: seq<Pair>)
    requires SortedPairs(s)
    ensures SortedPairs(r)
    ensures multiset(r) == multiset(s) + multiset{p}
    ensures r[0] == p || (s != [] && r[0] == s[0])
    decreases |s|
  {
    if s == [] then [p]
    else if PairLe(p, s[0]) then
      SortedCons(p, s);
      [p] + s
    else
      var rest := InsertPair(p, s[1..]);
      assert s == [s[0]] + s[1..];
      SortedCons(s[0], rest);
      [s[0]] + rest
  }

  /** A pair no larger than the head of a sorted sequence can go in front of it. */
  lemma SortedCons(x: Pair, rest: seq<Pair>)
    requires SortedPairs(rest) && (rest != [] ==> PairLe(x, rest[0]))
    ensures SortedPairs([x] + rest)
  {
    var r := [x] + rest;
    forall i, j | 0 <= i < j < |r|
      ensures PairLe(r[i], r[j])
    {
      if i == 0 && j > 1 {
        assert PairLe(rest[0], rest[j - 1]);
      }
    }
  }

  /** `std::ranges::sort` on a copy of the pairs. */
  function SortPairs(s: seq<Pair>): (r: seq<Pair>)
    ensures SortedPairs(r)
    ensures multiset(r) == multiset(s)
    decreases |s|
  {
    if s == [] then []
    else
      assert s == [s[0]] + s[1..];
      InsertPair(s[0], SortPairs(s[1..]))
  }

  /** A sorted sequence without equal neighbours has no repeats at all. */
  lemma SortedNeighboursDistinct(s: seq<Pair>)
    requires SortedPairs(s)
    requires forall k :: 0 <= k < |s| - 1 ==> s[k] != s[k + 1]
    ensures Distinct(s)
  {
    forall i, j | 0 <= i < j < |s|
      ensures s[i] != s[j]
    {
      assert s[i] != s[i + 1] && PairLe(s[i], s[i + 1]) && PairLe(s[i + 1], s[j]);
    }
  }

  /** A value counted twice sits at two positions. */
  lemma CountedTwice<T>(s: seq<T>, x: T)
    requires multiset(s)[x] >= 2
    ensures !Distinct(s)
  {
    if Distinct(s) {
      DistinctCount(s, x);
    }
  }

  /**
   * `validate_no_duplicates`: fails exactly when some pair occurs twice,
   * naming a pair that does; the caller's sequence is not touched.
   */
  method ValidateNoDuplicates(pairs: seq<Pair>) returns (r: Result<(), BuildError>)
    ensures r.Ok? <==> Distinct(pairs)
    ensures r.Err? ==> r.error.DuplicatePair? && multiset(pairs)[(r.error.first, r.error.second)] >= 2
  {
    var sorted := SortPairs(pairs);
    var i := 0;
    while i + 1 < |sorted|
      invariant i <= |sorted|
      invariant forall k :: 0 <= k < i && k + 1 < |sorted| ==> sorted[k] != sorted[k + 1]
    {
      if sorted[i] == sorted[i + 1] {
        RepeatCount(sorted, i, i + 1);
        CountedTwice(pairs, sorted[i]);
        return Err(DuplicatePair(sorted[i].0, sorted[i].1));
      }
      i := i + 1;
    }
    SortedNeighboursDistinct(sorted);
    DistinctPermutation(pairs, sorted);
    return Ok(());
  }

  // ---------------------------------------------------------------------
  // validate_types and validate_ids
  // ---------------------------------------------------------------------

  /** Both members of every pair are in `known`. */
  predicate AllKnown(known: set<nat>, pairs: seq<Pair>) {
    forall i :: 0 <= i < |pairs| ==> pairs[i].0 in known && pairs[i].1 in known
  }

  /** The types with a (t, t) interaction. */
  function SelfTypes(pairs: seq<Pair>): (s: set<nat>)
    ensures forall t :: t in s <==> exists i :: 0 <= i < |pairs| && pairs[i] == (t, t)
  {
    set i | 0 <= i < |pairs| && pairs[i].0 == pairs[i].1 :: pairs[i].0
  }

  lemma SelfTypesSnoc(pairs: seq<Pair>, i: nat)
    requires i < |pairs|
    ensures SelfTypes(pairs[..i + 1]) ==
      SelfTypes(pairs[..i]) + (if pairs[i].0 == pairs[i].1 then {pairs[i].0} else {})
  {
    var a := pairs[..i];
    var b := pairs[..i + 1];
    assert forall k :: 0 <= k < i ==> b[k] == a[k];
    assert b[i] == pairs[i];
  }

  /**
   * `validate_types`: no pair twice, every type named by a pair is a user
   * type, and every user type has its own (t, t) interaction. The checks
   * run in that order and the first that fails decides the error.
   */
  method ValidateTypes(userTypes: set<nat>, typePairs: seq<Pair>) returns (r: Result<(), BuildError>)
    ensures r.Ok? <==> Distinct(typePairs) && AllKnown(userTypes, typePairs) && userTypes <= SelfTypes(typePairs)
    ensures !Distinct(typePairs) ==> r.Err? && r.error.DuplicatePair?
    ensures r.Err? && r.error.UnknownType? ==>
      r.error.t !in userTypes && exists i :: 0 <= i < |typePairs| && r.error.t in {typePairs[i].0, typePairs[i].1}
    ensures r.Err? && r.error.TypesWithoutInteraction? ==>
      AllKnown(userTypes, typePairs) && r.error.types == userTypes - SelfTypes(typePairs) && r.error.types != {}
    ensures r.Err? ==> r.error.DuplicatePair? || r.error.UnknownType? || r.error.TypesWithoutInteraction?
  {
    var dup := ValidateNoDuplicates(typePairs);
    if dup.Err? {
      return dup;
    }
    for i := 0 to |typePairs|
      invariant AllKnown(userTypes, typePairs[..i])
    {
      var (t1, t2) := typePairs[i];
      if t1 !in userTypes {
        return Err(UnknownType(t1));
      }
      if t2 !in userTypes {
        return Err(UnknownType(t2));
      }
      assert typePairs[..i + 1] == typePairs[..i] + [typePairs[i]];
    }
    assert typePairs[..|typePairs|] == typePairs;
    var without := userTypes;
    for i := 0 to |typePairs|
      invariant without == userTypes - SelfTypes(typePairs[..i])
      invariant AllKnown(userTypes, typePairs)
    {
      var (a, b) := typePairs[i];
      SelfTypesSnoc(typePairs, i);
      if a == b && a in without {
        without := without - {a};
      }
    }
    assert typePairs[..|typePairs|] == typePairs;
    if without != {} {
      return Err(TypesWithoutInteraction(without));
    }
    assert userTypes <= SelfTypes(typePairs) by {
      forall t | t in userTypes
        ensures t in SelfTypes(typePairs)
      {
        assert t !in without;
      }
    }
    return Ok(());
  }

  /** Every id pair names two known, different ids. */
  predicate ValidIdPairs(userIds: set<nat>, pairs: seq<Pair>) {
    forall i :: 0 <= i < |pairs| ==> pairs[i].0 in userIds && pairs[i].1 in userIds && pairs[i].0 != pairs[i].1
  }

  /**
   * `validate_ids`: no pair twice, and each pair names two user ids that
   * differ; the first offending pair decides the error.
   */
  method ValidateIds(userIds: set<nat>, idPairs: seq<Pair>) returns (r: Result<(), BuildError>)
    ensures r.Ok? <==> Distinct(idPairs) && ValidIdPairs(userIds, idPairs)
    ensures !Distinct(idPairs) ==> r.Err? && r.error.DuplicatePair?
    ensures r.Err? && r.error.UnknownIds? ==>
      (r.error.id1, r.error.id2) in idPairs && (r.error.id1 !in userIds || r.error.id2 !in userIds)
    ensures r.Err? && r.error.SelfInteraction? ==> (r.error.id, r.error.id) in idPairs && r.error.id in userIds
    ensures r.Err? ==> r.error.DuplicatePair? || r.error.UnknownIds? || r.error.SelfInteraction?
  {
    var dup := ValidateNoDuplicates(idPairs);
    if dup.Err? {
      return dup;
    }
    for i := 0 to |idPairs|
      invariant ValidIdPairs(userIds, idPairs[..i])
    {
      var (id1, id2) := idPairs[i];
      if id1 !in userIds || id2 !in userIds {
        return Err(UnknownIds(id1, id2));
      }
      if id1 == id2 {
        return Err(SelfInteraction(id1));
      }
      assert idPairs[..i + 1] == idPairs[..i] + [idPairs[i]];
    }
    assert idPairs[..|idPairs|] == idPairs;
    return Ok(());
  }

  /**
   * `validate_particles`: every mass must be positive. Building the
   * message reads the offending particle's id, which throws
   * `bad_optional_access` when it has none.
   */
  method ValidateParticles(particles: seq<Particle>) returns (r: Result<(), BuildError>)
    ensures r.Ok? <==> forall i :: 0 <= i < |particles| ==> particles[i].mass > 0.0
    ensures r.Err? ==> exists i :: 0 <= i < |particles| && particles[i].mass <= 0.0 &&
                         r.error == (if particles[i].id.Some? then NonPositiveMass(particles[i].id.value) else MissingId)
  {
    for i := 0 to |particles|
      invariant forall k :: 0 <= k < i ==> particles[k].mass > 0.0
    {
      var p := particles[i];
      if p.mass <= 0.0 {
        if p.id.Some? {
          return Err(NonPositiveMass(p.id.value));
        }
        return Err(MissingId);
      }
    }
    return Ok(());
  }

  // ---------------------------------------------------------------------
  // assign_missing_particle_ids
  // ---------------------------------------------------------------------

  /** Particle i had no id and was given one. */
  predicate WasAssigned(particles: seq<Particle>, ps: seq<Particle>, i: nat)
    requires |ps| == |particles|
  {
    i < |particles| && particles[i].id.None? && ps[i].id.Some?
  }

  /** The ids handed out among the first n particles. */
  function AssignedIds(particles: seq<Particle>, ps: seq<Particle>, n: nat): (s: set<nat>)
    requires |ps| == |particles| && n <= |ps|
  {
    set i | 0 <= i < n && WasAssigned(particles, ps, i) :: ps[i].id.value
  }

  /**
   * What `assign_missing_particle_ids` promises about the first n
   * particles: particles with an id keep it and everything else; each
   * particle without one gets, in order, the smallest id used neither by
   * the user nor by an earlier assignment; `ids` is the user's set plus
   * every assigned id.
   */
  ghost predicate AssignedPrefix(particles: seq<Particle>, userIds: set<nat>, ps: seq<Particle>, ids: set<nat>, n: nat)
  {
    && |ps| == |particles| && n <= |ps|
    && (forall i :: 0 <= i < n && particles[i].id.Some? ==> ps[i] == particles[i])
    && (forall i :: 0 <= i < n && particles[i].id.None? ==>
          ps[i].id.Some? && ps[i] == particles[i].(id := ps[i].id))
    && (forall i :: 0 <= i < n && WasAssigned(particles, ps, i) ==>
          ps[i].id.value !in userIds && ps[i].id.value !in AssignedIds(particles, ps, i))
    && (forall i, v: nat :: 0 <= i < n && WasAssigned(particles, ps, i) && v < ps[i].id.value ==>
          v in userIds || v in AssignedIds(particles, ps, i))
    && ids == userIds + AssignedIds(particles, ps, n)
  }

  lemma AssignedIdsSnoc(particles: seq<Particle>, ps: seq<Particle>, i: nat)
    requires |ps| == |particles| && i < |ps|
    ensures AssignedIds(particles, ps, i + 1) ==
      AssignedIds(particles, ps, i) + (if WasAssigned(particles, ps, i) then {ps[i].id.value} else {})
  {
  }

  /** Changing entries from position n on leaves the first n assignments alone. */
  lemma AssignedIdsPrefix(particles: seq<Particle>, ps: seq<Particle>, qs: seq<Particle>, n: nat)
    requires |ps| == |particles| == |qs| && n <= |ps|
    requires forall i :: 0 <= i < n ==> ps[i] == qs[i]
    ensures AssignedIds(particles, ps, n) == AssignedIds(particles, qs, n)
  {
    assert forall i :: 0 <= i < n ==> WasAssigned(particles, ps, i) == WasAssigned(particles, qs, i);
  }

  /** `while (user_ids.contains(id)) id++`: the first free id from `from` on. */
  method NextFree(ids: set<nat>, from: nat) returns (id: nat)
    ensures id >= from && id !in ids
    ensures forall v :: from <= v < id ==> v in ids
  {
    id := from;
    while id in ids
      invariant id >= from
      invariant forall v :: from <= v < id ==> v in ids
      decreases set v | v in ids && v >= id
    {
      ghost var above := set v | v in ids && v >= id;
      id := id + 1;
      assert id - 1 in above && id - 1 !in set v | v in ids && v >= id;
    }
  }

  /** A particle that has an id keeps it. */
  lemma KeepStep(particles: seq<Particle>, userIds: set<nat>, ps: seq<Particle>, ids: set<nat>, i: nat)
    requires AssignedPrefix(particles, userIds, ps, ids, i)
    requires i < |ps| && ps[i] == particles[i] && particles[i].id.Some?
    ensures AssignedPrefix(particles, userIds, ps, ids, i + 1)
  {
    AssignedIdsSnoc(particles, ps, i);
  }

  /** Giving particle i the first free id extends the promise to i + 1 particles. */
  lemma AssignStep(particles: seq<Particle>, userIds: set<nat>, ps: seq<Particle>, ids: set<nat>, i: nat, id: nat)
    requires AssignedPrefix(particles, userIds, ps, ids, i)
    requires i < |ps| && ps[i] == particles[i] && particles[i].id.None?
    requires id !in ids && forall v: nat :: v < id ==> v in ids
    ensures AssignedPrefix(particles, userIds, ps[i := ps[i].(id := Some(id))], ids + {id}, i + 1)
  {
    var qs := ps[i := ps[i].(id := Some(id))];
    AssignedIdsPrefix(particles, ps, qs, i);
    AssignedIdsSnoc(particles, qs, i);
  }

  /**
   * `assign_missing_particle_ids`: the particle vector and the id set are
   * updated through references; here the updated pair is returned. The
   * candidate starts at 0 and only grows.
   */
  method AssignMissingIds(particles: seq<Particle>, userIds: set<nat>) returns (ps: seq<Particle>, ids: set<nat>)
    ensures AssignedPrefix(particles, userIds, ps, ids, |particles|)
    ensures forall i :: 0 <= i < |ps| ==> ps[i].id.Some?
  {
    ps := particles;
    ids := userIds;
    var id: nat := 0;
    for i := 0 to |particles|
      invariant AssignedPrefix(particles, userIds, ps, ids, i)
      invariant forall k :: i <= k < |ps| ==> ps[k] == particles[k]
      invariant forall k :: 0 <= k < i ==> ps[k].id.Some?
      invariant forall v: nat :: v < id ==> v in ids
    {
      if ps[i].id.Some? {
        KeepStep(particles, userIds, ps, ids, i);
        continue;
      }
      id := NextFree(ids, id);
      AssignStep(particles, userIds, ps, ids, i, id);
      ps := ps[i := ps[i].(id := Some(id))];
      ids := ids + {id};
    }
  }

  /**
   * When the user's set holds every id the particles already have, and
   * those are distinct, all ids after assignment are distinct.
   */
  lemma AssignedIdsDistinct(particles: seq<Particle>, userIds: set<nat>, ps: seq<Particle>, ids: set<nat>)
    requires AssignedPrefix(particles, userIds, ps, ids, |particles|)
    requires forall i :: 0 <= i < |particles| && particles[i].id.Some? ==> particles[i].id.value in userIds
    requires forall i, j :: 0 <= i < j < |particles| && particles[i].id.Some? && particles[j].id.Some? ==>
      particles[i].id != particles[j].id
    ensures forall i, j :: 0 <= i < j < |ps| && ps[i].id.Some? && ps[j].id.Some? ==> ps[i].id != ps[j].id
  {
    forall i, j | 0 <= i < j < |ps| && ps[i].id.Some? && ps[j].id.Some?
      ensures ps[i].id != ps[j].id
    {
      if WasAssigned(particles, ps, j) {
        if WasAssigned(particles, ps, i) {
          assert ps[i].id.value in AssignedIds(particles, ps, j);
        }
      } else if WasAssigned(particles, ps, i) {
        assert ps[j] == particles[j];
      }
    }
  }

  // ---------------------------------------------------------------------
  // create_type_map and create_id_map
  // ---------------------------------------------------------------------

  /**
   * The map a `map[v[i]] = i` loop leaves: every value of v is a key, and
   * it maps to the last position holding it.
   */
  ghost predicate LastIndexMap(v: seq<nat>, m: map<nat, nat>) {
    && (forall x :: x in m <==> x in v)
    && (forall x :: x in m ==> m[x] < |v| && v[m[x]] == x)
    && (forall x, j :: x in m && m[x] < j < |v| ==> v[j] != x)
  }

  /** The renumbering loop: `map[v[i]] = i` for i = 0, 1, ... */
  method IndexMap(v: seq<nat>) returns (m: map<nat, nat>)
    ensures LastIndexMap(v, m)
  {
    m := map[];
    for i := 0 to |v|
      invariant LastIndexMap(v[..i], m)
    {
      assert v[..i + 1] == v[..i] + [v[i]];
      m := m[v[i] := i];
    }
    assert v[..|v|] == v;
  }

  /** Over values without repeats, the loop's map is a bijection onto 0 .. |v|-1. */
  lemma DistinctIndexMap(v: seq<nat>, m: map<nat, nat>)
    requires LastIndexMap(v, m) && Distinct(v)
    ensures forall i :: 0 <= i < |v| ==> m[v[i]] == i
    ensures forall x, y :: x in m && y in m && x != y ==> m[x] != m[y]
  {
  }

  /** `create_type_map`: the user types, in the set's iteration order, numbered 0, 1, ... */
  method CreateTypeMap(userTypes: seq<u16>) returns (m: map<nat, nat>)
    requires Distinct(userTypes)
    ensures forall t :: t in m <==> t in userTypes
    ensures forall i :: 0 <= i < |userTypes| ==> m[userTypes[i]] == i
    ensures forall x, y :: x in m && y in m && x != y ==> m[x] != m[y]
    ensures forall t :: t in m ==> m[t] < |userTypes|
  {
    m := IndexMap(userTypes);
    DistinctIndexMap(userTypes, m);
  }

  /** The ids named by some id interaction. */
  function Interacting(idPairs: seq<Pair>): (s: set<nat>)
    ensures forall x :: x in s <==> exists i :: 0 <= i < |idPairs| && (idPairs[i].0 == x || idPairs[i].1 == x)
  {
    (set i | 0 <= i < |idPairs| :: idPairs[i].0) + (set i | 0 <= i < |idPairs| :: idPairs[i].1)
  }

  /** The values of v in `keep`, in order. */
  function Filter(v: seq<nat>, keep: set<nat>, want: bool): (r: seq<nat>)
    ensures forall x :: x in r ==> x in v && (x in keep) == want
    ensures forall x :: x in v && (x in keep) == want ==> x in r
    ensures multiset(r) <= multiset(v)
    decreases |v|
  {
    if v == [] then []
    else
      assert v == [v[0]] + v[1..];
      var rest := Filter(v[1..], keep, want);
      if (v[0] in keep) == want then [v[0]] + rest else rest
  }

  lemma {:induction false} FilterSplit(v: seq<nat>, keep: set<nat>)
    ensures multiset(Filter(v, keep, true)) + multiset(Filter(v, keep, false)) == multiset(v)
    decreases |v|
  {
    if v != [] {
      assert v == [v[0]] + v[1..];
      FilterSplit(v[1..], keep);
    }
  }

  /**
   * `std::ranges::partition` with "is interacting": a rearrangement with
   * the kept values first. The library's partition is not stable; keeping
   * the original order within each part is one order it may produce.
   */
  function Partition(v: seq<nat>, keep: set<nat>): (r: seq<nat>)
    ensures multiset(r) == multiset(v)
    ensures |Filter(v, keep, true)| <= |r|
    ensures forall i :: 0 <= i < |r| ==> (r[i] in keep <==> i < |Filter(v, keep, true)|)
  {
    FilterSplit(v, keep);
    var front := Filter(v, keep, true);
    var back := Filter(v, keep, false);
    assert forall i :: 0 <= i < |front| ==> front[i] in front;
    assert forall i :: 0 <= i < |back| ==> back[i] in back;
    front + back
  }

  /**
   * `create_id_map` as written: the ids are copied into a vector of
   * `ParticleType` (16 bits), so each id is cut to its low 16 bits before
   * it is partitioned and numbered.
   */
  function TruncatedIds(userIds: seq<u32>): (v: seq<nat>)
    ensures |v| == |userIds|
    ensures forall i :: 0 <= i < |v| ==> v[i] == userIds[i] % U16_LIMIT
  {
    seq(|userIds|, i requires 0 <= i < |userIds| => userIds[i] % U16_LIMIT)
  }

  method CreateIdMapAsWritten(userIds: seq<u32>, idPairs: seq<Pair>) returns (m: map<nat, nat>)
    ensures LastIndexMap(Partition(TruncatedIds(userIds), Interacting(idPairs)), m)
  {
    var idVector := TruncatedIds(userIds);
    var ordered := Partition(idVector, Interacting(idPairs));
    m := IndexMap(ordered);
  }

  /** The keys of the as-written map are the truncated ids. */
  lemma TruncatedKeys(userIds: seq<u32>, keep: set<nat>, m: map<nat, nat>)
    requires LastIndexMap(Partition(TruncatedIds(userIds), keep), m)
    ensures forall x :: x in m <==> x in TruncatedIds(userIds)
  {
    var v := TruncatedIds(userIds);
    var p := Partition(v, keep);
    forall x
      ensures x in m <==> x in v
    {
      assert x in p <==> x in multiset(p);
      assert x in v <==> x in multiset(v);
    }
  }

  /**
   * Ids 0 and 65536 both become key 0, whatever the interactions: after
   * the loop 65536 has no entry, so a particle with that id makes the
   * later `id_map.at` throw.
   */
  lemma IdTruncationLosesIds(userIds: seq<u32>, keep: set<nat>, m: map<nat, nat>)
    requires userIds == [0, 0x1_0000]
    requires LastIndexMap(Partition(TruncatedIds(userIds), keep), m)
    ensures 0x1_0000 in userIds && 0x1_0000 !in m
    ensures m.Keys == {0}
  {
    TruncatedKeys(userIds, keep, m);
    var v := TruncatedIds(userIds);
    assert v[0] == 0 && v[1] == 0;
    assert forall x :: x in v ==> x == 0;
  }

  /**
   * `create_id_map` with the ids kept at 32 bits: a bijection from the
   * user ids onto 0 .. n-1 in which every id named by an id interaction
   * comes before every id that is not.
   */
  method CreateIdMap(userIds: seq<u32>, idPairs: seq<Pair>) returns (m: map<nat, nat>)
    requires Distinct(userIds)
    ensures forall x :: x in m <==> x in userIds
    ensures forall x :: x in m ==> m[x] < |userIds|
    ensures forall x, y :: x in m && y in m && x != y ==> m[x] != m[y]
    ensures forall x, y :: x in m && y in m && x in Interacting(idPairs) && y !in Interacting(idPairs) ==>
      m[x] < m[y]
  {
    var interacting := Interacting(idPairs);
    var ordered := Partition(userIds, interacting);
    DistinctPermutation(ordered, userIds);
    assert forall x :: x in ordered <==> x in multiset(userIds);
    m := IndexMap(ordered);
    DistinctIndexMap(ordered, m);
  }

  // ---------------------------------------------------------------------
  // create_particle_mappings and build_particles
  // ---------------------------------------------------------------------

  /**
   * `create_particle_mappings`: the three validations in order, then both
   * maps. Types and ids are given in their sets' iteration order. The id map
   * is the corrected `CreateIdMap`, which keeps the ids at 32 bits; the
   * library's `create_id_map` truncates them to 16 bits first
   * (`CreateIdMapAsWritten`, `IdTruncationLosesIds`).
   */
  method CreateParticleMappings(particles: seq<Particle>, userTypes: seq<u16>, userIds: seq<u32>,
                                typePairs: seq<Pair>, idPairs: seq<Pair>)
    returns (r: Result<(map<nat, nat>, map<nat, nat>), BuildError>)
    requires Distinct(userTypes) && Distinct(userIds)
    ensures r.Ok? <==>
      && Distinct(typePairs) && AllKnown(Elems(userTypes), typePairs)
      && Elems(userTypes) <= SelfTypes(typePairs)
      && Distinct(idPairs) && ValidIdPairs(Elems(userIds), idPairs)
      && (forall i :: 0 <= i < |particles| ==> particles[i].mass > 0.0)
    ensures r.Ok? ==> forall i :: 0 <= i < |userTypes| ==> userTypes[i] in r.value.0 && r.value.0[userTypes[i]] == i
    ensures r.Ok? ==> forall x :: x in r.value.1 <==> x in userIds
    ensures r.Ok? ==> forall x :: x in r.value.1 ==> r.value.1[x] < |userIds|
    ensures r.Ok? ==> forall x, y :: x in r.value.1 && y in r.value.1 && x != y ==> r.value.1[x] != r.value.1[y]
    ensures r.Ok? ==> forall x, y :: x in r.value.1 && y in r.value.1 && x in Interacting(idPairs) && y !in Interacting(idPairs) ==>
      r.value.1[x] < r.value.1[y]
  {
    var types := ValidateTypes(Elems(userTypes), typePairs);
    if types.Err? {
      return Err(types.error);
    }
    var ids := ValidateIds(Elems(userIds), idPairs);
    if ids.Err? {
      return Err(ids.error);
    }
    var masses := ValidateParticles(particles);
    if masses.Err? {
      return Err(masses.error);
    }
    var typeMap := CreateTypeMap(userTypes);
    var idMap := CreateIdMap(userIds, idPairs);
    return Ok((typeMap, idMap));
  }

  /** The members of a set given in iteration order. */
  function Elems(s: seq<nat>): (e: set<nat>)
    ensures forall x :: x in e <==> x in s
  {
    set x | x in s
  }

  /** The internal record built from one user particle. */
  datatype Record = Record(
    id: nat,
    ptype: nat,
    mass: real,
    state: ParticleStates.ParticleState,
    position: Vec3,
    velocity: Vec3,
    force: Vec3,
    oldForce: Vec3,
    oldPosition: Vec3,
    userData: int)

  /** `value_or(vec3{})`: the given vector, or zero when there is none. */
  function OrZero(v: Option<Vec3>): Vec3 {
    if v.Some? then v.value else Zero
  }

  /** The record of one user particle whose id and type are mapped. */
  function ToRecord(p: Particle, typeMap: map<nat, nat>, idMap: map<nat, nat>): Record
    requires p.id.Some? && p.id.value in idMap && p.ptype in typeMap
  {
    Record(idMap[p.id.value], typeMap[p.ptype], p.mass, p.state, p.position, p.velocity,
      OrZero(p.force), OrZero(p.oldForce), OrZero(p.oldPosition), p.userData)
  }

  /**
   * `build_particles`: every particle must have an id (a debug assertion).
   * Its id and type are looked up with `at`, which throws when either is
   * missing; mass, state, position, velocity and user data are copied, and
   * force, old force and old position default to zero when not given.
   */
  method BuildRecords(infos: seq<Particle>, typeMap: map<nat, nat>, idMap: map<nat, nat>)
    returns (r: Result<seq<Record>, BuildError>)
    requires forall i :: 0 <= i < |infos| ==> infos[i].id.Some?
    ensures r.Ok? <==> forall i :: 0 <= i < |infos| ==> infos[i].id.value in idMap && infos[i].ptype in typeMap
    ensures r.Err? ==> r.error == NotFound
    ensures r.Ok? ==> |r.value| == |infos|
    ensures r.Ok? ==> forall i :: 0 <= i < |infos| ==>
      && r.value[i].id == idMap[infos[i].id.value] && r.value[i].ptype == typeMap[infos[i].ptype]
      && r.value[i].mass == infos[i].mass && r.value[i].state == infos[i].state
      && r.value[i].position == infos[i].position && r.value[i].velocity == infos[i].velocity
      && r.value[i].userData == infos[i].userData
    ensures r.Ok? ==> forall i :: 0 <= i < |infos| ==>
      && (infos[i].force.Some? ==> r.value[i].force == infos[i].force.value)
      && (infos[i].oldForce.Some? ==> r.value[i].oldForce == infos[i].oldForce.value)
      && (infos[i].oldPosition.Some? ==> r.value[i].oldPosition == infos[i].oldPosition.value)
      && (infos[i].force.None? ==> r.value[i].force == Zero)
      && (infos[i].oldForce.None? ==> r.value[i].oldForce == Zero)
      && (infos[i].oldPosition.None? ==> r.value[i].oldPosition == Zero)
  {
    var records: seq<Record> := [];
    for i := 0 to |infos|
      invariant |records| == i
      invariant forall k :: 0 <= k < i ==> infos[k].id.value in idMap && infos[k].ptype in typeMap
      invariant forall k :: 0 <= k < i ==> records[k] == ToRecord(infos[k], typeMap, idMap)
    {
      var p := infos[i];
      if p.id.value !in idMap || p.ptype !in typeMap {
        return Err(NotFound);
      }
      records := records + [ToRecord(p, typeMap, idMap)];
    }
    return Ok(records);
  }
}
