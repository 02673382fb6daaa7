/**
 * `force::internal::ForceTable`: two dense, symmetric N x N tables of
 * force slots, one indexed by implementation particle type and one by
 * implementation particle id, built from the user's interactions and the
 * user-to-implementation key maps. Type pairs nobody named are mixed from
 * the two types' self-interactions; id pairs nobody named get `NoForce`.
 * Cell (a, b) of an n x n table sits at n * a + b (`type_index`,
 * `id_index`), which is `PairMaps.Cell`.
 */
module ForceTables {
  import opened Ints
  import opened Wrappers
  import opened Forces
  import PairMaps

  datatype TableError =
    | NotFound  // `std::out_of_range` from `unordered_map::at`: an interaction names an unmapped key
    | CannotMix // `std::invalid_argument`: a missing type pair's self-interactions are of different force types

  /** How one force combines with another of the same concrete type (`A.mix(B)`). */
  type MixFn = (Force, Force) -> Force

  /* ---------------- Keys ---------------- */

  /** Both keys of every interaction are in the map, so no `at` throws. */
  predicate AllMapped(infos: seq<Interaction>, m: map<nat, u32>) {
    forall i :: 0 <= i < |infos| ==> infos[i].first in m && infos[i].second in m
  }

  /** The implementation key pairs of the interactions. */
  function Keys(infos: seq<Interaction>, m: map<nat, u32>): seq<(u64, u64)>
    requires AllMapped(infos, m)
  {
    seq(|infos|, i requires 0 <= i < |infos| => (m[infos[i].first] as u64, m[infos[i].second] as u64))
  }

  /** The distinct implementation keys the interactions mention. */
  function KeySet(keys: seq<(u64, u64)>): set<nat> {
    (set i | 0 <= i < |keys| :: keys[i].0 as nat) + (set i | 0 <= i < |keys| :: keys[i].1 as nat)
  }

  function ForcesOf(infos: seq<Interaction>): seq<Force> {
    seq(|infos|, i requires 0 <= i < |infos| => infos[i].force)
  }

  /**
   * The first loop of `build_type_forces` / `build_id_forces`: map both
   * keys of every interaction, throwing on the first unmapped one, and
   * count the distinct implementation keys; that count is N.
   */
  method CountKeys(infos: seq<Interaction>, m: map<nat, u32>) returns (r: Result<nat, TableError>)
    ensures r.Ok? <==> AllMapped(infos, m)
    ensures r.Err? ==> r.error == NotFound
    ensures r.Ok? ==> AllMapped(infos, m) && r.value == |KeySet(Keys(infos, m))|
  {
    var keys: set<nat> := {};
    for i := 0 to |infos|
      invariant AllMapped(infos[..i], m)
      invariant keys == KeySet(Keys(infos[..i], m))
    {
      if infos[i].first !in m || infos[i].second !in m {
        return Err(NotFound);
      }
      assert infos[..i + 1] == infos[..i] + [infos[i]];
      ghost var before := Keys(infos[..i], m);
      ghost var after := Keys(infos[..i + 1], m);
      assert after == before + [(m[infos[i].first] as u64, m[infos[i].second] as u64)];
      KeySetSnoc(before, (m[infos[i].first] as u64, m[infos[i].second] as u64));
      keys := keys + {m[infos[i].first] as nat, m[infos[i].second] as nat};
    }
    assert infos[..|infos|] == infos;
    return Ok(|keys|);
  }

  lemma KeySetSnoc(keys: seq<(u64, u64)>, k: (u64, u64))
    ensures KeySet(keys + [k]) == KeySet(keys) + {k.0 as nat, k.1 as nat}
  {
    var s := keys + [k];
    assert forall i :: 0 <= i < |keys| ==> s[i] == keys[i];
    assert s[|keys|] == k;
  }

  /* ---------------- Explicit entries ---------------- */

  /** A `PairMaps` table entry, pointing at an interaction, read as the slot it fills. */
  function Lift(o: Option<nat>, forces: seq<Force>): Slot {
    if o.Some? && o.value < |forces| then Set(forces[o.value]) else Sentinel
  }

  /**
   * The table after the second loop: every cell starts as a sentinel
   * (the variant's first alternative), and each interaction (a, b) is
   * written to cells (a, b) and (b, a), in order.
   */
  function Explicit(keys: seq<(u64, u64)>, forces: seq<Force>, n: nat): (t: seq<Slot>)
    requires PairMaps.AllInRange(keys, n)
  {
    var f := PairMaps.Fill(keys, n);
    seq(n * n, c requires 0 <= c < n * n => Lift(f[c], forces))
  }

  /**
   * Each explicit cell holds the force of the last interaction naming its
   * pair, in either order, and a sentinel where none does; so the explicit
   * table is symmetric.
   */
  lemma ExplicitCell(keys: seq<(u64, u64)>, forces: seq<Force>, n: nat, a: nat, b: nat)
    requires PairMaps.AllInRange(keys, n) && |forces| == |keys| && a < n && b < n
    ensures var w := PairMaps.Writer(keys, a, b);
      Explicit(keys, forces, n)[PairMaps.Cell(a, b, n)] == if w.Some? then Set(forces[w.value]) else Sentinel
    ensures Explicit(keys, forces, n)[PairMaps.Cell(a, b, n)] == Explicit(keys, forces, n)[PairMaps.Cell(b, a, n)]
  {
    PairMaps.FillIsWriter(keys, n, a, b);
    PairMaps.FillIsWriter(keys, n, b, a);
    PairMaps.WriterSymmetric(keys, a, b);
  }

  lemma ExplicitSymmetric(keys: seq<(u64, u64)>, forces: seq<Force>, n: nat)
    requires PairMaps.AllInRange(keys, n) && |forces| == |keys|
    ensures Symmetric(Explicit(keys, forces, n), n)
  {
    forall x: nat, y: nat | x < n && y < n
      ensures Explicit(keys, forces, n)[PairMaps.Cell(x, y, n)] == Explicit(keys, forces, n)[PairMaps.Cell(y, x, n)]
    {
      ExplicitCell(keys, forces, n, x, y);
    }
  }

  /** Writing interaction i into the table of the first i interactions. */
  lemma ExplicitSnoc(keys: seq<(u64, u64)>, forces: seq<Force>, i: nat, n: nat)
    requires i < |keys| && |forces| == |keys|
    requires PairMaps.AllInRange(keys[..i], n) && PairMaps.InRange(keys[i], n)
    ensures PairMaps.AllInRange(keys[..i + 1], n)
    ensures Explicit(keys[..i + 1], forces, n) ==
      Explicit(keys[..i], forces, n)[PairMaps.Cell(keys[i].0, keys[i].1, n) := Set(forces[i])]
                                    [PairMaps.Cell(keys[i].1, keys[i].0, n) := Set(forces[i])]
  {
    PairMaps.FillSnoc(keys, i, n);
  }

  /**
   * The second loop: write each interaction's force to both of its cells
   * of an n x n table of sentinels.
   */
  method FillExplicit(infos: seq<Interaction>, m: map<nat, u32>, n: nat) returns (t: seq<Slot>)
    requires AllMapped(infos, m) && PairMaps.AllInRange(Keys(infos, m), n)
    ensures t == Explicit(Keys(infos, m), ForcesOf(infos), n)
  {
    ghost var keys := Keys(infos, m);
    ghost var forces := ForcesOf(infos);
    t := seq(n * n, _ => Sentinel);
    assert keys[..0] == [];
    assert t == Explicit(keys[..0], forces, n);
    for i := 0 to |infos|
      invariant PairMaps.AllInRange(keys[..i], n)
      invariant t == Explicit(keys[..i], forces, n)
    {
      var a := m[infos[i].first];
      var b := m[infos[i].second];
      assert keys[i] == (a as u64, b as u64);
      ExplicitSnoc(keys, forces, i, n);
      t := t[PairMaps.Cell(a, b, n) := Set(infos[i].force)][PairMaps.Cell(b, a, n) := Set(infos[i].force)];
    }
    assert keys[..|infos|] == keys;
  }

  /* ---------------- Mixing missing type pairs ---------------- */

  /** A table of n x n slots that holds the same slot at (x, y) and (y, x). */
  ghost predicate Symmetric(t: seq<Slot>, n: nat) {
    |t| == n * n &&
    forall x: nat, y: nat :: x < n && y < n ==> t[PairMaps.Cell(x, y, n)] == t[PairMaps.Cell(y, x, n)]
  }

  function Diag(t: seq<Slot>, n: nat, x: nat): Slot
    requires |t| == n * n && x < n
  {
    t[PairMaps.Cell(x, x, n)]
  }

  /** Off-diagonal cell (x, y) was not set explicitly, so the third loop fills it. */
  predicate Pending(t: seq<Slot>, n: nat, x: nat, y: nat)
    requires |t| == n * n && x < n && y < n
  {
    x != y && t[PairMaps.Cell(x, y, n)].Sentinel?
  }

  /** `std::visit` on two slots can mix them: both sentinels, or forces of one concrete type. */
  predicate Mixable(fa: Slot, fb: Slot) {
    (fa.Sentinel? && fb.Sentinel?) || (fa.Set? && fb.Set? && fa.force.kind == fb.force.kind)
  }

  /** The mixed slot: a sentinel mixes to a sentinel, a force by its own rule. */
  function MixSlots(fa: Slot, fb: Slot, mix: MixFn): (s: Slot)
    requires Mixable(fa, fb)
    ensures s.Sentinel? <==> fa.Sentinel? && fb.Sentinel?
  {
    if fa.Sentinel? then Sentinel else Set(mix(fa.force, fb.force))
  }

  function Min(x: nat, y: nat): nat { if x <= y then x else y }
  function Max(x: nat, y: nat): nat { if x <= y then y else x }

  /** Cell (x, y) comes before cell (a, b) in the row-major walk of the third loop. */
  predicate Before(x: nat, y: nat, a: nat, b: nat) {
    x < a || (x == a && y < b)
  }

  /**
   * Every pending pair visited before (a, b) can be mixed. A pair is first
   * reached at (min, max): that visit writes both of its cells.
   */
  ghost predicate MixableBefore(t: seq<Slot>, n: nat, a: nat, b: nat) {
    |t| == n * n &&
    forall x: nat, y: nat :: x < n && y < n && Pending(t, n, x, y) && Before(Min(x, y), Max(x, y), a, b) ==>
      Mixable(Diag(t, n, x), Diag(t, n, y))
  }

  /** What cell (x, y) holds once the walk has reached (a, b). */
  function Target(t: seq<Slot>, n: nat, mix: MixFn, x: nat, y: nat, a: nat, b: nat): Slot
    requires MixableBefore(t, n, a, b) && x < n && y < n
  {
    if Pending(t, n, x, y) && Before(Min(x, y), Max(x, y), a, b) then
      MixSlots(Diag(t, n, Min(x, y)), Diag(t, n, Max(x, y)), mix)
    else t[PairMaps.Cell(x, y, n)]
  }

  ghost predicate MixedUpTo(t: seq<Slot>, u: seq<Slot>, n: nat, mix: MixFn, a: nat, b: nat) {
    MixableBefore(t, n, a, b) && |u| == n * n &&
    forall x: nat, y: nat :: x < n && y < n ==> u[PairMaps.Cell(x, y, n)] == Target(t, n, mix, x, y, a, b)
  }

  /** No pending pair has self-interactions of different force types: the third loop does not throw. */
  ghost predicate CleanMix(t: seq<Slot>, n: nat) {
    MixableBefore(t, n, n, 0)
  }

  /**
   * u is t with every pending pair (x, y) set to the mix of the smaller
   * key's self-interaction with the larger key's, and nothing else changed.
   */
  ghost predicate Mixed(t: seq<Slot>, u: seq<Slot>, n: nat, mix: MixFn) {
    MixedUpTo(t, u, n, mix, n, 0)
  }

  /** The walk leaves the diagonal alone, so the slots mixed are the explicit ones. */
  lemma DiagFixed(t: seq<Slot>, u: seq<Slot>, n: nat, mix: MixFn, a: nat, b: nat, x: nat)
    requires MixedUpTo(t, u, n, mix, a, b) && x < n
    ensures Diag(u, n, x) == Diag(t, n, x)
  {
    assert u[PairMaps.Cell(x, x, n)] == Target(t, n, mix, x, x, a, b);
  }

  /** A still-sentinel cell visited by the walk was not set explicitly. */
  lemma SentinelIsPending(t: seq<Slot>, u: seq<Slot>, n: nat, mix: MixFn, a: nat, b: nat)
    requires MixedUpTo(t, u, n, mix, a, b) && a < n && b < n && a != b
    requires u[PairMaps.Cell(a, b, n)].Sentinel?
    ensures Pending(t, n, a, b)
    ensures Before(Min(a, b), Max(a, b), a, b) ==> Diag(t, n, a).Sentinel? && Diag(t, n, b).Sentinel?
  {
    assert u[PairMaps.Cell(a, b, n)] == Target(t, n, mix, a, b, a, b);
  }

  lemma CellsApart(a: nat, b: nat, x: nat, y: nat, n: nat)
    requires a < n && b < n && x < n && y < n
    requires !(x == a && y == b) && !(x == b && y == a)
    ensures PairMaps.Cell(x, y, n) != PairMaps.Cell(a, b, n)
    ensures PairMaps.Cell(x, y, n) != PairMaps.Cell(b, a, n)
  {
    PairMaps.CellInjective(x, y, a, b, n);
    PairMaps.CellInjective(x, y, b, a, n);
  }

  /** Skipping cell (a, b), a diagonal or explicit one, keeps the walk's invariant. */
  lemma SkipStep(t: seq<Slot>, u: seq<Slot>, n: nat, mix: MixFn, a: nat, b: nat)
    requires MixedUpTo(t, u, n, mix, a, b) && Symmetric(t, n) && a < n && b < n
    requires a == b || u[PairMaps.Cell(a, b, n)].Set?
    ensures MixedUpTo(t, u, n, mix, a, b + 1)
  {
    if a < b {
      assert u[PairMaps.Cell(a, b, n)] == Target(t, n, mix, a, b, a, b);
      assert t[PairMaps.Cell(a, b, n)] == t[PairMaps.Cell(b, a, n)];
      assert !Pending(t, n, a, b) && !Pending(t, n, b, a);
    }
    forall x: nat, y: nat | x < n && y < n && Pending(t, n, x, y) && Before(Min(x, y), Max(x, y), a, b + 1)
      ensures Mixable(Diag(t, n, x), Diag(t, n, y))
    {
      assert Before(Min(x, y), Max(x, y), a, b);
    }
    forall x: nat, y: nat | x < n && y < n
      ensures u[PairMaps.Cell(x, y, n)] == Target(t, n, mix, x, y, a, b + 1)
    {
      assert u[PairMaps.Cell(x, y, n)] == Target(t, n, mix, x, y, a, b);
    }
  }

  /** Reaching pending pair (a, b) with mixable self-interactions extends `MixableBefore`. */
  lemma MixStepMixable(t: seq<Slot>, n: nat, a: nat, b: nat)
    requires MixableBefore(t, n, a, b) && a < n && b < n
    requires Mixable(Diag(t, n, a), Diag(t, n, b))
    ensures MixableBefore(t, n, a, b + 1)
  {
    forall x: nat, y: nat | x < n && y < n && Pending(t, n, x, y) && Before(Min(x, y), Max(x, y), a, b + 1)
      ensures Mixable(Diag(t, n, x), Diag(t, n, y))
    {
      if !Before(Min(x, y), Max(x, y), a, b) {
        assert (x == a && y == b) || (x == b && y == a);
      }
    }
  }

  /** One cell after the mix of pending pair (a, b) is written to both of its cells. */
  lemma MixStepCell(t: seq<Slot>, u: seq<Slot>, n: nat, mix: MixFn, a: nat, b: nat, x: nat, y: nat)
    requires MixedUpTo(t, u, n, mix, a, b) && Symmetric(t, n) && a < n && b < n && a != b
    requires u[PairMaps.Cell(a, b, n)].Sentinel?
    requires Mixable(Diag(t, n, a), Diag(t, n, b)) && MixableBefore(t, n, a, b + 1)
    requires x < n && y < n
    ensures var f := MixSlots(Diag(t, n, a), Diag(t, n, b), mix);
      u[PairMaps.Cell(a, b, n) := f][PairMaps.Cell(b, a, n) := f][PairMaps.Cell(x, y, n)] ==
      Target(t, n, mix, x, y, a, b + 1)
  {
    if (x == a && y == b) || (x == b && y == a) {
      SentinelIsPending(t, u, n, mix, a, b);
      assert t[PairMaps.Cell(a, b, n)] == t[PairMaps.Cell(b, a, n)];
      PairMaps.CellInjective(a, b, b, a, n);
    } else {
      CellsApart(a, b, x, y, n);
      assert u[PairMaps.Cell(x, y, n)] == Target(t, n, mix, x, y, a, b);
    }
  }

  /** Writing the mix into both cells of a pending pair keeps the walk's invariant. */
  lemma MixStep(t: seq<Slot>, u: seq<Slot>, n: nat, mix: MixFn, a: nat, b: nat)
    requires MixedUpTo(t, u, n, mix, a, b) && Symmetric(t, n) && a < n && b < n && a != b
    requires u[PairMaps.Cell(a, b, n)].Sentinel?
    requires Mixable(Diag(u, n, a), Diag(u, n, b))
    ensures var f := MixSlots(Diag(u, n, a), Diag(u, n, b), mix);
      MixedUpTo(t, u[PairMaps.Cell(a, b, n) := f][PairMaps.Cell(b, a, n) := f], n, mix, a, b + 1)
  {
    DiagFixed(t, u, n, mix, a, b, a);
    DiagFixed(t, u, n, mix, a, b, b);
    MixStepMixable(t, n, a, b);
    var f := MixSlots(Diag(t, n, a), Diag(t, n, b), mix);
    forall x: nat, y: nat | x < n && y < n
      ensures u[PairMaps.Cell(a, b, n) := f][PairMaps.Cell(b, a, n) := f][PairMaps.Cell(x, y, n)] ==
        Target(t, n, mix, x, y, a, b + 1)
    {
      MixStepCell(t, u, n, mix, a, b, x, y);
    }
  }

  /** A pending pair with unmixable self-interactions makes the whole table unmixable. */
  lemma MixFails(t: seq<Slot>, u: seq<Slot>, n: nat, mix: MixFn, a: nat, b: nat)
    requires MixedUpTo(t, u, n, mix, a, b) && a < n && b < n && a != b
    requires u[PairMaps.Cell(a, b, n)].Sentinel?
    requires !Mixable(Diag(u, n, a), Diag(u, n, b))
    ensures !CleanMix(t, n)
  {
    DiagFixed(t, u, n, mix, a, b, a);
    DiagFixed(t, u, n, mix, a, b, b);
    SentinelIsPending(t, u, n, mix, a, b);
    assert Before(Min(a, b), Max(a, b), n, 0);
  }

  /** Finishing row a is starting row a + 1. */
  lemma NextRow(t: seq<Slot>, u: seq<Slot>, n: nat, mix: MixFn, a: nat)
    requires MixedUpTo(t, u, n, mix, a, n)
    ensures MixedUpTo(t, u, n, mix, a + 1, 0)
  {
    forall x: nat, y: nat | x < n && y < n
      ensures Before(Min(x, y), Max(x, y), a, n) == Before(Min(x, y), Max(x, y), a + 1, 0)
    {
    }
    forall x: nat, y: nat | x < n && y < n
      ensures u[PairMaps.Cell(x, y, n)] == Target(t, n, mix, x, y, a + 1, 0)
    {
      assert u[PairMaps.Cell(x, y, n)] == Target(t, n, mix, x, y, a, n);
    }
  }

  /**
   * The third loop of `build_type_forces`: walk the cells in row-major
   * order and give every off-diagonal sentinel cell, and its mirror, the
   * mix of the two self-interactions; throw when they are of different
   * force types.
   */
  method MixMissing(t: seq<Slot>, n: nat, mix: MixFn) returns (r: Result<seq<Slot>, TableError>)
    requires Symmetric(t, n)
    ensures r.Ok? <==> CleanMix(t, n)
    ensures r.Err? ==> r.error == CannotMix
    ensures r.Ok? ==> Mixed(t, r.value, n, mix)
  {
    var u := t;
    for a := 0 to n
      invariant MixedUpTo(t, u, n, mix, a, 0)
    {
      for b := 0 to n
        invariant MixedUpTo(t, u, n, mix, a, b)
      {
        if a == b || !u[PairMaps.Cell(a, b, n)].Sentinel? {
          SkipStep(t, u, n, mix, a, b);
          continue;
        }
        var fa := u[PairMaps.Cell(a, a, n)];
        var fb := u[PairMaps.Cell(b, b, n)];
        if !Mixable(fa, fb) {
          MixFails(t, u, n, mix, a, b);
          return Err(CannotMix);
        }
        var f := MixSlots(fa, fb, mix);
        MixStep(t, u, n, mix, a, b);
        u := u[PairMaps.Cell(a, b, n) := f][PairMaps.Cell(b, a, n) := f];
      }
      NextRow(t, u, n, mix, a);
    }
    return Ok(u);
  }

  /** Mixing keeps every explicit entry and the symmetry of the table. */
  lemma MixedKeepsExplicit(t: seq<Slot>, u: seq<Slot>, n: nat, mix: MixFn)
    requires Mixed(t, u, n, mix)
    ensures forall x: nat, y: nat :: x < n && y < n && t[PairMaps.Cell(x, y, n)].Set? ==>
      u[PairMaps.Cell(x, y, n)] == t[PairMaps.Cell(x, y, n)]
    ensures Symmetric(t, n) ==> Symmetric(u, n)
  {
    forall x: nat, y: nat | x < n && y < n
      ensures t[PairMaps.Cell(x, y, n)].Set? ==> u[PairMaps.Cell(x, y, n)] == t[PairMaps.Cell(x, y, n)]
      ensures Symmetric(t, n) ==> u[PairMaps.Cell(x, y, n)] == u[PairMaps.Cell(y, x, n)]
    {
      assert u[PairMaps.Cell(x, y, n)] == Target(t, n, mix, x, y, n, 0);
      assert u[PairMaps.Cell(y, x, n)] == Target(t, n, mix, y, x, n, 0);
    }
  }

  /**
   * What the debug check of `validate_force_tables` asks of the type
   * table: when every type's self-interaction is set, the mixed table has
   * no sentinel left.
   */
  lemma MixedHasNoSentinel(t: seq<Slot>, u: seq<Slot>, n: nat, mix: MixFn)
    requires Mixed(t, u, n, mix)
    requires forall x: nat :: x < n ==> Diag(t, n, x).Set?
    ensures forall x: nat, y: nat :: x < n && y < n ==> u[PairMaps.Cell(x, y, n)].Set?
  {
    forall x: nat, y: nat | x < n && y < n
      ensures u[PairMaps.Cell(x, y, n)].Set?
    {
      assert u[PairMaps.Cell(x, y, n)] == Target(t, n, mix, x, y, n, 0);
      assert Diag(t, n, Min(x, y)).Set?;
    }
  }

  /** A type with a self-interaction has a force on its diagonal cell. */
  lemma SelfInteractionOnDiagonal(keys: seq<(u64, u64)>, forces: seq<Force>, n: nat, x: nat, i: nat)
    requires PairMaps.AllInRange(keys, n) && |forces| == |keys| && x < n
    requires i < |keys| && keys[i].0 as nat == x && keys[i].1 as nat == x
    ensures Diag(Explicit(keys, forces, n), n, x).Set?
  {
    ExplicitCell(keys, forces, n, x, x);
    assert PairMaps.Names(keys[i], x, x);
  }

  /* ---------------- Filling missing id pairs ---------------- */

  /** What the id table holds at (x, y): `NoForce` for an off-diagonal sentinel. */
  function NoForceCell(t: seq<Slot>, n: nat, noForce: Force, x: nat, y: nat): Slot
    requires |t| == n * n && x < n && y < n
  {
    if x != y && t[PairMaps.Cell(x, y, n)].Sentinel? then Set(noForce) else t[PairMaps.Cell(x, y, n)]
  }

  ghost predicate FilledUpTo(t: seq<Slot>, u: seq<Slot>, n: nat, noForce: Force, a: nat, b: nat) {
    |t| == n * n && |u| == n * n &&
    forall x: nat, y: nat :: x < n && y < n ==>
      u[PairMaps.Cell(x, y, n)] == if Before(x, y, a, b) then NoForceCell(t, n, noForce, x, y) else t[PairMaps.Cell(x, y, n)]
  }

  lemma FillStep(t: seq<Slot>, u: seq<Slot>, n: nat, noForce: Force, a: nat, b: nat, u': seq<Slot>)
    requires FilledUpTo(t, u, n, noForce, a, b) && a < n && b < n
    requires u' == if a != b && u[PairMaps.Cell(a, b, n)].Sentinel? then u[PairMaps.Cell(a, b, n) := Set(noForce)] else u
    ensures FilledUpTo(t, u', n, noForce, a, b + 1)
  {
    forall x: nat, y: nat | x < n && y < n
      ensures u'[PairMaps.Cell(x, y, n)] ==
        if Before(x, y, a, b + 1) then NoForceCell(t, n, noForce, x, y) else t[PairMaps.Cell(x, y, n)]
    {
      PairMaps.CellInjective(x, y, a, b, n);
    }
  }

  /**
   * The third loop of `build_id_forces`: every off-diagonal sentinel cell
   * becomes `NoForce`; the diagonal and explicit entries stay.
   */
  method FillNoForce(t: seq<Slot>, n: nat, noForce: Force) returns (u: seq<Slot>)
    requires |t| == n * n
    ensures |u| == n * n
    ensures forall x: nat, y: nat :: x < n && y < n ==> u[PairMaps.Cell(x, y, n)] == NoForceCell(t, n, noForce, x, y)
  {
    u := t;
    for a := 0 to n
      invariant FilledUpTo(t, u, n, noForce, a, 0)
    {
      for b := 0 to n
        invariant FilledUpTo(t, u, n, noForce, a, b)
      {
        ghost var u' := if a != b && u[PairMaps.Cell(a, b, n)].Sentinel? then u[PairMaps.Cell(a, b, n) := Set(noForce)] else u;
        FillStep(t, u, n, noForce, a, b, u');
        if a != b && u[PairMaps.Cell(a, b, n)].Sentinel? {
          u := u[PairMaps.Cell(a, b, n) := Set(noForce)];
        }
      }
    }
  }

  /** Filling with `NoForce` keeps a symmetric table symmetric and its diagonal unchanged. */
  lemma NoForceSymmetric(t: seq<Slot>, u: seq<Slot>, n: nat, noForce: Force)
    requires Symmetric(t, n) && |u| == n * n
    requires forall x: nat, y: nat :: x < n && y < n ==> u[PairMaps.Cell(x, y, n)] == NoForceCell(t, n, noForce, x, y)
    ensures Symmetric(u, n)
    ensures forall x: nat :: x < n ==> Diag(u, n, x) == Diag(t, n, x)
  {
    forall x: nat, y: nat | x < n && y < n
      ensures u[PairMaps.Cell(x, y, n)] == u[PairMaps.Cell(y, x, n)]
    {
      assert t[PairMaps.Cell(x, y, n)] == t[PairMaps.Cell(y, x, n)];
    }
  }

  /**
   * What the debug check of `validate_force_tables` asks of the id table:
   * where no interaction pairs an id with itself, exactly the diagonal
   * holds sentinels; and the table stays symmetric.
   */
  lemma IdTableShape(keys: seq<(u64, u64)>, forces: seq<Force>, n: nat, noForce: Force, u: seq<Slot>)
    requires PairMaps.AllInRange(keys, n) && |forces| == |keys| && |u| == n * n
    requires forall x: nat, y: nat :: x < n && y < n ==>
      u[PairMaps.Cell(x, y, n)] == NoForceCell(Explicit(keys, forces, n), n, noForce, x, y)
    requires forall i :: 0 <= i < |keys| ==> keys[i].0 != keys[i].1
    ensures forall x: nat, y: nat :: x < n && y < n ==> (u[PairMaps.Cell(x, y, n)].Sentinel? <==> x == y)
    ensures Symmetric(u, n)
  {
    var t := Explicit(keys, forces, n);
    forall x: nat, y: nat | x < n && y < n
      ensures u[PairMaps.Cell(x, y, n)].Sentinel? <==> x == y
      ensures u[PairMaps.Cell(x, y, n)] == u[PairMaps.Cell(y, x, n)]
    {
      ExplicitCell(keys, forces, n, x, y);
      if x == y {
        assert forall i :: 0 <= i < |keys| ==> !PairMaps.Names(keys[i], x, y);
      }
    }
  }

  /* ---------------- Largest cutoff ---------------- */

  /**
   * `max_cutoff` after scanning s from a start value: every slot when
   * `skipSentinels` is false, only forces otherwise; a sentinel reads as
   * cutoff -1.
   */
  function MaxCutoff(start: real, s: seq<Slot>, skipSentinels: bool): (m: real)
    ensures m >= start
    ensures forall i :: 0 <= i < |s| && (!skipSentinels || s[i].Set?) ==> m >= SlotCutoff(s[i])
    ensures m == start || exists i :: 0 <= i < |s| && (!skipSentinels || s[i].Set?) && m == SlotCutoff(s[i])
    decreases |s|
  {
    if s == [] then start
    else
      var k := |s| - 1;
      var m := MaxCutoff(start, s[..k], skipSentinels);
      assert forall i :: 0 <= i < k ==> s[..k][i] == s[i];
      if (skipSentinels && s[k].Sentinel?) || !(m < SlotCutoff(s[k])) then m else SlotCutoff(s[k])
  }

  /* ---------------- The table ---------------- */

  class ForceTable {
    var nTypes: nat
    var nIds: nat
    var typeForces: seq<Slot>
    var idForces: seq<Slot>
    var maxCutoff: real

    /** Both tables are n x n and symmetric, and `max_cutoff` is their largest cutoff. */
    ghost predicate Valid()
      reads this
    {
      Symmetric(typeForces, nTypes) && Symmetric(idForces, nIds) &&
      maxCutoff == MaxCutoff(MaxCutoff(0.0, typeForces, false), idForces, true)
    }

    constructor Empty()
      ensures nTypes == 0 && nIds == 0 && typeForces == [] && idForces == [] && maxCutoff == 0.0
    {
      nTypes, nIds, typeForces, idForces, maxCutoff := 0, 0, [], [], 0.0;
    }

    /**
     * `build_type_forces`. The implementation types must be dense: every
     * mapped type is below their count N, or the writes leave the table.
     */
    method BuildTypeForces(infos: seq<Interaction>, typeMap: map<nat, u32>, mix: MixFn)
      returns (r: Result<(), TableError>)
      requires AllMapped(infos, typeMap) ==>
        PairMaps.AllInRange(Keys(infos, typeMap), |KeySet(Keys(infos, typeMap))|)
      modifies this
      ensures !AllMapped(infos, typeMap) ==> r == Err(NotFound)
      ensures AllMapped(infos, typeMap) ==>
        var keys := Keys(infos, typeMap);
        var t := Explicit(keys, ForcesOf(infos), |KeySet(keys)|);
        nTypes == |KeySet(keys)| &&
        (r.Ok? <==> CleanMix(t, nTypes)) && (r.Err? ==> r.error == CannotMix) &&
        (r.Ok? ==> Mixed(t, typeForces, nTypes, mix))
      ensures nIds == old(nIds) && idForces == old(idForces) && maxCutoff == old(maxCutoff)
    {
      var count := CountKeys(infos, typeMap);
      if count.Err? {
        return Err(NotFound);
      }
      nTypes := count.value;
      var t := FillExplicit(infos, typeMap, nTypes);
      ExplicitSymmetric(Keys(infos, typeMap), ForcesOf(infos), nTypes);
      var mixed := MixMissing(t, nTypes, mix);
      if mixed.Err? {
        return Err(mixed.error);
      }
      typeForces := mixed.value;
      return Ok(());
    }

    /** `build_id_forces`, under the same density demand on the implementation ids. */
    method BuildIdForces(infos: seq<Interaction>, idMap: map<nat, u32>, noForce: Force)
      returns (r: Result<(), TableError>)
      requires AllMapped(infos, idMap) ==>
        PairMaps.AllInRange(Keys(infos, idMap), |KeySet(Keys(infos, idMap))|)
      modifies this
      ensures r.Ok? <==> AllMapped(infos, idMap)
      ensures r.Err? ==> r.error == NotFound
      ensures r.Ok? ==>
        var keys := Keys(infos, idMap);
        nIds == |KeySet(keys)| && |idForces| == nIds * nIds &&
        forall x: nat, y: nat :: x < nIds && y < nIds ==>
          idForces[PairMaps.Cell(x, y, nIds)] == NoForceCell(Explicit(keys, ForcesOf(infos), nIds), nIds, noForce, x, y)
      ensures nTypes == old(nTypes) && typeForces == old(typeForces) && maxCutoff == old(maxCutoff)
    {
      var count := CountKeys(infos, idMap);
      if count.Err? {
        return Err(NotFound);
      }
      nIds := count.value;
      var t := FillExplicit(infos, idMap, nIds);
      idForces := FillNoForce(t, nIds, noForce);
      return Ok(());
    }

    /** `compute_max_cutoff`: the larger of 0 and every type cutoff, then every id force's cutoff. */
    method ComputeMaxCutoff()
      modifies this
      ensures maxCutoff == MaxCutoff(MaxCutoff(0.0, typeForces, false), idForces, true)
      ensures nTypes == old(nTypes) && nIds == old(nIds)
      ensures typeForces == old(typeForces) && idForces == old(idForces)
    {
      var types, ids := typeForces, idForces;
      var m := 0.0;
      for i := 0 to |types|
        invariant m == MaxCutoff(0.0, types[..i], false)
      {
        assert types[..i + 1][..i] == types[..i];
        if m < SlotCutoff(types[i]) {
          m := SlotCutoff(types[i]);
        }
      }
      assert types[..|types|] == types;
      ghost var typeMax := m;
      for i := 0 to |ids|
        invariant m == MaxCutoff(typeMax, ids[..i], true)
      {
        assert ids[..i + 1][..i] == ids[..i];
        if ids[i].Set? && m < SlotCutoff(ids[i]) {
          m := SlotCutoff(ids[i]);
        }
      }
      assert ids[..|ids|] == ids;
      maxCutoff := m;
    }

    /** `get_max_cutoff()`: at least 0 and at least every force's cutoff. */
    function GetMaxCutoff(): (m: real)
      reads this
      requires Valid()
      ensures m >= 0.0
      ensures forall c :: 0 <= c < |typeForces| ==> m >= SlotCutoff(typeForces[c])
      ensures forall c :: 0 <= c < |idForces| && idForces[c].Set? ==> m >= SlotCutoff(idForces[c])
    {
      maxCutoff
    }

    /** `get_type_force(a, b)`: the same slot in either order. */
    function GetTypeForce(a: u16, b: u16): (s: Slot)
      reads this
      requires Valid() && a < nTypes && b < nTypes
      ensures s == typeForces[PairMaps.Cell(b, a, nTypes)]
    {
      typeForces[PairMaps.Cell(a, b, nTypes)]
    }

    /** `get_id_force(a, b)`: the same slot in either order. */
    function GetIdForce(a: u32, b: u32): (s: Slot)
      reads this
      requires Valid() && a < nIds && b < nIds
      ensures s == idForces[PairMaps.Cell(b, a, nIds)]
    {
      idForces[PairMaps.Cell(a, b, nIds)]
    }
  }

  /**
   * The `ForceTable` constructor: build the type table, then the id
   * table, then the largest cutoff; any throw leaves no table.
   */
  method NewForceTable(typeInfos: seq<Interaction>, idInfos: seq<Interaction>,
                       typeMap: map<nat, u32>, idMap: map<nat, u32>, mix: MixFn, noForce: Force)
    returns (r: Result<ForceTable, TableError>)
    requires AllMapped(typeInfos, typeMap) ==>
      PairMaps.AllInRange(Keys(typeInfos, typeMap), |KeySet(Keys(typeInfos, typeMap))|)
    requires AllMapped(idInfos, idMap) ==>
      PairMaps.AllInRange(Keys(idInfos, idMap), |KeySet(Keys(idInfos, idMap))|)
    ensures r.Ok? <==>
      AllMapped(typeInfos, typeMap) && AllMapped(idInfos, idMap) &&
      CleanMix(Explicit(Keys(typeInfos, typeMap), ForcesOf(typeInfos), |KeySet(Keys(typeInfos, typeMap))|),
               |KeySet(Keys(typeInfos, typeMap))|)
    ensures r.Ok? ==> fresh(r.value) && r.value.Valid()
    ensures r.Ok? ==>
      var keys := Keys(typeInfos, typeMap);
      r.value.nTypes == |KeySet(keys)| &&
      Mixed(Explicit(keys, ForcesOf(typeInfos), r.value.nTypes), r.value.typeForces, r.value.nTypes, mix)
    ensures r.Ok? ==>
      var keys := Keys(idInfos, idMap);
      r.value.nIds == |KeySet(keys)| && |r.value.idForces| == r.value.nIds * r.value.nIds &&
      forall x: nat, y: nat :: x < r.value.nIds && y < r.value.nIds ==>
        r.value.idForces[PairMaps.Cell(x, y, r.value.nIds)] ==
          NoForceCell(Explicit(keys, ForcesOf(idInfos), r.value.nIds), r.value.nIds, noForce, x, y)
  {
    var table := new ForceTable.Empty();
    var built := table.BuildTypeForces(typeInfos, typeMap, mix);
    if built.Err? {
      return Err(built.error);
    }
    built := table.BuildIdForces(idInfos, idMap, noForce);
    if built.Err? {
      return Err(built.error);
    }
    ghost var typeKeys := Keys(typeInfos, typeMap);
    ghost var idKeys := Keys(idInfos, idMap);
    ExplicitSymmetric(typeKeys, ForcesOf(typeInfos), table.nTypes);
    MixedKeepsExplicit(Explicit(typeKeys, ForcesOf(typeInfos), table.nTypes), table.typeForces, table.nTypes, mix);
    ExplicitSymmetric(idKeys, ForcesOf(idInfos), table.nIds);
    NoForceSymmetric(Explicit(idKeys, ForcesOf(idInfos), table.nIds), table.idForces, table.nIds, noForce);
    table.ComputeMaxCutoff();
    return Ok(table);
  }
}
