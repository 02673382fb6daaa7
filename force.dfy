/**
 * `force::Force`: the cutoff bookkeeping every force carries, the
 * interaction records that name the pair a force acts between, and the
 * slot type of the force tables. The force laws (`eval`, `mix`) are
 * floating-point code: a force is its concrete type (`kind`), its own
 * parameters and its cutoff, with reals standing for doubles.
 */
module Forces {
  function Pow10(n: nat): (p: nat)
    ensures p >= 1
  {
    if n == 0 then 1 else 10 * Pow10(n - 1)
  }

  /** `no_cutoff` = 1.0e150: a force whose cutoff is this large has none. */
  const NO_CUTOFF: real := Pow10(150) as real

  datatype Force = Force(kind: nat, params: seq<real>, cutoff: real, cutoff2: real)
  {
    /** What the constructor sets up and `with_cutoff` keeps: the squared cutoff is stored beside it. */
    predicate Valid() {
      cutoff2 == cutoff * cutoff
    }

    /** `has_cutoff()`. */
    predicate HasCutoff() {
      cutoff < NO_CUTOFF
    }
  }

  /** `Force(cutoff)`, as the base of a force of the given kind. */
  function MakeForce(kind: nat, params: seq<real>, cutoff: real): (f: Force)
    ensures f.Valid()
    ensures f.kind == kind && f.params == params && f.cutoff == cutoff
  {
    Force(kind, params, cutoff, cutoff * cutoff)
  }

  /**
   * `with_cutoff(c)`: sets the cutoff and its square on the object and
   * returns a copy of it; everything else is unchanged.
   */
  function WithCutoff(f: Force, c: real): (g: Force)
    ensures g.Valid() && g.cutoff == c
    ensures g.kind == f.kind && g.params == f.params
    ensures g.HasCutoff() <==> c < NO_CUTOFF
  {
    f.(cutoff := c, cutoff2 := c * c)
  }

  /**
   * `equals`: forces of different concrete types or different cutoffs
   * are unequal; otherwise the defaulted `==` decides. Both early exits
   * agree with `==`, so `equals` is equality.
   */
  function Equals(a: Force, b: Force): (e: bool)
    ensures e <==> a == b
  {
    if a.kind != b.kind then false
    else if a.cutoff != b.cutoff then false
    else a == b
  }

  /** A slot of a force table: the internal `ForceSentinel`, or a force. */
  datatype Slot = Sentinel | Set(force: Force)

  /** The cutoff `compute_max_cutoff` reads: a sentinel is `Force(-1.0)`. */
  function SlotCutoff(s: Slot): real {
    match s
    case Sentinel => -1.0
    case Set(f) => f.cutoff
  }

  /** `TypeInteraction` / `IdInteraction`: the pair a force acts between, smaller key first. */
  datatype Interaction = Interaction(first: nat, second: nat, force: Force)

  function MakeInteraction(a: nat, b: nat, f: Force): (i: Interaction)
    ensures i.first <= i.second
    ensures (i.first == a && i.second == b) || (i.first == b && i.second == a)
    ensures i.force == f
  {
    Interaction(if a <= b then a else b, if a <= b then b else a, f)
  }

  /** Naming the two keys in either order gives the same interaction. */
  lemma InteractionSymmetric(a: nat, b: nat, f: Force)
    ensures MakeInteraction(a, b, f) == MakeInteraction(b, a, f)
  {
    var i := MakeInteraction(a, b, f);
    var j := MakeInteraction(b, a, f);
    assert i.first == j.first && i.second == j.second;
  }
}
