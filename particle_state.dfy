/**
 * `env::ParticleState`, the 8-bit flag set a particle's state is stored in,
 * and its bitwise operators.
 */
module ParticleStates {
  /** The underlying `uint8_t`. */
  type ParticleState = bv8

  const ALIVE: ParticleState := 1        // moves, exerts and experiences forces
  const DEAD: ParticleState := 2         // no movement or interaction
  const PASSIVE: ParticleState := 4      // moves and feels forces but exerts none
  const STATIONARY: ParticleState := 8   // exerts forces but does not move
  const INVALID: ParticleState := 0x80   // marks padding slots in storage
  const EXERTING: ParticleState := ALIVE | STATIONARY
  const MOVABLE: ParticleState := ALIVE | PASSIVE
  const ALL: ParticleState := 0x7F       // every state except INVALID

  /** `a | b`: the flags of either operand. */
  function Or(a: ParticleState, b: ParticleState): (r: ParticleState)
    ensures forall k: nat :: k < 8 ==> (Bit(r, k) <==> Bit(a, k) || Bit(b, k))
  {
    OrBits(a, b);
    a | b
  }

  lemma OrBits(a: ParticleState, b: ParticleState)
    ensures forall k: nat :: k < 8 ==> (Bit(a | b, k) <==> Bit(a, k) || Bit(b, k))
  {
    forall k: nat | k < 8 ensures Bit(a | b, k) <==> Bit(a, k) || Bit(b, k) {
      assert (a | b) & FlagMask(k) == (a & FlagMask(k)) | (b & FlagMask(k));
    }
  }

  /** `a & b`: the flags of both operands. */
  function And(a: ParticleState, b: ParticleState): (r: ParticleState)
    ensures forall k: nat :: k < 8 ==> (Bit(r, k) <==> Bit(a, k) && Bit(b, k))
  {
    a & b
  }

  /** `~a`: computed on `unsigned int` and narrowed back to 8 bits. */
  function Not(a: ParticleState): (r: ParticleState)
    ensures forall k: nat :: k < 8 ==> (Bit(r, k) <==> !Bit(a, k))
  {
    ((!(a as bv32)) & 0xFF) as bv8
  }

  /** The mask of flag `k`, `1 << k`. */
  function FlagMask(k: nat): (m: ParticleState)
    requires k < 8
  {
    if k == 0 then 1 else if k == 1 then 2 else if k == 2 then 4 else if k == 3 then 8
    else if k == 4 then 0x10 else if k == 5 then 0x20 else if k == 6 then 0x40 else 0x80
  }

  /** Flag `k` is set. */
  predicate Bit(s: ParticleState, k: nat)
    requires k < 8
  {
    s & FlagMask(k) != 0
  }

  /** `a |= b` and `a &= b` assign `a | b` and `a & b`. */
  method OrAssign(a: ParticleState, b: ParticleState) returns (a': ParticleState)
    ensures a' == Or(a, b)
  {
    a' := a | b;
  }

  method AndAssign(a: ParticleState, b: ParticleState) returns (a': ParticleState)
    ensures a' == And(a, b)
  {
    a' := a & b;
  }

  /** The base states are five distinct single bits. */
  lemma BaseStatesAreBits()
    ensures ALIVE == 1 << 0 && DEAD == 1 << 1 && PASSIVE == 1 << 2
    ensures STATIONARY == 1 << 3 && INVALID == 1 << 7
    ensures ALIVE & DEAD == 0 && ALIVE & PASSIVE == 0 && ALIVE & STATIONARY == 0 && ALIVE & INVALID == 0
    ensures DEAD & PASSIVE == 0 && DEAD & STATIONARY == 0 && DEAD & INVALID == 0
    ensures PASSIVE & STATIONARY == 0 && PASSIVE & INVALID == 0 && STATIONARY & INVALID == 0
  {
  }

  /** The composite states and ALL: ALL covers every bit except INVALID's. */
  lemma CompositeStates()
    ensures EXERTING == 9 && MOVABLE == 5
    ensures ALL & INVALID == 0 && ALL | INVALID == 0xFF
    ensures Not(INVALID) == ALL
  {
  }

  /**
   * The test the storage layouts use to pick a slot: a state passes the
   * mask exactly when it shares a bit with `mask & ~INVALID`, so padding
   * slots (state INVALID) never pass, whatever the mask.
   */
  predicate PassesMask(state: ParticleState, mask: ParticleState) {
    state & And(mask, Not(INVALID)) != 0
  }

  lemma InvalidNeverPasses(mask: ParticleState)
    ensures !PassesMask(INVALID, mask)
    ensures PassesMask(ALIVE, ALL) && PassesMask(DEAD, ALL) && PassesMask(PASSIVE, ALL) && PassesMask(STATIONARY, ALL)
  {
  }
}
