/**
 * `shared::Trigger`: the predicate over the simulation's step and time that
 * decides when a monitor or controller runs. Triggers are built from a few
 * constructors and combined with `&&`, `||` and `!`; `periodically` carries
 * mutable state (the time it last fired) inside its closure, so evaluating
 * a trigger may change it.
 */
module Triggers {
  import opened Ints

  /** What a trigger may look at: the current step (`size_t`) and time. */
  datatype Context = Context(step: u64, time: real)

  /** The closure behind a trigger, with the state it has captured. */
  datatype Node =
    | Every(n: u64, offset: u64)
    | After(afterStep: u64)
    | Between(start: u64, end: u64)
    | AtStep(atStep: u64)
    | Periodically(period: real, last: real)
    | AfterTime(t: real)
    | BetweenTime(tStart: real, tEnd: real)
    | Always
    | And(lhs: Node, rhs: Node)
    | Or(lhs: Node, rhs: Node)
    | Not(inner: Node)

  /** `every(N, offset)` divides by N, so every such node needs N > 0. */
  predicate WellFormed(t: Node) {
    match t
    case Every(n, _) => n > 0
    case And(l, r) => WellFormed(l) && WellFormed(r)
    case Or(l, r) => WellFormed(l) && WellFormed(r)
    case Not(i) => WellFormed(i)
    case _ => true
  }

  /** No `periodically` inside: evaluating never changes the trigger. */
  predicate Stateless(t: Node) {
    match t
    case Periodically(_, _) => false
    case And(l, r) => Stateless(l) && Stateless(r)
    case Or(l, r) => Stateless(l) && Stateless(r)
    case Not(i) => Stateless(i)
    case _ => true
  }

  /** `periodically(period, offset)`: `last` starts at offset - period. */
  function MakePeriodically(period: real, offset: real): (t: Node)
    ensures t.Periodically? && t.last + period == offset
  {
    Periodically(period, offset - period)
  }

  /**
   * `operator()`: whether the trigger fires in `ctx`, and the trigger as it
   * is afterwards. `&&` and `||` short-circuit, so the right operand is not
   * evaluated (and keeps its state) when the left one decides.
   */
  function Eval(t: Node, ctx: Context): (res: (bool, Node))
    requires WellFormed(t)
    ensures WellFormed(res.1)
    ensures Stateless(t) ==> res.1 == t
  {
    match t
    case Every(n, offset) => (((ctx.step + offset) % U64_LIMIT) % n == 0, t)
    case After(s) => (ctx.step >= s, t)
    case Between(s, e) => (ctx.step >= s && ctx.step < e, t)
    case AtStep(s) => (ctx.step == s, t)
    case Periodically(period, last) =>
      if ctx.time - last >= period then (true, Periodically(period, ctx.time)) else (false, t)
    case AfterTime(x) => (ctx.time >= x, t)
    case BetweenTime(a, b) => (ctx.time >= a && ctx.time < b, t)
    case Always => (true, t)
    case And(l, r) =>
      var (fl, l') := Eval(l, ctx);
      if !fl then (false, And(l', r))
      else
        var (fr, r') := Eval(r, ctx);
        (fr, And(l', r'))
    case Or(l, r) =>
      var (fl, l') := Eval(l, ctx);
      if fl then (true, Or(l', r))
      else
        var (fr, r') := Eval(r, ctx);
        (fr, Or(l', r'))
    case Not(i) =>
      var (fi, i') := Eval(i, ctx);
      (!fi, Not(i'))
  }

  /** A trigger object; calling it may update the state its closure holds. */
  class Trigger {
    var node: Node

    constructor(node: Node)
      requires WellFormed(node)
      ensures this.node == node
    {
      this.node := node;
    }

    predicate Valid()
      reads this
    {
      WellFormed(node)
    }

    method Call(ctx: Context) returns (fired: bool)
      requires Valid()
      modifies this
      ensures Valid()
      ensures (fired, node) == Eval(old(node), ctx)
    {
      var res := Eval(node, ctx);
      fired := res.0;
      node := res.1;
    }
  }

  // ---------------------------------------------------------------------
  // Properties
  // ---------------------------------------------------------------------

  /** `every(N, offset)` fires iff (step + offset) mod N == 0, with `size_t` wrap-around. */
  lemma EveryFires(n: u64, offset: u64, ctx: Context)
    requires n > 0
    ensures Eval(Every(n, offset), ctx).0 <==> ((ctx.step + offset) % U64_LIMIT) % n == 0
    ensures ctx.step + offset < U64_LIMIT ==> (Eval(Every(n, offset), ctx).0 <==> (ctx.step + offset) % n == 0)
  {
    var x := ctx.step + offset;
    if x < U64_LIMIT {
      assert x % U64_LIMIT == x;
    }
  }

  /** `after`, `at_step` and `between` (end exclusive), and `always`. */
  lemma StepTriggers(s: u64, e: u64, ctx: Context)
    ensures Eval(After(s), ctx).0 <==> ctx.step >= s
    ensures Eval(AtStep(s), ctx).0 <==> ctx.step == s
    ensures Eval(Between(s, e), ctx).0 <==> s <= ctx.step < e
    ensures !Eval(Between(s, e), Context(e, ctx.time)).0
    ensures Eval(Always, ctx).0
  {
  }

  /** On stateless operands the combinators are pointwise boolean operations. */
  lemma {:induction false} CombinatorsPointwise(l: Node, r: Node, ctx: Context)
    requires WellFormed(l) && WellFormed(r) && Stateless(l) && Stateless(r)
    ensures Eval(And(l, r), ctx).0 == (Eval(l, ctx).0 && Eval(r, ctx).0)
    ensures Eval(Or(l, r), ctx).0 == (Eval(l, ctx).0 || Eval(r, ctx).0)
    ensures Eval(Not(l), ctx).0 == !Eval(l, ctx).0
  {
  }

  /** When the left operand of `&&` is false, the right one is not called and keeps its state. */
  lemma AndShortCircuits(l: Node, r: Node, ctx: Context)
    requires WellFormed(l) && WellFormed(r) && !Eval(l, ctx).0
    ensures !Eval(And(l, r), ctx).0
    ensures Eval(And(l, r), ctx).1 == And(Eval(l, ctx).1, r)
  {
  }

  /** When the left operand of `||` is true, the right one is not called and keeps its state. */
  lemma OrShortCircuits(l: Node, r: Node, ctx: Context)
    requires WellFormed(l) && WellFormed(r) && Eval(l, ctx).0
    ensures Eval(Or(l, r), ctx).0
    ensures Eval(Or(l, r), ctx).1 == Or(Eval(l, ctx).1, r)
  {
  }

  /**
   * A fresh `periodically(period, offset)` fires first at a time >= offset,
   * and after firing at time t it does not fire again before t + period.
   */
  lemma PeriodicallyFirst(period: real, offset: real, ctx: Context)
    ensures Eval(MakePeriodically(period, offset), ctx).0 <==> ctx.time >= offset
  {
  }

  lemma PeriodicallySpacing(period: real, last: real, c1: Context, c2: Context)
    requires Eval(Periodically(period, last), c1).0
    ensures var t := Eval(Periodically(period, last), c1).1;
      && t == Periodically(period, c1.time)
      && (Eval(t, c2).0 <==> c2.time >= c1.time + period)
  {
  }

  /** A miss leaves `last` where it was. */
  lemma PeriodicallyMiss(period: real, last: real, ctx: Context)
    requires !Eval(Periodically(period, last), ctx).0
    ensures Eval(Periodically(period, last), ctx).1 == Periodically(period, last)
  {
  }
}
