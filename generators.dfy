/**
 * The particle generators of `generators.hpp`: a cuboid lattice and a
 * lattice-filled ellipsoid ("sphere"), each configured through fluent
 * setters and expanded into particles by `to_particles`. Positions and
 * velocities are exact reals (the library computes them in floating
 * point), the user data (`std::any`) is an opaque integer, and the thermal
 * velocity callback is a total function of the position.
 */
module Generators {
  import opened Wrappers
  import opened Ints
  import opened Grids
  import ParticleStates
  import Seqs

  type Vec3 = (real, real, real)

  /** The `std::logic_error` both generators throw on a zero spacing. */
  datatype GenError = ZeroDistance

  /** A generated particle: `env::Particle` with the fields the generators set. */
  datatype Particle = Particle(
    id: Option<nat>,
    ptype: u16,
    position: Vec3,
    velocity: Vec3,
    mass: real,
    state: ParticleStates.ParticleState,
    userData: int)

  function Plus(a: Vec3, b: Vec3): Vec3 {
    (a.0 + b.0, a.1 + b.1, a.2 + b.2)
  }

  /** The lattice point with indices (x, y, z) and spacing d, relative to the generator's anchor. */
  function Lattice(x: int, y: int, z: int, d: real): Vec3 {
    (x as real * d, y as real * d, z as real * d)
  }

  /** `ZERO_THERMAL_V`, the default thermal velocity. */
  const ZeroThermal: Vec3 -> Vec3 := _ => (0.0, 0.0, 0.0)

  /** Conversion of an `int` argument to `ParticleType` (`uint16_t`): modulo 2^16. */
  function ToU16(t: int): u16 {
    t % U16_LIMIT
  }

  /** What every particle of one generator copies from it. */
  datatype Template = Template(
    ptype: u16,
    meanVelocity: Vec3,
    mass: real,
    state: ParticleStates.ParticleState,
    userData: int,
    thermal: Vec3 -> Vec3)

  /**
   * The particle a generator places at `position`: no id, the generator's
   * type, mass, state and user data, and the mean velocity plus the
   * thermal velocity at that position.
   */
  function Spawn(t: Template, position: Vec3): Particle {
    Particle(None, t.ptype, position, Plus(t.meanVelocity, t.thermal(position)), t.mass, t.state, t.userData)
  }

  // ---------------------------------------------------------------------
  // ParticleCuboid
  // ---------------------------------------------------------------------

  /** The particle of the cuboid with loop indices (x, y, z). */
  function CuboidPoint(t: Template, origin: Vec3, d: real, x: nat, y: nat, z: nat): Particle {
    Spawn(t, Plus(origin, Lattice(x, y, z, d)))
  }

  /** The innermost loop: z = 0 .. n - 1 for fixed x and y. */
  function CuboidZ(t: Template, origin: Vec3, d: real, x: nat, y: nat, n: nat): (r: seq<Particle>)
    ensures |r| == n
  {
    if n == 0 then [] else CuboidZ(t, origin, d, x, y, n - 1) + [CuboidPoint(t, origin, d, x, y, n - 1)]
  }

  /** The middle loop: y = 0 .. n - 1 for fixed x, each with its z loop of nz particles. */
  function CuboidY(t: Template, origin: Vec3, d: real, x: nat, nz: nat, n: nat): (r: seq<Particle>)
    ensures |r| == n * nz
  {
    if n == 0 then []
    else
      Distribute(n - 1, 1, nz);
      CuboidY(t, origin, d, x, nz, n - 1) + CuboidZ(t, origin, d, x, n - 1, nz)
  }

  /** The outer loop: x = 0 .. n - 1, each with its ny * nz particles. */
  function CuboidX(t: Template, origin: Vec3, d: real, ny: nat, nz: nat, n: nat): (r: seq<Particle>)
    ensures |r| == n * (ny * nz)
  {
    if n == 0 then []
    else
      Distribute(n - 1, 1, ny * nz);
      CuboidX(t, origin, d, ny, nz, n - 1) + CuboidY(t, origin, d, n - 1, nz, ny)
  }

  /** The index of the particle with loop indices (x, y, z): z fastest, then y, then x. */
  function CuboidIndex(ny: nat, nz: nat, x: nat, y: nat, z: nat): nat {
    Flat(Dims(nz, ny, 0), z, y, x)
  }

  lemma {:induction false} CuboidZAt(t: Template, origin: Vec3, d: real, x: nat, y: nat, n: nat, z: nat)
    requires z < n
    ensures CuboidZ(t, origin, d, x, y, n)[z] == CuboidPoint(t, origin, d, x, y, z)
  {
    if z < n - 1 {
      CuboidZAt(t, origin, d, x, y, n - 1, z);
    }
  }

  lemma {:induction false} CuboidYAt(t: Template, origin: Vec3, d: real, x: nat, nz: nat, n: nat, y: nat, z: nat)
    requires y < n && z < nz
    ensures y * nz + z < |CuboidY(t, origin, d, x, nz, n)|
    ensures CuboidY(t, origin, d, x, nz, n)[y * nz + z] == CuboidPoint(t, origin, d, x, y, z)
  {
    var prev := CuboidY(t, origin, d, x, nz, n - 1);
    var row := CuboidZ(t, origin, d, x, n - 1, nz);
    assert CuboidY(t, origin, d, x, nz, n) == prev + row by {
      Distribute(n - 1, 1, nz);
    }
    DigitBelow(y, z, n, nz);
    if y < n - 1 {
      CuboidYAt(t, origin, d, x, nz, n - 1, y, z);
    } else {
      CuboidZAt(t, origin, d, x, n - 1, nz, z);
    }
  }

  lemma {:induction false} CuboidXAt(t: Template, origin: Vec3, d: real, ny: nat, nz: nat, n: nat, x: nat, y: nat, z: nat)
    requires x < n && y < ny && z < nz
    ensures CuboidIndex(ny, nz, x, y, z) < |CuboidX(t, origin, d, ny, nz, n)|
    ensures CuboidX(t, origin, d, ny, nz, n)[CuboidIndex(ny, nz, x, y, z)] == CuboidPoint(t, origin, d, x, y, z)
  {
    var prev := CuboidX(t, origin, d, ny, nz, n - 1);
    var plane := CuboidY(t, origin, d, n - 1, nz, ny);
    assert CuboidX(t, origin, d, ny, nz, n) == prev + plane by {
      Distribute(n - 1, 1, ny * nz);
    }
    FlatSplit(Dims(nz, ny, 0), z, y, x);
    DigitBelow(x, y * nz + z, n, ny * nz);
    if x < n - 1 {
      CuboidXAt(t, origin, d, ny, nz, n - 1, x, y, z);
    } else {
      CuboidYAt(t, origin, d, n - 1, nz, ny, y, z);
    }
  }

  /** What `to_particles` returns for a cuboid with a non-zero spacing. */
  function CuboidParticles(t: Template, origin: Vec3, d: real, count: (u32, u32, u32)): seq<Particle> {
    CuboidX(t, origin, d, count.1, count.2, count.0)
  }

  /**
   * The cuboid holds count.x * count.y * count.z particles, and the one
   * with loop indices (x, y, z) sits at origin + (x d, y d, z d), at index
   * (x * count.y + y) * count.z + z: z runs fastest, x slowest.
   */
  lemma CuboidLayout(t: Template, origin: Vec3, d: real, count: (u32, u32, u32), x: nat, y: nat, z: nat)
    requires x < count.0 && y < count.1 && z < count.2
    ensures |CuboidParticles(t, origin, d, count)| == count.0 * count.1 * count.2
    ensures CuboidIndex(count.1, count.2, x, y, z) == (x * count.1 + y) * count.2 + z
    ensures CuboidIndex(count.1, count.2, x, y, z) < |CuboidParticles(t, origin, d, count)|
    ensures CuboidParticles(t, origin, d, count)[CuboidIndex(count.1, count.2, x, y, z)]
      == Spawn(t, Plus(origin, Lattice(x, y, z, d)))
  {
    var ps := CuboidParticles(t, origin, d, count);
    var k := CuboidIndex(count.1, count.2, x, y, z);
    assert k < |ps| && ps[k] == Spawn(t, Plus(origin, Lattice(x, y, z, d))) by {
      CuboidXAt(t, origin, d, count.1, count.2, count.0, x, y, z);
    }
    assert |ps| == count.0 * count.1 * count.2 by {
      Reassociate(count.0, count.1, count.2);
    }
    var xy := x * count.1;
    assert xy >= 0 by {
      MulLe(0, x, count.1);
    }
    assert k == (xy + y) * count.2 + z by {
      Distribute(xy, y, count.2);
    }
  }

  /** A cuboid with a zero extent on any axis holds no particle. */
  lemma CuboidEmpty(t: Template, origin: Vec3, d: real, count: (u32, u32, u32))
    requires count.0 == 0 || count.1 == 0 || count.2 == 0
    ensures CuboidParticles(t, origin, d, count) == []
  {
    assert |CuboidParticles(t, origin, d, count)| == count.0 * (count.1 * count.2);
  }

  /**
   * Every particle of the cuboid is the particle of exactly one lattice
   * point: index k holds the point (x, y, z) that `CuboidIndex` maps to k.
   */
  lemma CuboidPointOf(t: Template, origin: Vec3, d: real, count: (u32, u32, u32), k: nat) returns (x: nat, y: nat, z: nat)
    requires k < |CuboidParticles(t, origin, d, count)|
    ensures x < count.0 && y < count.1 && z < count.2 && CuboidIndex(count.1, count.2, x, y, z) == k
    ensures CuboidParticles(t, origin, d, count)[k] == Spawn(t, Plus(origin, Lattice(x, y, z, d)))
  {
    var g := Dims(count.2, count.1, count.0);
    Reassociate(count.0, count.1, count.2);
    Reassociate(count.2, count.1, count.0);
    var c := CellOf(g, k);
    z, y, x := c.0, c.1, c.2;
    assert CuboidIndex(count.1, count.2, x, y, z) == Flat(g, z, y, x);
    CuboidXAt(t, origin, d, count.1, count.2, count.0, x, y, z);
  }

  /** The first particle sits at the origin and the last at origin + (count - 1) d. */
  lemma CuboidEnds(t: Template, origin: Vec3, d: real, count: (u32, u32, u32))
    requires count.0 > 0 && count.1 > 0 && count.2 > 0
    ensures |CuboidParticles(t, origin, d, count)| > 0
    ensures CuboidParticles(t, origin, d, count)[0].position == origin
    ensures var ps := CuboidParticles(t, origin, d, count);
      ps[|ps| - 1].position == Plus(origin, Lattice(count.0 - 1, count.1 - 1, count.2 - 1, d))
  {
    var ps := CuboidParticles(t, origin, d, count);
    CuboidLayout(t, origin, d, count, 0, 0, 0);
    CuboidLayout(t, origin, d, count, count.0 - 1, count.1 - 1, count.2 - 1);
    var g := Dims(count.2, count.1, count.0);
    assert CuboidIndex(count.1, count.2, count.0 - 1, count.1 - 1, count.2 - 1) == |ps| - 1 by {
      Distribute(count.0 - 1, 1, count.1 * count.2);
      Reassociate(count.0 - 1, count.1, count.2);
      Reassociate(count.0, count.1, count.2);
      Distribute(count.1 - 1, 1, count.2);
    }
  }

  /** The fields of a `ParticleCuboid`, as one value. */
  datatype CuboidFields = CuboidFields(
    origin: Vec3,
    meanVelocity: Vec3,
    count: (u32, u32, u32),
    distance: real,
    mass: real,
    typeIdx: u16,
    userData: int,
    thermal: Vec3 -> Vec3,
    state: ParticleStates.ParticleState)

  /** `ParticleCuboid`: a configuration object whose setters each assign one field and return the object. */
  class Cuboid {
    var origin: Vec3
    var meanVelocity: Vec3
    var count: (u32, u32, u32)
    var distance: real
    var mass: real
    var typeIdx: u16
    var userData: int
    var thermal: Vec3 -> Vec3
    var state: ParticleStates.ParticleState

    function Fields(): CuboidFields
      reads this
    {
      CuboidFields(origin, meanVelocity, count, distance, mass, typeIdx, userData, thermal, state)
    }

    function Shared(): Template
      reads this
    {
      Template(typeIdx, meanVelocity, mass, state, userData, thermal)
    }

    /** `ParticleCuboid()`: value-initialised fields, no thermal velocity, state ALIVE. */
    constructor ()
      ensures Fields() == CuboidFields((0.0, 0.0, 0.0), (0.0, 0.0, 0.0), (0, 0, 0), 0.0, 0.0, 0, 0, ZeroThermal, ParticleStates.ALIVE)
    {
      origin, meanVelocity, count := (0.0, 0.0, 0.0), (0.0, 0.0, 0.0), (0, 0, 0);
      distance, mass, typeIdx, userData := 0.0, 0.0, 0, 0;
      thermal, state := ZeroThermal, ParticleStates.ALIVE;
    }

    method At(p: Vec3) returns (self: Cuboid)
      modifies this
      ensures self == this && Fields() == old(Fields()).(origin := p)
    {
      origin := p;
      self := this;
    }

    method AtXYZ(x: real, y: real, z: real) returns (self: Cuboid)
      modifies this
      ensures self == this && Fields() == old(Fields()).(origin := (x, y, z))
    {
      origin := (x, y, z);
      self := this;
    }

    method Velocity(v: Vec3) returns (self: Cuboid)
      modifies this
      ensures self == this && Fields() == old(Fields()).(meanVelocity := v)
    {
      meanVelocity := v;
      self := this;
    }

    method VelocityXYZ(x: real, y: real, z: real) returns (self: Cuboid)
      modifies this
      ensures self == this && Fields() == old(Fields()).(meanVelocity := (x, y, z))
    {
      meanVelocity := (x, y, z);
      self := this;
    }

    method Count(n: (u32, u32, u32)) returns (self: Cuboid)
      modifies this
      ensures self == this && Fields() == old(Fields()).(count := n)
    {
      count := n;
      self := this;
    }

    method CountXYZ(x: u32, y: u32, z: u32) returns (self: Cuboid)
      modifies this
      ensures self == this && Fields() == old(Fields()).(count := (x, y, z))
    {
      count := (x, y, z);
      self := this;
    }

    method Spacing(d: real) returns (self: Cuboid)
      modifies this
      ensures self == this && Fields() == old(Fields()).(distance := d)
    {
      distance := d;
      self := this;
    }

    method Mass(m: real) returns (self: Cuboid)
      modifies this
      ensures self == this && Fields() == old(Fields()).(mass := m)
    {
      mass := m;
      self := this;
    }

    /** `type(int t)`: the argument is converted to `uint16_t`. */
    method Type(t: int) returns (self: Cuboid)
      modifies this
      ensures self == this && Fields() == old(Fields()).(typeIdx := ToU16(t))
    {
      typeIdx := ToU16(t);
      self := this;
    }

    method Thermal(tv: Vec3 -> Vec3) returns (self: Cuboid)
      modifies this
      ensures self == this && Fields() == old(Fields()).(thermal := tv)
    {
      thermal := tv;
      self := this;
    }

    method State(s: ParticleStates.ParticleState) returns (self: Cuboid)
      modifies this
      ensures self == this && Fields() == old(Fields()).(state := s)
    {
      state := s;
      self := this;
    }

    method WithData(data: int) returns (self: Cuboid)
      modifies this
      ensures self == this && Fields() == old(Fields()).(userData := data)
    {
      userData := data;
      self := this;
    }

    /**
     * `to_particles`: a zero spacing is an error; otherwise one particle
     * per lattice point, x outermost and z innermost.
     */
    method ToParticles() returns (r: Result<seq<Particle>, GenError>)
      ensures distance == 0.0 ==> r == Err(ZeroDistance)
      ensures distance != 0.0 ==> r == Ok(CuboidParticles(Shared(), origin, distance, count))
    {
      if distance == 0.0 {
        return Err(ZeroDistance);
      }
      var t := Shared();
      var particles: seq<Particle> := [];
      for x := 0 to count.0
        invariant particles == CuboidX(t, origin, distance, count.1, count.2, x)
      {
        var plane := CuboidPlaneLoop(t, origin, distance, x, count.1, count.2);
        Distribute(x, 1, count.1 * count.2);
        particles := particles + plane;
      }
      r := Ok(particles);
    }
  }

  /** The y and z loops of the cuboid for one x. */
  method CuboidPlaneLoop(t: Template, origin: Vec3, d: real, x: nat, ny: nat, nz: nat) returns (plane: seq<Particle>)
    ensures plane == CuboidY(t, origin, d, x, nz, ny)
  {
    plane := [];
    for y := 0 to ny
      invariant plane == CuboidY(t, origin, d, x, nz, y)
    {
      Distribute(y, 1, nz);
      ghost var before := plane;
      for z := 0 to nz
        invariant plane == before + CuboidZ(t, origin, d, x, y, z)
      {
        var p := Spawn(t, Plus(origin, Lattice(x, y, z, d)));
        plane := plane + [p];
      }
    }
  }

  // ---------------------------------------------------------------------
  // ParticleSphere
  // ---------------------------------------------------------------------

  /** `std::max(a, b)`: b when a < b, else a. */
  function Max(a: real, b: real): real {
    if a < b then b else a
  }

  /** `static_cast<int>` of a floating-point value: truncation toward zero. */
  function Trunc(v: real): int {
    if v >= 0.0 then v.Floor else -((-v).Floor)
  }

  /**
   * An ellipsoid ready to be filled: the template, the centre, the
   * effective radii, the spacing and the loop reach along each axis.
   */
  datatype Ball = Ball(t: Template, center: Vec3, e: Vec3, d: real, k: (int, int, int))

  /** With every reach positive, every effective radius is non-zero. */
  predicate Sound(b: Ball) {
    (b.k.0 >= 1 && b.k.1 >= 1 && b.k.2 >= 1) ==> (b.e.0 != 0.0 && b.e.1 != 0.0 && b.e.2 != 0.0)
  }

  /** Every loop runs at least once, so the inside test can divide by the effective radii. */
  predicate Live(b: Ball) {
    b.k.0 >= 1 && b.k.1 >= 1 && b.k.2 >= 1 && b.e.0 != 0.0 && b.e.1 != 0.0 && b.e.2 != 0.0
  }

  lemma ReachNonZero(e: real, d: real)
    requires d != 0.0 && Trunc(e / d) >= 1
    ensures e / d >= 1.0 && e != 0.0
  {
  }

  /**
   * The effective radii max(radius, spacing) per axis, and the reach
   * static_cast<int>(effective radius / spacing): the loop along an axis
   * runs from -reach up to reach - 1.
   */
  function BallOf(t: Template, center: Vec3, radii: Vec3, d: real): (b: Ball)
    requires d != 0.0
    ensures Sound(b) && b.t == t && b.center == center && b.d == d
    ensures b.e == (Max(radii.0, d), Max(radii.1, d), Max(radii.2, d))
    ensures b.k == (Trunc(b.e.0 / d), Trunc(b.e.1 / d), Trunc(b.e.2 / d))
  {
    var e := (Max(radii.0, d), Max(radii.1, d), Max(radii.2, d));
    ReachesNonZero(e, d);
    Ball(t, center, e, d, (Trunc(e.0 / d), Trunc(e.1 / d), Trunc(e.2 / d)))
  }

  lemma ReachesNonZero(e: Vec3, d: real)
    requires d != 0.0
    ensures Trunc(e.0 / d) >= 1 && Trunc(e.1 / d) >= 1 && Trunc(e.2 / d) >= 1
      ==> e.0 != 0.0 && e.1 != 0.0 && e.2 != 0.0
  {
    if Trunc(e.0 / d) >= 1 && Trunc(e.1 / d) >= 1 && Trunc(e.2 / d) >= 1 {
      ReachNonZero(e.0, d);
      ReachNonZero(e.1, d);
      ReachNonZero(e.2, d);
    }
  }

  /** The product of two reals; squares are written through it so that the solver treats them alike. */
  function Mul(a: real, b: real): real {
    a * b
  }

  /** One term (i d)^2 / e^2 of the inside test. */
  function Term(i: int, d: real, e: real): real
    requires e != 0.0
  {
    SquareNonNegative(e);
    Mul(i as real * d, i as real * d) / Mul(e, e)
  }

  /** The inside test: pos.x^2 / ex^2 + pos.y^2 / ey^2 + pos.z^2 / ez^2 < 1 for pos = (x d, y d, z d). */
  predicate Inside(b: Ball, x: int, y: int, z: int)
    requires Live(b)
  {
    Term(x, b.d, b.e.0) + Term(y, b.d, b.e.1) + Term(z, b.d, b.e.2) < 1.0
  }

  /** The particle of the sphere with loop indices (x, y, z). */
  function SpherePoint(b: Ball, x: int, y: int, z: int): Particle {
    Spawn(b.t, Plus(b.center, Lattice(x, y, z, b.d)))
  }

  /** The innermost loop: z from -reach up to z - 1, inside points only. */
  function SphereZ(b: Ball, x: int, y: int, z: int): seq<Particle>
    requires Live(b) && -b.k.2 <= z
    decreases z + b.k.2
  {
    if z == -b.k.2 then []
    else SphereZ(b, x, y, z - 1) + if Inside(b, x, y, z - 1) then [SpherePoint(b, x, y, z - 1)] else []
  }

  /** The middle loop: y from -reach up to y - 1, each with its full z loop. */
  function SphereY(b: Ball, x: int, y: int): seq<Particle>
    requires Live(b) && -b.k.1 <= y
    decreases y + b.k.1
  {
    if y == -b.k.1 then [] else SphereY(b, x, y - 1) + SphereZ(b, x, y - 1, b.k.2)
  }

  /** The outer loop: x from -reach up to x - 1, each with its full y loop. */
  function SphereX(b: Ball, x: int): seq<Particle>
    requires Live(b) && -b.k.0 <= x
    decreases x + b.k.0
  {
    if x == -b.k.0 then [] else SphereX(b, x - 1) + SphereY(b, x - 1, b.k.1)
  }

  /** What `to_particles` returns: nothing when some loop is empty, else the three loops. */
  function SphereParticles(b: Ball): seq<Particle>
    requires Sound(b)
  {
    if b.k.0 >= 1 && b.k.1 >= 1 && b.k.2 >= 1 then SphereX(b, b.k.0) else []
  }

  /** The loop box: -reach <= index < reach on every axis. */
  predicate InBox(b: Ball, x: int, y: int, z: int) {
    -b.k.0 <= x < b.k.0 && -b.k.1 <= y < b.k.1 && -b.k.2 <= z < b.k.2
  }

  lemma {:induction false} SphereZMember(b: Ball, x: int, y: int, z: int, p: Particle) returns (z': int)
    requires Live(b) && -b.k.2 <= z && p in SphereZ(b, x, y, z)
    ensures -b.k.2 <= z' < z && Inside(b, x, y, z') && p == SpherePoint(b, x, y, z')
    decreases z + b.k.2
  {
    var prev := SphereZ(b, x, y, z - 1);
    var more := if Inside(b, x, y, z - 1) then [SpherePoint(b, x, y, z - 1)] else [];
    assert SphereZ(b, x, y, z) == prev + more;
    Seqs.InConcat(p, prev, more);
    if p in prev {
      z' := SphereZMember(b, x, y, z - 1, p);
    } else {
      z' := z - 1;
    }
  }

  lemma {:induction false} SphereYMember(b: Ball, x: int, y: int, p: Particle) returns (y': int, z': int)
    requires Live(b) && -b.k.1 <= y && p in SphereY(b, x, y)
    ensures -b.k.1 <= y' < y && -b.k.2 <= z' < b.k.2 && Inside(b, x, y', z') && p == SpherePoint(b, x, y', z')
    decreases y + b.k.1
  {
    var prev := SphereY(b, x, y - 1);
    var more := SphereZ(b, x, y - 1, b.k.2);
    assert SphereY(b, x, y) == prev + more;
    Seqs.InConcat(p, prev, more);
    if p in prev {
      y', z' := SphereYMember(b, x, y - 1, p);
    } else {
      y' := y - 1;
      z' := SphereZMember(b, x, y - 1, b.k.2, p);
    }
  }

  lemma {:induction false} SphereXMember(b: Ball, x: int, p: Particle) returns (x': int, y': int, z': int)
    requires Live(b) && -b.k.0 <= x && p in SphereX(b, x)
    ensures -b.k.0 <= x' < x && -b.k.1 <= y' < b.k.1 && -b.k.2 <= z' < b.k.2
    ensures Inside(b, x', y', z') && p == SpherePoint(b, x', y', z')
    decreases x + b.k.0
  {
    var prev := SphereX(b, x - 1);
    var more := SphereY(b, x - 1, b.k.1);
    assert SphereX(b, x) == prev + more;
    Seqs.InConcat(p, prev, more);
    if p in prev {
      x', y', z' := SphereXMember(b, x - 1, p);
    } else {
      x' := x - 1;
      y', z' := SphereYMember(b, x - 1, b.k.1, p);
    }
  }

  lemma {:induction false} SphereZHas(b: Ball, x: int, y: int, z: int, z': int)
    requires Live(b) && -b.k.2 <= z' < z && Inside(b, x, y, z')
    ensures SpherePoint(b, x, y, z') in SphereZ(b, x, y, z)
    decreases z + b.k.2
  {
    var prev := SphereZ(b, x, y, z - 1);
    var more := if Inside(b, x, y, z - 1) then [SpherePoint(b, x, y, z - 1)] else [];
    assert SphereZ(b, x, y, z) == prev + more;
    Seqs.InConcat(SpherePoint(b, x, y, z'), prev, more);
    if z' < z - 1 {
      SphereZHas(b, x, y, z - 1, z');
    }
  }

  lemma {:induction false} SphereYHas(b: Ball, x: int, y: int, y': int, z': int)
    requires Live(b) && -b.k.1 <= y' < y && -b.k.2 <= z' < b.k.2 && Inside(b, x, y', z')
    ensures SpherePoint(b, x, y', z') in SphereY(b, x, y)
    decreases y + b.k.1
  {
    var prev := SphereY(b, x, y - 1);
    var more := SphereZ(b, x, y - 1, b.k.2);
    assert SphereY(b, x, y) == prev + more;
    Seqs.InConcat(SpherePoint(b, x, y', z'), prev, more);
    if y' < y - 1 {
      SphereYHas(b, x, y - 1, y', z');
    } else {
      SphereZHas(b, x, y', b.k.2, z');
    }
  }

  lemma {:induction false} SphereXHas(b: Ball, x: int, x': int, y': int, z': int)
    requires Live(b) && -b.k.0 <= x' < x && -b.k.1 <= y' < b.k.1 && -b.k.2 <= z' < b.k.2 && Inside(b, x', y', z')
    ensures SpherePoint(b, x', y', z') in SphereX(b, x)
    decreases x + b.k.0
  {
    var prev := SphereX(b, x - 1);
    var more := SphereY(b, x - 1, b.k.1);
    assert SphereX(b, x) == prev + more;
    Seqs.InConcat(SpherePoint(b, x', y', z'), prev, more);
    if x' < x - 1 {
      SphereXHas(b, x - 1, x', y', z');
    } else {
      SphereYHas(b, x', b.k.1, y', z');
    }
  }

  /**
   * A particle is generated exactly when it is the particle of a lattice
   * point in the loop box that passes the inside test: every generated
   * particle is one (with its indices returned), and every such point
   * yields one.
   */
  lemma SphereMember(b: Ball, p: Particle) returns (x: int, y: int, z: int)
    requires Sound(b) && p in SphereParticles(b)
    ensures Live(b) && InBox(b, x, y, z) && Inside(b, x, y, z) && p == SpherePoint(b, x, y, z)
  {
    x, y, z := SphereXMember(b, b.k.0, p);
  }

  lemma SphereComplete(b: Ball, x: int, y: int, z: int)
    requires Live(b) && InBox(b, x, y, z) && Inside(b, x, y, z)
    ensures SpherePoint(b, x, y, z) in SphereParticles(b)
  {
    SphereXHas(b, b.k.0, x, y, z);
  }

  lemma MulPositive(a: real, b: real)
    requires (a > 0.0 && b > 0.0) || (a < 0.0 && b < 0.0)
    ensures Mul(a, b) > 0.0
  {
  }

  lemma MulNegated(a: real, b: real)
    ensures Mul(-a, -b) == Mul(a, b)
  {
  }

  lemma NegScale(i: int, d: real)
    ensures (-i) as real * d == -(i as real * d)
  {
  }

  lemma ScaleLess(a: real, b: real, c: real)
    requires a < b && c > 0.0
    ensures a * c < b * c
  {
  }

  lemma DivNonNegative(a: real, b: real)
    requires a >= 0.0 && b > 0.0
    ensures a / b >= 0.0
  {
  }

  lemma DivSame(a: real, b: real)
    requires a == b && b != 0.0
    ensures a / b == 1.0
  {
  }

  lemma DivSameDenominator(a: real, b: real, c: real)
    requires a == b && c != 0.0
    ensures a / c == b / c
  {
  }

  lemma SquareNonNegative(a: real)
    ensures Mul(a, a) >= 0.0
    ensures a != 0.0 ==> Mul(a, a) > 0.0
  {
    if a != 0.0 {
      MulPositive(a, a);
    }
  }

  /** A term of the inside test is never negative. */
  lemma TermNonNegative(i: int, d: real, e: real)
    requires e != 0.0
    ensures Term(i, d, e) >= 0.0
  {
    SquareNonNegative(i as real * d);
    SquareNonNegative(e);
    DivNonNegative(Mul(i as real * d, i as real * d), Mul(e, e));
  }

  /** With the effective radius equal to the spacing, index -1 contributes exactly 1 to the inside test. */
  lemma TermAtMinusOne(d: real)
    requires d != 0.0
    ensures Term(-1, d, d) == 1.0
  {
    NegScale(1, d);
    MulNegated(d, d);
    SquareNonNegative(d);
    DivSame(Mul((-1) as real * d, (-1) as real * d), Mul(d, d));
  }

  /** Index 0 contributes nothing to the inside test. */
  lemma TermAtZero(d: real, e: real)
    requires e != 0.0
    ensures Term(0, d, e) == 0.0
  {
    SquareNonNegative(e);
  }

  /** The inside test is symmetric in each index. */
  lemma TermSymmetric(i: int, d: real, e: real)
    requires e != 0.0
    ensures Term(-i, d, e) == Term(i, d, e)
  {
    var x := i as real * d;
    NegScale(i, d);
    MulNegated(x, x);
    SquareNonNegative(e);
    DivSameDenominator(Mul((-i) as real * d, (-i) as real * d), Mul(x, x), Mul(e, e));
  }

  /** A radius no larger than the spacing gives an effective radius equal to the spacing and a reach of 1. */
  lemma SmallRadius(r: real, d: real)
    requires d > 0.0 && r <= d
    ensures Max(r, d) == d && Trunc(Max(r, d) / d) == 1
  {
    DivSame(d, d);
  }

  /**
   * When the radius along z is at most the spacing, the sphere is flat:
   * every generated particle lies in the plane of the centre.
   */
  lemma SphereFlatZ(t: Template, center: Vec3, radii: Vec3, d: real, p: Particle)
    requires d > 0.0 && radii.2 <= d
    requires p in SphereParticles(BallOf(t, center, radii, d))
    ensures p.position.2 == center.2
  {
    var b := BallOf(t, center, radii, d);
    SmallRadius(radii.2, d);
    var x, y, z := SphereMember(b, p);
    if z == -1 {
      TermNonNegative(x, d, b.e.0);
      TermNonNegative(y, d, b.e.1);
      TermAtMinusOne(d);
      assert false;
    }
    assert z == 0;
  }

  /**
   * Radii no larger than the spacing leave only the centre: exactly one
   * particle, at the centre.
   */
  lemma SphereSmall(t: Template, center: Vec3, radii: Vec3, d: real)
    requires d > 0.0 && radii.0 <= d && radii.1 <= d && radii.2 <= d
    ensures SphereParticles(BallOf(t, center, radii, d)) == [Spawn(t, center)]
  {
    var b := BallOf(t, center, radii, d);
    SmallRadius(radii.0, d);
    SmallRadius(radii.1, d);
    SmallRadius(radii.2, d);
    assert b.e == (d, d, d) && b.k == (1, 1, 1);
    TermAtMinusOne(d);
    assert Lattice(0, 0, 0, d) == (0.0, 0.0, 0.0);
    assert Plus(center, (0.0, 0.0, 0.0)) == center;
    UnitZ(b, -1, -1);
    UnitZ(b, -1, 0);
    UnitZ(b, 0, -1);
    UnitZ(b, 0, 0);
    assert SphereY(b, -1, 1) == [] by {
      assert SphereY(b, -1, 0) == SphereY(b, -1, -1) + SphereZ(b, -1, -1, 1);
    }
    assert SphereY(b, 0, 1) == [Spawn(t, center)] by {
      assert SphereY(b, 0, 0) == SphereY(b, 0, -1) + SphereZ(b, 0, -1, 1);
    }
    assert SphereX(b, 0) == SphereX(b, -1) + SphereY(b, -1, 1);
  }

  /** For reach 1 and effective radii equal to the spacing, the z loop of (x, y) keeps only the centre. */
  lemma UnitZ(b: Ball, x: int, y: int)
    requires Live(b) && b.d > 0.0 && b.e == (b.d, b.d, b.d) && b.k == (1, 1, 1)
    requires -1 <= x <= 0 && -1 <= y <= 0
    ensures SphereZ(b, x, y, 1) == if x == 0 && y == 0 then [SpherePoint(b, 0, 0, 0)] else []
  {
    TermAtMinusOne(b.d);
    TermAtZero(b.d, b.d);
    TermNonNegative(x, b.d, b.d);
    TermNonNegative(y, b.d, b.d);
    assert !Inside(b, x, y, -1);
    if x == 0 && y == 0 {
      assert Inside(b, x, y, 0);
    } else {
      assert !Inside(b, x, y, 0);
    }
    assert SphereZ(b, x, y, 0) == SphereZ(b, x, y, -1) + [];
  }

  /**
   * The loops stop one short of the reach, so the ellipsoid is filled
   * asymmetrically: when the lattice point at index reach on the x axis
   * passes the inside test, its mirror image at -reach is generated while
   * no generated particle lies at x index reach.
   */
  lemma SphereMissesUpperLayer(b: Ball)
    requires Live(b) && b.d > 0.0 && Inside(b, b.k.0, 0, 0)
    ensures SpherePoint(b, -b.k.0, 0, 0) in SphereParticles(b)
    ensures forall p :: p in SphereParticles(b) ==> p.position.0 != b.center.0 + b.k.0 as real * b.d
  {
    assert Inside(b, -b.k.0, 0, 0) by {
      TermSymmetric(b.k.0, b.d, b.e.0);
    }
    SphereComplete(b, -b.k.0, 0, 0);
    forall p | p in SphereParticles(b)
      ensures p.position.0 != b.center.0 + b.k.0 as real * b.d
    {
      var x, y, z := SphereMember(b, p);
      ScaleLess(x as real, b.k.0 as real, b.d);
    }
  }

  /** The fields of a `ParticleSphere`, as one value. */
  datatype SphereFields = SphereFields(
    meanVelocity: Vec3,
    center: Vec3,
    radii: Vec3,
    distance: real,
    mass: real,
    typeIdx: u16,
    userData: int,
    thermal: Vec3 -> Vec3,
    state: ParticleStates.ParticleState)

  /** `ParticleSphere`: a configuration object whose setters each assign one field and return the object. */
  class Sphere {
    var meanVelocity: Vec3
    var center: Vec3
    var radii: Vec3
    var distance: real
    var mass: real
    var typeIdx: u16
    var userData: int
    var thermal: Vec3 -> Vec3
    var state: ParticleStates.ParticleState

    function Fields(): SphereFields
      reads this
    {
      SphereFields(meanVelocity, center, radii, distance, mass, typeIdx, userData, thermal, state)
    }

    function Shared(): Template
      reads this
    {
      Template(typeIdx, meanVelocity, mass, state, userData, thermal)
    }

    /** `ParticleSphere()`: value-initialised fields, no thermal velocity, state ALIVE. */
    constructor ()
      ensures Fields() == SphereFields((0.0, 0.0, 0.0), (0.0, 0.0, 0.0), (0.0, 0.0, 0.0), 0.0, 0.0, 0, 0, ZeroThermal, ParticleStates.ALIVE)
    {
      meanVelocity, center, radii := (0.0, 0.0, 0.0), (0.0, 0.0, 0.0), (0.0, 0.0, 0.0);
      distance, mass, typeIdx, userData := 0.0, 0.0, 0, 0;
      thermal, state := ZeroThermal, ParticleStates.ALIVE;
    }

    method At(c: Vec3) returns (self: Sphere)
      modifies this
      ensures self == this && Fields() == old(Fields()).(center := c)
    {
      center := c;
      self := this;
    }

    method AtXYZ(x: real, y: real, z: real) returns (self: Sphere)
      modifies this
      ensures self == this && Fields() == old(Fields()).(center := (x, y, z))
    {
      center := (x, y, z);
      self := this;
    }

    method Velocity(v: Vec3) returns (self: Sphere)
      modifies this
      ensures self == this && Fields() == old(Fields()).(meanVelocity := v)
    {
      meanVelocity := v;
      self := this;
    }

    method VelocityXYZ(x: real, y: real, z: real) returns (self: Sphere)
      modifies this
      ensures self == this && Fields() == old(Fields()).(meanVelocity := (x, y, z))
    {
      meanVelocity := (x, y, z);
      self := this;
    }

    /** `radius_xyz(const vec3&)`: one radius per axis. */
    method RadiusVec(r: Vec3) returns (self: Sphere)
      modifies this
      ensures self == this && Fields() == old(Fields()).(radii := r)
    {
      radii := r;
      self := this;
    }

    method RadiusXYZ(x: real, y: real, z: real) returns (self: Sphere)
      modifies this
      ensures self == this && Fields() == old(Fields()).(radii := (x, y, z))
    {
      radii := (x, y, z);
      self := this;
    }

    /** `radius(r)`: the same radius on all three axes. */
    method Radius(r: real) returns (self: Sphere)
      modifies this
      ensures self == this && Fields() == old(Fields()).(radii := (r, r, r))
    {
      radii := (r, r, r);
      self := this;
    }

    method Spacing(d: real) returns (self: Sphere)
      modifies this
      ensures self == this && Fields() == old(Fields()).(distance := d)
    {
      distance := d;
      self := this;
    }

    method Mass(m: real) returns (self: Sphere)
      modifies this
      ensures self == this && Fields() == old(Fields()).(mass := m)
    {
      mass := m;
      self := this;
    }

    /** `type(int t)`: the argument is converted to `uint16_t`. */
    method Type(t: int) returns (self: Sphere)
      modifies this
      ensures self == this && Fields() == old(Fields()).(typeIdx := ToU16(t))
    {
      typeIdx := ToU16(t);
      self := this;
    }

    method Thermal(tv: Vec3 -> Vec3) returns (self: Sphere)
      modifies this
      ensures self == this && Fields() == old(Fields()).(thermal := tv)
    {
      thermal := tv;
      self := this;
    }

    method State(s: ParticleStates.ParticleState) returns (self: Sphere)
      modifies this
      ensures self == this && Fields() == old(Fields()).(state := s)
    {
      state := s;
      self := this;
    }

    method WithData(data: int) returns (self: Sphere)
      modifies this
      ensures self == this && Fields() == old(Fields()).(userData := data)
    {
      userData := data;
      self := this;
    }

    /**
     * `to_particles`: a zero spacing is an error; otherwise every lattice
     * point of the loop box that passes the inside test, x outermost and z
     * innermost.
     */
    method ToParticles() returns (r: Result<seq<Particle>, GenError>)
      ensures distance == 0.0 ==> r == Err(ZeroDistance)
      ensures distance != 0.0 ==> r == Ok(SphereParticles(BallOf(Shared(), center, radii, distance)))
    {
      if distance == 0.0 {
        return Err(ZeroDistance);
      }
      var b := BallOf(Shared(), center, radii, distance);
      var particles: seq<Particle> := [];
      var x := -b.k.0;
      while x < b.k.0
        invariant -b.k.0 <= x && (x == -b.k.0 || x <= b.k.0)
        invariant particles == if Live(b) then SphereX(b, x) else []
        decreases b.k.0 - x
      {
        var plane := SpherePlaneLoop(b, x);
        particles := particles + plane;
        x := x + 1;
      }
      r := Ok(particles);
    }
  }

  /** The y loop of the sphere for one x. */
  method SpherePlaneLoop(b: Ball, x: int) returns (plane: seq<Particle>)
    requires Sound(b) && -b.k.0 <= x < b.k.0
    ensures plane == if Live(b) then SphereY(b, x, b.k.1) else []
  {
    plane := [];
    var y := -b.k.1;
    while y < b.k.1
      invariant -b.k.1 <= y && (y == -b.k.1 || y <= b.k.1)
      invariant plane == if Live(b) then SphereY(b, x, y) else []
      decreases b.k.1 - y
    {
      var row := SphereRowLoop(b, x, y);
      plane := plane + row;
      y := y + 1;
    }
  }

  /** The z loop of the sphere for one (x, y): skip the points outside the ellipsoid. */
  method SphereRowLoop(b: Ball, x: int, y: int) returns (row: seq<Particle>)
    requires Sound(b) && -b.k.0 <= x < b.k.0 && -b.k.1 <= y < b.k.1
    ensures row == if Live(b) then SphereZ(b, x, y, b.k.2) else []
  {
    row := [];
    var z := -b.k.2;
    while z < b.k.2
      invariant -b.k.2 <= z && (z == -b.k.2 || z <= b.k.2)
      invariant Live(b) || row == []
      invariant Live(b) ==> row == SphereZ(b, x, y, z)
      decreases b.k.2 - z
    {
      if Term(x, b.d, b.e.0) + Term(y, b.d, b.e.1) + Term(z, b.d, b.e.2) < 1.0 {
        row := row + [Spawn(b.t, Plus(b.center, Lattice(x, y, z, b.d)))];
      }
      z := z + 1;
    }
  }
}
