/**
 * Cell pairs of the linked-cells containers.
 *
 * The general containers build a half-shell stencil of forward offsets
 * within the cutoff and, for periodic axes, a list of wrapped cell pairs:
 * a cell and a stencil neighbour that lies across a periodic face, with
 * the neighbour's coordinate wrapped back into the grid and the spatial
 * shift recorded. The plain linked-cells container instead sweeps a fixed
 * list of 13 unit displacements and splits the resulting pairs into plain
 * neighbour pairs and wrapped pairs.
 *
 * Shifts are recorded as a sign per axis: -1 when the neighbour was wrapped
 * from below (the spatial shift is minus the domain extent on that axis),
 * +1 when wrapped from above, 0 when not wrapped.
 */
module Stencils {
  import opened Grids
  import opened CellGrids
  import opened ParticleRecords
  import Seqs

  // ---- the half-shell stencil ----

  /** (z, y, x) is lexicographically above (0, 0, 0). */
  predicate Forward(o: Offset) {
    o.z > 0 || (o.z == 0 && (o.y > 0 || (o.y == 0 && o.x > 0)))
  }

  function Neg(o: Offset): Offset {
    Offset(-o.x, -o.y, -o.z)
  }

  const Zero := Offset(0, 0, 0)

  /** An offset and its negation are never both forward, and the zero offset is not forward. */
  lemma ForwardHalf(o: Offset)
    ensures !Forward(Zero)
    ensures Forward(o) ==> !Forward(Neg(o))
    ensures o != Zero ==> Forward(o) || Forward(Neg(o))
  {
  }

  function Abs(a: int): nat {
    if a < 0 then -a else a
  }

  /** The gap along one axis between the centre cell and a cell `a` cells away: none for adjacent cells. */
  function Gap(a: int, size: real): real {
    if Abs(a) > 1 then (Abs(a) - 1) as real * size else 0.0
  }

  /**
   * The stencil inputs: the reach along each axis (the cutoff over the cell
   * width, rounded up, computed in floating point), the cell widths and
   * the cutoff.
   */
  datatype StencilParams = StencilParams(nx: nat, ny: nat, nz: nat, cellSize: Vec3, cutoff: real)

  /** The cell at offset `o` may hold a particle within the cutoff of the centre cell. */
  predicate Near(s: StencilParams, o: Offset) {
    var gx, gy, gz := Gap(o.x, s.cellSize.0), Gap(o.y, s.cellSize.1), Gap(o.z, s.cellSize.2);
    gx * gx + gy * gy + gz * gz <= s.cutoff * s.cutoff
  }

  /** An offset is in the stencil when it is forward and near. */
  function Keep(s: StencilParams, o: Offset): seq<Offset> {
    if Forward(o) && Near(s, o) then [o] else []
  }

  /** The offsets the x loop keeps in row (y, z): x from -nx up to x - 1. */
  function StencilRow(s: StencilParams, z: int, y: int, x: int): seq<Offset>
    requires -(s.nx as int) <= x
    decreases x + s.nx
  {
    if x == -(s.nx as int) then [] else StencilRow(s, z, y, x - 1) + Keep(s, Offset(x - 1, y, z))
  }

  lemma StencilRowStep(s: StencilParams, z: int, y: int, x: int)
    requires -(s.nx as int) <= x
    ensures StencilRow(s, z, y, x + 1) == StencilRow(s, z, y, x) + Keep(s, Offset(x, y, z))
  {
  }

  /** The offsets the y loop keeps in plane z: rows -ny .. y - 1. */
  function StencilPlane(s: StencilParams, z: int, y: int): seq<Offset>
    requires -(s.ny as int) <= y
    decreases y + s.ny
  {
    if y == -(s.ny as int) then [] else StencilPlane(s, z, y - 1) + StencilRow(s, z, y - 1, s.nx + 1)
  }

  /** The offsets the z loop keeps: planes 0 .. z - 1. */
  function StencilUpTo(s: StencilParams, z: nat): seq<Offset> {
    if z == 0 then [] else StencilUpTo(s, z - 1) + StencilPlane(s, z - 1, s.ny + 1)
  }

  /** The reach box: 0 <= z <= nz and |y| <= ny, |x| <= nx. */
  predicate InReach(s: StencilParams, o: Offset) {
    0 <= o.z <= s.nz && -(s.ny as int) <= o.y <= s.ny && -(s.nx as int) <= o.x <= s.nx
  }

  lemma {:induction false} StencilRowHas(s: StencilParams, z: int, y: int, x: int, o: Offset)
    requires -(s.nx as int) <= x
    ensures o in StencilRow(s, z, y, x) <==> o.z == z && o.y == y && -(s.nx as int) <= o.x < x && Forward(o) && Near(s, o)
    decreases x + s.nx
  {
    if x > -(s.nx as int) {
      StencilRowHas(s, z, y, x - 1, o);
    }
  }

  lemma {:induction false} StencilPlaneHas(s: StencilParams, z: int, y: int, o: Offset)
    requires -(s.ny as int) <= y
    ensures o in StencilPlane(s, z, y) <==>
      o.z == z && -(s.ny as int) <= o.y < y && -(s.nx as int) <= o.x <= s.nx && Forward(o) && Near(s, o)
    decreases y + s.ny
  {
    if y > -(s.ny as int) {
      StencilPlaneHas(s, z, y - 1, o);
      StencilRowHas(s, z, y - 1, s.nx + 1, o);
    }
  }

  lemma {:induction false} StencilUpToHas(s: StencilParams, z: nat, o: Offset)
    ensures o in StencilUpTo(s, z) <==>
      0 <= o.z < z && -(s.ny as int) <= o.y <= s.ny && -(s.nx as int) <= o.x <= s.nx && Forward(o) && Near(s, o)
  {
    if z > 0 {
      StencilUpToHas(s, z - 1, o);
      StencilPlaneHas(s, z - 1, s.ny + 1, o);
    }
  }

  /** The complete stencil. */
  function Stencil(s: StencilParams): seq<Offset> {
    StencilUpTo(s, s.nz + 1)
  }

  /** The stencil holds exactly the forward offsets of the reach box that are near the centre cell. */
  lemma StencilMembers(s: StencilParams, o: Offset)
    ensures o in Stencil(s) <==> InReach(s, o) && Forward(o) && Near(s, o)
  {
    StencilUpToHas(s, s.nz + 1, o);
  }

  /** Nearness does not depend on the direction of an offset. */
  lemma NearNeg(s: StencilParams, o: Offset)
    ensures Near(s, Neg(o)) == Near(s, o)
  {
    assert Gap(-o.x, s.cellSize.0) == Gap(o.x, s.cellSize.0);
    assert Gap(-o.y, s.cellSize.1) == Gap(o.y, s.cellSize.1);
    assert Gap(-o.z, s.cellSize.2) == Gap(o.z, s.cellSize.2);
  }

  /**
   * The stencil is a half shell: it never holds the zero offset nor both an
   * offset and its negation, and of every other near offset within the
   * reach on all axes it holds exactly one of the two.
   */
  lemma StencilHalfShell(s: StencilParams, o: Offset)
    ensures Zero !in Stencil(s)
    ensures o in Stencil(s) ==> Neg(o) !in Stencil(s)
    ensures o != Zero && Abs(o.x) <= s.nx && Abs(o.y) <= s.ny && Abs(o.z) <= s.nz && Near(s, o) ==>
      (o in Stencil(s) <==> Neg(o) !in Stencil(s))
  {
    StencilMembers(s, Zero);
    StencilMembers(s, o);
    StencilMembers(s, Neg(o));
    ForwardHalf(o);
    NearNeg(s, o);
  }

  /** Adjacent cells are always near: a unit stencil holds every forward unit offset. */
  lemma UnitStencil(s: StencilParams, o: Offset)
    requires s.nx == 1 && s.ny == 1 && s.nz == 1
    requires Abs(o.x) <= 1 && Abs(o.y) <= 1 && Abs(o.z) <= 1
    ensures o in Stencil(s) <==> Forward(o)
  {
    StencilMembers(s, o);
    assert s.cutoff * s.cutoff >= 0.0;
  }

  /** The x loop of `create_neighbor_stencil`. */
  method StencilRowLoop(s: StencilParams, z: int, y: int) returns (row: seq<Offset>)
    ensures row == StencilRow(s, z, y, s.nx + 1)
  {
    row := [];
    var x := -(s.nx as int);
    while x <= s.nx
      invariant -(s.nx as int) <= x <= s.nx + 1
      invariant row == StencilRow(s, z, y, x)
    {
      var o := Offset(x, y, z);
      StencilRowStep(s, z, y, x);
      if Forward(o) {
        var gx, gy, gz := Gap(x, s.cellSize.0), Gap(y, s.cellSize.1), Gap(z, s.cellSize.2);
        if gx * gx + gy * gy + gz * gz <= s.cutoff * s.cutoff {
          row := row + [o];
        }
      }
      x := x + 1;
    }
  }

  /** The y loop of `create_neighbor_stencil`. */
  method StencilPlaneLoop(s: StencilParams, z: int) returns (plane: seq<Offset>)
    ensures plane == StencilPlane(s, z, s.ny + 1)
  {
    plane := [];
    var y := -(s.ny as int);
    while y <= s.ny
      invariant -(s.ny as int) <= y <= s.ny + 1
      invariant plane == StencilPlane(s, z, y)
    {
      var row := StencilRowLoop(s, z, y);
      plane := plane + row;
      y := y + 1;
    }
  }

  /**
   * `create_neighbor_stencil`: z from 0 to nz, y from -ny to ny, x from -nx
   * to nx, keeping forward offsets whose gap to the centre cell is within
   * the cutoff, in loop order.
   */
  method CreateNeighborStencil(s: StencilParams) returns (stencil: seq<Offset>)
    ensures stencil == Stencil(s)
  {
    stencil := [];
    var z: nat := 0;
    while z <= s.nz
      invariant z <= s.nz + 1
      invariant stencil == StencilUpTo(s, z)
    {
      var plane := StencilPlaneLoop(s, z);
      stencil := stencil + plane;
      z := z + 1;
    }
  }

  // ---- wrapping across periodic faces ----

  datatype Periodic = Periodic(x: bool, y: bool, z: bool)

  /**
   * How far a coordinate may overshoot and still be wrapped: the general
   * containers wrap any overshoot by one grid length; the plain container
   * wraps only -1 and N.
   */
  datatype WrapRule = AnyOvershoot | OneCell

  /** A coordinate after wrapping and the sign of the shift it took. */
  datatype Wrap = Wrap(n: int, sign: int)

  function WrapAxis(n: int, dim: nat, rule: WrapRule): (w: Wrap)
    ensures w.sign == 0 ==> w.n == n
    ensures -1 <= w.sign <= 1
  {
    match rule
    case AnyOvershoot =>
      if n < 0 then Wrap(n + dim, -1) else if n >= dim then Wrap(n - dim, 1) else Wrap(n, 0)
    case OneCell =>
      if n == -1 then Wrap(dim - 1, -1) else if n == dim then Wrap(0, 1) else Wrap(n, 0)
  }

  /** Only periodic axes are wrapped. */
  function WrapIf(periodic: bool, n: int, dim: nat, rule: WrapRule): (w: Wrap)
    ensures w.sign == 0 ==> w.n == n
    ensures -1 <= w.sign <= 1
  {
    if periodic then WrapAxis(n, dim, rule) else Wrap(n, 0)
  }

  /** The bit of one axis in the wrap flags: 1 << axis when that axis was wrapped. */
  function FlagBit(w: Wrap, bit: nat): nat {
    if w.sign != 0 then bit else 0
  }

  /** The neighbour coordinates after wrapping, the shift signs and the wrap flags (X = 1, Y = 2, Z = 4). */
  datatype Shifted = Shifted(cell: Offset, shift: Offset, flags: nat)

  function ShiftNeighbor(g: CellGrid, periodic: Periodic, rule: WrapRule, x: nat, y: nat, z: nat, d: Offset): Shifted {
    var wx := WrapIf(periodic.x, x + d.x, g.axes.x, rule);
    var wy := WrapIf(periodic.y, y + d.y, g.axes.y, rule);
    var wz := WrapIf(periodic.z, z + d.z, g.axes.z, rule);
    Shifted(Offset(wx.n, wy.n, wz.n), Offset(wx.sign, wy.sign, wz.sign), FlagBit(wx, 1) + FlagBit(wy, 2) + FlagBit(wz, 4))
  }

  /**
   * For unit displacements from a grid cell the two wrap rules agree: the
   * shifted coordinate can only overshoot by one cell.
   */
  lemma WrapRulesAgree(g: CellGrid, periodic: Periodic, x: nat, y: nat, z: nat, d: Offset)
    requires InGrid(g.axes, x, y, z) && Abs(d.x) <= 1 && Abs(d.y) <= 1 && Abs(d.z) <= 1
    ensures ShiftNeighbor(g, periodic, AnyOvershoot, x, y, z, d) == ShiftNeighbor(g, periodic, OneCell, x, y, z, d)
  {
  }

  /** A cell is wrapped on an axis exactly when its flag bit is set: the flags encode the shift. */
  lemma FlagsEncodeShift(g: CellGrid, periodic: Periodic, rule: WrapRule, x: nat, y: nat, z: nat, d: Offset)
    ensures var s := ShiftNeighbor(g, periodic, rule, x, y, z, d);
      s.flags < 8
      && (s.flags % 2 == 1 <==> s.shift.x != 0)
      && ((s.flags / 2) % 2 == 1 <==> s.shift.y != 0)
      && (s.flags / 4 == 1 <==> s.shift.z != 0)
  {
  }

  /** A neighbour that needs no wrapping keeps its plain coordinates and has no shift. */
  lemma UnwrappedNeighbor(g: CellGrid, periodic: Periodic, rule: WrapRule, x: nat, y: nat, z: nat, d: Offset)
    requires InAxes(g, x + d.x, y + d.y, z + d.z)
    ensures ShiftNeighbor(g, periodic, rule, x, y, z, d) == Shifted(Offset(x + d.x, y + d.y, z + d.z), Zero, 0)
  {
  }

  datatype CellPair = CellPair(c1: nat, c2: nat)

  /** A wrapped pair: the two cells, the wrap flags and the shift signs. */
  datatype WrappedPair = WrappedPair(c1: nat, c2: nat, flags: nat, shift: Offset)

  /** A wrapped pair is between two grid cells and has a non-zero shift. */
  predicate WrappedOk(g: CellGrid, p: WrappedPair) {
    p.c1 < GridCells(g) && p.c2 < GridCells(g) && p.shift != Zero && 0 < p.flags < 8
  }

  /**
   * The wrapped pair of a cell and a displacement: none when nothing was
   * wrapped or when the neighbour is still outside the grid after wrapping.
   */
  function WrappedCandidate(g: CellGrid, periodic: Periodic, rule: WrapRule, x: nat, y: nat, z: nat, d: Offset): (r: seq<WrappedPair>)
    requires Valid(g) && InGrid(g.axes, x, y, z)
    ensures |r| <= 1 && forall i :: 0 <= i < |r| ==> WrappedOk(g, r[i])
  {
    var s := ShiftNeighbor(g, periodic, rule, x, y, z, d);
    if s.shift == Zero || !InAxes(g, s.cell.x, s.cell.y, s.cell.z) then []
    else [WrappedPair(CellPosToIdx(g, x, y, z), CellPosToIdx(g, s.cell.x, s.cell.y, s.cell.z), s.flags, s.shift)]
  }

  /** The unwrapped neighbour pair of a cell and a displacement, when the neighbour is in the grid without wrapping. */
  function NeighborCandidate(g: CellGrid, periodic: Periodic, rule: WrapRule, x: nat, y: nat, z: nat, d: Offset): (r: seq<CellPair>)
    requires Valid(g) && InGrid(g.axes, x, y, z)
    ensures |r| <= 1 && forall i :: 0 <= i < |r| ==> r[i].c1 < GridCells(g) && r[i].c2 < GridCells(g)
  {
    var s := ShiftNeighbor(g, periodic, rule, x, y, z, d);
    if s.shift != Zero || !InAxes(g, s.cell.x, s.cell.y, s.cell.z) then []
    else [CellPair(CellPosToIdx(g, x, y, z), CellPosToIdx(g, s.cell.x, s.cell.y, s.cell.z))]
  }

  /**
   * A displacement gives a plain neighbour pair exactly when the displaced
   * cell is in the grid, and then it is that cell; the zero displacement
   * never gives a wrapped pair.
   */
  lemma NeighborIffInGrid(g: CellGrid, periodic: Periodic, rule: WrapRule, x: nat, y: nat, z: nat, d: Offset)
    requires Valid(g) && InGrid(g.axes, x, y, z)
    ensures |NeighborCandidate(g, periodic, rule, x, y, z, d)| == 1 <==> InAxes(g, x + d.x, y + d.y, z + d.z)
    ensures InAxes(g, x + d.x, y + d.y, z + d.z) ==>
      NeighborCandidate(g, periodic, rule, x, y, z, d) == [CellPair(CellPosToIdx(g, x, y, z), CellPosToIdx(g, x + d.x, y + d.y, z + d.z))]
      && WrappedCandidate(g, periodic, rule, x, y, z, d) == []
    ensures WrappedCandidate(g, periodic, rule, x, y, z, Zero) == []
  {
    UnwrappedNeighbor(g, periodic, rule, x, y, z, Zero);
    if InAxes(g, x + d.x, y + d.y, z + d.z) {
      UnwrappedNeighbor(g, periodic, rule, x, y, z, d);
    }
  }


  /** The wrapped pairs of cell (x, y, z) for stencil entries 0 .. k - 1 (zero offsets are skipped). */
  function CellWrapped(g: CellGrid, periodic: Periodic, stencil: seq<Offset>, x: nat, y: nat, z: nat, k: nat): (r: seq<WrappedPair>)
    requires Valid(g) && InGrid(g.axes, x, y, z) && k <= |stencil|
    ensures forall i :: 0 <= i < |r| ==> WrappedOk(g, r[i])
  {
    if k == 0 then []
    else
      var own := if stencil[k - 1] == Zero then [] else WrappedCandidate(g, periodic, AnyOvershoot, x, y, z, stencil[k - 1]);
      CellWrapped(g, periodic, stencil, x, y, z, k - 1) + own
  }

  lemma {:induction false} CellWrappedHas(g: CellGrid, periodic: Periodic, stencil: seq<Offset>, x: nat, y: nat, z: nat, k: nat, j: nat, w: WrappedPair)
    requires Valid(g) && InGrid(g.axes, x, y, z) && j < k <= |stencil|
    requires w in WrappedCandidate(g, periodic, AnyOvershoot, x, y, z, stencil[j])
    ensures w in CellWrapped(g, periodic, stencil, x, y, z, k)
  {
    var prev := CellWrapped(g, periodic, stencil, x, y, z, k - 1);
    var own := if stencil[k - 1] == Zero then [] else WrappedCandidate(g, periodic, AnyOvershoot, x, y, z, stencil[k - 1]);
    if j < k - 1 {
      CellWrappedHas(g, periodic, stencil, x, y, z, k - 1, j, w);
    } else {
      NeighborIffInGrid(g, periodic, AnyOvershoot, x, y, z, stencil[j]);
    }
    Seqs.InConcat(w, prev, own);
  }

  /** The stencil loop for one cell. */
  method CellWrappedLoop(g: CellGrid, periodic: Periodic, stencil: seq<Offset>, x: nat, y: nat, z: nat) returns (pairs: seq<WrappedPair>)
    requires Valid(g) && InGrid(g.axes, x, y, z)
    ensures pairs == CellWrapped(g, periodic, stencil, x, y, z, |stencil|)
  {
    pairs := [];
    var k := 0;
    while k < |stencil|
      invariant k <= |stencil|
      invariant pairs == CellWrapped(g, periodic, stencil, x, y, z, k)
    {
      var d := stencil[k];
      if d != Zero {
        var s := ShiftNeighbor(g, periodic, AnyOvershoot, x, y, z, d);
        if s.shift != Zero && InAxes(g, s.cell.x, s.cell.y, s.cell.z) {
          pairs := pairs + [WrappedPair(CellPosToIdx(g, x, y, z), CellPosToIdx(g, s.cell.x, s.cell.y, s.cell.z), s.flags, s.shift)];
        }
      }
      k := k + 1;
    }
  }

  // ---- sweeps over the grid in (z, y, x) order ----

  /**
   * What is computed for each cell: the wrapped pairs over a whole stencil
   * (general containers), or the pairs of one of the 13 displacements
   * (plain container).
   */
  datatype Job = StencilJob(stencil: seq<Offset>) | DisplacementJob(d: Offset)

  function CellNeighbors(g: CellGrid, periodic: Periodic, job: Job, x: nat, y: nat, z: nat): (r: seq<CellPair>)
    requires Valid(g) && InGrid(g.axes, x, y, z)
    ensures forall i :: 0 <= i < |r| ==> r[i].c1 < GridCells(g) && r[i].c2 < GridCells(g)
  {
    match job
    case StencilJob(_) => []
    case DisplacementJob(d) => NeighborCandidate(g, periodic, OneCell, x, y, z, d)
  }

  function CellWraps(g: CellGrid, periodic: Periodic, job: Job, x: nat, y: nat, z: nat): (r: seq<WrappedPair>)
    requires Valid(g) && InGrid(g.axes, x, y, z)
    ensures forall i :: 0 <= i < |r| ==> WrappedOk(g, r[i])
  {
    match job
    case StencilJob(stencil) => CellWrapped(g, periodic, stencil, x, y, z, |stencil|)
    case DisplacementJob(d) => WrappedCandidate(g, periodic, OneCell, x, y, z, d)
  }

  /** The neighbour pairs of each cell x of row (y, z); none past the end of the row. */
  function RowNeighborParts(g: CellGrid, periodic: Periodic, job: Job, y: nat, z: nat): nat -> seq<CellPair>
    requires Valid(g) && y < g.axes.y && z < g.axes.z
  {
    (x: nat) => if x < g.axes.x then CellNeighbors(g, periodic, job, x, y, z) else []
  }

  /** Neighbour pairs of cells 0 .. x - 1 of row (y, z). */
  function RowNeighbors(g: CellGrid, periodic: Periodic, job: Job, y: nat, z: nat, x: nat): (r: seq<CellPair>)
    requires Valid(g) && y < g.axes.y && z < g.axes.z && x <= g.axes.x
    ensures forall i :: 0 <= i < |r| ==> r[i].c1 < GridCells(g) && r[i].c2 < GridCells(g)
  {
    Seqs.ConcatAll(RowNeighborParts(g, periodic, job, y, z), x, (p: CellPair) => p.c1 < GridCells(g) && p.c2 < GridCells(g));
    Seqs.Concat(RowNeighborParts(g, periodic, job, y, z), x)
  }

  /** The neighbour pairs of each whole row y of plane z; none past the last row. */
  function PlaneNeighborParts(g: CellGrid, periodic: Periodic, job: Job, z: nat): nat -> seq<CellPair>
    requires Valid(g) && z < g.axes.z
  {
    (y: nat) => if y < g.axes.y then RowNeighbors(g, periodic, job, y, z, g.axes.x) else []
  }

  /** Neighbour pairs of rows 0 .. y - 1 of plane z. */
  function PlaneNeighbors(g: CellGrid, periodic: Periodic, job: Job, z: nat, y: nat): (r: seq<CellPair>)
    requires Valid(g) && z < g.axes.z && y <= g.axes.y
    ensures forall i :: 0 <= i < |r| ==> r[i].c1 < GridCells(g) && r[i].c2 < GridCells(g)
  {
    Seqs.ConcatAll(PlaneNeighborParts(g, periodic, job, z), y, (p: CellPair) => p.c1 < GridCells(g) && p.c2 < GridCells(g));
    Seqs.Concat(PlaneNeighborParts(g, periodic, job, z), y)
  }

  /** The neighbour pairs of each whole plane z; none past the last plane. */
  function GridNeighborParts(g: CellGrid, periodic: Periodic, job: Job): nat -> seq<CellPair>
    requires Valid(g)
  {
    (z: nat) => if z < g.axes.z then PlaneNeighbors(g, periodic, job, z, g.axes.y) else []
  }

  /** Neighbour pairs of planes 0 .. z - 1. */
  function GridNeighbors(g: CellGrid, periodic: Periodic, job: Job, z: nat): (r: seq<CellPair>)
    requires Valid(g) && z <= g.axes.z
    ensures forall i :: 0 <= i < |r| ==> r[i].c1 < GridCells(g) && r[i].c2 < GridCells(g)
  {
    Seqs.ConcatAll(GridNeighborParts(g, periodic, job), z, (p: CellPair) => p.c1 < GridCells(g) && p.c2 < GridCells(g));
    Seqs.Concat(GridNeighborParts(g, periodic, job), z)
  }

  /** The wrapped pairs of each cell x of row (y, z); none past the end of the row. */
  function RowWrapParts(g: CellGrid, periodic: Periodic, job: Job, y: nat, z: nat): nat -> seq<WrappedPair>
    requires Valid(g) && y < g.axes.y && z < g.axes.z
  {
    (x: nat) => if x < g.axes.x then CellWraps(g, periodic, job, x, y, z) else []
  }

  /** Wrapped pairs of cells 0 .. x - 1 of row (y, z). */
  function RowWraps(g: CellGrid, periodic: Periodic, job: Job, y: nat, z: nat, x: nat): (r: seq<WrappedPair>)
    requires Valid(g) && y < g.axes.y && z < g.axes.z && x <= g.axes.x
    ensures forall i :: 0 <= i < |r| ==> WrappedOk(g, r[i])
  {
    Seqs.ConcatAll(RowWrapParts(g, periodic, job, y, z), x, (w: WrappedPair) => WrappedOk(g, w));
    Seqs.Concat(RowWrapParts(g, periodic, job, y, z), x)
  }

  /** The wrapped pairs of each whole row y of plane z; none past the last row. */
  function PlaneWrapParts(g: CellGrid, periodic: Periodic, job: Job, z: nat): nat -> seq<WrappedPair>
    requires Valid(g) && z < g.axes.z
  {
    (y: nat) => if y < g.axes.y then RowWraps(g, periodic, job, y, z, g.axes.x) else []
  }

  /** Wrapped pairs of rows 0 .. y - 1 of plane z. */
  function PlaneWraps(g: CellGrid, periodic: Periodic, job: Job, z: nat, y: nat): (r: seq<WrappedPair>)
    requires Valid(g) && z < g.axes.z && y <= g.axes.y
    ensures forall i :: 0 <= i < |r| ==> WrappedOk(g, r[i])
  {
    Seqs.ConcatAll(PlaneWrapParts(g, periodic, job, z), y, (w: WrappedPair) => WrappedOk(g, w));
    Seqs.Concat(PlaneWrapParts(g, periodic, job, z), y)
  }

  /** The wrapped pairs of each whole plane z; none past the last plane. */
  function GridWrapParts(g: CellGrid, periodic: Periodic, job: Job): nat -> seq<WrappedPair>
    requires Valid(g)
  {
    (z: nat) => if z < g.axes.z then PlaneWraps(g, periodic, job, z, g.axes.y) else []
  }

  /** Wrapped pairs of planes 0 .. z - 1. */
  function GridWraps(g: CellGrid, periodic: Periodic, job: Job, z: nat): (r: seq<WrappedPair>)
    requires Valid(g) && z <= g.axes.z
    ensures forall i :: 0 <= i < |r| ==> WrappedOk(g, r[i])
  {
    Seqs.ConcatAll(GridWrapParts(g, periodic, job), z, (w: WrappedPair) => WrappedOk(g, w));
    Seqs.Concat(GridWrapParts(g, periodic, job), z)
  }

  /** Whatever neighbour pair one grid cell contributes is in the sweep over the whole grid. */
  lemma GridHasNeighbor(g: CellGrid, periodic: Periodic, job: Job, z: nat, x': nat, y': nat, z': nat, p: CellPair)
    requires Valid(g) && z' < z <= g.axes.z && x' < g.axes.x && y' < g.axes.y
    requires p in CellNeighbors(g, periodic, job, x', y', z')
    ensures p in GridNeighbors(g, periodic, job, z)
  {
    Seqs.ConcatHas(RowNeighborParts(g, periodic, job, y', z'), g.axes.x, x', p);
    Seqs.ConcatHas(PlaneNeighborParts(g, periodic, job, z'), g.axes.y, y', p);
    Seqs.ConcatHas(GridNeighborParts(g, periodic, job), z, z', p);
  }

  /** Whatever wrapped pair one grid cell contributes is in the sweep over the whole grid. */
  lemma GridHasWrap(g: CellGrid, periodic: Periodic, job: Job, z: nat, x': nat, y': nat, z': nat, w: WrappedPair)
    requires Valid(g) && z' < z <= g.axes.z && x' < g.axes.x && y' < g.axes.y
    requires w in CellWraps(g, periodic, job, x', y', z')
    ensures w in GridWraps(g, periodic, job, z)
  {
    Seqs.ConcatHas(RowWrapParts(g, periodic, job, y', z'), g.axes.x, x', w);
    Seqs.ConcatHas(PlaneWrapParts(g, periodic, job, z'), g.axes.y, y', w);
    Seqs.ConcatHas(GridWrapParts(g, periodic, job), z, z', w);
  }

  // ---- wrapped pairs of the general containers ----

  /** The wrapped pairs of the general containers: every cell, every stencil offset. */
  function GridWrapped(g: CellGrid, periodic: Periodic, stencil: seq<Offset>): seq<WrappedPair>
    requires Valid(g)
  {
    GridWraps(g, periodic, StencilJob(stencil), g.axes.z)
  }

  /**
   * Every pair in the list is between grid cells with a non-zero shift, and
   * every wrapped pair any grid cell and non-zero stencil offset give is in
   * the list.
   */
  lemma WrappedComplete(g: CellGrid, periodic: Periodic, stencil: seq<Offset>, x: nat, y: nat, z: nat, j: nat, w: WrappedPair)
    requires Valid(g) && InGrid(g.axes, x, y, z) && j < |stencil|
    requires w in WrappedCandidate(g, periodic, AnyOvershoot, x, y, z, stencil[j])
    ensures w in GridWrapped(g, periodic, stencil)
    ensures forall i :: 0 <= i < |GridWrapped(g, periodic, stencil)| ==> WrappedOk(g, GridWrapped(g, periodic, stencil)[i])
  {
    CellWrappedHas(g, periodic, stencil, x, y, z, |stencil|, j, w);
    GridHasWrap(g, periodic, StencilJob(stencil), g.axes.z, x, y, z, w);
  }

  /** The x loop: the wrapped pairs of row (y, z). */
  method WrappedRowLoop(g: CellGrid, periodic: Periodic, stencil: seq<Offset>, y: nat, z: nat) returns (pairs: seq<WrappedPair>)
    requires Valid(g) && y < g.axes.y && z < g.axes.z
    ensures pairs == RowWraps(g, periodic, StencilJob(stencil), y, z, g.axes.x)
  {
    pairs := [];
    var x := 0;
    while x < g.axes.x
      invariant x <= g.axes.x
      invariant pairs == RowWraps(g, periodic, StencilJob(stencil), y, z, x)
    {
      var cell := CellWrappedLoop(g, periodic, stencil, x, y, z);
      Seqs.ConcatStep(RowWrapParts(g, periodic, StencilJob(stencil), y, z), x);
      assert RowWrapParts(g, periodic, StencilJob(stencil), y, z)(x)
        == if x < g.axes.x then CellWraps(g, periodic, StencilJob(stencil), x, y, z) else [];
      pairs := pairs + cell;
      x := x + 1;
    }
  }

  /** The y loop: the wrapped pairs of plane z. */
  method WrappedPlaneLoop(g: CellGrid, periodic: Periodic, stencil: seq<Offset>, z: nat) returns (pairs: seq<WrappedPair>)
    requires Valid(g) && z < g.axes.z
    ensures pairs == PlaneWraps(g, periodic, StencilJob(stencil), z, g.axes.y)
  {
    pairs := [];
    var y := 0;
    while y < g.axes.y
      invariant y <= g.axes.y
      invariant pairs == PlaneWraps(g, periodic, StencilJob(stencil), z, y)
    {
      var row := WrappedRowLoop(g, periodic, stencil, y, z);
      Seqs.ConcatStep(PlaneWrapParts(g, periodic, StencilJob(stencil), z), y);
      assert PlaneWrapParts(g, periodic, StencilJob(stencil), z)(y)
        == if y < g.axes.y then RowWraps(g, periodic, StencilJob(stencil), y, z, g.axes.x) else [];
      pairs := pairs + row;
      y := y + 1;
    }
  }

  /**
   * `compute_wrapped_cell_pairs`: for every cell in (z, y, x) order and
   * every non-zero stencil offset, wrap the neighbour on the periodic axes
   * and keep the pair when it was shifted and the wrapped neighbour lies in
   * the grid.
   */
  method ComputeWrappedCellPairs(g: CellGrid, periodic: Periodic, stencil: seq<Offset>) returns (pairs: seq<WrappedPair>)
    requires Valid(g)
    ensures pairs == GridWrapped(g, periodic, stencil)
  {
    pairs := [];
    for z := 0 to g.axes.z
      invariant pairs == GridWraps(g, periodic, StencilJob(stencil), z)
    {
      var plane := WrappedPlaneLoop(g, periodic, stencil, z);
      pairs := pairs + plane;
    }
  }

  // ---- the cell pairs of the plain linked-cells container ----

  /** The 13 half-shell unit displacements, in the container's order. */
  const Displacements: seq<Offset> := [
    Offset(1, 0, 0), Offset(0, 1, 0), Offset(0, 0, 1),
    Offset(1, 1, 0), Offset(1, -1, 0), Offset(1, 0, 1),
    Offset(-1, 0, 1), Offset(0, 1, 1), Offset(0, -1, 1),
    Offset(1, 1, 1), Offset(1, -1, 1), Offset(-1, 1, 1),
    Offset(-1, -1, 1)]

  predicate Unit(o: Offset) {
    -1 <= o.x <= 1 && -1 <= o.y <= 1 && -1 <= o.z <= 1
  }

  /** (z, x, y) is lexicographically above (0, 0, 0). */
  predicate ForwardZXY(o: Offset) {
    o.z > 0 || (o.z == 0 && (o.x > 0 || (o.x == 0 && o.y > 0)))
  }

  /**
   * The 13 displacements are exactly the unit offsets that are forward in
   * (z, x, y) order. (They are not the (z, y, x)-forward offsets of the
   * general stencil: (1, -1, 0) is listed instead of (-1, 1, 0).)
   */
  lemma DisplacementsForward(o: Offset)
    ensures o in Displacements <==> Unit(o) && ForwardZXY(o)
  {
    if Unit(o) && ForwardZXY(o) {
      if o.z == 1 {
        if o.x == -1 {
          if o.y == -1 { assert o == Displacements[12]; }
          else if o.y == 0 { assert o == Displacements[6]; }
          else { assert o == Displacements[11]; }
        } else if o.x == 0 {
          if o.y == -1 { assert o == Displacements[8]; }
          else if o.y == 0 { assert o == Displacements[2]; }
          else { assert o == Displacements[7]; }
        } else {
          if o.y == -1 { assert o == Displacements[10]; }
          else if o.y == 0 { assert o == Displacements[5]; }
          else { assert o == Displacements[9]; }
        }
      } else if o.x == 1 {
        if o.y == -1 { assert o == Displacements[4]; }
        else if o.y == 0 { assert o == Displacements[0]; }
        else { assert o == Displacements[3]; }
      } else {
        assert o == Displacements[1];
      }
    }
  }

  /**
   * The 13 displacements form a half shell of the unit cube: the zero
   * offset is not among them, and of every other unit offset and its
   * negation exactly one is.
   */
  lemma DisplacementsHalfShell(o: Offset)
    requires Unit(o)
    ensures |Displacements| == 13 && Zero !in Displacements
    ensures o in Displacements ==> Neg(o) !in Displacements
    ensures o != Zero ==> o in Displacements || Neg(o) in Displacements
  {
    DisplacementsForward(Zero);
    DisplacementsForward(o);
    DisplacementsForward(Neg(o));
  }

  /** The neighbour pairs of each displacement k over the whole grid; none past the last displacement. */
  function DisplacementNeighborParts(g: CellGrid, periodic: Periodic): nat -> seq<CellPair>
    requires Valid(g)
  {
    (k: nat) => if k < |Displacements| then GridNeighbors(g, periodic, DisplacementJob(Displacements[k]), g.axes.z) else []
  }

  /** The neighbour pairs of displacements 0 .. k - 1 over the whole grid. */
  function NeighborPairs(g: CellGrid, periodic: Periodic, k: nat): (r: seq<CellPair>)
    requires Valid(g) && k <= |Displacements|
    ensures forall i :: 0 <= i < |r| ==> r[i].c1 < GridCells(g) && r[i].c2 < GridCells(g)
  {
    Seqs.ConcatAll(DisplacementNeighborParts(g, periodic), k, (p: CellPair) => p.c1 < GridCells(g) && p.c2 < GridCells(g));
    Seqs.Concat(DisplacementNeighborParts(g, periodic), k)
  }

  /** The wrapped pairs of each displacement k over the whole grid; none past the last displacement. */
  function DisplacementWrapParts(g: CellGrid, periodic: Periodic): nat -> seq<WrappedPair>
    requires Valid(g)
  {
    (k: nat) => if k < |Displacements| then GridWraps(g, periodic, DisplacementJob(Displacements[k]), g.axes.z) else []
  }

  /** The wrapped pairs of displacements 0 .. k - 1 over the whole grid. */
  function WrappedPairs(g: CellGrid, periodic: Periodic, k: nat): (r: seq<WrappedPair>)
    requires Valid(g) && k <= |Displacements|
    ensures forall i :: 0 <= i < |r| ==> WrappedOk(g, r[i])
  {
    Seqs.ConcatAll(DisplacementWrapParts(g, periodic), k, (w: WrappedPair) => WrappedOk(g, w));
    Seqs.Concat(DisplacementWrapParts(g, periodic), k)
  }

  lemma NeighborPairsHas(g: CellGrid, periodic: Periodic, k: nat, j: nat, x: nat, y: nat, z: nat, p: CellPair)
    requires Valid(g) && j < k <= |Displacements| && InGrid(g.axes, x, y, z)
    requires p in NeighborCandidate(g, periodic, OneCell, x, y, z, Displacements[j])
    ensures p in NeighborPairs(g, periodic, k)
  {
    GridHasNeighbor(g, periodic, DisplacementJob(Displacements[j]), g.axes.z, x, y, z, p);
    Seqs.ConcatHas(DisplacementNeighborParts(g, periodic), k, j, p);
  }

  lemma WrappedPairsHas(g: CellGrid, periodic: Periodic, k: nat, j: nat, x: nat, y: nat, z: nat, w: WrappedPair)
    requires Valid(g) && j < k <= |Displacements| && InGrid(g.axes, x, y, z)
    requires w in WrappedCandidate(g, periodic, OneCell, x, y, z, Displacements[j])
    ensures w in WrappedPairs(g, periodic, k)
  {
    GridHasWrap(g, periodic, DisplacementJob(Displacements[j]), g.axes.z, x, y, z, w);
    Seqs.ConcatHas(DisplacementWrapParts(g, periodic), k, j, w);
  }

  /**
   * Every grid cell paired with a displaced cell inside the grid is a
   * neighbour pair of the plain container, and every wrapped pair a grid
   * cell and a displacement give is a wrapped pair of it.
   */
  lemma CellPairsComplete(g: CellGrid, periodic: Periodic, j: nat, x: nat, y: nat, z: nat, w: WrappedPair)
    requires Valid(g) && j < |Displacements| && InGrid(g.axes, x, y, z)
    ensures var d := Displacements[j];
      InAxes(g, x + d.x, y + d.y, z + d.z) ==>
        CellPair(CellPosToIdx(g, x, y, z), CellPosToIdx(g, x + d.x, y + d.y, z + d.z)) in NeighborPairs(g, periodic, |Displacements|)
    ensures w in WrappedCandidate(g, periodic, OneCell, x, y, z, Displacements[j]) ==> w in WrappedPairs(g, periodic, |Displacements|)
  {
    var d := Displacements[j];
    NeighborIffInGrid(g, periodic, OneCell, x, y, z, d);
    if InAxes(g, x + d.x, y + d.y, z + d.z) {
      NeighborPairsHas(g, periodic, |Displacements|, j, x, y, z, CellPair(CellPosToIdx(g, x, y, z), CellPosToIdx(g, x + d.x, y + d.y, z + d.z)));
    }
    if w in WrappedCandidate(g, periodic, OneCell, x, y, z, d) {
      WrappedPairsHas(g, periodic, |Displacements|, j, x, y, z, w);
    }
  }

  /**
   * Each unordered pair of adjacent grid cells comes from one source: two
   * (cell, displacement) sources whose plain pairs coincide are the same
   * source, and no source yields the reverse of another's pair.
   */
  lemma NeighborPairOnce(g: CellGrid, x: nat, y: nat, z: nat, d: Offset, x': nat, y': nat, z': nat, d': Offset)
    requires Valid(g) && InGrid(g.axes, x, y, z) && InGrid(g.axes, x', y', z') && d in Displacements && d' in Displacements
    requires InAxes(g, x + d.x, y + d.y, z + d.z) && InAxes(g, x' + d'.x, y' + d'.y, z' + d'.z)
    ensures CellPosToIdx(g, x, y, z) == CellPosToIdx(g, x', y', z')
         && CellPosToIdx(g, x + d.x, y + d.y, z + d.z) == CellPosToIdx(g, x' + d'.x, y' + d'.y, z' + d'.z)
         ==> x == x' && y == y' && z == z' && d == d'
    ensures !(CellPosToIdx(g, x, y, z) == CellPosToIdx(g, x' + d'.x, y' + d'.y, z' + d'.z)
           && CellPosToIdx(g, x + d.x, y + d.y, z + d.z) == CellPosToIdx(g, x', y', z'))
  {
    CellPosToIdxInjective(g, x, y, z, x', y', z');
    CellPosToIdxInjective(g, x + d.x, y + d.y, z + d.z, x' + d'.x, y' + d'.y, z' + d'.z);
    CellPosToIdxInjective(g, x, y, z, x' + d'.x, y' + d'.y, z' + d'.z);
    CellPosToIdxInjective(g, x + d.x, y + d.y, z + d.z, x', y', z');
    DisplacementsForward(d);
    DisplacementsForward(d');
  }

  /** The x loop of one displacement's sweep. */
  method SweepRow(g: CellGrid, periodic: Periodic, d: Offset, y: nat, z: nat) returns (neighbors: seq<CellPair>, wrapped: seq<WrappedPair>)
    requires Valid(g) && y < g.axes.y && z < g.axes.z
    ensures neighbors == RowNeighbors(g, periodic, DisplacementJob(d), y, z, g.axes.x)
    ensures wrapped == RowWraps(g, periodic, DisplacementJob(d), y, z, g.axes.x)
  {
    neighbors, wrapped := [], [];
    var x := 0;
    while x < g.axes.x
      invariant x <= g.axes.x
      invariant neighbors == RowNeighbors(g, periodic, DisplacementJob(d), y, z, x)
      invariant wrapped == RowWraps(g, periodic, DisplacementJob(d), y, z, x)
    {
      var s := ShiftNeighbor(g, periodic, OneCell, x, y, z, d);
      if InAxes(g, s.cell.x, s.cell.y, s.cell.z) {
        if s.shift == Zero {
          neighbors := neighbors + [CellPair(CellPosToIdx(g, x, y, z), CellPosToIdx(g, s.cell.x, s.cell.y, s.cell.z))];
        } else {
          wrapped := wrapped + [WrappedPair(CellPosToIdx(g, x, y, z), CellPosToIdx(g, s.cell.x, s.cell.y, s.cell.z), s.flags, s.shift)];
        }
      }
      x := x + 1;
    }
  }

  /** The y loop of one displacement's sweep. */
  method SweepPlane(g: CellGrid, periodic: Periodic, d: Offset, z: nat) returns (neighbors: seq<CellPair>, wrapped: seq<WrappedPair>)
    requires Valid(g) && z < g.axes.z
    ensures neighbors == PlaneNeighbors(g, periodic, DisplacementJob(d), z, g.axes.y)
    ensures wrapped == PlaneWraps(g, periodic, DisplacementJob(d), z, g.axes.y)
  {
    neighbors, wrapped := [], [];
    var y := 0;
    while y < g.axes.y
      invariant y <= g.axes.y
      invariant neighbors == PlaneNeighbors(g, periodic, DisplacementJob(d), z, y)
      invariant wrapped == PlaneWraps(g, periodic, DisplacementJob(d), z, y)
    {
      var ns, ws := SweepRow(g, periodic, d, y, z);
      neighbors, wrapped := neighbors + ns, wrapped + ws;
      y := y + 1;
    }
  }

  /** One displacement's sweep over the whole grid, z then y then x. */
  method Sweep(g: CellGrid, periodic: Periodic, d: Offset) returns (neighbors: seq<CellPair>, wrapped: seq<WrappedPair>)
    requires Valid(g)
    ensures neighbors == GridNeighbors(g, periodic, DisplacementJob(d), g.axes.z)
    ensures wrapped == GridWraps(g, periodic, DisplacementJob(d), g.axes.z)
  {
    neighbors, wrapped := [], [];
    var z := 0;
    while z < g.axes.z
      invariant z <= g.axes.z
      invariant neighbors == GridNeighbors(g, periodic, DisplacementJob(d), z)
      invariant wrapped == GridWraps(g, periodic, DisplacementJob(d), z)
    {
      var ns, ws := SweepPlane(g, periodic, d, z);
      neighbors, wrapped := neighbors + ns, wrapped + ws;
      z := z + 1;
    }
  }

  /**
   * `compute_cell_pairs` of the plain container: for each of the 13
   * displacements, for every cell, wrap only -1 and N on periodic axes,
   * drop neighbours still outside the grid, and file the pair as a plain
   * neighbour pair when nothing was shifted, as a wrapped pair otherwise.
   */
  method ComputeCellPairs(g: CellGrid, periodic: Periodic) returns (neighbors: seq<CellPair>, wrapped: seq<WrappedPair>)
    requires Valid(g)
    ensures neighbors == NeighborPairs(g, periodic, |Displacements|)
    ensures wrapped == WrappedPairs(g, periodic, |Displacements|)
  {
    neighbors, wrapped := [], [];
    var k := 0;
    while k < |Displacements|
      invariant k <= |Displacements|
      invariant neighbors == NeighborPairs(g, periodic, k)
      invariant wrapped == WrappedPairs(g, periodic, k)
    {
      var ns, ws := Sweep(g, periodic, Displacements[k]);
      Seqs.ConcatStep(DisplacementNeighborParts(g, periodic), k);
      Seqs.ConcatStep(DisplacementWrapParts(g, periodic), k);
      neighbors, wrapped := neighbors + ns, wrapped + ws;
      k := k + 1;
    }
  }
}
