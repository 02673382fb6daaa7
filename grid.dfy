/**
 * A box of Nx x Ny x Nz cells and its row-major flat index
 * z * Ny * Nx + y * Nx + x (x fastest), as used by the cell orderings and
 * the linked-cells grid.
 */
module Grids {
  datatype Dims = Dims(x: nat, y: nat, z: nat)

  /** Nx * Ny * Nz. */
  function Count(g: Dims): nat {
    g.x * g.y * g.z
  }

  predicate InGrid(g: Dims, x: nat, y: nat, z: nat) {
    x < g.x && y < g.y && z < g.z
  }

  function Flat(g: Dims, x: nat, y: nat, z: nat): nat {
    z * g.y * g.x + y * g.x + x
  }

  // One nonlinear step per lemma keeps each proof small.

  lemma MulLe(a: nat, b: nat, n: nat)
    requires a <= b
    ensures a * n <= b * n
  {
  }

  lemma Distribute(a: nat, b: nat, n: nat)
    ensures (a + b) * n == a * n + b * n
  {
  }

  lemma DivMod(p: nat, n: nat)
    requires n > 0
    ensures p == (p / n) * n + p % n && 0 <= p % n < n && 0 <= p / n
  {
  }

  lemma Reassociate(a: nat, b: nat, c: nat)
    ensures a * b * c == a * (b * c) && a * b * c == (c * b) * a
  {
  }

  /** With a digit r below the radix n, q n + r is below m n whenever q < m. */
  lemma DigitBelow(q: nat, r: nat, m: nat, n: nat)
    requires q < m && r < n
    ensures q * n + r < m * n
  {
    MulLe(q + 1, m, n);
    Distribute(q, 1, n);
  }

  /** q n + r with r < n determines q and r. */
  lemma RadixUnique(q: nat, r: nat, q': nat, r': nat, n: nat)
    requires r < n && r' < n && q * n + r == q' * n + r'
    ensures q == q' && r == r'
  {
    if q < q' {
      DigitBelow(q, r, q', n);
    } else if q' < q {
      DigitBelow(q', r', q, n);
    }
  }

  lemma DivBelow(p: nat, n: nat, m: nat)
    requires n > 0 && p < m * n
    ensures p / n < m
  {
    DivMod(p, n);
    if p / n >= m {
      MulLe(m, p / n, n);
    }
  }

  lemma PositiveAxes(g: Dims, p: nat)
    requires p < Count(g)
    ensures g.x > 0 && g.y > 0 && g.z > 0
  {
  }

  /** The flat index is the plane offset z (Ny Nx) plus the in-plane offset y Nx + x. */
  lemma FlatSplit(g: Dims, x: nat, y: nat, z: nat)
    requires x < g.x && y < g.y
    ensures y * g.x + x < g.y * g.x
    ensures Flat(g, x, y, z) == z * (g.y * g.x) + (y * g.x + x)
  {
    DigitBelow(y, x, g.y, g.x);
    Reassociate(z, g.y, g.x);
  }

  /** Every cell of the box has a flat index below Nx * Ny * Nz. */
  lemma FlatBound(g: Dims, x: nat, y: nat, z: nat)
    requires InGrid(g, x, y, z)
    ensures Flat(g, x, y, z) < Count(g)
  {
    FlatSplit(g, x, y, z);
    DigitBelow(z, y * g.x + x, g.z, g.y * g.x);
    Reassociate(g.x, g.y, g.z);
    Reassociate(g.z, g.y, g.x);
  }

  /** Different cells have different flat indices. */
  lemma FlatInjective(g: Dims, x: nat, y: nat, z: nat, x': nat, y': nat, z': nat)
    requires InGrid(g, x, y, z) && InGrid(g, x', y', z')
    ensures Flat(g, x, y, z) == Flat(g, x', y', z') ==> x == x' && y == y' && z == z'
  {
    FlatSplit(g, x, y, z);
    FlatSplit(g, x', y', z');
    if Flat(g, x, y, z) == Flat(g, x', y', z') {
      RadixUnique(z, y * g.x + x, z', y' * g.x + x', g.y * g.x);
      RadixUnique(y, x, y', x', g.x);
    }
  }

  /** The cell with flat index p: x = p mod Nx, y = (p div Nx) mod Ny, z = p div Nx div Ny. */
  function CellOf(g: Dims, p: nat): (c: (nat, nat, nat))
    requires p < Count(g)
    ensures InGrid(g, c.0, c.1, c.2) && Flat(g, c.0, c.1, c.2) == p
  {
    PositiveAxes(g, p);
    DivMod(p, g.x);
    DivMod(p / g.x, g.y);
    var x: nat, y: nat, z: nat := p % g.x, (p / g.x) % g.y, (p / g.x) / g.y;
    Decode(g, p, x, y, z);
    (x, y, z)
  }

  lemma Decode(g: Dims, p: nat, x: nat, y: nat, z: nat)
    requires p < Count(g) && g.x > 0 && g.y > 0
    requires x == p % g.x && y == (p / g.x) % g.y && z == (p / g.x) / g.y
    ensures InGrid(g, x, y, z) && Flat(g, x, y, z) == p
  {
    var a := p / g.x;
    DivMod(p, g.x);
    DivMod(a, g.y);
    Distribute(z * g.y, y, g.x);
    Reassociate(g.x, g.y, g.z);
    DivBelow(p, g.x, g.z * g.y);
    DivBelow(a, g.y, g.z);
  }

  /** Decoding the flat index of a cell gives back the cell. */
  lemma CellOfFlat(g: Dims, x: nat, y: nat, z: nat)
    requires InGrid(g, x, y, z)
    ensures Flat(g, x, y, z) < Count(g) && CellOf(g, Flat(g, x, y, z)) == (x, y, z)
  {
    FlatBound(g, x, y, z);
    var c := CellOf(g, Flat(g, x, y, z));
    FlatInjective(g, c.0, c.1, c.2, x, y, z);
  }

  /** Past the last cell of row y comes the first cell of row y + 1. */
  lemma RowEnd(g: Dims, y: nat, z: nat)
    ensures Flat(g, g.x, y, z) == Flat(g, 0, y + 1, z)
  {
    Distribute(y, 1, g.x);
  }

  /** Past the last row of plane z comes the first cell of plane z + 1. */
  lemma PlaneEnd(g: Dims, z: nat)
    ensures Flat(g, 0, g.y, z) == Flat(g, 0, 0, z + 1)
  {
    Distribute(z, 1, g.y);
    Distribute(z * g.y, g.y, g.x);
  }

  /** Past the last plane comes index Nx * Ny * Nz. */
  lemma GridEnd(g: Dims)
    ensures Flat(g, 0, 0, g.z) == Count(g)
  {
    Reassociate(g.x, g.y, g.z);
    Reassociate(g.z, g.y, g.x);
  }
}
