/**
 * `math::Range`, the half-open index interval [start, stop) over `size_t`
 * that the containers hand out, and its random-access iterator.
 */
module IndexRange {
  import opened Ints

  /** `size_t` arithmetic wraps modulo 2^64. */
  function Wrap(x: int): (r: u64)
    ensures 0 <= x < U64_LIMIT ==> r == x
  {
    x % U64_LIMIT
  }

  datatype Range = Range(start: u64, stop: u64)
  {
    /** Every constructor keeps start <= stop. */
    predicate Valid() { start <= stop }

    function Size(): (n: u64)
      requires Valid()
      ensures start + n == stop
    {
      stop - start
    }

    predicate Empty() { start == stop }

    predicate Contains(v: u64) { v >= start && v < stop }

    predicate Intersects(other: Range) { start < other.stop && stop > other.start }

    function Intersection(other: Range): (r: Range)
      ensures r.Valid()
      ensures r.start == Max(start, other.start)
    {
      Make(Max(start, other.start), Min(stop, other.stop))
    }

    /** `r[index]`, unchecked: `start + index` in `size_t`. */
    function At(index: u64): u64 {
      Wrap(start + index)
    }

    function Begin(): Iterator { Iterator(start) }
    function End(): Iterator { Iterator(stop) }
  }

  function Max(a: u64, b: u64): u64 { if a >= b then a else b }
  function Min(a: u64, b: u64): u64 { if a <= b then a else b }

  /** `Range(start, stop)`: a stop below start is raised to start. */
  function Make(start: u64, stop: u64): (r: Range)
    ensures r.Valid() && r.start == start
    ensures r.stop == if stop < start then start else stop
  {
    Range(start, Max(start, stop))
  }

  /** `Range()`: the empty range [0, 0). */
  const EMPTY: Range := Range(0, 0)

  /** `Range(std::pair<I, I>)`: both ends are cast to `size_t` (negative values wrap) first. */
  function FromPair(first: int, second: int): (r: Range)
    ensures r.Valid()
    ensures 0 <= first < U64_LIMIT && 0 <= second < U64_LIMIT ==> r == Make(first, second)
  {
    Make(Wrap(first), Wrap(second))
  }

  /**
   * `Range(R&&)` for a sized range whose elements are `values`: the first
   * element becomes start and start + size becomes stop; an empty source
   * gives [0, 0).
   */
  function FromSized(values: seq<u64>): (r: Range)
    requires |values| < U64_LIMIT
    ensures values == [] ==> r == EMPTY
    ensures values != [] && values[0] + |values| < U64_LIMIT ==>
      r.Valid() && r.start == values[0] && r.Size() == |values|
  {
    if values == [] then EMPTY else Range(values[0], Wrap(values[0] + |values|))
  }

  /** `ptrdiff_t` holds -2^63 .. 2^63 - 1. */
  const I64_HALF: int := 0x8000_0000_0000_0000

  /** `static_cast<ptrdiff_t>` of a `size_t`: values from 2^63 up read as negative. */
  function Signed(x: u64): (r: int)
    ensures -I64_HALF <= r < I64_HALF
    ensures Wrap(r) == x
  {
    if x < I64_HALF then x else x - U64_LIMIT
  }

  /** The iterator is a bare counter. */
  datatype Iterator = Iterator(current: u64)
  {
    function Deref(): u64 { current }

    /** `++it`: `size_t` increment, wrapping past the largest value to 0. */
    function Next(): (it: Iterator)
      ensures current + 1 < U64_LIMIT ==> it.current == current + 1
      ensures current == U64_LIMIT - 1 ==> it.current == 0
    {
      Iterator(Wrap(current + 1))
    }

    /** `--it`: `size_t` decrement, wrapping below 0 to the largest value. */
    function Prev(): (it: Iterator)
      ensures current > 0 ==> it.current == current - 1
      ensures current == 0 ==> it.current == U64_LIMIT - 1
    {
      Iterator(Wrap(current - 1))
    }

    /** `it + n` and `it += n`: the signed step is cast to `size_t`. */
    function Advance(n: int): (it: Iterator)
      ensures 0 <= current + n < U64_LIMIT ==> it.current == current + n
      ensures (it.current - (current + n)) % U64_LIMIT == 0
    {
      Iterator(Wrap(current + n))
    }

    /** `it[n]`: `current + n` in `size_t`. */
    function Index(n: int): (v: u64)
      ensures 0 <= current + n < U64_LIMIT ==> v == current + n
      ensures v == Advance(n).Deref()
    {
      Wrap(current + n)
    }

    /**
     * `a - b`: both counters are cast to `ptrdiff_t` and subtracted, the
     * difference kept in 64 signed bits (two's complement, as the compiled
     * code computes it).
     */
    function Distance(other: Iterator): (d: int)
      ensures -I64_HALF <= d < I64_HALF
      ensures Wrap(d) == Wrap(current - other.current)
    {
      var diff := Signed(current) - Signed(other.current);
      WrapShift(Signed(current) - current, other.current - Signed(other.current), current - other.current);
      Signed(Wrap(diff))
    }
  }

  /** Adding multiples of 2^64 does not change a `size_t` value. */
  lemma WrapShift(a: int, b: int, x: int)
    requires a % U64_LIMIT == 0 && b % U64_LIMIT == 0
    ensures Wrap(x + a + b) == Wrap(x)
  {
  }

  /** The values iteration from `it` visits in `n` steps. */
  function Walk(it: Iterator, n: nat): seq<u64>
    decreases n
  {
    if n == 0 then [] else [it.Deref()] + Walk(it.Next(), n - 1)
  }

  // ---------------------------------------------------------------------
  // Properties
  // ---------------------------------------------------------------------

  /** The size is stop - start, and the range is empty exactly when the size is 0. */
  lemma SizeEmpty(r: Range)
    requires r.Valid()
    ensures r.Size() == r.stop - r.start
    ensures r.Empty() <==> r.Size() == 0
  {
  }

  /** `contains` is membership in [start, stop); an empty range contains nothing. */
  lemma ContainsBounds(r: Range, v: u64)
    requires r.Valid()
    ensures r.Contains(v) <==> r.start <= v < r.stop
    ensures r.Empty() ==> !r.Contains(v)
  {
  }

  /** `intersects` is symmetric, and ranges that merely touch do not intersect. */
  lemma IntersectsSymmetric(a: Range, b: Range)
    ensures a.Intersects(b) <==> b.Intersects(a)
    ensures a.stop == b.start ==> !a.Intersects(b)
  {
  }

  /** Non-empty ranges intersect exactly when they share a value. */
  lemma IntersectsIffShared(a: Range, b: Range)
    requires a.Valid() && b.Valid() && !a.Empty() && !b.Empty()
    ensures a.Intersects(b) <==> exists v: u64 :: a.Contains(v) && b.Contains(v)
  {
    if a.Intersects(b) {
      var v := Max(a.start, b.start);
      assert a.Contains(v) && b.Contains(v);
    }
  }

  /** The intersection contains exactly the values both ranges contain. */
  lemma IntersectionContains(a: Range, b: Range, v: u64)
    ensures a.Intersection(b).Contains(v) <==> a.Contains(v) && b.Contains(v)
  {
  }

  /** Disjoint ranges give the empty range [max start, max start). */
  lemma DisjointIntersection(a: Range, b: Range)
    requires a.Valid() && b.Valid() && !a.Intersects(b)
    ensures a.Intersection(b) == Range(Max(a.start, b.start), Max(a.start, b.start))
  {
  }

  /** Overlapping ranges give [max start, min stop). */
  lemma OverlapIntersection(a: Range, b: Range)
    requires a.Valid() && b.Valid() && a.Intersects(b)
    ensures a.Intersection(b) == Range(Max(a.start, b.start), Min(a.stop, b.stop))
  {
  }

  /**
   * An empty range strictly inside another still "intersects" it, although
   * the two share no value: `intersects` compares bounds only.
   */
  lemma EmptyRangeIntersects()
    ensures Range(5, 5).Intersects(Range(0, 10))
    ensures !exists v: u64 :: Range(5, 5).Contains(v)
  {
  }

  /** Iterating from `begin()` to `end()` yields start, start+1, ..., stop-1, which is `r[0..size)`. */
  lemma {:induction false} IterationValues(r: Range)
    requires r.Valid()
    ensures var vals := Walk(r.Begin(), r.Size());
      && |vals| == r.Size()
      && (forall i :: 0 <= i < |vals| ==> vals[i] == r.start + i == r.At(i))
  {
    WalkCounts(r.start, r.Size());
  }

  lemma {:induction false} WalkCounts(from: u64, n: nat)
    requires from + n <= U64_LIMIT
    decreases n
    ensures |Walk(Iterator(from), n)| == n
    ensures forall i :: 0 <= i < n ==> Walk(Iterator(from), n)[i] == from + i
  {
    if n > 0 {
      if n > 1 {
        WalkCounts(from + 1, n - 1);
      } else {
        assert Walk(Iterator(from).Next(), 0) == [];
      }
    }
  }

  /**
   * Advancing `begin()` by `size()` reaches `end()`. The distance between
   * them is the size while the size fits `ptrdiff_t`; a range of 2^63 or
   * more values gives a negative distance, the size less 2^64.
   */
  lemma BeginEnd(r: Range)
    requires r.Valid()
    ensures r.Begin().Advance(r.Size()) == r.End()
    ensures r.Size() < I64_HALF ==> r.End().Distance(r.Begin()) == r.Size()
    ensures r.Size() >= I64_HALF ==> r.End().Distance(r.Begin()) == r.Size() - U64_LIMIT < 0
  {
    var d := r.End().Distance(r.Begin());
    DistanceOfWrap(d, r.Size());
  }

  /** A signed 64-bit value is determined by its `size_t` reading. */
  lemma DistanceOfWrap(d: int, x: u64)
    requires -I64_HALF <= d < I64_HALF && Wrap(d) == x
    ensures d == Signed(x)
  {
  }

  /** For `Range(0, 2^63)` the iterators' difference wraps to -2^63 instead of the size. */
  lemma HugeRangeDistance()
    ensures Range(0, I64_HALF).End().Distance(Range(0, I64_HALF).Begin()) == -I64_HALF
  {
    BeginEnd(Range(0, I64_HALF));
  }
}
