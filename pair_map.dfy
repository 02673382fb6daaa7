/**
 * `utils::DensePairMap`: a symmetric lookup table from a pair of small
 * keys to one of the values it owns. `build` stores the values and, for
 * the i-th key pair (a, b), points both cells (a, b) and (b, a) of an
 * N x N table at value i; cells no pair names stay null.
 */
module PairMaps {
  import opened Ints
  import opened Wrappers
  import Grids

  datatype BuildError =
    | SizeMismatch // `std::invalid_argument`: keys and values differ in number
    | OutOfRange   // `std::out_of_range`: a key is not below N

  /** Both keys of a pair are below n. */
  predicate InRange(k: (u64, u64), n: nat) { k.0 < n && k.1 < n }

  predicate AllInRange(keys: seq<(u64, u64)>, n: nat) {
    forall i :: 0 <= i < |keys| ==> InRange(keys[i], n)
  }

  /** Pair k names the unordered pair {a, b}. */
  predicate Names(k: (u64, u64), a: nat, b: nat) {
    (k.0 == a && k.1 == b) || (k.0 == b && k.1 == a)
  }

  /** Row-major position of cell (a, b) in an n x n table. */
  function Cell(a: nat, b: nat, n: nat): (c: nat)
    requires a < n && b < n
    ensures c < n * n
  {
    CellBound(a, b, n);
    a * n + b
  }

  lemma CellBound(a: nat, b: nat, n: nat)
    requires a < n && b < n
    ensures a * n + b < n * n
  {
    assert a * n <= (n - 1) * n;
  }

  /** Distinct cells have distinct positions. */
  lemma CellInjective(a: nat, b: nat, c: nat, d: nat, n: nat)
    requires a < n && b < n && c < n && d < n
    ensures Cell(a, b, n) == Cell(c, d, n) ==> a == c && b == d
  {
    if a < c {
      Grids.Distribute(a, 1, n);
      Grids.MulLe(a + 1, c, n);
    } else if c < a {
      Grids.Distribute(c, 1, n);
      Grids.MulLe(c + 1, a, n);
    }
  }

  /**
   * The table after the first |keys| pairs are written: start all null,
   * then for pair i = (a, b) set cells (a, b) and (b, a) to value i.
   */
  function Fill(keys: seq<(u64, u64)>, n: nat): (t: seq<Option<nat>>)
    requires AllInRange(keys, n)
    ensures |t| == n * n
    decreases |keys|
  {
    if keys == [] then seq(n * n, _ => None)
    else
      var i := |keys| - 1;
      var t := Fill(keys[..i], n);
      t[Cell(keys[i].0, keys[i].1, n) := Some(i)][Cell(keys[i].1, keys[i].0, n) := Some(i)]
  }

  /** Reference definition: the last pair among `keys` that names {a, b}, if any. */
  function Writer(keys: seq<(u64, u64)>, a: nat, b: nat): (w: Option<nat>)
    ensures w.None? <==> forall i :: 0 <= i < |keys| ==> !Names(keys[i], a, b)
    ensures w.Some? ==> w.value < |keys| && Names(keys[w.value], a, b)
    ensures w.Some? ==> forall i :: w.value < i < |keys| ==> !Names(keys[i], a, b)
    decreases |keys|
  {
    if keys == [] then None
    else if Names(keys[|keys| - 1], a, b) then Some(|keys| - 1)
    else
      var w := Writer(keys[..|keys| - 1], a, b);
      assert forall i :: 0 <= i < |keys| - 1 ==> keys[..|keys| - 1][i] == keys[i];
      w
  }

  /** Each cell of the filled table points at the last pair that names it. */
  lemma {:induction false} FillIsWriter(keys: seq<(u64, u64)>, n: nat, a: nat, b: nat)
    requires AllInRange(keys, n) && a < n && b < n
    ensures Fill(keys, n)[Cell(a, b, n)] == Writer(keys, a, b)
    decreases |keys|
  {
    if keys != [] {
      var i := |keys| - 1;
      FillIsWriter(keys[..i], n, a, b);
      CellInjective(a, b, keys[i].0, keys[i].1, n);
      CellInjective(a, b, keys[i].1, keys[i].0, n);
    }
  }

  /** The table is symmetric: (a, b) and (b, a) always hold the same value. */
  lemma WriterSymmetric(keys: seq<(u64, u64)>, a: nat, b: nat)
    ensures Writer(keys, a, b) == Writer(keys, b, a)
  {
    forall i | 0 <= i < |keys|
      ensures Names(keys[i], a, b) == Names(keys[i], b, a)
    {
    }
  }

  /** How many pairs, from the front, are in range: where `build` stops. */
  function InRangePrefix(keys: seq<(u64, u64)>, n: nat): (k: nat)
    ensures k <= |keys|
    ensures AllInRange(keys[..k], n)
    ensures k < |keys| ==> !InRange(keys[k], n)
    decreases |keys|
  {
    if keys == [] then 0
    else if !InRange(keys[0], n) then 0
    else
      var k := 1 + InRangePrefix(keys[1..], n);
      assert keys[..k] == [keys[0]] + keys[1..][..k - 1];
      k
  }

  lemma InRangePrefixAll(keys: seq<(u64, u64)>, n: nat)
    ensures InRangePrefix(keys, n) == |keys| <==> AllInRange(keys, n)
  {
  }

  /** Where the pairs before i are in range, i is the stopping point exactly when pair i is not. */
  lemma PrefixStops(keys: seq<(u64, u64)>, n: nat, i: nat)
    requires i < |keys| && i <= InRangePrefix(keys, n)
    ensures i == InRangePrefix(keys, n) <==> !InRange(keys[i], n)
  {
    var k := InRangePrefix(keys, n);
    if i < k {
      assert keys[..k][i] == keys[i];
    }
  }

  /** Writing pair i extends the table of the first i pairs by its two cells. */
  lemma FillSnoc(keys: seq<(u64, u64)>, i: nat, n: nat)
    requires i < |keys| && AllInRange(keys[..i], n) && InRange(keys[i], n)
    ensures AllInRange(keys[..i + 1], n)
    ensures Fill(keys[..i + 1], n) ==
      Fill(keys[..i], n)[Cell(keys[i].0, keys[i].1, n) := Some(i)][Cell(keys[i].1, keys[i].0, n) := Some(i)]
  {
    assert keys[..i + 1][..i] == keys[..i];
    assert forall j :: 0 <= j < i ==> keys[..i][j] == keys[..i + 1][j];
    assert keys[..i + 1][i] == keys[i];
  }

  class DensePairMap<T> {
    var n: nat
    var table: seq<Option<nat>>
    var storage: seq<T>

    /** The pairs written into `table` so far. */
    ghost var written: seq<(u64, u64)>

    /** The table holds exactly the pairs written, and every cell points into `storage`. */
    ghost predicate Valid()
      reads this
    {
      && |written| <= |storage|
      && AllInRange(written, n)
      && table == Fill(written, n)
    }

    /** A default-constructed map: N = 0, no cells. */
    constructor()
      ensures Valid() && n == 0 && written == []
    {
      n := 0;
      table := [];
      storage := [];
      written := [];
    }

    /**
     * `build(keys, values)`. N is set first; a count mismatch then throws
     * with the table and values untouched. Otherwise the values are taken
     * over, the table reset to null, and the pairs written in order until
     * one has a key not below N, which throws with the earlier pairs
     * already written.
     */
    method Build(keys: seq<(u64, u64)>, values: seq<T>) returns (r: Result<(), BuildError>)
      modifies this
      ensures n == |values|
      ensures |keys| != |values| ==>
        r == Err(SizeMismatch) && table == old(table) && storage == old(storage) && written == old(written)
      ensures |keys| == |values| ==>
        && Valid()
        && storage == values
        && written == keys[..InRangePrefix(keys, |values|)]
        && (r == Ok(()) <==> AllInRange(keys, |values|))
        && (r.Err? ==> r.error == OutOfRange)
    {
      n := |values|;
      if |keys| != n {
        return Err(SizeMismatch);
      }
      storage := values;
      table := seq(n * n, _ => None);
      written := [];
      ghost var stop := InRangePrefix(keys, n);
      InRangePrefixAll(keys, n);
      for i := 0 to n
        invariant n == |values| == |keys| && storage == values
        invariant i <= stop
        invariant written == keys[..i]
        invariant Valid()
      {
        var (a, b) := keys[i];
        if a >= n || b >= n {
          PrefixStops(keys, n, i);
          return Err(OutOfRange);
        }
        PrefixStops(keys, n, i);
        ghost var next := keys[..i + 1];
        FillSnoc(keys, i, n);
        table := table[Cell(a, b, n) := Some(i)][Cell(b, a, n) := Some(i)];
        assert table == Fill(next, n);
        written := next;
      }
      return Ok(());
    }

    /**
     * `get(a, b)`: both keys must be below N. The result is the value of
     * the last pair that named {a, b}, or null when none did.
     */
    function Get(a: u64, b: u64): (v: Option<T>)
      reads this
      requires Valid() && a < n && b < n
      ensures v.None? <==> forall i :: 0 <= i < |written| ==> !Names(written[i], a, b)
      ensures v.Some? ==> exists i :: 0 <= i < |written| && Names(written[i], a, b) && v.value == storage[i]
    {
      FillIsWriter(written, n, a, b);
      match table[Cell(a, b, n)]
      case None => None
      case Some(i) => Some(storage[i])
    }

    /** `key_size()`. */
    function KeySize(): (k: nat)
      reads this
      ensures k == n
    {
      n
    }

    /** `get(a, b)` and `get(b, a)` return the same value. */
    lemma GetSymmetric(a: u64, b: u64)
      requires Valid() && a < n && b < n
      ensures Get(a, b) == Get(b, a)
    {
      FillIsWriter(written, n, a, b);
      FillIsWriter(written, n, b, a);
      WriterSymmetric(written, a, b);
    }

    /** A later pair overrides an earlier one that names the same cells. */
    lemma GetLastWriter(a: u64, b: u64)
      requires Valid() && a < n && b < n
      ensures Writer(written, a, b).Some? ==> Get(a, b) == Some(storage[Writer(written, a, b).value])
    {
      FillIsWriter(written, n, a, b);
    }
  }
}
