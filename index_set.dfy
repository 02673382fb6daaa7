/**
 * `utils::IndexSet`: a sparse set of ids below a fixed universe size N.
 * `dense` packs the members; `sparse[id]` is the position of `id` in
 * `dense` (or SIZE_MAX). Erasing moves the last member into the hole.
 */
module SparseSets {
  import opened Ints

  /** `static_cast<size_t>(-1)`, the "not present" mark. */
  const NONE: u64 := U64_LIMIT - 1

  class IndexSet {
    var n: u64
    var sparse: seq<u64>
    var dense: seq<u64>

    /** The members, in no particular order. */
    ghost var elements: set<u64>

    /**
     * Every position of `dense` holds an id below N that `sparse` points
     * back to; `elements` is the set `dense` packs.
     */
    ghost predicate Valid()
      reads this
    {
      && |sparse| == n
      && |dense| <= n
      && (forall p :: 0 <= p < |dense| ==> dense[p] < n && sparse[dense[p]] == p)
      && elements == set p | 0 <= p < |dense| :: dense[p]
    }

    /** `IndexSet(maxId)`: N = maxId + 1 (in `size_t`), every slot unmarked, no members. */
    constructor(maxId: u64)
      ensures Valid()
      ensures n == (maxId + 1) % U64_LIMIT
      ensures elements == {} && dense == []
    {
      var size := (maxId + 1) % U64_LIMIT;
      n := size;
      sparse := seq(size, _ => NONE);
      dense := [];
      elements := {};
    }

    /** `contains`: id is in range, its slot points into `dense`, and that entry is id. */
    function Contains(id: u64): (b: bool)
      reads this
      requires Valid()
      ensures b <==> id in elements
    {
      if id < n && sparse[id] < |dense| && dense[sparse[id]] == id then true
      else
        assert forall p :: 0 <= p < |dense| ==> dense[p] != id;
        false
    }

    function Size(): (k: nat)
      reads this
      requires Valid()
      ensures k == |elements|
    {
      DenseDistinct();
      DistinctCard(dense);
      |dense|
    }

    /** No id sits twice in `dense`, since `sparse` points back to one position. */
    lemma DenseDistinct()
      requires Valid()
      ensures forall p, q :: 0 <= p < q < |dense| ==> dense[p] != dense[q]
    {
    }

    /** A set that lacks some id below N has fewer than N members. */
    lemma RoomForOne(id: u64)
      requires Valid() && id < n && id !in elements
      ensures |dense| < n
    {
      DenseDistinct();
      DistinctCard(dense);
      SubsetCard(elements + {id}, n);
    }

    /**
     * `insert(id)`: the id must be in range and absent (the library's check
     * is commented out). It is appended to `dense`.
     */
    method Insert(id: u64)
      requires Valid() && id < n && !Contains(id)
      modifies this
      ensures Valid()
      ensures elements == old(elements) + {id}
      ensures dense == old(dense) + [id]
      ensures n == old(n)
    {
      RoomForOne(id);
      ghost var before := dense;
      sparse := sparse[id := |dense| as u64];
      dense := dense + [id];
      elements := elements + {id};
      assert elements == set p | 0 <= p < |dense| :: dense[p] by {
        forall x | x in elements ensures exists p :: 0 <= p < |dense| && dense[p] == x {
          if x == id {
            assert dense[|before|] == x;
          } else {
            var p :| 0 <= p < |before| && before[p] == x;
            assert dense[p] == x;
          }
        }
      }
    }

    /**
     * `erase(id)`: the id must be a member. The last member moves into its
     * position, the last position is dropped and the id's slot is unmarked.
     */
    method Erase(id: u64)
      requires Valid() && Contains(id)
      modifies this
      ensures Valid()
      ensures elements == old(elements) - {id}
      ensures |dense| == |old(dense)| - 1
      ensures dense == old(dense)[old(sparse)[id] := old(dense)[|old(dense)| - 1]][..|old(dense)| - 1]
      ensures n == old(n)
    {
      DenseDistinct();
      var last := dense[|dense| - 1];
      var pos := sparse[id];
      dense := dense[pos := last];
      sparse := sparse[last := pos];
      dense := dense[..|dense| - 1];
      sparse := sparse[id := NONE];
      elements := set p | 0 <= p < |dense| :: dense[p];
      assert elements == old(elements) - {id} by {
        forall x | x in old(elements) && x != id ensures x in elements {
          var p :| 0 <= p < |old(dense)| && old(dense)[p] == x;
          if p == |old(dense)| - 1 {
            assert dense[pos] == x;
          } else {
            assert dense[p] == x;
          }
        }
      }
    }
  }

  /** A sequence without repeats has as many distinct elements as positions. */
  lemma {:induction false} DistinctCard(s: seq<u64>)
    requires forall p, q :: 0 <= p < q < |s| ==> s[p] != s[q]
    ensures |set p | 0 <= p < |s| :: s[p]| == |s|
  {
    if s != [] {
      var t := s[..|s| - 1];
      DistinctCard(t);
      var st := set p | 0 <= p < |t| :: t[p];
      var ss := set p | 0 <= p < |s| :: s[p];
      assert ss == st + {s[|s| - 1]};
      assert s[|s| - 1] !in st;
    }
  }

  /** The integers 0 .. n-1. */
  function Below(n: nat): (xs: set<int>)
    ensures forall x :: x in xs <==> 0 <= x < n
    ensures |xs| == n
  {
    if n == 0 then {} else Below(n - 1) + {n - 1}
  }

  /** A set of ids below `n` has at most `n` members. */
  lemma SubsetCard(xs: set<u64>, n: nat)
    requires forall x :: x in xs ==> x < n
    ensures |xs| <= n
  {
    var ys: set<int> := xs;
    assert ys <= Below(n);
    SubsetCardLe(ys, Below(n));
  }

  lemma SubsetCardLe<T>(a: set<T>, b: set<T>)
    requires a <= b
    ensures |a| <= |b|
  {
    assert b == a + (b - a);
  }

  /** An erased id can be inserted again, and is then a member once more. */
  method ReinsertAfterErase(s: IndexSet, id: u64)
    requires s.Valid() && s.Contains(id)
    modifies s
    ensures s.Valid() && s.Contains(id)
    ensures s.elements == old(s.elements)
  {
    s.Erase(id);
    assert !s.Contains(id);
    s.Insert(id);
  }
}
