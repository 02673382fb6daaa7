/**
 * The direct-sum container of `direct_sum.hpp` over the array-of-structs
 * container. `build` stores the particles, sorts the storage by type in
 * place by following the cycles of the sorting permutation with
 * `swap_particles`, and then makes one symmetric batch per type and one
 * asymmetric batch per pair of distinct types, each over the contiguous run
 * of indices its types occupy.
 */
module DirectSums {
  import opened ParticleRecords
  import opened Bins
  import CellOrderings
  import AoSContainers
  import DirectSumCores

  // ---- the sorting permutation ----

  /** Along `p`, the types of the indexed particles never decrease. */
  predicate OrdersByType(ts: seq<nat>, p: seq<nat>)
    requires forall k :: 0 <= k < |p| ==> p[k] < |ts|
  {
    forall a, b :: 0 <= a < b < |p| ==> ts[p[a]] <= ts[p[b]]
  }

  /** `p` with x inserted at position pos. */
  function InsertAt(p: seq<nat>, pos: nat, x: nat): (r: seq<nat>)
    requires pos <= |p|
    ensures |r| == |p| + 1 && r[pos] == x
    ensures forall k :: 0 <= k < pos ==> r[k] == p[k]
    ensures forall k :: pos < k <= |p| ==> r[k] == p[k - 1]
  {
    p[..pos] + [x] + p[pos..]
  }

  /**
   * Inserting index i after every index of type at most ts[i] and before
   * every index of larger type keeps the list a type-ordered arrangement of
   * distinct indices, now of 0 .. i.
   */
  lemma InsertKeepsOrder(ts: seq<nat>, p: seq<nat>, i: nat, pos: nat)
    requires i < |ts| && |p| == i && pos <= i
    requires forall k :: 0 <= k < i ==> p[k] < i
    requires forall a, b :: 0 <= a < b < i ==> p[a] != p[b]
    requires OrdersByType(ts, p)
    requires forall k :: 0 <= k < pos ==> ts[p[k]] <= ts[i]
    requires forall k :: pos <= k < i ==> ts[p[k]] > ts[i]
    ensures var r := InsertAt(p, pos, i);
      && (forall k :: 0 <= k < i + 1 ==> r[k] < i + 1)
      && (forall a, b :: 0 <= a < b < i + 1 ==> r[a] != r[b])
      && OrdersByType(ts, r)
  {
  }

  /**
   * The `std::ranges::sort` of the indices 0 .. n - 1 by particle type.
   * The standard promises a permutation ordered by the comparator and
   * nothing about the order of equal types; that is all this contract
   * states, and all the in-place sort below relies on.
   */
  method SortIndicesByType(ts: seq<nat>) returns (p: seq<nat>)
    ensures CellOrderings.IsPermutation(p, |ts|) && OrdersByType(ts, p)
  {
    p := [];
    for i := 0 to |ts|
      invariant |p| == i && forall k :: 0 <= k < i ==> p[k] < i
      invariant forall a, b :: 0 <= a < b < i ==> p[a] != p[b]
      invariant OrdersByType(ts, p)
    {
      var pos := 0;
      while pos < |p| && ts[p[pos]] <= ts[i]
        invariant pos <= |p| && forall k :: 0 <= k < pos ==> ts[p[k]] <= ts[i]
      {
        pos := pos + 1;
      }
      InsertKeepsOrder(ts, p, i, pos);
      p := InsertAt(p, pos, i);
    }
  }

  /** Gathering the records along a type-ordered permutation sorts them by type and keeps every record. */
  lemma GatherSortsByType(rs: seq<Record>, p: seq<nat>)
    requires CellOrderings.IsPermutation(p, |rs|) && OrdersByType(DirectSumCores.TypesOf(rs), p)
    ensures DirectSumCores.SortedByType(Gather(rs, p)) && multiset(Gather(rs, p)) == multiset(rs)
    ensures DistinctIds(rs) ==> DistinctIds(Gather(rs, p))
  {
    GatherPermutes(rs, p);
  }

  // ---- applying a permutation in place by following its cycles ----

  /** F is a set of indices below n that the permutation maps onto itself, forwards and backwards. */
  ghost predicate Closed(p0: seq<nat>, F: set<nat>, n: nat)
    requires |p0| == n
  {
    && (forall x {:trigger p0[x]} :: 0 <= x < n ==> (x in F <==> p0[x] in F))
    && (forall x :: 0 <= x < n ==> (x in F <==> p0[x] in F))
  }

  /**
   * The state between two cycles: every index of the finished set F holds
   * its target element a0[p0[x]] and has either its entry of p reset to
   * itself or its done flag set; every other index is untouched.
   */
  ghost predicate Applied<E>(a0: seq<E>, p0: seq<nat>, a: seq<E>, p: seq<nat>, done: seq<bool>, F: set<nat>, n: nat) {
    && |a0| == n && |a| == n && |p| == n && |done| == n
    && CellOrderings.IsPermutation(p0, n) && Closed(p0, F, n)
    && (forall x :: 0 <= x < n ==> p[x] < n)
    && (forall x {:trigger a[x]} {:trigger p[x]} {:trigger done[x]} ::
          0 <= x < n && x in F ==> a[x] == a0[p0[x]] && (p[x] == x || done[x]))
    && (forall x {:trigger a[x]} {:trigger p[x]} {:trigger done[x]} ::
          0 <= x < n && x !in F ==> a[x] == a0[x] && p[x] == p0[x] && !done[x])
  }

  /**
   * The shape of the cycle that starts at i, followed up to `cur`: the
   * indices C already passed are unfinished, start with i, and are exactly
   * the indices from i along p0 before `cur`.
   */
  ghost predicate CycleShape(p0: seq<nat>, F: set<nat>, C: set<nat>, cur: nat, i: nat, n: nat) {
    && |p0| == n && CellOrderings.IsPermutation(p0, n) && Closed(p0, F, n)
    && i < n && cur < n && i !in F && cur !in F && cur !in C
    && (C == {} ==> cur == i) && (C != {} ==> i in C)
    && (forall x :: x in C ==> x < n && x !in F && (p0[x] in C || p0[x] == cur))
    && (forall y :: 0 <= y < n && (p0[y] in C || p0[y] == cur) && p0[y] != i ==> y in C)
  }

  /**
   * The data inside that cycle: finished and passed indices hold their
   * targets, `cur` holds the element that started at i, and every other
   * index is untouched; passed indices have p reset and no done flag.
   */
  ghost predicate CycleData<E>(a0: seq<E>, p0: seq<nat>, a: seq<E>, p: seq<nat>, done: seq<bool>,
                               F: set<nat>, C: set<nat>, cur: nat, i: nat, n: nat) {
    && |a0| == n && |a| == n && |p| == n && |done| == n && |p0| == n && cur < n && i < n
    && (forall x :: 0 <= x < n ==> p0[x] < n)
    && (forall x :: 0 <= x < n ==> p[x] < n)
    && (forall x {:trigger a[x]} :: 0 <= x < n && (x in F || x in C) ==> a[x] == a0[p0[x]])
    && a[cur] == a0[i]
    && (forall x {:trigger a[x]} :: 0 <= x < n && x !in F && x !in C && x != cur ==> a[x] == a0[x])
    && (forall x :: 0 <= x < n && x in F ==> p[x] == x || done[x])
    && (forall x :: 0 <= x < n && x in C ==> p[x] == x && !done[x])
    && (forall x :: 0 <= x < n && x !in F && x !in C ==> p[x] == p0[x] && !done[x])
  }

  ghost predicate Following<E>(a0: seq<E>, p0: seq<nat>, a: seq<E>, p: seq<nat>, done: seq<bool>,
                               F: set<nat>, C: set<nat>, cur: nat, i: nat, n: nat) {
    CycleShape(p0, F, C, cur, i, n) && CycleData(a0, p0, a, p, done, F, C, cur, i, n)
  }

  /** Entering a cycle at an unfinished index. */
  lemma StartCycle<E>(a0: seq<E>, p0: seq<nat>, a: seq<E>, p: seq<nat>, done: seq<bool>, F: set<nat>, i: nat, n: nat)
    requires Applied(a0, p0, a, p, done, F, n) && i < n && i !in F
    ensures Following(a0, p0, a, p, done, F, {}, i, i, n)
  {
  }

  /**
   * The next index along an open cycle is unfinished, not yet passed and
   * different from `cur`, and stepping to it keeps the cycle's shape.
   */
  lemma ShapeStep(p0: seq<nat>, F: set<nat>, C: set<nat>, cur: nat, i: nat, n: nat)
    requires CycleShape(p0, F, C, cur, i, n) && p0[cur] != i
    ensures p0[cur] !in F && p0[cur] !in C && p0[cur] != cur
    ensures CycleShape(p0, F, C + {cur}, p0[cur], i, n)
  {
    var next := p0[cur];
    assert next !in F by {
      assert cur in F <==> next in F;
    }
    assert next !in C && next != cur by {
      assert (next in C || next == cur) && next != i ==> cur in C;
    }
    var C' := C + {cur};
    forall x | x in C'
      ensures x < n && x !in F && (p0[x] in C' || p0[x] == next)
    {
    }
    forall y | 0 <= y < n && (p0[y] in C' || p0[y] == next) && p0[y] != i
      ensures y in C'
    {
      Injective(p0, n, y, cur);
    }
  }

  /** Swapping `cur` with the next index of the cycle moves the target into `cur` and carries the start element on. */
  lemma DataStep<E>(a0: seq<E>, p0: seq<nat>, a: seq<E>, p: seq<nat>, done: seq<bool>,
                    F: set<nat>, C: set<nat>, cur: nat, i: nat, n: nat)
    requires CycleData(a0, p0, a, p, done, F, C, cur, i, n)
    requires cur !in F && cur !in C
    requires p[cur] == p0[cur] && p[cur] !in F && p[cur] !in C && p[cur] != cur
    ensures CycleData(a0, p0, Swap(a, cur, p[cur]), p[cur := cur], done, F, C + {cur}, p[cur], i, n)
  {
    var next := p[cur];
    var a' := Swap(a, cur, next);
    var p' := p[cur := cur];
    var C' := C + {cur};
    forall x | 0 <= x < n && (x in F || x in C')
      ensures a'[x] == a0[p0[x]]
    {
      if x != cur {
        assert a'[x] == a[x];
      }
    }
    forall x | 0 <= x < n && x !in F && x !in C' && x != next
      ensures a'[x] == a0[x]
    {
      assert a'[x] == a[x];
    }
    forall x | 0 <= x < n && x in C'
      ensures p'[x] == x && !done[x]
    {
    }
  }

  /** A permutation maps distinct indices to distinct indices. */
  lemma Injective(p0: seq<nat>, n: nat, x: nat, y: nat)
    requires CellOrderings.IsPermutation(p0, n) && x < n && y < n
    ensures p0[x] == p0[y] ==> x == y
  {
    if x < y {
      assert p0[x] != p0[y];
    } else if y < x {
      assert p0[y] != p0[x];
    }
  }

  /** One swap of the cycle: both parts of the state carry over to the next index. */
  lemma NextInCycle<E>(a0: seq<E>, p0: seq<nat>, a: seq<E>, p: seq<nat>, done: seq<bool>,
                       F: set<nat>, C: set<nat>, cur: nat, i: nat, n: nat)
    requires Following(a0, p0, a, p, done, F, C, cur, i, n) && p[cur] != i
    ensures p[cur] < n && p[cur] != cur
    ensures Following(a0, p0, Swap(a, cur, p[cur]), p[cur := cur], done, F, C + {cur}, p[cur], i, n)
  {
    assert p[cur] == p0[cur];
    ShapeStep(p0, F, C, cur, i, n);
    DataStep(a0, p0, a, p, done, F, C, cur, i, n);
  }

  /** The finished set grows by a whole closed cycle and stays closed under the permutation. */
  lemma CloseShape(p0: seq<nat>, F: set<nat>, C: set<nat>, cur: nat, i: nat, n: nat)
    requires CycleShape(p0, F, C, cur, i, n) && p0[cur] == i
    ensures i in F + C + {cur} && Closed(p0, F + C + {cur}, n)
  {
    var F' := F + C + {cur};
    forall x | 0 <= x < n
      ensures x in F' <==> p0[x] in F'
    {
      Injective(p0, n, x, cur);
    }
  }

  /** The cycle closes when the next index is its start: the whole cycle joins the finished set. */
  lemma CloseCycle<E>(a0: seq<E>, p0: seq<nat>, a: seq<E>, p: seq<nat>, done: seq<bool>,
                      F: set<nat>, C: set<nat>, cur: nat, i: nat, n: nat)
    requires Following(a0, p0, a, p, done, F, C, cur, i, n) && p[cur] == i
    ensures i in F + C + {cur}
    ensures Applied(a0, p0, a, p, done[cur := true], F + C + {cur}, n)
  {
    assert p[cur] == p0[cur];
    CloseShape(p0, F, C, cur, i, n);
    var F' := F + C + {cur};
    var done' := done[cur := true];
    forall x | 0 <= x < n && x in F'
      ensures a[x] == a0[p0[x]] && (p[x] == x || done'[x])
    {
    }
    forall x | 0 <= x < n && x !in F'
      ensures a[x] == a0[x] && p[x] == p0[x] && !done'[x]
    {
    }
  }

  /** An index finished by an earlier cycle but not flagged has p reset, so the cycle loop does not run. */
  lemma SkipFinished<E>(a0: seq<E>, p0: seq<nat>, a: seq<E>, p: seq<nat>, done: seq<bool>, F: set<nat>, i: nat, n: nat)
    requires Applied(a0, p0, a, p, done, F, n) && i < n && i in F && !done[i]
    ensures p[i] == i && Applied(a0, p0, a, p, done[i := true], F, n)
  {
    var done' := done[i := true];
    forall x | 0 <= x < n && x in F
      ensures a[x] == a0[p0[x]] && (p[x] == x || done'[x])
    {
    }
    forall x | 0 <= x < n && x !in F
      ensures a[x] == a0[x] && p[x] == p0[x] && !done'[x]
    {
    }
  }

  /** Only finished indices carry the done flag. */
  lemma DoneFinished<E>(a0: seq<E>, p0: seq<nat>, a: seq<E>, p: seq<nat>, done: seq<bool>, F: set<nat>, i: nat, n: nat)
    requires Applied(a0, p0, a, p, done, F, n) && i < n && done[i]
    ensures i in F
  {
  }

  /** Growing the finished set by a set holding i extends a finished prefix by i. */
  lemma PrefixFinished(F: set<nat>, F': set<nat>, i: nat)
    requires (forall x :: 0 <= x < i ==> x in F) && F <= F' && i in F'
    ensures forall x :: 0 <= x < i + 1 ==> x in F'
  {
  }

  /** Once every index is finished, each holds its target. */
  lemma AllApplied<E>(a0: seq<E>, p0: seq<nat>, a: seq<E>, p: seq<nat>, done: seq<bool>, F: set<nat>, n: nat)
    requires Applied(a0, p0, a, p, done, F, n) && forall x :: 0 <= x < n ==> x in F
    ensures a == Gather(a0, p0)
  {
  }

  /** Swapping two records keeps every id below the map size. */
  lemma SwapIdsBelow(rs: seq<Record>, i: nat, j: nat, size: nat)
    requires i < |rs| && j < |rs| && IdsBelow(rs, size)
    ensures IdsBelow(Swap(rs, i, j), size)
  {
    var r := Swap(rs, i, j);
    forall k | 0 <= k < |r|
      ensures r[k].id < size
    {
      if k != i && k != j {
        assert r[k] == rs[k];
      }
    }
  }

  // ---- type ranges ----

  /** The iota view [lo, hi) of a batch; the default-constructed view is [0, 0). */
  datatype Span = Span(lo: nat, hi: nat)

  /** [s.lo, s.hi) is a maximal non-empty run of type t. */
  predicate IsRun(ts: seq<nat>, t: nat, s: Span) {
    && s.lo < s.hi <= |ts|
    && (forall j :: s.lo <= j < s.hi ==> ts[j] == t)
    && (s.lo == 0 || ts[s.lo - 1] != t)
    && (s.hi == |ts| || ts[s.hi] != t)
  }

  /** [s.lo, s.hi) is the last maximal run of type t: no index after it has type t. */
  predicate LastRun(ts: seq<nat>, t: nat, s: Span) {
    IsRun(ts, t, s) && forall j :: s.hi <= j < |ts| ==> ts[j] != t
  }

  /**
   * The run loop of `build_batches`: walking the types, each time the type
   * changes the run just ended is stored under its type (a later run of
   * the same type overwrites an earlier one), and the final run is stored
   * after the loop. Every type that occurs has an entry, and the entry is
   * its last maximal run; `last` is the type of the final particle.
   */
  method TypeRanges(ts: seq<nat>) returns (ranges: map<nat, Span>, last: nat)
    requires |ts| > 0
    ensures last == ts[|ts| - 1]
    ensures forall t :: t in ranges <==> t in ts
    ensures forall t :: t in ranges ==> LastRun(ts, t, ranges[t])
  {
    ranges := map[];
    var start := 0;
    var current := ts[0];
    for i := 0 to |ts|
      invariant start <= i && start < |ts| && current == ts[start]
      invariant forall j :: start <= j < i ==> ts[j] == current
      invariant start == 0 || ts[start - 1] != current
      invariant forall t :: t in ranges <==> t in ts[..start]
      invariant forall t :: t in ranges ==> IsRun(ts, t, ranges[t]) && ranges[t].hi <= start
      invariant forall t :: t in ranges ==> forall j :: ranges[t].hi <= j < start ==> ts[j] != t
    {
      var t := ts[i];
      if current != t {
        assert ts[..i] == ts[..start] + ts[start..i];
        assert current in ts[start..i];
        ranges := ranges[current := Span(start, i)];
        start := i;
        current := t;
      }
    }
    assert ts == ts[..start] + ts[start..];
    assert current in ts[start..];
    ranges := ranges[current := Span(start, |ts|)];
    last := current;
  }

  /** `type_ranges[type]`: the stored range, or the empty range `operator[]` default-constructs. */
  function RangeOf(ranges: map<nat, Span>, t: nat): (s: Span)
    ensures t !in ranges ==> s == Span(0, 0)
  {
    if t in ranges then ranges[t] else Span(0, 0)
  }

  /** The range a batch gets for type t: its last maximal run, or [0, 0) when no particle has type t. */
  predicate RunOf(ts: seq<nat>, t: nat, s: Span) {
    (t in ts ==> LastRun(ts, t, s)) && (t !in ts ==> s == Span(0, 0))
  }

  /** In a sequence sorted ascending, every entry before a maximal run of t is smaller than t. */
  lemma BelowRunSmaller(ts: seq<nat>, t: nat, s: Span)
    requires forall a, b :: 0 <= a < b < |ts| ==> ts[a] <= ts[b]
    requires IsRun(ts, t, s)
    ensures forall k :: 0 <= k < s.lo ==> ts[k] < t
  {
    if s.lo > 0 {
      assert ts[s.lo - 1] <= ts[s.lo];
    }
  }

  /** In storage sorted by type, the run of type t holds exactly the indices of type t. */
  lemma SortedRunExact(ts: seq<nat>, t: nat, s: Span, j: nat)
    requires forall a, b :: 0 <= a < b < |ts| ==> ts[a] <= ts[b]
    requires RunOf(ts, t, s) && j < |ts|
    ensures s.lo <= j < s.hi <==> ts[j] == t
  {
    if ts[j] == t {
      assert t in ts;
      BelowRunSmaller(ts, t, s);
    }
  }

  // ---- batches ----

  /** A batch of every pair within one type's range. */
  datatype SymmetricBatch = SymmetricBatch(types: (nat, nat), indices: Span)

  /** A batch of every pair across two types' ranges. */
  datatype AsymmetricBatch = AsymmetricBatch(types: (nat, nat), indices1: Span, indices2: Span)

  /** The number of types the batches cover, for largest type `last`, with the type count widened past 16 bits. */
  function NumTypes(last: nat): (n: nat)
    ensures n > last
  {
    last + 1
  }

  /** `n_types` as written: `current_type + 1` stored back into the 16-bit `ParticleType`. */
  function NumTypesAsWritten(last: nat): (n: nat)
    requires last < 0x1_0000
    ensures n < 0x1_0000 && (last < 0xFFFF ==> n == last + 1)
  {
    (last + 1) % 0x1_0000
  }

  /** With 65535 as the largest type the 16-bit count wraps to 0, so not even that type gets a batch. */
  lemma NumTypesWraps()
    ensures NumTypesAsWritten(0xFFFF) == 0 && NumTypes(0xFFFF) == 0x1_0000
  {
  }

  /** The symmetric batches for types 0 .. nTypes - 1, in type order, each over its type's range. */
  predicate SymmetricFor(ts: seq<nat>, nTypes: nat, added: seq<SymmetricBatch>) {
    && |added| == nTypes
    && forall t :: 0 <= t < nTypes ==> added[t].types == (t, t) && RunOf(ts, t, added[t].indices)
  }

  /** The type pairs of a list of asymmetric batches. */
  function PairsOf(batches: seq<AsymmetricBatch>): (pairs: seq<(nat, nat)>)
    ensures |pairs| == |batches| && forall k :: 0 <= k < |batches| ==> pairs[k] == batches[k].types
  {
    seq(|batches|, k requires 0 <= k < |batches| => batches[k].types)
  }

  /**
   * The asymmetric batches: one per pair t1 < t2 < nTypes, in increasing
   * order of t1 and then of t2, each over the ranges of its two types.
   */
  ghost predicate AsymmetricFor(ts: seq<nat>, nTypes: nat, added: seq<AsymmetricBatch>) {
    && (forall p :: p in PairsOf(added) <==> p.0 < p.1 < nTypes)
    && (forall a, b :: 0 <= a < b < |added| ==> PairBefore(added[a].types, added[b].types))
    && forall k :: 0 <= k < |added| ==>
         RunOf(ts, added[k].types.0, added[k].indices1) && RunOf(ts, added[k].types.1, added[k].indices2)
  }

  /** Pair order: by first type, then by second. */
  predicate PairBefore(p: (nat, nat), q: (nat, nat)) {
    p.0 < q.0 || (p.0 == q.0 && p.1 < q.1)
  }

  /** The symmetric batch loop: one batch per type below nTypes, over `type_ranges[type]`. */
  method MakeSymmetric(ts: seq<nat>, ranges: map<nat, Span>, nTypes: nat) returns (added: seq<SymmetricBatch>)
    requires forall t :: t in ranges <==> t in ts
    requires forall t :: t in ranges ==> LastRun(ts, t, ranges[t])
    ensures SymmetricFor(ts, nTypes, added)
  {
    added := [];
    for t := 0 to nTypes
      invariant SymmetricFor(ts, t, added)
    {
      added := added + [SymmetricBatch((t, t), RangeOf(ranges, t))];
    }
  }

  /** The asymmetric batch loops: for t1 below nTypes and t2 from t1 + 1, a batch over both types' ranges. */
  method MakeAsymmetric(ts: seq<nat>, ranges: map<nat, Span>, nTypes: nat) returns (added: seq<AsymmetricBatch>)
    requires forall t :: t in ranges <==> t in ts
    requires forall t :: t in ranges ==> LastRun(ts, t, ranges[t])
    ensures AsymmetricFor(ts, nTypes, added)
  {
    added := [];
    for t1 := 0 to nTypes
      invariant forall p :: p in PairsOf(added) <==> p.0 < p.1 < nTypes && p.0 < t1
      invariant forall a, b :: 0 <= a < b < |added| ==> PairBefore(added[a].types, added[b].types)
      invariant forall a :: 0 <= a < |added| ==> added[a].types.0 < t1
      invariant forall k :: 0 <= k < |added| ==>
        RunOf(ts, added[k].types.0, added[k].indices1) && RunOf(ts, added[k].types.1, added[k].indices2)
    {
      for t2 := t1 + 1 to nTypes
        invariant forall p :: p in PairsOf(added) <==> p.0 < p.1 < nTypes && (p.0 < t1 || (p.0 == t1 && p.1 < t2))
        invariant forall a, b :: 0 <= a < b < |added| ==> PairBefore(added[a].types, added[b].types)
        invariant forall a :: 0 <= a < |added| ==> PairBefore(added[a].types, (t1, t2))
        invariant forall k :: 0 <= k < |added| ==>
          RunOf(ts, added[k].types.0, added[k].indices1) && RunOf(ts, added[k].types.1, added[k].indices2)
      {
        var b := AsymmetricBatch((t1, t2), RangeOf(ranges, t1), RangeOf(ranges, t2));
        assert PairsOf(added + [b]) == PairsOf(added) + [(t1, t2)];
        added := added + [b];
      }
    }
  }

  /**
   * With the storage sorted by type and every type below nTypes, the batches
   * cover every pair of particles i < j: a pair of one type lies in that
   * type's symmetric batch, and a pair of types t1 < t2 in the range pair of
   * the asymmetric batch for (t1, t2).
   */
  lemma BatchesCoverPairs(ts: seq<nat>, nTypes: nat, sym: seq<SymmetricBatch>, asym: seq<AsymmetricBatch>, i: nat, j: nat)
    requires forall a, b :: 0 <= a < b < |ts| ==> ts[a] <= ts[b]
    requires forall k :: 0 <= k < |ts| ==> ts[k] < nTypes
    requires SymmetricFor(ts, nTypes, sym) && AsymmetricFor(ts, nTypes, asym)
    requires i < j < |ts|
    ensures ts[i] == ts[j] ==> var s := sym[ts[i]].indices; s.lo <= i < s.hi && s.lo <= j < s.hi
    ensures ts[i] != ts[j] ==> exists k :: (0 <= k < |asym| && asym[k].types == (ts[i], ts[j])
      && asym[k].indices1.lo <= i < asym[k].indices1.hi && asym[k].indices2.lo <= j < asym[k].indices2.hi)
  {
    if ts[i] == ts[j] {
      SortedRunExact(ts, ts[i], sym[ts[i]].indices, i);
      SortedRunExact(ts, ts[i], sym[ts[i]].indices, j);
    } else {
      assert (ts[i], ts[j]) in PairsOf(asym);
      var k :| 0 <= k < |asym| && PairsOf(asym)[k] == (ts[i], ts[j]);
      SortedRunExact(ts, ts[i], asym[k].indices1, i);
      SortedRunExact(ts, ts[j], asym[k].indices2, j);
    }
  }

  /**
   * The state `build_batches` leaves: nothing added for an empty storage,
   * otherwise the symmetric and asymmetric batches for the types up to the
   * last particle's type appended to what was there.
   */
  ghost predicate BatchesAdded(rs: seq<Record>, sym0: seq<SymmetricBatch>, asym0: seq<AsymmetricBatch>,
                               sym: seq<SymmetricBatch>, asym: seq<AsymmetricBatch>) {
    if |rs| == 0 then sym == sym0 && asym == asym0
    else
      var ts := DirectSumCores.TypesOf(rs);
      var nTypes := NumTypes(ts[|ts| - 1]);
      && |sym| >= |sym0| && sym[..|sym0|] == sym0 && SymmetricFor(ts, nTypes, sym[|sym0|..])
      && |asym| >= |asym0| && asym[..|asym0|] == asym0 && AsymmetricFor(ts, nTypes, asym[|asym0|..])
  }

  // ---- the container ----

  /** `DirectSumBase` over the array-of-structs container. */
  class DirectSumBase {
    const storage: AoSContainers.AoSContainer
    var symmetricBatches: seq<SymmetricBatch>
    var asymmetricBatches: seq<AsymmetricBatch>

    constructor()
      ensures fresh(storage) && storage.particles == [] && !storage.isBuilt
      ensures symmetricBatches == [] && asymmetricBatches == []
    {
      storage := new AoSContainers.AoSContainer();
      symmetricBatches, asymmetricBatches := [], [];
    }

    /**
     * `sort_storage_by_type`: sorts the indices by type, applies that
     * permutation in place by following each cycle with `swap_particles`,
     * and points every id at its record's new index. Empty storage is left
     * alone. The storage ends as the old storage gathered along `order`, a
     * type-ordered permutation.
     */
    method SortStorageByType() returns (ghost order: seq<nat>)
      requires IdsBelow(storage.particles, |storage.idMap|)
      modifies storage
      ensures CellOrderings.IsPermutation(order, |old(storage.particles)|)
      ensures OrdersByType(DirectSumCores.TypesOf(old(storage.particles)), order)
      ensures storage.particles == Gather(old(storage.particles), order)
      ensures |storage.idMap| == old(|storage.idMap|) && PointsBack(storage.particles, storage.idMap)
      ensures DistinctIds(old(storage.particles)) ==> MapsIds(storage.particles, storage.idMap)
      ensures storage.isBuilt == old(storage.isBuilt)
    {
      var n := storage.ParticleCount();
      if n == 0 {
        order := [];
        return;
      }
      var p: seq<nat> := SortIndicesByType(DirectSumCores.TypesOf(storage.particles));
      order := p;
      ApplyInPlace(p);
      if DistinctIds(old(storage.particles)) {
        GatherDistinct(old(storage.particles), order);
      }
      storage.idMap := PointIds(storage.particles, storage.idMap);
    }

    /**
     * The cycle loop of `sort_storage_by_type`: for every index without the
     * done flag, follows its cycle with `swap_particles`. Afterwards index x
     * holds the record that stood at p[x].
     */
    method ApplyInPlace(p: seq<nat>)
      requires CellOrderings.IsPermutation(p, |storage.particles|)
      requires IdsBelow(storage.particles, |storage.idMap|)
      modifies storage
      ensures storage.particles == Gather(old(storage.particles), p)
      ensures IdsBelow(storage.particles, |storage.idMap|) && |storage.idMap| == old(|storage.idMap|)
      ensures storage.isBuilt == old(storage.isBuilt)
    {
      var n := |p|;
      ghost var a0 := storage.particles;
      var q := p;
      var done: seq<bool> := seq(n, _ => false);
      ghost var F: set<nat> := {};
      for i := 0 to n
        invariant Applied(a0, p, storage.particles, q, done, F, n)
        invariant forall x :: 0 <= x < i ==> x in F
        invariant IdsBelow(storage.particles, |storage.idMap|) && |storage.idMap| == old(|storage.idMap|)
        invariant storage.isBuilt == old(storage.isBuilt)
      {
        ghost var before := F;
        if !done[i] {
          q, done, F := FollowCycle(i, q, done, a0, p, F);
        } else {
          DoneFinished(a0, p, storage.particles, q, done, F, i, n);
        }
        PrefixFinished(before, F, i);
      }
      AllApplied(a0, p, storage.particles, q, done, F, n);
    }

    /**
     * One turn of the cycle loop of `sort_storage_by_type`, from an index
     * without the done flag: swaps along the cycle through i until the next
     * index is i again, resetting p on the way, and flags the last index.
     * Afterwards i and its whole cycle are finished.
     */
    method FollowCycle(i: nat, p: seq<nat>, done: seq<bool>, ghost a0: seq<Record>, ghost order: seq<nat>, ghost F: set<nat>)
      returns (p': seq<nat>, done': seq<bool>, ghost F': set<nat>)
      requires Applied(a0, order, storage.particles, p, done, F, |a0|) && i < |a0| && !done[i]
      requires IdsBelow(storage.particles, |storage.idMap|)
      modifies storage
      ensures Applied(a0, order, storage.particles, p', done', F', |a0|) && i in F' && F <= F'
      ensures IdsBelow(storage.particles, |storage.idMap|) && |storage.idMap| == old(|storage.idMap|)
      ensures storage.isBuilt == old(storage.isBuilt)
    {
      var n := |a0|;
      p', done' := p, done;
      var current: nat := i;
      ghost var C: set<nat> := {};
      ghost var newCycle := i !in F;
      ghost var start := storage.particles;
      if newCycle {
        StartCycle(a0, order, storage.particles, p', done', F, i, n);
      } else {
        SkipFinished(a0, order, storage.particles, p', done', F, i, n);
      }
      while i != p'[current]
        invariant current < n && |p'| == n && |done'| == n
        invariant newCycle ==> Following(a0, order, storage.particles, p', done', F, C, current, i, n)
        invariant !newCycle ==> current == i && p' == p && done' == done && storage.particles == start
        invariant IdsBelow(storage.particles, |storage.idMap|) && |storage.idMap| == old(|storage.idMap|)
        invariant storage.isBuilt == old(storage.isBuilt)
        decreases Naturals(n) - C
      {
        var next := p'[current];
        NextInCycle(a0, order, storage.particles, p', done', F, C, current, i, n);
        SwapIdsBelow(storage.particles, current, next, |storage.idMap|);
        storage.SwapParticles(current, next);
        p' := p'[current := current];
        C := C + {current};
        current := next;
      }
      if newCycle {
        CloseCycle(a0, order, storage.particles, p', done', F, C, current, i, n);
        F' := F + C + {current};
      } else {
        SkipFinished(a0, order, storage.particles, p', done', F, i, n);
        F' := F;
      }
      done' := done'[current := true];
    }

    /**
     * `build_batches`: nothing for an empty storage; otherwise the type
     * ranges, then a symmetric batch per type up to the last particle's type
     * and an asymmetric batch per pair of such types, appended to the
     * batch lists.
     */
    method BuildBatches()
      modifies this
      ensures BatchesAdded(storage.particles, old(symmetricBatches), old(asymmetricBatches), symmetricBatches, asymmetricBatches)
    {
      if storage.ParticleCount() == 0 {
        return;
      }
      var ts := DirectSumCores.TypesOf(storage.particles);
      var ranges, last := TypeRanges(ts);
      var nTypes := NumTypes(last);
      var sym := MakeSymmetric(ts, ranges, nTypes);
      var asym := MakeAsymmetric(ts, ranges, nTypes);
      ghost var sym0, asym0 := symmetricBatches, asymmetricBatches;
      symmetricBatches := symmetricBatches + sym;
      asymmetricBatches := asymmetricBatches + asym;
      assert symmetricBatches[..|sym0|] == sym0 && symmetricBatches[|sym0|..] == sym;
      assert asymmetricBatches[..|asym0|] == asym0 && asymmetricBatches[|asym0|..] == asym;
    }

    /**
     * `build`: stores the particles, sorts them by type in place and makes
     * the batches. The storage is the input rearranged along a type-ordered
     * permutation, the id map finds every id, and the batches are those of
     * the sorted storage.
     */
    method Build(input: seq<Record>) returns (ghost order: seq<nat>)
      requires !storage.isBuilt && IdsBelow(input, |input|) && DistinctIds(input)
      modifies this, storage
      ensures storage.isBuilt
      ensures CellOrderings.IsPermutation(order, |input|) && OrdersByType(DirectSumCores.TypesOf(input), order)
      ensures storage.particles == Gather(input, order)
      ensures MapsIds(storage.particles, storage.idMap)
      ensures BatchesAdded(storage.particles, old(symmetricBatches), old(asymmetricBatches), symmetricBatches, asymmetricBatches)
    {
      storage.BuildStorage(input);
      order := SortStorageByType();
      BuildBatches();
    }
  }
}
