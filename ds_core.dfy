/**
 * The direct-sum core of `direct_sum/ds_core.hpp`: every particle interacts
 * with every other, so the only structure is the grouping of the storage by
 * particle type. `build` stores the particles, buckets their indices by
 * type, reorders the storage bucket after bucket, and leaves the batches to
 * the layout-specific `generate_batches`. The dispatch of the batches picks
 * one of eight minimum-image specialisations from the periodicity flags.
 */
module DirectSumCores {
  import opened ParticleRecords
  import opened Bins
  import opened Seqs
  import CellOrderings
  import LayoutAoS
  import ParticleStates

  // ---- type buckets ----

  /** The type of every record, in storage order. */
  function TypesOf(rs: seq<Record>): (ts: seq<nat>)
    ensures |ts| == |rs| && forall i :: 0 <= i < |rs| ==> ts[i] == rs[i].ptype
  {
    seq(|rs|, i requires 0 <= i < |rs| => rs[i].ptype)
  }

  /**
   * Whether `for_each_particle_view` hands slot i to its kernel: with the
   * default mask ALL, the state must share a bit with ALL, so slots in state
   * INVALID or 0 are skipped.
   */
  predicate Visited(ss: seq<ParticleStates.ParticleState>, i: nat)
    requires i < |ss|
  {
    ParticleStates.PassesMask(ss[i], ParticleStates.ALL)
  }

  /**
   * The visited indices below n whose type is t, in increasing order: what
   * bucket t holds once the first n slots were iterated.
   */
  function OfType(ts: seq<nat>, ss: seq<ParticleStates.ParticleState>, t: nat, n: nat): (b: seq<nat>)
    requires n <= |ts| == |ss|
    ensures forall k :: 0 <= k < |b| ==> b[k] < n && ts[b[k]] == t && Visited(ss, b[k])
    ensures forall k1, k2 :: 0 <= k1 < k2 < |b| ==> b[k1] < b[k2]
  {
    if n == 0 then [] else OfType(ts, ss, t, n - 1) + (if Visited(ss, n - 1) && ts[n - 1] == t then [n - 1] else [])
  }

  /** A type no visited index below n has gets an empty list. */
  lemma {:induction false} OfTypeAbsent(ts: seq<nat>, ss: seq<ParticleStates.ParticleState>, t: nat, n: nat)
    requires n <= |ts| == |ss| && forall j :: 0 <= j < n && Visited(ss, j) ==> ts[j] != t
    ensures OfType(ts, ss, t, n) == []
    decreases n
  {
    if n > 0 {
      OfTypeAbsent(ts, ss, t, n - 1);
    }
  }

  /** Every visited index below n whose type is t is in the list. */
  lemma {:induction false} OfTypeComplete(ts: seq<nat>, ss: seq<ParticleStates.ParticleState>, t: nat, n: nat, j: nat)
    requires n <= |ts| == |ss| && j < n && Visited(ss, j) && ts[j] == t
    ensures j in OfType(ts, ss, t, n)
    decreases n
  {
    var prev := OfType(ts, ss, t, n - 1);
    if j < n - 1 {
      OfTypeComplete(ts, ss, t, n - 1, j);
      assert prev <= OfType(ts, ss, t, n);
    } else {
      assert OfType(ts, ss, t, n) == prev + [j];
    }
  }

  /**
   * How many buckets the first n slots need: one past the largest type of a
   * visited slot, none when no slot is visited.
   */
  function BucketCount(ts: seq<nat>, ss: seq<ParticleStates.ParticleState>, n: nat): (c: nat)
    requires n <= |ts| == |ss|
    ensures forall j :: 0 <= j < n && Visited(ss, j) ==> ts[j] < c
    ensures c > 0 ==> exists j :: 0 <= j < n && Visited(ss, j) && ts[j] == c - 1
  {
    if n == 0 then 0
    else
      var c := BucketCount(ts, ss, n - 1);
      if !Visited(ss, n - 1) || ts[n - 1] < c then c else ts[n - 1] + 1
  }

  /** The visiting order of `for_each_particle_view` with mask ALL. */
  function VisitOrder(ss: seq<ParticleStates.ParticleState>, n: nat): seq<nat>
    requires n <= |ss|
  {
    Selected(ss, ParticleStates.ALL, n)
  }

  /** Iterating one more slot appends it exactly when it is visited. */
  lemma VisitOrderStep(ss: seq<ParticleStates.ParticleState>, i: nat)
    requires i < |ss|
    ensures VisitOrder(ss, i + 1) == VisitOrder(ss, i) + (if Visited(ss, i) then [i] else [])
  {
  }

  /** At most one visit per slot. */
  lemma {:induction false} VisitOrderLength(ss: seq<ParticleStates.ParticleState>, n: nat)
    requires n <= |ss|
    ensures |VisitOrder(ss, n)| <= n
    decreases n
  {
    if n > 0 {
      VisitOrderLength(ss, n - 1);
      VisitOrderStep(ss, n - 1);
    }
  }

  /** Appending x to one bucket adds x once to the flattened buckets. */
  lemma {:induction false} FlattenPush(bins: seq<seq<nat>>, t: nat, x: nat)
    requires t < |bins|
    ensures multiset(Flatten(bins[t := bins[t] + [x]])) == multiset(Flatten(bins)) + multiset{x}
    decreases |bins|
  {
    var bins' := bins[t := bins[t] + [x]];
    var last := |bins| - 1;
    assert Flatten(bins') == Flatten(bins'[..last]) + bins'[last];
    assert Flatten(bins) == Flatten(bins[..last]) + bins[last];
    if t < last {
      assert bins'[..last] == bins[..last][t := bins[t] + [x]] && bins'[last] == bins[last];
      FlattenPush(bins[..last], t, x);
    } else {
      assert bins'[..last] == bins[..last] && bins'[last] == bins[last] + [x];
    }
  }

  /** k empty buckets: what `resize` appends. */
  function Empty(k: nat): (s: seq<seq<nat>>)
    ensures |s| == k && forall i :: 0 <= i < k ==> s[i] == []
  {
    seq(k, _ => [])
  }

  /** Appending empty buckets leaves the flattened order alone. */
  lemma {:induction false} FlattenEmptyTail(bins: seq<seq<nat>>, k: nat)
    ensures Flatten(bins + Empty(k)) == Flatten(bins)
    decreases k
  {
    FlattenAppend(bins, Empty(k));
    if k > 0 {
      assert Empty(k)[..k - 1] == Empty(k - 1);
      FlattenEmptyTail([], k - 1);
      assert [] + Empty(k - 1) == Empty(k - 1);
    }
  }

  /**
   * A rearrangement of the visiting order lists every visited slot once and
   * nothing else, and is no longer than the storage.
   */
  lemma VisitedOnce(f: seq<nat>, ss: seq<ParticleStates.ParticleState>, n: nat)
    requires n <= |ss| && multiset(f) == multiset(VisitOrder(ss, n))
    ensures Distinct(f) && |f| <= n && |f| == |VisitOrder(ss, n)|
    ensures forall k: nat :: k in f <==> k < n && Visited(ss, k)
    ensures forall k :: 0 <= k < |f| ==> f[k] < n
  {
    var order := VisitOrder(ss, n);
    VisitOrderLength(ss, n);
    assert |f| == |multiset(f)| == |order|;
    DistinctPermutation(f, order);
    forall k: nat
      ensures k in f <==> k < n && Visited(ss, k)
    {
      assert k in f <==> k in multiset(order);
      if k < n && Visited(ss, k) {
        SelectedComplete(ss, ParticleStates.ALL, n, k);
      }
    }
    forall k | 0 <= k < |f|
      ensures f[k] < n
    {
      assert f[k] in f;
    }
  }

  /** When every slot below n is visited, the visiting order has n entries. */
  lemma {:induction false} VisitOrderAll(ss: seq<ParticleStates.ParticleState>, n: nat)
    requires n <= |ss| && forall k :: 0 <= k < n ==> Visited(ss, k)
    ensures |VisitOrder(ss, n)| == n
    decreases n
  {
    if n > 0 {
      VisitOrderAll(ss, n - 1);
      VisitOrderStep(ss, n - 1);
    }
  }

  /**
   * The bucket loop of `build_batches`: `for_each_particle_view` iterates the
   * slots in storage order and hands the visited ones to the kernel, which
   * grows the bucket list to type + 1 whenever a larger type shows up and
   * pushes the index onto its type's bucket. Bucket t ends up holding exactly
   * the visited indices of type t in increasing order, there is one bucket
   * per type up to the largest visited one, and the buckets laid end to end
   * list every visited index once.
   */
  method TypeBuckets(ts: seq<nat>, ss: seq<ParticleStates.ParticleState>) returns (buckets: seq<seq<nat>>)
    requires |ts| == |ss|
    ensures |buckets| == BucketCount(ts, ss, |ts|)
    ensures forall t :: 0 <= t < |buckets| ==> buckets[t] == OfType(ts, ss, t, |ts|)
    ensures multiset(Flatten(buckets)) == multiset(VisitOrder(ss, |ts|))
  {
    buckets := [];
    for i := 0 to |ts|
      invariant BucketsUpTo(ts, ss, buckets, i)
    {
      if ParticleStates.PassesMask(ss[i], ParticleStates.ALL) {
        buckets := Visit(ts, ss, buckets, i);
      } else {
        SkipSlot(ts, ss, buckets, i);
      }
    }
  }

  /** One kernel call: grow the list if ts[i] is new, then push i onto bucket ts[i]. */
  method Visit(ts: seq<nat>, ss: seq<ParticleStates.ParticleState>, buckets: seq<seq<nat>>, i: nat)
    returns (next: seq<seq<nat>>)
    requires i < |ts| == |ss| && Visited(ss, i) && BucketsUpTo(ts, ss, buckets, i)
    ensures BucketsUpTo(ts, ss, next, i + 1)
  {
    var t := ts[i];
    GrowBuckets(ts, ss, buckets, i, t);
    next := buckets;
    if t >= |next| {
      next := next + Empty(t + 1 - |next|);
    }
    PushBucket(ts, ss, next, i);
    next := next[t := next[t] + [i]];
  }

  /** The buckets after iterating the first i slots. */
  ghost predicate BucketsUpTo(ts: seq<nat>, ss: seq<ParticleStates.ParticleState>, buckets: seq<seq<nat>>, i: nat)
    requires i <= |ts| == |ss|
  {
    |buckets| == BucketCount(ts, ss, i) && BucketsOf(ts, ss, buckets, i)
  }

  /** Bucket u lists the visited slots below i of type u, and together the buckets list each visited slot once. */
  ghost predicate BucketsOf(ts: seq<nat>, ss: seq<ParticleStates.ParticleState>, buckets: seq<seq<nat>>, i: nat)
    requires i <= |ts| == |ss|
  {
    && (forall u :: 0 <= u < |buckets| ==> buckets[u] == OfType(ts, ss, u, i))
    && multiset(Flatten(buckets)) == multiset(VisitOrder(ss, i))
  }

  /** A slot the iteration skips changes no bucket. */
  lemma SkipSlot(ts: seq<nat>, ss: seq<ParticleStates.ParticleState>, buckets: seq<seq<nat>>, i: nat)
    requires i < |ts| == |ss| && !Visited(ss, i) && BucketsUpTo(ts, ss, buckets, i)
    ensures BucketsUpTo(ts, ss, buckets, i + 1)
  {
    VisitOrderStep(ss, i);
    forall u | 0 <= u < |buckets|
      ensures buckets[u] == OfType(ts, ss, u, i + 1)
    {
      assert OfType(ts, ss, u, i + 1) == OfType(ts, ss, u, i) + [];
    }
  }

  /** Growing the bucket list past the largest type seen adds only empty buckets. */
  lemma GrowBuckets(ts: seq<nat>, ss: seq<ParticleStates.ParticleState>, buckets: seq<seq<nat>>, i: nat, t: nat)
    requires i <= |ts| == |ss| && BucketsUpTo(ts, ss, buckets, i)
    ensures var grown := if t >= |buckets| then buckets + Empty(t + 1 - |buckets|) else buckets;
      t < |grown| && BucketsOf(ts, ss, grown, i)
  {
    var k := if t >= |buckets| then t + 1 - |buckets| else 0;
    FlattenEmptyTail(buckets, k);
    assert Empty(0) == [];
    var grown := buckets + Empty(k);
    forall u | 0 <= u < |grown|
      ensures grown[u] == OfType(ts, ss, u, i)
    {
      if u >= |buckets| {
        OfTypeAbsent(ts, ss, u, i);
      }
    }
  }

  /** Pushing a visited i onto bucket ts[i] extends the buckets from the first i slots to the first i + 1. */
  lemma PushBucket(ts: seq<nat>, ss: seq<ParticleStates.ParticleState>, buckets: seq<seq<nat>>, i: nat)
    requires i < |ts| == |ss| && Visited(ss, i) && ts[i] < |buckets| && BucketsOf(ts, ss, buckets, i)
    ensures BucketsOf(ts, ss, buckets[ts[i] := buckets[ts[i]] + [i]], i + 1)
  {
    var next := buckets[ts[i] := buckets[ts[i]] + [i]];
    assert multiset(Flatten(next)) == multiset(VisitOrder(ss, i + 1)) by {
      FlattenPush(buckets, ts[i], i);
      VisitOrderStep(ss, i);
    }
    forall u | 0 <= u < |next|
      ensures next[u] == OfType(ts, ss, u, i + 1)
    {
      assert OfType(ts, ss, u, i + 1) == OfType(ts, ss, u, i) + (if ts[i] == u then [i] else []);
    }
  }

  /** Records whose types never decrease along the storage. */
  predicate SortedByType(rs: seq<Record>) {
    forall i, j :: 0 <= i < j < |rs| ==> rs[i].ptype <= rs[j].ptype
  }

  /** Gathering along the first m buckets visits types below m in non-decreasing order. */
  lemma {:induction false} BucketOrderSorted(rs: seq<Record>, buckets: seq<seq<nat>>, m: nat)
    requires m <= |buckets| && IndicesBelow(buckets, |rs|)
    requires forall t :: 0 <= t < |buckets| ==> buckets[t] == OfType(TypesOf(rs), StatesOf(rs), t, |rs|)
    ensures forall k :: 0 <= k < |Flatten(buckets[..m])| ==> Flatten(buckets[..m])[k] < |rs|
    ensures SortedByType(Gather(rs, Flatten(buckets[..m])))
    ensures forall k :: 0 <= k < |Flatten(buckets[..m])| ==> rs[Flatten(buckets[..m])[k]].ptype < m
    decreases m
  {
    if m > 0 {
      var head := buckets[..m - 1];
      assert buckets[..m][..m - 1] == head;
      BucketOrderSorted(rs, buckets, m - 1);
      var b := buckets[m - 1];
      assert Flatten(buckets[..m]) == Flatten(head) + b;
      SortedStep(rs, Flatten(head), b, m - 1);
    }
  }

  /** Following a run of types below t by a run of type t keeps the gathered records sorted by type. */
  lemma SortedStep(rs: seq<Record>, f: seq<nat>, b: seq<nat>, t: nat)
    requires forall k :: 0 <= k < |f| ==> f[k] < |rs| && rs[f[k]].ptype < t
    requires forall k :: 0 <= k < |b| ==> b[k] < |rs| && rs[b[k]].ptype == t
    requires SortedByType(Gather(rs, f))
    ensures forall k :: 0 <= k < |f + b| ==> (f + b)[k] < |rs| && rs[(f + b)[k]].ptype <= t
    ensures SortedByType(Gather(rs, f + b))
  {
    var g := Gather(rs, f + b);
    forall i, j | 0 <= i < j < |g|
      ensures g[i].ptype <= g[j].ptype
    {
      if j < |f| {
        assert g[i] == Gather(rs, f)[i] && g[j] == Gather(rs, f)[j];
      } else if i < |f| {
        assert g[i] == rs[f[i]] && g[j] == rs[b[j - |f|]];
      } else {
        assert g[i] == rs[b[i - |f|]] && g[j] == rs[b[j - |f|]];
      }
    }
  }

  /** Gathering along two rearrangements of the same indices gives rearrangements of the same records. */
  lemma {:induction false} GatherRearranged<T>(src: seq<T>, a: seq<nat>, b: seq<nat>)
    requires multiset(a) == multiset(b)
    requires forall k :: 0 <= k < |a| ==> a[k] < |src|
    requires forall k :: 0 <= k < |b| ==> b[k] < |src|
    ensures multiset(Gather(src, a)) == multiset(Gather(src, b))
    decreases |a|
  {
    if a != [] {
      var j := IndexOf(b, a[|a| - 1]);
      RemoveOne(a, b, j);
      GatherLast(src, a);
      GatherRemoveAt(src, b, j);
      GatherRearranged(src, a[..|a| - 1], b[..j] + b[j + 1..]);
    }
  }

  /** Gathering along a is gathering along all of a but its last index, plus the record at that index. */
  lemma GatherLast<T>(src: seq<T>, a: seq<nat>)
    requires a != [] && forall k :: 0 <= k < |a| ==> a[k] < |src|
    ensures multiset(Gather(src, a)) == multiset(Gather(src, a[..|a| - 1])) + multiset{src[a[|a| - 1]]}
  {
    assert a == a[..|a| - 1] + [a[|a| - 1]];
    GatherAppend(src, a[..|a| - 1], [a[|a| - 1]]);
  }

  /** Gathering along b is gathering along b without position j, plus the record at b[j]. */
  lemma GatherRemoveAt<T>(src: seq<T>, b: seq<nat>, j: nat)
    requires j < |b| && forall k :: 0 <= k < |b| ==> b[k] < |src|
    ensures var c := b[..j] + b[j + 1..]; forall k :: 0 <= k < |c| ==> c[k] < |src|
    ensures multiset(Gather(src, b)) == multiset(Gather(src, b[..j] + b[j + 1..])) + multiset{src[b[j]]}
  {
    var b1, b2 := b[..j], b[j + 1..];
    assert b == b1 + [b[j]] + b2;
    GatherAppend(src, b1, [b[j]]);
    GatherAppend(src, b1 + [b[j]], b2);
    GatherAppend(src, b1, b2);
  }

  /** A position of x in b, for an x that b holds. */
  lemma IndexOf(b: seq<nat>, x: nat) returns (j: nat)
    requires x in multiset(b)
    ensures j < |b| && b[j] == x
  {
    j :| 0 <= j < |b| && b[j] == x;
  }

  /** Taking the last element of a and an equal element at j of b leaves equal multisets. */
  lemma RemoveOne(a: seq<nat>, b: seq<nat>, j: nat)
    requires multiset(a) == multiset(b) && a != [] && j < |b| && b[j] == a[|a| - 1]
    ensures multiset(a[..|a| - 1]) == multiset(b[..j] + b[j + 1..])
  {
    var x := b[j];
    var a' := a[..|a| - 1];
    var b' := b[..j] + b[j + 1..];
    assert a == a' + [x];
    assert b == b[..j] + [x] + b[j + 1..];
    assert multiset(a) == multiset(a') + multiset{x};
    assert multiset(b) == multiset(b[..j]) + multiset{x} + multiset(b[j + 1..]);
    assert multiset(b') == multiset(b[..j]) + multiset(b[j + 1..]);
    forall y
      ensures multiset(a')[y] == multiset(b')[y]
    {
      assert multiset(a)[y] == multiset(a')[y] + multiset{x}[y];
      assert multiset(b)[y] == multiset(b[..j])[y] + multiset{x}[y] + multiset(b[j + 1..])[y];
    }
  }

  /** Gathering along u + v is gathering along u, then along v. */
  lemma GatherAppend<T>(src: seq<T>, u: seq<nat>, v: seq<nat>)
    requires forall k :: 0 <= k < |u| ==> u[k] < |src|
    requires forall k :: 0 <= k < |v| ==> v[k] < |src|
    ensures forall k :: 0 <= k < |u + v| ==> (u + v)[k] < |src|
    ensures Gather(src, u + v) == Gather(src, u) + Gather(src, v)
  {
    assert forall k :: 0 <= k < |u + v| ==> (u + v)[k] == if k < |u| then u[k] else v[k - |u|];
  }

  /**
   * `result` is `input` reordered along the type buckets into a scratch
   * vector `stale`: bucket t lists the visited indices of type t in input
   * order, there is one bucket per type up to the largest visited one, the
   * buckets laid end to end are a rearrangement of the visiting order, and
   * the scratch slots past the gathered records keep what they held.
   */
  ghost predicate GroupedByType(input: seq<Record>, buckets: seq<seq<nat>>, result: seq<Record>, stale: seq<Record>) {
    var ts, ss := TypesOf(input), StatesOf(input);
    && |buckets| == BucketCount(ts, ss, |input|)
    && (forall t :: 0 <= t < |buckets| ==> buckets[t] == OfType(ts, ss, t, |input|))
    && multiset(Flatten(buckets)) == multiset(VisitOrder(ss, |input|))
    && IndicesBelow(buckets, |input|)
    && |Flatten(buckets)| <= |stale|
    && result == Gather(input, Flatten(buckets)) + stale[|Flatten(buckets)|..]
  }

  /**
   * Reordering along the type buckets puts the visited records first, sorted
   * by type: they are a rearrangement of the records `for_each_particle_view`
   * visits, each passing ALL, distinct ids stay distinct, and the rest of the
   * storage is the untouched tail of the scratch vector.
   */
  lemma GroupedSorted(input: seq<Record>, buckets: seq<seq<nat>>, result: seq<Record>, stale: seq<Record>)
    requires GroupedByType(input, buckets, result, stale)
    ensures var m := |Flatten(buckets)|;
      && m == |VisitOrder(StatesOf(input), |input|)| && m <= |input| && m <= |result|
      && SortedByType(result[..m])
      && multiset(result[..m]) == multiset(Gather(input, VisitOrder(StatesOf(input), |input|)))
      && (forall j :: 0 <= j < m ==> Visited(StatesOf(result), j))
      && result[m..] == stale[m..]
      && (DistinctIds(input) ==> DistinctIds(result[..m]))
  {
    var f := Flatten(buckets);
    var m := |f|;
    var ss := StatesOf(input);
    VisitedOnce(f, ss, |input|);
    assert result[..m] == Gather(input, f) && result[m..] == stale[m..];
    assert multiset(result[..m]) == multiset(Gather(input, VisitOrder(ss, |input|))) by {
      GatherRearranged(input, f, VisitOrder(ss, |input|));
    }
    assert SortedByType(result[..m]) by {
      BucketOrderSorted(input, buckets, |buckets|);
      assert buckets[..|buckets|] == buckets;
    }
    forall j | 0 <= j < m
      ensures Visited(StatesOf(result), j)
    {
      assert result[j] == input[f[j]] && f[j] in f;
    }
    if DistinctIds(input) {
      forall i, j | 0 <= i < j < m
        ensures result[..m][i].id != result[..m][j].id
      {
        assert result[..m][i] == input[f[i]] && result[..m][j] == input[f[j]];
      }
    }
  }

  /**
   * A record the iteration skips (state INVALID or 0) is dropped: with
   * distinct ids, none of the gathered records carries its id.
   */
  lemma GroupedDropsSkipped(input: seq<Record>, buckets: seq<seq<nat>>, result: seq<Record>, stale: seq<Record>, k: nat)
    requires GroupedByType(input, buckets, result, stale) && DistinctIds(input)
    requires k < |input| && !ParticleStates.PassesMask(input[k].state, ParticleStates.ALL)
    ensures forall j :: 0 <= j < |Flatten(buckets)| ==> result[j].id != input[k].id
  {
    var f := Flatten(buckets);
    VisitedOnce(f, StatesOf(input), |input|);
    forall j | 0 <= j < |f|
      ensures result[j].id != input[k].id
    {
      assert f[j] in f && result[j] == input[f[j]];
    }
  }

  /**
   * When every record passes ALL, as for particles built with a live state,
   * nothing is dropped: the buckets list a permutation of all indices and the
   * result is the input gathered along them.
   */
  lemma GroupedAllVisited(input: seq<Record>, buckets: seq<seq<nat>>, result: seq<Record>, stale: seq<Record>)
    requires GroupedByType(input, buckets, result, stale) && |stale| == |input|
    requires forall k :: 0 <= k < |input| ==> ParticleStates.PassesMask(input[k].state, ParticleStates.ALL)
    ensures CellOrderings.IsPermutation(Flatten(buckets), |input|)
    ensures result == Gather(input, Flatten(buckets)) && multiset(result) == multiset(input)
    ensures DistinctIds(input) ==> DistinctIds(result)
  {
    var f := Flatten(buckets);
    var n := |input|;
    VisitedOnce(f, StatesOf(input), n);
    VisitOrderAll(StatesOf(input), n);
    assert stale[|f|..] == [];
    assert result == Gather(input, f) + [];
    GatherPermutes(input, f);
    if DistinctIds(input) {
      GatherDistinct(input, f);
    }
  }

  /**
   * Within the reordered storage, the visited records of one type keep
   * their input order: the k-th record of bucket t lands at the bucket's
   * offset plus k.
   */
  lemma GroupedKeepsOrder(input: seq<Record>, buckets: seq<seq<nat>>, result: seq<Record>, stale: seq<Record>, t: nat, k: nat)
    requires GroupedByType(input, buckets, result, stale)
    requires t < |buckets| && k < |buckets[t]|
    ensures Offsets(buckets)[t] + k < |Flatten(buckets)| && buckets[t][k] < |input|
    ensures result[Offsets(buckets)[t] + k] == input[buckets[t][k]]
    ensures input[buckets[t][k]].ptype == t
  {
    GatherBin(input, buckets, t, k);
  }

  // ---- the batch dispatch ----

  /**
   * The jump-table index of the periodicity flags: x, y and z set bits 4, 2
   * and 1, which are distinct, so the source's bitwise or is their sum.
   */
  function Mode(px: bool, py: bool, pz: bool): (m: nat)
    ensures m < 8
  {
    (if px then 4 else 0) + (if py then 2 else 0) + (if pz then 1 else 0)
  }

  /** The minimum-image specialisation (periodic in x, y, z) each case of the jump table runs. */
  function Specialisation(mode: nat): (bool, bool, bool)
    requires mode < 8
  {
    match mode
    case 0 => (false, false, false)
    case 1 => (false, false, true)
    case 2 => (false, true, false)
    case 3 => (false, true, true)
    case 4 => (true, false, false)
    case 5 => (true, false, true)
    case 6 => (true, true, false)
    case _ => (true, true, true)
  }

  /** The jump table runs, for every combination of flags, the specialisation periodic in exactly the flagged axes. */
  lemma JumpTableMatchesFlags(px: bool, py: bool, pz: bool)
    ensures Specialisation(Mode(px, py, pz)) == (px, py, pz)
  {
  }

  /** Distinct flag combinations select distinct cases: no two share a specialisation. */
  lemma ModeInjective(a: (bool, bool, bool), b: (bool, bool, bool))
    ensures Mode(a.0, a.1, a.2) == Mode(b.0, b.1, b.2) ==> a == b
  {
    JumpTableMatchesFlags(a.0, a.1, a.2);
    JumpTableMatchesFlags(b.0, b.1, b.2);
  }

  /** One kernel call of `for_each_interaction_batch`: a batch and the periodicity its minimum image uses. */
  datatype Call<S, A> = SymmetricCall(sym: S, image: (bool, bool, bool)) | AsymmetricCall(asym: A, image: (bool, bool, bool))

  /**
   * `for_each_interaction_batch`: the calls in order. Every symmetric batch
   * comes before every asymmetric one, each list keeps its own order, and
   * every call applies the minimum image periodic in exactly the flagged axes.
   */
  function Dispatch<S, A>(symmetric: seq<S>, asymmetric: seq<A>, px: bool, py: bool, pz: bool): (calls: seq<Call<S, A>>)
    ensures |calls| == |symmetric| + |asymmetric|
    ensures forall k :: 0 <= k < |symmetric| ==> calls[k] == SymmetricCall(symmetric[k], (px, py, pz))
    ensures forall k :: 0 <= k < |asymmetric| ==> calls[|symmetric| + k] == AsymmetricCall(asymmetric[k], (px, py, pz))
  {
    var image := Specialisation(Mode(px, py, pz));
    JumpTableMatchesFlags(px, py, pz);
    seq(|symmetric|, k requires 0 <= k < |symmetric| => SymmetricCall(symmetric[k], image))
      + seq(|asymmetric|, k requires 0 <= k < |asymmetric| => AsymmetricCall(asymmetric[k], image))
  }

  /** No symmetric call follows an asymmetric one. */
  lemma SymmetricFirst<S, A>(symmetric: seq<S>, asymmetric: seq<A>, px: bool, py: bool, pz: bool, i: nat, j: nat)
    requires i < j < |symmetric| + |asymmetric|
    ensures Dispatch(symmetric, asymmetric, px, py, pz)[i].AsymmetricCall? ==> Dispatch(symmetric, asymmetric, px, py, pz)[j].AsymmetricCall?
  {
    var calls := Dispatch(symmetric, asymmetric, px, py, pz);
    if i >= |symmetric| {
      assert calls[j] == calls[|symmetric| + (j - |symmetric|)];
    } else {
      assert calls[i] == SymmetricCall(symmetric[i], (px, py, pz));
    }
  }

  // ---- the core ----

  /** `DirectSumCore` over the array-of-structs layout. */
  class DirectSumCore {
    const layout: LayoutAoS.AoSLayout

    constructor()
      ensures fresh(layout) && layout.particles == [] && layout.tmp == [] && layout.idMap == []
    {
      layout := new LayoutAoS.AoSLayout();
    }

    /**
     * `build_batches`, up to `generate_batches`: buckets the indices that
     * `for_each_particle_view` visits by type and reorders the storage
     * bucket after bucket. The storage becomes the visited records of type 0,
     * then type 1, and so on, each type keeping its storage order, followed
     * by whatever the scratch vector held past them; `buckets` are the bucket
     * lists used.
     */
    method BuildBatches() returns (buckets: seq<seq<nat>>)
      requires |layout.tmp| == |layout.particles|
      requires IdsBelow(layout.particles, |layout.idMap|) && IdsBelow(layout.tmp, |layout.idMap|)
      modifies layout
      ensures GroupedByType(old(layout.particles), buckets, layout.particles, old(layout.tmp))
      ensures layout.tmp == old(layout.particles) && |layout.idMap| == old(|layout.idMap|)
      ensures PointsBack(layout.particles, layout.idMap)
      ensures DistinctIds(layout.particles) ==> MapsIds(layout.particles, layout.idMap)
    {
      ghost var before := layout.particles;
      var ts := TypesOf(layout.particles);
      var ss := StatesOf(layout.particles);
      buckets := TypeBuckets(ts, ss);
      VisitedOnce(Flatten(buckets), ss, |ts|);
      assert IndicesBelow(buckets, |ts|);
      layout.ReorderStorage(buckets);
    }

    /**
     * `build`: stores the particles, then groups them by type. The storage
     * starts with the visited input records in non-decreasing type order,
     * each type in input order; when every record passes ALL it is exactly
     * the input rearranged, and with distinct ids the map finds every id.
     */
    method Build(input: seq<Record>) returns (buckets: seq<seq<nat>>)
      requires IdsBelow(input, |input|) && IdsBelow(layout.tmp, |input|)
      modifies layout
      ensures GroupedByType(input, buckets, layout.particles, Fit(old(layout.tmp), |input|, Blank))
      ensures PointsBack(layout.particles, layout.idMap)
      ensures DistinctIds(layout.particles) ==> MapsIds(layout.particles, layout.idMap)
      ensures (forall k :: 0 <= k < |input| ==> ParticleStates.PassesMask(input[k].state, ParticleStates.ALL)) ==>
        multiset(layout.particles) == multiset(input) && (DistinctIds(input) ==> MapsIds(layout.particles, layout.idMap))
    {
      layout.BuildStorage(input);
      assert IdsBelow(layout.tmp, |layout.idMap|) by {
        forall i | 0 <= i < |layout.tmp|
          ensures layout.tmp[i].id < |input|
        {
          if i >= |old(layout.tmp)| {
            assert layout.tmp[i] == Blank;
          }
        }
      }
      buckets := BuildBatches();
      if forall k :: 0 <= k < |input| ==> ParticleStates.PassesMask(input[k].state, ParticleStates.ALL) {
        GroupedAllVisited(input, buckets, layout.particles, Fit(old(layout.tmp), |input|, Blank));
      }
    }

    /** `rebuild_structure`: a direct sum has no structure to rebuild; nothing changes. */
    method RebuildStructure()
      ensures unchanged(this, layout)
    {
    }
  }
}
