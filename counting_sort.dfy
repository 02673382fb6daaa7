/**
 * The counting sort with which the linked-cells containers regroup their
 * storage by bin: count the particles of every bin, turn the counts into an
 * exclusive prefix sum (the start index of every bin), then scatter each
 * particle to `write_ptr[bin]++` and record its new index in the id map.
 *
 * `Dest(keys, i)` names where particle i lands: after every particle of a
 * smaller bin, and after the earlier particles of its own bin.
 */
module CountingSort {
  import opened ParticleRecords
  import CellOrderings

  /** How many of the keys equal b. */
  function Occ(keys: seq<nat>, b: nat): (r: nat)
    ensures r <= |keys|
  {
    if keys == [] then 0
    else Occ(keys[..|keys| - 1], b) + (if keys[|keys| - 1] == b then 1 else 0)
  }

  /** How many of the keys are smaller than b. */
  function Below(keys: seq<nat>, b: nat): (r: nat)
    ensures r <= |keys|
  {
    if keys == [] then 0
    else Below(keys[..|keys| - 1], b) + (if keys[|keys| - 1] < b then 1 else 0)
  }

  predicate KeysBelow(keys: seq<nat>, m: nat) {
    forall i :: 0 <= i < |keys| ==> keys[i] < m
  }

  /** The slot particle i is scattered to: inside its bin's range, hence below the particle count. */
  function Dest(keys: seq<nat>, i: nat): (d: nat)
    requires i < |keys|
    ensures Below(keys, keys[i]) <= d < Below(keys, keys[i] + 1) <= |keys|
  {
    EarlierInBin(keys, i);
    Below(keys, keys[i]) + Occ(keys[..i], keys[i])
  }

  function Dests(keys: seq<nat>): seq<nat> {
    seq(|keys|, i requires 0 <= i < |keys| => Dest(keys, i))
  }

  // ---- counting facts ----

  lemma PrefixStep(keys: seq<nat>, i: nat)
    requires i < |keys|
    ensures keys[..i + 1][..i] == keys[..i] && keys[..i + 1][i] == keys[i]
  {
  }

  /** Extending the counted prefix by one key. */
  lemma OccStep(keys: seq<nat>, i: nat, b: nat)
    requires i < |keys|
    ensures Occ(keys[..i + 1], b) == Occ(keys[..i], b) + (if keys[i] == b then 1 else 0)
  {
    PrefixStep(keys, i);
  }

  lemma {:induction false} BelowZero(keys: seq<nat>)
    ensures Below(keys, 0) == 0
  {
    if keys != [] {
      BelowZero(keys[..|keys| - 1]);
    }
  }

  /** The keys below b + 1 are those below b and those equal to b. */
  lemma {:induction false} BelowStep(keys: seq<nat>, b: nat)
    ensures Below(keys, b + 1) == Below(keys, b) + Occ(keys, b)
  {
    if keys != [] {
      BelowStep(keys[..|keys| - 1], b);
    }
  }

  lemma {:induction false} BelowMono(keys: seq<nat>, b: nat, b': nat)
    requires b <= b'
    ensures Below(keys, b) <= Below(keys, b')
  {
    if keys != [] {
      BelowMono(keys[..|keys| - 1], b, b');
    }
  }

  /** When every key is below m, all of them are counted by Below(keys, m). */
  lemma {:induction false} BelowAll(keys: seq<nat>, m: nat)
    requires KeysBelow(keys, m)
    ensures Below(keys, m) == |keys|
  {
    if keys != [] {
      var t := keys[..|keys| - 1];
      assert forall i :: 0 <= i < |t| ==> t[i] == keys[i];
      BelowAll(t, m);
    }
  }

  /** A later prefix holds strictly more copies of a key that occurs in between. */
  lemma {:induction false} OccGrows(keys: seq<nat>, i: nat, j: nat)
    requires i < j <= |keys|
    ensures Occ(keys[..i], keys[i]) < Occ(keys[..j], keys[i])
  {
    if j == i + 1 {
      OccStep(keys, i, keys[i]);
    } else {
      OccGrows(keys, i, j - 1);
      OccStep(keys, j - 1, keys[i]);
    }
  }

  /** The earlier copies of key k, and k itself, fit into the bin of k. */
  lemma EarlierInBin(keys: seq<nat>, i: nat)
    requires i < |keys|
    ensures Below(keys, keys[i]) + Occ(keys[..i], keys[i]) < Below(keys, keys[i] + 1)
  {
    OccGrows(keys, i, |keys|);
    assert keys[..|keys|] == keys;
    BelowStep(keys, keys[i]);
  }

  /** Slots follow the keys, and the original order among equal keys. */
  lemma DestOrder(keys: seq<nat>, i: nat, j: nat)
    requires i < |keys| && j < |keys|
    ensures Dest(keys, i) < Dest(keys, j) <==> keys[i] < keys[j] || (keys[i] == keys[j] && i < j)
  {
    if keys[i] < keys[j] {
      BelowMono(keys, keys[i] + 1, keys[j]);
    } else if keys[j] < keys[i] {
      BelowMono(keys, keys[j] + 1, keys[i]);
    } else if i < j {
      OccGrows(keys, i, j);
    } else if j < i {
      OccGrows(keys, j, i);
    }
  }

  /** Some bin below m holds slot d. */
  lemma {:induction false} FindBin(keys: seq<nat>, m: nat, d: nat)
    requires d < Below(keys, m)
    ensures exists k :: 0 <= k < m && Below(keys, k) <= d < Below(keys, k + 1)
  {
    BelowZero(keys);
    if d < Below(keys, m - 1) {
      FindBin(keys, m - 1, d);
    } else {
      assert Below(keys, m - 1) <= d < Below(keys, m - 1 + 1);
    }
  }

  /** The r-th copy of b among the keys, counting from 0. */
  lemma {:induction false} NthOcc(keys: seq<nat>, b: nat, r: nat)
    requires r < Occ(keys, b)
    ensures exists i :: 0 <= i < |keys| && keys[i] == b && Occ(keys[..i], b) == r
  {
    var t := keys[..|keys| - 1];
    if r < Occ(t, b) {
      NthOcc(t, b, r);
      var i :| 0 <= i < |t| && t[i] == b && Occ(t[..i], b) == r;
      assert keys[..i] == t[..i];
    } else {
      assert keys[..|keys| - 1] == t;
    }
  }

  /** Every slot below the particle count receives some particle. */
  lemma DestOnto(keys: seq<nat>, m: nat, d: nat)
    requires KeysBelow(keys, m) && d < |keys|
    ensures exists i :: 0 <= i < |keys| && Dest(keys, i) == d
  {
    BelowAll(keys, m);
    FindBin(keys, m, d);
    var k :| 0 <= k < m && Below(keys, k) <= d < Below(keys, k + 1);
    BelowStep(keys, k);
    NthOcc(keys, k, d - Below(keys, k));
    var i :| 0 <= i < |keys| && keys[i] == k && Occ(keys[..i], k) == d - Below(keys, k);
    assert Dest(keys, i) == d;
  }

  /** Distinct particles go to distinct slots, each below the particle count. */
  lemma DestsPermutation(keys: seq<nat>)
    ensures CellOrderings.IsPermutation(Dests(keys), |keys|)
  {
    forall i, j | 0 <= i < j < |keys|
      ensures Dest(keys, i) != Dest(keys, j)
    {
      DestOrder(keys, i, j);
      DestOrder(keys, j, i);
    }
  }

  /** Every slot below the particle count is the slot of some particle. */
  lemma DestsOnto(keys: seq<nat>, m: nat)
    requires KeysBelow(keys, m)
    ensures forall d :: 0 <= d < |keys| ==> d in Dests(keys)
  {
    forall d | 0 <= d < |keys|
      ensures d in Dests(keys)
    {
      DestOnto(keys, m, d);
      var i :| 0 <= i < |keys| && Dest(keys, i) == d;
      assert Dests(keys)[i] == d;
    }
  }

  /**
   * The scatter is a stable sort by key: the slots form a permutation of the
   * particle indices, and a particle precedes another exactly when its key
   * is smaller, or the keys tie and it came first.
   */
  lemma DestIsStableSort(keys: seq<nat>, m: nat)
    requires KeysBelow(keys, m)
    ensures CellOrderings.IsPermutation(Dests(keys), |keys|)
    ensures forall d :: 0 <= d < |keys| ==> d in Dests(keys)
    ensures forall i, j :: 0 <= i < |keys| && 0 <= j < |keys| ==>
      (Dest(keys, i) < Dest(keys, j) <==> keys[i] < keys[j] || (keys[i] == keys[j] && i < j))
  {
    DestsPermutation(keys);
    DestsOnto(keys, m);
    forall i, j | 0 <= i < |keys| && 0 <= j < |keys|
      ensures Dest(keys, i) < Dest(keys, j) <==> keys[i] < keys[j] || (keys[i] == keys[j] && i < j)
    {
      DestOrder(keys, i, j);
    }
  }

  /** The exclusive prefix sum of the counts: every bin starts where the smaller bins end. */
  predicate StartsOf(starts: seq<nat>, keys: seq<nat>) {
    forall b :: 0 <= b < |starts| ==> starts[b] == Below(keys, b)
  }

  /**
   * With every key below the last bin (the sentinel), the starts never
   * decrease, consecutive starts differ by the size of the bin between them,
   * and the sentinel equals the particle count.
   */
  lemma StartsShape(starts: seq<nat>, keys: seq<nat>)
    requires StartsOf(starts, keys) && |starts| > 0 && KeysBelow(keys, |starts| - 1)
    ensures forall b :: 0 <= b < |starts| - 1 ==> starts[b + 1] == starts[b] + Occ(keys, b)
    ensures forall b, b' :: 0 <= b <= b' < |starts| ==> starts[b] <= starts[b']
    ensures starts[0] == 0 && starts[|starts| - 1] == |keys|
  {
    forall b | 0 <= b < |starts| - 1
      ensures starts[b + 1] == starts[b] + Occ(keys, b)
    {
      BelowStep(keys, b);
    }
    forall b, b' | 0 <= b <= b' < |starts|
      ensures starts[b] <= starts[b']
    {
      BelowMono(keys, b, b');
    }
    BelowZero(keys);
    BelowAll(keys, |starts| - 1);
  }

  // ---- the three loops ----

  /** The counting pass: the number of keys in every bin. */
  method CountKeys(keys: seq<nat>, bins: array<nat>)
    requires KeysBelow(keys, bins.Length)
    modifies bins
    ensures forall b :: 0 <= b < bins.Length ==> bins[b] == Occ(keys, b)
  {
    for b := 0 to bins.Length
      invariant forall b' :: 0 <= b' < b ==> bins[b'] == 0
    {
      bins[b] := 0;
    }
    for i := 0 to |keys|
      invariant forall b :: 0 <= b < bins.Length ==> bins[b] == Occ(keys[..i], b)
    {
      forall b | 0 <= b < bins.Length {
        OccStep(keys, i, b);
      }
      bins[keys[i]] := bins[keys[i]] + 1;
    }
    assert keys[..|keys|] == keys;
  }

  /** Counts become start indices: each entry is replaced by the sum of the entries before it. */
  method ExclusivePrefix(keys: seq<nat>, bins: array<nat>)
    requires forall b :: 0 <= b < bins.Length ==> bins[b] == Occ(keys, b)
    modifies bins
    ensures StartsOf(bins[..], keys)
  {
    var currentSum := 0;
    BelowZero(keys);
    for b := 0 to bins.Length
      invariant currentSum == Below(keys, b)
      invariant forall b' :: 0 <= b' < b ==> bins[b'] == Below(keys, b')
      invariant forall b' :: b <= b' < bins.Length ==> bins[b'] == Occ(keys, b')
    {
      var count := bins[b];
      bins[b] := currentSum;
      BelowStep(keys, b);
      currentSum := currentSum + count;
    }
  }

  /**
   * The scatter pass: particle i goes to `writePtr[key]++`, and its id is
   * pointed at that slot.
   */
  method Scatter(records: seq<Record>, keys: seq<nat>, writePtr: array<nat>, tmp: array<Record>, idMap: seq<nat>)
    returns (newMap: seq<nat>)
    requires |keys| == |records| == tmp.Length && KeysBelow(keys, writePtr.Length)
    requires StartsOf(writePtr[..], keys)
    requires DistinctIds(records) && IdsBelow(records, |idMap|)
    modifies writePtr, tmp
    ensures forall i :: 0 <= i < |records| ==> tmp[Dest(keys, i)] == records[i]
    ensures |newMap| == |idMap|
    ensures forall i :: 0 <= i < |records| ==> newMap[records[i].id] == Dest(keys, i)
    ensures forall id :: 0 <= id < |idMap| && (forall i :: 0 <= i < |records| ==> records[i].id != id) ==>
      newMap[id] == idMap[id]
  {
    newMap := idMap;
    BelowAll(keys, writePtr.Length);
    for i := 0 to |records|
      invariant forall b :: 0 <= b < writePtr.Length ==> writePtr[b] == Below(keys, b) + Occ(keys[..i], b)
      invariant forall j :: 0 <= j < i ==> tmp[Dest(keys, j)] == records[j]
      invariant |newMap| == |idMap|
      invariant forall j :: 0 <= j < i ==> newMap[records[j].id] == Dest(keys, j)
      invariant forall id :: 0 <= id < |idMap| && (forall j :: 0 <= j < i ==> records[j].id != id) ==>
        newMap[id] == idMap[id]
    {
      var bin := keys[i];
      var dst := writePtr[bin];
      assert dst == Dest(keys, i);
      forall b | 0 <= b < writePtr.Length {
        OccStep(keys, i, b);
      }
      forall j | 0 <= j < i
        ensures Dest(keys, j) != dst
      {
        DestOrder(keys, j, i);
        DestOrder(keys, i, j);
      }
      writePtr[bin] := dst + 1;
      tmp[dst] := records[i];
      newMap := newMap[records[i].id := dst];
    }
  }

  /** The bin of every record, as the counting and scatter passes compute it. */
  function KeysOf(records: seq<Record>, key: Record -> nat): (keys: seq<nat>)
    ensures |keys| == |records| && forall i :: 0 <= i < |records| ==> keys[i] == key(records[i])
  {
    seq(|records|, i requires 0 <= i < |records| => key(records[i]))
  }

  /**
   * `rebuild_structure` of the linked-cells containers: the bin starts
   * (including the sentinel) come out as the exclusive prefix sums of the bin
   * sizes, the records are regrouped by the stable scatter, and the id map
   * follows them. Ids must be distinct and index the map, as the dense id
   * mapping done at build time guarantees.
   */
  method RebuildByBins(records: seq<Record>, key: Record -> nat, numBins: nat, idMap: seq<nat>)
    returns (starts: seq<nat>, sorted: seq<Record>, newMap: seq<nat>)
    requires forall i :: 0 <= i < |records| ==> key(records[i]) < numBins
    requires DistinctIds(records) && IdsBelow(records, |idMap|)
    ensures |starts| == numBins && StartsOf(starts, KeysOf(records, key))
    ensures |sorted| == |records|
    ensures forall i :: 0 <= i < |records| ==> sorted[Dest(KeysOf(records, key), i)] == records[i]
    ensures |newMap| == |idMap|
    ensures forall i :: 0 <= i < |records| ==> newMap[records[i].id] == Dest(KeysOf(records, key), i)
    ensures forall id :: 0 <= id < |idMap| && (forall i :: 0 <= i < |records| ==> records[i].id != id) ==>
      newMap[id] == idMap[id]
  {
    var keys := KeysOf(records, key);
    var binStartIndices := new nat[numBins];
    CountKeys(keys, binStartIndices);
    ExclusivePrefix(keys, binStartIndices);
    starts := binStartIndices[..];
    var writePtr := new nat[numBins](b requires 0 <= b < numBins => starts[b]);
    assert writePtr[..] == starts;
    var tmp := new Record[|records|](i requires 0 <= i < |records| => records[i]);
    newMap := Scatter(records, keys, writePtr, tmp, idMap);
    sorted := tmp[..];
  }

  /** Every slot of the rebuilt storage holds the record that was scattered to it. */
  lemma SlotOrigin(records: seq<Record>, keys: seq<nat>, m: nat, sorted: seq<Record>, d: nat)
    requires |keys| == |records| == |sorted| && KeysBelow(keys, m) && d < |sorted|
    requires forall i :: 0 <= i < |records| ==> sorted[Dest(keys, i)] == records[i]
    ensures exists i :: 0 <= i < |records| && Dest(keys, i) == d && sorted[d] == records[i]
  {
    DestOnto(keys, m, d);
  }

  /** The rebuilt storage is ordered by bin. */
  lemma RebuiltSorted(records: seq<Record>, key: Record -> nat, m: nat, sorted: seq<Record>)
    requires forall i :: 0 <= i < |records| ==> key(records[i]) < m
    requires |sorted| == |records|
    requires forall i :: 0 <= i < |records| ==> sorted[Dest(KeysOf(records, key), i)] == records[i]
    ensures forall d1, d2 :: 0 <= d1 <= d2 < |sorted| ==> key(sorted[d1]) <= key(sorted[d2])
  {
    var keys := KeysOf(records, key);
    forall d1, d2 | 0 <= d1 <= d2 < |sorted|
      ensures key(sorted[d1]) <= key(sorted[d2])
    {
      SlotOrigin(records, keys, m, sorted, d1);
      SlotOrigin(records, keys, m, sorted, d2);
      var i1 :| 0 <= i1 < |records| && Dest(keys, i1) == d1 && sorted[d1] == records[i1];
      var i2 :| 0 <= i2 < |records| && Dest(keys, i2) == d2 && sorted[d2] == records[i2];
      DestOrder(keys, i2, i1);
    }
  }

  /** Every record of the rebuilt storage lies inside the range of slots of its own bin. */
  lemma RebuiltInBins(records: seq<Record>, key: Record -> nat, m: nat, sorted: seq<Record>)
    requires forall i :: 0 <= i < |records| ==> key(records[i]) < m
    requires |sorted| == |records|
    requires forall i :: 0 <= i < |records| ==> sorted[Dest(KeysOf(records, key), i)] == records[i]
    ensures forall d :: 0 <= d < |sorted| ==>
      Below(KeysOf(records, key), key(sorted[d])) <= d < Below(KeysOf(records, key), key(sorted[d]) + 1)
  {
    var keys := KeysOf(records, key);
    forall d | 0 <= d < |sorted|
      ensures Below(keys, key(sorted[d])) <= d < Below(keys, key(sorted[d]) + 1)
    {
      SlotOrigin(records, keys, m, sorted, d);
    }
  }

  /** After the rebuild the id map points every stored id at its slot. */
  lemma RebuiltMap(records: seq<Record>, keys: seq<nat>, m: nat, sorted: seq<Record>, newMap: seq<nat>)
    requires |keys| == |records| == |sorted| && KeysBelow(keys, m)
    requires forall i :: 0 <= i < |records| ==> sorted[Dest(keys, i)] == records[i]
    requires forall i :: 0 <= i < |records| ==> records[i].id < |newMap| && newMap[records[i].id] == Dest(keys, i)
    ensures MapsIds(sorted, newMap)
  {
    forall d | 0 <= d < |sorted|
      ensures sorted[d].id < |newMap| && newMap[sorted[d].id] == d
    {
      SlotOrigin(records, keys, m, sorted, d);
    }
  }

  /** Moving every element to a distinct slot keeps the multiset of elements. */
  lemma PermutedMultiset(records: seq<Record>, keys: seq<nat>, sorted: seq<Record>)
    requires |keys| == |records| == |sorted|
    requires forall i :: 0 <= i < |records| ==> sorted[Dest(keys, i)] == records[i]
    ensures multiset(sorted) == multiset(records)
  {
    DestsPermutation(keys);
    var perm := Dests(keys);
    assert sorted == seq(|records|, d requires 0 <= d < |records| => sorted[d]);
    SeqPermutation(records, sorted, perm);
  }

  /** `target[perm[i]] == source[i]` for a permutation `perm` makes `target` a rearrangement of `source`. */
  lemma {:induction false} SeqPermutation<T>(source: seq<T>, target: seq<T>, perm: seq<nat>)
    requires |source| == |target| && CellOrderings.IsPermutation(perm, |source|)
    requires forall i :: 0 <= i < |source| ==> target[perm[i]] == source[i]
    ensures multiset(target) == multiset(source)
    decreases |source|
  {
    var n := |source|;
    if n > 0 {
      // Remove the last source element and the target slot it went to.
      var last := n - 1;
      var slot := perm[last];
      var source' := source[..last];
      var target' := target[..slot] + target[slot + 1..];
      var perm' := seq(last, i requires 0 <= i < last => if perm[i] <= slot then perm[i] else perm[i] - 1);
      forall i | 0 <= i < last
        ensures perm'[i] < last && target'[perm'[i]] == source'[i]
      {
        assert perm[i] != slot;
      }
      forall i1, i2 | 0 <= i1 < i2 < last
        ensures perm'[i1] != perm'[i2]
      {
        assert perm[i1] != perm[i2];
      }
      SeqPermutation(source', target', perm');
      assert target == target[..slot] + [target[slot]] + target[slot + 1..];
      assert source == source' + [source[last]];
    }
  }
}
