/**
 * The array-of-structs-of-arrays layout of `layout/aosoa.hpp`: the chunk
 * vector, a scratch chunk vector that reordering fills before the two are
 * exchanged, the first chunk of every bin and the id-to-index map. Unlike
 * the plain chunked container, reordering gives every bin whole chunks:
 * the lanes a bin leaves empty in its last chunk are filled with INVALID
 * sentinels, so that the next bin starts on a chunk boundary.
 */
module LayoutAoSoA {
  import opened ParticleRecords
  import opened ChunkedStorages
  import opened Seqs
  import opened Bins
  import ParticleStates

  /** `numeric_limits<ParticleID>::max()`, the id written into padding lanes. */
  const PAD_ID: nat := 0xFFFF_FFFF

  /** `numeric_limits<double>::max()`, the coordinate that moves a sentinel far away. */
  const DOUBLE_MAX: real := 1.7976931348623157e308

  /** A padding lane of `build_storage`: the lane as it was, marked INVALID and given the maximum id. */
  function PadLane(r: Record): (p: Record)
    ensures p.state == ParticleStates.INVALID && p.id == PAD_ID
  {
    r.(state := ParticleStates.INVALID, id := PAD_ID)
  }

  /**
   * A padding lane of `reorder_storage`: a freshly allocated lane marked
   * INVALID, moved to the largest coordinates and given the maximum id.
   */
  const Sentinel: Record := Blank.(state := ParticleStates.INVALID, position := (DOUBLE_MAX, DOUBLE_MAX, DOUBLE_MAX), id := PAD_ID)

  /** What reordering puts into one destination lane: the source slot it copies, or a sentinel. */
  datatype Slot = Moved(src: nat) | Pad

  /** The chunks a bin needs: none for an empty bin, otherwise its size rounded up to whole chunks. */
  function ChunkTotal(bins: seq<seq<nat>>, size: nat): nat
    requires size > 0
  {
    if |bins| == 0 then 0 else ChunkTotal(bins[..|bins| - 1], size) + ChunksFor(|bins[|bins| - 1]|, size)
  }

  /** `bin_starts`: the first chunk of every bin, and after them the total number of chunks. */
  function ChunkStarts(bins: seq<seq<nat>>, size: nat): (starts: seq<nat>)
    requires size > 0
    ensures |starts| == |bins| + 1
  {
    seq(|bins| + 1, k requires 0 <= k <= |bins| => ChunkTotal(bins[..k], size))
  }

  /** One bin's destination lanes: its listed slots in order, then sentinels up to the chunk boundary. */
  function PaddedBin(bin: seq<nat>, size: nat): (s: seq<Slot>)
    requires size > 0
    ensures |s| == ChunksFor(|bin|, size) * size
  {
    seq(|bin|, j requires 0 <= j < |bin| => Moved(bin[j])) + seq(ChunksFor(|bin|, size) * size - |bin|, _ => Pad)
  }

  /** Every bin's destination lanes, bin after bin: what each lane of the reordered storage receives. */
  function PaddedOrder(bins: seq<seq<nat>>, size: nat): (o: seq<Slot>)
    requires size > 0
    ensures |o| == ChunkTotal(bins, size) * size
  {
    if |bins| == 0 then []
    else
      var o := PaddedOrder(bins[..|bins| - 1], size) + PaddedBin(bins[|bins| - 1], size);
      assert |o| == ChunkTotal(bins, size) * size by {
        AddMul(ChunkTotal(bins[..|bins| - 1], size), ChunksFor(|bins[|bins| - 1]|, size), size);
      }
      o
  }

  lemma AddMul(a: nat, b: nat, size: nat)
    ensures a * size + b * size == (a + b) * size
  {
  }

  /** Every copied slot is a slot of a source with n lanes. */
  predicate SlotsBelow(order: seq<Slot>, n: nat) {
    forall p :: 0 <= p < |order| && order[p].Moved? ==> order[p].src < n
  }

  /** The lane at position p of the arrangement. */
  function ArrangeAt(src: seq<Record>, order: seq<Slot>, p: nat): Record
    requires SlotsBelow(order, |src|) && p < |order|
  {
    match order[p]
    case Moved(i) => src[i]
    case Pad => Sentinel
  }

  /** The lanes of the reordered storage: each lane holds its copied record or a sentinel. */
  function Arrange(src: seq<Record>, order: seq<Slot>): (lanes: seq<Record>)
    requires SlotsBelow(order, |src|)
    ensures |lanes| == |order| && forall p :: 0 <= p < |order| ==> lanes[p] == ArrangeAt(src, order, p)
  {
    seq(|order|, p requires 0 <= p < |order| => ArrangeAt(src, order, p))
  }

  /** The source slots in the order they are copied, sentinels dropped. */
  function MovedOf(order: seq<Slot>): (s: seq<nat>)
    ensures |s| <= |order|
  {
    if |order| == 0 then []
    else MovedOf(order[..|order| - 1]) + (match order[|order| - 1] case Moved(i) => [i] case Pad => [])
  }

  lemma {:induction false} MovedOfAppend(a: seq<Slot>, b: seq<Slot>)
    ensures MovedOf(a + b) == MovedOf(a) + MovedOf(b)
    decreases |b|
  {
    if |b| == 0 {
      assert a + b == a;
    } else {
      var last := |b| - 1;
      assert (a + b)[..|a + b| - 1] == a + b[..last];
      MovedOfAppend(a, b[..last]);
    }
  }

  lemma {:induction false} MovedOfPads(n: nat)
    ensures MovedOf(seq(n, _ => Pad)) == []
  {
    if n > 0 {
      var s: seq<Slot> := seq(n, _ => Pad);
      assert s[..n - 1] == seq(n - 1, _ => Pad);
      MovedOfPads(n - 1);
    }
  }

  lemma {:induction false} MovedOfCopies(bin: seq<nat>)
    ensures MovedOf(seq(|bin|, j requires 0 <= j < |bin| => Moved(bin[j]))) == bin
  {
    if |bin| > 0 {
      var s: seq<Slot> := seq(|bin|, j requires 0 <= j < |bin| => Moved(bin[j]));
      var init := bin[..|bin| - 1];
      assert s[..|s| - 1] == seq(|init|, j requires 0 <= j < |init| => Moved(init[j]));
      MovedOfCopies(init);
    }
  }

  /**
   * Dropping the sentinels from the padded order leaves the bins laid end
   * to end: the particles are copied bin by bin, in list order, and every
   * listed slot exactly once.
   */
  lemma {:induction false} PaddedOrderMoves(bins: seq<seq<nat>>, size: nat)
    requires size > 0
    ensures MovedOf(PaddedOrder(bins, size)) == Flatten(bins)
  {
    if |bins| > 0 {
      var last := bins[|bins| - 1];
      var copies: seq<Slot> := seq(|last|, j requires 0 <= j < |last| => Moved(last[j]));
      var pads: seq<Slot> := seq(ChunksFor(|last|, size) * size - |last|, _ => Pad);
      PaddedOrderMoves(bins[..|bins| - 1], size);
      MovedOfAppend(PaddedOrder(bins[..|bins| - 1], size), PaddedBin(last, size));
      MovedOfAppend(copies, pads);
      MovedOfCopies(last);
      MovedOfPads(|pads|);
    }
  }

  lemma {:induction false} PaddedOrderAppend(a: seq<seq<nat>>, b: seq<seq<nat>>, size: nat)
    requires size > 0
    ensures PaddedOrder(a + b, size) == PaddedOrder(a, size) + PaddedOrder(b, size)
    decreases |b|
  {
    if |b| == 0 {
      assert a + b == a;
    } else {
      var last := |b| - 1;
      assert (a + b)[..|a + b| - 1] == a + b[..last] && (a + b)[|a + b| - 1] == b[last];
      PaddedOrderSnoc(a + b, size);
      PaddedOrderSnoc(b, size);
      PaddedOrderAppend(a, b[..last], size);
      AppendAssoc(PaddedOrder(a, size), PaddedOrder(b[..last], size), PaddedBin(b[last], size));
    }
  }

  /** The padded order of a non-empty bin list: that of all bins but the last, then the last bin's lanes. */
  lemma PaddedOrderSnoc(bins: seq<seq<nat>>, size: nat)
    requires size > 0 && |bins| > 0
    ensures PaddedOrder(bins, size) == PaddedOrder(bins[..|bins| - 1], size) + PaddedBin(bins[|bins| - 1], size)
  {
  }

  /**
   * Bin b's destination lanes follow the lanes of the bins before it, which
   * end on the chunk boundary `ChunkStarts(bins, size)[b]`.
   */
  lemma PaddedOrderBin(bins: seq<seq<nat>>, b: nat, size: nat)
    requires size > 0 && b < |bins|
    ensures ChunkStarts(bins, size)[b] * size == |PaddedOrder(bins[..b], size)|
    ensures |PaddedOrder(bins[..b], size)| + |PaddedBin(bins[b], size)| == |PaddedOrder(bins[..b + 1], size)| <= |PaddedOrder(bins, size)|
    ensures ChunkStarts(bins, size)[b + 1] * size == |PaddedOrder(bins[..b + 1], size)|
    ensures forall q :: 0 <= q < |PaddedBin(bins[b], size)| ==>
      PaddedOrder(bins, size)[|PaddedOrder(bins[..b], size)| + q] == PaddedBin(bins[b], size)[q]
  {
    assert bins[..b + 1][..b] == bins[..b];
    assert bins == bins[..b + 1] + bins[b + 1..];
    PaddedOrderAppend(bins[..b + 1], bins[b + 1..], size);
  }

  /**
   * The reordered lanes of bin k: its particles in list order from lane
   * `lo`, the first lane of chunk `ChunkStarts[k]`, then INVALID sentinels
   * up to `hi`, the first lane of the next bin's first chunk.
   */
  lemma ArrangeBin(src: seq<Record>, bins: seq<seq<nat>>, size: nat, k: nat, order: seq<Slot>, lanes: seq<Record>, lo: nat, hi: nat)
    requires size > 0 && k < |bins| && order == PaddedOrder(bins, size)
    requires SlotsBelow(order, |src|) && lanes == Arrange(src, order)
    requires lo == ChunkStarts(bins, size)[k] * size && hi == ChunkStarts(bins, size)[k + 1] * size
    ensures lo + |bins[k]| <= hi <= |lanes|
    ensures forall j :: 0 <= j < |bins[k]| ==> bins[k][j] < |src| && lanes[lo + j] == src[bins[k][j]]
    ensures forall p :: lo + |bins[k]| <= p < hi ==> lanes[p] == Sentinel
  {
    PaddedOrderBin(bins, b := k, size := size);
    var pb := PaddedBin(bins[k], size);
    forall j | 0 <= j < |bins[k]|
      ensures bins[k][j] < |src| && lanes[lo + j] == src[bins[k][j]]
    {
      assert pb[j] == Moved(bins[k][j]);
    }
    forall p | lo + |bins[k]| <= p < hi
      ensures lanes[p] == Sentinel
    {
      assert pb[p - lo] == Pad;
    }
  }

  /** Consecutive chunk starts differ by the chunks of the bin between them. */
  lemma ChunkStartsStep(bins: seq<seq<nat>>, size: nat, k: nat)
    requires size > 0 && k < |bins|
    ensures ChunkStarts(bins, size)[0] == 0
    ensures ChunkStarts(bins, size)[k + 1] == ChunkStarts(bins, size)[k] + ChunksFor(|bins[k]|, size)
    ensures ChunkStarts(bins, size)[|bins|] == ChunkTotal(bins, size)
  {
    assert bins[..k + 1][..k] == bins[..k];
    assert bins[..|bins|] == bins;
  }

  /** What the scatter has written after `cur` lanes: the arrangement below the cursor, blank lanes from it on. */
  predicate Filled(lanes: seq<Record>, src: seq<Record>, order: seq<Slot>, cur: nat)
    requires SlotsBelow(order, |src|)
  {
    && |lanes| == |order| && cur <= |order|
    && (forall p :: 0 <= p < cur ==> lanes[p] == ArrangeAt(src, order, p))
    && (forall p :: cur <= p < |lanes| ==> lanes[p] == Blank)
  }

  /**
   * What the map holds after `cur` lanes: every entry is `ID_NOT_FOUND` or
   * the index of a copied lane below the cursor that carries that id, and
   * every copied lane's id has an entry.
   */
  predicate Tracks(m: seq<nat>, lanes: seq<Record>, order: seq<Slot>, cur: nat)
    requires |lanes| == |order| && cur <= |order|
  {
    && (forall x :: 0 <= x < |m| ==> m[x] == ID_NOT_FOUND || (m[x] < cur && order[m[x]].Moved? && lanes[m[x]].id == x))
    && (forall p :: 0 <= p < cur && order[p].Moved? ==> lanes[p].id < |m| && m[lanes[p].id] != ID_NOT_FOUND)
  }

  /** Every copied record's id indexes a map of the given size. */
  predicate MovedIdsBelow(src: seq<Record>, order: seq<Slot>, size: nat)
    requires SlotsBelow(order, |src|)
  {
    forall p :: 0 <= p < |order| && order[p].Moved? ==> src[order[p].src].id < size
  }

  /** No two copied lanes carry the same id. */
  predicate DistinctMoved(lanes: seq<Record>, order: seq<Slot>)
    requires |lanes| == |order|
  {
    forall p, q :: 0 <= p < q < |order| && order[p].Moved? && order[q].Moved? ==> lanes[p].id != lanes[q].id
  }

  /** Copying one record to the cursor and pointing its id there keeps both invariants one lane further. */
  lemma CopyStep(lanes: seq<Record>, m: seq<nat>, src: seq<Record>, order: seq<Slot>, cur: nat)
    requires SlotsBelow(order, |src|) && cur < |order| && order[cur].Moved? && cur != ID_NOT_FOUND
    requires src[order[cur].src].id < |m|
    requires Filled(lanes, src, order, cur) && Tracks(m, lanes, order, cur)
    ensures Filled(lanes[cur := src[order[cur].src]], src, order, cur + 1)
    ensures Tracks(m[src[order[cur].src].id := cur], lanes[cur := src[order[cur].src]], order, cur + 1)
  {
  }

  /** Writing a sentinel at the cursor keeps both invariants one lane further. */
  lemma PadStep(lanes: seq<Record>, m: seq<nat>, src: seq<Record>, order: seq<Slot>, cur: nat)
    requires SlotsBelow(order, |src|) && cur < |order| && order[cur] == Pad
    requires Filled(lanes, src, order, cur) && Tracks(m, lanes, order, cur)
    ensures lanes[cur] == Blank
    ensures Filled(lanes[cur := Sentinel], src, order, cur + 1)
    ensures Tracks(m, lanes[cur := Sentinel], order, cur + 1)
  {
  }

  /** When copied ids are distinct, every copied lane's id points at that very lane. */
  lemma TracksExact(m: seq<nat>, lanes: seq<Record>, order: seq<Slot>)
    requires |lanes| == |order| && Tracks(m, lanes, order, |order|)
    ensures DistinctMoved(lanes, order) ==>
      forall p :: 0 <= p < |order| && order[p].Moved? ==> lanes[p].id < |m| && m[lanes[p].id] == p
  {
  }

  class AoSoALayout {
    const size: nat
    var data: seq<Chunk>
    var tmp: seq<Chunk>
    var binStarts: seq<nat>
    var idMap: seq<nat>
    var capacity: nat
    var nParticles: nat

    /** A chunk size `ParticleChunk` accepts, and chunk vectors of that shape. */
    predicate Valid()
      reads this
    {
      ChunkSizeOk(size) && Shaped(data, size) && Shaped(tmp, size)
    }

    constructor(size: nat)
      requires ChunkSizeOk(size)
      ensures Valid() && this.size == size && data == [] && tmp == [] && binStarts == [] && idMap == []
      ensures capacity == 0 && nParticles == 0
    {
      this.size := size;
      data, tmp, binStarts, idMap := [], [], [], [];
      capacity, nParticles := 0, 0;
    }

    /** Every lane of the current chunks, by physical index. */
    function Slots(): (s: seq<Record>)
      reads this
      requires Valid()
      ensures |s| == |data| * size
    {
      Lanes(data, size)
    }

    /**
     * `build_storage`: allocates ceil(n / S) chunks, stores particle i at
     * `locate(i)`, points its id at i in the map resized to n, and marks
     * the lanes from n up to the capacity INVALID with the maximum id;
     * their other fields keep what the resize left. The particle count
     * is not assigned here.
     */
    method BuildStorage(input: seq<Record>)
      requires Valid() && IdsBelow(input, |input|)
      modifies this
      ensures Valid() && |data| == ChunksFor(|input|, size) && capacity == |data| * size
      ensures |input| <= capacity < |input| + size
      ensures Slots() == BuiltLanes(old(Slots()), input, capacity)
      ensures |idMap| == |input| && PointsBack(input, idMap)
      ensures DistinctIds(input) ==> MapsIds(input, idMap)
      ensures tmp == old(tmp) && binStarts == old(binStarts) && nParticles == old(nParticles)
    {
      data, capacity := BuildChunks(data, size, input);
      idMap := PointIds(input, Fit(idMap, |input|, 0));
    }

    /**
     * `reorder_storage` with sentinel padding: `bin_starts` records the
     * first chunk of every bin and the total; the scratch vector is cleared
     * and sized to that total; each bin's listed slots are copied in order
     * behind a cursor, their ids pointed at the new physical index in a map
     * reset to `ID_NOT_FOUND` over the whole capacity, and a bin that ends
     * inside a chunk has the rest of that chunk filled with sentinels. Then
     * the two chunk vectors are exchanged.
     */
    method ReorderStorage(bins: seq<seq<nat>>)
      requires Valid() && SlotsBelow(PaddedOrder(bins, size), |data| * size)
      requires MovedIdsBelow(Lanes(data, size), PaddedOrder(bins, size), ChunkTotal(bins, size) * size)
      requires ChunkTotal(bins, size) * size <= ID_NOT_FOUND
      modifies this
      ensures Valid() && tmp == old(data)
      ensures binStarts == ChunkStarts(bins, size) && capacity == ChunkTotal(bins, size) * size == |data| * size
      ensures Slots() == Arrange(old(Slots()), PaddedOrder(bins, size))
      ensures |idMap| == capacity && Tracks(idMap, Slots(), PaddedOrder(bins, size), capacity)
      ensures DistinctMoved(Slots(), PaddedOrder(bins, size)) ==>
        forall p :: 0 <= p < capacity && PaddedOrder(bins, size)[p].Moved? ==> idMap[Slots()[p].id] == p
      ensures nParticles == old(nParticles)
    {
      ghost var src := Lanes(data, size);
      ghost var order := PaddedOrder(bins, size);
      var starts, nChunks := CountChunks(bins, size);
      binStarts := starts;
      capacity := nChunks * size;
      var scratch := seq(nChunks, _ => BlankChunk(size));
      FitLanes([], size, nChunks);
      assert Fit([], nChunks, BlankChunk(size)) == scratch;
      var m := seq(capacity, _ => ID_NOT_FOUND);
      scratch, m := ScatterPadded(data, bins, size, scratch, m);
      data, tmp := scratch, data;
      idMap := m;
      TracksExact(idMap, Slots(), order);
    }

    /** `bin_range`: the chunks of bin k, from its first chunk to the next bin's first. */
    function BinRange(k: nat): (range: (nat, nat))
      reads this
      requires k + 1 < |binStarts|
      ensures range == (binStarts[k], binStarts[k + 1])
    {
      (binStarts[k], binStarts[k + 1])
    }

    /**
     * After `reorder_storage(bins)`, bin k's chunk range begins with bin k's
     * particles in list order and holds sentinels in its remaining lanes.
     */
    lemma BinRangeHoldsBin(before: seq<Record>, bins: seq<seq<nat>>, k: nat)
      requires Valid() && binStarts == ChunkStarts(bins, size) && k < |bins|
      requires SlotsBelow(PaddedOrder(bins, size), |before|) && Slots() == Arrange(before, PaddedOrder(bins, size))
      ensures BinRange(k).0 * size + |bins[k]| <= BinRange(k).1 * size <= |data| * size
      ensures forall j :: 0 <= j < |bins[k]| ==> bins[k][j] < |before| && Slots()[BinRange(k).0 * size + j] == before[bins[k][j]]
      ensures forall p :: BinRange(k).0 * size + |bins[k]| <= p < BinRange(k).1 * size ==> !IndexIsValid(p)
    {
      ArrangeBin(before, bins, size, k, PaddedOrder(bins, size), Slots(), BinRange(k).0 * size, BinRange(k).1 * size);
    }

    /** `iterate`: every lane of every chunk whose state passes the mask, chunk by chunk and lane by lane. */
    method Iterate(mask: ParticleStates.ParticleState) returns (visited: seq<nat>)
      requires Valid()
      ensures visited == Selected(StatesOf(Slots()), mask, |data| * size)
    {
      visited := VisitLanes(data, size, mask);
    }

    /** `index_is_valid`: a lane below the capacity that is not marked INVALID. */
    predicate IndexIsValid(i: nat)
      reads this
      requires Valid()
    {
      i < capacity && i < |data| * size && Slots()[i].state != ParticleStates.INVALID
    }

    /** `contains_id`: the id has a map entry and the entry is not `ID_NOT_FOUND`. */
    predicate ContainsId(id: nat)
      reads this
    {
      id < |idMap| && idMap[id] != ID_NOT_FOUND
    }

    /** After a reorder, an id is contained exactly when some copied lane carries it. */
    lemma ContainsIdExact(bins: seq<seq<nat>>, id: nat)
      requires Valid() && SlotsBelow(PaddedOrder(bins, size), |data| * size)
      requires capacity == |data| * size == |idMap| && |PaddedOrder(bins, size)| == capacity
      requires Tracks(idMap, Slots(), PaddedOrder(bins, size), capacity)
      ensures ContainsId(id) <==> exists p :: 0 <= p < capacity && PaddedOrder(bins, size)[p].Moved? && Slots()[p].id == id
    {
      var order := PaddedOrder(bins, size);
      if ContainsId(id) {
        var p := idMap[id];
        assert order[p].Moved? && Slots()[p].id == id;
      }
    }

    /** `id_to_index`: the map entry of the id. */
    function IdToIndex(id: nat): nat
      reads this
      requires id < |idMap|
    {
      idMap[id]
    }

    /** `max_id`: the size of the id map. */
    function MaxId(): nat
      reads this
    {
      |idMap|
    }

    /** `particle_count`: the count field, which neither build nor reorder assigns. */
    function ParticleCount(): nat
      reads this
    {
      nParticles
    }
  }

  /**
   * The lanes after `build_storage`: the n particles in order, then up to
   * the capacity the lanes the resize left (kept or blank), marked INVALID
   * with the maximum id.
   */
  function BuiltLanes(before: seq<Record>, input: seq<Record>, cap: nat): (s: seq<Record>)
    requires |input| <= cap
    ensures |s| == cap && forall p :: 0 <= p < |input| ==> s[p] == input[p]
    ensures forall p :: |input| <= p < cap ==> s[p].state == ParticleStates.INVALID && s[p].id == PAD_ID
  {
    var s := seq(cap, p requires 0 <= p < cap => if p < |input| then input[p] else PadLane(if p < |before| then before[p] else Blank));
    assert forall p :: |input| <= p < cap ==> s[p] == PadLane(if p < |before| then before[p] else Blank);
    s
  }

  /**
   * The chunk side of `build_storage`: the resize to ceil(n / S) chunks,
   * the write loop and the padding loop, on the chunk vector as a value.
   */
  method BuildChunks(chunks: seq<Chunk>, size: nat, input: seq<Record>) returns (out: seq<Chunk>, cap: nat)
    requires size > 0 && Shaped(chunks, size)
    ensures Shaped(out, size) && |out| == ChunksFor(|input|, size) && cap == |out| * size
    ensures Lanes(out, size) == BuiltLanes(Lanes(chunks, size), input, cap)
  {
    var n := |input|;
    var nChunks := (n + size - 1) / size;
    assert nChunks == ChunksFor(n, size);
    cap := nChunks * size;
    FitLanes(chunks, size, nChunks);
    out := Fit(chunks, nChunks, BlankChunk(size));
    ghost var resized := Lanes(out, size);
    out := WriteLanes(out, size, input);
    ghost var written := Lanes(out, size);
    out := PadLanes(out, size, n);
    BuiltFromSteps(Lanes(chunks, size), resized, written, Lanes(out, size), input, cap);
  }

  /** The resize, the write loop and the padding loop together produce `BuiltLanes`. */
  lemma BuiltFromSteps(before: seq<Record>, resized: seq<Record>, written: seq<Record>, padded: seq<Record>, input: seq<Record>, cap: nat)
    requires |input| <= cap && |resized| == |written| == |padded| == cap
    requires forall p :: 0 <= p < cap ==> resized[p] == if p < |before| then before[p] else Blank
    requires forall p :: 0 <= p < cap ==> written[p] == if p < |input| then input[p] else resized[p]
    requires forall p :: 0 <= p < cap ==> padded[p] == if p < |input| then written[p] else PadLane(written[p])
    ensures padded == BuiltLanes(before, input, cap)
  {
  }

  /** The first loop of `build_storage`: particle i goes to lane `locate(i)`; the other lanes keep what they held. */
  method WriteLanes(chunks: seq<Chunk>, size: nat, input: seq<Record>) returns (out: seq<Chunk>)
    requires size > 0 && Shaped(chunks, size) && |input| <= |chunks| * size
    ensures Shaped(out, size) && |out| == |chunks|
    ensures forall p :: 0 <= p < |chunks| * size ==> Lanes(out, size)[p] == if p < |input| then input[p] else Lanes(chunks, size)[p]
  {
    out := chunks;
    for i := 0 to |input|
      invariant Shaped(out, size) && |out| == |chunks|
      invariant forall p :: 0 <= p < |chunks| * size ==> Lanes(out, size)[p] == if p < i then input[p] else Lanes(chunks, size)[p]
    {
      SetLaneLanes(out, size, i, input[i]);
      out := SetLane(out, size, i, input[i]);
    }
  }

  /** The padding loop of `build_storage`: every lane from n to the capacity is marked INVALID with the maximum id. */
  method PadLanes(chunks: seq<Chunk>, size: nat, n: nat) returns (out: seq<Chunk>)
    requires size > 0 && Shaped(chunks, size) && n <= |chunks| * size
    ensures Shaped(out, size) && |out| == |chunks|
    ensures forall p :: 0 <= p < |chunks| * size ==> Lanes(out, size)[p] == if p < n then Lanes(chunks, size)[p] else PadLane(Lanes(chunks, size)[p])
  {
    out := chunks;
    for i := n to |chunks| * size
      invariant Shaped(out, size) && |out| == |chunks|
      invariant forall p :: 0 <= p < |chunks| * size ==>
        Lanes(out, size)[p] == if n <= p < i then PadLane(Lanes(chunks, size)[p]) else Lanes(chunks, size)[p]
    {
      var lane := Lane(out, size, i);
      SetLaneLanes(out, size, i, PadLane(lane));
      out := SetLane(out, size, i, PadLane(lane));
    }
  }

  /** The lane loops of `iterate`: chunk by chunk, lane by lane, the physical indices whose state passes the mask. */
  method VisitLanes(chunks: seq<Chunk>, size: nat, mask: ParticleStates.ParticleState) returns (visited: seq<nat>)
    requires size > 0 && Shaped(chunks, size)
    ensures visited == Selected(StatesOf(Lanes(chunks, size)), mask, |chunks| * size)
  {
    visited := [];
    var nChunks := |chunks|;
    if nChunks == 0 {
      return;
    }
    ghost var states := StatesOf(Lanes(chunks, size));
    var base := 0;
    for c := 0 to nChunks
      invariant base == c * size && visited == Selected(states, mask, base)
    {
      MulSucc(c, size);
      ChunkStates(chunks, size, c, states);
      visited := VisitChunk(chunks[c], mask, base, states, visited);
      base := base + size;
    }
  }

  /** The lane loop of `iterate` over one chunk whose lane l holds the state at physical index `base + l`. */
  method VisitChunk(chunk: Chunk, mask: ParticleStates.ParticleState, base: nat,
                    ghost states: seq<ParticleStates.ParticleState>, visited0: seq<nat>) returns (visited: seq<nat>)
    requires base + |chunk| <= |states| && visited0 == Selected(states, mask, base)
    requires forall l :: 0 <= l < |chunk| ==> states[base + l] == chunk[l].state
    ensures visited == Selected(states, mask, base + |chunk|)
  {
    visited := visited0;
    for l := 0 to |chunk|
      invariant visited == Selected(states, mask, base + l)
    {
      SelectedNext(states, mask, base + l);
      if ParticleStates.PassesMask(chunk[l].state, mask) {
        visited := visited + [base + l];
      }
    }
  }

  /** The states of chunk c's lanes sit at physical indices c * S onwards. */
  lemma ChunkStates(chunks: seq<Chunk>, size: nat, c: nat, states: seq<ParticleStates.ParticleState>)
    requires size > 0 && Shaped(chunks, size) && c < |chunks| && states == StatesOf(Lanes(chunks, size))
    ensures c * size + size <= |states| && |chunks[c]| == size
    ensures forall l :: 0 <= l < size ==> states[c * size + l] == chunks[c][l].state
  {
    MulSucc(c, size);
    MulMonotone(c + 1, |chunks|, size);
    forall l | 0 <= l < size
      ensures states[c * size + l] == chunks[c][l].state
    {
      LaneAt(chunks, size, c, l);
    }
  }

  lemma SelectedNext(states: seq<ParticleStates.ParticleState>, mask: ParticleStates.ParticleState, n: nat)
    requires n < |states|
    ensures Selected(states, mask, n + 1) == Selected(states, mask, n) + if ParticleStates.PassesMask(states[n], mask) then [n] else []
  {
  }

  /** Lane l of chunk c is the slot with physical index c * S + l. */
  lemma LaneAt(chunks: seq<Chunk>, size: nat, c: nat, l: nat)
    requires size > 0 && Shaped(chunks, size) && c < |chunks| && l < size
    ensures c * size + l < |chunks| * size && Lanes(chunks, size)[c * size + l] == chunks[c][l]
  {
    LocateInverse(c, l, size);
    MulSucc(c, size);
    MulMonotone(c + 1, |chunks|, size);
  }

  /** An empty bin needs no chunks. */
  lemma NoChunks(size: nat)
    requires size > 0
    ensures ChunksFor(0, size) == 0
  {
    var k := ChunksFor(0, size);
    if k > 0 {
      MulMonotone(1, k, size);
    }
  }

  lemma MulSucc(c: nat, size: nat)
    ensures (c + 1) * size == c * size + size
  {
  }

  /** Bin b's listed slots sit at the lanes just after the bins before it. */
  lemma BinCopies(bins: seq<seq<nat>>, b: nat, size: nat, order: seq<Slot>, base: nat)
    requires size > 0 && b < |bins| && order == PaddedOrder(bins, size) && base == |PaddedOrder(bins[..b], size)|
    ensures base + ChunksFor(|bins[b]|, size) * size <= |order|
    ensures forall j :: 0 <= j < |bins[b]| ==> order[base + j] == Moved(bins[b][j])
  {
    PaddedOrderBin(bins, b, size);
    var pb := PaddedBin(bins[b], size);
    forall j | 0 <= j < |bins[b]|
      ensures order[base + j] == Moved(bins[b][j])
    {
      assert pb[j] == Moved(bins[b][j]);
    }
  }

  /** After bin b's listed slots, up to its last chunk boundary, the padded order holds sentinels. */
  lemma BinPads(bins: seq<seq<nat>>, b: nat, size: nat, order: seq<Slot>, base: nat)
    requires size > 0 && b < |bins| && order == PaddedOrder(bins, size) && base == |PaddedOrder(bins[..b], size)|
    ensures forall q :: base + |bins[b]| <= q < base + ChunksFor(|bins[b]|, size) * size ==> q < |order| && order[q] == Pad
  {
    PaddedOrderBin(bins, b, size);
    var pb := PaddedBin(bins[b], size);
    forall q | base + |bins[b]| <= q < base + ChunksFor(|bins[b]|, size) * size
      ensures q < |order| && order[q] == Pad
    {
      assert pb[q - base] == Pad;
    }
  }

  /**
   * One bin of the scatter: from chunk c0, where the bins before bin b end,
   * its listed slots come first, then sentinels up to its last chunk
   * boundary, where the bins up to b end.
   */
  lemma BinStep(bins: seq<seq<nat>>, b: nat, size: nat, c0: nat)
    requires size > 0 && b < |bins|
    requires c0 == ChunkTotal(bins[..b], size) && c0 * size == |PaddedOrder(bins[..b], size)|
    ensures ChunkTotal(bins[..b + 1], size) == c0 + ChunksFor(|bins[b]|, size)
    ensures (c0 + ChunksFor(|bins[b]|, size)) * size == |PaddedOrder(bins[..b + 1], size)| <= |PaddedOrder(bins, size)|
    ensures forall j :: 0 <= j < |bins[b]| ==> PaddedOrder(bins, size)[c0 * size + j] == Moved(bins[b][j])
    ensures forall q :: c0 * size + |bins[b]| <= q < (c0 + ChunksFor(|bins[b]|, size)) * size ==>
      q < |PaddedOrder(bins, size)| && PaddedOrder(bins, size)[q] == Pad
  {
    assert bins[..b + 1][..b] == bins[..b];
    PaddedOrderBin(bins, b, size);
    BinCopies(bins, b, size, PaddedOrder(bins, size), c0 * size);
    BinPads(bins, b, size, PaddedOrder(bins, size), c0 * size);
    AddMul(c0, ChunksFor(|bins[b]|, size), size);
  }

  /** The first loop of `reorder_storage`: the first chunk of every bin, then the total. */
  method CountChunks(bins: seq<seq<nat>>, size: nat) returns (starts: seq<nat>, nChunks: nat)
    requires size > 0
    ensures starts == ChunkStarts(bins, size) && nChunks == ChunkTotal(bins, size)
  {
    starts := [];
    nChunks := 0;
    for b := 0 to |bins|
      invariant starts == ChunkStarts(bins, size)[..b] && nChunks == ChunkTotal(bins[..b], size)
    {
      ChunkStartsStep(bins, size, b);
      assert bins[..b + 1][..b] == bins[..b];
      starts := starts + [nChunks];
      if |bins[b]| == 0 {
        continue;
      }
      nChunks := nChunks + (|bins[b]| + size - 1) / size;
    }
    assert bins[..|bins|] == bins;
    starts := starts + [nChunks];
  }

  /**
   * The copy loop for one bin: each listed slot of `data` goes to lane
   * `dst_l` of chunk `dst_c`, its id is pointed at that physical index, and
   * the cursor moves on, to the next chunk when the lane reaches S.
   */
  method CopyBin(data: seq<Chunk>, size: nat, bin: seq<nat>, ghost src: seq<Record>, ghost order: seq<Slot>,
                 out0: seq<Chunk>, m0: seq<nat>, c0: nat)
    returns (out: seq<Chunk>, m: seq<nat>, dstC: nat, dstL: nat)
    requires ChunkSizeOk(size) && Shaped(data, size) && Shaped(out0, size) && src == Lanes(data, size)
    requires SlotsBelow(order, |src|) && |order| == |out0| * size && |order| <= ID_NOT_FOUND
    requires c0 * size + |bin| <= |order|
    requires forall j :: 0 <= j < |bin| ==> order[c0 * size + j] == Moved(bin[j])
    requires MovedIdsBelow(src, order, |m0|)
    requires Filled(Lanes(out0, size), src, order, c0 * size) && Tracks(m0, Lanes(out0, size), order, c0 * size)
    ensures Shaped(out, size) && |out| == |out0| && |m| == |m0|
    ensures dstL < size && dstC * size + dstL == c0 * size + |bin|
    ensures Filled(Lanes(out, size), src, order, c0 * size + |bin|) && Tracks(m, Lanes(out, size), order, c0 * size + |bin|)
  {
    out, m := out0, m0;
    dstC, dstL := c0, 0;
    ghost var base := c0 * size;
    for j := 0 to |bin|
      invariant Shaped(out, size) && |out| == |out0| && |m| == |m0|
      invariant dstL < size && dstC * size + dstL == base + j
      invariant Filled(Lanes(out, size), src, order, base + j) && Tracks(m, Lanes(out, size), order, base + j)
    {
      var cur := dstC * size + dstL;
      var r := Lane(data, size, bin[j]);
      CopyStep(Lanes(out, size), m, src, order, cur);
      SetLaneLanes(out, size, cur, r);
      out := SetLane(out, size, cur, r);
      m := m[r.id := cur];
      dstL := dstL + 1;
      if dstL == size {
        MulSucc(dstC, size);
        dstL, dstC := 0, dstC + 1;
      }
    }
  }

  /** The padding loop: the lanes from `dst_l` to the end of chunk `dst_c` become sentinels. */
  method PadChunk(size: nat, ghost src: seq<Record>, ghost order: seq<Slot>, out0: seq<Chunk>, ghost m: seq<nat>, dstC: nat, l0: nat)
    returns (out: seq<Chunk>)
    requires ChunkSizeOk(size) && Shaped(out0, size) && 0 < l0 < size
    requires SlotsBelow(order, |src|) && |order| == |out0| * size && (dstC + 1) * size <= |order|
    requires forall q :: dstC * size + l0 <= q < (dstC + 1) * size ==> order[q] == Pad
    requires Filled(Lanes(out0, size), src, order, dstC * size + l0) && Tracks(m, Lanes(out0, size), order, dstC * size + l0)
    ensures Shaped(out, size) && |out| == |out0|
    ensures Filled(Lanes(out, size), src, order, (dstC + 1) * size) && Tracks(m, Lanes(out, size), order, (dstC + 1) * size)
  {
    out := out0;
    var dstL := l0;
    MulSucc(dstC, size);
    while dstL < size
      invariant Shaped(out, size) && |out| == |out0| && l0 <= dstL <= size
      invariant Filled(Lanes(out, size), src, order, dstC * size + dstL) && Tracks(m, Lanes(out, size), order, dstC * size + dstL)
      decreases size - dstL
    {
      var cur := dstC * size + dstL;
      PadStep(Lanes(out, size), m, src, order, cur);
      var lane := Lane(out, size, cur);
      var sentinel := lane.(state := ParticleStates.INVALID, position := (DOUBLE_MAX, DOUBLE_MAX, DOUBLE_MAX), id := PAD_ID);
      assert sentinel == Sentinel;
      SetLaneLanes(out, size, cur, sentinel);
      out := SetLane(out, size, cur, sentinel);
      dstL := dstL + 1;
    }
  }

  /**
   * One bin of the cursor loop: an empty bin is skipped; otherwise its
   * listed slots are copied from chunk c0 on, and when the last one does
   * not end a chunk the rest of that chunk becomes sentinels and the cursor
   * moves to the next chunk.
   */
  method ScatterBin(data: seq<Chunk>, size: nat, bin: seq<nat>, ghost src: seq<Record>, ghost order: seq<Slot>,
                    out0: seq<Chunk>, m0: seq<nat>, c0: nat)
    returns (out: seq<Chunk>, m: seq<nat>, dstC: nat)
    requires ChunkSizeOk(size) && Shaped(data, size) && Shaped(out0, size) && src == Lanes(data, size)
    requires SlotsBelow(order, |src|) && |order| == |out0| * size && |order| <= ID_NOT_FOUND
    requires c0 * size + ChunksFor(|bin|, size) * size <= |order|
    requires forall j :: 0 <= j < |bin| ==> order[c0 * size + j] == Moved(bin[j])
    requires forall q :: c0 * size + |bin| <= q < (c0 + ChunksFor(|bin|, size)) * size ==> order[q] == Pad
    requires MovedIdsBelow(src, order, |m0|)
    requires Filled(Lanes(out0, size), src, order, c0 * size) && Tracks(m0, Lanes(out0, size), order, c0 * size)
    ensures Shaped(out, size) && |out| == |out0| && |m| == |m0| && dstC == c0 + ChunksFor(|bin|, size)
    ensures Filled(Lanes(out, size), src, order, dstC * size) && Tracks(m, Lanes(out, size), order, dstC * size)
  {
    if |bin| == 0 {
      NoChunks(size);
      return out0, m0, c0;
    }
    var dstL;
    out, m, dstC, dstL := CopyBin(data, size, bin, src, order, out0, m0, c0);
    if dstL > 0 {
      MulSucc(dstC, size);
      Boundary(c0, |bin|, dstC + 1, size);
      out := PadChunk(size, src, order, out, m, dstC, dstL);
      dstC := dstC + 1;
    } else {
      Boundary(c0, |bin|, dstC, size);
    }
  }

  /**
   * The cursor loop of `reorder_storage`, on the cleared scratch chunks:
   * bin by bin, empty bins skipped, the listed slots are copied and a bin
   * ending inside a chunk has the rest of the chunk turned into sentinels.
   */
  method ScatterPadded(data: seq<Chunk>, bins: seq<seq<nat>>, size: nat, scratch: seq<Chunk>, m0: seq<nat>)
    returns (out: seq<Chunk>, m: seq<nat>)
    requires ChunkSizeOk(size) && Shaped(data, size) && Shaped(scratch, size)
    requires SlotsBelow(PaddedOrder(bins, size), |data| * size)
    requires |scratch| == ChunkTotal(bins, size) && forall p :: 0 <= p < |scratch| * size ==> Lanes(scratch, size)[p] == Blank
    requires |m0| == |scratch| * size <= ID_NOT_FOUND && forall x :: 0 <= x < |m0| ==> m0[x] == ID_NOT_FOUND
    requires MovedIdsBelow(Lanes(data, size), PaddedOrder(bins, size), |m0|)
    ensures Shaped(out, size) && |out| == |scratch| && |m| == |m0|
    ensures Lanes(out, size) == Arrange(Lanes(data, size), PaddedOrder(bins, size))
    ensures Tracks(m, Lanes(out, size), PaddedOrder(bins, size), |m0|)
  {
    ghost var src := Lanes(data, size);
    ghost var order := PaddedOrder(bins, size);
    out, m := scratch, m0;
    var dstC := 0;
    for b := 0 to |bins|
      invariant Shaped(out, size) && |out| == |scratch| && |m| == |m0|
      invariant dstC == ChunkTotal(bins[..b], size) && dstC * size == |PaddedOrder(bins[..b], size)|
      invariant Filled(Lanes(out, size), src, order, dstC * size) && Tracks(m, Lanes(out, size), order, dstC * size)
    {
      BinStep(bins, b, size, dstC);
      out, m, dstC := ScatterBin(data, size, bins[b], src, order, out, m, dstC);
    }
    assert bins[..|bins|] == bins;
  }

  /**
   * A chunk boundary at least n lanes past chunk c0 and less than a chunk
   * beyond that is the boundary where n lanes rounded up to whole chunks end.
   */
  lemma Boundary(c0: nat, n: nat, c: nat, size: nat)
    requires size > 0 && c0 * size + n <= c * size < c0 * size + n + size
    ensures c == c0 + ChunksFor(n, size) && c * size == c0 * size + ChunksFor(n, size) * size
  {
    var k := ChunksFor(n, size);
    assert c0 <= c by {
      if c < c0 {
        MulSucc(c, size);
        MulMonotone(c + 1, c0, size);
      }
    }
    var d := c - c0;
    assert c * size == c0 * size + d * size by {
      AddMul(c0, d, size);
    }
    if d < k {
      MulSucc(d, size);
      MulMonotone(d + 1, k, size);
    } else if k < d {
      MulSucc(k, size);
      MulMonotone(k + 1, d, size);
    }
  }
}
