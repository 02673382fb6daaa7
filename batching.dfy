/**
 * The pair batches of `container::internal`. A batch walks one range of
 * particles against another (asymmetric) or one range against itself
 * (symmetric) and calls the kernel once per visited pair; the model
 * records the visited pairs in order, so "the kernel sees every pair
 * exactly once" becomes "the sequence has no repeats and holds exactly
 * the pairs of the product".
 *
 * Scalar batches visit particle indices; chunked batches visit lanes,
 * addressed as (chunk, lane within chunk), of an AoSoA storage whose last
 * chunk in a range may be partly filled (its `tail`, 0 meaning full).
 */
module Batching {
  import opened IndexRange
  import opened Seqs

  /* ================= Scalar batches ================= */

  type IndexPair = (nat, nat)

  /** Row i of the walk: (i, lo), (i, lo + 1), ..., (i, hi - 1). */
  function IndexRow(i: nat, lo: nat, hi: nat): seq<IndexPair>
    requires lo <= hi
  {
    seq(hi - lo, k requires 0 <= k < hi - lo => (i, lo + k))
  }

  /** The i-major product [lo1, hi1) x [lo2, hi2). */
  function Product(lo1: nat, hi1: nat, lo2: nat, hi2: nat): seq<IndexPair>
    requires lo1 <= hi1 && lo2 <= hi2
    decreases hi1 - lo1
  {
    if hi1 == lo1 then [] else Product(lo1, hi1 - 1, lo2, hi2) + IndexRow(hi1 - 1, lo2, hi2)
  }

  /** Pairs i < j of [lo, hi) whose first index is below k, i-major. */
  function Upper(lo: nat, k: nat, hi: nat): seq<IndexPair>
    requires lo <= k <= hi
    decreases k - lo
  {
    if k == lo then [] else Upper(lo, k - 1, hi) + IndexRow(k - 1, k, hi)
  }

  lemma IndexRowShape(i: nat, lo: nat, hi: nat)
    requires lo <= hi
    ensures forall p :: p in IndexRow(i, lo, hi) <==> p.0 == i && lo <= p.1 < hi
    ensures Distinct(IndexRow(i, lo, hi))
  {
    var row := IndexRow(i, lo, hi);
    forall p: IndexPair | p.0 == i && lo <= p.1 < hi
      ensures p in row
    {
      assert row[p.1 - lo] == p;
    }
  }

  /** The product holds each pair of the two ranges once, and nothing else. */
  lemma {:induction false} ProductShape(lo1: nat, hi1: nat, lo2: nat, hi2: nat)
    requires lo1 <= hi1 && lo2 <= hi2
    ensures forall p :: p in Product(lo1, hi1, lo2, hi2) <==> lo1 <= p.0 < hi1 && lo2 <= p.1 < hi2
    ensures Distinct(Product(lo1, hi1, lo2, hi2))
    ensures |Product(lo1, hi1, lo2, hi2)| == (hi1 - lo1) * (hi2 - lo2)
    decreases hi1 - lo1
  {
    if hi1 > lo1 {
      ProductShape(lo1, hi1 - 1, lo2, hi2);
      IndexRowShape(hi1 - 1, lo2, hi2);
      DistinctConcat(Product(lo1, hi1 - 1, lo2, hi2), IndexRow(hi1 - 1, lo2, hi2));
      MulSucc(hi1 - 1 - lo1, hi2 - lo2);
    }
  }

  /** The upper triangle holds each pair i < j once; twice its length is m(2n - m - 1) for m = k - lo, n = hi - lo. */
  lemma {:induction false} UpperShape(lo: nat, k: nat, hi: nat)
    requires lo <= k <= hi
    ensures forall p :: p in Upper(lo, k, hi) <==> lo <= p.0 < k && p.0 < p.1 < hi
    ensures Distinct(Upper(lo, k, hi))
    ensures 2 * |Upper(lo, k, hi)| == (k - lo) * (2 * (hi - lo) - (k - lo) - 1)
    decreases k - lo
  {
    if k > lo {
      UpperShape(lo, k - 1, hi);
      IndexRowShape(k - 1, k, hi);
      DistinctConcat(Upper(lo, k - 1, hi), IndexRow(k - 1, k, hi));
      TriangleStep(k - lo, hi - lo);
    }
  }

  lemma IndexRowSnoc(i: nat, lo: nat, j: nat)
    requires lo <= j
    ensures IndexRow(i, lo, j + 1) == IndexRow(i, lo, j) + [(i, j)]
  {
  }

  /**
   * `AsymmetricScalarBatch::for_each_pair`: every p1 of range1, and for
   * each every p2 of range2.
   */
  method AsymmetricScalarPairs(range1: Range, range2: Range) returns (pairs: seq<IndexPair>)
    requires range1.Valid() && range2.Valid()
    ensures pairs == Product(range1.start as nat, range1.stop as nat, range2.start as nat, range2.stop as nat)
    ensures forall p :: p in pairs <==>
      range1.start as nat <= p.0 < range1.stop as nat && range2.start as nat <= p.1 < range2.stop as nat
    ensures Distinct(pairs)
    ensures |pairs| == range1.Size() as nat * range2.Size() as nat
  {
    pairs := [];
    for i: nat := range1.start as nat to range1.stop as nat
      invariant pairs == Product(range1.start as nat, i, range2.start as nat, range2.stop as nat)
    {
      for j: nat := range2.start as nat to range2.stop as nat
        invariant pairs == Product(range1.start as nat, i, range2.start as nat, range2.stop as nat)
                           + IndexRow(i, range2.start as nat, j)
      {
        IndexRowSnoc(i, range2.start as nat, j);
        pairs := pairs + [(i, j)];
      }
    }
    ProductShape(range1.start as nat, range1.stop as nat, range2.start as nat, range2.stop as nat);
  }

  /**
   * `SymmetricScalarBatch::for_each_pair`: every index i of the range,
   * and for each every j from i + 1 to the end.
   */
  method SymmetricScalarPairs(range: Range) returns (pairs: seq<IndexPair>)
    requires range.Valid()
    ensures pairs == Upper(range.start as nat, range.stop as nat, range.stop as nat)
    ensures forall p :: p in pairs <==> range.start as nat <= p.0 < p.1 < range.stop as nat
    ensures Distinct(pairs)
    ensures |pairs| == range.Size() as nat * (range.Size() as nat - 1) / 2
  {
    pairs := [];
    for i: nat := range.start as nat to range.stop as nat
      invariant pairs == Upper(range.start as nat, i, range.stop as nat)
    {
      for j: nat := i + 1 to range.stop as nat
        invariant pairs == Upper(range.start as nat, i, range.stop as nat) + IndexRow(i, i + 1, j)
      {
        IndexRowSnoc(i, i + 1, j);
        pairs := pairs + [(i, j)];
      }
    }
    UpperShape(range.start as nat, range.stop as nat, range.stop as nat);
  }

  /* ================= Chunked batches ================= */

  /** A lane of the chunked storage: (chunk index, lane within the chunk). */
  type Lane = (nat, nat)
  type LanePair = (Lane, Lane)

  /** Lanes (c2, lo) .. (c2, hi - 1) against the fixed lane (c1, i). */
  function LaneRow(c1: nat, i: nat, c2: nat, lo: nat, hi: nat): seq<LanePair>
    requires lo <= hi
  {
    seq(hi - lo, k requires 0 <= k < hi - lo => ((c1, i), (c2, lo + k)))
  }

  /** Chunk c1's lanes below k against chunk c2's lanes below n2, lane-major. */
  function Rows(c1: nat, c2: nat, k: nat, n2: nat): seq<LanePair>
    decreases k
  {
    if k == 0 then [] else Rows(c1, c2, k - 1, n2) + LaneRow(c1, k - 1, c2, 0, n2)
  }

  /** Pairs of lanes i < j < n of chunk c whose first lane is below k. */
  function Tri(c: nat, k: nat, n: nat): seq<LanePair>
    requires k <= n
    decreases k
  {
    if k == 0 then [] else Tri(c, k - 1, n) + LaneRow(c, k - 1, c, k, n)
  }

  /** Chunk c1 (its first n1 lanes) against chunks lo..hi - 1 (their first n2 lanes). */
  function Chunks2(c1: nat, lo: nat, hi: nat, n1: nat, n2: nat): seq<LanePair>
    requires lo <= hi
    decreases hi - lo
  {
    if hi == lo then [] else Chunks2(c1, lo, hi - 1, n1, n2) + Rows(c1, hi - 1, n1, n2)
  }

  /** Chunks lo1..hi1 - 1 against chunks lo2..hi2 - 1, chunk-major. */
  function Chunks1(lo1: nat, hi1: nat, lo2: nat, hi2: nat, n1: nat, n2: nat): seq<LanePair>
    requires lo1 <= hi1 && lo2 <= hi2
    decreases hi1 - lo1
  {
    if hi1 == lo1 then [] else Chunks1(lo1, hi1 - 1, lo2, hi2, n1, n2) + Chunks2(hi1 - 1, lo2, hi2, n1, n2)
  }

  /**
   * The body loop of the symmetric batch up to chunk k: each body chunk
   * against itself (upper triangle) and then against every later body
   * chunk below b.
   */
  function SymBody(lo: nat, k: nat, b: nat, stride: nat): seq<LanePair>
    requires lo <= k <= b
    decreases k - lo
  {
    if k == lo then []
    else SymBody(lo, k - 1, b, stride) + Tri(k - 1, stride, stride) + Chunks2(k - 1, k, b, stride, stride)
  }

  /** Lane pair p lies in chunks [lo1, hi1) x [lo2, hi2) with lanes below n1 and n2. */
  predicate InBlock(p: LanePair, lo1: nat, hi1: nat, lo2: nat, hi2: nat, n1: nat, n2: nat) {
    lo1 <= p.0.0 < hi1 && lo2 <= p.1.0 < hi2 && p.0.1 < n1 && p.1.1 < n2
  }

  lemma LaneRowShape(c1: nat, i: nat, c2: nat, lo: nat, hi: nat)
    requires lo <= hi
    ensures forall p :: p in LaneRow(c1, i, c2, lo, hi) <==> p.0 == (c1, i) && p.1.0 == c2 && lo <= p.1.1 < hi
    ensures Distinct(LaneRow(c1, i, c2, lo, hi))
  {
    var row := LaneRow(c1, i, c2, lo, hi);
    forall p: LanePair | p.0 == (c1, i) && p.1.0 == c2 && lo <= p.1.1 < hi
      ensures p in row
    {
      assert row[p.1.1 - lo] == p;
    }
  }

  lemma {:induction false} RowsShape(c1: nat, c2: nat, k: nat, n2: nat)
    ensures forall p :: p in Rows(c1, c2, k, n2) <==> InBlock(p, c1, c1 + 1, c2, c2 + 1, k, n2)
    ensures Distinct(Rows(c1, c2, k, n2))
    decreases k
  {
    if k > 0 {
      RowsShape(c1, c2, k - 1, n2);
      LaneRowShape(c1, k - 1, c2, 0, n2);
      DistinctConcat(Rows(c1, c2, k - 1, n2), LaneRow(c1, k - 1, c2, 0, n2));
    }
  }

  lemma {:induction false} RowsCount(c1: nat, c2: nat, k: nat, n2: nat)
    ensures |Rows(c1, c2, k, n2)| == k * n2
    decreases k
  {
    if k > 0 {
      RowsCount(c1, c2, k - 1, n2);
      MulSucc(k - 1, n2);
    }
  }

  lemma {:induction false} TriShape(c: nat, k: nat, n: nat)
    requires k <= n
    ensures forall p :: p in Tri(c, k, n) <==> p.0.0 == c && p.1.0 == c && p.0.1 < k && p.0.1 < p.1.1 < n
    ensures Distinct(Tri(c, k, n))
    decreases k
  {
    if k > 0 {
      TriShape(c, k - 1, n);
      LaneRowShape(c, k - 1, c, k, n);
      DistinctConcat(Tri(c, k - 1, n), LaneRow(c, k - 1, c, k, n));
    }
  }

  lemma {:induction false} TriCount(c: nat, k: nat, n: nat)
    requires k <= n
    ensures 2 * |Tri(c, k, n)| == k * (2 * n - k - 1)
    decreases k
  {
    if k > 0 {
      TriCount(c, k - 1, n);
      TriangleStep(k, n);
    }
  }

  lemma {:induction false} Chunks2Shape(c1: nat, lo: nat, hi: nat, n1: nat, n2: nat)
    requires lo <= hi
    ensures forall p :: p in Chunks2(c1, lo, hi, n1, n2) <==> InBlock(p, c1, c1 + 1, lo, hi, n1, n2)
    ensures Distinct(Chunks2(c1, lo, hi, n1, n2))
    decreases hi - lo
  {
    if hi > lo {
      Chunks2Shape(c1, lo, hi - 1, n1, n2);
      RowsShape(c1, hi - 1, n1, n2);
      DistinctConcat(Chunks2(c1, lo, hi - 1, n1, n2), Rows(c1, hi - 1, n1, n2));
    }
  }

  lemma {:induction false} Chunks2Count(c1: nat, lo: nat, hi: nat, n1: nat, n2: nat)
    requires lo <= hi
    ensures |Chunks2(c1, lo, hi, n1, n2)| == (hi - lo) * (n1 * n2)
    decreases hi - lo
  {
    if hi > lo {
      Chunks2Count(c1, lo, hi - 1, n1, n2);
      RowsCount(c1, hi - 1, n1, n2);
      MulSucc(hi - 1 - lo, n1 * n2);
    }
  }

  lemma {:induction false} Chunks1Shape(lo1: nat, hi1: nat, lo2: nat, hi2: nat, n1: nat, n2: nat)
    requires lo1 <= hi1 && lo2 <= hi2
    ensures forall p :: p in Chunks1(lo1, hi1, lo2, hi2, n1, n2) <==> InBlock(p, lo1, hi1, lo2, hi2, n1, n2)
    ensures Distinct(Chunks1(lo1, hi1, lo2, hi2, n1, n2))
    decreases hi1 - lo1
  {
    if hi1 > lo1 {
      Chunks1Shape(lo1, hi1 - 1, lo2, hi2, n1, n2);
      Chunks2Shape(hi1 - 1, lo2, hi2, n1, n2);
      DistinctConcat(Chunks1(lo1, hi1 - 1, lo2, hi2, n1, n2), Chunks2(hi1 - 1, lo2, hi2, n1, n2));
    }
  }

  lemma {:induction false} Chunks1Count(lo1: nat, hi1: nat, lo2: nat, hi2: nat, n1: nat, n2: nat)
    requires lo1 <= hi1 && lo2 <= hi2
    ensures |Chunks1(lo1, hi1, lo2, hi2, n1, n2)| == (hi1 - lo1) * ((hi2 - lo2) * (n1 * n2))
    decreases hi1 - lo1
  {
    if hi1 > lo1 {
      Chunks1Count(lo1, hi1 - 1, lo2, hi2, n1, n2);
      Chunks2Count(hi1 - 1, lo2, hi2, n1, n2);
      MulSucc(hi1 - 1 - lo1, (hi2 - lo2) * (n1 * n2));
    }
  }

  /** The pairs the symmetric body loop visits up to chunk k. */
  ghost predicate InSymBody(p: LanePair, lo: nat, k: nat, b: nat, stride: nat) {
    lo <= p.0.0 < k && p.0.0 <= p.1.0 < b && p.0.1 < stride && p.1.1 < stride &&
    (p.0.0 == p.1.0 ==> p.0.1 < p.1.1)
  }

  lemma {:induction false} SymBodyShape(lo: nat, k: nat, b: nat, stride: nat)
    requires lo <= k <= b
    ensures forall p :: p in SymBody(lo, k, b, stride) <==> InSymBody(p, lo, k, b, stride)
    ensures Distinct(SymBody(lo, k, b, stride))
    decreases k - lo
  {
    if k > lo {
      var c := k - 1;
      var prev := SymBody(lo, c, b, stride);
      var tri := Tri(c, stride, stride);
      var rest := Chunks2(c, k, b, stride, stride);
      SymBodyShape(lo, c, b, stride);
      TriShape(c, stride, stride);
      Chunks2Shape(c, k, b, stride, stride);
      DistinctConcat(tri, rest);
      DistinctConcat(prev, tri + rest);
      assert SymBody(lo, k, b, stride) == prev + (tri + rest);
    }
  }

  lemma {:induction false} SymBodyCount(lo: nat, k: nat, b: nat, stride: nat)
    requires lo <= k <= b
    ensures 2 * |SymBody(lo, k, b, stride)| ==
      (k - lo) * (stride * (stride - 1)) + (k - lo) * (2 * (b - lo) - (k - lo) - 1) * (stride * stride)
    decreases k - lo
  {
    if k > lo {
      var c := k - 1;
      var prev, tri, rest := SymBody(lo, c, b, stride), Tri(c, stride, stride), Chunks2(c, k, b, stride, stride);
      assert SymBody(lo, k, b, stride) == prev + tri + rest;
      SymBodyCount(lo, c, b, stride);
      TriCount(c, stride, stride);
      Chunks2Count(c, k, b, stride, stride);
      var s2, t := stride * stride, stride * (stride - 1);
      assert |rest| == (b - k) * s2;
      SymBodyCountStep(k - lo, b - lo, s2, t, |prev|, |tri|, |rest|);
    }
  }

  /** Lanes the last chunk of a range holds: `tail`, where 0 means a full chunk. */
  function Limit(tail: nat, stride: nat): (l: nat)
    ensures tail > 0 ==> l == tail
  {
    if tail == 0 then stride else tail
  }

  /** Lane l holds a particle of the chunk range: a body chunk's lanes are all valid, the last chunk's up to its limit. */
  predicate ValidLane(l: Lane, chunks: Range, tail: nat, stride: nat) {
    chunks.start as nat <= l.0 < chunks.stop as nat &&
    l.1 < (if l.0 == chunks.stop as nat - 1 then Limit(tail, stride) else stride)
  }

  /** How many valid lanes a chunk range holds. */
  function LaneCount(chunks: Range, tail: nat, stride: nat): nat
    requires chunks.Valid()
  {
    if chunks.start == chunks.stop then 0
    else
      var bodyChunks: nat := chunks.stop as nat - chunks.start as nat - 1;
      bodyChunks * stride + Limit(tail, stride)
  }

  /** Lane a comes before lane b in storage order. */
  predicate LaneLess(a: Lane, b: Lane) {
    a.0 < b.0 || (a.0 == b.0 && a.1 < b.1)
  }

  /** The inner (i, j) loops of a chunked block: n1 lanes of chunk c1 against n2 lanes of chunk c2. */
  method VisitChunkPair(c1: nat, c2: nat, n1: nat, n2: nat) returns (block: seq<LanePair>)
    ensures block == Rows(c1, c2, n1, n2)
  {
    block := [];
    for i := 0 to n1
      invariant block == Rows(c1, c2, i, n2)
    {
      for j := 0 to n2
        invariant block == Rows(c1, c2, i, n2) + LaneRow(c1, i, c2, 0, j)
      {
        assert LaneRow(c1, i, c2, 0, j + 1) == LaneRow(c1, i, c2, 0, j) + [((c1, i), (c2, j))];
        block := block + [((c1, i), (c2, j))];
      }
    }
  }

  /** The chunk self-interaction loops: lanes i < j < n of chunk c. */
  method VisitChunkSelf(c: nat, n: nat) returns (block: seq<LanePair>)
    ensures block == Tri(c, n, n)
  {
    block := [];
    for i := 0 to n
      invariant block == Tri(c, i, n)
    {
      for j := i + 1 to n
        invariant block == Tri(c, i, n) + LaneRow(c, i, c, i + 1, j)
      {
        assert LaneRow(c, i, c, i + 1, j + 1) == LaneRow(c, i, c, i + 1, j) + [((c, i), (c, j))];
        block := block + [((c, i), (c, j))];
      }
    }
  }

  /** A c2 loop: chunk c1 against chunks lo..hi - 1. */
  method VisitChunkRow(c1: nat, lo: nat, hi: nat, n1: nat, n2: nat) returns (block: seq<LanePair>)
    requires lo <= hi
    ensures block == Chunks2(c1, lo, hi, n1, n2)
  {
    block := [];
    for c2 := lo to hi
      invariant block == Chunks2(c1, lo, c2, n1, n2)
    {
      var rows := VisitChunkPair(c1, c2, n1, n2);
      block := block + rows;
    }
  }

  /** A c1 loop against the single chunk c2 (the other range's tail). */
  method VisitChunkColumn(lo: nat, hi: nat, c2: nat, n1: nat, n2: nat) returns (block: seq<LanePair>)
    requires lo <= hi
    ensures block == Chunks1(lo, hi, c2, c2 + 1, n1, n2)
  {
    block := [];
    for c1 := lo to hi
      invariant block == Chunks1(lo, c1, c2, c2 + 1, n1, n2)
    {
      var rows := VisitChunkPair(c1, c2, n1, n2);
      assert Chunks2(c1, c2, c2, n1, n2) == [];
      block := block + rows;
    }
  }

  /** The nested c1, c2 loops of body x body. */
  method VisitChunkBlocks(lo1: nat, hi1: nat, lo2: nat, hi2: nat, n1: nat, n2: nat) returns (block: seq<LanePair>)
    requires lo1 <= hi1 && lo2 <= hi2
    ensures block == Chunks1(lo1, hi1, lo2, hi2, n1, n2)
  {
    block := [];
    for c1 := lo1 to hi1
      invariant block == Chunks1(lo1, c1, lo2, hi2, n1, n2)
    {
      var row := VisitChunkRow(c1, lo2, hi2, n1, n2);
      block := block + row;
    }
  }

  /** The symmetric body loop: each body chunk with itself, then with every later body chunk. */
  method VisitSymmetricBody(lo: nat, hi: nat, stride: nat) returns (block: seq<LanePair>)
    requires lo <= hi
    ensures block == SymBody(lo, hi, hi, stride)
  {
    block := [];
    for c1 := lo to hi
      invariant block == SymBody(lo, c1, hi, stride)
    {
      var self := VisitChunkSelf(c1, stride);
      var others := VisitChunkRow(c1, c1 + 1, hi, stride, stride);
      block := block + self + others;
    }
  }

  /** What the four blocks of the asymmetric batch visit, in order; a non-empty range's last chunk is its tail. */
  function AsymmetricAll(range1: Range, tail1: nat, range2: Range, tail2: nat, stride: nat): seq<LanePair>
    requires range1.Valid() && range2.Valid() && range1.start < range1.stop && range2.start < range2.stop
  {
    var s1, t1, s2, t2 := range1.start as nat, range1.stop as nat - 1, range2.start as nat, range2.stop as nat - 1;
    var l1, l2 := Limit(tail1, stride), Limit(tail2, stride);
    Chunks1(s1, t1, s2, t2, stride, stride) + Chunks1(s1, t1, t2, t2 + 1, stride, l2)
    + Chunks2(t1, s2, t2, l1, stride) + Rows(t1, t2, l1, l2)
  }

  /** What the three blocks of the symmetric batch visit, in order. */
  function SymmetricAll(range: Range, tail: nat, stride: nat): seq<LanePair>
    requires range.Valid() && range.start < range.stop
  {
    var s, t := range.start as nat, range.stop as nat - 1;
    var l := Limit(tail, stride);
    SymBody(s, t, t, stride) + Chunks1(s, t, t, t + 1, stride, l) + Tri(t, l, l)
  }

  /** The four blocks together visit every pair of valid lanes, each once. */
  lemma AsymmetricCover(range1: Range, tail1: nat, range2: Range, tail2: nat, stride: nat)
    requires range1.Valid() && range2.Valid() && range1.start < range1.stop && range2.start < range2.stop
    ensures forall p :: p in AsymmetricAll(range1, tail1, range2, tail2, stride) <==>
      ValidLane(p.0, range1, tail1, stride) && ValidLane(p.1, range2, tail2, stride)
    ensures Distinct(AsymmetricAll(range1, tail1, range2, tail2, stride))
  {
    var s1, t1, s2, t2 := range1.start as nat, range1.stop as nat - 1, range2.start as nat, range2.stop as nat - 1;
    var l1, l2 := Limit(tail1, stride), Limit(tail2, stride);
    var a := Chunks1(s1, t1, s2, t2, stride, stride);
    var b := Chunks1(s1, t1, t2, t2 + 1, stride, l2);
    var c := Chunks2(t1, s2, t2, l1, stride);
    var d := Rows(t1, t2, l1, l2);
    Chunks1Shape(s1, t1, s2, t2, stride, stride);
    Chunks1Shape(s1, t1, t2, t2 + 1, stride, l2);
    Chunks2Shape(t1, s2, t2, l1, stride);
    RowsShape(t1, t2, l1, l2);
    DistinctConcat(a, b);
    DistinctConcat(a + b, c);
    DistinctConcat(a + b + c, d);
  }

  /** ... and their number is the product of the two ranges' valid lanes. */
  lemma AsymmetricCount(range1: Range, tail1: nat, range2: Range, tail2: nat, stride: nat)
    requires range1.Valid() && range2.Valid() && range1.start < range1.stop && range2.start < range2.stop
    ensures |AsymmetricAll(range1, tail1, range2, tail2, stride)| ==
      LaneCount(range1, tail1, stride) * LaneCount(range2, tail2, stride)
  {
    var s1, t1, s2, t2 := range1.start as nat, range1.stop as nat - 1, range2.start as nat, range2.stop as nat - 1;
    var l1, l2 := Limit(tail1, stride), Limit(tail2, stride);
    Chunks1Count(s1, t1, s2, t2, stride, stride);
    Chunks1Count(s1, t1, t2, t2 + 1, stride, l2);
    Chunks2Count(t1, s2, t2, l1, stride);
    RowsCount(t1, t2, l1, l2);
    ProductExpand(t1 - s1, t2 - s2, stride, l1, l2);
  }

  /**
   * `AsymmetricChunkedBatch::for_each_pair`: nothing for an empty chunk
   * range; otherwise body x body, body x tail, tail x body and tail x tail,
   * which together visit every pair of a valid lane of range 1 and a
   * valid lane of range 2 exactly once.
   */
  method AsymmetricChunkedPairs(range1: Range, tail1: nat, range2: Range, tail2: nat, stride: nat)
    returns (pairs: seq<LanePair>)
    requires range1.Valid() && range2.Valid()
    ensures range1.start == range1.stop || range2.start == range2.stop ==> pairs == []
    ensures forall p :: p in pairs <==> ValidLane(p.0, range1, tail1, stride) && ValidLane(p.1, range2, tail2, stride)
    ensures Distinct(pairs)
    ensures |pairs| == LaneCount(range1, tail1, stride) * LaneCount(range2, tail2, stride)
  {
    if range1.start == range1.stop || range2.start == range2.stop {
      return [];
    }
    var s1, t1 := range1.start as nat, range1.stop as nat - 1;
    var s2, t2 := range2.start as nat, range2.stop as nat - 1;
    var limit1, limit2 := Limit(tail1, stride), Limit(tail2, stride);
    var bodyBody := VisitChunkBlocks(s1, t1, s2, t2, stride, stride);
    var bodyTail := VisitChunkColumn(s1, t1, t2, stride, limit2);
    var tailBody := VisitChunkRow(t1, s2, t2, limit1, stride);
    var tailTail := VisitChunkPair(t1, t2, limit1, limit2);
    pairs := bodyBody + bodyTail + tailBody + tailTail;
    assert pairs == AsymmetricAll(range1, tail1, range2, tail2, stride);
    AsymmetricCover(range1, tail1, range2, tail2, stride);
    AsymmetricCount(range1, tail1, range2, tail2, stride);
  }

  /** The body, body x tail and tail loops together visit every pair of valid lanes in storage order, each once. */
  lemma SymmetricCover(range: Range, tail: nat, stride: nat)
    requires range.Valid() && range.start < range.stop
    ensures forall p :: p in SymmetricAll(range, tail, stride) <==>
      ValidLane(p.0, range, tail, stride) && ValidLane(p.1, range, tail, stride) && LaneLess(p.0, p.1)
    ensures Distinct(SymmetricAll(range, tail, stride))
  {
    var s, t := range.start as nat, range.stop as nat - 1;
    var l := Limit(tail, stride);
    var a := SymBody(s, t, t, stride);
    var b := Chunks1(s, t, t, t + 1, stride, l);
    var c := Tri(t, l, l);
    SymBodyShape(s, t, t, stride);
    Chunks1Shape(s, t, t, t + 1, stride, l);
    TriShape(t, l, l);
    DistinctConcat(a, b);
    DistinctConcat(a + b, c);
  }

  /** ... and twice their number is v(v - 1) for v valid lanes. */
  lemma SymmetricCount(range: Range, tail: nat, stride: nat)
    requires range.Valid() && range.start < range.stop
    ensures 2 * |SymmetricAll(range, tail, stride)| ==
      LaneCount(range, tail, stride) * (LaneCount(range, tail, stride) - 1)
  {
    var s, t := range.start as nat, range.stop as nat - 1;
    var l := Limit(tail, stride);
    SymBodyCount(s, t, t, stride);
    Chunks1Count(s, t, t, t + 1, stride, l);
    TriCount(t, l, l);
    TriangleExpand(t - s, stride, l);
  }

  /**
   * `SymmetricChunkedBatch::for_each_pair`: nothing for an empty chunk
   * range; otherwise each body chunk against itself and every later body
   * chunk, every body chunk against the tail, and the tail against
   * itself, which together visit every unordered pair of distinct valid
   * lanes exactly once, the earlier lane first.
   */
  method SymmetricChunkedPairs(range: Range, tail: nat, stride: nat) returns (pairs: seq<LanePair>)
    requires range.Valid()
    ensures range.start == range.stop ==> pairs == []
    ensures forall p :: p in pairs <==>
      ValidLane(p.0, range, tail, stride) && ValidLane(p.1, range, tail, stride) && LaneLess(p.0, p.1)
    ensures Distinct(pairs)
    ensures 2 * |pairs| == LaneCount(range, tail, stride) * (LaneCount(range, tail, stride) - 1)
  {
    if range.start == range.stop {
      return [];
    }
    var s, t := range.start as nat, range.stop as nat - 1;
    var limit := Limit(tail, stride);
    var body := VisitSymmetricBody(s, t, stride);
    var bodyTail := VisitChunkColumn(s, t, t, stride, limit);
    var tailSelf := VisitChunkSelf(t, limit);
    pairs := body + bodyTail + tailSelf;
    assert pairs == SymmetricAll(range, tail, stride);
    SymmetricCover(range, tail, stride);
    SymmetricCount(range, tail, stride);
  }

  /* ---------------- Counting ---------------- */

  lemma MulSucc(a: nat, b: nat)
    ensures (a + 1) * b == a * b + b
  {
  }

  /** One more row of an upper triangle: m(2n - m - 1) grows by 2(n - m). */
  lemma TriangleStep(m: int, n: int)
    ensures m * (2 * n - m - 1) == (m - 1) * (2 * n - (m - 1) - 1) + 2 * (n - m)
  {
  }

  lemma SymBodyStep(m: int, n: int, s2: int, t: int)
    ensures m * t + m * (2 * n - m - 1) * s2 ==
      (m - 1) * t + (m - 1) * (2 * n - (m - 1) - 1) * s2 + t + 2 * (n - m) * s2
  {
    TriangleStep(m, n);
    assert m * (2 * n - m - 1) * s2 == ((m - 1) * (2 * n - (m - 1) - 1) + 2 * (n - m)) * s2;
  }

  /** One more body chunk in the symmetric count, on plain integers. */
  lemma SymBodyCountStep(m: int, n: int, s2: int, t: int, prev: int, tri: int, rest: int)
    requires 2 * prev == (m - 1) * t + (m - 1) * (2 * n - (m - 1) - 1) * s2
    requires 2 * tri == t
    requires rest == (n - m) * s2
    ensures 2 * (prev + tri + rest) == m * t + m * (2 * n - m - 1) * s2
  {
    SymBodyStep(m, n, s2, t);
    assert 2 * (n - m) * s2 == 2 * ((n - m) * s2);
  }

  /** (b1 s + l1)(b2 s + l2) split into the four blocks of the asymmetric batch. */
  lemma ProductExpand(b1: int, b2: int, s: int, l1: int, l2: int)
    ensures (b1 * s + l1) * (b2 * s + l2) ==
      b1 * (b2 * (s * s)) + b1 * (1 * (s * l2)) + b2 * (l1 * s) + l1 * l2
  {
  }

  /** v(v - 1) for v = m s + l split into the three parts of the symmetric batch. */
  lemma TriangleExpand(m: int, s: int, l: int)
    ensures (m * s + l) * (m * s + l - 1) ==
      m * (s * (s - 1)) + m * (2 * m - m - 1) * (s * s) + 2 * (m * (1 * (s * l))) + l * (l - 1)
  {
    var x := m * s;
    assert (x + l) * (x + l - 1) == x * x + 2 * (x * l) + l * l - x - l;
    assert m * (s * (s - 1)) == m * (s * s) - x;
    assert m * (2 * m - m - 1) * (s * s) == x * x - m * (s * s);
    assert m * (1 * (s * l)) == x * l;
  }
}
