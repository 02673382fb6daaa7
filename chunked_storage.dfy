/**
 * The chunked storage of `aosoa.hpp` (array of structs of arrays): the
 * particles live in chunks of S lanes, S a power of two of at least 8, and
 * the particle with linear index i sits in lane i mod S of chunk i / S.
 * A chunk holds one array per field; here a chunk is the sequence of its
 * lanes, each lane one particle record, and `Lanes` reads the chunks back
 * as one flat sequence of slots on which the operations are stated.
 */
module ChunkedStorages {
  import opened ParticleRecords
  import opened Seqs

  /** One chunk: its S lanes. */
  type Chunk = seq<Record>

  /** n is a power of two. */
  predicate IsPow2(n: nat)
    decreases n
  {
    n == 1 || (n > 1 && n % 2 == 0 && IsPow2(n / 2))
  }

  /** The chunk sizes `ParticleChunk` accepts: a power of two, at least 8. */
  predicate ChunkSizeOk(size: nat) {
    size >= 8 && IsPow2(size)
  }

  /** The value-initialised chunk that `chunks.resize` appends. */
  function BlankChunk(size: nat): (c: Chunk)
    ensures |c| == size && forall l :: 0 <= l < size ==> c[l] == Blank
  {
    seq(size, _ => Blank)
  }

  /** Every chunk has exactly `size` lanes. */
  predicate Shaped(chunks: seq<Chunk>, size: nat) {
    forall c :: 0 <= c < |chunks| ==> |chunks[c]| == size
  }

  /** ceil(n / size): the chunks needed for n particles; their lanes are the least multiple of size that holds n. */
  function ChunksFor(n: nat, size: nat): (k: nat)
    requires size > 0
    ensures n <= k * size < n + size
  {
    var k := (n + size - 1) / size;
    assert k * size + (n + size - 1) % size == n + size - 1;
    k
  }

  /** `locate`: the chunk and the lane of linear index i; the pair names i and nothing else. */
  function Locate(i: nat, size: nat): (cl: (nat, nat))
    requires size > 0
    ensures cl.1 < size && cl.0 * size + cl.1 == i
  {
    (i / size, i % size)
  }

  /** Every chunk/lane pair is where exactly one linear index is located: `Locate` inverts c * size + l. */
  lemma LocateInverse(c: nat, l: nat, size: nat)
    requires l < size
    ensures Locate(c * size + l, size) == (c, l)
  {
    var (c', l') := Locate(c * size + l, size);
    if c' < c {
      MulMonotone(c' + 1, c, size);
    } else if c < c' {
      MulMonotone(c + 1, c', size);
    }
  }

  lemma MulMonotone(a: nat, b: nat, size: nat)
    requires a <= b
    ensures a * size <= b * size
  {
  }

  /** An index below k chunks' lanes is located in one of those k chunks. */
  lemma LocateBelow(i: nat, size: nat, k: nat)
    requires size > 0 && i < k * size
    ensures Locate(i, size).0 < k
  {
    var c := Locate(i, size).0;
    if k <= c {
      MulMonotone(k, c, size);
    }
  }

  /** The slot with linear index p. */
  function Lane(chunks: seq<Chunk>, size: nat, p: nat): Record
    requires size > 0 && Shaped(chunks, size) && p < |chunks| * size
  {
    LocateBelow(p, size, |chunks|);
    var (c, l) := Locate(p, size);
    chunks[c][l]
  }

  /** The chunks read as one flat sequence of slots. */
  function Lanes(chunks: seq<Chunk>, size: nat): (s: seq<Record>)
    requires size > 0 && Shaped(chunks, size)
    ensures |s| == |chunks| * size && forall p :: 0 <= p < |s| ==> s[p] == Lane(chunks, size, p)
  {
    seq(|chunks| * size, p requires 0 <= p < |chunks| * size => Lane(chunks, size, p))
  }

  /** The chunks with slot p overwritten by r. */
  function SetLane(chunks: seq<Chunk>, size: nat, p: nat, r: Record): (res: seq<Chunk>)
    requires size > 0 && Shaped(chunks, size) && p < |chunks| * size
    ensures |res| == |chunks| && Shaped(res, size)
  {
    LocateBelow(p, size, |chunks|);
    var (c, l) := Locate(p, size);
    chunks[c := chunks[c][l := r]]
  }

  /** Writing slot p changes slot p of the flat view and no other slot. */
  lemma SetLaneLanes(chunks: seq<Chunk>, size: nat, p: nat, r: Record)
    requires size > 0 && Shaped(chunks, size) && p < |chunks| * size
    ensures Lanes(SetLane(chunks, size, p, r), size) == Lanes(chunks, size)[p := r]
  {
    var res := SetLane(chunks, size, p, r);
    forall q | 0 <= q < |chunks| * size
      ensures Lane(res, size, q) == Lanes(chunks, size)[p := r][q]
    {
      LocateBelow(q, size, |chunks|);
      LocateBelow(p, size, |chunks|);
    }
  }

  /** Resizing the chunk vector keeps the slots of kept chunks and blanks the slots of new ones. */
  lemma FitLanes(chunks: seq<Chunk>, size: nat, k: nat)
    requires size > 0 && Shaped(chunks, size)
    ensures Shaped(Fit(chunks, k, BlankChunk(size)), size)
    ensures forall p :: 0 <= p < k * size ==>
      Lanes(Fit(chunks, k, BlankChunk(size)), size)[p] == if p < |chunks| * size then Lanes(chunks, size)[p] else Blank
  {
    var res := Fit(chunks, k, BlankChunk(size));
    forall p | 0 <= p < k * size
      ensures Lane(res, size, p) == if p < |chunks| * size then Lane(chunks, size, p) else Blank
    {
      LocateBelow(p, size, k);
      var c := Locate(p, size).0;
      if p < |chunks| * size {
        LocateBelow(p, size, |chunks|);
      } else if c < |chunks| {
        MulMonotone(c + 1, |chunks|, size);
      }
    }
  }

  /** The `ChunkedStorage` of `aosoa.hpp`: the chunk vector and the particle count it was sized for. */
  class ChunkedStorage {
    const size: nat
    var chunks: seq<Chunk>
    var nParticles: nat

    predicate Valid()
      reads this
    {
      ChunkSizeOk(size) && Shaped(chunks, size)
    }

    /** Lanes allocated: chunks times the chunk size. */
    function Capacity(): nat
      reads this
    {
      |chunks| * size
    }

    /** Every lane of every chunk, by linear index. */
    function Slots(): (s: seq<Record>)
      reads this
      requires Valid()
      ensures |s| == Capacity()
    {
      Lanes(chunks, size)
    }

    constructor(size: nat)
      requires ChunkSizeOk(size)
      ensures Valid() && this.size == size && chunks == [] && nParticles == 0
    {
      this.size := size;
      chunks, nParticles := [], 0;
    }

    /**
     * `resize(n)`: records n as the particle count and allocates ceil(n / S)
     * chunks, the fewest that hold n particles; kept lanes are unchanged and
     * lanes of new chunks are blank.
     */
    method Resize(n: nat)
      requires Valid()
      modifies this
      ensures Valid() && nParticles == n && |chunks| == ChunksFor(n, size)
      ensures n <= Capacity() < n + size
      ensures forall p :: 0 <= p < Capacity() ==> Slots()[p] == if p < old(Capacity()) then old(Slots())[p] else Blank
    {
      FitLanes(chunks, size, ChunksFor(n, size));
      nParticles := n;
      chunks := Fit(chunks, ChunksFor(n, size), BlankChunk(size));
    }

    /** Writes record r into slot p, as the field-by-field stores of a build do. */
    method WriteSlot(p: nat, r: Record)
      requires Valid() && p < Capacity()
      modifies this
      ensures Valid() && |chunks| == old(|chunks|) && nParticles == old(nParticles)
      ensures Slots() == old(Slots())[p := r]
    {
      SetLaneLanes(chunks, size, p, r);
      chunks := SetLane(chunks, size, p, r);
    }

    /**
     * `swap(i, j)`: exchanges every field of slots i and j, which may lie in
     * different chunks; no other slot changes, and i == j changes nothing.
     */
    method Swap(i: nat, j: nat)
      requires Valid() && i < Capacity() && j < Capacity()
      modifies this
      ensures Valid() && |chunks| == old(|chunks|) && nParticles == old(nParticles)
      ensures Slots() == ParticleRecords.Swap(old(Slots()), i, j)
    {
      if i == j {
        return;
      }
      var a, b := Lane(chunks, size, i), Lane(chunks, size, j);
      SetLaneLanes(chunks, size, i, b);
      var once := SetLane(chunks, size, i, b);
      SetLaneLanes(once, size, j, a);
      chunks := SetLane(once, size, j, a);
    }
  }
}
