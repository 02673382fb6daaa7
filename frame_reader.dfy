/**
 * The replay script `animation/animate.py`: it lists the `*.bin` frames of a
 * folder in sorted order, decodes each file's header and records, normalises
 * the type column to [0, 1] for the colour map, and steps a wrapping frame
 * index once per timer tick. The directory listing and the file contents are
 * inputs here; the vispy canvas, timer and colour map are not part of this
 * model.
 */
module FrameReader {
  import opened Ints
  import opened Wrappers
  import opened Seqs
  import opened FrameFormat

  // ---------------------------------------------------------------------
  // list_bin_files: `sorted(Path(folder).glob("*.bin"))`
  // ---------------------------------------------------------------------

  /** The name matches the glob pattern `*.bin`. */
  predicate IsBinName(name: string) {
    |name| >= 4 && name[|name| - 4..] == ".bin"
  }

  /** Python's `str` ordering: code point by code point, a proper prefix first. */
  predicate LexLe(a: string, b: string) {
    a == [] || (b != [] && (a[0] < b[0] || (a[0] == b[0] && LexLe(a[1..], b[1..]))))
  }

  lemma {:induction false} LexLeTotal(a: string, b: string)
    ensures LexLe(a, b) || LexLe(b, a)
  {
    if a != [] && b != [] && a[0] == b[0] {
      LexLeTotal(a[1..], b[1..]);
    }
  }

  lemma {:induction false} LexLeTrans(a: string, b: string, c: string)
    requires LexLe(a, b) && LexLe(b, c)
    ensures LexLe(a, c)
  {
    if a != [] && a[0] == b[0] && b[0] == c[0] {
      LexLeTrans(a[1..], b[1..], c[1..]);
    }
  }

  predicate SortedNames(s: seq<string>) {
    forall i, j :: 0 <= i < j < |s| ==> LexLe(s[i], s[j])
  }

  /** The entries that `glob("*.bin")` yields, in listing order. */
  function BinNames(entries: seq<string>): (r: seq<string>)
    ensures forall f :: f in r <==> f in entries && IsBinName(f)
    ensures forall f :: multiset(r)[f] == (if IsBinName(f) then multiset(entries)[f] else 0)
  {
    if entries == [] then []
    else
      assert entries == [entries[0]] + entries[1..];
      (if IsBinName(entries[0]) then [entries[0]] else []) + BinNames(entries[1..])
  }

  function Insert(x: string, s: seq<string>): (r: seq<string>)
    requires SortedNames(s)
    ensures SortedNames(r)
    ensures multiset(r) == multiset(s) + multiset{x}
  {
    if s == [] then [x]
    else if LexLe(x, s[0]) then
      assert forall j :: 0 < j < |s| ==> LexLe(s[0], s[j]);
      forall j | 0 < j < |s| ensures LexLe(x, s[j]) {
        LexLeTrans(x, s[0], s[j]);
      }
      [x] + s
    else
      LexLeTotal(x, s[0]);
      var rest := Insert(x, s[1..]);
      assert s == [s[0]] + s[1..];
      forall y | y in rest ensures LexLe(s[0], y) {
        assert y in multiset(rest);
        if y != x {
          assert y in s[1..];
        }
      }
      [s[0]] + rest
  }

  /** `sorted`: an ordered permutation of its input. */
  function SortNames(s: seq<string>): (r: seq<string>)
    ensures SortedNames(r)
    ensures multiset(r) == multiset(s)
  {
    if s == [] then []
    else
      assert s == [s[0]] + s[1..];
      Insert(s[0], SortNames(s[1..]))
  }

  /**
   * `list_bin_files`: exactly the `*.bin` entries of the listing, each as
   * often as it is listed, in ascending order.
   */
  function ListBinFiles(entries: seq<string>): (files: seq<string>)
    ensures SortedNames(files)
    ensures forall f :: f in files <==> f in entries && IsBinName(f)
    ensures forall f :: multiset(files)[f] == (if IsBinName(f) then multiset(entries)[f] else 0)
  {
    var r := SortNames(BinNames(entries));
    assert forall f :: f in r <==> f in multiset(r);
    r
  }

  // ---------------------------------------------------------------------
  // load_particles
  // ---------------------------------------------------------------------

  datatype DecodeError =
    | ShortHeader   // `struct.unpack` got fewer than 28 bytes (struct.error)
    | BadMagic      // "Invalid magic number. Not a particle file." (ValueError)
    | CountTooLarge // `np.fromfile` cannot size an array of `count` records (OverflowError or ValueError)

  /**
   * numpy sizes an array in a signed 64-bit `npy_intp`: an array of `count`
   * records is refused, before anything is read, once `21 * count` bytes
   * exceed `NPY_MAX_INTP` (a count of 2^63 or more already fails to convert).
   */
  const ARRAY_BYTES_LIMIT: nat := 0x8000_0000_0000_0000

  /** `struct.unpack('<4s I Q Q I', f.read(28))`. */
  function UnpackHeader(data: seq<u8>): (r: Result<Header, DecodeError>)
    ensures |data| < HEADER_SIZE <==> r == Err(ShortHeader)
    ensures r.Ok? ==> r.value.magic == data[..4] && |r.value.magic| == 4
  {
    if |data| < HEADER_SIZE then Err(ShortHeader)
    else Ok(Header(data[..4], U32Of(data[4..8]), U64Of(data[8..16]), U64Of(data[16..24]), U32Of(data[24..28])))
  }

  /** One packed record `(f4, f4, f4, u4, u4, u1)`, positions kept as their bit patterns. */
  function DecodeRecord(bs: seq<u8>): FileRecord
    requires |bs| == RECORD_SIZE
  {
    FileRecord(U32Of(bs[0..4]), U32Of(bs[4..8]), U32Of(bs[8..12]),
               U32Of(bs[12..16]), U32Of(bs[16..20]), bs[20])
  }

  /** Reading a record back gives the record that was written. */
  lemma DecodeRecordBytes(r: FileRecord)
    ensures DecodeRecord(RecordBytes(r)) == r
  {
    var bs := RecordBytes(r);
    assert bs[0..4] == U32Le(r.x);
    assert bs[4..8] == U32Le(r.y);
    assert bs[8..12] == U32Le(r.z);
    assert bs[12..16] == U32Le(r.ptype);
    assert bs[16..20] == U32Le(r.id);
  }

  /** The first `n` records of a record area. */
  function DecodeRecords(body: seq<u8>, n: nat): (recs: seq<FileRecord>)
    requires RECORD_SIZE * n <= |body|
    ensures |recs| == n
  {
    if n == 0 then []
    else DecodeRecords(body, n - 1) + [DecodeRecord(body[RECORD_SIZE * (n - 1) .. RECORD_SIZE * n])]
  }

  /** Record `k` of the decoded list comes from bytes [21k, 21k+21). */
  lemma {:induction false} DecodeRecordsAt(body: seq<u8>, n: nat, k: nat)
    requires RECORD_SIZE * n <= |body| && k < n
    ensures DecodeRecords(body, n)[k] == DecodeRecord(body[RECORD_SIZE * k .. RECORD_SIZE * k + RECORD_SIZE])
  {
    if k < n - 1 {
      DecodeRecordsAt(body, n - 1, k);
    }
  }

  /** Bytes beyond the first `n` records do not change them. */
  lemma {:induction false} DecodeRecordsPrefix(body: seq<u8>, extra: seq<u8>, n: nat)
    requires RECORD_SIZE * n <= |body|
    ensures DecodeRecords(body + extra, n) == DecodeRecords(body, n)
  {
    if n > 0 {
      DecodeRecordsPrefix(body, extra, n - 1);
      SliceAppendLeft(body, extra, RECORD_SIZE * (n - 1), RECORD_SIZE * n);
    }
  }

  /** Record `k` decoded from the area after the header comes from bytes [28+21k, 28+21k+21) of the file. */
  lemma DecodeBody(data: seq<u8>, n: nat)
    requires HEADER_SIZE <= |data| && RECORD_SIZE * n <= |data| - HEADER_SIZE
    ensures forall k :: 0 <= k < n ==>
      DecodeRecords(data[HEADER_SIZE..], n)[k]
        == DecodeRecord(data[HEADER_SIZE + RECORD_SIZE * k .. HEADER_SIZE + RECORD_SIZE * k + RECORD_SIZE])
  {
    forall k | 0 <= k < n
      ensures DecodeRecords(data[HEADER_SIZE..], n)[k]
        == DecodeRecord(data[HEADER_SIZE + RECORD_SIZE * k .. HEADER_SIZE + RECORD_SIZE * k + RECORD_SIZE])
    {
      DecodeRecordsAt(data[HEADER_SIZE..], n, k);
      SliceOfDrop(data, HEADER_SIZE, RECORD_SIZE * k, RECORD_SIZE * k + RECORD_SIZE);
    }
  }

  function Min(a: nat, b: nat): nat { if a <= b then a else b }

  /** The records and the step that `load_particles` returns. */
  datatype Frame = Frame(records: seq<FileRecord>, step: u64)

  /**
   * `load_particles`: a short header or a wrong magic is an error; version
   * and flags are never looked at; a count whose array numpy cannot size is
   * an error; otherwise `np.fromfile(f, count=count)` reads as many whole
   * records as are there, but at most `count`.
   */
  function LoadParticles(data: seq<u8>): (r: Result<Frame, DecodeError>)
    ensures |data| < HEADER_SIZE ==> r == Err(ShortHeader)
    ensures |data| >= HEADER_SIZE && data[..4] != MAGIC ==> r == Err(BadMagic)
    ensures |data| >= HEADER_SIZE && data[..4] == MAGIC && RECORD_SIZE * U64Of(data[16..24]) >= ARRAY_BYTES_LIMIT ==>
      r == Err(CountTooLarge)
    ensures |data| >= HEADER_SIZE && data[..4] == MAGIC && RECORD_SIZE * U64Of(data[16..24]) < ARRAY_BYTES_LIMIT ==>
      && r.Ok?
      && r.value.step == U64Of(data[8..16])
      && |r.value.records| == Min(U64Of(data[16..24]), (|data| - HEADER_SIZE) / RECORD_SIZE)
      && forall k :: 0 <= k < |r.value.records| ==>
           r.value.records[k] == DecodeRecord(data[HEADER_SIZE + RECORD_SIZE * k .. HEADER_SIZE + RECORD_SIZE * k + RECORD_SIZE])
  {
    match UnpackHeader(data)
    case Err(e) => Err(e)
    case Ok(h) =>
      if h.magic != MAGIC then Err(BadMagic)
      else if RECORD_SIZE * h.count >= ARRAY_BYTES_LIMIT then Err(CountTooLarge)
      else
        var body := data[HEADER_SIZE..];
        var n := Min(h.count, |body| / RECORD_SIZE);
        var recs := DecodeRecords(body, n);
        DecodeBody(data, n);
        Ok(Frame(recs, h.step))
  }

  function ToRecords(views: seq<ParticleView>): (recs: seq<FileRecord>)
    ensures |recs| == |views|
    ensures forall k :: 0 <= k < |views| ==> recs[k] == ToRecord(views[k])
  {
    if views == [] then [] else ToRecords(views[..|views| - 1]) + [ToRecord(views[|views| - 1])]
  }

  lemma HeaderFields(step: u64, count: u64)
    ensures var h := HeaderBytes(step, count);
      && h[..4] == MAGIC
      && U32Of(h[4..8]) == VERSION
      && U64Of(h[8..16]) == step
      && U64Of(h[16..24]) == count
      && U32Of(h[24..28]) == FORMAT_FLAGS
  {
    var h := HeaderBytes(step, count);
    assert h[..4] == MAGIC;
    assert h[4..8] == U32Le(VERSION);
    assert h[8..16] == U64Le(step);
    assert h[16..24] == U64Le(count);
    assert h[24..28] == U32Le(FORMAT_FLAGS);
  }

  /** The header fields of a written frame, as the reader slices them. */
  lemma FrameHeaderFields(step: u64, views: seq<ParticleView>)
    requires |views| < U64_LIMIT
    ensures var data := FrameBytes(step, views);
      && data[..4] == MAGIC
      && U64Of(data[8..16]) == step
      && U64Of(data[16..24]) == |views|
      && (|data| - HEADER_SIZE) / RECORD_SIZE == |views|
  {
    var hdr := HeaderBytes(step, |views|);
    var body := RecordsBytes(views);
    HeaderFields(step, |views|);
    TakeAppend(hdr, body, 4);
    SliceAppendLeft(hdr, body, 8, 16);
    SliceAppendLeft(hdr, body, 16, 24);
  }

  /** Record `k` of a written frame decodes to particle `k`'s file record. */
  lemma FrameRecordAt(step: u64, views: seq<ParticleView>, k: nat)
    requires |views| < U64_LIMIT && k < |views|
    ensures var data := FrameBytes(step, views);
      && HEADER_SIZE + RECORD_SIZE * k + RECORD_SIZE <= |data|
      && DecodeRecord(data[HEADER_SIZE + RECORD_SIZE * k .. HEADER_SIZE + RECORD_SIZE * k + RECORD_SIZE]) == ToRecord(views[k])
  {
    var hdr := HeaderBytes(step, |views|);
    var body := RecordsBytes(views);
    RecordsBytesAt(views, k);
    SliceAppendRightPart(hdr, body, RECORD_SIZE * k, RECORD_SIZE * k + RECORD_SIZE);
    DecodeRecordBytes(ToRecord(views[k]));
  }

  /**
   * What `record` writes, `load_particles` reads back: the step, and for
   * each particle its position bits, type, id and state, in index order.
   */
  lemma RoundTrip(step: u64, views: seq<ParticleView>)
    requires RECORD_SIZE * |views| < ARRAY_BYTES_LIMIT
    ensures LoadParticles(FrameBytes(step, views)) == Ok(Frame(ToRecords(views), step))
  {
    FrameHeaderFields(step, views);
    FrameRecords(step, views);
    LoadExactly(FrameBytes(step, views), step, ToRecords(views));
  }

  lemma FrameRecords(step: u64, views: seq<ParticleView>)
    requires |views| < U64_LIMIT
    ensures var data := FrameBytes(step, views);
      forall k :: 0 <= k < |views| ==>
        DecodeRecord(data[HEADER_SIZE + RECORD_SIZE * k .. HEADER_SIZE + RECORD_SIZE * k + RECORD_SIZE]) == ToRecords(views)[k]
  {
    var data := FrameBytes(step, views);
    forall k | 0 <= k < |views|
      ensures DecodeRecord(data[HEADER_SIZE + RECORD_SIZE * k .. HEADER_SIZE + RECORD_SIZE * k + RECORD_SIZE]) == ToRecords(views)[k]
    {
      FrameRecordAt(step, views, k);
    }
  }

  /** Data whose header and records match `step` and `recs` loads as exactly those. */
  lemma LoadExactly(data: seq<u8>, step: u64, recs: seq<FileRecord>)
    requires |data| >= HEADER_SIZE && data[..4] == MAGIC && U64Of(data[8..16]) == step
    requires U64Of(data[16..24]) == |recs| && (|data| - HEADER_SIZE) / RECORD_SIZE == |recs|
    requires RECORD_SIZE * |recs| < ARRAY_BYTES_LIMIT
    requires forall k :: 0 <= k < |recs| ==>
      DecodeRecord(data[HEADER_SIZE + RECORD_SIZE * k .. HEADER_SIZE + RECORD_SIZE * k + RECORD_SIZE]) == recs[k]
    ensures LoadParticles(data) == Ok(Frame(recs, step))
  {
    var r := LoadParticles(data);
    assert r.value.records == recs;
  }

  /**
   * A frame announcing 2^64 - 1 records is refused although one whole record
   * follows the header: numpy cannot size the array, so nothing is decoded.
   */
  lemma HugeCountRejected(rec: seq<u8>)
    requires |rec| == RECORD_SIZE
    ensures LoadParticles(HeaderBytes(0, U64_LIMIT - 1) + rec) == Err(CountTooLarge)
  {
    var hdr := HeaderBytes(0, U64_LIMIT - 1);
    HeaderFields(0, U64_LIMIT - 1);
    TakeAppend(hdr, rec, 4);
    SliceAppendLeft(hdr, rec, 16, 24);
  }

  /**
   * A frame whose count is too large for numpy is refused whatever follows
   * the header; a written frame is refused exactly when its particle count is.
   */
  lemma WrittenFrameTooLarge(step: u64, views: seq<ParticleView>)
    requires |views| < U64_LIMIT && RECORD_SIZE * |views| >= ARRAY_BYTES_LIMIT
    ensures LoadParticles(FrameBytes(step, views)) == Err(CountTooLarge)
  {
    FrameHeaderFields(step, views);
  }

  /** A frame written for an empty particle range holds only the header and decodes to no records. */
  lemma EmptyFrame(step: u64)
    ensures |FrameBytes(step, [])| == HEADER_SIZE
    ensures LoadParticles(FrameBytes(step, [])) == Ok(Frame([], step))
  {
    RoundTrip(step, []);
  }

  // ---------------------------------------------------------------------
  // color_by_type
  // ---------------------------------------------------------------------

  function MinOf(s: seq<u32>): (m: u32)
    requires s != []
    ensures m in s && forall i :: 0 <= i < |s| ==> m <= s[i]
  {
    if |s| == 1 then s[0]
    else
      var m := MinOf(s[1..]);
      assert forall i :: 1 <= i < |s| ==> s[i] == s[1..][i - 1];
      if s[0] <= m then s[0] else m
  }

  function MaxOf(s: seq<u32>): (m: u32)
    requires s != []
    ensures m in s && forall i :: 0 <= i < |s| ==> s[i] <= m
  {
    if |s| == 1 then s[0]
    else
      var m := MaxOf(s[1..]);
      assert forall i :: 1 <= i < |s| ==> s[i] == s[1..][i - 1];
      if s[0] >= m then s[0] else m
  }

  datatype ColorError = EmptyTypes   // `np.ptp` of an empty array raises ValueError

  /** The divisor of `color_by_type`: the spread of the types, or 1 when they are all equal. */
  function Spread(types: seq<u32>): (d: real)
    requires types != []
    ensures d > 0.0
    ensures MinOf(types) < MaxOf(types) ==> d == (MaxOf(types) - MinOf(types)) as real
  {
    var ptp := MaxOf(types) - MinOf(types);
    if ptp > 0 then ptp as real else 1.0
  }

  /**
   * `color_by_type`: `(types - types.min()) / (ptp if ptp > 0 else 1)` with
   * `ptp = max - min`, as exact rationals. The colour-map lookup that follows
   * is not part of this model.
   */
  function ColorByType(types: seq<u32>): (r: Result<seq<real>, ColorError>)
    ensures types == [] <==> r == Err(EmptyTypes)
    ensures r.Ok? ==> |r.value| == |types|
  {
    if types == [] then Err(EmptyTypes)
    else
      var lo := MinOf(types);
      var d := Spread(types);
      Ok(seq(|types|, i requires 0 <= i < |types| => (types[i] - lo) as real / d))
  }

  lemma DivUnit(a: real, d: real)
    requires 0.0 <= a <= d && d > 0.0
    ensures 0.0 <= a / d <= 1.0
    ensures a / d == 0.0 <==> a == 0.0
    ensures a / d == 1.0 <==> a == d
  {
  }

  lemma DivMonotone(a: real, b: real, d: real)
    requires a <= b && d > 0.0
    ensures a / d <= b / d
  {
  }

  /** Value `i` of the normalised column, as `color_by_type` computes it. */
  lemma ColorByTypeAt(types: seq<u32>, i: nat)
    requires i < |types|
    ensures ColorByType(types).value[i] == (types[i] - MinOf(types)) as real / Spread(types)
    ensures 0.0 <= ColorByType(types).value[i] <= 1.0
    ensures ColorByType(types).value[i] == 0.0 <==> types[i] == MinOf(types)
    ensures MinOf(types) < MaxOf(types) ==> (ColorByType(types).value[i] == 1.0 <==> types[i] == MaxOf(types))
  {
    var a := (types[i] - MinOf(types)) as real;
    assert a <= Spread(types);
    DivUnit(a, Spread(types));
  }

  /** Every normalised value lies in [0, 1], and it is 0 exactly for the smallest type. */
  lemma ColorByTypeRange(types: seq<u32>)
    requires types != []
    ensures forall i :: 0 <= i < |types| ==> 0.0 <= ColorByType(types).value[i] <= 1.0
    ensures forall i :: 0 <= i < |types| ==> (ColorByType(types).value[i] == 0.0 <==> types[i] == MinOf(types))
  {
    forall i | 0 <= i < |types|
      ensures 0.0 <= ColorByType(types).value[i] <= 1.0
      ensures ColorByType(types).value[i] == 0.0 <==> types[i] == MinOf(types)
    {
      ColorByTypeAt(types, i);
    }
  }

  /** A larger type never gets a smaller value. */
  lemma ColorByTypeMonotone(types: seq<u32>, i: nat, j: nat)
    requires i < |types| && j < |types| && types[i] <= types[j]
    ensures ColorByType(types).value[i] <= ColorByType(types).value[j]
  {
    ColorByTypeAt(types, i);
    ColorByTypeAt(types, j);
    DivMonotone((types[i] - MinOf(types)) as real, (types[j] - MinOf(types)) as real, Spread(types));
  }

  /** When the types differ, the largest type, and only it, maps to 1. */
  lemma ColorByTypeTop(types: seq<u32>)
    requires types != [] && MinOf(types) < MaxOf(types)
    ensures forall i :: 0 <= i < |types| ==> (ColorByType(types).value[i] == 1.0 <==> types[i] == MaxOf(types))
  {
    forall i | 0 <= i < |types| ensures ColorByType(types).value[i] == 1.0 <==> types[i] == MaxOf(types) {
      ColorByTypeAt(types, i);
    }
  }

  /** When all types are equal, `ptp` is 0, the divisor is 1 and every value is 0. */
  lemma ColorByTypeFlat(types: seq<u32>)
    requires types != [] && MinOf(types) == MaxOf(types)
    ensures forall i :: 0 <= i < |types| ==> ColorByType(types).value[i] == 0.0
  {
    ColorByTypeRange(types);
  }

  // ---------------------------------------------------------------------
  // ParticleVisualizer.update_frame
  // ---------------------------------------------------------------------

  datatype PlayerError =
    | NoFiles                  // `self.files[0]` on an empty list (IndexError)
    | Unreadable(path: string) // `open` failed
    | Undecodable(decodeError: DecodeError)
    | Uncolorable(colorError: ColorError)

  /** What one successful tick hands to the scatter plot. */
  datatype Shown = Shown(file: string, frame: Frame, colors: seq<real>)

  /** The index a tick shows: `current`, or 0 once it has run off the end. */
  function ShownIndex(current: nat, n: nat): nat {
    if current >= n then 0 else current
  }

  /** Load, decode and colour one file, as the body of `update_frame` does. */
  function ShowFile(disk: map<string, seq<u8>>, file: string): Result<Shown, PlayerError> {
    if file !in disk then Err(Unreadable(file))
    else match LoadParticles(disk[file])
      case Err(e) => Err(Undecodable(e))
      case Ok(fr) =>
        var types := seq(|fr.records|, k requires 0 <= k < |fr.records| => fr.records[k].ptype);
        match ColorByType(types)
        case Err(e) => Err(Uncolorable(e))
        case Ok(c) => Ok(Shown(file, fr, c))
  }

  /** The file list and the frame index of `ParticleVisualizer`. */
  class Player {
    var files: seq<string>
    var current: nat

    /** `self.files = list_bin_files(folder)` and `self.current = 0`. */
    constructor(entries: seq<string>)
      ensures files == ListBinFiles(entries) && current == 0
    {
      files := ListBinFiles(entries);
      current := 0;
    }

    /**
     * One timer tick. The index is reset to 0 once it has run off the end
     * (and stays reset even if the tick then fails); it is incremented only
     * after the file was decoded and coloured.
     */
    method UpdateFrame(disk: map<string, seq<u8>>) returns (r: Result<Shown, PlayerError>)
      modifies this
      ensures files == old(files)
      ensures |files| == 0 ==> r == Err(NoFiles) && current == 0
      ensures |files| > 0 ==>
        var idx := ShownIndex(old(current), |files|);
        && r == ShowFile(disk, files[idx])
        && current == (if r.Ok? then idx + 1 else idx)
    {
      if current >= |files| {
        current := 0;
      }
      if current >= |files| {
        return Err(NoFiles);
      }
      r := ShowFile(disk, files[current]);
      if r.Ok? {
        current := current + 1;
      }
    }
  }

  /** The index after a successful tick. */
  function NextIndex(current: nat, n: nat): nat {
    ShownIndex(current, n) + 1
  }

  /** The index after `k` successful ticks from `current`. */
  function AfterTicks(current: nat, n: nat, k: nat): nat {
    if k == 0 then current else NextIndex(AfterTicks(current, n, k - 1), n)
  }

  /** Tick `q*n + r` of an `n`-file list (r < n), counted from 0, shows file `r`. */
  lemma {:induction false} TicksCycleAt(n: nat, q: nat, r: nat)
    requires r < n
    ensures ShownIndex(AfterTicks(0, n, q * n + r), n) == r
    decreases q, r
  {
    if r > 0 {
      TicksCycleAt(n, q, r - 1);
    } else if q > 0 {
      assert q * n + r == (q - 1) * n + (n - 1) + 1;
      TicksCycleAt(n, q - 1, n - 1);
    }
  }

  /**
   * Starting from 0 with every tick succeeding, tick `k` shows file `k mod n`:
   * the frames run 0, 1, ..., n-1, 0, 1, ...
   */
  lemma TicksCycle(n: nat, k: nat)
    requires n > 0
    ensures ShownIndex(AfterTicks(0, n, k), n) == k % n
  {
    assert k == (k / n) * n + k % n;
    TicksCycleAt(n, k / n, k % n);
  }

  /**
   * A file whose header announces no records (or whose body is cut short
   * before the first record) cannot be coloured, so the tick fails and the
   * index does not move: the player shows the same failure on every tick.
   */
  lemma EmptyFrameStalls(disk: map<string, seq<u8>>, file: string, step: u64)
    requires file in disk && disk[file] == FrameBytes(step, [])
    ensures ShowFile(disk, file) == Err(Uncolorable(EmptyTypes))
  {
    EmptyFrame(step);
  }
}
