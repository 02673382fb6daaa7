/**
 * The particle snapshot file that `BinaryOutput::record` writes once per
 * triggered step: a 28-byte header (magic "PART", format version, step,
 * particle count, flags) followed by one packed 21-byte record per particle
 * in the system's index range. Every value is written as the raw bytes of its
 * C++ object, which on the little-endian hosts the library targets is
 * little-endian order.
 */
module FrameFormat {
  import opened Ints
  import opened Wrappers
  import opened Seqs

  const HEADER_SIZE: nat := 28
  const RECORD_SIZE: nat := 21

  /** The four magic bytes 'P', 'A', 'R', 'T'. */
  const MAGIC: seq<u8> := [0x50, 0x41, 0x52, 0x54]
  const VERSION: u32 := 1
  const FORMAT_FLAGS: u32 := 0

  /** The unsigned value of four little-endian bytes. */
  function U32Of(bs: seq<u8>): (v: nat)
    requires |bs| == 4
    ensures v < U32_LIMIT
  {
    bs[0] as nat + 0x100 * (bs[1] as nat) + 0x1_0000 * (bs[2] as nat) + 0x100_0000 * (bs[3] as nat)
  }

  /**
   * The four bytes `write_binary` emits for a `uint32_t`, least significant
   * first; reading them back gives the value.
   */
  function U32Le(v: u32): (bs: seq<u8>)
    ensures |bs| == 4 && U32Of(bs) == v
  {
    var q1 := v / 0x100;
    var q2 := q1 / 0x100;
    var q3 := q2 / 0x100;
    assert v == v % 0x100 + 0x100 * q1;
    assert q1 == q1 % 0x100 + 0x100 * q2;
    assert q2 == q2 % 0x100 + 0x100 * q3 && q3 < 0x100;
    [v % 0x100, q1 % 0x100, q2 % 0x100, q3]
  }

  /** The unsigned value of eight little-endian bytes. */
  function U64Of(bs: seq<u8>): (v: nat)
    requires |bs| == 8
    ensures v < U64_LIMIT
  {
    U32Of(bs[..4]) + U32_LIMIT * U32Of(bs[4..])
  }

  /** The eight bytes of a `uint64_t`: the low word, then the high word. */
  function U64Le(v: u64): (bs: seq<u8>)
    ensures |bs| == 8 && U64Of(bs) == v
  {
    var bs := U32Le(v % U32_LIMIT) + U32Le(v / U32_LIMIT);
    assert bs[..4] == U32Le(v % U32_LIMIT) && bs[4..] == U32Le(v / U32_LIMIT);
    bs
  }

  /** Distinct values have distinct encodings. */
  lemma U32LeInjective(v: u32, w: u32)
    ensures U32Le(v) == U32Le(w) <==> v == w
  {
    if U32Le(v) == U32Le(w) {
      assert U32Of(U32Le(v)) == U32Of(U32Le(w));
    }
  }

  lemma U64LeInjective(v: u64, w: u64)
    ensures U64Le(v) == U64Le(w) <==> v == w
  {
    if U64Le(v) == U64Le(w) {
      assert U64Of(U64Le(v)) == U64Of(U64Le(w));
    }
  }

  /**
   * One particle as `record` sees it through `get_particle_by_index`: the
   * position after the narrowing cast to `float`, kept as its 32-bit
   * pattern, the 16-bit particle type, the 32-bit id and the 8-bit state.
   */
  datatype ParticleView = ParticleView(x: u32, y: u32, z: u32, ptype: u16, id: u32, state: u8)

  /** One packed record as it lies in the file: the type is widened to 32 bits. */
  datatype FileRecord = FileRecord(x: u32, y: u32, z: u32, ptype: u32, id: u32, state: u8)

  /** The decoded header fields, in file order. */
  datatype Header = Header(magic: seq<u8>, version: u32, step: u64, count: u64, flags: u32)

  /** `static_cast<uint32_t>(p.type)` and friends: every field keeps its value. */
  function ToRecord(p: ParticleView): (r: FileRecord)
    ensures r.ptype == p.ptype && r.id == p.id && r.state == p.state
    ensures r.x == p.x && r.y == p.y && r.z == p.z
  {
    FileRecord(p.x, p.y, p.z, p.ptype, p.id, p.state)
  }

  function HeaderBytes(step: u64, count: u64): (bs: seq<u8>)
    ensures |bs| == HEADER_SIZE
  {
    MAGIC + U32Le(VERSION) + U64Le(step) + U64Le(count) + U32Le(FORMAT_FLAGS)
  }

  function RecordBytes(r: FileRecord): (bs: seq<u8>)
    ensures |bs| == RECORD_SIZE
  {
    U32Le(r.x) + U32Le(r.y) + U32Le(r.z)
      + U32Le(r.ptype) + U32Le(r.id) + [r.state]
  }

  /** The records of `views`, one after another, in index order. */
  function RecordsBytes(views: seq<ParticleView>): (bs: seq<u8>)
    ensures |bs| == RECORD_SIZE * |views|
  {
    if views == [] then []
    else RecordsBytes(views[..|views| - 1]) + RecordBytes(ToRecord(views[|views| - 1]))
  }

  /** Appending a particle appends its record. */
  lemma RecordsBytesSnoc(views: seq<ParticleView>, p: ParticleView)
    ensures RecordsBytes(views + [p]) == RecordsBytes(views) + RecordBytes(ToRecord(p))
  {
    SnocPrefix(views, p);
  }

  /** Appending the record of views[i] to the bytes of views[start..i] gives the bytes of views[start..i+1]. */
  lemma RecordsStep(header: seq<u8>, views: seq<ParticleView>, start: nat, i: nat)
    requires start <= i < |views|
    ensures header + RecordsBytes(views[start..i]) + RecordBytes(ToRecord(views[i]))
         == header + RecordsBytes(views[start..i + 1])
  {
    SliceSnoc(views, start, i);
    RecordsBytesSnoc(views[start..i], views[i]);
    AppendAssoc(header, RecordsBytes(views[start..i]), RecordBytes(ToRecord(views[i])));
  }

  /** Record `k` occupies bytes [21k, 21k+21) of the record area. */
  lemma {:induction false} RecordsBytesAt(views: seq<ParticleView>, k: nat)
    requires k < |views|
    ensures RECORD_SIZE * k + RECORD_SIZE <= |RecordsBytes(views)|
    ensures RecordsBytes(views)[RECORD_SIZE * k .. RECORD_SIZE * k + RECORD_SIZE] == RecordBytes(ToRecord(views[k]))
  {
    var n := |views|;
    var front := views[..n - 1];
    var last := RecordBytes(ToRecord(views[n - 1]));
    assert RecordsBytes(views) == RecordsBytes(front) + last;
    if k < n - 1 {
      RecordsBytesAt(front, k);
      assert front[k] == views[k];
      SliceAppendLeft(RecordsBytes(front), last, RECORD_SIZE * k, RECORD_SIZE * k + RECORD_SIZE);
    } else {
      assert |RecordsBytes(front)| == RECORD_SIZE * k;
      SliceAppendRight(RecordsBytes(front), last);
    }
  }

  /** The whole file for the particles `views` of one step. */
  function FrameBytes(step: u64, views: seq<ParticleView>): (bs: seq<u8>)
    requires |views| < U64_LIMIT
    ensures |bs| == HEADER_SIZE + RECORD_SIZE * |views|
  {
    HeaderBytes(step, |views|) + RecordsBytes(views)
  }

  /** The monitor's configuration; `BinaryOutput(trigger)` uses "output" for both. */
  datatype BinaryOutput = BinaryOutput(dir: string, baseName: string)

  const DEFAULT_OUTPUT: BinaryOutput := BinaryOutput("output", "output")

  function DigitChar(d: nat): (c: char)
    requires d < 10
    ensures '0' <= c <= '9'
  {
    ['0', '1', '2', '3', '4', '5', '6', '7', '8', '9'][d]
  }

  predicate IsDigit(c: char) { '0' <= c <= '9' }

  function DigitValue(c: char): nat
    requires IsDigit(c)
  {
    c as nat - '0' as nat
  }

  /** The decimal value of a string of digits. */
  function DecimalValue(s: string): nat
    requires forall i :: 0 <= i < |s| ==> IsDigit(s[i])
  {
    if s == [] then 0 else 10 * DecimalValue(s[..|s| - 1]) + DigitValue(s[|s| - 1])
  }

  /** `n` in decimal without leading zeros ("0" for zero). */
  function DecimalDigits(n: nat): (s: string)
    ensures 1 <= |s|
    ensures forall i :: 0 <= i < |s| ==> IsDigit(s[i])
    ensures DecimalValue(s) == n
    ensures n >= 10 ==> s[0] != '0'
  {
    if n < 10 then [DigitChar(n)]
    else
      var s := DecimalDigits(n / 10) + [DigitChar(n % 10)];
      SnocPrefix(DecimalDigits(n / 10), DigitChar(n % 10));
      s
  }

  function Zeros(k: nat): (s: string)
    ensures |s| == k && forall i :: 0 <= i < k ==> s[i] == '0'
  {
    if k == 0 then [] else Zeros(k - 1) + ['0']
  }

  /** `std::format("{:0w}", n)`: decimal, left-padded with zeros to at least `width` characters. */
  function ZeroPadded(n: nat, width: nat): (s: string)
  {
    var d := DecimalDigits(n);
    if |d| < width then Zeros(width - |d|) + d else d
  }

  /** Leading zeros do not change a decimal value. */
  lemma {:induction false} LeadingZeros(z: string, d: string)
    requires forall i :: 0 <= i < |z| ==> z[i] == '0'
    requires forall i :: 0 <= i < |d| ==> IsDigit(d[i])
    ensures forall i :: 0 <= i < |z + d| ==> IsDigit((z + d)[i])
    ensures DecimalValue(z + d) == DecimalValue(d)
  {
    if d == [] {
      assert z + d == z;
      AllZeros(z);
    } else {
      var s := z + d;
      assert s[..|s| - 1] == z + d[..|d| - 1];
      LeadingZeros(z, d[..|d| - 1]);
    }
  }

  lemma {:induction false} AllZeros(z: string)
    requires forall i :: 0 <= i < |z| ==> z[i] == '0'
    ensures forall i :: 0 <= i < |z| ==> IsDigit(z[i])
    ensures DecimalValue(z) == 0
  {
    if z != [] {
      AllZeros(z[..|z| - 1]);
    }
  }

  /** The padded field holds only digits, is at least `width` long and reads back as `n`. */
  lemma ZeroPaddedValue(n: nat, width: nat)
    ensures width <= |ZeroPadded(n, width)|
    ensures forall i :: 0 <= i < |ZeroPadded(n, width)| ==> IsDigit(ZeroPadded(n, width)[i])
    ensures DecimalValue(ZeroPadded(n, width)) == n
  {
    var d := DecimalDigits(n);
    if |d| < width {
      LeadingZeros(Zeros(width - |d|), d);
    }
  }

  /** `std::format("{}_{:05}.bin", base_name, step)`. */
  function FileName(baseName: string, step: nat): string
  {
    baseName + "_" + ZeroPadded(step, 5) + ".bin"
  }

  /**
   * `fs::path(dir) / filename` on a POSIX system: an absolute file name
   * replaces the directory, and a separator is inserted only when the
   * directory is non-empty and does not already end in one.
   */
  function JoinPath(dir: string, name: string): (path: string)
    ensures |name| <= |path|
    ensures name != [] && name[0] != '/' ==> path[|path| - |name|..] == name
  {
    if name != [] && name[0] == '/' then name
    else if dir == [] || dir[|dir| - 1] == '/' then dir + name
    else dir + "/" + name
  }

  /** The path `record` opens: the output directory joined with the frame's file name. */
  function FramePath(out: BinaryOutput, step: nat): string
  {
    JoinPath(out.dir, FileName(out.baseName, step))
  }

  /** The file name carries the base name, the zero-padded step and the ".bin" suffix. */
  lemma FileNameShape(baseName: string, step: nat)
    ensures var name := FileName(baseName, step);
      && |name| >= |baseName| + 10
      && name[..|baseName|] == baseName
      && name[|baseName|] == '_'
      && name[|name| - 4..] == ".bin"
      && (forall i :: |baseName| < i < |name| - 4 ==> IsDigit(name[i]))
      && DecimalValue(name[|baseName| + 1 .. |name| - 4]) == step
  {
    var p := ZeroPadded(step, 5);
    ZeroPaddedValue(step, 5);
    var name := FileName(baseName, step);
    assert name == baseName + "_" + p + ".bin";
    assert name[|baseName| + 1 .. |name| - 4] == p;
    forall i | |baseName| < i < |name| - 4 ensures IsDigit(name[i]) {
      assert name[i] == p[i - |baseName| - 1];
    }
  }

  /** The five `write_binary` calls of the header, in order. */
  method WriteHeader(step: u64, count: u64) returns (bytes: seq<u8>)
    ensures bytes == HeaderBytes(step, count)
  {
    bytes := MAGIC;
    bytes := bytes + U32Le(VERSION);
    bytes := bytes + U64Le(step);
    bytes := bytes + U64Le(count);
    bytes := bytes + U32Le(FORMAT_FLAGS);
  }

  /** The six `write_binary` calls of one particle, appended to what is already written. */
  method WriteParticle(written: seq<u8>, p: ParticleView) returns (bytes: seq<u8>)
    ensures bytes == written + RecordBytes(ToRecord(p))
  {
    bytes := written + U32Le(p.x);
    bytes := bytes + U32Le(p.y);
    bytes := bytes + U32Le(p.z);
    bytes := bytes + U32Le(p.ptype);
    bytes := bytes + U32Le(p.id);
    bytes := bytes + [p.state];
  }

  datatype OutputError =
    | CannotCreateDirectory(dir: string)   // `fs::create_directories` failed (filesystem_error)
    | CannotOpen(path: string)              // the `ofstream` did not open (runtime_error)

  datatype FrameFile = FrameFile(path: string, contents: seq<u8>)

  /** The particle loop of `record`: writes views[start..end] one after another. */
  method WriteRecords(written: seq<u8>, views: seq<ParticleView>, start: nat, end: nat) returns (bytes: seq<u8>)
    requires start <= end <= |views|
    ensures bytes == written + RecordsBytes(views[start..end])
  {
    bytes := written;
    var i := start;
    EmptySlice(views, start);
    while i < end
      invariant start <= i <= end
      invariant bytes == written + RecordsBytes(views[start..i])
    {
      RecordsStep(written, views, start, i);
      bytes := WriteParticle(bytes, views[i]);
      i := i + 1;
    }
  }

  /**
   * `BinaryOutput::record`: create the directory, open `dir/base_NNNNN.bin`,
   * write the header, then one record per index in [start, end), in index
   * order. `views[i]` is what `get_particle_by_index(i)` returns; whether
   * the directory and the file could be created is decided by the file
   * system and enters as `dirCreated` and `fileOpened`.
   */
  method Record(out: BinaryOutput, step: u64, views: seq<ParticleView>, start: nat, end: nat,
                dirCreated: bool, fileOpened: bool)
    returns (r: Result<FrameFile, OutputError>)
    requires start <= end <= |views| && end - start < U64_LIMIT
    ensures !dirCreated ==> r == Err(CannotCreateDirectory(out.dir))
    ensures dirCreated && !fileOpened ==> r == Err(CannotOpen(FramePath(out, step)))
    ensures dirCreated && fileOpened ==>
      r == Ok(FrameFile(FramePath(out, step), FrameBytes(step, views[start..end])))
  {
    if !dirCreated {
      return Err(CannotCreateDirectory(out.dir));
    }
    var path := JoinPath(out.dir, FileName(out.baseName, step));
    if !fileOpened {
      return Err(CannotOpen(path));
    }
    var bytes := WriteHeader(step, end - start);
    bytes := WriteRecords(bytes, views, start, end);
    return Ok(FrameFile(path, bytes));
  }
}
