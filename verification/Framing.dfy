/** What is put around an encoded packet: a compression marker and an optional checksum. */
module Framing {
  import opened Numbers
  import opened Wire

  datatype CompressionAlgorithm = NoCompression | Zlib | Lz4

  /** The library routines the framing calls. `lz4Decompress` is also given the original size, as an `i32`. */
  datatype Libraries = Libraries(
    deflate: bytes -> Result<bytes>,
    inflate: bytes -> Result<bytes>,
    lz4Compress: bytes -> Result<bytes>,
    lz4Decompress: (bytes, int) -> Result<bytes>,
    crc32: bytes -> u32)
  {
    /** Decompression undoes compression; LZ4 refuses inputs whose size is not an `i32`. */
    ghost predicate Faithful() {
      && (forall d {:trigger deflate(d)} :: deflate(d).Ok? ==> inflate(deflate(d).value) == Ok(d))
      && (forall d {:trigger lz4Compress(d)} :: lz4Compress(d).Ok? ==>
            |d| < 0x8000_0000 && lz4Decompress(lz4Compress(d).value, |d|) == Ok(d))
    }
  }

  /** `v as i32` */
  function AsI32(v: u32): int { if v < 0x8000_0000 then v else v - 0x1_0000_0000 }

  function Plain(data: bytes): bytes { [0] + data }

  function Compress(libs: Libraries, data: bytes, algorithm: CompressionAlgorithm, threshold: nat): Result<bytes> {
    if |data| < threshold then Ok(Plain(data))
    else
      match algorithm
      case NoCompression => Ok(Plain(data))
      case Zlib =>
        var z :- libs.deflate(data);
        Ok(if |z| < |data| then [1] + z else Plain(data))
      case Lz4 =>
        var z :- libs.lz4Compress(data);
        Ok(if |z| + 4 < |data| then [2] + (Be32(|data| % 0x1_0000_0000) + z) else Plain(data))
  }

  function Decompress(libs: Libraries, data: bytes): Result<bytes> {
    if data == [] then Err
    else
      match data[0]
      case 0 => Ok(data[1..])
      case 1 => libs.inflate(data[1..])
      case 2 =>
        var (originalSize, z) :- GetU32(data[1..]);
        libs.lz4Decompress(z, AsI32(originalSize))
      case _ => Err
  }

  function AppendChecksum(libs: Libraries, data: bytes): bytes { data + Be32(libs.crc32(data)) }

  function ValidateAndStrip(libs: Libraries, data: bytes): Result<bytes> {
    if |data| < 4 then Err
    else
      var payload, received := data[..|data| - 4], FromBe32(data[|data| - 4..]);
      if received == libs.crc32(payload) then Ok(payload) else Err
  }

  /** Fills `output`, whatever was in it before; false stands for the source's Err. */
  method CompressWithBuffer(
    libs: Libraries, data: bytes, algorithm: CompressionAlgorithm, threshold: nat, output: Buffer)
    returns (ok: bool)
    modifies output
    ensures ok == Compress(libs, data, algorithm, threshold).Ok?
    ensures ok ==> output.data == Compress(libs, data, algorithm, threshold).value
  {
    output.data := [];
    if |data| < threshold {
      output.WriteU8(0);
      output.data := output.data + data;
      return true;
    }
    match algorithm {
      case NoCompression =>
        output.WriteU8(0);
        output.data := output.data + data;
      case Zlib =>
        var compressed := libs.deflate(data);
        if compressed.Err? {
          return false;
        }
        if |compressed.value| < |data| {
          output.WriteU8(1);
          output.data := output.data + compressed.value;
        } else {
          output.WriteU8(0);
          output.data := output.data + data;
        }
      case Lz4 =>
        var compressed := libs.lz4Compress(data);
        if compressed.Err? {
          return false;
        }
        if |compressed.value| + 4 < |data| {
          output.WriteU8(2);
          output.WriteU32(|data| % 0x1_0000_0000);
          output.data := output.data + compressed.value;
          assert output.data == [2] + (Be32(|data| % 0x1_0000_0000) + compressed.value);
        } else {
          output.WriteU8(0);
          output.data := output.data + data;
        }
    }
    return true;
  }

  method AppendChecksumInPlace(libs: Libraries, buffer: Buffer)
    modifies buffer
    ensures buffer.data == AppendChecksum(libs, old(buffer.data))
  {
    var checksum := libs.crc32(buffer.data);
    buffer.WriteU32(checksum);
  }

  /** Decompression undoes every branch of compression. */
  lemma DecompressUndoesCompress(libs: Libraries, data: bytes, algorithm: CompressionAlgorithm, threshold: nat)
    requires libs.Faithful() && Compress(libs, data, algorithm, threshold).Ok?
    ensures Decompress(libs, Compress(libs, data, algorithm, threshold).value) == Ok(data)
  {
    var out := Compress(libs, data, algorithm, threshold).value;
    assert Plain(data)[1..] == data;
    if out != Plain(data) {
      if algorithm == Zlib {
        assert out[1..] == libs.deflate(data).value;
      } else {
        var z := libs.lz4Compress(data).value;
        assert out[1..] == Be32(|data|) + z;
        GetPutU32(|data|, z);
      }
    }
  }

  /** Below the threshold and without compression data goes plain behind marker 0; else in the smaller of its plain and
      its compressed form, which LZ4 puts behind the original size, and the marker says which. */
  lemma CompressTakesSmaller(libs: Libraries, data: bytes, algorithm: CompressionAlgorithm, threshold: nat)
    requires Compress(libs, data, algorithm, threshold).Ok?
    ensures
      var out := Compress(libs, data, algorithm, threshold).value;
      && (|data| < threshold || algorithm == NoCompression ==> out == [0] + data)
      && (threshold <= |data| && algorithm == Zlib ==>
            var z := libs.deflate(data);
            z.Ok? && |out| == 1 + Min(|data|, |z.value|) && out[0] == if |z.value| < |data| then 1 else 0)
      && (threshold <= |data| && algorithm == Lz4 ==>
            var z := libs.lz4Compress(data);
            z.Ok? && |out| == 1 + Min(|data|, 4 + |z.value|) && out[0] == if 4 + |z.value| < |data| then 2 else 0)
  {
  }

  /** Compressing never adds more than the marker byte. */
  lemma CompressSize(libs: Libraries, data: bytes, algorithm: CompressionAlgorithm, threshold: nat)
    requires Compress(libs, data, algorithm, threshold).Ok?
    ensures 1 <= |Compress(libs, data, algorithm, threshold).value| <= 1 + |data|
    ensures algorithm == NoCompression ==> |Compress(libs, data, algorithm, threshold).value| == 1 + |data|
  {
  }

  lemma AppendedIsValid(libs: Libraries, payload: bytes)
    ensures ValidateAndStrip(libs, AppendChecksum(libs, payload)) == Ok(payload)
  {
    var data := AppendChecksum(libs, payload);
    assert data[..|data| - 4] == payload;
    assert data[|data| - 4..] == Be32(libs.crc32(payload)) + [];
    GetPutU32(libs.crc32(payload), []);
  }

  lemma ValidWasAppended(libs: Libraries, data: bytes)
    requires ValidateAndStrip(libs, data).Ok?
    ensures data == AppendChecksum(libs, ValidateAndStrip(libs, data).value)
  {
    PutGetU32(data[|data| - 4..]);
    assert data == data[..|data| - 4] + data[|data| - 4..];
  }

  /** Validation accepts exactly the outputs of `AppendChecksum`, and returns what was appended to. */
  lemma ValidIffAppended(libs: Libraries, data: bytes, payload: bytes)
    ensures ValidateAndStrip(libs, data) == Ok(payload) <==> data == AppendChecksum(libs, payload)
  {
    AppendedIsValid(libs, payload);
    if ValidateAndStrip(libs, data) == Ok(payload) {
      ValidWasAppended(libs, data);
    }
  }

  lemma PutGetU32(s: bytes)
    requires |s| == 4
    ensures Be32(FromBe32(s)) == s
  {
    PutGetU16(s[0], s[1]);
    PutGetU16(s[2], s[3]);
  }

  lemma PutGetU16(a: byte, b: byte)
    ensures Be16(FromBe16([a, b])) == [a, b]
  {
  }

  // ----- the whole frame -----

  function ChecksumOverhead(useChecksums: bool): nat { if useChecksums then 4 else 0 }

  /** What the fragmenter and the packer set aside for compression. */
  function CompressionOverhead(algorithm: CompressionAlgorithm): nat { if algorithm == Lz4 then 5 else 1 }

  function Frame(libs: Libraries, data: bytes, algorithm: CompressionAlgorithm, threshold: nat, useChecksums: bool)
    : Result<bytes>
  {
    var compressed :- Compress(libs, data, algorithm, threshold);
    Ok(if useChecksums then AppendChecksum(libs, compressed) else compressed)
  }

  function Unframe(libs: Libraries, data: bytes, useChecksums: bool): Result<bytes> {
    var payload :- if useChecksums then ValidateAndStrip(libs, data) else Ok(data);
    Decompress(libs, payload)
  }

  lemma FrameRoundTrip(
    libs: Libraries, data: bytes, algorithm: CompressionAlgorithm, threshold: nat, useChecksums: bool)
    requires libs.Faithful() && Frame(libs, data, algorithm, threshold, useChecksums).Ok?
    ensures Unframe(libs, Frame(libs, data, algorithm, threshold, useChecksums).value, useChecksums) == Ok(data)
  {
    DecompressUndoesCompress(libs, data, algorithm, threshold);
    AppendedIsValid(libs, Compress(libs, data, algorithm, threshold).value);
  }

  lemma FrameSize(
    libs: Libraries, data: bytes, algorithm: CompressionAlgorithm, threshold: nat, useChecksums: bool)
    requires Frame(libs, data, algorithm, threshold, useChecksums).Ok?
    ensures
      var size := |Frame(libs, data, algorithm, threshold, useChecksums).value|;
      && size <= |data| + CompressionOverhead(algorithm) + ChecksumOverhead(useChecksums)
      && (algorithm == NoCompression ==>
            size == |data| + CompressionOverhead(algorithm) + ChecksumOverhead(useChecksums))
  {
    CompressSize(libs, data, algorithm, threshold);
  }
}
