/**
 * The Node image script (gen-real-images.cjs): `createPng` writes a
 * solid-colour RGB image, and `createChunk` frames each chunk with Buffer
 * writes. `zlib.deflateSync` and `zlib.crc32` are the parameters `deflate`
 * and `crc32`.
 */
module PngJs {
  import opened Wrappers
  import opened PngFormat

  /**
   * `buf.writeInt32BE(v)`: the two's-complement bytes of `v`, or a RangeError
   * (`None`) when `v` is outside the signed 32-bit range.
   */
  function WriteInt32BE(v: int): (r: Option<seq<byte>>)
    ensures r.Some? <==> -TwoTo31 <= v < TwoTo31
    ensures 0 <= v < TwoTo31 ==> r == Some(BE32(v))
  {
    if -TwoTo31 <= v < TwoTo31 then Some(BE32(v % TwoTo32)) else None
  }

  /** `createChunk` as written: both the length and the CRC go through `writeInt32BE`. */
  function CreateChunkAsWritten(tag: seq<byte>, data: seq<byte>, crc32: seq<byte> -> u32): (r: Option<seq<byte>>)
    requires |tag| == 4
    ensures r.Some? <==> |data| < TwoTo31 && crc32(tag + data) < TwoTo31
    ensures r.Some? ==> r.value == ChunkBytes(Chunk(tag, data, crc32(tag + data)))
  {
    match WriteInt32BE(|data|)
    case None => None
    case Some(len) =>
      match WriteInt32BE(crc32(tag + data))
      case None => None
      case Some(crc) => Some(len + tag + data + crc)
  }

  /** Every IEND chunk has the CRC 0xAE426082, above the signed range: `createChunk('IEND', ...)` throws. */
  lemma IendChunkAsWrittenFails(crc32: seq<byte> -> u32)
    requires crc32(IEND) == IendCrc
    ensures CreateChunkAsWritten(IEND, [], crc32) == None
  {
    assert IEND + [] == IEND;
  }

  /**
   * `createChunk` with the CRC written unsigned (`writeUInt32BE`), as the PNG
   * format requires. The length stays signed: a PNG chunk length is at most 2^31 - 1.
   */
  function CreateChunk(tag: seq<byte>, data: seq<byte>, crc32: seq<byte> -> u32): (r: Option<seq<byte>>)
    requires |tag| == 4
    ensures r.Some? <==> |data| < TwoTo31
    ensures r.Some? ==> r.value == ChunkBytes(Chunk(tag, data, crc32(tag + data)))
  {
    match WriteInt32BE(|data|)
    case None => None
    case Some(len) => Some(len + tag + data + BE32(crc32(tag + data)))
  }

  /** A chunk written by `CreateChunk` reads back as its type, data and CRC. */
  lemma CreateChunkRoundTrip(tag: seq<byte>, data: seq<byte>, crc32: seq<byte> -> u32)
    requires |tag| == 4 && |data| < TwoTo31
    ensures ParseChunk(CreateChunk(tag, data, crc32).value) == Some((Chunk(tag, data, crc32(tag + data)), []))
  {
    var c := Chunk(tag, data, crc32(tag + data));
    ParseChunkBytes(c, []);
    assert ChunkBytes(c) + [] == ChunkBytes(c);
  }

  /** The byte at offset `k` of the raw image: a 0 filter byte at each row start, then r, g, b repeated. */
  function RawByte(width: nat, color: Rgb, k: nat): byte
  {
    var col := k % RowSize(width);
    if col == 0 then 0 else Channel(color, (col - 1) % 3)
  }

  /** The raw (uncompressed) image data of a solid-colour image. */
  function RawImage(width: nat, height: nat, color: Rgb): (r: seq<byte>)
    ensures |r| == RowSize(width) * height
    ensures forall k :: 0 <= k < |r| ==> r[k] == RawByte(width, color, k)
  {
    seq(RowSize(width) * height, k requires 0 <= k < RowSize(width) * height => RawByte(width, color, k))
  }

  /** Offset `y * rowSize` is row `y`'s filter byte; `y * rowSize + 1 + 3x + c` is channel `c` of pixel `x`. */
  lemma RawByteAt(width: nat, color: Rgb, y: nat, x: nat, c: nat)
    requires x < width && c < 3
    ensures RawByte(width, color, y * RowSize(width)) == 0
    ensures RawByte(width, color, y * RowSize(width) + 1 + 3 * x + c) == Channel(color, c)
  {
    var rowSize := RowSize(width);
    RowColumn(y, rowSize, 0);
    RowColumn(y, rowSize, 1 + 3 * x + c);
    assert y * rowSize + 1 + 3 * x + c == y * rowSize + (1 + 3 * x + c);
    RowColumn(x, 3, c);
    assert 3 * x + c == x * 3 + c;
  }

  /** The layout of the raw image: its length, each row's filter byte, each pixel's channels. */
  lemma RawImageLayout(width: nat, height: nat, color: Rgb, y: nat, x: nat, c: nat)
    requires y < height && x < width && c < 3
    ensures |RawImage(width, height, color)| == RowSize(width) * height
    ensures y * RowSize(width) + RowSize(width) <= RowSize(width) * height
    ensures RawImage(width, height, color)[y * RowSize(width)] == 0
    ensures RawImage(width, height, color)[y * RowSize(width) + 1 + 3 * x + c] == Channel(color, c)
  {
    var rowSize := RowSize(width);
    var img := RawImage(width, height, color);
    RowInImage(y, height, rowSize);
    assert |img| == rowSize * height;
    RawByteAt(width, color, y, x, c);
    assert img[y * rowSize] == RawByte(width, color, y * rowSize);
    var k := y * rowSize + 1 + 3 * x + c;
    assert k < |img|;
    assert img[k] == RawByte(width, color, k);
  }

  /** The inner loop of `createPng`: row `y`'s filter byte, then `width` pixels, written from offset `start`. */
  method FillRow(imgData: array<byte>, width: nat, color: Rgb, y: nat, start: nat)
    requires start == y * RowSize(width) && start + RowSize(width) <= imgData.Length
    modifies imgData
    ensures forall k :: 0 <= k < start ==> imgData[k] == old(imgData[k])
    ensures forall k :: start <= k < start + RowSize(width) ==> imgData[k] == RawByte(width, color, k)
    ensures forall k :: start + RowSize(width) <= k < imgData.Length ==> imgData[k] == old(imgData[k])
  {
    imgData[start] := 0;
    if width > 0 {
      RawByteAt(width, color, y, 0, 0);
    }
    var x, pos := 0, start + 1;
    while x < width
      invariant 0 <= x <= width && pos == start + 1 + 3 * x
      invariant forall k :: 0 <= k < start ==> imgData[k] == old(imgData[k])
      invariant forall k :: start <= k < pos ==> imgData[k] == RawByte(width, color, k)
      invariant forall k :: start + RowSize(width) <= k < imgData.Length ==> imgData[k] == old(imgData[k])
    {
      RawByteAt(width, color, y, x, 0);
      RawByteAt(width, color, y, x, 1);
      RawByteAt(width, color, y, x, 2);
      imgData[pos] := color.r;
      imgData[pos + 1] := color.g;
      imgData[pos + 2] := color.b;
      x, pos := x + 1, pos + 3;
    }
  }

  /** The nested loops of `createPng` that fill the preallocated (zeroed) `imgData` buffer. */
  method FillImageData(width: nat, height: nat, color: Rgb) returns (imgData: array<byte>)
    ensures imgData[..] == RawImage(width, height, color)
  {
    var rowSize := RowSize(width);
    imgData := new byte[rowSize * height](_ => 0);
    var y, start := 0, 0;
    while y < height
      invariant 0 <= y <= height && start == y * rowSize
      invariant forall k :: 0 <= k < start ==> imgData[k] == RawByte(width, color, k)
    {
      RowInImage(y, height, rowSize);
      FillRow(imgData, width, color, y, start);
      y, start := y + 1, start + rowSize;
    }
    assert start == imgData.Length;
    var img := RawImage(width, height, color);
    assert forall k :: 0 <= k < imgData.Length ==> imgData[..][k] == img[k];
  }

  /**
   * The IHDR buffer of `createPng`: two `writeInt32BE` calls, which for sizes
   * in the signed range write the same bytes as `BE32`, then five bytes by index.
   */
  method WriteIhdr(width: nat, height: nat) returns (ihdrData: array<byte>)
    requires width < TwoTo31 && height < TwoTo31
    ensures ihdrData[..] == IhdrData(width, height)
  {
    ihdrData := new byte[13](_ => 0);
    var w := BE32(width);
    var h := BE32(height);
    ihdrData[0], ihdrData[1], ihdrData[2], ihdrData[3] := w[0], w[1], w[2], w[3];
    ihdrData[4], ihdrData[5], ihdrData[6], ihdrData[7] := h[0], h[1], h[2], h[3];
    ihdrData[8] := 8;
    ihdrData[9] := 2;
    ihdrData[10] := 0;
    ihdrData[11] := 0;
    ihdrData[12] := 0;
    assert ihdrData[..] == w + h + [8, 2, 0, 0, 0];
  }

  /** Buffer index assignment keeps the low eight bits of a number. */
  function ToUint8(v: int): (r: byte)
    ensures 0 <= v < 256 ==> r == v
    ensures (v - r) % 256 == 0
  {
    v % 256
  }

  /**
   * `createPng(width, height, r, g, b)` with the corrected `CreateChunk`: `None`
   * when a Buffer write throws (a size or a chunk length past the signed range).
   */
  method CreatePng(width: nat, height: nat, r: int, g: int, b: int,
                   deflate: seq<byte> -> seq<byte>, crc32: seq<byte> -> u32)
    returns (png: Option<seq<byte>>)
    ensures png.Some? <==>
      width < TwoTo31 && height < TwoTo31 &&
      |deflate(RawImage(width, height, Rgb(ToUint8(r), ToUint8(g), ToUint8(b))))| < TwoTo31
    ensures png.Some? ==>
      png.value == PngFile(IhdrData(width, height),
                           deflate(RawImage(width, height, Rgb(ToUint8(r), ToUint8(g), ToUint8(b)))), crc32)
  {
    if width >= TwoTo31 || height >= TwoTo31 {
      return None;
    }
    var ihdrData := WriteIhdr(width, height);
    var ihdr := CreateChunk(IHDR, ihdrData[..], crc32);

    var imgData := FillImageData(width, height, Rgb(ToUint8(r), ToUint8(g), ToUint8(b)));
    var idatData := deflate(imgData[..]);
    var idat := CreateChunk(IDAT, idatData, crc32);
    if idat.None? {
      return None;
    }
    var iend := CreateChunk(IEND, [], crc32);
    assert IEND + [] == IEND;
    png := Some(Signature + ihdr.value + idat.value + iend.value);
    PngFileBytes(ihdrData[..], idatData, crc32);
  }

  /** `createPng` as written, assembling its chunks with `CreateChunkAsWritten`. */
  function CreatePngAsWritten(width: nat, height: nat, color: Rgb,
                              deflate: seq<byte> -> seq<byte>, crc32: seq<byte> -> u32): (r: Option<seq<byte>>)
    ensures r.Some? <==>
      width < TwoTo31 && height < TwoTo31 && |deflate(RawImage(width, height, color))| < TwoTo31 &&
      crc32(IHDR + IhdrData(width, height)) < TwoTo31 &&
      crc32(IDAT + deflate(RawImage(width, height, color))) < TwoTo31 &&
      crc32(IEND) < TwoTo31
    ensures r.Some? ==> r.value == PngFile(IhdrData(width, height), deflate(RawImage(width, height, color)), crc32)
  {
    match (WriteInt32BE(width), WriteInt32BE(height))
    case (Some(w), Some(h)) =>
      var ihdrData := w + h + [8, 2, 0, 0, 0];
      assert ihdrData == IhdrData(width, height);
      assert IEND + [] == IEND;
      var idatData := deflate(RawImage(width, height, color));
      var ihdr := CreateChunkAsWritten(IHDR, ihdrData, crc32);
      var idat := CreateChunkAsWritten(IDAT, idatData, crc32);
      var iend := CreateChunkAsWritten(IEND, [], crc32);
      if ihdr.Some? && idat.Some? && iend.Some? then
        PngFileBytes(ihdrData, idatData, crc32);
        Some(Signature + ihdr.value + idat.value + iend.value)
      else None
    case _ => None
  }

  /** Because every IEND chunk has CRC 0xAE426082, the script as written never produces a file. */
  lemma CreatePngAsWrittenNeverSucceeds(width: nat, height: nat, color: Rgb,
                                        deflate: seq<byte> -> seq<byte>, crc32: seq<byte> -> u32)
    requires crc32(IEND) == IendCrc
    ensures CreatePngAsWritten(width, height, color, deflate, crc32) == None
  {
    IendChunkAsWrittenFails(crc32);
  }
}
