/**
 * The parts of the PNG file format (PNG Specification, W3C, Second Edition)
 * that the two image scripts write: the signature (section 5.2), chunk
 * framing (section 5.3), the IHDR chunk (section 11.2.2) and filter-type-0
 * scanlines (sections 7.2 and 9.2). Compression and CRC-32 are not modelled;
 * they reach this module as function parameters.
 */
module PngFormat {
  import opened Wrappers

  type byte = x: int | 0 <= x < 256

  /** A value that fits an unsigned 32-bit field. */
  type u32 = x: int | 0 <= x < 0x1_0000_0000

  const TwoTo31: int := 0x8000_0000
  const TwoTo32: int := 0x1_0000_0000

  /** The eight signature bytes (section 5.2). */
  const Signature: seq<byte> := [137, 80, 78, 71, 13, 10, 26, 10]

  /** Chunk type codes: the ASCII bytes of "IHDR", "IDAT" and "IEND". */
  const IHDR: seq<byte> := [73, 72, 68, 82]
  const IDAT: seq<byte> := [73, 68, 65, 84]
  const IEND: seq<byte> := [73, 69, 78, 68]

  /** The CRC-32 of the four bytes "IEND", the fixed CRC of every IEND chunk. */
  const IendCrc: int := 0xAE42_6082

  /** Reads a four-byte big-endian unsigned integer. */
  function FromBE32(b: seq<byte>): (n: u32)
    requires |b| == 4
  {
    ((b[0] as int * 0x100 + b[1]) * 0x100 + b[2]) * 0x100 + b[3]
  }

  /** Writes an unsigned 32-bit value as four big-endian bytes. */
  function BE32(n: u32): (r: seq<byte>)
    ensures |r| == 4
    ensures FromBE32(r) == n
  {
    var n1 := n / 0x100;
    var n2 := n1 / 0x100;
    [n2 / 0x100, n2 % 0x100, n1 % 0x100, n % 0x100]
  }

  /** Reading back what was written, the other way round. */
  lemma BE32OfFromBE32(b: seq<byte>)
    requires |b| == 4
    ensures BE32(FromBE32(b)) == b
  {
    var n := FromBE32(b);
    var n1 := b[0] as int * 0x1_0000 + b[1] as int * 0x100 + b[2];
    var n2 := b[0] as int * 0x100 + b[1];
    assert n == n1 * 0x100 + b[3];
    assert n / 0x100 == n1 && n % 0x100 == b[3];
    assert n1 == n2 * 0x100 + b[2];
    assert n1 / 0x100 == n2 && n1 % 0x100 == b[2];
    assert n2 / 0x100 == b[0] && n2 % 0x100 == b[1];
  }

  /** A chunk (section 5.3): its type code, its data and the CRC stored after them. */
  datatype Chunk = Chunk(tag: seq<byte>, data: seq<byte>, crc: int)

  /** A chunk that can be written: a four-byte type and fields that fit 32 bits. */
  predicate WellFormed(c: Chunk)
  {
    |c.tag| == 4 && |c.data| < TwoTo32 && 0 <= c.crc < TwoTo32
  }

  /** Length, type, data, CRC: the byte layout of a chunk. */
  function ChunkBytes(c: Chunk): (r: seq<byte>)
    requires WellFormed(c)
    ensures |r| == 12 + |c.data|
  {
    BE32(|c.data|) + c.tag + c.data + BE32(c.crc)
  }

  /** Reads one chunk from the front of `bytes`; `None` when the bytes are too short. */
  function ParseChunk(bytes: seq<byte>): (r: Option<(Chunk, seq<byte>)>)
    ensures r.Some? ==> WellFormed(r.value.0) && |r.value.1| < |bytes|
  {
    if |bytes| < 8 then None
    else
      var len := FromBE32(bytes[..4]);
      if |bytes| < 12 + len then None
      else Some((Chunk(bytes[4..8], bytes[8..8 + len], FromBE32(bytes[8 + len..12 + len])),
                 bytes[12 + len..]))
  }

  /** Reading a written chunk gives it back, together with whatever followed it. */
  lemma ParseChunkBytes(c: Chunk, rest: seq<byte>)
    requires WellFormed(c)
    ensures ParseChunk(ChunkBytes(c) + rest) == Some((c, rest))
  {
    var b := ChunkBytes(c) + rest;
    var n := |c.data|;
    assert b[..4] == BE32(n);
    assert b[4..8] == c.tag;
    assert b[8..8 + n] == c.data;
    assert b[8 + n..12 + n] == BE32(c.crc);
    assert b[12 + n..] == rest;
  }

  /** A list of chunks written one after the other. */
  function Serialize(cs: seq<Chunk>): (r: seq<byte>)
    requires forall i :: 0 <= i < |cs| ==> WellFormed(cs[i])
  {
    if cs == [] then [] else ChunkBytes(cs[0]) + Serialize(cs[1..])
  }

  /** Reads chunks until the bytes run out. */
  function ParseChunks(bytes: seq<byte>): Option<seq<Chunk>>
    decreases |bytes|
  {
    if bytes == [] then Some([])
    else match ParseChunk(bytes)
      case None => None
      case Some((c, rest)) =>
        match ParseChunks(rest)
        case None => None
        case Some(cs) => Some([c] + cs)
  }

  /** Reading a written list of chunks gives back the list, in order. */
  lemma {:induction false} ParseSerialize(cs: seq<Chunk>)
    requires forall i :: 0 <= i < |cs| ==> WellFormed(cs[i])
    ensures ParseChunks(Serialize(cs)) == Some(cs)
  {
    if cs != [] {
      ParseChunkBytes(cs[0], Serialize(cs[1..]));
      ParseSerialize(cs[1..]);
      assert [cs[0]] + cs[1..] == cs;
    }
  }

  /** The 13 IHDR data bytes (section 11.2.2): width, height, bit depth 8, colour type 2, then 0, 0, 0. */
  function IhdrData(width: u32, height: u32): (r: seq<byte>)
    ensures |r| == 13
    ensures FromBE32(r[0..4]) == width && FromBE32(r[4..8]) == height
    ensures r[8..] == [8, 2, 0, 0, 0]
  {
    var r := BE32(width) + BE32(height) + [8, 2, 0, 0, 0];
    assert r[0..4] == BE32(width) && r[4..8] == BE32(height);
    r
  }

  /** Signature, IHDR, one IDAT, an empty IEND; `crc` gives the CRC of type code plus data. */
  function PngFile(ihdrData: seq<byte>, idatData: seq<byte>, crc: seq<byte> -> u32): (r: seq<byte>)
    requires |ihdrData| == 13 && |idatData| < TwoTo32
  {
    Signature + Serialize(PngChunks(ihdrData, idatData, crc))
  }

  /** The chunks of `PngFile`. */
  function PngChunks(ihdrData: seq<byte>, idatData: seq<byte>, crc: seq<byte> -> u32): (cs: seq<Chunk>)
    requires |ihdrData| == 13 && |idatData| < TwoTo32
    ensures forall i :: 0 <= i < |cs| ==> WellFormed(cs[i])
  {
    [ Chunk(IHDR, ihdrData, crc(IHDR + ihdrData)),
      Chunk(IDAT, idatData, crc(IDAT + idatData)),
      Chunk(IEND, [], crc(IEND)) ]
  }

  /** The file starts with the signature, then reads back as IHDR, IDAT, IEND (empty), nothing after. */
  lemma PngFileLayout(ihdrData: seq<byte>, idatData: seq<byte>, crc: seq<byte> -> u32)
    requires |ihdrData| == 13 && |idatData| < TwoTo32
    ensures PngFile(ihdrData, idatData, crc)[..8] == Signature
    ensures ParseChunks(PngFile(ihdrData, idatData, crc)[8..]) == Some(PngChunks(ihdrData, idatData, crc))
    ensures var cs := PngChunks(ihdrData, idatData, crc);
            cs[0].tag == IHDR && cs[0].data == ihdrData && cs[1].tag == IDAT && cs[1].data == idatData &&
            cs[2].tag == IEND && cs[2].data == []
  {
    var cs := PngChunks(ihdrData, idatData, crc);
    ParseSerialize(cs);
    assert PngFile(ihdrData, idatData, crc)[8..] == Serialize(cs);
  }

  /** The three chunks of a PNG file written one after the other. */
  lemma PngFileBytes(ihdrData: seq<byte>, idatData: seq<byte>, crc: seq<byte> -> u32)
    requires |ihdrData| == 13 && |idatData| < TwoTo32
    ensures PngFile(ihdrData, idatData, crc) ==
      Signature + ChunkBytes(Chunk(IHDR, ihdrData, crc(IHDR + ihdrData)))
                + ChunkBytes(Chunk(IDAT, idatData, crc(IDAT + idatData)))
                + ChunkBytes(Chunk(IEND, [], crc(IEND)))
  {
    var cs := PngChunks(ihdrData, idatData, crc);
    assert cs[2..][1..] == [];
    assert Serialize(cs[2..]) == ChunkBytes(cs[2]);
    assert cs[1..][1..] == cs[2..];
    assert Serialize(cs[1..]) == ChunkBytes(cs[1]) + ChunkBytes(cs[2]);
    assert Serialize(cs) == ChunkBytes(cs[0]) + Serialize(cs[1..]);
  }

  /** The three colour channels of a pixel. */
  datatype Rgb = Rgb(r: byte, g: byte, b: byte)

  /** Channel `c` of a pixel: red, green, blue for 0, 1, 2. */
  function Channel(color: Rgb, c: nat): byte
    requires c < 3
  {
    if c == 0 then color.r else if c == 1 then color.g else color.b
  }

  /** Bytes per scanline: the filter-type byte, then three bytes per pixel. */
  function RowSize(width: nat): nat
  {
    3 * width + 1
  }

  /** Splitting an offset into whole rows and a column within a row. */
  lemma {:induction false} RowColumn(y: nat, rowSize: nat, col: nat)
    requires col < rowSize
    ensures (y * rowSize + col) / rowSize == y
    ensures (y * rowSize + col) % rowSize == col
  {
    if y > 0 {
      RowColumn(y - 1, rowSize, col);
      var k := (y - 1) * rowSize + col;
      assert y * rowSize + col == k + rowSize;
      assert k == (y - 1) * rowSize + col;
      assert k + rowSize == y * rowSize + col;
      DivModStep(k, rowSize);
    }
  }

  /** Adding one row's length moves to the next row, same column. */
  lemma DivModStep(k: nat, d: nat)
    requires d > 0
    ensures (k + d) / d == k / d + 1 && (k + d) % d == k % d
  {
    var q, r := k / d, k % d;
    var q', r' := (k + d) / d, (k + d) % d;
    assert k == d * q + r;
    assert k + d == d * q' + r';
    assert d * (q' - q - 1) == r - r';
    MulMonotonic(d, q' - q - 1);
  }

  /** A multiple of a positive number is at least that number away from zero, unless it is zero. */
  lemma MulMonotonic(d: int, m: int)
    requires d > 0
    ensures m >= 1 ==> d * m >= d
    ensures m <= -1 ==> d * m <= -d
  {
    assert d * m - d == d * (m - 1);
    assert d * m + d == d * (m + 1);
  }

  /** Rows before row `height` end before the image does. */
  lemma RowInImage(y: nat, height: nat, rowSize: nat)
    requires y < height
    ensures y * rowSize + rowSize == (y + 1) * rowSize <= rowSize * height
  {
    assert (y + 1) * rowSize <= height * rowSize;
  }
}
