/**
 * The Python image script (gen_images.py): `create_hq_png` writes a
 * vertical-gradient RGB image with darkened scanlines, and `pack_chunk` frames
 * each chunk with `struct.pack`. `zlib.compress` and `zlib.crc32` are the
 * parameters `compress` and `crc32`; the floating-point gradient and edge fade
 * are the two functions of a `Shading`.
 */
module PngPy {
  import opened Wrappers
  import opened PngFormat
  import opened Seqs

  /** `struct.pack('>I', v)`: four big-endian bytes, or `struct.error` (`None`) outside 0 .. 2^32 - 1. */
  function PackU32(v: int): (r: Option<seq<byte>>)
    ensures r.Some? <==> 0 <= v < TwoTo32
    ensures r.Some? ==> r.value == BE32(v)
  {
    if 0 <= v < TwoTo32 then Some(BE32(v)) else None
  }

  /** `struct.pack('>IIBBBBB', width, height, 8, 2, 0, 0, 0)`. */
  function PackIhdr(width: int, height: int): (r: Option<seq<byte>>)
    ensures r.Some? <==> 0 <= width < TwoTo32 && 0 <= height < TwoTo32
    ensures r.Some? ==> r.value == IhdrData(width, height)
  {
    match (PackU32(width), PackU32(height))
    case (Some(w), Some(h)) => Some(w + h + [8, 2, 0, 0, 0])
    case _ => None
  }

  /** `v & 0xffffffff` on a Python integer: the value modulo 2^32, never negative. */
  function Mask32(v: int): (r: u32)
    ensures 0 <= v < TwoTo32 ==> r == v
  {
    v % TwoTo32
  }

  /** `pack_chunk(tag, data)`: length, tag, data and the masked CRC, all packed unsigned. */
  function PackChunk(tag: seq<byte>, data: seq<byte>, crc32: seq<byte> -> int): (r: Option<seq<byte>>)
    requires |tag| == 4
    ensures r.Some? <==> |data| < TwoTo32
    ensures r.Some? ==> r.value == ChunkBytes(Chunk(tag, data, Mask32(crc32(tag + data))))
  {
    match PackU32(|data|)
    case None => None
    case Some(len) => Some(len + tag + data + PackU32(Mask32(crc32(tag + data))).value)
  }

  /** Unlike the Node script, the Python script writes the IEND chunk with its CRC 0xAE426082. */
  lemma PackIendChunk(crc32: seq<byte> -> int)
    requires crc32(IEND) == IendCrc
    ensures PackChunk(IEND, [], crc32) == Some(ChunkBytes(Chunk(IEND, [], IendCrc)))
  {
    assert IEND + [] == IEND;
  }

  /** A packed chunk reads back as its tag, its data and the masked CRC. */
  lemma PackChunkRoundTrip(tag: seq<byte>, data: seq<byte>, crc32: seq<byte> -> int)
    requires |tag| == 4 && |data| < TwoTo32
    ensures ParseChunk(PackChunk(tag, data, crc32).value) ==
            Some((Chunk(tag, data, Mask32(crc32(tag + data))), []))
  {
    var c := Chunk(tag, data, Mask32(crc32(tag + data)));
    ParseChunkBytes(c, []);
    assert ChunkBytes(c) + [] == ChunkBytes(c);
  }

  /** `crc32` followed by the mask, as `PngFile` takes it. */
  function MaskedCrc(crc32: seq<byte> -> int): seq<byte> -> u32
  {
    b => Mask32(crc32(b))
  }

  /** `max(0, v - 10)`. */
  function Darken(v: byte): (r: byte)
    ensures v >= 10 ==> r == v - 10
    ensures v < 10 ==> r == 0
  {
    if v >= 10 then v - 10 else 0
  }

  /** Every fourth row, starting with the first, is darkened by 10 per channel. */
  function ScanlineColor(base: Rgb, y: nat): (r: Rgb)
    ensures y % 4 == 0 ==> r == Rgb(Darken(base.r), Darken(base.g), Darken(base.b))
    ensures y % 4 != 0 ==> r == base
  {
    if y % 4 == 0 then Rgb(Darken(base.r), Darken(base.g), Darken(base.b)) else base
  }

  /**
   * The floating-point parts of the script: `gradient(top, bottom, y, height)`
   * is the row colour `int(c1 * (1 - fade) + c2 * fade)` with `fade = y / height`;
   * `vignette(x, width, v)` is `int(v * edge_fade)` for pixel `x`.
   */
  datatype Shading = Shading(gradient: (Rgb, Rgb, nat, nat) -> Rgb, vignette: (nat, nat, byte) -> byte)

  /** The colour of row `y` after the scanline darkening. */
  function RowColor(y: nat, height: nat, top: Rgb, bottom: Rgb, shading: Shading): Rgb
  {
    ScanlineColor(shading.gradient(top, bottom, y, height), y)
  }

  /** The three bytes `extend` adds for pixel `x`. */
  function PixelBytes(x: nat, width: nat, color: Rgb, shading: Shading): (r: seq<byte>)
    ensures |r| == 3
    ensures forall c :: 0 <= c < 3 ==> r[c] == shading.vignette(x, width, Channel(color, c))
  {
    [shading.vignette(x, width, color.r), shading.vignette(x, width, color.g), shading.vignette(x, width, color.b)]
  }

  /** The bytes of the first `n` pixels of a row. */
  function RowPixels(n: nat, width: nat, color: Rgb, shading: Shading): seq<byte>
  {
    if n == 0 then [] else RowPixels(n - 1, width, color, shading) + PixelBytes(n - 1, width, color, shading)
  }

  /** Row `y`: the filter byte 0, then the pixels. */
  function Row(y: nat, width: nat, height: nat, top: Rgb, bottom: Rgb, shading: Shading): seq<byte>
  {
    [0] + RowPixels(width, width, RowColor(y, height, top, bottom, shading), shading)
  }

  /** The first `k` rows of `img_data`. */
  function ImageData(k: nat, width: nat, height: nat, top: Rgb, bottom: Rgb, shading: Shading): seq<byte>
  {
    if k == 0 then [] else ImageData(k - 1, width, height, top, bottom, shading) + Row(k - 1, width, height, top, bottom, shading)
  }

  /** A row's pixels are three bytes each, channel `c` of pixel `x` at `3x + c`. */
  lemma {:induction false} RowPixelsLayout(n: nat, width: nat, color: Rgb, shading: Shading, x: nat, c: nat)
    requires x < n && c < 3
    ensures |RowPixels(n, width, color, shading)| == 3 * n
    ensures RowPixels(n, width, color, shading)[3 * x + c] == shading.vignette(x, width, Channel(color, c))
  {
    RowPixelsLength(n - 1, width, color, shading);
    if x < n - 1 {
      RowPixelsLayout(n - 1, width, color, shading, x, c);
    }
  }

  /** A row of `n` pixels has `3n` bytes. */
  lemma {:induction false} RowPixelsLength(n: nat, width: nat, color: Rgb, shading: Shading)
    ensures |RowPixels(n, width, color, shading)| == 3 * n
  {
    if n > 0 {
      RowPixelsLength(n - 1, width, color, shading);
    }
  }

  /** `k` rows take `k * (1 + 3 * width)` bytes. */
  lemma {:induction false} ImageDataLength(k: nat, width: nat, height: nat, top: Rgb, bottom: Rgb, shading: Shading)
    ensures |ImageData(k, width, height, top, bottom, shading)| == k * RowSize(width)
  {
    if k > 0 {
      ImageDataLength(k - 1, width, height, top, bottom, shading);
      RowPixelsLength(width, width, RowColor(k - 1, height, top, bottom, shading), shading);
      assert k * RowSize(width) == (k - 1) * RowSize(width) + RowSize(width);
    }
  }

  /** The first `y` rows are a prefix of the first `k` rows. */
  lemma {:induction false} ImageDataPrefix(y: nat, k: nat, width: nat, height: nat, top: Rgb, bottom: Rgb,
                                           shading: Shading)
    requires y <= k
    ensures ImageData(y, width, height, top, bottom, shading) <= ImageData(k, width, height, top, bottom, shading)
  {
    if y < k {
      ImageDataPrefix(y, k - 1, width, height, top, bottom, shading);
      var rows := ImageData(k - 1, width, height, top, bottom, shading);
      assert ImageData(k, width, height, top, bottom, shading) == rows + Row(k - 1, width, height, top, bottom, shading);
    }
  }

  /** Row `y` sits right after the rows before it in every image with more than `y` rows. */
  lemma ImageDataRow(k: nat, width: nat, height: nat, top: Rgb, bottom: Rgb,
                     shading: Shading, y: nat, j: nat)
    requires y < k && j < |Row(y, width, height, top, bottom, shading)|
    ensures |ImageData(y, width, height, top, bottom, shading)| + |Row(y, width, height, top, bottom, shading)| <=
            |ImageData(k, width, height, top, bottom, shading)|
    ensures ImageData(k, width, height, top, bottom, shading)[|ImageData(y, width, height, top, bottom, shading)| + j] ==
            Row(y, width, height, top, bottom, shading)[j]
  {
    ImageDataPrefix(y + 1, k, width, height, top, bottom, shading);
    PrefixIndex(ImageData(y, width, height, top, bottom, shading), Row(y, width, height, top, bottom, shading),
                ImageData(k, width, height, top, bottom, shading), j);
  }

  /**
   * The layout of `img_data`: its length, each row's filter byte 0, and channel
   * `c` of pixel `x` in row `y` as the shaded, darkened channel of that row's colour.
   */
  lemma ImageDataLayout(width: nat, height: nat, top: Rgb, bottom: Rgb, shading: Shading, y: nat, x: nat, c: nat)
    requires y < height && x < width && c < 3
    ensures |ImageData(height, width, height, top, bottom, shading)| == height * RowSize(width)
    ensures y * RowSize(width) + RowSize(width) <= height * RowSize(width)
    ensures ImageData(height, width, height, top, bottom, shading)[y * RowSize(width)] == 0
    ensures ImageData(height, width, height, top, bottom, shading)[y * RowSize(width) + 1 + 3 * x + c] ==
            shading.vignette(x, width, Channel(RowColor(y, height, top, bottom, shading), c))
  {
    ImageDataLength(height, width, height, top, bottom, shading);
    ImageDataLength(y, width, height, top, bottom, shading);
    RowInImage(y, height, RowSize(width));
    assert RowSize(width) * height == height * RowSize(width);
    RowLayout(y, width, height, top, bottom, shading, x, c);
    ImageDataRow(height, width, height, top, bottom, shading, y, 0);
    ImageDataRow(height, width, height, top, bottom, shading, y, 1 + 3 * x + c);
  }

  /** A row is the filter byte 0 followed by the shaded channels of each pixel. */
  lemma RowLayout(y: nat, width: nat, height: nat, top: Rgb, bottom: Rgb, shading: Shading, x: nat, c: nat)
    requires x < width && c < 3
    ensures |Row(y, width, height, top, bottom, shading)| == RowSize(width)
    ensures Row(y, width, height, top, bottom, shading)[0] == 0
    ensures Row(y, width, height, top, bottom, shading)[1 + 3 * x + c] ==
            shading.vignette(x, width, Channel(RowColor(y, height, top, bottom, shading), c))
  {
    var color := RowColor(y, height, top, bottom, shading);
    RowPixelsLayout(width, width, color, shading, x, c);
  }

  /** One pass of the outer loop of `create_hq_png`: `append(0)`, then `extend` once per pixel. */
  method AppendRow(imgData: seq<byte>, y: nat, width: nat, height: nat, top: Rgb, bottom: Rgb, shading: Shading)
    returns (out: seq<byte>)
    ensures out == imgData + Row(y, width, height, top, bottom, shading)
  {
    out := imgData + [0];
    var color := ScanlineColor(shading.gradient(top, bottom, y, height), y);
    var x := 0;
    while x < width
      invariant x <= width
      invariant out == imgData + [0] + RowPixels(x, width, color, shading)
    {
      AppendAssociative(imgData + [0], RowPixels(x, width, color, shading), PixelBytes(x, width, color, shading));
      out := out + [shading.vignette(x, width, color.r), shading.vignette(x, width, color.g),
                    shading.vignette(x, width, color.b)];
      x := x + 1;
    }
    AppendAssociative(imgData, [0], RowPixels(width, width, color, shading));
  }

  /** The nested loops of `create_hq_png` that grow `img_data`. */
  method BuildImageData(width: nat, height: nat, top: Rgb, bottom: Rgb, shading: Shading)
    returns (imgData: seq<byte>)
    ensures imgData == ImageData(height, width, height, top, bottom, shading)
  {
    imgData := [];
    var y := 0;
    while y < height
      invariant y <= height
      invariant imgData == ImageData(y, width, height, top, bottom, shading)
    {
      imgData := AppendRow(imgData, y, width, height, top, bottom, shading);
      y := y + 1;
    }
  }

  /**
   * `create_hq_png(width, height, top_color, bottom_color)`: `png` grown with
   * `+=`; `None` when a `struct.pack` raises.
   */
  method CreateHqPng(width: nat, height: nat, top: Rgb, bottom: Rgb, shading: Shading,
                     compress: seq<byte> -> seq<byte>, crc32: seq<byte> -> int)
    returns (png: Option<seq<byte>>)
    ensures png.Some? <==>
      width < TwoTo32 && height < TwoTo32 &&
      |compress(ImageData(height, width, height, top, bottom, shading))| < TwoTo32
    ensures png.Some? ==>
      png.value == PngFile(IhdrData(width, height),
                           compress(ImageData(height, width, height, top, bottom, shading)), MaskedCrc(crc32))
  {
    var out := Signature;
    var ihdrData := PackIhdr(width, height);
    if ihdrData.None? {
      return None;
    }
    var ihdr := PackChunk(IHDR, ihdrData.value, crc32);
    out := out + ihdr.value;
    var imgData := BuildImageData(width, height, top, bottom, shading);
    var idat := PackChunk(IDAT, compress(imgData), crc32);
    if idat.None? {
      return None;
    }
    out := out + idat.value;
    var iend := PackChunk(IEND, [], crc32);
    assert IEND + [] == IEND;
    out := out + iend.value;
    png := Some(out);
    PngFileBytes(ihdrData.value, compress(imgData), MaskedCrc(crc32));
  }
}
