/**
 * The two operations of gdk-pixbuf/src/pixbuf.rs that check and touch the
 * pixel buffer: `Pixbuf::from_mut_slice`, which validates a caller's byte
 * buffer against the image geometry before handing it to C, and
 * `Pixbuf::put_pixel`, which overwrites the bytes of one pixel in place.
 * A panic (`assert!`) is a `null` pixbuf or a `false` flag.
 */
module Pixbuf {
  import opened Wrappers
  import opened Text

  /** `has_alpha` decides the channel count: 4 with alpha, 3 without. */
  function NChannels(hasAlpha: bool): (n: nat)
    ensures n == 3 || n == 4
    ensures n == 4 <==> hasAlpha
  {
    if hasAlpha then 4 else 3
  }

  /** Bytes of the last row: `width` pixels of `nChannels` samples, each rounded up to whole bytes. */
  function LastRowLen(width: nat, nChannels: nat, bitsPerSample: nat): nat {
    width * ((nChannels * bitsPerSample + 7) / 8)
  }

  /** With 8 bits per sample, a row holds exactly one byte per channel and pixel. */
  lemma LastRowLenEightBits(width: nat, nChannels: nat)
    ensures LastRowLen(width, nChannels, 8) == width * nChannels
  {
    assert (nChannels * 8 + 7) / 8 == nChannels;
  }

  /** The assertion of `from_mut_slice` that fails first. */
  datatype SliceError =
    | WidthNotPositive
    | HeightNotPositive
    | RowStrideNotPositive
    | UnsupportedBitsPerSample
    | DataTooShort

  /** Geometry of a pixbuf made by `from_mut_slice`; the sample size is always 8 bits. */
  datatype Layout = Layout(hasAlpha: bool, width: nat, height: nat, rowStride: nat)

  /** The buffer length a layout needs: all rows but the last in full, and the last up to its pixels. */
  function RequiredLen(height: nat, rowStride: nat, lastRowLen: nat): nat
    requires height > 0
  {
    (height - 1) * rowStride + lastRowLen
  }

  /**
   * The checks of `from_mut_slice`, in the source's order, for a buffer of
   * `dataLen` bytes. The image is accepted exactly when every dimension is
   * positive, samples are 8 bits wide and the buffer reaches the last byte
   * of the last pixel.
   */
  function CheckSlice(dataLen: nat, hasAlpha: bool, bitsPerSample: int, width: int, height: int, rowStride: int)
    : (r: Result<Layout, SliceError>)
    ensures r.Ok? <==>
      && width > 0 && height > 0 && rowStride > 0 && bitsPerSample == 8
      && dataLen >= (height - 1) * rowStride + width * NChannels(hasAlpha)
    ensures r.Ok? ==> r.value == Layout(hasAlpha, width, height, rowStride)
    ensures r == Err(WidthNotPositive) <==> width <= 0
    ensures r == Err(HeightNotPositive) <==> width > 0 && height <= 0
    ensures r == Err(RowStrideNotPositive) <==> width > 0 && height > 0 && rowStride <= 0
    ensures r == Err(UnsupportedBitsPerSample) <==> width > 0 && height > 0 && rowStride > 0 && bitsPerSample != 8
  {
    if width <= 0 then Err(WidthNotPositive)
    else if height <= 0 then Err(HeightNotPositive)
    else if rowStride <= 0 then Err(RowStrideNotPositive)
    else if bitsPerSample != 8 then Err(UnsupportedBitsPerSample)
    else
      var lastRowLen := LastRowLen(width, NChannels(hasAlpha), bitsPerSample);
      LastRowLenEightBits(width, NChannels(hasAlpha));
      if dataLen >= RequiredLen(height, rowStride, lastRowLen) then Ok(Layout(hasAlpha, width, height, rowStride))
      else Err(DataTooShort)
  }

  /** Where `put_pixel` writes: the first sample of pixel `(x, y)`. */
  function PixelPos(x: nat, y: nat, rowStride: nat, nChannels: nat): nat {
    y * rowStride + x * nChannels
  }

  /**
   * Every sample of every pixel inside the image lies inside a buffer of
   * the required length, whatever the row stride: the check of
   * `from_mut_slice` is enough for `put_pixel` to stay in bounds.
   */
  lemma {:induction false} PixelInBuffer(width: nat, height: nat, rowStride: nat, nChannels: nat, x: nat, y: nat, c: nat)
    requires x < width && y < height && c < nChannels
    ensures PixelPos(x, y, rowStride, nChannels) + c < RequiredLen(height, rowStride, width * nChannels)
  {
    assert y * rowStride <= (height - 1) * rowStride by {
      MulMonotone(y, height - 1, rowStride);
    }
    assert x * nChannels + c < width * nChannels by {
      MulMonotone(x + 1, width, nChannels);
    }
  }

  lemma MulMonotone(a: nat, b: nat, k: nat)
    requires a <= b
    ensures a * k <= b * k
  {
  }

  /** The bytes one pixel occupies: red, green, blue, and alpha when there are 4 channels. */
  function PixelBytes(nChannels: nat, red: byte, green: byte, blue: byte, alpha: byte): (s: seq<byte>)
    requires nChannels == 3 || nChannels == 4
    ensures |s| == nChannels
  {
    if nChannels == 4 then [red, green, blue, alpha] else [red, green, blue]
  }

  /**
   * `buf` with the pixel at `pos` replaced: the `nChannels` bytes from
   * `pos` on are the pixel's samples, every other byte is as before.
   */
  function WithPixel(buf: seq<byte>, pos: nat, nChannels: nat, red: byte, green: byte, blue: byte, alpha: byte)
    : (w: seq<byte>)
    requires nChannels == 3 || nChannels == 4
    requires pos + nChannels <= |buf|
    ensures |w| == |buf|
    ensures w[pos..pos + nChannels] == PixelBytes(nChannels, red, green, blue, alpha)
    ensures forall i :: 0 <= i < |buf| && !(pos <= i < pos + nChannels) ==> w[i] == buf[i]
  {
    var w := buf[..pos] + PixelBytes(nChannels, red, green, blue, alpha) + buf[pos + nChannels..];
    assert w[pos..pos + nChannels] == PixelBytes(nChannels, red, green, blue, alpha);
    w
  }

  /** Writing the same pixel twice is writing it once. */
  lemma WithPixelIdempotent(buf: seq<byte>, pos: nat, n: nat, red: byte, green: byte, blue: byte, alpha: byte)
    requires n == 3 || n == 4
    requires pos + n <= |buf|
    ensures WithPixel(WithPixel(buf, pos, n, red, green, blue, alpha), pos, n, red, green, blue, alpha)
         == WithPixel(buf, pos, n, red, green, blue, alpha)
  {
    var once := WithPixel(buf, pos, n, red, green, blue, alpha);
    var twice := WithPixel(once, pos, n, red, green, blue, alpha);
    forall i | 0 <= i < |buf|
      ensures twice[i] == once[i]
    {
      if pos <= i < pos + n {
        assert twice[i] == twice[pos..pos + n][i - pos];
        assert once[i] == once[pos..pos + n][i - pos];
      }
    }
  }

  /** Writes to pixels whose bytes do not overlap can be done in either order. */
  lemma WithPixelCommutes(buf: seq<byte>, p: nat, q: nat, n: nat, r1: byte, g1: byte, b1: byte, a1: byte,
                          r2: byte, g2: byte, b2: byte, a2: byte)
    requires n == 3 || n == 4
    requires p + n <= |buf| && q + n <= |buf|
    requires p + n <= q || q + n <= p
    ensures WithPixel(WithPixel(buf, p, n, r1, g1, b1, a1), q, n, r2, g2, b2, a2)
         == WithPixel(WithPixel(buf, q, n, r2, g2, b2, a2), p, n, r1, g1, b1, a1)
  {
    var pq := WithPixel(WithPixel(buf, p, n, r1, g1, b1, a1), q, n, r2, g2, b2, a2);
    var qp := WithPixel(WithPixel(buf, q, n, r2, g2, b2, a2), p, n, r1, g1, b1, a1);
    var pb := PixelBytes(n, r1, g1, b1, a1);
    var qb := PixelBytes(n, r2, g2, b2, a2);
    forall i | 0 <= i < |buf|
      ensures pq[i] == qp[i]
    {
      if p <= i < p + n {
        assert pq[i] == WithPixel(buf, p, n, r1, g1, b1, a1)[i];
        assert pq[i] == pb[i - p] by {
          assert WithPixel(buf, p, n, r1, g1, b1, a1)[p..p + n][i - p] == pb[i - p];
        }
        assert qp[i] == qp[p..p + n][i - p];
      } else if q <= i < q + n {
        assert qp[i] == WithPixel(buf, q, n, r2, g2, b2, a2)[i];
        assert qp[i] == qb[i - q] by {
          assert WithPixel(buf, q, n, r2, g2, b2, a2)[q..q + n][i - q] == qb[i - q];
        }
        assert pq[i] == pq[q..q + n][i - q];
      }
    }
  }

  /**
   * A pixbuf over a byte buffer. The geometry is fixed at creation; the
   * bytes are shared with the creator of the buffer and change in place.
   */
  class Pixbuf {
    const width: nat
    const height: nat
    const nChannels: nat
    const rowStride: nat
    const pixels: array<byte>

    /** The buffer reaches the last byte of the last pixel. */
    predicate Valid() {
      && width > 0 && height > 0
      && pixels.Length >= RequiredLen(height, rowStride, width * nChannels)
    }

    constructor (layout: Layout, data: array<byte>)
      requires layout.width > 0 && layout.height > 0
      requires data.Length >= RequiredLen(layout.height, layout.rowStride, layout.width * NChannels(layout.hasAlpha))
      ensures width == layout.width && height == layout.height && rowStride == layout.rowStride
      ensures nChannels == NChannels(layout.hasAlpha) && pixels == data
      ensures Valid()
    {
      width := layout.width;
      height := layout.height;
      rowStride := layout.rowStride;
      nChannels := NChannels(layout.hasAlpha);
      pixels := data;
    }

    /**
     * `put_pixel`: panics (`false`) unless `(x, y)` is inside the image and
     * there are 3 or 4 channels; otherwise overwrites exactly that pixel's
     * bytes.
     */
    method PutPixel(x: nat, y: nat, red: byte, green: byte, blue: byte, alpha: byte) returns (ok: bool)
      requires Valid()
      modifies pixels
      ensures ok <==> x < width && y < height && (nChannels == 3 || nChannels == 4)
      ensures ok ==> PixelPos(x, y, rowStride, nChannels) + nChannels <= pixels.Length
      ensures ok ==>
        pixels[..] == WithPixel(old(pixels[..]), PixelPos(x, y, rowStride, nChannels), nChannels, red, green, blue, alpha)
      ensures !ok ==> pixels[..] == old(pixels[..])
    {
      if x >= width || y >= height || (nChannels != 3 && nChannels != 4) {
        return false;
      }
      var pos := y * rowStride + x * nChannels;
      PixelInBuffer(width, height, rowStride, nChannels, x, y, nChannels - 1);
      pixels[pos] := red;
      pixels[pos + 1] := green;
      pixels[pos + 2] := blue;
      if nChannels == 4 {
        pixels[pos + 3] := alpha;
      }
      ok := true;
      assert pixels[..] == WithPixel(old(pixels[..]), pos, nChannels, red, green, blue, alpha);
    }
  }

  /**
   * `from_mut_slice`: a pixbuf over `data` (the same buffer, not a copy)
   * when `CheckSlice` accepts the geometry, a panic (`null`) otherwise.
   * The colorspace is passed through to C unchecked and is not modelled.
   */
  method FromMutSlice(data: array<byte>, hasAlpha: bool, bitsPerSample: int, width: int, height: int, rowStride: int)
    returns (p: Pixbuf?)
    ensures p != null <==> CheckSlice(data.Length, hasAlpha, bitsPerSample, width, height, rowStride).Ok?
    ensures p != null ==>
      && p.Valid() && p.pixels == data
      && p.width == width && p.height == height && p.rowStride == rowStride
      && p.nChannels == NChannels(hasAlpha)
  {
    var checked := CheckSlice(data.Length, hasAlpha, bitsPerSample, width, height, rowStride);
    if checked.Err? {
      return null;
    }
    p := new Pixbuf(checked.value, data);
  }
}
