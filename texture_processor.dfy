/**
 * The CPU texture processor (Editor/TextureProcessor.cs): per-pixel operations that read each pixel
 * of a TextureData, compute a new v128 and write it back in row-major order, and Resize, which
 * replaces the texture by a new one of another size.
 */
module TextureProcessing {
  import opened Outcomes
  import opened Numerics
  import opened TextureBuffers

  // ----- Per-pixel maps --------------------------------------------------------------------------

  /** Lane k of pixel p in a buffer of channelCount lanes per pixel. */
  function Lane(p: int, k: int, channelCount: nat): int {
    p * channelCount + k
  }

  /** The lanes of pixel p lie inside a buffer of n pixels. */
  lemma LanesOfPixel(p: nat, n: nat, channelCount: nat)
    requires p < n
    ensures 0 <= Lane(p, 0, channelCount) && Lane(p, 0, channelCount) + channelCount <= n * channelCount
  {
    MulMonotone(p + 1, n, channelCount);
    assert (p + 1) * channelCount == p * channelCount + channelCount;
  }

  /** A lane of one pixel lies before or after all the lanes of any other pixel. */
  lemma PixelOutside(p: nat, q: nat, k: nat, channelCount: nat)
    requires p != q && k < channelCount
    ensures Lane(p, k, channelCount) < Lane(q, 0, channelCount) || Lane(q, 0, channelCount) + channelCount <= Lane(p, k, channelCount)
  {
    if p < q {
      MulMonotone(p + 1, q, channelCount);
      assert (p + 1) * channelCount == p * channelCount + channelCount;
    } else {
      MulMonotone(q + 1, p, channelCount);
      assert (q + 1) * channelCount == q * channelCount + channelCount;
    }
  }

  /**
   * The buffer after the first n pixels, in row-major order, have been read, mapped by f and
   * written back: what the nested loops of Brightness, Contrast and Shuffle leave. The loops visit
   * only pixels inside the buffer; a pixel number past its end leaves the buffer as it is.
   */
  function MappedPrefix(buffer: seq<real>, channelCount: nat, f: Pixel -> Pixel, n: nat): (r: seq<real>)
    requires 1 <= channelCount <= 4
    ensures |r| == |buffer|
  {
    if n == 0 then buffer
    else
      var before := MappedPrefix(buffer, channelCount, f, n - 1);
      var index := Lane(n - 1, 0, channelCount);
      if 0 <= index && index + channelCount <= |buffer| then
        WritePixel(before, index, channelCount, f(ReadPixel(buffer, index, channelCount)))
      else before
  }

  /** After n pixels are mapped, lane k of pixel p < n holds lane k of f applied to the original pixel. */
  lemma {:induction false} MappedLane(buffer: seq<real>, channelCount: nat, f: Pixel -> Pixel, n: nat, p: nat, k: nat)
    requires 1 <= channelCount <= 4 && n * channelCount <= |buffer|
    requires p < n && k < channelCount
    ensures 0 <= Lane(p, 0, channelCount) && Lane(p, 0, channelCount) + channelCount <= |buffer|
    ensures Lane(p, k, channelCount) < |buffer|
    ensures MappedPrefix(buffer, channelCount, f, n)[Lane(p, k, channelCount)]
            == f(ReadPixel(buffer, Lane(p, 0, channelCount), channelCount))[k]
  {
    LanesOfPixel(p, n, channelCount);
    LanesOfPixel(n - 1, n, channelCount);
    var before := MappedPrefix(buffer, channelCount, f, n - 1);
    var index := Lane(n - 1, 0, channelCount);
    var value := f(ReadPixel(buffer, index, channelCount));
    var after := WritePixel(before, index, channelCount, value);
    assert MappedPrefix(buffer, channelCount, f, n) == after;
    if p == n - 1 {
      WrittenLane(before, index, channelCount, value, k);
      assert Lane(p, k, channelCount) == index + k;
    } else {
      assert (n - 1) * channelCount <= |buffer| by {
        MulMonotone(n - 1, n, channelCount);
      }
      MappedLane(buffer, channelCount, f, n - 1, p, k);
      PixelOutside(p, n - 1, k, channelCount);
      UnwrittenLane(before, index, channelCount, value, Lane(p, k, channelCount));
    }
  }

  /** Mapping n pixels leaves every lane past them as it was. */
  lemma {:induction false} MappedBeyond(buffer: seq<real>, channelCount: nat, f: Pixel -> Pixel, n: nat, i: nat)
    requires 1 <= channelCount <= 4 && n * channelCount <= |buffer|
    requires n * channelCount <= i < |buffer|
    ensures MappedPrefix(buffer, channelCount, f, n)[i] == buffer[i]
  {
    if n > 0 {
      LanesOfPixel(n - 1, n, channelCount);
      var before := MappedPrefix(buffer, channelCount, f, n - 1);
      var index := Lane(n - 1, 0, channelCount);
      ReadAfterWrite(before, index, channelCount, f(ReadPixel(buffer, index, channelCount)));
      assert (n - 1) * channelCount + channelCount == n * channelCount;
      MappedBeyond(buffer, channelCount, f, n - 1, i);
    }
  }

  /** The number of pixels in the rows above row y: the pixel number the row starts at. */
  function RowStart(y: nat, width: int): nat {
    if width > 0 then y * width else 0
  }

  /** Pixel (x, y) of a texture is pixel number RowStart(y) + x in row-major order, and its lanes fit. */
  lemma NextPixel(x: int, y: int, width: int, height: int, channelCount: nat)
    requires 0 <= x < width && 0 <= y < height
    ensures PixelIndex(x, y, width, channelCount) == Lane(RowStart(y, width) + x, 0, channelCount)
    ensures (RowStart(y, width) + x + 1) * channelCount <= width * height * channelCount
  {
    PixelIndexInBounds(x, y, width, height, channelCount);
    assert (y * width + x + 1) * channelCount == (y * width + x) * channelCount + channelCount;
  }

  /** The row after row y starts a row width later; the texture ends after the last row. */
  lemma NextRow(y: int, width: int, height: int, channelCount: nat)
    requires 0 <= y < height
    ensures RowStart(y + 1, width) == RowStart(y, width) + (if width > 0 then width else 0)
  {
    if width > 0 {
      assert (y + 1) * width == y * width + width;
    }
  }

  /** After the last row, the row-major loops have visited every pixel. */
  lemma AllRows(width: int, height: int)
    requires 0 < height
    ensures RowStart(height, width) == VisitedPixels(width, height)
  {
    if width > 0 {
      assert height * width == width * height;
    }
  }

  /** Mapping one more pixel reads it as it was and writes f of it back. */
  lemma MapStep(buffer: seq<real>, channelCount: nat, f: Pixel -> Pixel, n: nat)
    requires 1 <= channelCount <= 4 && (n + 1) * channelCount <= |buffer|
    ensures n * channelCount <= |buffer| && Lane(n, 0, channelCount) + channelCount <= |buffer|
    ensures var before := MappedPrefix(buffer, channelCount, f, n);
      MappedPrefix(buffer, channelCount, f, n + 1)
        == WritePixel(before, Lane(n, 0, channelCount), channelCount, f(ReadPixel(before, Lane(n, 0, channelCount), channelCount)))
  {
    assert (n + 1) * channelCount == n * channelCount + channelCount;
    var before := MappedPrefix(buffer, channelCount, f, n);
    forall i | Lane(n, 0, channelCount) <= i < Lane(n, 0, channelCount) + channelCount
      ensures before[i] == buffer[i]
    {
      MappedBeyond(buffer, channelCount, f, n, i);
    }
    assert ReadPixel(before, Lane(n, 0, channelCount), channelCount) == ReadPixel(buffer, Lane(n, 0, channelCount), channelCount);
  }

  /**
   * Mapping pixel (x, y), pixel number n in row-major order, reads it at its lane index as the
   * earlier pixels left it and writes f of it back there.
   */
  lemma MapStepAt(buffer: seq<real>, channelCount: nat, f: Pixel -> Pixel, n: nat, x: int, y: int, width: int, height: int)
    requires 1 <= channelCount <= 4 && |buffer| == width * height * channelCount
    requires 0 <= x < width && 0 <= y < height && n == RowStart(y, width) + x
    ensures 0 <= PixelIndex(x, y, width, channelCount) && PixelIndex(x, y, width, channelCount) + channelCount <= |buffer|
    ensures var before := MappedPrefix(buffer, channelCount, f, n);
      MappedPrefix(buffer, channelCount, f, n + 1)
        == WritePixel(before, PixelIndex(x, y, width, channelCount), channelCount,
                      f(ReadPixel(before, PixelIndex(x, y, width, channelCount), channelCount)))
  {
    NextPixel(x, y, width, height, channelCount);
    MapStep(buffer, channelCount, f, n);
  }

  /** The pixel map that applies g to the colour lanes 0 to 2 and keeps lane 3, the alpha. */
  function KeepAlpha(g: real -> real): Pixel -> Pixel {
    p => seq(4, k requires 0 <= k < 4 => if k == 3 then p[k] else g(p[k]))
  }

  /** The pixel map that applies g to every lane. */
  function EveryLane(g: real -> real): Pixel -> Pixel {
    p => seq(4, k requires 0 <= k < 4 => g(p[k]))
  }

  /** Brightness's lane arithmetic: a multiplication by the value. */
  function ScaleBy(value: real): real -> real {
    lane => lane * value
  }

  /** Contrast's lane arithmetic: a move away from or towards one half by the factor value. */
  function StretchAroundHalf(value: real): real -> real {
    lane => (lane - 0.5) * value + 0.5
  }

  /** Brightness scales the colour lanes of a pixel and keeps its alpha. */
  function BrightnessPixel(value: real): Pixel -> Pixel {
    KeepAlpha(ScaleBy(value))
  }

  /** Contrast stretches every lane of a pixel around one half. */
  function ContrastPixel(value: real): Pixel -> Pixel {
    EveryLane(StretchAroundHalf(value))
  }

  /** After n pixels are mapped by KeepAlpha(g), lane k of pixel p < n is g of its old value, or its old value for the alpha. */
  lemma KeepAlphaLane(buffer: seq<real>, channelCount: nat, g: real -> real, n: nat, p: nat, k: nat)
    requires 1 <= channelCount <= 4 && n * channelCount <= |buffer|
    requires p < n && k < channelCount
    ensures 0 <= Lane(p, 0, channelCount) && Lane(p, 0, channelCount) + channelCount <= |buffer|
    ensures Lane(p, k, channelCount) < |buffer|
    ensures MappedPrefix(buffer, channelCount, KeepAlpha(g), n)[Lane(p, k, channelCount)]
            == if k == 3 then buffer[Lane(p, k, channelCount)] else g(buffer[Lane(p, k, channelCount)])
  {
    LanesOfPixel(p, n, channelCount);
    ReadLane(buffer, Lane(p, 0, channelCount), channelCount, k);
    MappedLane(buffer, channelCount, KeepAlpha(g), n, p, k);
  }

  /** After n pixels are mapped by EveryLane(g), lane k of pixel p < n is g of its old value. */
  lemma EveryLaneLane(buffer: seq<real>, channelCount: nat, g: real -> real, n: nat, p: nat, k: nat)
    requires 1 <= channelCount <= 4 && n * channelCount <= |buffer|
    requires p < n && k < channelCount
    ensures 0 <= Lane(p, 0, channelCount) && Lane(p, 0, channelCount) + channelCount <= |buffer|
    ensures Lane(p, k, channelCount) < |buffer|
    ensures MappedPrefix(buffer, channelCount, EveryLane(g), n)[Lane(p, k, channelCount)] == g(buffer[Lane(p, k, channelCount)])
  {
    LanesOfPixel(p, n, channelCount);
    ReadLane(buffer, Lane(p, 0, channelCount), channelCount, k);
    MappedLane(buffer, channelCount, EveryLane(g), n, p, k);
  }

  /**
   * Brightness keeps the alpha lane (lane 3) of every pixel it reaches and multiplies its other
   * lanes by the value.
   */
  lemma BrightnessLane(buffer: seq<real>, channelCount: nat, value: real, n: nat, p: nat, k: nat)
    requires 1 <= channelCount <= 4 && n * channelCount <= |buffer|
    requires p < n && k < channelCount
    ensures 0 <= Lane(p, 0, channelCount) && Lane(p, 0, channelCount) + channelCount <= |buffer|
    ensures Lane(p, k, channelCount) < |buffer|
    ensures MappedPrefix(buffer, channelCount, BrightnessPixel(value), n)[Lane(p, k, channelCount)]
            == if k == 3 then buffer[Lane(p, k, channelCount)] else buffer[Lane(p, k, channelCount)] * value
  {
    KeepAlphaLane(buffer, channelCount, ScaleBy(value), n, p, k);
  }

  /** Contrast sets every lane of every pixel it reaches to (lane - 0.5) * value + 0.5. */
  lemma ContrastLane(buffer: seq<real>, channelCount: nat, value: real, n: nat, p: nat, k: nat)
    requires 1 <= channelCount <= 4 && n * channelCount <= |buffer|
    requires p < n && k < channelCount
    ensures 0 <= Lane(p, 0, channelCount) && Lane(p, 0, channelCount) + channelCount <= |buffer|
    ensures Lane(p, k, channelCount) < |buffer|
    ensures MappedPrefix(buffer, channelCount, ContrastPixel(value), n)[Lane(p, k, channelCount)]
            == (buffer[Lane(p, k, channelCount)] - 0.5) * value + 0.5
  {
    EveryLaneLane(buffer, channelCount, StretchAroundHalf(value), n, p, k);
  }

  // ----- Shuffle ---------------------------------------------------------------------------------

  /** x & 3 on a two's-complement int: the remainder modulo 4, never negative. */
  function LowBits(x: int32): bv8 {
    (x % 4) as bv8
  }

  /** Shuffle's immediate: the four two-bit lane selectors, lane 0 lowest. */
  function Imm8(x: int32, y: int32, z: int32, w: int32): bv8 {
    LowBits(x) | (LowBits(y) << 2) | (LowBits(z) << 4) | (LowBits(w) << 6)
  }

  /** The source lane shuffle_ps takes for result lane k. */
  function Selector(imm8: bv8, k: nat): nat
    requires k < 4
  {
    ((imm8 >> (2 * k) as bv8) & 3) as nat
  }

  /** The lane selector Shuffle was given for result lane k, reduced as x & 3 reduces it. */
  function Requested(x: int32, y: int32, z: int32, w: int32, k: nat): nat
    requires k < 4
  {
    if k == 0 then x % 4 else if k == 1 then y % 4 else if k == 2 then z % 4 else w % 4
  }

  /** x & 3 is one of the four lanes, and as a number it is x modulo 4. */
  lemma LowBitsValue(x: int32)
    ensures LowBits(x) < 4 && LowBits(x) as nat == x % 4
  {
  }

  /** Four two-bit fields packed lowest first come back out of their positions. */
  lemma FieldsDecode(a: bv8, b: bv8, c: bv8, d: bv8, k: nat)
    requires a < 4 && b < 4 && c < 4 && d < 4 && k < 4
    ensures Selector(a | (b << 2) | (c << 4) | (d << 6), k) == if k == 0 then a as nat else if k == 1 then b as nat else if k == 2 then c as nat else d as nat
  {
    var imm := a | (b << 2) | (c << 4) | (d << 6);
    if k == 0 {
      assert imm & 3 == a;
    } else if k == 1 {
      assert (imm >> 2) & 3 == b;
    } else if k == 2 {
      assert (imm >> 4) & 3 == c;
    } else {
      assert (imm >> 6) & 3 == d;
    }
  }

  /** The immediate decodes back to the selectors it was built from. */
  lemma Imm8Selects(x: int32, y: int32, z: int32, w: int32, k: nat)
    requires k < 4
    ensures Selector(Imm8(x, y, z, w), k) == Requested(x, y, z, w, k)
  {
    LowBitsValue(x);
    LowBitsValue(y);
    LowBitsValue(z);
    LowBitsValue(w);
    FieldsDecode(LowBits(x), LowBits(y), LowBits(z), LowBits(w), k);
  }

  /** shuffle_ps of a pixel with itself. */
  function ShufflePixel(imm8: bv8): Pixel -> Pixel {
    p => seq(4, k requires 0 <= k < 4 => p[Selector(imm8, k)])
  }

  /**
   * Shuffle sets lane k of every pixel it reaches to the pixel's lane Requested(k), or to zero when
   * the texture has no such lane.
   */
  lemma ShuffleLane(buffer: seq<real>, channelCount: nat, x: int32, y: int32, z: int32, w: int32, n: nat, p: nat, k: nat)
    requires 1 <= channelCount <= 4 && n * channelCount <= |buffer|
    requires p < n && k < channelCount
    ensures 0 <= Lane(p, 0, channelCount) && Lane(p, 0, channelCount) + channelCount <= |buffer|
    ensures Lane(p, k, channelCount) < |buffer|
    ensures MappedPrefix(buffer, channelCount, ShufflePixel(Imm8(x, y, z, w)), n)[Lane(p, k, channelCount)]
            == if Requested(x, y, z, w, k) < channelCount
               then buffer[Lane(p, Requested(x, y, z, w, k), channelCount)] else 0.0
  {
    var imm8 := Imm8(x, y, z, w);
    Imm8Selects(x, y, z, w, k);
    MappedLane(buffer, channelCount, ShufflePixel(imm8), n, p, k);
    LanesOfPixel(p, n, channelCount);
    var pixel := ReadPixel(buffer, Lane(p, 0, channelCount), channelCount);
    var source := Requested(x, y, z, w, k);
    assert ShufflePixel(imm8)(pixel)[k] == pixel[source];
    if source < channelCount {
      ReadLane(buffer, Lane(p, 0, channelCount), channelCount, source);
    }
  }

  // ----- Resize ----------------------------------------------------------------------------------

  /** Pixels in different places have different row-major pixel numbers. */
  lemma PixelNumbersDistinct(x: nat, y: nat, x2: nat, y2: nat, width: nat)
    requires x < width && x2 < width && (x != x2 || y != y2)
    ensures y * width + x != y2 * width + x2
  {
    if y < y2 {
      MulMonotone(y + 1, y2, width);
      assert (y + 1) * width == y * width + width;
    } else if y2 < y {
      MulMonotone(y2 + 1, y, width);
      assert (y2 + 1) * width == y2 * width + width;
    }
  }

  /** The new texture's buffer before anything is copied into it: every lane zero. */
  function Zeros(n: nat): (r: seq<real>)
    ensures |r| == n
  {
    seq(n, _ => 0.0)
  }

  /**
   * Row y of a texture after its first cols pixels, left to right, have been set to the colour the
   * source gives for them.
   */
  function FilledRow(buffer: seq<real>, width: nat, height: nat, channelCount: nat,
                     source: (int, int) -> Pixel, y: nat, cols: nat): (r: seq<real>)
    requires 1 <= channelCount <= 4 && |buffer| == width * height * channelCount
    requires y < height && cols <= width
    ensures |r| == |buffer|
  {
    if cols == 0 then buffer
    else
      PixelIndexInBounds(cols - 1, y, width, height, channelCount);
      WritePixel(FilledRow(buffer, width, height, channelCount, source, y, cols - 1),
                 PixelIndex(cols - 1, y, width, channelCount), channelCount, source(cols - 1, y))
  }

  /** A texture after the window of its first rows rows and cols columns has been filled row by row. */
  function FilledWindow(buffer: seq<real>, width: nat, height: nat, channelCount: nat,
                        source: (int, int) -> Pixel, rows: nat, cols: nat): (r: seq<real>)
    requires 1 <= channelCount <= 4 && |buffer| == width * height * channelCount
    requires rows <= height && cols <= width
    ensures |r| == |buffer|
  {
    if rows == 0 then buffer
    else FilledRow(FilledWindow(buffer, width, height, channelCount, source, rows - 1, cols),
                   width, height, channelCount, source, rows - 1, cols)
  }

  /** Filling part of row y sets lane k of the pixels filled and leaves every other lane. */
  lemma {:induction false} FilledRowLane(buffer: seq<real>, width: nat, height: nat, channelCount: nat,
                                         source: (int, int) -> Pixel, y: nat, cols: nat, x: nat, py: nat, k: nat)
    requires 1 <= channelCount <= 4 && |buffer| == width * height * channelCount
    requires y < height && cols <= width
    requires x < width && py < height && k < channelCount
    ensures 0 <= PixelIndex(x, py, width, channelCount) && PixelIndex(x, py, width, channelCount) + k < |buffer|
    ensures FilledRow(buffer, width, height, channelCount, source, y, cols)[PixelIndex(x, py, width, channelCount) + k]
            == if py == y && x < cols then source(x, y)[k] else buffer[PixelIndex(x, py, width, channelCount) + k]
  {
    PixelIndexInBounds(x, py, width, height, channelCount);
    if cols > 0 {
      FilledRowLane(buffer, width, height, channelCount, source, y, cols - 1, x, py, k);
      FilledRowLaneStep(buffer, width, height, channelCount, source, y, cols, x, py, k);
    }
  }

  /** Filling one more pixel of the row extends what a lane holds by that pixel. */
  lemma FilledRowLaneStep(buffer: seq<real>, width: nat, height: nat, channelCount: nat,
                          source: (int, int) -> Pixel, y: nat, cols: nat, x: nat, py: nat, k: nat)
    requires 1 <= channelCount <= 4 && |buffer| == width * height * channelCount
    requires y < height && 0 < cols <= width
    requires x < width && py < height && k < channelCount
    requires 0 <= PixelIndex(x, py, width, channelCount) && PixelIndex(x, py, width, channelCount) + k < |buffer|
    requires FilledRow(buffer, width, height, channelCount, source, y, cols - 1)[PixelIndex(x, py, width, channelCount) + k]
             == if py == y && x < cols - 1 then source(x, y)[k] else buffer[PixelIndex(x, py, width, channelCount) + k]
    ensures FilledRow(buffer, width, height, channelCount, source, y, cols)[PixelIndex(x, py, width, channelCount) + k]
            == if py == y && x < cols then source(x, y)[k] else buffer[PixelIndex(x, py, width, channelCount) + k]
  {
    if py == y && x == cols - 1 {
      FilledRowLast(buffer, width, height, channelCount, source, y, cols, k);
    } else {
      FilledRowEarlier(buffer, width, height, channelCount, source, y, cols, x, py, k);
    }
  }

  /** The last pixel of the filled part of the row holds the source pixel. */
  lemma FilledRowLast(buffer: seq<real>, width: nat, height: nat, channelCount: nat,
                      source: (int, int) -> Pixel, y: nat, cols: nat, k: nat)
    requires 1 <= channelCount <= 4 && |buffer| == width * height * channelCount
    requires y < height && 0 < cols <= width && k < channelCount
    ensures 0 <= PixelIndex(cols - 1, y, width, channelCount)
    ensures PixelIndex(cols - 1, y, width, channelCount) + k < |buffer|
    ensures FilledRow(buffer, width, height, channelCount, source, y, cols)[PixelIndex(cols - 1, y, width, channelCount) + k]
            == source(cols - 1, y)[k]
  {
    PixelIndexInBounds(cols - 1, y, width, height, channelCount);
    var before := FilledRow(buffer, width, height, channelCount, source, y, cols - 1);
    WrittenLane(before, PixelIndex(cols - 1, y, width, channelCount), channelCount, source(cols - 1, y), k);
  }

  /** Filling the last pixel of the row leaves the lanes of every other pixel as they were. */
  lemma FilledRowEarlier(buffer: seq<real>, width: nat, height: nat, channelCount: nat,
                         source: (int, int) -> Pixel, y: nat, cols: nat, x: nat, py: nat, k: nat)
    requires 1 <= channelCount <= 4 && |buffer| == width * height * channelCount
    requires y < height && 0 < cols <= width
    requires x < width && py < height && k < channelCount && !(py == y && x == cols - 1)
    ensures 0 <= PixelIndex(x, py, width, channelCount) && PixelIndex(x, py, width, channelCount) + k < |buffer|
    ensures FilledRow(buffer, width, height, channelCount, source, y, cols)[PixelIndex(x, py, width, channelCount) + k]
            == FilledRow(buffer, width, height, channelCount, source, y, cols - 1)[PixelIndex(x, py, width, channelCount) + k]
  {
    PixelIndexInBounds(x, py, width, height, channelCount);
    PixelIndexInBounds(cols - 1, y, width, height, channelCount);
    var before := FilledRow(buffer, width, height, channelCount, source, y, cols - 1);
    var index := PixelIndex(cols - 1, y, width, channelCount);
    OtherPixelUntouched(x, py, cols - 1, y, width, channelCount, k);
    UnwrittenLane(before, index, channelCount, source(cols - 1, y), PixelIndex(x, py, width, channelCount) + k);
  }

  /** Lane k of one pixel lies outside the lanes of every other pixel of the same row width. */
  lemma OtherPixelUntouched(x: nat, y: nat, x2: nat, y2: nat, width: nat, channelCount: nat, k: nat)
    requires x < width && x2 < width && (x != x2 || y != y2) && k < channelCount
    ensures var other := PixelIndex(x2, y2, width, channelCount);
      !(other <= PixelIndex(x, y, width, channelCount) + k < other + channelCount)
  {
    PixelNumbersDistinct(x, y, x2, y2, width);
    assert PixelIndex(x, y, width, channelCount) + k == Lane(y * width + x, k, channelCount);
    PixelOutside(y * width + x, y2 * width + x2, k, channelCount);
  }

  /** Filling a window sets lane k of each pixel inside it from the source and leaves every other lane. */
  lemma {:induction false} FilledWindowLane(buffer: seq<real>, width: nat, height: nat, channelCount: nat,
                                            source: (int, int) -> Pixel, rows: nat, cols: nat, x: nat, y: nat, k: nat)
    requires 1 <= channelCount <= 4 && |buffer| == width * height * channelCount
    requires rows <= height && cols <= width
    requires x < width && y < height && k < channelCount
    ensures 0 <= PixelIndex(x, y, width, channelCount) && PixelIndex(x, y, width, channelCount) + k < |buffer|
    ensures FilledWindow(buffer, width, height, channelCount, source, rows, cols)[PixelIndex(x, y, width, channelCount) + k]
            == if y < rows && x < cols then source(x, y)[k] else buffer[PixelIndex(x, y, width, channelCount) + k]
  {
    PixelIndexInBounds(x, y, width, height, channelCount);
    if rows > 0 {
      var before := FilledWindow(buffer, width, height, channelCount, source, rows - 1, cols);
      FilledRowLane(before, width, height, channelCount, source, rows - 1, cols, x, y, k);
      FilledWindowLane(buffer, width, height, channelCount, source, rows - 1, cols, x, y, k);
    }
  }

  /** The side of the copied window along one axis: the smaller of the old and new sizes, none if the old is empty. */
  function WindowSize(oldSize: int, newSize: nat): (r: nat)
    ensures r <= newSize && (oldSize > 0 ==> r <= oldSize) && (oldSize <= 0 ==> r == 0)
    ensures oldSize > 0 ==> r == if oldSize < newSize then oldSize else newSize
  {
    if oldSize <= 0 then 0 else if oldSize < newSize then oldSize else newSize
  }

  /** Pixel (x, y) of the old texture, or a zero pixel outside it. */
  function OldPixel(oldData: seq<real>, oldWidth: int, oldHeight: int, channelCount: nat, x: int, y: int): Pixel {
    if 0 <= x < oldWidth && 0 <= y < oldHeight && |oldData| == oldWidth * oldHeight * channelCount && channelCount <= 4 then
      PixelIndexInBounds(x, y, oldWidth, oldHeight, channelCount);
      ReadPixel(oldData, PixelIndex(x, y, oldWidth, channelCount), channelCount)
    else [0.0, 0.0, 0.0, 0.0]
  }

  /** The old texture as a colour source for the copy. */
  function OldPixels(oldData: seq<real>, oldWidth: int, oldHeight: int, channelCount: nat): (int, int) -> Pixel {
    (x, y) => OldPixel(oldData, oldWidth, oldHeight, channelCount, x, y)
  }

  /**
   * Resize without resampling: a zeroed texture of the new size into which the pixels the two sizes
   * share are copied, each whole pixel to the same coordinates.
   */
  function Cropped(oldData: seq<real>, oldWidth: int, oldHeight: int, width: nat, height: nat, channelCount: nat): (r: seq<real>)
    requires 1 <= channelCount <= 4
    ensures |r| == width * height * channelCount
  {
    FilledWindow(Zeros(width * height * channelCount), width, height, channelCount,
                 OldPixels(oldData, oldWidth, oldHeight, channelCount),
                 WindowSize(oldHeight, height), WindowSize(oldWidth, width))
  }

  /** Inside the shared window a lane of the cropped texture comes from the old pixel; outside it is zero. */
  lemma CroppedLane(oldData: seq<real>, oldWidth: nat, oldHeight: nat, width: nat, height: nat, channelCount: nat,
                    x: nat, y: nat, k: nat)
    requires 1 <= channelCount <= 4
    requires x < width && y < height && k < channelCount
    ensures 0 <= PixelIndex(x, y, width, channelCount) && PixelIndex(x, y, width, channelCount) + k < width * height * channelCount
    ensures Cropped(oldData, oldWidth, oldHeight, width, height, channelCount)[PixelIndex(x, y, width, channelCount) + k]
            == if x < oldWidth && y < oldHeight then OldPixel(oldData, oldWidth, oldHeight, channelCount, x, y)[k] else 0.0
  {
    var source := OldPixels(oldData, oldWidth, oldHeight, channelCount);
    ZeroedWindowLane(width, height, channelCount, source, WindowSize(oldHeight, height), WindowSize(oldWidth, width), x, y, k);
    assert source(x, y) == OldPixel(oldData, oldWidth, oldHeight, channelCount, x, y);
  }

  /** Filling a window of a zeroed texture: lane k of a pixel inside it comes from the source, every other lane is zero. */
  lemma ZeroedWindowLane(width: nat, height: nat, channelCount: nat, source: (int, int) -> Pixel, rows: nat, cols: nat,
                         x: nat, y: nat, k: nat)
    requires 1 <= channelCount <= 4 && rows <= height && cols <= width
    requires x < width && y < height && k < channelCount
    ensures 0 <= PixelIndex(x, y, width, channelCount) && PixelIndex(x, y, width, channelCount) + k < width * height * channelCount
    ensures FilledWindow(Zeros(width * height * channelCount), width, height, channelCount, source, rows, cols)
              [PixelIndex(x, y, width, channelCount) + k]
            == if y < rows && x < cols then source(x, y)[k] else 0.0
  {
    PixelIndexInBounds(x, y, width, height, channelCount);
    FilledWindowLane(Zeros(width * height * channelCount), width, height, channelCount, source, rows, cols, x, y, k);
  }

  /**
   * Every lane of a pixel the old and new sizes share keeps its old value; every lane of a pixel
   * outside the old texture is zero.
   */
  lemma CropKeepsPixels(oldData: seq<real>, oldWidth: nat, oldHeight: nat, width: nat, height: nat, channelCount: nat,
                        x: nat, y: nat, k: nat)
    requires 1 <= channelCount <= 4 && |oldData| == oldWidth * oldHeight * channelCount
    requires x < width && y < height && k < channelCount
    ensures 0 <= PixelIndex(x, y, width, channelCount) && PixelIndex(x, y, width, channelCount) + k < width * height * channelCount
    ensures x < oldWidth && y < oldHeight ==>
      0 <= PixelIndex(x, y, oldWidth, channelCount) && PixelIndex(x, y, oldWidth, channelCount) + k < |oldData|
    ensures Cropped(oldData, oldWidth, oldHeight, width, height, channelCount)[PixelIndex(x, y, width, channelCount) + k]
            == if x < oldWidth && y < oldHeight then oldData[PixelIndex(x, y, oldWidth, channelCount) + k] else 0.0
  {
    CroppedLane(oldData, oldWidth, oldHeight, width, height, channelCount, x, y, k);
    if x < oldWidth && y < oldHeight {
      PixelIndexInBounds(x, y, oldWidth, oldHeight, channelCount);
    }
  }

  /** Resize with resampling: every pixel of the new texture takes the interpolated colour for its coordinates. */
  function Resampled(width: nat, height: nat, channelCount: nat, bilinear: (int, int) -> Pixel): (r: seq<real>)
    requires 1 <= channelCount <= 4
    ensures |r| == width * height * channelCount
  {
    FilledWindow(Zeros(width * height * channelCount), width, height, channelCount, bilinear, height, width)
  }

  /** Lane k of every pixel of the resampled texture is lane k of its interpolated colour. */
  lemma ResampledPixels(width: nat, height: nat, channelCount: nat, bilinear: (int, int) -> Pixel, x: nat, y: nat, k: nat)
    requires 1 <= channelCount <= 4 && x < width && y < height && k < channelCount
    ensures 0 <= PixelIndex(x, y, width, channelCount) && PixelIndex(x, y, width, channelCount) + k < width * height * channelCount
    ensures Resampled(width, height, channelCount, bilinear)[PixelIndex(x, y, width, channelCount) + k] == bilinear(x, y)[k]
  {
    ZeroedWindowLane(width, height, channelCount, bilinear, height, width, x, y, k);
  }

  /** The copy loop as written: one row of single lanes, indexed by pixel number as if every pixel were one lane. */
  function CopiedRowAsWritten(oldData: seq<real>, oldWidth: nat, buffer: seq<real>, width: nat, y: nat, cols: nat): (r: seq<real>)
    requires cols <= width && cols <= oldWidth
    requires y * width + width <= |buffer| && y * oldWidth + oldWidth <= |oldData|
    ensures |r| == |buffer|
  {
    if cols == 0 then buffer
    else CopiedRowAsWritten(oldData, oldWidth, buffer, width, y, cols - 1)[y * width + cols - 1 := oldData[y * oldWidth + cols - 1]]
  }

  /** TextureProcessor.Resize's copy without resampling, as written, on a 1-pixel-high window. */
  function CroppedRowAsWritten(oldData: seq<real>, oldWidth: nat, width: nat, height: nat, channelCount: nat): (r: seq<real>)
    requires 1 <= height && 1 <= channelCount && oldWidth <= |oldData| && width <= width * height * channelCount
  {
    CopiedRowAsWritten(oldData, oldWidth, Zeros(width * height * channelCount), width, 0,
                       if oldWidth < width then oldWidth else width)
  }

  /**
   * Resizing a one-pixel RGBA texture to two pixels wide copies only the red lane: as written the
   * copied pixel's alpha is 0, where the whole-pixel copy keeps it.
   */
  lemma CropLosesLanesAsWritten()
    ensures CroppedRowAsWritten([1.0, 1.0, 1.0, 1.0], 1, 2, 1, 4)[3] == 0.0
    ensures Cropped([1.0, 1.0, 1.0, 1.0], 1, 1, 2, 1, 4)[3] == 1.0
  {
    CropKeepsPixels([1.0, 1.0, 1.0, 1.0], 1, 1, 2, 1, 4, 0, 0, 3);
  }

  // ----- The processor ---------------------------------------------------------------------------

  /** The operations of ITextureProcessor whose implementation only throws NotImplementedException. */
  datatype UnimplementedOperation =
    | Saturation(saturation: real)
    | Gamma(gamma: real)
    | HueShift(degrees: real)
    | Invert
    | Posterize(levels: int32)
    | ColorBalance(shadows: real, midtones: real, highlights: real)
    | LevelsAdjust(blackPoint: real, whitePoint: real, midPoint: real)
    | GaussianBlur(blurRadius: real)
    | BoxBlur(boxRadius: int32)
    | Sharpen(sharpenStrength: real)
    | UnsharpMask(amount: real, maskRadius: real, maskThreshold: real)
    | EdgeDetect(edgeThreshold: real)
    | Emboss(embossStrength: real)
    | FlipHorizontal
    | FlipVertical
    | Rotate90
    | Rotate180
    | Rotate270
    | Scale(scaleX: real, scaleY: real)
    | Threshold(threshold: real)
    | HistogramEqualization
    | NoiseReduction(noiseStrength: real)
    | Dilate(dilateKernel: int32)
    | Erode(erodeKernel: int32)
    | Grayscale
    | ExtractChannel(channel: int32)
    | ReplaceChannel(targetChannel: int32, channelValue: real)
    | Swirl(angle: real, swirlRadius: real)
    | Ripple(amplitude: real, frequency: real)
    | Bulge(bulgeStrength: real, bulgeRadius: real)

  /** The number of pixels the row-major loops visit: all of them, or none when a side is not positive. */
  function VisitedPixels(width: int, height: int): (r: nat)
    ensures width > 0 && height > 0 ==> r == width * height
  {
    if width > 0 && height > 0 then width * height else 0
  }

  class TextureProcessor {
    var textureData: TextureData

    constructor (textureData: TextureData)
      ensures this.textureData == textureData
    {
      this.textureData := textureData;
    }

    /**
     * The loop Brightness, Shuffle and Contrast share: every pixel, row by row, is read with
     * GetPixel, mapped by f and written back with SetPixel.
     */
    method MapPixels(f: Pixel -> Pixel)
      requires textureData.Valid()
      modifies textureData.data
      ensures textureData.data[..] == MappedPrefix(old(textureData.data[..]), textureData.channelCount, f,
                                                   VisitedPixels(textureData.width, textureData.height))
    {
      var texture := textureData;
      ghost var original := texture.data[..];
      var y: int32 := 0;
      while y < texture.height
        invariant 0 <= y && (y == 0 || y <= texture.height)
        invariant texture.data[..] == MappedPrefix(original, texture.channelCount, f, RowStart(y, texture.width))
      {
        MapRow(texture, f, y, original);
        y := y + 1;
      }
      if texture.height > 0 {
        AllRows(texture.width, texture.height);
      }
    }

    /** Brightness: every pixel's colour lanes are multiplied by the value; its alpha lane is kept. */
    method Brightness(value: real)
      requires textureData.Valid()
      modifies textureData.data
      ensures textureData.data[..] == MappedPrefix(old(textureData.data[..]), textureData.channelCount, BrightnessPixel(value),
                                                   VisitedPixels(textureData.width, textureData.height))
    {
      MapPixels(BrightnessPixel(value));
    }

    /** Shuffle: every pixel is rearranged by shuffle_ps with the immediate built from the four selectors. */
    method Shuffle(x: int32, y: int32, z: int32, w: int32)
      requires textureData.Valid()
      modifies textureData.data
      ensures textureData.data[..] == MappedPrefix(old(textureData.data[..]), textureData.channelCount, ShufflePixel(Imm8(x, y, z, w)),
                                                   VisitedPixels(textureData.width, textureData.height))
    {
      var imm8 := LowBits(x) | (LowBits(y) << 2) | (LowBits(z) << 4) | (LowBits(w) << 6);
      MapPixels(ShufflePixel(imm8));
    }

    /** Contrast: every lane of every pixel is moved relative to one half by the value. */
    method Contrast(value: real)
      requires textureData.Valid()
      modifies textureData.data
      ensures textureData.data[..] == MappedPrefix(old(textureData.data[..]), textureData.channelCount, ContrastPixel(value),
                                                   VisitedPixels(textureData.width, textureData.height))
    {
      MapPixels(ContrastPixel(value));
    }

    /**
     * Resize: non-positive sizes throw ArgumentException and the same size does nothing; otherwise a
     * new texture of the same format replaces the old one, which is disposed. Without resampling the
     * pixels both sizes share are copied and the rest are zero; with it every pixel takes its
     * interpolated colour.
     */
    method Resize(width: int32, height: int32, resampling: bool, bilinear: (int, int) -> Pixel) returns (r: Outcome<Exception>)
      requires textureData.Valid()
      modifies this, textureData
      ensures width <= 0 || height <= 0 ==>
        r == Fail(ArgumentException) && textureData == old(textureData) && unchanged(textureData)
      ensures width > 0 && height > 0 && old(textureData.width) == width && old(textureData.height) == height ==>
        r == Pass && textureData == old(textureData) && unchanged(textureData)
      ensures width > 0 && height > 0 && (old(textureData.width) != width || old(textureData.height) != height)
              && AllocationLength(width, height, old(textureData.channelCount)).Failure? ==>
        r == Fail(AllocationLength(width, height, old(textureData.channelCount)).error)
        && textureData == old(textureData) && unchanged(textureData)
      ensures width > 0 && height > 0 && (old(textureData.width) != width || old(textureData.height) != height)
              && AllocationLength(width, height, old(textureData.channelCount)).Success? ==>
        && r == Pass && fresh(textureData) && fresh(textureData.data) && textureData.Valid() && !textureData.disposed
        && textureData.width == width && textureData.height == height
        && textureData.format == old(textureData.format) && textureData.channelCount == old(textureData.channelCount)
        && old(textureData).disposed && old(textureData).Valid()
        && textureData.data[..]
           == if resampling then Resampled(width, height, textureData.channelCount, bilinear)
              else Cropped(old(textureData.data[..]), old(textureData.width), old(textureData.height), width, height, textureData.channelCount)
    {
      if width <= 0 || height <= 0 {
        return Fail(ArgumentException);
      }
      var oldTexData := textureData;
      if oldTexData.width == width && oldTexData.height == height {
        return Pass;
      }
      var created := NewTextureData(width, height, oldTexData.format);
      if created.Failure? {
        return Fail(created.error);
      }
      var newTexData := created.value;
      if !resampling {
        CopyShared(oldTexData, newTexData);
      } else {
        FillResampled(newTexData, bilinear);
      }
      textureData := newTexData;
      oldTexData.Dispose();
      r := Pass;
    }

    /** The operations the processor declares but does not implement throw and change nothing. */
    method Unimplemented(operation: UnimplementedOperation) returns (r: Outcome<Exception>)
      ensures r == Fail(NotImplementedException)
    {
      r := Fail(NotImplementedException);
    }
  }

  /** One row of the per-pixel loop: pixels 0 up to the width in row y, read, mapped by f and written back. */
  method MapRow(texture: TextureData, f: Pixel -> Pixel, y: int32, ghost original: seq<real>)
    requires texture.Valid() && 0 <= y < texture.height && |original| == texture.data.Length
    requires texture.data[..] == MappedPrefix(original, texture.channelCount, f, RowStart(y, texture.width))
    modifies texture.data
    ensures texture.data[..] == MappedPrefix(original, texture.channelCount, f, RowStart(y + 1, texture.width))
  {
    ghost var cc := texture.channelCount;
    ghost var n: nat := RowStart(y, texture.width);
    NextRow(y, texture.width, texture.height, cc);
    var x: int32 := 0;
    while x < texture.width
      invariant 0 <= x && (x == 0 || x <= texture.width)
      invariant n == RowStart(y, texture.width) + x
      invariant texture.data[..] == MappedPrefix(original, cc, f, n)
    {
      MapOne(texture, f, x, y, original, n);
      x := x + 1;
      n := n + 1;
    }
  }

  /** One step of the per-pixel loops: pixel (x, y), pixel number n, is read, mapped by f and set. */
  method MapOne(texture: TextureData, f: Pixel -> Pixel, x: int32, y: int32, ghost original: seq<real>, ghost n: nat)
    requires texture.Valid() && 0 <= x < texture.width && 0 <= y < texture.height && |original| == texture.data.Length
    requires n == RowStart(y, texture.width) + x
    requires texture.data[..] == MappedPrefix(original, texture.channelCount, f, n)
    modifies texture.data
    ensures texture.data[..] == MappedPrefix(original, texture.channelCount, f, n + 1)
  {
    MapStepAt(original, texture.channelCount, f, n, x, y, texture.width, texture.height);
    var pixel := texture.GetPixel(x, y);
    var _ := texture.SetPixel(x, y, f(pixel.value));
  }

  /** Resize's copy without resampling: each pixel the two sizes share, read from the old texture and set in the new one. */
  method CopyShared(source: TextureData, target: TextureData)
    requires source.Valid() && target.Valid() && source.channelCount == target.channelCount
    requires source.data != target.data && target.width > 0 && target.height > 0
    requires forall i :: 0 <= i < target.data.Length ==> target.data[i] == 0.0
    modifies target.data
    ensures target.data[..] == Cropped(source.data[..], source.width, source.height, target.width, target.height, target.channelCount)
  {
    ghost var cc := target.channelCount;
    ghost var oldPixels := OldPixels(source.data[..], source.width, source.height, cc);
    ghost var rows, cols := WindowSize(source.height, target.height), WindowSize(source.width, target.width);
    ghost var zeros := Zeros(target.width * target.height * cc);
    AllZeros(target.data[..]);
    var minWidth := if source.width < target.width then source.width else target.width;
    var minHeight := if source.height < target.height then source.height else target.height;
    var y: int32 := 0;
    while y < minHeight
      invariant 0 <= y && (y == 0 || y <= minHeight) && y <= rows
      invariant target.data[..] == FilledWindow(zeros, target.width, target.height, cc, oldPixels, y, cols)
    {
      CopyRow(source, target, y, minWidth);
      y := y + 1;
    }
    assert y == rows;
  }

  /** A buffer whose every lane is zero is the zero buffer of its length. */
  lemma AllZeros(buffer: seq<real>)
    requires forall i :: 0 <= i < |buffer| ==> buffer[i] == 0.0
    ensures buffer == Zeros(|buffer|)
  {
  }

  /** One row of the copy: pixels 0 up to the smaller width, read from the old texture and set in the new one. */
  method CopyRow(source: TextureData, target: TextureData, y: int32, minWidth: int32)
    requires source.Valid() && target.Valid() && source.channelCount == target.channelCount
    requires source.data != target.data && target.width > 0
    requires 0 <= y < source.height && y < target.height
    requires minWidth == if source.width < target.width then source.width else target.width
    modifies target.data
    ensures target.data[..] == FilledRow(old(target.data[..]), target.width, target.height, target.channelCount,
                                         OldPixels(source.data[..], source.width, source.height, target.channelCount),
                                         y, WindowSize(source.width, target.width))
  {
    ghost var start := target.data[..];
    ghost var oldPixels := OldPixels(source.data[..], source.width, source.height, target.channelCount);
    var x: int32 := 0;
    while x < minWidth
      invariant 0 <= x && (x == 0 || x <= minWidth) && x <= WindowSize(source.width, target.width)
      invariant target.data[..] == FilledRow(start, target.width, target.height, target.channelCount, oldPixels, y, x)
    {
      var pixel := source.GetPixel(x, y);
      var _ := target.SetPixel(x, y, pixel.value);
      x := x + 1;
    }
  }

  /** Resize's resampling loop: every pixel of the new texture is set to its interpolated colour. */
  method FillResampled(target: TextureData, bilinear: (int, int) -> Pixel)
    requires target.Valid() && target.width > 0 && target.height > 0
    requires forall i :: 0 <= i < target.data.Length ==> target.data[i] == 0.0
    modifies target.data
    ensures target.data[..] == Resampled(target.width, target.height, target.channelCount, bilinear)
  {
    ghost var zeros := Zeros(target.width * target.height * target.channelCount);
    AllZeros(target.data[..]);
    var y: int32 := 0;
    while y < target.height
      invariant 0 <= y <= target.height
      invariant target.data[..] == FilledWindow(zeros, target.width, target.height, target.channelCount, bilinear, y, target.width)
    {
      ResampleRow(target, bilinear, y);
      y := y + 1;
    }
  }

  /** One row of the resampling loop. */
  method ResampleRow(target: TextureData, bilinear: (int, int) -> Pixel, y: int32)
    requires target.Valid() && target.width > 0 && 0 <= y < target.height
    modifies target.data
    ensures target.data[..] == FilledRow(old(target.data[..]), target.width, target.height, target.channelCount, bilinear, y, target.width)
  {
    ghost var start := target.data[..];
    var x: int32 := 0;
    while x < target.width
      invariant 0 <= x <= target.width
      invariant target.data[..] == FilledRow(start, target.width, target.height, target.channelCount, bilinear, y, x)
    {
      var _ := target.SetPixel(x, y, bilinear(x, y));
      x := x + 1;
    }
  }
}
