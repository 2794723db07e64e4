/**
 * The CPU texture buffer (Editor/Models/TextureData.cs): width × height pixels of channelCount float
 * lanes each, stored row by row in one native array, read and written a pixel (one v128) at a time.
 * Float lanes are modelled as reals: the buffer only stores, copies and clears them.
 */
module TextureBuffers {
  import opened Outcomes
  import opened Numerics

  /** The formats a buffer holds or converts to; OtherFormat stands for every other Unity format. */
  datatype TextureFormat = R8 | Alpha8 | RGB24 | RGBA32 | RGBAFloat | OtherFormat

  /**
   * GetChannelCount: the lanes a pixel of the format has, at most the four lanes of a v128; any
   * format outside the supported ones throws NotSupportedException.
   */
  function ChannelCount(format: TextureFormat): (r: Result<nat, Exception>)
    ensures r.Failure? <==> format == OtherFormat
    ensures r.Failure? ==> r.error == NotSupportedException
    ensures r.Success? ==> 1 <= r.value <= 4
  {
    match format
    case R8 => Success(1)
    case Alpha8 => Success(1)
    case RGB24 => Success(3)
    case RGBA32 => Success(4)
    case RGBAFloat => Success(4)
    case OtherFormat => Failure(NotSupportedException)
  }

  /** A v128 seen as four float lanes. */
  type Pixel = p: seq<real> | |p| == 4 witness [0.0, 0.0, 0.0, 0.0]

  /** The first lane of pixel (x, y) in a buffer of the given row width. */
  function PixelIndex(x: int, y: int, width: int, channelCount: nat): int {
    (y * width + x) * channelCount
  }

  /** An in-bounds pixel's lanes lie inside a buffer of width × height pixels. */
  lemma PixelIndexInBounds(x: int, y: int, width: int, height: int, channelCount: nat)
    requires 0 <= x < width && 0 <= y < height
    ensures 0 <= PixelIndex(x, y, width, channelCount)
    ensures PixelIndex(x, y, width, channelCount) + channelCount <= width * height * channelCount
  {
    var p := y * width + x;
    MulMonotone(0, y, width);
    MulMonotone(y, height - 1, width);
    assert (height - 1) * width == height * width - width;
    assert 0 <= p && p + 1 <= width * height;
    MulMonotone(p + 1, width * height, channelCount);
    MulMonotone(0, p, channelCount);
    assert (p + 1) * channelCount == p * channelCount + channelCount;
  }

  lemma MulMonotone(a: int, b: int, c: int)
    requires a <= b && 0 <= c
    ensures a * c <= b * c
  {
    assert b * c - a * c == (b - a) * c;
  }

  /** The pixel GetPixel reads at a lane index: the first channelCount lanes, zero in the rest. */
  function ReadPixel(buffer: seq<real>, index: int, channelCount: nat): (p: Pixel)
    requires 0 <= index && index + channelCount <= |buffer| && channelCount <= 4
  {
    seq(4, k requires 0 <= k < 4 => if k < channelCount then buffer[index + k] else 0.0)
  }

  /** The buffer after SetPixel at a lane index: the first channelCount lanes of the value replace the pixel's. */
  function WritePixel(buffer: seq<real>, index: int, channelCount: nat, value: Pixel): (r: seq<real>)
    requires 0 <= index && index + channelCount <= |buffer| && channelCount <= 4
  {
    buffer[..index] + value[..channelCount] + buffer[index + channelCount..]
  }

  /**
   * Reading a pixel back gives the lanes just written (zero beyond channelCount); every lane
   * outside the pixel keeps its value, and the buffer keeps its length.
   */
  lemma ReadAfterWrite(buffer: seq<real>, index: int, channelCount: nat, value: Pixel)
    requires 0 <= index && index + channelCount <= |buffer| && channelCount <= 4
    ensures |WritePixel(buffer, index, channelCount, value)| == |buffer|
    ensures ReadPixel(WritePixel(buffer, index, channelCount, value), index, channelCount)
            == seq(4, k requires 0 <= k < 4 => if k < channelCount then value[k] else 0.0)
    ensures forall i :: 0 <= i < |buffer| && !(index <= i < index + channelCount) ==>
              WritePixel(buffer, index, channelCount, value)[i] == buffer[i]
  {
    var r := WritePixel(buffer, index, channelCount, value);
    assert forall k :: 0 <= k < channelCount ==> r[index + k] == value[k];
  }

  /** Lane k of a pixel just written holds lane k of the value written. */
  lemma WrittenLane(buffer: seq<real>, index: int, channelCount: nat, value: Pixel, k: nat)
    requires 0 <= index && index + channelCount <= |buffer| && channelCount <= 4 && k < channelCount
    ensures WritePixel(buffer, index, channelCount, value)[index + k] == value[k]
  {
    assert (buffer[..index] + value[..channelCount])[index + k] == value[k];
  }

  /** A lane outside the pixel written keeps its value. */
  lemma UnwrittenLane(buffer: seq<real>, index: int, channelCount: nat, value: Pixel, i: int)
    requires 0 <= index && index + channelCount <= |buffer| && channelCount <= 4
    requires 0 <= i < |buffer| && !(index <= i < index + channelCount)
    ensures WritePixel(buffer, index, channelCount, value)[i] == buffer[i]
  {
    ReadAfterWrite(buffer, index, channelCount, value);
  }

  /** Lane k of a pixel read is the buffer's lane at the pixel's index plus k. */
  lemma ReadLane(buffer: seq<real>, index: int, channelCount: nat, k: nat)
    requires 0 <= index && index + channelCount <= |buffer| && channelCount <= 4 && k < channelCount
    ensures ReadPixel(buffer, index, channelCount)[k] == buffer[index + k]
  {
  }

  /** ⌈n / 4⌉ as Convert computes it: the fewest groups of four that hold n elements. */
  function QuarterRoundedUp(n: nat): (r: nat)
    ensures n <= 4 * r < n + 4
  {
    n / 4 + (if n % 4 > 0 then 1 else 0)
  }

  /** The four bytes Convert packs for group g: the quantised elements 4g .. 4g+3, zero past the end. */
  function GroupBytes(data: seq<real>, g: nat, quantize: real -> bv8): (r: seq<bv8>)
    ensures |r| == 4
  {
    seq(4, j requires 0 <= j < 4 => if 4 * g + j < |data| then quantize(data[4 * g + j]) else 0)
  }

  /** Every element lands in its own byte of its group, and the padding bytes are zero. */
  lemma GroupBytesCover(data: seq<real>, i: nat, quantize: real -> bv8)
    ensures GroupBytes(data, i / 4, quantize)[i % 4] == if i < |data| then quantize(data[i]) else 0
  {
    assert 4 * (i / 4) + i % 4 == i;
  }

  /** The byte-format conversion: one float holding four packed bytes per group of four elements. */
  function Packed(data: seq<real>, quantize: real -> bv8, pack: seq<bv8> -> real): (r: seq<real>)
    ensures |r| == QuarterRoundedUp(|data|)
  {
    seq(QuarterRoundedUp(|data|), g requires 0 <= g < QuarterRoundedUp(|data|) => pack(GroupBytes(data, g, quantize)))
  }

  /** The allocation length as written: unchecked int arithmetic, so a large texture wraps around. */
  function AllocationLengthAsWritten(width: int32, height: int32, channelCount: nat): int32 {
    WrapInt32(width * height * channelCount)
  }

  /**
   * As written, a 65536 × 65536 single-channel texture allocates an empty buffer, although pixel
   * (0, 0) passes the bounds check: its lane lies outside the buffer.
   */
  lemma AllocationWrapsAsWritten()
    ensures AllocationLengthAsWritten(65536, 65536, 1) == 0
    ensures 0 < 65536 && PixelIndex(0, 0, 65536, 1) + 1 > AllocationLengthAsWritten(65536, 65536, 1)
  {
    assert 65536 * 65536 * 1 == TWO_TO_THE_32;
  }

  /** The allocation with checked arithmetic: the length, or the exception creating the buffer throws. */
  function AllocationLength(width: int32, height: int32, channelCount: nat): (r: Result<nat, Exception>)
    ensures r.Success? ==> r.value == width * height * channelCount && r.value <= INT32_MAX
    ensures r.Failure? <==> !(0 <= width * height * channelCount <= INT32_MAX)
    ensures INT32_MIN <= width * height * channelCount < 0 ==> r == Failure(ArgumentOutOfRangeException)
  {
    var n := width * height * channelCount;
    if n < INT32_MIN || INT32_MAX < n then Failure(OverflowException)
    else if n < 0 then Failure(ArgumentOutOfRangeException)
    else Success(n)
  }

  /** The two agree whenever the checked one succeeds. */
  lemma AllocationAgreesWithoutOverflow(width: int32, height: int32, channelCount: nat)
    requires AllocationLength(width, height, channelCount).Success?
    ensures AllocationLengthAsWritten(width, height, channelCount) == AllocationLength(width, height, channelCount).value
  {
  }

  class TextureData {
    const width: int32
    const height: int32
    const channelCount: nat
    const format: TextureFormat
    /** The native array: its reference never changes, its elements do. */
    const data: array<real>
    var disposed: bool
    /** How often the native array has been released. */
    ghost var releases: nat

    ghost predicate Valid()
      reads this
    {
      && ChannelCount(format) == Success(channelCount)
      && data.Length == width * height * channelCount
      && data.Length <= INT32_MAX
      && releases == (if disposed then 1 else 0)
    }

    /** The allocation itself, once the channel count and the length are known to be good: all lanes zero. */
    constructor Allocate(width: int32, height: int32, format: TextureFormat, channelCount: nat)
      requires ChannelCount(format) == Success(channelCount)
      requires AllocationLength(width, height, channelCount).Success?
      ensures Valid() && fresh(data) && !disposed
      ensures this.width == width && this.height == height && this.format == format && this.channelCount == channelCount
      ensures forall i :: 0 <= i < data.Length ==> data[i] == 0.0
    {
      this.width := width;
      this.height := height;
      this.format := format;
      this.channelCount := channelCount;
      data := new real[width * height * channelCount](_ => 0.0);
      disposed := false;
      releases := 0;
    }

    predicate InBounds(x: int, y: int) {
      0 <= x < width && 0 <= y < height
    }

    /** GetIndex: the first lane of pixel (x, y); an in-bounds pixel's lanes are inside the buffer. */
    function GetIndex(x: int, y: int): (r: int)
      ensures 0 <= x < width && 0 <= y < height ==> 0 <= r && r + channelCount <= width * height * channelCount
    {
      PixelIndexInBounds2(x, y);
      PixelIndex(x, y, width, channelCount)
    }

    lemma PixelIndexInBounds2(x: int, y: int)
      ensures 0 <= x < width && 0 <= y < height ==>
        0 <= PixelIndex(x, y, width, channelCount) && PixelIndex(x, y, width, channelCount) + channelCount <= width * height * channelCount
    {
      if 0 <= x < width && 0 <= y < height {
        PixelIndexInBounds(x, y, width, height, channelCount);
      }
    }

    /** SetPixel: an out-of-range pixel throws; otherwise its channelCount lanes take the value's, and nothing else changes. */
    method SetPixel(x: int32, y: int32, value: Pixel) returns (r: Outcome<Exception>)
      requires Valid()
      modifies data
      ensures !InBounds(x, y) ==> r == Fail(ArgumentOutOfRangeException) && data[..] == old(data[..])
      ensures InBounds(x, y) ==> r == Pass && data[..] == WritePixel(old(data[..]), GetIndex(x, y), channelCount, value)
    {
      if x < 0 || x >= width || y < 0 || y >= height {
        return Fail(ArgumentOutOfRangeException);
      }
      var index := GetIndex(x, y);
      forall k | 0 <= k < channelCount {
        data[index + k] := value[k];
      }
      assert data[..] == WritePixel(old(data[..]), index, channelCount, value);
      r := Pass;
    }

    /** GetPixel: an out-of-range pixel throws; otherwise its lanes, with zero in the lanes past channelCount. */
    method GetPixel(x: int32, y: int32) returns (r: Result<Pixel, Exception>)
      requires Valid()
      ensures !InBounds(x, y) ==> r == Failure(ArgumentOutOfRangeException)
      ensures InBounds(x, y) ==> r == Success(ReadPixel(data[..], GetIndex(x, y), channelCount))
    {
      if x < 0 || x >= width || y < 0 || y >= height {
        return Failure(ArgumentOutOfRangeException);
      }
      var index := GetIndex(x, y);
      var temp := new real[4](_ => 0.0);
      forall k | 0 <= k < channelCount {
        temp[k] := data[index + k];
      }
      assert temp[..] == ReadPixel(data[..], index, channelCount);
      r := Success(temp[..]);
    }

    /** MakeUniqueForWrite: a new texture of the same size and format whose own array holds the same lanes. */
    method MakeUniqueForWrite() returns (copy: TextureData)
      requires Valid()
      ensures fresh(copy) && fresh(copy.data) && copy.Valid() && !copy.disposed
      ensures copy.width == width && copy.height == height && copy.format == format && copy.channelCount == channelCount
      ensures copy.data[..] == data[..]
    {
      copy := new TextureData.Allocate(width, height, format, channelCount);
      forall i | 0 <= i < data.Length {
        copy.data[i] := data[i];
      }
    }

    /**
     * Convert: for a byte format, one float of four packed bytes per four elements; for RGBAFloat, a
     * copy; any other format throws NotSupportedException. quantize is the clamp-and-scale of a lane
     * to a byte, pack the reinterpretation of four bytes as a float.
     */
    method Convert(target: TextureFormat, quantize: real -> bv8, pack: seq<bv8> -> real)
      returns (r: Result<array<real>, Exception>)
      requires Valid()
      ensures target == OtherFormat ==> r == Failure(NotSupportedException)
      ensures target == RGBAFloat ==> r.Success? && fresh(r.value) && r.value[..] == data[..]
      ensures target in {R8, Alpha8, RGB24, RGBA32} ==> r.Success? && fresh(r.value) && r.value[..] == Packed(data[..], quantize, pack)
    {
      match target {
        case OtherFormat =>
          return Failure(NotSupportedException);
        case RGBAFloat =>
          var floatResult := new real[data.Length](i requires 0 <= i < data.Length reads data => data[i]);
          return Success(floatResult);
        case _ =>
          var byteResult := PackBytes(quantize, pack);
          return Success(byteResult);
      }
    }

    /** The byte branch of Convert: the outer loop steps through the buffer four elements at a time. */
    method PackBytes(quantize: real -> bv8, pack: seq<bv8> -> real) returns (byteResult: array<real>)
      ensures fresh(byteResult) && byteResult[..] == Packed(data[..], quantize, pack)
    {
      byteResult := new real[data.Length / 4 + (if data.Length % 4 > 0 then 1 else 0)];
      var bytes := new bv8[4];
      assert byteResult.Length == QuarterRoundedUp(data.Length);
      var i := 0;
      ghost var group := 0;
      while i < data.Length
        invariant i == 4 * group && 0 <= group <= byteResult.Length
        invariant i >= data.Length ==> group == byteResult.Length
        invariant forall g :: 0 <= g < group ==> byteResult[g] == pack(GroupBytes(data[..], g, quantize))
        decreases data.Length - i
      {
        assert i / 4 == group;
        for j := 0 to 4
          invariant forall k :: 0 <= k < j ==> bytes[k] == GroupBytes(data[..], i / 4, quantize)[k]
          invariant forall g :: 0 <= g < group ==> byteResult[g] == pack(GroupBytes(data[..], g, quantize))
        {
          if i + j < data.Length {
            bytes[j] := quantize(data[i + j]);
          } else {
            bytes[j] := 0;
          }
        }
        assert bytes[..] == GroupBytes(data[..], i / 4, quantize);
        byteResult[i / 4] := pack(bytes[..]);
        i := i + 4;
        group := group + 1;
      }
      assert byteResult[..] == Packed(data[..], quantize, pack);
    }

    /** Dispose: the first call releases the native array and marks the texture disposed; a later call does nothing. */
    method Dispose()
      requires Valid()
      modifies this
      ensures Valid() && disposed && releases == 1
      ensures old(disposed) ==> releases == old(releases)
    {
      if disposed {
        return;
      }
      releases := releases + 1;
      disposed := true;
    }
  }

  /**
   * The TextureData constructor, with the allocation length computed in checked arithmetic: an
   * unsupported format throws NotSupportedException, a negative length ArgumentOutOfRangeException,
   * and a length beyond the int range OverflowException.
   */
  method NewTextureData(width: int32, height: int32, format: TextureFormat) returns (r: Result<TextureData, Exception>)
    ensures ChannelCount(format).Failure? ==> r == Failure(NotSupportedException)
    ensures ChannelCount(format).Success? && AllocationLength(width, height, ChannelCount(format).value).Failure? ==>
      r == Failure(AllocationLength(width, height, ChannelCount(format).value).error)
    ensures ChannelCount(format).Success? && AllocationLength(width, height, ChannelCount(format).value).Success? ==>
      && r.Success? && fresh(r.value) && fresh(r.value.data) && r.value.Valid() && !r.value.disposed
      && r.value.width == width && r.value.height == height && r.value.format == format
      && r.value.channelCount == ChannelCount(format).value
      && forall i :: 0 <= i < r.value.data.Length ==> r.value.data[i] == 0.0
  {
    var channelCount := ChannelCount(format);
    if channelCount.Failure? {
      return Failure(channelCount.error);
    }
    var length := AllocationLength(width, height, channelCount.value);
    if length.Failure? {
      return Failure(length.error);
    }
    var texture := new TextureData.Allocate(width, height, format, channelCount.value);
    r := Success(texture);
  }
}
