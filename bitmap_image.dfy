/**
 * The WS28xx bitmap image of the Raspberry library: a row of width pixels encoded into nine
 * code bytes each, followed by the 30 zero reset bytes.
 */
module BitmapImages {
  import opened DrawingColors
  import opened Ws2812
  import opened Wrappers

  class BitmapImage {
    const width: int
    const lookup: array<bv8>
    const data: array<bv8>

    /** The allocation behind Create once the buffer size is known to be non-negative. */
    constructor(width: int)
      requires FrameLength(width) >= 0
      ensures this.width == width && IsLookup(lookup) && data != lookup && fresh(data)
      ensures data[..] == Zeros(FrameLength(width))
    {
      var table := BuildLookup();
      lookup := table;
      data := new bv8[FrameLength(width)](_ => 0);
      this.width := width;
    }

    /**
     * new BitmapImage(width): the buffer has width pixels and the reset delay, all zero, and the
     * width never changes; a negative buffer size throws from the allocation.
     */
    static method Create(width: int) returns (r: Result<BitmapImage, string>)
      ensures r.Err? <==> FrameLength(width) < 0
      ensures r.Ok? ==> fresh(r.value) && fresh(r.value.data) && r.value.width == width
      ensures r.Ok? ==> IsLookup(r.value.lookup) && r.value.data != r.value.lookup
      ensures r.Ok? ==> r.value.data[..] == Zeros(FrameLength(width))
    {
      if FrameLength(width) < 0 {
        return Err("OverflowException");
      }
      var image := new BitmapImage(width);
      r := Ok(image);
    }

    /** SetPixel: slot x gets the colour's G, R and B codes; no other byte changes. */
    method SetPixel(x: int, color: Color)
      requires IsLookup(lookup) && data != lookup
      requires 0 <= x && x * BytesPerPixel + BytesPerPixel <= data.Length
      modifies data
      ensures data[..] == Splice(old(data[..]), x * BytesPerPixel, PixelBytes(color))
    {
      WritePixel(data, lookup, x, color);
    }

    /**
     * Clear: every slot below the width holds the colour's bytes; the bytes after them, the
     * reset delay among them, keep their values.
     */
    method Clear(color: Color)
      requires IsLookup(lookup) && data != lookup && data.Length == FrameLength(width)
      modifies data
      ensures forall x :: 0 <= x < width ==> Slot(data[..], x) == PixelBytes(color)
      ensures forall k :: 0 <= width && width * BytesPerPixel <= k < data.Length ==> data[k] == old(data[k])
    {
      var n: nat := if width < 0 then 0 else width;
      ghost var colors := Repeat(color, n);
      ghost var before := data[..];
      var x := 0;
      while x < width
        invariant 0 <= x <= n
        invariant RefreshedUpTo(data[..], before, colors, AllSet(n), x)
      {
        RefreshWrite(data[..], before, colors, AllSet(n), x);
        SetPixel(x, color);
        x := x + 1;
      }
    }
  }

  /** A cleared new image is exactly the frame of width copies of the colour. */
  method ClearedImage(width: nat, color: Color) returns (image: BitmapImage)
    ensures fresh(image) && image.width == width && image.data[..] == Frame(Repeat(color, width))
  {
    image := new BitmapImage(width);
    image.Clear(color);
    FrameUnique(image.data[..], Repeat(color, width));
  }
}
