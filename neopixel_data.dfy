/**
 * The frame buffer of the Raspberry.Device WS28xx driver: nine code bytes per pixel and the
 * 30 zero reset bytes, written in place through the channel lookup table.
 */
module NeoPixelDatas {
  import opened DrawingColors
  import opened Ws2812
  import opened Wrappers

  class NeoPixelData {
    const lookup: array<bv8>
    const data: array<bv8>

    /** The allocation behind Create once the buffer size is known to be non-negative. */
    constructor(count: int)
      requires FrameLength(count) >= 0
      ensures IsLookup(lookup) && data != lookup && fresh(data)
      ensures data[..] == Zeros(FrameLength(count))
    {
      var table := BuildLookup();
      lookup := table;
      data := new bv8[FrameLength(count)](_ => 0);
    }

    /**
     * new NeoPixelData(count): a buffer of count pixels and the reset delay, all zero; a
     * negative buffer size throws from the allocation.
     */
    static method Create(count: int) returns (r: Result<NeoPixelData, string>)
      ensures r.Err? <==> FrameLength(count) < 0
      ensures r.Ok? ==> fresh(r.value) && fresh(r.value.data) && IsLookup(r.value.lookup) && r.value.data != r.value.lookup
      ensures r.Ok? ==> r.value.data[..] == Zeros(FrameLength(count))
    {
      if FrameLength(count) < 0 {
        return Err("OverflowException");
      }
      var d := new NeoPixelData(count);
      r := Ok(d);
    }

    /** SetPixel: slot index gets the colour's G, R and B codes; no other byte changes. */
    method SetPixel(index: int, color: Color)
      requires IsLookup(lookup) && data != lookup
      requires 0 <= index && index * BytesPerPixel + BytesPerPixel <= data.Length
      modifies data
      ensures data[..] == Splice(old(data[..]), index * BytesPerPixel, PixelBytes(color))
      ensures Slot(data[..], index) == PixelBytes(color)
      ensures DecodePixel(Slot(data[..], index)) == (R(color), G(color), B(color))
    {
      WritePixel(data, lookup, index, color);
      SpliceEffect(old(data[..]), index * BytesPerPixel, PixelBytes(color));
      PixelRoundTrip(color);
    }
  }
}
