/**
 * The pixel buffer of the Raspberry.Device WS28xx driver: a count, a buffer of nine code bytes
 * per pixel and 30 zero reset bytes, and the channel lookup table.
 */
module PixelBuffers {
  import opened DrawingColors
  import opened Ws2812
  import opened Wrappers

  /**
   * The eight bytes SetPixel writes as the source has it: the first two green code bytes, then
   * the red and blue codes. Green's third code byte is never written.
   */
  function AsWrittenBytes(c: Color): (s: seq<bv8>)
    ensures |s| == 8
  {
    EncodeChannel(G(c))[..2] + EncodeChannel(R(c)) + EncodeChannel(B(c))
  }

  /**
   * With the eight bytes as written, pure red reads back with green 7 rather than 0, whatever
   * the slot's last byte held: the red code has slipped into green's place.
   */
  lemma AsWrittenRedMisreads(last: bv8)
    ensures DecodePixel(AsWrittenBytes(FromRgb(255, 0, 0)) + [last]).1 == 7
  {
    assert EncodeChannel(0) == [0x92, 0x49, 0x24];
    assert EncodeChannel(255) == [0xDB, 0x6D, 0xB6];
    var s := AsWrittenBytes(FromRgb(255, 0, 0)) + [last];
    assert s[0..3] == [0x92, 0x49, 0xDB];
  }

  /** The written slot of pure red does not read back as pure red. */
  lemma AsWrittenLosesColor(last: bv8)
    ensures DecodePixel(AsWrittenBytes(FromRgb(255, 0, 0)) + [last]) != (255, 0, 0)
  {
    AsWrittenRedMisreads(last);
  }

  /** The first two code bytes of a channel, copied from the table to the offset. */
  method WriteLeadingTwo(data: array<bv8>, lookup: array<bv8>, offset: int, x: bv8)
    requires IsLookup(lookup) && data != lookup
    requires 0 <= offset && offset + 2 <= data.Length
    modifies data
    ensures data[..] == Splice(old(data[..]), offset, EncodeChannel(x)[..2])
  {
    assert HoldsCode(lookup[..], x);
    data[offset] := lookup[x as int * BytesPerComponent + 0];
    data[offset + 1] := lookup[x as int * BytesPerComponent + 1];
  }

  class Pixels {
    const lookup: array<bv8>
    var count: int
    var data: array?<bv8>

    /** The buffer matches the count, or is missing while the count is still 0. */
    ghost predicate Valid()
      reads this, lookup
    {
      && IsLookup(lookup)
      && (data == null ==> count == 0)
      && (data != null ==> data != lookup && data.Length == FrameLength(count))
    }

    /** The allocation behind Create once the count's buffer size is known to be non-negative. */
    constructor(count: int)
      requires FrameLength(count) >= 0
      ensures Valid() && this.count == count
      ensures count != 0 ==> data != null && fresh(data)
      ensures count != 0 ==> forall i :: 0 <= i < count ==> Slot(data[..], i) == PixelBytes(Empty)
    {
      var table := BuildLookup();
      lookup := table;
      this.count := 0;
      data := null;
      new;
      var r := SetCount(count);
    }

    /**
     * new Pixels(count): the Count setter on an empty buffer. A count of 0 changes nothing; a
     * count whose buffer size is negative throws from the allocation; any other count gives a
     * buffer holding the empty colour's bytes in every slot.
     */
    static method Create(count: int) returns (r: Result<Pixels, string>)
      ensures r.Err? <==> count != 0 && FrameLength(count) < 0
      ensures r.Ok? ==> fresh(r.value) && r.value.Valid() && r.value.count == count
      ensures r.Ok? && count != 0 ==> r.value.data != null && fresh(r.value.data)
      ensures r.Ok? && count != 0 ==> forall i :: 0 <= i < count ==> Slot(r.value.data[..], i) == PixelBytes(Empty)
    {
      if count != 0 && FrameLength(count) < 0 {
        return Err("OverflowException");
      }
      var p := new Pixels(count);
      r := Ok(p);
    }

    /** The indexer getter: always the named black, whatever is stored. */
    function Get(index: int): (c: Color)
      ensures c == Black && c != FromRgb(0, 0, 0)
    {
      Black
    }

    /**
     * SetPixel as the source writes it: eight bytes from slot index, green's third code byte
     * left out, so the ninth byte of the slot keeps its old value.
     */
    method SetPixelAsWritten(index: int, color: Color)
      requires IsLookup(lookup) && data != null && data != lookup
      requires 0 <= index && index * BytesPerPixel + BytesPerPixel <= data.Length
      modifies data
      ensures data[..] == Splice(old(data[..]), index * BytesPerPixel, AsWrittenBytes(color))
      ensures data[index * BytesPerPixel + 8] == old(data[index * BytesPerPixel + 8])
    {
      var offset := index * BytesPerPixel;
      ghost var before := data[..];
      var g := G(color);
      WriteLeadingTwo(data, lookup, offset, g);
      WriteChannel(data, lookup, offset + 2, R(color));
      WriteChannel(data, lookup, offset + 5, B(color));
      SpliceThree(before, offset, EncodeChannel(g)[..2], EncodeChannel(R(color)), EncodeChannel(B(color)));
      SpliceEffect(before, offset, AsWrittenBytes(color));
    }

    /** SetPixel corrected: the full nine bytes of the colour at slot index, nothing else changes. */
    method SetPixel(index: int, color: Color)
      requires IsLookup(lookup) && data != null && data != lookup
      requires 0 <= index && index * BytesPerPixel + BytesPerPixel <= data.Length
      modifies data
      ensures data[..] == Splice(old(data[..]), index * BytesPerPixel, PixelBytes(color))
      ensures DecodePixel(Slot(data[..], index)) == (R(color), G(color), B(color))
    {
      WritePixel(data, lookup, index, color);
      SpliceEffect(old(data[..]), index * BytesPerPixel, PixelBytes(color));
      PixelRoundTrip(color);
    }

    /** The indexer setter: SetPixel. */
    method Set(index: int, value: Color)
      requires IsLookup(lookup) && data != null && data != lookup
      requires 0 <= index && index * BytesPerPixel + BytesPerPixel <= data.Length
      modifies data
      ensures data[..] == Splice(old(data[..]), index * BytesPerPixel, PixelBytes(value))
    {
      SetPixel(index, value);
    }

    /** Clear: every slot below the count holds the colour's bytes; the later bytes are kept. */
    method Clear(color: Color)
      requires Valid()
      modifies data
      ensures forall i :: 0 <= i < count ==> Slot(data[..], i) == PixelBytes(color)
      ensures data != null ==> forall k :: 0 <= count && count * BytesPerPixel <= k < data.Length ==> data[k] == old(data[k])
    {
      if data == null {
        return;
      }
      var n: nat := if count < 0 then 0 else count;
      ghost var colors := Repeat(color, n);
      ghost var before := data[..];
      var i := 0;
      while i < count
        invariant 0 <= i <= n
        invariant RefreshedUpTo(data[..], before, colors, AllSet(n), i)
      {
        RefreshWrite(data[..], before, colors, AllSet(n), i);
        SetPixel(i, color);
        i := i + 1;
      }
    }

    /**
     * The Count setter. The same count does nothing. A new count is stored first; then a buffer
     * of that many pixels and the reset delay is allocated, which throws for a negative size,
     * and every pixel is cleared to the empty colour.
     */
    method SetCount(value: int) returns (r: Outcome<string>)
      requires Valid()
      modifies this
      ensures count == value && (r.Fail? <==> value != old(count) && FrameLength(value) < 0)
      ensures r.Fail? ==> data == old(data)
      ensures r.Pass? ==> Valid()
      ensures value == old(count) ==> data == old(data)
      ensures value != old(count) && r.Pass? ==>
        && data != null && fresh(data)
        && (forall i :: 0 <= i < count ==> Slot(data[..], i) == PixelBytes(Empty))
        && (forall k :: 0 <= count && count * BytesPerPixel <= k < data.Length ==> data[k] == 0)
    {
      if value == count {
        return Pass;
      }
      count := value;
      if FrameLength(value) < 0 {
        return Fail("OverflowException");
      }
      data := new bv8[FrameLength(value)](_ => 0);
      Clear(Empty);
      r := Pass;
    }
  }

  /** Resizing to a new count leaves exactly the frame of that many empty pixels. */
  method Resized(p: Pixels, value: nat) returns (r: Outcome<string>)
    requires p.Valid() && value != p.count
    modifies p
    ensures r.Pass? && p.data != null && p.data[..] == Frame(Repeat(Empty, value))
  {
    r := p.SetCount(value);
    FrameUnique(p.data[..], Repeat(Empty, value));
  }
}
