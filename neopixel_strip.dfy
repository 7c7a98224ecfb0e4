/**
 * A strip of WS2812 NeoPixels driven over SPI (Codebot.Raspberry.Device NeoPixelStrip): a list
 * of NeoPixel objects, each with a changed flag, and one frame buffer of nine code bytes per
 * pixel followed by 30 zero reset bytes. Update re-encodes the changed pixels and sends the
 * frame; the sent frames are kept as a log.
 */
module NeoPixelStrips {
  import opened DrawingColors
  import opened Ws2812
  import opened Wrappers
  import N = NeoPixels

  /** The frame buffer of a strip together with its lookup table of channel codes. */
  class PixelData {
    const lookup: array<bv8>
    var data: array?<bv8>

    constructor()
      ensures IsLookup(lookup) && data == null
    {
      var table := BuildLookup();
      lookup := table;
      data := null;
    }

    /** Resize: a new buffer of count pixels and the reset delay, all zero; a negative size throws. */
    method Resize(count: int) returns (r: Outcome<string>)
      modifies this
      ensures FrameLength(count) < 0 <==> r.Fail?
      ensures r.Fail? ==> data == old(data)
      ensures r.Pass? ==> data != null && fresh(data) && data[..] == Zeros(FrameLength(count))
    {
      if FrameLength(count) < 0 {
        return Fail("OverflowException");
      }
      data := new bv8[FrameLength(count)](_ => 0);
      r := Pass;
    }

    /** SetPixel: slot index of the buffer gets the colour's G, R and B codes, nothing else changes. */
    method SetPixel(index: int, color: Color)
      requires IsLookup(lookup) && data != null && data != lookup
      requires 0 <= index && index * BytesPerPixel + BytesPerPixel <= data.Length
      modifies data
      ensures data[..] == Splice(old(data[..]), index * BytesPerPixel, PixelBytes(color))
    {
      WritePixel(data, lookup, index, color);
    }
  }

  /**
   * List.RemoveRange(index, count): the range must lie inside the list, otherwise it throws
   * ArgumentOutOfRangeException; the list then loses exactly those count elements.
   */
  function RemoveRange<T>(s: seq<T>, index: int, count: int): (r: Result<seq<T>, string>)
    ensures r.Ok? <==> 0 <= index && 0 <= count && index + count <= |s|
    ensures r.Ok? ==> |r.value| == |s| - count && r.value[..index] == s[..index]
    ensures r.Ok? ==> forall k :: index <= k < |r.value| ==> r.value[k] == s[k + count]
  {
    if 0 <= index && 0 <= count && index + count <= |s| then Ok(s[..index] + s[index + count..])
    else Err("ArgumentOutOfRangeException")
  }

  /**
   * The Count setter as written removes RemoveRange(Count, value - Count): the range starts at
   * the end of the list with a negative length, so every shrink throws.
   */
  lemma AsWrittenShrinkThrows<T>(s: seq<T>, value: int)
    requires value < |s|
    ensures RemoveRange(s, |s|, value - |s|).Err?
  {
  }

  /** As intended, RemoveRange(value, Count - value) keeps exactly the first value elements. */
  lemma ShrinkKeepsPrefix<T>(s: seq<T>, value: int)
    requires 0 <= value <= |s|
    ensures RemoveRange(s, value, |s| - value) == Ok(s[..value])
  {
    var r := RemoveRange(s, value, |s| - value);
    assert r.value == s[..value];
  }

  /** The pixels of a list are distinct objects. */
  ghost predicate Distinct(ps: seq<N.NeoPixel>) {
    forall i, j :: 0 <= i < j < |ps| ==> ps[i] != ps[j]
  }

  class NeoPixelStrip {
    const pd: PixelData
    var pixels: seq<N.NeoPixel>
    /** The frames written to the SPI device, oldest first. */
    var sent: seq<seq<bv8>>
    var disposed: bool
    /** How many times the SPI device was disposed. */
    var deviceDisposals: nat

    /** The buffer exists whenever there are pixels, with the frame's length and zero reset bytes. */
    ghost predicate Shaped()
      reads this, pd, pd.lookup, pd.data
    {
      && IsLookup(pd.lookup)
      && (pd.data == null ==> |pixels| == 0)
      && (pd.data != null ==>
           && pd.data != pd.lookup
           && pd.data.Length == FrameLength(|pixels|)
           && forall k :: |pixels| * BytesPerPixel <= k < pd.data.Length ==> pd.data[k] == 0)
    }

    /** Every pixel whose changed flag is clear has its colour's bytes in its slot. */
    ghost predicate Clean()
      requires Shaped()
      reads this, pd, pd.lookup, pd.data, pixels
    {
      forall i :: 0 <= i < |pixels| && !pixels[i].changed ==> Slot(pd.data[..], i) == PixelBytes(pixels[i].color)
    }

    /** The strip's invariant: distinct pixels, a well-shaped buffer, and clean pixels encoded. */
    ghost predicate Valid()
      reads this, pd, pd.lookup, pd.data, pixels
    {
      Distinct(pixels) && Shaped() && Clean()
    }

    /** The bytes Update writes: the buffer, or nothing before the first resize. */
    function Buffer(): seq<bv8>
      reads this, pd, pd.data
    {
      if pd.data == null then [] else pd.data[..]
    }

    /**
     * The allocation behind Create once the count is known to be non-negative: a strip of
     * count black pixels, already encoded.
     */
    constructor(count: nat)
      ensures Valid() && fresh(pd) && !disposed && sent == [] && deviceDisposals == 0
      ensures |pixels| == count && forall i :: 0 <= i < count ==> pixels[i].color == Black && !pixels[i].changed
      ensures forall i :: 0 <= i < count ==> Slot(Buffer(), i) == PixelBytes(Black)
    {
      pd := new PixelData();
      pixels := [];
      sent := [];
      disposed := false;
      deviceDisposals := 0;
      new;
      var r := SetCount(count);
    }

    /**
     * new NeoPixelStrip(count): the Count setter runs on an empty list, so a negative count
     * reaches RemoveRange with a negative length and throws; any other count gives a strip of
     * count black pixels, each encoded into the buffer, with nothing sent yet.
     */
    static method Create(count: int) returns (r: Result<NeoPixelStrip, string>)
      ensures r.Err? <==> count < 0
      ensures r.Ok? ==> fresh(r.value) && fresh(r.value.pd) && r.value.Valid()
      ensures r.Ok? ==> !r.value.disposed && r.value.sent == [] && r.value.deviceDisposals == 0
      ensures r.Ok? ==> |r.value.pixels| == count && forall i :: 0 <= i < count ==>
        r.value.pixels[i].color == Black && !r.value.pixels[i].changed && Slot(r.value.Buffer(), i) == PixelBytes(Black)
    {
      if count < 0 {
        return Err("ArgumentOutOfRangeException");
      }
      var strip := new NeoPixelStrip(count);
      r := Ok(strip);
    }

    /** The Count getter. */
    function Count(): nat
      reads this
    {
      |pixels|
    }

    /** Appends new black pixels until there are n. */
    method Grow(n: nat)
      requires |pixels| <= n
      modifies this
      ensures |pixels| == n && pixels[..old(|pixels|)] == old(pixels)
      ensures forall i :: old(|pixels|) <= i < n ==> fresh(pixels[i]) && pixels[i].color == Black && pixels[i].changed
      ensures forall i, j :: old(|pixels|) <= i < j < n ==> pixels[i] != pixels[j]
      ensures sent == old(sent) && disposed == old(disposed) && deviceDisposals == old(deviceDisposals)
    {
      ghost var start := |pixels|;
      while |pixels| < n
        invariant start <= |pixels| <= n && pixels[..start] == old(pixels)
        invariant forall i :: start <= i < |pixels| ==> fresh(pixels[i]) && pixels[i].color == Black && pixels[i].changed
        invariant forall i, j :: start <= i < j < |pixels| ==> pixels[i] != pixels[j]
        invariant sent == old(sent) && disposed == old(disposed) && deviceDisposals == old(deviceDisposals)
        decreases n - |pixels|
      {
        var p := new N.NeoPixel.Default();
        pixels := pixels + [p];
      }
    }

    /** Encodes pixel i into its slot and clears its changed flag; no other pixel changes. */
    method EncodeOne(i: nat)
      requires IsLookup(pd.lookup) && pd.data != null && pd.data != pd.lookup
      requires pd.data.Length == FrameLength(|pixels|) && i < |pixels| && Distinct(pixels)
      modifies pd.data, pixels[i]
      ensures pd.data[..] == Splice(old(pd.data[..]), i * BytesPerPixel, PixelBytes(old(pixels[i].color)))
      ensures forall k :: 0 <= k < |pixels| ==> pixels[k].color == old(pixels[k].color)
      ensures forall k :: 0 <= k < |pixels| ==> pixels[k].changed == (k != i && old(pixels[k].changed))
    {
      var p := pixels[i];
      pd.SetPixel(i, p.color);
      p.changed := false;
    }

    /** Encodes every pixel into the buffer and clears every changed flag. */
    method EncodeAll()
      requires IsLookup(pd.lookup) && pd.data != null && pd.data != pd.lookup
      requires pd.data.Length == FrameLength(|pixels|) && Distinct(pixels)
      modifies pd.data, pixels
      ensures forall i :: 0 <= i < |pixels| ==> Slot(pd.data[..], i) == PixelBytes(pixels[i].color)
      ensures forall k :: |pixels| * BytesPerPixel <= k < pd.data.Length ==> pd.data[k] == old(pd.data[k])
      ensures forall i :: 0 <= i < |pixels| ==> pixels[i].color == old(pixels[i].color) && !pixels[i].changed
    {
      ghost var colors := seq(|pixels|, k requires 0 <= k < |pixels| reads this, pixels => pixels[k].color);
      ghost var before := pd.data[..];
      ghost var current := before;
      var i := 0;
      while i < |pixels|
        invariant 0 <= i <= |pixels|
        invariant RefreshedUpTo(current, before, colors, AllSet(|pixels|), i) && pd.data[..] == current
        invariant forall k :: 0 <= k < |pixels| ==> pixels[k].color == colors[k]
        invariant forall k :: 0 <= k < i ==> !pixels[k].changed
      {
        EncodeOne(i);
        RefreshWrite(current, before, colors, AllSet(|pixels|), i);
        current := Splice(current, i * BytesPerPixel, PixelBytes(colors[i]));
        i := i + 1;
      }
    }

    /**
     * The Count setter as written. The same count does nothing. A larger count appends black
     * pixels, reallocates the buffer, encodes every pixel and clears every changed flag. A
     * smaller or negative count reaches RemoveRange(Count, value - Count), which throws before
     * anything has changed.
     */
    method SetCountAsWritten(value: int) returns (r: Outcome<string>)
      requires Valid()
      modifies this, pd, pixels
      ensures Valid() && sent == old(sent) && disposed == old(disposed) && deviceDisposals == old(deviceDisposals)
      ensures r.Fail? <==> value < old(|pixels|)
      ensures value <= old(|pixels|) ==> pixels == old(pixels) && pd.data == old(pd.data) && unchanged(pixels)
      ensures value > old(|pixels|) ==>
        && |pixels| == value && pixels[..old(|pixels|)] == old(pixels)
        && (forall i :: 0 <= i < old(|pixels|) ==> pixels[i].color == old(pixels[i].color))
        && (forall i :: old(|pixels|) <= i < value ==> fresh(pixels[i]) && pixels[i].color == Black)
        && (forall i :: 0 <= i < value ==> !pixels[i].changed && Slot(Buffer(), i) == PixelBytes(pixels[i].color))
    {
      if value == |pixels| {
        return Pass;
      }
      if value < |pixels| {
        var removed := RemoveRange(pixels, |pixels|, value - |pixels|);
        return Fail(removed.error);
      }
      Grow(value);
      var resized := pd.Resize(value);
      EncodeAll();
      r := Pass;
    }

    /**
     * The Count setter corrected to remove RemoveRange(value, Count - value). The same count does
     * nothing and a negative one throws before anything changes. Any other count keeps the
     * first pixels, drops those past it or appends black ones, reallocates the buffer and
     * encodes every remaining pixel with its changed flag cleared.
     */
    method SetCount(value: int) returns (r: Outcome<string>)
      requires Valid()
      modifies this, pd, pixels
      ensures Valid() && sent == old(sent) && disposed == old(disposed) && deviceDisposals == old(deviceDisposals)
      ensures r.Fail? <==> value < 0
      ensures r.Fail? || value == old(|pixels|) ==> pixels == old(pixels) && pd.data == old(pd.data) && unchanged(pixels)
      ensures r.Pass? && value != old(|pixels|) ==>
        && |pixels| == value && |Buffer()| == FrameLength(value)
        && (value < old(|pixels|) ==> pixels == old(pixels)[..value])
        && (value > old(|pixels|) ==> pixels[..old(|pixels|)] == old(pixels))
        && (forall i :: 0 <= i < value && i < old(|pixels|) ==> pixels[i].color == old(pixels[i].color))
        && (forall i :: old(|pixels|) <= i < value ==> fresh(pixels[i]) && pixels[i].color == Black)
        && (forall i :: 0 <= i < value ==> !pixels[i].changed && Slot(Buffer(), i) == PixelBytes(pixels[i].color))
    {
      if value == |pixels| {
        return Pass;
      }
      if |pixels| < value {
        Grow(value);
      } else {
        var removed := RemoveRange(pixels, value, |pixels| - value);
        if removed.Err? {
          return Fail(removed.error);
        }
        ShrinkKeepsPrefix(pixels, value);
        pixels := removed.value;
      }
      Rebuild();
      r := Pass;
    }

    /** The end of the Count setter: a new buffer for the pixels, every one of them encoded. */
    method Rebuild()
      requires Distinct(pixels) && IsLookup(pd.lookup)
      modifies pd, pixels
      ensures Valid() && pd.data != null && fresh(pd.data) && |Buffer()| == FrameLength(|pixels|)
      ensures forall i :: 0 <= i < |pixels| ==> pixels[i].color == old(pixels[i].color) && !pixels[i].changed
      ensures forall i :: 0 <= i < |pixels| ==> Slot(Buffer(), i) == PixelBytes(pixels[i].color)
    {
      var resized := pd.Resize(|pixels|);
      EncodeAll();
    }

    /** The indexer getter: the pixel object itself; an index out of range throws. */
    function Get(index: int): (r: Result<N.NeoPixel, string>)
      reads this
      ensures r.Ok? <==> 0 <= index < |pixels|
      ensures r.Ok? ==> r.value == pixels[index]
    {
      if 0 <= index < |pixels| then Ok(pixels[index]) else Err("ArgumentOutOfRangeException")
    }

    /**
     * The indexer setter: only the colour of value is copied into the pixel at index, which is
     * marked changed; an index out of range throws and changes nothing.
     */
    method Set(index: int, value: N.NeoPixel) returns (r: Outcome<string>)
      requires Valid()
      modifies if 0 <= index < |pixels| then {pixels[index]} else {}
      ensures Valid() && (r.Pass? <==> 0 <= index < |pixels|)
      ensures r.Pass? ==> pixels[index].color == old(value.color) && pixels[index].changed
      ensures forall k :: 0 <= k < |pixels| && k != index ==>
        pixels[k].color == old(pixels[k].color) && pixels[k].changed == old(pixels[k].changed)
    {
      if !(0 <= index < |pixels|) {
        return Fail("ArgumentOutOfRangeException");
      }
      pixels[index].SetColor(value.color);
      r := Pass;
    }

    /** Reset: every pixel becomes the named black and is marked changed; the buffer is not touched. */
    method Reset()
      requires Valid()
      modifies pixels
      ensures Valid() && forall k :: 0 <= k < |pixels| ==> pixels[k].color == Black && pixels[k].changed
    {
      var i := 0;
      while i < |pixels|
        invariant 0 <= i <= |pixels|
        invariant forall k :: 0 <= k < i ==> pixels[k].color == Black && pixels[k].changed
        invariant forall k :: i <= k < |pixels| ==>
          pixels[k].color == old(pixels[k].color) && pixels[k].changed == old(pixels[k].changed)
      {
        pixels[i].SetColor(Black);
        i := i + 1;
      }
    }

    /**
     * Update: every pixel whose changed flag is set is re-encoded into its slot and its flag
     * cleared; the slots of the other pixels keep their bytes. Then the whole buffer is written
     * to the device, so every slot it sends holds its pixel's colour.
     */
    method Update() returns (ok: bool)
      requires Valid()
      modifies this, pd.data, pixels
      ensures Valid() && ok && pixels == old(pixels) && disposed == old(disposed)
      ensures deviceDisposals == old(deviceDisposals) && sent == old(sent) + [Buffer()]
      ensures |Buffer()| == old(|Buffer()|)
      ensures forall i :: 0 <= i < |pixels| ==> pixels[i].color == old(pixels[i].color) && !pixels[i].changed
      ensures forall i :: 0 <= i < |pixels| ==> Slot(Buffer(), i) == PixelBytes(pixels[i].color)
      ensures forall i :: 0 <= i < |pixels| && !old(pixels[i].changed) ==> Slot(Buffer(), i) == Slot(old(Buffer()), i)
    {
      if pd.data != null {
        Refresh();
      }
      sent := sent + [Buffer()];
      ok := true;
    }

    /** The loop of Update: re-encodes the changed pixels and clears their flags. */
    method Refresh()
      requires Valid() && pd.data != null
      modifies pd.data, pixels
      ensures Valid()
      ensures forall i :: 0 <= i < |pixels| ==> pixels[i].color == old(pixels[i].color) && !pixels[i].changed
      ensures forall i :: 0 <= i < |pixels| ==> Slot(pd.data[..], i) == PixelBytes(pixels[i].color)
      ensures forall i :: 0 <= i < |pixels| && !old(pixels[i].changed) ==> Slot(pd.data[..], i) == Slot(old(pd.data[..]), i)
    {
      ghost var colors := seq(|pixels|, k requires 0 <= k < |pixels| reads this, pixels => pixels[k].color);
      ghost var flags := seq(|pixels|, k requires 0 <= k < |pixels| reads this, pixels => pixels[k].changed);
      ghost var before := pd.data[..];
      ghost var current := before;
      var i := 0;
      while i < |pixels|
        invariant 0 <= i <= |pixels|
        invariant RefreshedUpTo(current, before, colors, flags, i) && pd.data[..] == current
        invariant forall k :: 0 <= k < |pixels| ==> pixels[k].color == colors[k]
        invariant forall k :: 0 <= k < |pixels| ==> pixels[k].changed == (i <= k && flags[k])
      {
        if pixels[i].changed {
          EncodeOne(i);
          RefreshWrite(current, before, colors, flags, i);
          current := Splice(current, i * BytesPerPixel, PixelBytes(colors[i]));
        } else {
          RefreshSkip(current, before, colors, flags, i);
        }
        i := i + 1;
      }
    }

    /** Dispose: the device is disposed on the first call only. */
    method Dispose()
      modifies this
      ensures disposed && deviceDisposals == old(deviceDisposals) + (if old(disposed) then 0 else 1)
      ensures pixels == old(pixels) && sent == old(sent)
    {
      if !disposed {
        deviceDisposals := deviceDisposals + 1;
      }
      disposed := true;
    }
  }
}
