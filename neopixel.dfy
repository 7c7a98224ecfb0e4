/**
 * A NeoPixel of a strip: its colour and the Changed flag that tells the strip to re-encode
 * it, and the colour operations that assign a new colour (and so set the flag).
 */
module NeoPixels {
  import opened DrawingColors

  /** Math.Clamp(x + y, 0, 255) of two channels, computed without leaving the byte range. */
  function AddChannel(x: bv8, y: bv8): (s: bv8)
    ensures s >= x && s >= y
    ensures x <= 255 - y ==> s == x + y
    ensures x > 255 - y ==> s == 255
  {
    if x > 255 - y then 255 else x + y
  }

  /** Math.Clamp of a real to [lo, hi]. */
  function Clamp(v: real, lo: real, hi: real): (r: real)
    requires lo <= hi
    ensures lo <= r <= hi
    ensures lo <= v <= hi ==> r == v
  {
    if v < lo then lo else if v > hi then hi else v
  }

  /** A channel of Mix inside (0, 1): (int)(x * (1 - m) + y * m), a truncation of a non-negative value. */
  function MixChannel(x: int, y: int, m: real): (c: int)
    requires 0 <= x <= 255 && 0 <= y <= 255 && 0.0 < m < 1.0
    ensures 0 <= c <= 255
  {
    MixBounds(x as real, y as real, m);
    FloorBetween(x as real * (1.0 - m) + y as real * m, 0, 255);
    (x as real * (1.0 - m) + y as real * m).Floor
  }

  /** A weighted mean of two channel values lies between them. */
  lemma MixBounds(x: real, y: real, m: real)
    requires 0.0 <= x <= 255.0 && 0.0 <= y <= 255.0 && 0.0 < m < 1.0
    ensures var v := x * (1.0 - m) + y * m;
      (if x <= y then x else y) <= v <= (if x <= y then y else x)
  {
    var n := 1.0 - m;
    var v := x * n + y * m;
    assert v == x + (y - x) * m;
    assert v == y - (y - x) * n;
    if x <= y {
      NonNegativeProduct(y - x, m);
      NonNegativeProduct(y - x, n);
    } else {
      NonNegativeProduct(x - y, m);
      NonNegativeProduct(x - y, n);
    }
  }

  lemma NonNegativeProduct(a: real, b: real)
    requires a >= 0.0 && b >= 0.0
    ensures a * b >= 0.0
  {
  }

  /** The floor of a real between two integers lies between them. */
  lemma FloorBetween(v: real, lo: int, hi: int)
    requires lo as real <= v <= hi as real
    ensures lo <= v.Floor <= hi
  {
  }

  /** A mixed channel lies between the two channels it mixes. */
  lemma MixChannelBetween(x: int, y: int, m: real)
    requires 0 <= x <= 255 && 0 <= y <= 255 && 0.0 < m < 1.0
    ensures (if x <= y then x else y) <= MixChannel(x, y, m) <= (if x <= y then y else x)
  {
    MixBounds(x as real, y as real, m);
    FloorBetween(x as real * (1.0 - m) + y as real * m, if x <= y then x else y, if x <= y then y else x);
  }

  /**
   * A channel of Intensity for a factor other than 0, 1/2 and 1: above 1/2 it moves toward
   * 255 by (i - 0.5) / 0.5 of full range, below it is scaled by i / 0.5; the result is clamped
   * and truncated by the byte cast.
   */
  function IntensityChannel(x: bv8, i: real): (c: int)
    requires 0.0 <= i <= 1.0
    ensures 0 <= c <= 255
  {
    var v := x as int as real;
    var w := if i > 0.5 then v + (i - 0.5) / 0.5 * 255.0 else v * (i / 0.5);
    Clamp(w, 0.0, 255.0).Floor
  }

  /** Above one half a channel never decreases; below it never increases. */
  lemma IntensityDirection(x: bv8, i: real)
    requires 0.0 <= i <= 1.0
    ensures i > 0.5 ==> IntensityChannel(x, i) >= x as int
    ensures i < 0.5 ==> IntensityChannel(x, i) <= x as int
  {
    var v := x as int as real;
    if i < 0.5 {
      assert v * (i / 0.5) <= v * 1.0;
    }
  }

  class NeoPixel {
    var color: Color
    var changed: bool

    /** The default constructor: black, and changed. */
    constructor Default()
      ensures color == Black && changed
    {
      color := Black;
      changed := true;
    }

    constructor(c: Color)
      ensures color == c && changed
    {
      color := c;
      changed := true;
    }

    /** The implicit conversion to Color. */
    function AsColor(): Color
      reads this
    {
      color
    }

    /** The Color setter: the new colour, always marked changed. */
    method SetColor(value: Color)
      modifies this
      ensures color == value && changed
    {
      color := value;
      changed := true;
    }

    /** Add: every channel is the clamped sum of the two colours' channels. */
    method Add(a: Color) returns (self: NeoPixel)
      modifies this
      ensures self == this && changed
      ensures color == FromRgb(AddChannel(R(a), R(old(color))), AddChannel(G(a), G(old(color))), AddChannel(B(a), B(old(color))))
    {
      var b := color;
      SetColor(FromRgb(AddChannel(R(a), R(b)), AddChannel(G(a), G(b)), AddChannel(B(a), B(b))));
      self := this;
    }

    /** Mix: exactly a from m <= 0, exactly b from m >= 1, the truncated weighted mean in between. */
    method Mix(a: Color, b: Color, m: real) returns (self: NeoPixel)
      modifies this
      ensures self == this && changed
      ensures m <= 0.0 ==> color == a
      ensures m >= 1.0 ==> color == b
      ensures 0.0 < m < 1.0 ==>
        color == FromRgb(MixChannel(R(a) as int, R(b) as int, m) as bv8, MixChannel(G(a) as int, G(b) as int, m) as bv8,
          MixChannel(B(a) as int, B(b) as int, m) as bv8)
    {
      if m <= 0.0 {
        SetColor(a);
      } else if m >= 1.0 {
        SetColor(b);
      } else {
        var red := MixChannel(R(a) as int, R(b) as int, m);
        var blue := MixChannel(B(a) as int, B(b) as int, m);
        var green := MixChannel(G(a) as int, G(b) as int, m);
        SetColor(FromRgb(red as bv8, green as bv8, blue as bv8));
      }
      self := this;
    }

    /**
     * Intensity: the factor is clamped to [0, 1]; one half changes nothing, 0 gives the named
     * black, 1 the named white, and the named black is left alone; any other colour gets the
     * scaled channels.
     */
    method Intensity(factor: real) returns (self: NeoPixel)
      modifies this
      ensures self == this
      ensures var i := Clamp(factor, 0.0, 1.0);
        && (i == 0.5 ==> color == old(color) && changed == old(changed))
        && (i == 0.0 ==> color == Black && changed)
        && (i == 1.0 ==> color == White && changed)
        && (i != 0.0 && i != 0.5 && i != 1.0 && old(color) == Black ==> color == Black && changed == old(changed))
        && (i != 0.0 && i != 0.5 && i != 1.0 && old(color) != Black ==>
             color == FromRgb(IntensityChannel(R(old(color)), i) as bv8, IntensityChannel(G(old(color)), i) as bv8,
               IntensityChannel(B(old(color)), i) as bv8) && changed)
    {
      self := this;
      var i := Clamp(factor, 0.0, 1.0);
      if i == 0.5 {
        return;
      }
      if i == 0.0 {
        SetColor(Black);
        return;
      }
      if i == 1.0 {
        SetColor(White);
        return;
      }
      var c := color;
      if c == Black {
        return;
      }
      SetColor(FromRgb(IntensityChannel(R(c), i) as bv8, IntensityChannel(G(c), i) as bv8, IntensityChannel(B(c), i) as bv8));
    }

    /** Rgb(int): the low three bytes of the int as the channels, with full alpha. */
    method RgbInt(c: bv32) returns (self: NeoPixel)
      modifies this
      ensures self == this && changed
      ensures color == FromArgbInt(c | 0xFF00_0000)
      ensures color.a == 255 && R(color) == ByteAt(c, 16) && G(color) == ByteAt(c, 8) && B(color) == ByteAt(c, 0)
    {
      SetColor(FromArgbInt(c | 0xFF00_0000));
      self := this;
    }

    /** Rgb(r, g, b): those channels, and changed. */
    method Rgb(r: bv8, g: bv8, b: bv8) returns (self: NeoPixel)
      modifies this
      ensures self == this && changed
      ensures color == FromRgb(r, g, b)
    {
      SetColor(FromRgb(r, g, b));
      self := this;
    }
  }

  /** FromColor: the one shared conversion pixel gets the colour and is returned. */
  method FromColor(convert: NeoPixel, c: Color) returns (p: NeoPixel)
    modifies convert
    ensures p == convert && p.color == c && p.changed
  {
    convert.SetColor(c);
    p := convert;
  }

  /** Two conversions return the same object, which holds the second colour. */
  method ConversionsAlias(convert: NeoPixel, first: Color, second: Color) returns (p: NeoPixel, q: NeoPixel)
    modifies convert
    ensures p == q && p.color == second
  {
    p := FromColor(convert, first);
    q := FromColor(convert, second);
  }
}
