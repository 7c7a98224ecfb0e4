/**
 * The NeoPixel of the Raspberry.Device WS28xx driver: a colour and a changed flag, with one
 * shared instance behind the implicit conversion from Color.
 */
module RaspberryNeoPixels {
  import opened DrawingColors

  class NeoPixel {
    var color: Color
    var changed: bool

    /** The default constructor: the named black, and changed. */
    constructor Default()
      ensures color == Black && changed
    {
      color := Black;
      changed := true;
    }

    constructor(c: Color)
      ensures color == c && changed
    {
      color := c;
      changed := true;
    }

    /** The implicit conversion to Color: the stored colour. */
    function AsColor(): Color
      reads this
    {
      color
    }

    /** The Color setter: the new colour, always marked changed. */
    method SetColor(value: Color)
      modifies this
      ensures color == value && changed
    {
      color := value;
      changed := true;
    }
  }

  /** FromColor: the one shared conversion pixel gets the colour and is returned. */
  method FromColor(convert: NeoPixel, c: Color) returns (p: NeoPixel)
    modifies convert
    ensures p == convert && p.color == c && p.changed && p.AsColor() == c
  {
    convert.SetColor(c);
    p := convert;
  }

  /** Two conversions return the same object, which then holds the second colour. */
  method ConversionsAlias(convert: NeoPixel, first: Color, second: Color) returns (p: NeoPixel, q: NeoPixel)
    modifies convert
    ensures p == q && p.AsColor() == second
  {
    p := FromColor(convert, first);
    q := FromColor(convert, second);
  }
}
