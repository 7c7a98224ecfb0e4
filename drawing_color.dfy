/**
 * The System.Drawing.Color values the NeoPixel code uses: the empty default colour, colours
 * built from components, and the named colours Black and White. Equality of the datatype is
 * that of Color's ==, which tells a named colour from one built from the same components.
 */
module DrawingColors {

  datatype KnownColor = KnownBlack | KnownWhite

  datatype Color = Empty | Argb(a: bv8, red: bv8, green: bv8, blue: bv8) | Named(known: KnownColor)

  const Black := Named(KnownBlack)
  const White := Named(KnownWhite)

  function R(c: Color): bv8 {
    match c
    case Empty => 0
    case Argb(_, r, _, _) => r
    case Named(k) => if k == KnownBlack then 0 else 255
  }

  function G(c: Color): bv8 {
    match c
    case Empty => 0
    case Argb(_, _, g, _) => g
    case Named(k) => if k == KnownBlack then 0 else 255
  }

  function B(c: Color): bv8 {
    match c
    case Empty => 0
    case Argb(_, _, _, b) => b
    case Named(k) => if k == KnownBlack then 0 else 255
  }

  /** Color.FromArgb(r, g, b): an opaque colour from components. */
  function FromRgb(r: bv8, g: bv8, b: bv8): (c: Color)
    ensures R(c) == r && G(c) == g && B(c) == b && c.Argb? && c.a == 255
  {
    Argb(255, r, g, b)
  }

  /** The byte of a packed int at bit shift s. */
  function ByteAt(argb: bv32, s: bv32): bv8
    requires s <= 24
  {
    ((argb >> s) & 0xFF) as bv8
  }

  /** Color.FromArgb(argb): the four bytes of a packed int (its two's-complement bits), alpha in the top byte. */
  function FromArgbInt(argb: bv32): (c: Color)
    ensures c.Argb? && c.a == ByteAt(argb, 24) && R(c) == ByteAt(argb, 16) && G(c) == ByteAt(argb, 8) && B(c) == ByteAt(argb, 0)
  {
    Argb(ByteAt(argb, 24), ByteAt(argb, 16), ByteAt(argb, 8), ByteAt(argb, 0))
  }

  /** Named black and a black built from components have the same channels and still differ. */
  lemma NamedBlackIsNotComponentBlack()
    ensures R(Black) == R(FromRgb(0, 0, 0)) && G(Black) == G(FromRgb(0, 0, 0)) && B(Black) == B(FromRgb(0, 0, 0))
    ensures Black != FromRgb(0, 0, 0)
  {
  }
}
