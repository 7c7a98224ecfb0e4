/**
 * The RGB colour value: three byte channels packed into a 24-bit integer, saturating channel
 * arithmetic, byte tuples, a hexadecimal parser and scaling by a factor.
 */
module ColorRgb {

  /** A byte channel. */
  newtype Channel = x: int | 0 <= x < 256

  /** A C# int. */
  newtype Int32 = x: int | -0x8000_0000 <= x < 0x8000_0000

  datatype ColorRGB = ColorRGB(r: Channel, g: Channel, b: Channel)

  const Black := ColorRGB(0, 0, 0)
  const White := ColorRGB(255, 255, 255)
  const Red := ColorRGB(255, 0, 0)

  /**
   * The colour of a packed int: bytes 2, 1 and 0. An arithmetic shift right is a floor
   * division and masking with 0xFF is the Euclidean remainder, also for negative ints.
   */
  function FromInt(rgb: Int32): ColorRGB {
    var v := rgb as int;
    ColorRGB((v / 0x1_0000 % 0x100) as Channel, (v / 0x100 % 0x100) as Channel, (v % 0x100) as Channel)
  }

  /** The hash code and int conversion: R << 16 | G << 8 | B, whose three fields do not overlap. */
  function HashCode(c: ColorRGB): (h: int)
    ensures 0 <= h < 0x100_0000
  {
    c.r as int * 0x1_0000 + c.g as int * 0x100 + c.b as int
  }

  /** Equality of colours, as ==, != and Equals compare them: by hash code. */
  predicate Same(a: ColorRGB, b: ColorRGB) {
    HashCode(a) == HashCode(b)
  }

  /** Equality of a colour and an int, as Equals(int) compares them. */
  predicate SameAsInt(a: ColorRGB, other: int) {
    HashCode(a) == other
  }

  /** The channels of a packed value split back into three bytes. */
  lemma PackedChannels(r: int, g: int, b: int)
    requires 0 <= r < 0x100 && 0 <= g < 0x100 && 0 <= b < 0x100
    ensures var v := r * 0x1_0000 + g * 0x100 + b;
      v / 0x1_0000 % 0x100 == r && v / 0x100 % 0x100 == g && v % 0x100 == b
  {
    var v := r * 0x1_0000 + g * 0x100 + b;
    assert v == (r * 0x100 + g) * 0x100 + b;
    assert v / 0x100 == r * 0x100 + g;
    assert v / 0x1_0000 == (v / 0x100) / 0x100;
  }

  /** Unpacking the hash code of a colour gives the colour back. */
  lemma FromHashCode(c: ColorRGB)
    ensures FromInt(HashCode(c) as Int32) == c
  {
    PackedChannels(c.r as int, c.g as int, c.b as int);
  }

  /** The hash code of the colour of an int is the int's low 24 bits, rgb & 0xFFFFFF. */
  lemma HashCodeOfInt(rgb: Int32)
    ensures HashCode(FromInt(rgb)) == rgb as int % 0x100_0000
  {
    var v := rgb as int;
    var low := v % 0x100_0000;
    assert v == (v / 0x100_0000) * 0x100_0000 + low;
    assert v / 0x100 == (v / 0x100_0000) * 0x1_0000 + low / 0x100;
    assert v / 0x1_0000 == (v / 0x100_0000) * 0x100 + low / 0x1_0000;
    assert v / 0x1_0000 % 0x100 == low / 0x1_0000;
    assert v / 0x100 % 0x100 == low / 0x100 % 0x100;
    assert v % 0x100 == low % 0x100;
  }

  /** Colours compare equal exactly when all three channels are equal. */
  lemma SameIffEqual(a: ColorRGB, b: ColorRGB)
    ensures Same(a, b) <==> a == b
  {
    if Same(a, b) {
      FromHashCode(a);
      FromHashCode(b);
    }
  }

  /** A channel sum clipped to 255. */
  function AddChannel(x: Channel, y: Channel): (s: Channel)
    ensures s as int == if x as int + y as int > 255 then 255 else x as int + y as int
  {
    var s := x as int + y as int;
    if s > 255 then 255 else s as Channel
  }

  /** A channel difference clipped to 0. */
  function SubChannel(x: Channel, y: Channel): (d: Channel)
    ensures d as int == if x as int - y as int < 0 then 0 else x as int - y as int
  {
    var d := x as int - y as int;
    if d < 0 then 0 else d as Channel
  }

  /** The + operator: each channel saturates at 255. */
  function Add(a: ColorRGB, b: ColorRGB): ColorRGB {
    ColorRGB(AddChannel(a.r, b.r), AddChannel(a.g, b.g), AddChannel(a.b, b.b))
  }

  /** The - operator: each channel floors at 0. */
  function Subtract(a: ColorRGB, b: ColorRGB): ColorRGB {
    ColorRGB(SubChannel(a.r, b.r), SubChannel(a.g, b.g), SubChannel(a.b, b.b))
  }

  /** Addition commutes, black is its identity and white absorbs everything. */
  lemma AddLaws(a: ColorRGB, b: ColorRGB)
    ensures Add(a, b) == Add(b, a)
    ensures Add(a, Black) == a
    ensures Add(a, White) == White
  {
  }

  /** Subtracting a colour from itself or from black gives black; subtracting black changes nothing. */
  lemma SubtractLaws(a: ColorRGB, b: ColorRGB)
    ensures Subtract(a, a) == Black && Subtract(Black, b) == Black
    ensures Subtract(a, Black) == a
  {
  }

  /** Every channel of a sum is at least that of each operand, and of a difference at most. */
  lemma SaturationBounds(a: ColorRGB, b: ColorRGB)
    ensures a.r <= Add(a, b).r && a.g <= Add(a, b).g && a.b <= Add(a, b).b
    ensures Subtract(a, b).r <= a.r && Subtract(a, b).g <= a.g && Subtract(a, b).b <= a.b
  {
  }

  /** When no channel saturates, subtracting what was added restores the colour. */
  lemma SubtractUndoesAdd(a: ColorRGB, b: ColorRGB)
    requires a.r as int + b.r as int <= 255 && a.g as int + b.g as int <= 255 && a.b as int + b.b as int <= 255
    ensures Subtract(Add(a, b), b) == a
  {
  }

  /** The tuple of the three channels. */
  function ToBytes(c: ColorRGB): (Channel, Channel, Channel) {
    (c.r, c.g, c.b)
  }

  function FromBytes(r: Channel, g: Channel, b: Channel): ColorRGB {
    ColorRGB(r, g, b)
  }

  /** ToBytes and FromBytes are inverse to each other. */
  lemma BytesRoundTrip(c: ColorRGB, t: (Channel, Channel, Channel))
    ensures FromBytes(ToBytes(c).0, ToBytes(c).1, ToBytes(c).2) == c
    ensures ToBytes(FromBytes(t.0, t.1, t.2)) == t
  {
  }

  /** The upper case of an ASCII letter; other characters are kept. */
  function UpperChar(c: char): char {
    if 'a' <= c <= 'z' then (c as int - 32) as char else c
  }

  function Upper(s: string): (u: string)
    ensures |u| == |s| && forall k :: 0 <= k < |s| ==> u[k] == UpperChar(s[k])
  {
    seq(|s|, k requires 0 <= k < |s| => UpperChar(s[k]))
  }

  predicate IsHexDigit(c: char) {
    '0' <= c <= '9' || 'A' <= c <= 'F'
  }

  function HexDigitValue(c: char): (v: int)
    requires IsHexDigit(c)
    ensures 0 <= v < 16
  {
    if '0' <= c <= '9' then c as int - '0' as int else c as int - 'A' as int + 10
  }

  /** The characters the parser counts: every character but '#'. */
  function Counted(u: string): (t: string)
    ensures |t| <= |u|
  {
    if u == [] then [] else Counted(u[..|u| - 1]) + if u[|u| - 1] == '#' then [] else [u[|u| - 1]]
  }

  /** The number the hex digits among the characters spell; other characters add nothing. */
  function HexNumber(t: string): (v: nat)
  {
    if t == [] then 0
    else
      var v := HexNumber(t[..|t| - 1]);
      var c := t[|t| - 1];
      if IsHexDigit(c) then v * 16 + HexDigitValue(c) else v
  }

  /** A number spelled by at most n characters is below 16^n. */
  lemma {:induction false} HexNumberBound(t: string, n: nat, bound: nat)
    requires |t| <= n && bound == Power16(n)
    ensures HexNumber(t) < bound
    decreases n
  {
    if t == [] {
      Power16Positive(n);
    } else {
      HexNumberBound(t[..|t| - 1], n - 1, Power16(n - 1));
    }
  }

  function Power16(n: nat): nat {
    if n == 0 then 1 else 16 * Power16(n - 1)
  }

  lemma {:induction false} Power16Positive(n: nat)
    ensures Power16(n) >= 1
  {
    if n > 0 {
      Power16Positive(n - 1);
    }
  }

  /**
   * What FromString returns: black once more than six characters other than '#' are seen,
   * otherwise the colour of the number their hex digits spell, case ignored.
   */
  function ParseColor(s: string): ColorRGB {
    var t := Counted(Upper(s));
    if |t| > 6 then Black
    else
      HexNumberBound(t, 6, Power16(6));
      FromInt(HexNumber(t) as Int32)
  }

  /** Counting and accumulating one more character. */
  lemma CountedStep(u: string, k: nat)
    requires k < |u|
    ensures u[k] == '#' ==> Counted(u[..k + 1]) == Counted(u[..k])
    ensures u[k] != '#' ==> Counted(u[..k + 1]) == Counted(u[..k]) + [u[k]]
  {
    assert u[..k + 1][..k] == u[..k];
    if u[k] == '#' {
      assert Counted(u[..k]) + [] == Counted(u[..k]);
    }
  }

  lemma HexNumberStep(t: string, c: char)
    ensures HexNumber(t + [c]) == if IsHexDigit(c) then HexNumber(t) * 16 + HexDigitValue(c) else HexNumber(t)
  {
    assert (t + [c])[..|t|] == t;
  }

  /** One non-'#' character of FromString's loop: a hex digit shifts the number and adds its value. */
  lemma AccumulateStep(u: string, k: nat, color: int)
    requires k < |u| && u[k] != '#' && color == HexNumber(Counted(u[..k]))
    ensures |Counted(u[..k + 1])| == |Counted(u[..k])| + 1
    ensures HexNumber(Counted(u[..k + 1])) ==
      if '0' <= u[k] <= '9' then color * 16 + (u[k] as int - '0' as int)
      else if 'A' <= u[k] <= 'F' then color * 16 + (u[k] as int - 'A' as int + 10)
      else color
  {
    CountedStep(u, k);
    HexNumberStep(Counted(u[..k]), u[k]);
  }

  /** FromString's loop over the upper-cased text, with its counter j of non-'#' characters. */
  method FromString(s: string) returns (c: ColorRGB)
    ensures c == ParseColor(s)
  {
    var u := Upper(s);
    var color := 0;
    var j := 0;
    var k := 0;
    while k < |u|
      invariant 0 <= k <= |u|
      invariant j == |Counted(u[..k])| && j <= 6
      invariant color == HexNumber(Counted(u[..k]))
    {
      var ch := u[k];
      CountedStep(u, k);
      if ch == '#' {
        k := k + 1;
        continue;
      }
      AccumulateStep(u, k, color);
      if '0' <= ch <= '9' {
        color := color * 16 + (ch as int - '0' as int);
      } else if 'A' <= ch <= 'F' {
        color := color * 16 + (ch as int - 'A' as int + 10);
      }
      if j > 5 {
        assert |Counted(u[..k + 1])| > 6;
        Counted7(u, k + 1);
        return Black;
      }
      j := j + 1;
      k := k + 1;
    }
    assert u[..k] == u;
    HexNumberBound(Counted(u), 6, Power16(6));
    c := FromInt(color as Int32);
  }

  /** Once the prefix holds seven counted characters, so does the whole text. */
  lemma Counted7(u: string, k: nat)
    requires k <= |u| && |Counted(u[..k])| > 6
    ensures |Counted(u)| > 6
    decreases |u| - k
  {
    if k < |u| {
      CountedStep(u, k);
      Counted7(u, k + 1);
    } else {
      assert u[..k] == u;
    }
  }

  /** Upper-casing twice is upper-casing once, so the parser ignores case. */
  lemma ParseIgnoresCase(s: string)
    ensures ParseColor(Upper(s)) == ParseColor(s)
  {
    assert Upper(Upper(s)) == Upper(s);
  }

  /** Without any '#', every character counts. */
  lemma {:induction false} CountedNoHash(t: string)
    requires forall k :: 0 <= k < |t| ==> t[k] != '#'
    ensures Counted(t) == t
  {
    if t != [] {
      CountedNoHash(t[..|t| - 1]);
    }
  }

  /** A leading '#' is skipped. */
  lemma {:induction false} CountedLeadingHash(t: string)
    ensures Counted("#" + t) == Counted(t)
  {
    if t != [] {
      var p := t[..|t| - 1];
      assert ("#" + t)[..|t|] == "#" + p;
      CountedLeadingHash(p);
    } else {
      assert ("#" + t)[..0] == [];
    }
  }

  /** Six hex digits spell d0·16^5 + ... + d5. */
  lemma HexSix(t: string)
    requires |t| == 6 && forall k :: 0 <= k < 6 ==> IsHexDigit(t[k])
    ensures HexNumber(t) == ((((HexDigitValue(t[0]) * 16 + HexDigitValue(t[1])) * 16 + HexDigitValue(t[2])) * 16
      + HexDigitValue(t[3])) * 16 + HexDigitValue(t[4])) * 16 + HexDigitValue(t[5])
  {
    assert t[..0] == [];
    var k := 0;
    while k < 6
      invariant 0 <= k <= 6
      invariant k >= 1 ==> HexNumber(t[..1]) == HexDigitValue(t[0])
      invariant k >= 2 ==> HexNumber(t[..2]) == HexNumber(t[..1]) * 16 + HexDigitValue(t[1])
      invariant k >= 3 ==> HexNumber(t[..3]) == HexNumber(t[..2]) * 16 + HexDigitValue(t[2])
      invariant k >= 4 ==> HexNumber(t[..4]) == HexNumber(t[..3]) * 16 + HexDigitValue(t[3])
      invariant k >= 5 ==> HexNumber(t[..5]) == HexNumber(t[..4]) * 16 + HexDigitValue(t[4])
      invariant k >= 6 ==> HexNumber(t[..6]) == HexNumber(t[..5]) * 16 + HexDigitValue(t[5])
    {
      assert t[..k + 1] == t[..k] + [t[k]];
      HexNumberStep(t[..k], t[k]);
      k := k + 1;
    }
    assert t[..6] == t;
  }

  /**
   * A '#' and six upper- or lower-case hex digits parse to the colour whose channels are
   * the digit pairs, as in "#FF8000".
   */
  lemma ParseHexTriplet(t: string)
    requires |t| == 6 && forall k :: 0 <= k < 6 ==> IsHexDigit(UpperChar(t[k]))
    ensures var u := Upper(t);
      ParseColor("#" + t) == ColorRGB(
        (HexDigitValue(u[0]) * 16 + HexDigitValue(u[1])) as Channel,
        (HexDigitValue(u[2]) * 16 + HexDigitValue(u[3])) as Channel,
        (HexDigitValue(u[4]) * 16 + HexDigitValue(u[5])) as Channel)
  {
    var u := Upper(t);
    assert Upper("#" + t) == "#" + u;
    CountedLeadingHash(u);
    CountedNoHash(u);
    HexSix(u);
    PackedChannels(HexDigitValue(u[0]) * 16 + HexDigitValue(u[1]), HexDigitValue(u[2]) * 16 + HexDigitValue(u[3]),
      HexDigitValue(u[4]) * 16 + HexDigitValue(u[5]));
  }

  /** "#ff8000" is orange: red 255, green 128, blue 0. */
  lemma ParseOrange()
    ensures ParseColor("#ff8000") == ColorRGB(255, 128, 0)
  {
    var u := Upper("ff8000");
    assert u[0] == 'F' && u[1] == 'F' && u[2] == '8' && u[3] == '0' && u[4] == '0' && u[5] == '0';
    assert HexDigitValue('F') == 15 && HexDigitValue('8') == 8 && HexDigitValue('0') == 0;
    ParseHexTriplet("ff8000");
    assert "#" + "ff8000" == "#ff8000";
  }

  /** Round half to even, as Math.Round does: the nearest integer, and the even one of two at a tie. */
  function RoundHalfEven(x: real): (r: int)
    ensures x - 0.5 <= r as real <= x + 0.5
    ensures (r as real == x - 0.5 || r as real == x + 0.5) ==> r % 2 == 0
  {
    var f := x.Floor;
    var d := x - f as real;
    if d < 0.5 then f else if d > 0.5 then f + 1 else if f % 2 == 0 then f else f + 1
  }

  /** A scaled channel: rounded and capped at 255; the factor is not negative here. */
  function ScaleChannel(x: Channel, s: real): (y: Channel)
    requires s >= 0.0
    ensures x as real * s <= 255.5 ==> x as real * s - 0.5 <= y as real <= x as real * s + 0.5
    ensures x as real * s > 255.5 ==> y == 255
  {
    var v := RoundHalfEven(x as real * s);
    assert v >= 0 by {
      assert x as real * s >= 0.0;
    }
    if v > 255 then 255 else v as Channel
  }

  /** Scale: black for a negative factor, otherwise each channel times the factor, rounded and capped. */
  function Scale(c: ColorRGB, s: real): (r: ColorRGB)
    ensures s < 0.0 ==> r == Black
    ensures s >= 0.0 ==> r.r == ScaleChannel(c.r, s) && r.g == ScaleChannel(c.g, s) && r.b == ScaleChannel(c.b, s)
  {
    if s < 0.0 then Black else ColorRGB(ScaleChannel(c.r, s), ScaleChannel(c.g, s), ScaleChannel(c.b, s))
  }

  /** A negative factor gives black, zero gives black, and one keeps the colour. */
  lemma ScaleLaws(c: ColorRGB, s: real)
    ensures s < 0.0 ==> Scale(c, s) == Black
    ensures Scale(c, 0.0) == Black && Scale(c, 1.0) == c
  {
    assert (c.r as real * 1.0).Floor == c.r as int;
    assert (c.g as real * 1.0).Floor == c.g as int;
    assert (c.b as real * 1.0).Floor == c.b as int;
  }
}
