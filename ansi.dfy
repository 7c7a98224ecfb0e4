/**
 * The colour server script's getColor: an ANSI 24-bit foreground colour sequence for (r, g, b),
 * a bar of ten full blocks and a space, then the sequence that sets the foreground back to
 * white. The arguments are integers, written in decimal with no range check.
 */
module AnsiColors {
  import opened Wrappers
  import opened SimpleSerial

  /** ESC [ 38 ; 2 ; : the start of a 24-bit foreground colour. */
  const Lead: string := "\U{1b}[38;2;"

  /** Ten full blocks (U+2588). */
  const Bar: string := "\U{2588}\U{2588}\U{2588}\U{2588}\U{2588}\U{2588}\U{2588}\U{2588}\U{2588}\U{2588}"

  /** The sequence that sets the foreground to white. */
  const WhiteReset: string := "\U{1b}[38;2;255;255;255m"

  /** What follows the blue component: the closing `m`, the bar, a space and the white reset. */
  const Tail: string := "m" + Bar + " " + WhiteReset

  /** The three components in decimal, separated by semicolons. */
  function Fields(r: int, g: int, b: int): string {
    IntToDecimal(r) + ";" + IntToDecimal(g) + ";" + IntToDecimal(b)
  }

  function GetColor(r: int, g: int, b: int): (s: string)
    ensures |s| >= |Lead| && s[..|Lead|] == Lead
    ensures |s| >= |WhiteReset| && s[|s| - |WhiteReset|..] == WhiteReset
  {
    Split(Lead, Fields(r, g, b) + Tail);
    EndsWith(Lead + Fields(r, g, b), "m" + Bar + " ", WhiteReset);
    Lead + (Fields(r, g, b) + Tail)
  }

  lemma Split(a: string, m: string)
    ensures |a + m| >= |a| && (a + m)[..|a|] == a && (a + m)[|a|..] == m
  {
  }

  lemma EndsWith(p: string, q: string, z: string)
    ensures |p + (q + z)| >= |z| && (p + (q + z))[|p + (q + z)| - |z|..] == z
  {
    assert p + (q + z) == (p + q) + z;
  }

  predicate IsDigit(c: char) {
    '0' <= c <= '9'
  }

  /** The length of the run of decimal digits that starts s. */
  function DigitRun(s: string): (n: nat)
    ensures n <= |s| && IsDigits(s[..n])
    ensures n < |s| ==> !IsDigit(s[n])
    decreases |s|
  {
    if s == [] || !IsDigit(s[0]) then 0
    else
      var n := 1 + DigitRun(s[1..]);
      assert s[..n] == [s[0]] + s[1..][..n - 1];
      n
  }

  /** A run of digits followed by a non-digit is read to its end. */
  lemma {:induction false} DigitRunOfDigits(d: string, t: string)
    requires IsDigits(d) && (t == [] || !IsDigit(t[0]))
    ensures DigitRun(d + t) == |d|
    decreases |d|
  {
    if d != [] {
      assert (d + t)[1..] == d[1..] + t;
      DigitRunOfDigits(d[1..], t);
    }
  }

  /** Reads an optional minus sign and a run of digits; None when there are no digits. */
  function ParseInt(s: string): (r: Option<(int, string)>)
    ensures r.Some? ==> |r.value.1| < |s|
  {
    if |s| > 0 && s[0] == '-' then
      var k := DigitRun(s[1..]);
      if k == 0 then None else Some((-DecimalValue(s[1..][..k]), s[1..][k..]))
    else
      var k := DigitRun(s);
      if k == 0 then None else Some((DecimalValue(s[..k]), s[k..]))
  }

  /** Reading back the decimal text of an integer followed by a non-digit gives the integer and the rest. */
  lemma ParseIntRoundTrip(i: int, t: string)
    requires t == [] || !IsDigit(t[0])
    ensures ParseInt(IntToDecimal(i) + t) == Some((i, t))
  {
    var n: nat := if i < 0 then -i else i;
    var d := NatToDecimal(n);
    NatToDecimalRoundTrip(n);
    DigitRunOfDigits(d, t);
    assert (d + t)[..|d|] == d && (d + t)[|d|..] == t;
    if i < 0 {
      assert IntToDecimal(i) + t == "-" + (d + t);
      assert ("-" + (d + t))[1..] == d + t;
    } else {
      assert d[0] != '-' by {
        assert IsDigits(d);
      }
    }
  }

  /** Reads one component and the semicolon after it. */
  function Component(s: string): Option<(int, string)> {
    match ParseInt(s)
    case None => None
    case Some((v, rest)) => if rest == [] || rest[0] != ';' then None else Some((v, rest[1..]))
  }

  /** Recovers (r, g, b) from a string GetColor could have written. */
  function Decode(s: string): Option<(int, int, int)> {
    if |s| < |Lead| || s[..|Lead|] != Lead then None
    else match Component(s[|Lead|..])
      case None => None
      case Some((r, s1)) =>
        match Component(s1)
        case None => None
        case Some((g, s2)) =>
          match ParseInt(s2)
          case None => None
          case Some((b, s3)) => if s3 == Tail then Some((r, g, b)) else None
  }

  lemma ComponentRoundTrip(i: int, rest: string)
    ensures Component(IntToDecimal(i) + ";" + rest) == Some((i, rest))
  {
    ParseIntRoundTrip(i, ";" + rest);
    assert IntToDecimal(i) + ";" + rest == IntToDecimal(i) + (";" + rest);
    assert (";" + rest)[1..] == rest;
  }

  /**
   * The three components can be read back from the text: each is written out in full, and the
   * separators keep them apart.
   */
  lemma GetColorRoundTrip(r: int, g: int, b: int)
    ensures Decode(GetColor(r, g, b)) == Some((r, g, b))
  {
    var s := GetColor(r, g, b);
    var rest3 := IntToDecimal(b) + Tail;
    var rest2 := IntToDecimal(g) + ";" + rest3;
    var rest1 := IntToDecimal(r) + ";" + rest2;
    Assemble(IntToDecimal(r), IntToDecimal(g), IntToDecimal(b), Tail);
    assert s == Lead + rest1;
    Split(Lead, rest1);
    ComponentRoundTrip(r, rest2);
    ComponentRoundTrip(g, rest3);
    assert Tail[0] == 'm';
    ParseIntRoundTrip(b, Tail);
  }

  /** Regrouping the concatenation GetColor builds. */
  lemma Assemble(x: string, y: string, z: string, t: string)
    ensures (x + ";" + y + ";" + z) + t == x + ";" + (y + ";" + (z + t))
  {
  }

  /** Different colours give different strings, and equal colours equal strings. */
  lemma GetColorInjective(r: int, g: int, b: int, r2: int, g2: int, b2: int)
    ensures GetColor(r, g, b) == GetColor(r2, g2, b2) <==> r == r2 && g == g2 && b == b2
  {
    GetColorRoundTrip(r, g, b);
    GetColorRoundTrip(r2, g2, b2);
  }
}
