/**
 * UTF-8 encoding of text, as Encoding.UTF8.GetBytes produces for the serial ports' Write: one
 * to four bytes per Unicode scalar value, after section 3 of RFC 3629.
 */
module Utf8 {

  import opened Wrappers

  /** The bytes of one scalar value. */
  function EncodeScalar(c: char): (r: seq<Byte>)
    ensures 1 <= |r| <= 4
  {
    var n := c as int;
    if n < 0x80 then [n as Byte]
    else if n < 0x800 then [(0xC0 + n / 64) as Byte, (0x80 + n % 64) as Byte]
    else if n < 0x10000 then [(0xE0 + n / 4096) as Byte, (0x80 + n / 64 % 64) as Byte, (0x80 + n % 64) as Byte]
    else [(0xF0 + n / 262144) as Byte, (0x80 + n / 4096 % 64) as Byte, (0x80 + n / 64 % 64) as Byte, (0x80 + n % 64) as Byte]
  }

  function Encode(s: string): seq<Byte> {
    if s == [] then [] else EncodeScalar(s[0]) + Encode(s[1..])
  }

  /** The number of bytes of the sequence a lead byte starts. */
  function SequenceLength(lead: Byte): nat {
    if lead < 0x80 then 1 else if lead < 0xE0 then 2 else if lead < 0xF0 then 3 else 4
  }

  /** The scalar value of one complete byte sequence. */
  function DecodeScalar(b: seq<Byte>): int
    requires |b| > 0 && |b| == SequenceLength(b[0])
  {
    if |b| == 1 then b[0] as int
    else if |b| == 2 then (b[0] as int - 0xC0) * 64 + (b[1] as int - 0x80)
    else if |b| == 3 then (b[0] as int - 0xE0) * 4096 + (b[1] as int - 0x80) * 64 + (b[2] as int - 0x80)
    else (b[0] as int - 0xF0) * 262144 + (b[1] as int - 0x80) * 4096 + (b[2] as int - 0x80) * 64 + (b[3] as int - 0x80)
  }

  /** The scalar values of a byte string, read one sequence at a time. */
  function Decode(b: seq<Byte>): seq<int>
    decreases |b|
  {
    if b == [] then []
    else
      var k := SequenceLength(b[0]);
      if k > |b| then [] else [DecodeScalar(b[..k])] + Decode(b[k..])
  }

  /** The scalar values of a string. */
  function Scalars(s: string): (r: seq<int>)
    ensures |r| == |s| && forall i :: 0 <= i < |s| ==> r[i] == s[i] as int
  {
    seq(|s|, i requires 0 <= i < |s| => s[i] as int)
  }

  /** One scalar's bytes start with a lead byte that gives their number and decode to the scalar. */
  lemma EncodeScalarDecodes(c: char)
    ensures SequenceLength(EncodeScalar(c)[0]) == |EncodeScalar(c)|
    ensures DecodeScalar(EncodeScalar(c)) == c as int
  {
    var n := c as int;
    if n < 0x80 {
    } else if n < 0x800 {
      TwoByteDecodes(n);
    } else if n < 0x10000 {
      ThreeByteDecodes(n);
    } else {
      FourByteDecodes(n);
    }
  }

  lemma TwoByteDecodes(n: int)
    requires 0x80 <= n < 0x800
    ensures 0xC0 <= 0xC0 + n / 64 < 0xE0 && 0x80 <= 0x80 + n % 64 < 0xC0
    ensures (n / 64) * 64 + n % 64 == n
  {
  }

  lemma ThreeByteDecodes(n: int)
    requires 0x800 <= n < 0x10000
    ensures 0xE0 <= 0xE0 + n / 4096 < 0xF0 && 0x80 <= 0x80 + n / 64 % 64 < 0xC0 && 0x80 <= 0x80 + n % 64 < 0xC0
    ensures (n / 4096) * 4096 + (n / 64 % 64) * 64 + n % 64 == n
  {
  }

  lemma FourByteDecodes(n: int)
    requires 0x10000 <= n < 0x110000
    ensures 0xF0 <= 0xF0 + n / 262144 < 0x100
    ensures 0x80 <= 0x80 + n / 4096 % 64 < 0xC0 && 0x80 <= 0x80 + n / 64 % 64 < 0xC0 && 0x80 <= 0x80 + n % 64 < 0xC0
    ensures (n / 262144) * 262144 + (n / 4096 % 64) * 4096 + (n / 64 % 64) * 64 + n % 64 == n
  {
    var q1, d := n / 64, n % 64;
    var q2, c := q1 / 64, q1 % 64;
    var a, b := q2 / 64, q2 % 64;
    SixBits(n, q1, d);
    SixBits(q1, q2, c);
    SixBits(q2, a, b);
    assert n == q2 * 4096 + c * 64 + d;
    assert n / 4096 == q2;
    assert n == a * 262144 + b * 4096 + c * 64 + d;
    assert n / 262144 == a;
  }

  /** The base-64 digit split of a natural number. */
  lemma SixBits(n: int, q: int, r: int)
    requires n >= 0 && q == n / 64 && r == n % 64
    ensures n == q * 64 + r && 0 <= r < 64 && q >= 0
  {
  }

  /** Decoding the encoding of a string gives back its scalar values. */
  lemma {:induction false} DecodeEncode(s: string)
    ensures Decode(Encode(s)) == Scalars(s)
  {
    if s != [] {
      var e := EncodeScalar(s[0]);
      EncodeScalarDecodes(s[0]);
      DecodeEncode(s[1..]);
      var b := Encode(s);
      assert b == e + Encode(s[1..]);
      assert b[0] == e[0];
      assert b[..|e|] == e;
      assert b[|e|..] == Encode(s[1..]);
      assert Scalars(s) == [s[0] as int] + Scalars(s[1..]);
    }
  }
}
