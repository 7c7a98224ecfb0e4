/**
 * How the DHT11, DHT12, DHT21 and DHT22 sensors' five-byte frames become a relative humidity and a
 * temperature. Every value is in tenths (of a percent, of a degree Celsius): the classes compute
 * `whole + fraction * 0.1` or `raw * 0.1` in double precision, and the tenths are the exact
 * integer those expressions scale.
 */
module DhtDecoders {
  import opened Wrappers

  /** The concrete sensor classes deriving from Dhtxx. */
  datatype Kind = Dht11 | Dht12 | Dht21 | Dht22

  /** Dht12.DefaultI2cAddress. */
  const Dht12DefaultI2cAddress: Byte := 0x5C

  /** Bits 0..6 of a byte, `b & 0x7F`. */
  function Low7(b: Byte): int {
    b as int % 128
  }

  /** Bit 7 of a byte is set, `(b & 0x80) != 0`. */
  predicate High(b: Byte) {
    b as int >= 128
  }

  /** A byte with bit 7 toggled, `b ^ 0x80`. */
  function FlipHigh(b: Byte): Byte {
    if High(b) then b - 128 else b + 128
  }

  /** A magnitude negated when the sign bit is set. */
  function Signed(negative: bool, magnitude: int): int {
    if negative then -magnitude else magnitude
  }

  /** GetHumidity of each class, in tenths of a percent. */
  function Humidity(kind: Kind, b: seq<Byte>): int
    requires |b| == 5
  {
    match kind
    case Dht11 => 10 * b[0] as int + b[1] as int
    case Dht12 => 10 * b[0] as int + b[1] as int
    case Dht21 => b[0] as int * 256 + b[1] as int
    case Dht22 => b[0] as int * 256 + b[1] as int
  }

  /** The unsigned temperature each class computes before applying the sign, in tenths of a degree. */
  function Magnitude(kind: Kind, b: seq<Byte>): int
    requires |b| == 5
  {
    match kind
    case Dht11 => 10 * b[2] as int + b[3] as int
    case Dht12 => 10 * b[2] as int + Low7(b[3])
    case Dht21 => 10 * Low7(b[2]) + b[3] as int
    case Dht22 => Low7(b[2]) * 256 + b[3] as int
  }

  /** Which byte carries the sign bit: byte 3 on the DHT12, byte 2 on the DHT21 and DHT22. */
  function SignByte(kind: Kind): nat {
    if kind == Dht12 then 3 else 2
  }

  /** The DHT11 has no sign bit; the others negate when bit 7 of their sign byte is set. */
  predicate Negative(kind: Kind, b: seq<Byte>)
    requires |b| == 5
  {
    kind != Dht11 && High(b[SignByte(kind)])
  }

  /** GetTemperature of each class, in tenths of a degree Celsius. */
  function Temperature(kind: Kind, b: seq<Byte>): int
    requires |b| == 5
  {
    Signed(Negative(kind, b), Magnitude(kind, b))
  }

  /** Humidity is never negative; it is at most 280.5 % on the DHT11/12 and at most 6553.5 % on the DHT21/22. */
  lemma HumidityRange(kind: Kind, b: seq<Byte>)
    requires |b| == 5
    ensures 0 <= Humidity(kind, b)
    ensures kind in {Dht11, Dht12} ==> Humidity(kind, b) <= 2805
    ensures kind in {Dht21, Dht22} ==> Humidity(kind, b) <= 65535
  {
  }

  /** The DHT11 temperature is never negative. */
  lemma Dht11NeverNegative(b: seq<Byte>)
    requires |b| == 5
    ensures Temperature(Dht11, b) >= 0
  {
  }

  /** The magnitude never reads the sign bit. */
  lemma MagnitudeIgnoresSign(kind: Kind, b: seq<Byte>)
    requires |b| == 5 && kind != Dht11
    ensures Magnitude(kind, b[SignByte(kind) := FlipHigh(b[SignByte(kind)])]) == Magnitude(kind, b)
  {
    var s := SignByte(kind);
    var c := b[s := FlipHigh(b[s])];
    assert Low7(c[s]) == Low7(b[s]);
  }

  /**
   * On the sensors with a sign bit the temperature is negative only when the bit is set, and
   * never positive when it is set.
   */
  lemma SignFromBit(kind: Kind, b: seq<Byte>)
    requires |b| == 5 && kind != Dht11
    ensures Temperature(kind, b) < 0 ==> High(b[SignByte(kind)])
    ensures High(b[SignByte(kind)]) ==> Temperature(kind, b) <= 0
  {
  }

  /** Toggling only the sign bit negates the temperature. */
  lemma FlipNegates(kind: Kind, b: seq<Byte>)
    requires |b| == 5 && kind != Dht11
    ensures Temperature(kind, b[SignByte(kind) := FlipHigh(b[SignByte(kind)])]) == -Temperature(kind, b)
  {
    MagnitudeIgnoresSign(kind, b);
  }

  /** On the DHT12 the high bit of byte 2 is part of the whole degrees, not a sign. */
  lemma Dht12SignNotInByte2(b: seq<Byte>)
    requires |b| == 5 && !High(b[3])
    ensures Temperature(Dht12, b[2 := FlipHigh(b[2])]) >= 0
  {
  }

  /** Both results depend only on bytes 0..3: the checksum byte never contributes. */
  lemma IgnoresChecksum(kind: Kind, b: seq<Byte>, c: seq<Byte>)
    requires |b| == 5 && |c| == 5 && b[..4] == c[..4]
    ensures Humidity(kind, b) == Humidity(kind, c)
    ensures Temperature(kind, b) == Temperature(kind, c)
  {
    assert b[0] == c[0] && b[1] == c[1] && b[2] == c[2] && b[3] == c[3] by {
      assert b[..4][0] == c[..4][0] && b[..4][1] == c[..4][1];
      assert b[..4][2] == c[..4][2] && b[..4][3] == c[..4][3];
    }
  }

  /** `b & 0x7F` and `(b & 0x80) != 0` on a byte are Low7 and High. */
  lemma MasksAgree(x: bv8)
    ensures (x & 0x7F) as int == Low7(x as int as Byte)
    ensures ((x & 0x80) != 0) == High(x as int as Byte)
  {
  }

  /** `hi << 8 | lo` on two bytes is `hi * 256 + lo`. */
  lemma ShiftOrAgrees(hi: bv16, lo: bv16)
    requires hi < 256 && lo < 256
    ensures ((hi << 8) | lo) as int == hi as int * 256 + lo as int
  {
  }
}
