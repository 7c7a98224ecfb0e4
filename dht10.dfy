/**
 * The DHT10 frame: a state byte, then a 20-bit humidity and a 20-bit temperature packed into
 * bytes 1..5, the two sharing byte 3 (its high nibble ends the humidity, its low nibble starts
 * the temperature).
 */
module Dht10Frames {
  import opened Wrappers

  /** 2^20, the range of both raw fields. */
  const RawLimit: nat := 1048576

  /** `((b1 << 8 | b2) << 4) | b3 >> 4`. */
  function RawHumidity(b: seq<Byte>): int
    requires |b| == 6
  {
    b[1] as int * 4096 + b[2] as int * 16 + b[3] as int / 16
  }

  /** `(((b3 & 0xF) << 8 | b4) << 8) | b5`. */
  function RawTemperature(b: seq<Byte>): int
    requires |b| == 6
  {
    (b[3] as int % 16) * 65536 + b[4] as int * 256 + b[5] as int
  }

  /** Relative humidity in percent, `raw / 2^20 * 100`. */
  function HumidityPercent(raw: int): real {
    raw as real / RawLimit as real * 100.0
  }

  /** Temperature in degrees Celsius, `raw / 2^20 * 200 - 50`. */
  function Celsius(raw: int): real {
    raw as real / RawLimit as real * 200.0 - 50.0
  }

  /** Both raw values are 20-bit. */
  lemma RawRanges(b: seq<Byte>)
    requires |b| == 6
    ensures 0 <= RawHumidity(b) < RawLimit
    ensures 0 <= RawTemperature(b) < RawLimit
  {
  }

  /** The frame bytes 1..5 that hold a given pair of raw values. */
  function Pack(humidity: int, temperature: int): (b: seq<Byte>)
    requires 0 <= humidity < RawLimit && 0 <= temperature < RawLimit
    ensures |b| == 5
  {
    [ (humidity / 4096) as Byte,
      (humidity / 16 % 256) as Byte,
      (humidity % 16 * 16 + temperature / 65536) as Byte,
      (temperature / 256 % 256) as Byte,
      (temperature % 256) as Byte ]
  }

  /**
   * Byte 3 splits without overlap: its high nibble is the last four humidity bits and its low
   * nibble the first four temperature bits, so the two raw values give back bytes 1..5.
   */
  lemma PackRaw(b: seq<Byte>)
    requires |b| == 6
    ensures Pack(RawHumidity(b), RawTemperature(b)) == b[1..]
  {
    var h, t := RawHumidity(b), RawTemperature(b);
    var b1, b2, b3, b4, b5 := b[1] as int, b[2] as int, b[3] as int, b[4] as int, b[5] as int;
    assert h == 4096 * b1 + (16 * b2 + b3 / 16);
    assert h / 4096 == b1;
    assert h / 16 == 256 * b1 + b2;
    assert h / 16 % 256 == b2;
    assert h % 16 == b3 / 16;
    assert t == 65536 * (b3 % 16) + (256 * b4 + b5);
    assert t / 65536 == b3 % 16;
    assert t / 256 == 256 * (b3 % 16) + b4;
    assert t / 256 % 256 == b4;
    assert t % 256 == b5;
    assert h % 16 * 16 + t / 65536 == b3;
  }

  /** The raw values of the packed bytes are the values packed (with any state byte in front). */
  lemma RawPack(state: Byte, humidity: int, temperature: int)
    requires 0 <= humidity < RawLimit && 0 <= temperature < RawLimit
    ensures RawHumidity([state] + Pack(humidity, temperature)) == humidity
    ensures RawTemperature([state] + Pack(humidity, temperature)) == temperature
  {
    var b := [state] + Pack(humidity, temperature);
    var h, t := humidity, temperature;
    assert b[1] as int == h / 4096 && b[2] as int == h / 16 % 256;
    assert b[3] as int == h % 16 * 16 + t / 65536;
    assert b[4] as int == t / 256 % 256 && b[5] as int == t % 256;
    assert b[3] as int / 16 == h % 16;
    assert b[3] as int % 16 == t / 65536;
    assert h == 4096 * (h / 4096) + 16 * (h / 16 % 256) + h % 16;
    assert t == 65536 * (t / 65536) + 256 * (t / 256 % 256) + t % 256;
  }

  /** The state byte never contributes. */
  lemma IgnoresState(b: seq<Byte>, c: seq<Byte>)
    requires |b| == 6 && |c| == 6 && b[1..] == c[1..]
    ensures RawHumidity(b) == RawHumidity(c) && RawTemperature(b) == RawTemperature(c)
  {
    assert b[1] == b[1..][0] && b[2] == b[1..][1] && b[3] == b[1..][2];
    assert b[4] == b[1..][3] && b[5] == b[1..][4];
    assert c[1] == c[1..][0] && c[2] == c[1..][1] && c[3] == c[1..][2];
    assert c[4] == c[1..][3] && c[5] == c[1..][4];
  }

  /** The C# shift expression for the humidity is RawHumidity. */
  lemma HumidityShifts(b1: bv32, b2: bv32, b3: bv32)
    requires b1 < 256 && b2 < 256 && b3 < 256
    ensures (((b1 << 8) | b2) << 4) | (b3 >> 4) == b1 * 4096 + b2 * 16 + b3 / 16
  {
  }

  /** The C# shift expression for the temperature is RawTemperature. */
  lemma TemperatureShifts(b3: bv32, b4: bv32, b5: bv32)
    requires b3 < 256 && b4 < 256 && b5 < 256
    ensures ((((b3 & 0xF) << 8) | b4) << 8) | b5 == (b3 % 16) * 65536 + b4 * 256 + b5
  {
  }

  /**
   * The Dht10 class as written: its getters call ReadData and then decode `extraBuffer`, a private
   * six-byte array that nothing ever writes, so they decode six zero bytes whatever the sensor sent.
   */
  class Dht10 {
    const extraBuffer: array<Byte>

    predicate Valid()
      reads this, extraBuffer
    {
      extraBuffer.Length == 6 && forall k :: 0 <= k < 6 ==> extraBuffer[k] == 0
    }

    constructor()
      ensures Valid() && fresh(extraBuffer)
    {
      extraBuffer := new Byte[6](_ => 0);
    }

    /** Humidity: decodes extraBuffer; the frame ReadData read is ignored, so it is always 0 %. */
    method Humidity(frame: seq<Byte>) returns (h: real)
      requires Valid()
      ensures h == HumidityPercent(RawHumidity(extraBuffer[..]))
      ensures h == 0.0
    {
      h := HumidityPercent(RawHumidity(extraBuffer[..]));
    }

    /** Temperature: decodes extraBuffer, so it is always -50 degrees Celsius. */
    method Temperature(frame: seq<Byte>) returns (t: real)
      requires Valid()
      ensures t == Celsius(RawTemperature(extraBuffer[..]))
      ensures t == -50.0
    {
      t := Celsius(RawTemperature(extraBuffer[..]));
    }
  }

  /** A humidity of 25 % (raw 2^18) that the sensor sends reads as 0 %. */
  lemma AsWrittenIgnoresFrame(d: Dht10)
    requires d.Valid()
    ensures RawHumidity([0] + Pack(262144, 0)) == 262144
    ensures HumidityPercent(RawHumidity([0] + Pack(262144, 0))) == 25.0
    ensures HumidityPercent(RawHumidity(d.extraBuffer[..])) == 0.0
  {
    RawPack(0, 262144, 0);
    assert d.extraBuffer[..] == [0, 0, 0, 0, 0, 0];
  }

  /** The getters as intended: decode the frame the sensor sent. */
  function Reading(frame: seq<Byte>): (r: (real, real))
    requires |frame| == 6
    ensures r.0 == HumidityPercent(RawHumidity(frame)) && r.1 == Celsius(RawTemperature(frame))
    ensures 0.0 <= r.0 < 100.0 && -50.0 <= r.1 < 150.0
  {
    RawRanges(frame);
    (HumidityPercent(RawHumidity(frame)), Celsius(RawTemperature(frame)))
  }
}
