/**
 * The DHTxx probe: a start signal, two response phases, then 40 bits, each a low phase followed
 * by a high phase whose length gives the bit. The pin and the microsecond timer are abstracted
 * into the probe's phase lengths: `p[k]` is how long phase k lasted as the timer measured it
 * (phase 0 the response low, phase 1 the response high, phases 2+2i and 3+2i the low and the high
 * of bit i). A phase missing from `p` is one the line never leaves, so it times out. The clock
 * readings of `Timer.Now` are parameters.
 */
module DhtProbes {
  import opened Wrappers
  import opened Powers
  import opened DhtDecoders

  /** A phase longer than this many microseconds aborts the probe. */
  const TimeoutMicros: nat := 100
  /** A bit whose high phase lasts longer than this many microseconds is a 1. */
  const OneMicros: nat := 35
  /** The response low and high, then a low and a high per bit. */
  const PhaseCount: nat := 82
  /** The sensor is probed at most once per second. */
  const MinInterval: real := 1.0

  function Phase(p: seq<nat>, k: nat): nat {
    if k < |p| then p[k] else TimeoutMicros + 1
  }

  predicate TimesOut(p: seq<nat>, k: nat) {
    Phase(p, k) > TimeoutMicros
  }

  /** Bit i of the frame. */
  function BitOf(p: seq<nat>, i: nat): nat {
    if Phase(p, 3 + 2 * i) > OneMicros then 1 else 0
  }

  /** The value of the n bits starting at bit s, most significant first. */
  function Bits(p: seq<nat>, s: nat, n: nat): nat {
    if n == 0 then 0 else 2 * Bits(p, s, n - 1) + BitOf(p, s + n - 1)
  }

  lemma {:induction false} BitsBound(p: seq<nat>, s: nat, n: nat)
    ensures Bits(p, s, n) < Pow2(n)
  {
    if n > 0 {
      BitsBound(p, s, n - 1);
    }
  }

  /** Reading m bits and then n more is reading m + n bits. */
  lemma {:induction false} BitsSplit(p: seq<nat>, s: nat, m: nat, n: nat)
    ensures Bits(p, s, m + n) == Bits(p, s, m) * Pow2(n) + Bits(p, s + m, n)
  {
    if n > 0 {
      BitsSplit(p, s, m, n - 1);
      ShiftInBit(Bits(p, s, m), Pow2(n - 1), Bits(p, s + m, n - 1), BitOf(p, s + m + n - 1));
      assert s + m + n - 1 == s + (m + n) - 1;
    }
  }

  /** Shifting `a * q + b` left by one and adding a bit: the bit lands in the low part. */
  lemma ShiftInBit(a: int, q: int, b: int, c: int)
    ensures 2 * (a * q + b) + c == a * (2 * q) + (2 * b + c)
  {
  }

  /** The low byte of `a * 256 + b` is b. */
  lemma LowByte(a: int, b: int)
    requires 0 <= b < 256
    ensures (a * 256 + b) % 256 == b
  {
  }

  lemma ByteWidth()
    ensures Pow2(8) == 256
  {
    assert Pow2(4) == 16;
  }

  /** Byte k of the frame: bits 8k..8k+7. */
  function ByteOf(p: seq<nat>, k: nat): Byte {
    BitsBound(p, 8 * k, 8);
    ByteWidth();
    Bits(p, 8 * k, 8) as Byte
  }

  /** The first phase at or after k that times out, or PhaseCount when none does. */
  function FirstTimeout(p: seq<nat>, k: nat): (r: nat)
    requires k <= PhaseCount
    decreases PhaseCount - k
    ensures k <= r <= PhaseCount
    ensures forall j :: k <= j < r ==> !TimesOut(p, j)
    ensures r < PhaseCount ==> TimesOut(p, r)
  {
    if k == PhaseCount then k
    else if TimesOut(p, k) then k
    else FirstTimeout(p, k + 1)
  }

  /** A probe times out nowhere. */
  predicate Complete(p: seq<nat>) {
    FirstTimeout(p, 0) == PhaseCount
  }

  /** The bits whose two phases both ended before the probe stopped. */
  function BitsRead(p: seq<nat>): nat {
    var r := FirstTimeout(p, 0);
    if r < 2 then 0 else (r - 2) / 2
  }

  /** The whole bytes read, each stored into the buffer as soon as its last bit arrives. */
  function BytesRead(p: seq<nat>): nat {
    BitsRead(p) / 8
  }

  /** The buffer after a probe: the bytes read replace the old ones, the rest stay. */
  function AfterProbe(before: seq<Byte>, p: seq<nat>): (b: seq<Byte>)
    requires |before| == 5
    ensures |b| == 5
  {
    seq(5, j requires 0 <= j < 5 => if j < BytesRead(p) then ByteOf(p, j) else before[j])
  }

  /** The checksum byte is the low byte of the sum of the other four. */
  predicate ChecksumOk(b: seq<Byte>)
    requires |b| == 5
  {
    b[4] as int == (b[0] as int + b[1] as int + b[2] as int + b[3] as int) % 256
  }

  /** A frame the class accepts: a matching checksum and a nonzero humidity or temperature byte. */
  predicate Accepted(b: seq<Byte>)
    requires |b| == 5
  {
    ChecksumOk(b) && (b[0] != 0 || b[2] != 0)
  }

  /** A probe succeeds when it completes and the frame it read is accepted. */
  predicate Succeeds(before: seq<Byte>, p: seq<nat>)
    requires |before| == 5
  {
    Complete(p) && Accepted(AfterProbe(before, p))
  }

  /** Only a complete probe reads all five bytes, and then the old buffer is forgotten. */
  lemma CompleteReadsAll(before: seq<Byte>, p: seq<nat>)
    requires |before| == 5
    ensures BytesRead(p) <= 5
    ensures Complete(p) <==> BitsRead(p) == 40
    ensures Complete(p) ==> AfterProbe(before, p) == seq(5, j requires 0 <= j < 5 => ByteOf(p, j))
  {
  }

  /** A probe whose phase k is too long for some k < PhaseCount always fails. */
  lemma TimeoutFails(before: seq<Byte>, p: seq<nat>, k: nat)
    requires |before| == 5 && k < PhaseCount && TimesOut(p, k)
    ensures !Succeeds(before, p)
  {
  }

  /** Doubling a byte register modulo 256 and adding a bit keeps the low byte of the doubled value. */
  lemma ShiftMod(x: nat, b: nat)
    requires b <= 1
    ensures (2 * (x % 256)) % 256 + b == (2 * x + b) % 256
  {
    var q, r := x / 256, x % 256;
    assert x == 256 * q + r;
    if 2 * r < 256 {
      assert 2 * x + b == 256 * (2 * q) + (2 * r + b);
    } else {
      assert 2 * x + b == 256 * (2 * q + 1) + (2 * r - 256 + b);
    }
  }

  /** The byte register after shifting in bit i holds the last eight bits read. */
  lemma ShiftIn(p: seq<nat>, i: nat)
    ensures (2 * (Bits(p, 0, i) % 256)) % 256 + BitOf(p, i) == Bits(p, 0, i + 1) % 256
  {
    assert Bits(p, 0, i + 1) == 2 * Bits(p, 0, i) + BitOf(p, i);
    ShiftMod(Bits(p, 0, i), BitOf(p, i));
  }

  /** After bit 8k+7 the register holds byte k. */
  lemma RegisterHoldsByte(p: seq<nat>, k: nat)
    ensures Bits(p, 0, 8 * k + 8) % 256 == ByteOf(p, k) as int
  {
    BitsSplit(p, 0, 8 * k, 8);
    BitsBound(p, 8 * k, 8);
    ByteWidth();
    LowByte(Bits(p, 0, 8 * k), Bits(p, 8 * k, 8));
  }

  /** The buffer after the first n bytes of a probe have been stored. */
  function Stored(before: seq<Byte>, p: seq<nat>, n: nat): (b: seq<Byte>)
    requires |before| == 5
    ensures |b| == 5
  {
    seq(5, j requires 0 <= j < 5 => if j < n then ByteOf(p, j) else before[j])
  }

  /** A probe that first times out at phase k has stored the bytes whose bits all ended before k. */
  lemma StoppedAt(before: seq<Byte>, p: seq<nat>, k: nat)
    requires |before| == 5 && k < PhaseCount
    requires forall j :: 0 <= j < k ==> !TimesOut(p, j)
    requires TimesOut(p, k)
    ensures !Complete(p) && !Succeeds(before, p)
    ensures AfterProbe(before, p) == Stored(before, p, (if k < 2 then 0 else (k - 2) / 2) / 8)
  {
    FirstTimeoutIs(p, 0, k);
  }

  /** A complete probe succeeds exactly when the frame it read is accepted. */
  lemma CompleteSucceeds(before: seq<Byte>, p: seq<nat>, frame: seq<Byte>)
    requires |before| == 5 && Complete(p) && frame == AfterProbe(before, p)
    ensures Succeeds(before, p) == Accepted(frame)
  {
  }

  /** A probe that never times out has stored all five bytes. */
  lemma StoppedNowhere(before: seq<Byte>, p: seq<nat>)
    requires |before| == 5
    requires forall j :: 0 <= j < PhaseCount ==> !TimesOut(p, j)
    ensures Complete(p) && AfterProbe(before, p) == Stored(before, p, 5)
  {
    FirstTimeoutNone(p, 0);
  }

  /** FirstTimeout finds the first phase that times out. */
  lemma {:induction false} FirstTimeoutIs(p: seq<nat>, m: nat, k: nat)
    requires m <= k < PhaseCount
    requires forall j :: m <= j < k ==> !TimesOut(p, j)
    requires TimesOut(p, k)
    ensures FirstTimeout(p, m) == k
    decreases k - m
  {
    if m < k {
      FirstTimeoutIs(p, m + 1, k);
    }
  }

  /** FirstTimeout is PhaseCount when no phase times out. */
  lemma {:induction false} FirstTimeoutNone(p: seq<nat>, m: nat)
    requires m <= PhaseCount
    requires forall j :: m <= j < PhaseCount ==> !TimesOut(p, j)
    ensures FirstTimeout(p, m) == PhaseCount
    decreases PhaseCount - m
  {
    if m < PhaseCount {
      FirstTimeoutNone(p, m + 1);
    }
  }

  class Sensor {
    const kind: Kind
    const buffer: array<Byte>
    var updateSuccessful: bool
    var lastUpdate: real

    predicate Valid()
      reads this
    {
      buffer.Length == 5
    }

    /** A sensor of the given kind made at time now: nothing read yet. */
    constructor(kind: Kind, now: real)
      ensures Valid() && fresh(buffer)
      ensures this.kind == kind && buffer[..] == [0, 0, 0, 0, 0]
      ensures !updateSuccessful && lastUpdate == now
    {
      this.kind := kind;
      buffer := new Byte[5](_ => 0);
      updateSuccessful := false;
      lastUpdate := now;
    }

    /** Stores the register into byte k when bit i ends a byte. */
    method StoreByte(ghost before: seq<Byte>, p: seq<nat>, i: nat, register: int)
      requires Valid() && |before| == 5 && i < 40
      requires buffer[..] == Stored(before, p, i / 8)
      requires register == Bits(p, 0, i + 1) % 256
      modifies buffer
      ensures buffer[..] == Stored(before, p, (i + 1) / 8)
    {
      if (i + 1) % 8 == 0 {
        var k := i / 8;
        assert i + 1 == 8 * k + 8;
        RegisterHoldsByte(p, k);
        buffer[k] := register as Byte;
        assert buffer[..] == Stored(before, p, k + 1);
      } else {
        assert (i + 1) / 8 == i / 8;
      }
    }

    /** The end of a complete probe: the checksum and the nonzero test decide updateSuccessful. */
    method CheckFrame()
      requires Valid() && !updateSuccessful
      modifies this
      ensures updateSuccessful == Accepted(buffer[..]) && lastUpdate == old(lastUpdate)
    {
      if buffer[4] as int == (buffer[0] as int + buffer[1] as int + buffer[2] as int + buffer[3] as int) % 256 {
        updateSuccessful := buffer[0] != 0 || buffer[2] != 0;
      }
    }

    /** ReadPin: one probe, started at time start and ending at time finish. */
    method ReadPin(start: real, p: seq<nat>, finish: real)
      requires Valid()
      modifies this, buffer
      ensures buffer[..] == AfterProbe(old(buffer[..]), p)
      ensures updateSuccessful == Succeeds(old(buffer[..]), p)
      ensures lastUpdate == if Complete(p) then finish else start
    {
      ghost var before := buffer[..];
      updateSuccessful := false;
      lastUpdate := start;
      assert buffer[..] == Stored(before, p, 0);
      if Phase(p, 0) > TimeoutMicros {
        StoppedAt(before, p, 0);
        return;
      }
      if Phase(p, 1) > TimeoutMicros {
        StoppedAt(before, p, 1);
        return;
      }
      var register := 0;
      var i := 0;
      while i < 40
        invariant 0 <= i <= 40
        invariant forall j :: 0 <= j < 2 + 2 * i ==> !TimesOut(p, j)
        invariant register == Bits(p, 0, i) % 256
        invariant buffer[..] == Stored(before, p, i / 8)
        invariant !updateSuccessful && lastUpdate == start
      {
        if Phase(p, 2 + 2 * i) > TimeoutMicros {
          StoppedAt(before, p, 2 + 2 * i);
          assert (2 + 2 * i - 2) / 2 == i;
          return;
        }
        if Phase(p, 3 + 2 * i) > TimeoutMicros {
          StoppedAt(before, p, 3 + 2 * i);
          assert (3 + 2 * i - 2) / 2 == i;
          return;
        }
        ShiftIn(p, i);
        register := (register * 2) % 256;
        if Phase(p, 3 + 2 * i) > OneMicros {
          register := register + 1;
        }
        StoreByte(before, p, i, register);
        i := i + 1;
      }
      CheckFrame();
      StoppedNowhere(before, p);
      CompleteSucceeds(before, p, buffer[..]);
      lastUpdate := finish;
    }

    /**
     * ReadData: probes unless less than a second has passed since the last probe, in which case
     * the buffer and the last result stay.
     */
    method ReadData(now: real, p: seq<nat>, finish: real)
      requires Valid()
      modifies this, buffer
      ensures now - old(lastUpdate) < MinInterval ==>
        buffer[..] == old(buffer[..]) && updateSuccessful == old(updateSuccessful) && lastUpdate == old(lastUpdate)
      ensures now - old(lastUpdate) >= MinInterval ==>
        buffer[..] == AfterProbe(old(buffer[..]), p) && updateSuccessful == Succeeds(old(buffer[..]), p) &&
        lastUpdate == (if Complete(p) then finish else now)
    {
      if now - lastUpdate < MinInterval {
        return;
      }
      ReadPin(now, p, finish);
    }

    /** Update: probes (subject to the rate limit) and answers whether the last probe succeeded. */
    method Update(now: real, p: seq<nat>, finish: real) returns (ok: bool)
      requires Valid()
      modifies this, buffer
      ensures ok == updateSuccessful
      ensures now - old(lastUpdate) < MinInterval ==>
        buffer[..] == old(buffer[..]) && ok == old(updateSuccessful) && lastUpdate == old(lastUpdate)
      ensures now - old(lastUpdate) >= MinInterval ==>
        buffer[..] == AfterProbe(old(buffer[..]), p) && ok == Succeeds(old(buffer[..]), p) &&
        lastUpdate == (if Complete(p) then finish else now)
    {
      ReadData(now, p, finish);
      ok := updateSuccessful;
    }

    /** Temperature, in tenths of a degree: None (NaN) when the update fails. */
    method Temperature(now: real, p: seq<nat>, finish: real) returns (t: Option<int>)
      requires Valid()
      modifies this, buffer
      ensures t == if updateSuccessful then Some(DhtDecoders.Temperature(kind, buffer[..])) else None
      ensures now - old(lastUpdate) < MinInterval ==> buffer[..] == old(buffer[..]) && lastUpdate == old(lastUpdate)
      ensures now - old(lastUpdate) >= MinInterval ==> buffer[..] == AfterProbe(old(buffer[..]), p)
    {
      var ok := Update(now, p, finish);
      t := if ok then Some(DhtDecoders.Temperature(kind, buffer[..])) else None;
    }

    /** Humidity, in tenths of a percent: None (NaN) when the update fails. */
    method Humidity(now: real, p: seq<nat>, finish: real) returns (h: Option<int>)
      requires Valid()
      modifies this, buffer
      ensures h == if updateSuccessful then Some(DhtDecoders.Humidity(kind, buffer[..])) else None
      ensures now - old(lastUpdate) < MinInterval ==> buffer[..] == old(buffer[..]) && lastUpdate == old(lastUpdate)
      ensures now - old(lastUpdate) >= MinInterval ==> buffer[..] == AfterProbe(old(buffer[..]), p)
    {
      var ok := Update(now, p, finish);
      h := if ok then Some(DhtDecoders.Humidity(kind, buffer[..])) else None;
    }
  }
}
