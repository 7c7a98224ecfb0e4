/**
 * The FT4222 SPI master's clock choice: a system clock and a power-of-two divider whose quotient
 * is the SPI clock, chosen so that it never exceeds the requested frequency where that is
 * possible; and the SPI mode's split into clock polarity and clock phase.
 */
module Ft4222Clocks {

  /** `FtClockRate`: the chip's system clock. */
  datatype SystemClock = Clock24MHz | Clock48MHz | Clock60MHz | Clock80MHz

  /** `SpiClock`: the divider from system clock to SPI clock. */
  datatype SpiDivider = DivideBy1 | DivideBy2 | DivideBy4 | DivideBy8 | DivideBy16
                      | DivideBy32 | DivideBy64 | DivideBy128 | DivideBy256

  function Hertz(c: SystemClock): nat {
    match c
    case Clock24MHz => 24000000
    case Clock48MHz => 48000000
    case Clock60MHz => 60000000
    case Clock80MHz => 80000000
  }

  function Divisor(d: SpiDivider): nat {
    match d
    case DivideBy1 => 1
    case DivideBy2 => 2
    case DivideBy4 => 4
    case DivideBy8 => 8
    case DivideBy16 => 16
    case DivideBy32 => 32
    case DivideBy64 => 64
    case DivideBy128 => 128
    case DivideBy256 => 256
  }

  /** The SPI clock a system clock and divider give; every pair divides evenly. */
  function Rate(c: SystemClock, d: SpiDivider): (r: nat)
    ensures r * Divisor(d) == Hertz(c)
  {
    match d
    case DivideBy1 => Hertz(c)
    case DivideBy2 => Hertz(c) / 2
    case DivideBy4 => Hertz(c) / 4
    case DivideBy8 => Hertz(c) / 8
    case DivideBy16 => Hertz(c) / 16
    case DivideBy32 => Hertz(c) / 32
    case DivideBy64 => Hertz(c) / 64
    case DivideBy128 => Hertz(c) / 128
    case DivideBy256 => Hertz(c) / 256
  }

  /** The slowest SPI clock the chip can make: 24 MHz / 256. */
  const Slowest := 93750

  /** The fastest: 80 MHz / 1. */
  const Fastest := 80000000

  /**
   * CalculateBestClockRate: each threshold is the rate the branch returns, so a request is
   * served by the fastest rate not above it; below the lowest threshold the slowest rate.
   */
  function BestClockRate(f: int): (r: (SystemClock, SpiDivider))
    ensures f < 187500 ==> r == (Clock24MHz, DivideBy256)
    ensures f >= Fastest ==> r == (Clock80MHz, DivideBy1)
  {
    if f < 187500 then (Clock24MHz, DivideBy256)
    else if f < 234375 then (Clock48MHz, DivideBy256)
    else if f < 312500 then (Clock60MHz, DivideBy256)
    else if f < 375000 then (Clock80MHz, DivideBy256)
    else if f < 468750 then (Clock48MHz, DivideBy128)
    else if f < 625000 then (Clock60MHz, DivideBy128)
    else if f < 750000 then (Clock80MHz, DivideBy128)
    else if f < 937500 then (Clock48MHz, DivideBy64)
    else if f < 1250000 then (Clock60MHz, DivideBy64)
    else if f < 1500000 then (Clock80MHz, DivideBy64)
    else if f < 1875000 then (Clock48MHz, DivideBy32)
    else if f < 2500000 then (Clock60MHz, DivideBy32)
    else if f < 3000000 then (Clock80MHz, DivideBy32)
    else if f < 3750000 then (Clock48MHz, DivideBy16)
    else if f < 5000000 then (Clock60MHz, DivideBy16)
    else if f < 6000000 then (Clock80MHz, DivideBy16)
    else if f < 7500000 then (Clock48MHz, DivideBy8)
    else if f < 10000000 then (Clock60MHz, DivideBy8)
    else if f < 12000000 then (Clock80MHz, DivideBy8)
    else if f < 15000000 then (Clock48MHz, DivideBy4)
    else if f < 20000000 then (Clock60MHz, DivideBy4)
    else if f < 24000000 then (Clock80MHz, DivideBy4)
    else if f < 30000000 then (Clock48MHz, DivideBy2)
    else if f < 40000000 then (Clock60MHz, DivideBy2)
    else if f < 48000000 then (Clock80MHz, DivideBy2)
    else if f < 60000000 then (Clock48MHz, DivideBy1)
    else if f < 80000000 then (Clock60MHz, DivideBy1)
    else (Clock80MHz, DivideBy1)
  }

  /** The SPI clock CalculateBestClockRate chooses for a request of f Hz. */
  function BestRate(f: int): nat {
    var (c, d) := BestClockRate(f);
    Rate(c, d)
  }

  /** Every clock the chip can make lies between the slowest and the fastest. */
  lemma RateBounds(c: SystemClock, d: SpiDivider)
    ensures Slowest <= Rate(c, d) <= Fastest
  {
  }

  /**
   * From 93,750 Hz up, the chosen clock never exceeds the request, and no system clock and
   * divider give a faster clock that still does not exceed it: the choice is the largest
   * achievable rate at most f.
   */
  lemma BestIsLargestNotAbove(f: int, c: SystemClock, d: SpiDivider)
    requires f >= Slowest
    ensures BestRate(f) <= f
    ensures Rate(c, d) <= f ==> Rate(c, d) <= BestRate(f)
  {
    match d
    case DivideBy1 =>
    case DivideBy2 =>
    case DivideBy4 =>
    case DivideBy8 =>
    case DivideBy16 =>
    case DivideBy32 =>
    case DivideBy64 =>
    case DivideBy128 =>
    case DivideBy256 =>
  }

  /** Below 187,500 Hz the choice is 24 MHz / 256 = 93,750 Hz, the slowest clock possible. */
  lemma BelowRangeIsSlowest(f: int, c: SystemClock, d: SpiDivider)
    requires f < 187500
    ensures BestRate(f) == Slowest <= Rate(c, d)
  {
    RateBounds(c, d);
  }

  /** A faster request never gets a slower clock. */
  lemma BestRateMonotone(f1: int, f2: int)
    requires f1 <= f2
    ensures BestRate(f1) <= BestRate(f2)
  {
    var (c, d) := BestClockRate(f1);
    if f1 < Slowest {
      BelowRangeIsSlowest(f1, BestClockRate(f2).0, BestClockRate(f2).1);
    } else {
      BestIsLargestNotAbove(f1, c, d);
      BestIsLargestNotAbove(f2, c, d);
    }
  }

  /** `SpiMode`: Mode0..Mode3. */
  datatype SpiMode = Mode0 | Mode1 | Mode2 | Mode3

  /** `SpiClockPolarity`. */
  datatype ClockPolarity = ClockIdleLow | ClockIdleHigh

  /** `SpiClockPhase`. */
  datatype ClockPhase = ClockLeading | ClockTrailing

  /** Mode2 and Mode3 idle high; Mode1 and Mode3 sample on the trailing edge. */
  function PolarityOf(m: SpiMode): (p: ClockPolarity)
    ensures p == ClockIdleHigh <==> m == Mode2 || m == Mode3
  {
    if m == Mode2 || m == Mode3 then ClockIdleHigh else ClockIdleLow
  }

  function PhaseOf(m: SpiMode): (p: ClockPhase)
    ensures p == ClockTrailing <==> m == Mode1 || m == Mode3
  {
    if m == Mode1 || m == Mode3 then ClockTrailing else ClockLeading
  }

  /** The standard numbering: mode number = 2 * CPOL + CPHA. */
  function ModeNumber(m: SpiMode): nat {
    match m
    case Mode0 => 0
    case Mode1 => 1
    case Mode2 => 2
    case Mode3 => 3
  }

  function Bit(b: bool): nat {
    if b then 1 else 0
  }

  /** The split follows the CPOL/CPHA numbering, and it is one-to-one: each mode has its own pair. */
  lemma PolarityPhaseNumbering(m: SpiMode, n: SpiMode)
    ensures ModeNumber(m) == 2 * Bit(PolarityOf(m) == ClockIdleHigh) + Bit(PhaseOf(m) == ClockTrailing)
    ensures PolarityOf(m) == PolarityOf(n) && PhaseOf(m) == PhaseOf(n) ==> m == n
  {
  }
}
