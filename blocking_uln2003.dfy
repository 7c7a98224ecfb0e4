/**
 * The blocking Uln2003 class of the Tests project: `Step(count)` runs a loop that writes |count|
 * coil patterns, restarting the engine phase at 0 on every call. The stopwatch the loop polls
 * is not modelled: each iteration of the model's loop is one iteration of the source's loop in
 * which the step delay has elapsed. The pins are represented by the patterns written to them,
 * one entry per round of writes to every pin.
 */
module BlockingUln2003 {
  import opened Wrappers
  import opened CoilSequences

  /** Dividing by a zero step count: a DivideByZeroException. */
  datatype StepError = DivideByZero

  /** C#'s `short`. */
  newtype Short = x: int | -32768 <= x < 32768

  /** `defaultDelay`, in microseconds. */
  const DefaultDelay := 1000

  /** Microseconds per minute, `60 * 1000 * 1000`. */
  const MicrosPerMinute := 60000000

  /** C#'s integer `/`: the quotient truncated toward zero. */
  function TruncDiv(a: int, b: int): (q: int)
    requires b != 0
    ensures b > 0 && a >= 0 ==> q * b <= a < (q + 1) * b
  {
    if (a >= 0) == (b > 0) then (if a >= 0 then a / b else -a / -b)
    else -(if a >= 0 then a / -b else -a / b)
  }

  /** Multiplying both sides of `x <= y` by a positive factor keeps the order. */
  lemma ScaleLe(x: int, y: int, m: int)
    requires x <= y && m > 0
    ensures x * m <= y * m
  {
  }

  /**
   * The step delay in microseconds: `60,000,000 / steps / RPM` in integer division when RPM is
   * positive, else the default of 1000. For positive steps per rotation it is the longest whole
   * number of microseconds that fits `steps * RPM` steps into a minute.
   */
  function StepDelay(rpm: Short, steps: int): (r: Result<int, StepError>)
    ensures r.Err? <==> rpm > 0 && steps == 0
    ensures rpm <= 0 ==> r == Ok(DefaultDelay)
    ensures rpm > 0 && steps > 0 ==> r.Ok? && r.value * steps * rpm as int <= MicrosPerMinute < (r.value + 1) * steps * rpm as int
  {
    if rpm <= 0 then Ok(DefaultDelay)
    else if steps == 0 then Err(DivideByZero)
    else
      var q := TruncDiv(MicrosPerMinute, steps);
      var d := TruncDiv(q, rpm as int);
      assert steps > 0 ==> d * steps * rpm as int <= MicrosPerMinute < (d + 1) * steps * rpm as int by {
        if steps > 0 {
          // d * rpm <= q < (d + 1) * rpm and q * steps <= 60,000,000 < (q + 1) * steps
          ScaleLe(d * rpm as int, q, steps);
          ScaleLe(q + 1, (d + 1) * rpm as int, steps);
          assert d * steps * rpm as int == d * rpm as int * steps;
          assert (d + 1) * steps * rpm as int == (d + 1) * rpm as int * steps;
        }
      }
      Ok(d)
  }

  /** The engine phase after k >= 1 ticks from 0: clockwise 8, 7, ..., 1, 8, ...; otherwise 1, 2, ..., 8, 1, ... */
  function Phase(k: nat, clockwise: bool): (e: int)
    requires k >= 1
    ensures 1 <= e <= 8
  {
    if clockwise then 8 - (k - 1) % 8 else (k - 1) % 8 + 1
  }

  /** The pattern the pins receive at engine phase e: column e - 1, over as many pins as there are. */
  function Pattern(mode: Table, e: int, width: nat): seq<bool>
    requires 1 <= e <= 8 && width <= 4
  {
    Column(mode, e - 1)[..width]
  }

  /** The n patterns one call of Step writes. */
  function Walk(mode: Table, clockwise: bool, n: nat, width: nat): (w: seq<seq<bool>>)
    requires width <= 4
    ensures |w| == n
  {
    seq(n, k requires 0 <= k < n => Pattern(mode, Phase(k + 1, clockwise), width))
  }

  /** One more tick extends the walk by the pattern of the next phase. */
  lemma WalkNext(mode: Table, clockwise: bool, n: nat, width: nat)
    requires width <= 4
    ensures Walk(mode, clockwise, n + 1, width) == Walk(mode, clockwise, n, width) + [Pattern(mode, Phase(n + 1, clockwise), width)]
  {
  }

  /** The loop's update of the engine phase: down with 1 wrapping to 8, or up with 8 wrapping to 1. */
  function NextPhase(e: int, clockwise: bool): int {
    if clockwise then (if e - 1 < 1 then 8 else e - 1) else (if e + 1 > 8 then 1 else e + 1)
  }

  /** The wrap-around update of the loop, started at 0, follows the closed form of Phase. */
  lemma PhaseStep(k: nat, clockwise: bool)
    ensures Phase(k + 1, clockwise) == NextPhase(if k == 0 then 0 else Phase(k, clockwise), clockwise)
  {
  }

  class Uln2003 {
    /** `stepsToRotate`: half steps per rotation, given at construction. */
    const stepsToRotate: int
    /** The GPIO numbers wired to IN1..IN4; empty after Dispose. */
    var pins: seq<int>
    var mode: Table
    /** `stepsToRotateInMode`. */
    var stepsInMode: int
    var rpm: Short
    /** Every pattern written to the pins, in order. */
    var patterns: seq<seq<bool>>
    /** The pin numbers disposed so far, in call order. */
    var closed: seq<int>

    ghost predicate Valid()
      reads this
    {
      |pins| == 0 || |pins| == 4
    }

    /** The Mode setter: the table, and all of stepsToRotate or half of it. */
    static function StepsInMode(stepsToRotate: int, mode: Table): (r: int)
      ensures mode == HalfStep ==> r == stepsToRotate
      ensures mode != HalfStep && stepsToRotate >= 0 ==> 2 * r <= stepsToRotate <= 2 * r + 1
    {
      if mode == HalfStep then stepsToRotate else TruncDiv(stepsToRotate, 2)
    }

    constructor(pin1: int, pin2: int, pin3: int, pin4: int, halfModeSteps: int)
      ensures Valid() && pins == [pin1, pin2, pin3, pin4] && stepsToRotate == halfModeSteps
      ensures mode == HalfStep && stepsInMode == halfModeSteps && rpm == 0
      ensures patterns == [] && closed == []
    {
      pins := [pin1, pin2, pin3, pin4];
      stepsToRotate := halfModeSteps;
      mode := HalfStep;
      stepsInMode := halfModeSteps;
      rpm := 0;
      patterns := [];
      closed := [];
    }

    method SetMode(value: Table)
      requires Valid()
      modifies this`mode, this`stepsInMode
      ensures Valid() && mode == value && stepsInMode == StepsInMode(stepsToRotate, value)
    {
      mode := value;
      match mode
      case HalfStep =>
        stepsInMode := stepsToRotate;
      case SinglePhase =>
        stepsInMode := TruncDiv(stepsToRotate, 2);
      case DualPhase =>
        stepsInMode := TruncDiv(stepsToRotate, 2);
    }

    method SetRpm(value: Short)
      modifies this`rpm
      ensures rpm == value
    {
      rpm := value;
    }

    /** Stop: every pin low. */
    method Stop()
      requires Valid()
      modifies this`patterns
      ensures Valid() && patterns == old(patterns) + [AllLow[..|pins|]]
    {
      patterns := patterns + [AllLow[..|pins|]];
    }

    /**
     * Step(count): |count| ticks, clockwise (count >= 0) decrementing the engine phase with 1
     * wrapping to 8, counter-clockwise incrementing it with 8 wrapping to 1, each tick writing
     * the phase's column to the pins. The phase restarts at 0 on every call. The delay is
     * computed first, so a zero steps-per-rotation with a positive RPM throws before any write.
     */
    method Step(count: int) returns (r: Outcome<StepError>)
      requires Valid()
      modifies this`patterns
      ensures Valid()
      ensures r.Fail? <==> rpm > 0 && stepsInMode == 0
      ensures r.Pass? ==> patterns == old(patterns) + Walk(mode, count >= 0, if count < 0 then -count else count, |pins|)
      ensures r.Fail? ==> patterns == old(patterns)
    {
      var delay := StepDelay(rpm, stepsInMode);
      if delay.Err? {
        return Fail(delay.error);
      }
      var clockwise := count >= 0;
      var n := if count < 0 then -count else count;
      var engineStep := 0;
      var step := 0;
      while step < n
        invariant Valid() && 0 <= step <= n
        invariant engineStep == if step == 0 then 0 else Phase(step, clockwise)
        invariant patterns == old(patterns) + Walk(mode, clockwise, step, |pins|)
      {
        PhaseStep(step, clockwise);
        WalkNext(mode, clockwise, step, |pins|);
        if clockwise {
          engineStep := if engineStep - 1 < 1 then 8 else engineStep - 1;
        } else {
          engineStep := if engineStep + 1 > 8 then 1 else engineStep + 1;
        }
        assert engineStep == Phase(step + 1, clockwise);
        patterns := patterns + [Pattern(mode, engineStep, |pins|)];
        step := step + 1;
      }
      r := Pass;
    }

    /** Dispose: stops when there are pins, disposes each, and leaves an empty pin array. */
    method Dispose()
      requires Valid()
      modifies this`patterns, this`closed, this`pins
      ensures Valid() && pins == [] && closed == old(closed) + old(pins)
      ensures patterns == if |old(pins)| > 0 then old(patterns) + [AllLow] else old(patterns)
    {
      if |pins| > 0 {
        Stop();
        assert AllLow[..4] == AllLow;
      }
      closed := closed + pins;
      pins := [];
    }
  }

  /** Eight ticks in either direction bring the phase back: the walk repeats every 8 patterns. */
  lemma {:induction false} WalkPeriodic(mode: Table, clockwise: bool, n: nat, width: nat, k: nat)
    requires width <= 4 && k + 8 < n
    ensures Walk(mode, clockwise, n, width)[k + 8] == Walk(mode, clockwise, n, width)[k]
  {
    assert (k + 8) % 8 == k % 8;
  }
}
