/**
 * BipoleDriver: a step/direction stepper driver (DRV8825/A4988 style) with an enable pin and
 * three microstep mode pins M0..M2. Each pin is represented by the level last written to it; the
 * waits between writes are not modelled.
 */
module BipoleDrivers {
  import opened Wrappers
  import opened Powers

  /** Using a pin after Dispose set it to null: a NullReferenceException. */
  datatype DriverError = PinsDisposed

  /** `BipoleMode`: FullStep = 0 up to ThirtySecondStep = 5; each mode halves the step. */
  const FullStep := 0
  const ThirtySecondStep := 5

  /** A double-to-int cast: truncation toward zero. */
  function Trunc(x: real): int {
    if x >= 0.0 then x.Floor else -((-x).Floor)
  }

  /** Bit i of a mode number, as the level of mode pin Mi. */
  predicate ModeBit(v: int, i: nat)
    requires 0 <= v
  {
    v / Pow2(i) % 2 == 1
  }

  class BipoleDriver {
    /** The full-step angle in degrees. */
    const angle: real
    const pinNumbers: seq<int>
    var mode: int
    var stepLevel: bool
    var dirLevel: bool
    var enableLevel: bool
    var m0: bool
    var m1: bool
    var m2: bool
    /** False once Dispose has set the pins to null. */
    var open: bool
    /** Every level written to the step pin, in order. */
    var stepWrites: seq<bool>
    /** The pin numbers closed so far, in call order. */
    var closed: seq<int>

    ghost predicate Valid()
      reads this
    {
      |pinNumbers| == 6 && FullStep <= mode <= ThirtySecondStep
    }

    /** The model starts with every pin low and mode 0 (the field's default). */
    constructor(stepAngle: real, pinStep: int, pinDir: int, pinEnable: int, pinM0: int, pinM1: int, pinM2: int)
      ensures Valid() && open && angle == stepAngle && mode == FullStep
      ensures pinNumbers == [pinStep, pinDir, pinEnable, pinM0, pinM1, pinM2]
      ensures !stepLevel && !dirLevel && !enableLevel && !m0 && !m1 && !m2
      ensures stepWrites == [] && closed == []
    {
      angle := stepAngle;
      pinNumbers := [pinStep, pinDir, pinEnable, pinM0, pinM1, pinM2];
      mode := FullStep;
      stepLevel, dirLevel, enableLevel := false, false, false;
      m0, m1, m2 := false, false, false;
      open := true;
      stepWrites := [];
      closed := [];
    }

    /** The dir pin is high exactly for a negative direction. */
    method SetDirection(value: int) returns (r: Outcome<DriverError>)
      requires Valid()
      modifies this`dirLevel
      ensures Valid()
      ensures r.Pass? <==> open
      ensures dirLevel == if open then value < 0 else old(dirLevel)
    {
      if !open {
        return Fail(PinsDisposed);
      }
      dirLevel := value < 0;
      r := Pass;
    }

    method SetEnable(value: bool) returns (r: Outcome<DriverError>)
      requires Valid()
      modifies this`enableLevel
      ensures Valid()
      ensures r.Pass? <==> open
      ensures enableLevel == if open then value else old(enableLevel)
    {
      if !open {
        return Fail(PinsDisposed);
      }
      enableLevel := value;
      r := Pass;
    }

    /**
     * Modes 1..5 put bits 0, 1 and 2 of the mode number on M0, M1 and M2 and store it; every
     * other value drives all three low and stores mode 0.
     */
    method SetMode(value: int) returns (r: Outcome<DriverError>)
      requires Valid()
      modifies this`m0, this`m1, this`m2, this`mode
      ensures Valid()
      ensures r.Pass? <==> open
      ensures !open ==> mode == old(mode) && m0 == old(m0) && m1 == old(m1) && m2 == old(m2)
      ensures open ==> mode == if 1 <= value <= 5 then value else FullStep
      ensures open ==> m0 == ModeBit(mode, 0) && m1 == ModeBit(mode, 1) && m2 == ModeBit(mode, 2)
    {
      if !open {
        return Fail(PinsDisposed);
      }
      match value {
        case 1 =>
          m0, m1, m2 := true, false, false;
          mode := 1;
        case 2 =>
          m0, m1, m2 := false, true, false;
          mode := 2;
        case 3 =>
          m0, m1, m2 := true, true, false;
          mode := 3;
        case 4 =>
          m0, m1, m2 := false, false, true;
          mode := 4;
        case 5 =>
          m0, m1, m2 := true, false, true;
          mode := 5;
        case _ =>
          m0, m1, m2 := false, false, false;
          mode := 0;
      }
      r := Pass;
    }

    /** One pulse on the step pin: high, then low. */
    method Step() returns (r: Outcome<DriverError>)
      requires Valid()
      modifies this`stepLevel, this`stepWrites
      ensures Valid()
      ensures r.Pass? <==> open
      ensures open ==> !stepLevel && stepWrites == old(stepWrites) + [true, false]
      ensures !open ==> stepLevel == old(stepLevel) && stepWrites == old(stepWrites)
    {
      if !open {
        return Fail(PinsDisposed);
      }
      stepLevel := true;
      stepWrites := stepWrites + [true];
      stepLevel := false;
      stepWrites := stepWrites + [false];
      r := Pass;
    }

    /**
     * Steps per rotation: full steps per rotation (360 over the step angle) times 2^mode,
     * truncated toward zero.
     */
    function GetSPR(): (r: int)
      reads this
      requires Valid() && angle != 0.0
      ensures angle > 0.0 ==> r as real <= 360.0 / angle * Pow2(mode) as real < r as real + 1.0
      ensures angle < 0.0 ==> r as real - 1.0 < 360.0 / angle * Pow2(mode) as real <= r as real
    {
      match mode
      case 1 => Trunc(360.0 / angle * 2.0)
      case 2 => Trunc(360.0 / angle * 4.0)
      case 3 => Trunc(360.0 / angle * 8.0)
      case 4 => Trunc(360.0 / angle * 16.0)
      case 5 => Trunc(360.0 / angle * 32.0)
      case _ => Trunc(360.0 / angle)
    }

    /** Drives all six pins low and closes them once; later calls return at once. */
    method Dispose()
      requires Valid()
      modifies this`stepLevel, this`dirLevel, this`enableLevel, this`m0, this`m1, this`m2
      modifies this`open, this`stepWrites, this`closed
      ensures Valid() && !open
      ensures old(open) ==> !stepLevel && !dirLevel && !enableLevel && !m0 && !m1 && !m2
      ensures old(open) ==> closed == old(closed) + pinNumbers && stepWrites == old(stepWrites) + [false]
      ensures !old(open) ==> closed == old(closed) && stepWrites == old(stepWrites)
      ensures !old(open) ==> stepLevel == old(stepLevel) && dirLevel == old(dirLevel) && enableLevel == old(enableLevel)
      ensures !old(open) ==> m0 == old(m0) && m1 == old(m1) && m2 == old(m2)
    {
      if !open {
        return;
      }
      stepLevel := false;
      stepWrites := stepWrites + [false];
      dirLevel, enableLevel := false, false;
      m0, m1, m2 := false, false, false;
      closed := closed + pinNumbers;
      open := false;
    }
  }

  /**
   * For a step angle that divides the circle a whole n times (1.8 degrees gives 200), the steps
   * per rotation are exactly n * 2^mode: each microstep mode doubles them.
   */
  lemma WholeStepsPerRotation(d: BipoleDriver, n: nat)
    requires d.Valid() && d.angle > 0.0 && 360.0 / d.angle == n as real
    ensures d.GetSPR() == n * Pow2(d.mode)
  {
    var x := 360.0 / d.angle * Pow2(d.mode) as real;
    assert x == (n * Pow2(d.mode)) as real;
  }
}
