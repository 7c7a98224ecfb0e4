/**
 * UnipoleDriver: a four-wire unipolar stepper driver (ULN2003 board) that walks an eight-phase
 * index through the coil sequence of its mode. The four GPIO pins are represented by the level
 * last written to each; the pin objects' own guards are modelled in PiGpio.
 */
module UnipoleDrivers {
  import opened Wrappers
  import opened CoilSequences

  /** Using the pin array after Dispose set it to null: a NullReferenceException. */
  datatype DriverError = PinsDisposed

  /** `UnipoleMode`: HalfStep = 0, FullStepSinglePhase = 1, FullStepDualPhase = 2. */
  const HalfStepMode := 0
  const SinglePhaseMode := 1
  const DualPhaseMode := 2

  /** The table each stored mode drives. */
  function TableOf(mode: int): Table {
    if mode == SinglePhaseMode then SinglePhase
    else if mode == DualPhaseMode then DualPhase
    else HalfStep
  }

  class UnipoleDriver {
    /** The GPIO numbers wired to IN1..IN4. */
    const pinNumbers: seq<int>
    /** The level last written to each of the four pins. */
    var levels: seq<bool>
    /** False once Dispose has set the pin array to null. */
    var open: bool
    /** The phase index, a column of the table. */
    var step: int
    var mode: int
    var direction: int
    /** `modeData`: the table of the current mode. */
    var table: Table
    /** The pin numbers closed so far, in call order. */
    var closed: seq<int>

    ghost predicate Valid()
      reads this
    {
      |pinNumbers| == 4 && |levels| == 4 && 0 <= step < 8
      && (direction == 1 || direction == -1)
      && (mode == HalfStepMode || mode == SinglePhaseMode || mode == DualPhaseMode)
      && table == TableOf(mode)
    }

    /** The model starts with every coil off. */
    constructor(pin1: int, pin2: int, pin3: int, pin4: int)
      ensures Valid() && open && closed == [] && levels == AllLow
      ensures pinNumbers == [pin1, pin2, pin3, pin4]
      ensures step == 0 && mode == HalfStepMode && direction == 1 && table == HalfStep
    {
      pinNumbers := [pin1, pin2, pin3, pin4];
      levels := AllLow;
      open := true;
      step := 0;
      mode := HalfStepMode;
      direction := 1;
      table := HalfStep;
      closed := [];
    }

    /** Drives every pin to `value && modeData[i, step]`. */
    method DrivePins(value: bool)
      requires Valid()
      modifies this`levels
      ensures Valid()
      ensures levels == if value then Column(table, step) else AllLow
    {
      for i := 0 to 4
        invariant |levels| == 4
        invariant forall k :: 0 <= k < i ==> levels[k] == (value && Coil(table, k, step))
      {
        levels := levels[i := value && Coil(table, i, step)];
      }
    }

    /**
     * Advances the phase index by the direction, wrapping 7 and 0 into each other, then drives
     * column `step` of the table. The index moves even when the pins are gone.
     */
    method Step() returns (r: Outcome<DriverError>)
      requires Valid()
      modifies this`step, this`levels
      ensures Valid()
      ensures step == (old(step) + direction) % 8
      ensures r.Pass? <==> open
      ensures levels == if open then Column(table, step) else old(levels)
    {
      step := step + direction;
      if step < 0 {
        step := 7;
      } else if step > 7 {
        step := 0;
      }
      if !open {
        return Fail(PinsDisposed);
      }
      DrivePins(true);
      r := Pass;
    }

    /** Steps per rotation of the output shaft: 512 engine rotations of Period(table) phases each. */
    function GetSPR(): (r: int)
      reads this
      requires Valid()
      ensures r == 512 * Period(table)
    {
      if mode == SinglePhaseMode || mode == DualPhaseMode then 2048 else 4096
    }

    /** Any negative value means backwards (-1), anything else forwards (1). */
    method SetDirection(value: int)
      requires Valid()
      modifies this`direction
      ensures Valid()
      ensures direction < 0 <==> value < 0
    {
      direction := if value < 0 then -1 else 1;
    }

    /** Modes 1 and 2 select the full-step tables; every other value selects half steps and stores 0. */
    method SetMode(value: int)
      requires Valid()
      modifies this`mode, this`table
      ensures Valid()
      ensures mode == if value == SinglePhaseMode || value == DualPhaseMode then value else HalfStepMode
      ensures table == TableOf(value)
    {
      match value
      case 1 =>
        table := SinglePhase;
        mode := value;
      case 2 =>
        table := DualPhase;
        mode := value;
      case _ =>
        table := HalfStep;
        mode := HalfStepMode;
    }

    /** Enabled, the pins show the current column; disabled, every coil is off. */
    method SetEnable(value: bool) returns (r: Outcome<DriverError>)
      requires Valid()
      modifies this`levels
      ensures Valid()
      ensures r.Pass? <==> open
      ensures levels == if !open then old(levels) else if value then Column(table, step) else AllLow
    {
      if !open {
        return Fail(PinsDisposed);
      }
      DrivePins(value);
      r := Pass;
    }

    /** Turns every coil off and closes the pins once; later calls return at once. */
    method Dispose()
      requires Valid()
      modifies this`levels, this`closed, this`open
      ensures Valid() && !open
      ensures old(open) ==> levels == AllLow && closed == old(closed) + pinNumbers
      ensures !old(open) ==> levels == old(levels) && closed == old(closed)
    {
      if !open {
        return;
      }
      var _ := SetEnable(false);
      for i := 0 to 4
        invariant Valid() && levels == AllLow
        invariant closed == old(closed) + pinNumbers[..i]
      {
        closed := closed + [pinNumbers[i]];
      }
      open := false;
    }
  }
}
