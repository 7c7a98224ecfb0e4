/**
 * Uln2003: a 28BYJ-48 stepper on a ULN2003 board driven directly through four pins, with a
 * position counter, an engine phase 1..8, a FIFO of queued moves and cancellation by bumping a
 * step id. The timer thread, the lock and the waits are not modelled: a step task advances one
 * tick per call of TakeStep, and RunStepTask is the timer calling it until it returns false.
 */
module Uln2003Motors {
  import opened Wrappers
  import opened CoilSequences
  import opened StepTasks

  /** Using the pin array after Dispose set it to null: a NullReferenceException. */
  datatype MotorError = PinsDisposed

  /** Half steps per rotation of the output shaft: 8 phases times 512 engine rotations. */
  const HalfSteps := 4096

  /** `minRPM`: one half step per 0.2 ms, `1 / (4096 * 0.2 / 60)` rotations per minute. */
  const MinRpm: real := 75.0 / 1024.0

  /** Steps per rotation in each mode: `halfSteps`, or half of it in the full-step modes. */
  function StepsPerRotation(mode: Table): (r: int)
    ensures r == 512 * Period(mode)
  {
    if mode == HalfStep then HalfSteps else HalfSteps / 2
  }

  /** The RPM setter: anything below minRPM becomes minRPM. */
  function ClampRpm(value: real): (r: real)
    ensures r >= MinRpm && (value >= MinRpm ==> r == value)
  {
    if value < MinRpm then MinRpm else value
  }

  /** The engine phase after a forward tick: 8 wraps to 1. */
  function Forward(e: int): int {
    if e + 1 > 8 then 1 else e + 1
  }

  /** The engine phase after a backward tick: 1 wraps to 8. */
  function Backward(e: int): int {
    if e - 1 < 1 then 8 else e - 1
  }

  /** From any phase 0..8 a tick lands in 1..8, and the two directions undo each other. */
  lemma PhaseWraps(e: int)
    requires 0 <= e <= 8
    ensures 1 <= Forward(e) <= 8 && 1 <= Backward(e) <= 8
    ensures 1 <= e ==> Backward(Forward(e)) == e && Forward(Backward(e)) == e
  {
  }

  class Uln2003 {
    /** The GPIO numbers wired to IN1..IN4. */
    const pinNumbers: seq<int>
    /** The level last written to each pin. */
    var levels: seq<bool>
    /** False once Dispose has set the pin array to null. */
    var open: bool
    /** The pin numbers closed so far, in call order. */
    var closed: seq<int>
    /** The stepping mode; `currentSequence` is always its table. */
    var mode: Table
    /** `SPR`. */
    var spr: int
    var rpm: real
    /** The coil phase 1..8, or 0 before the first tick. */
    var engineStep: int
    /** `step`: the position, in steps from zero. */
    var step: int
    var stepId: int
    /** `nextSteps`, front first. */
    var nextSteps: seq<StepItem>
    /** The `StepTask` property while it runs; None when null or completed. */
    var stepTask: Option<StepTask>
    /** The ids of the step tasks OnStepTaskComplete was raised for, in order. */
    var completed: seq<int>

    ghost predicate Valid()
      reads this
    {
      |pinNumbers| == 4 && |levels| == 4 && 0 <= engineStep <= 8
      && spr == StepsPerRotation(mode) && rpm >= MinRpm
    }

    /** The model starts with every coil off. */
    constructor(pin1: int, pin2: int, pin3: int, pin4: int)
      ensures Valid() && open && pinNumbers == [pin1, pin2, pin3, pin4] && levels == AllLow
      ensures mode == HalfStep && spr == HalfSteps && rpm == 10.0
      ensures engineStep == 0 && step == 0 && stepId == 0
      ensures nextSteps == [] && stepTask == None && completed == [] && closed == []
    {
      pinNumbers := [pin1, pin2, pin3, pin4];
      levels := AllLow;
      open := true;
      closed := [];
      spr := HalfSteps;
      rpm := 10.0;
      mode := HalfStep;
      engineStep := 0;
      step := 0;
      stepId := 0;
      nextSteps := [];
      stepTask := None;
      completed := [];
    }

    /** The RPM setter. */
    method SetRpm(value: real)
      requires Valid()
      modifies this`rpm
      ensures Valid() && rpm == ClampRpm(value)
    {
      rpm := if value < MinRpm then MinRpm else value;
    }

    /** IsStepping: a step task exists and has not completed. */
    function IsStepping(): bool
      reads this
    {
      stepTask.Some?
    }

    /** `pins[i].Value = pattern[i]` for each of the four pins, in order. */
    method WritePins(pattern: seq<bool>)
      requires Valid() && |pattern| == 4
      modifies this`levels
      ensures Valid() && levels == pattern
    {
      for i := 0 to 4
        invariant |levels| == 4 && levels[..i] == pattern[..i]
      {
        levels := levels[i := pattern[i]];
      }
    }

    /**
     * Stop: bumps the step id so that every running task's next tick returns false, forgets the
     * task, drives every pin low and empties the queue. With the pins gone the loop over them
     * throws before the queue is emptied.
     */
    method Stop() returns (r: Outcome<MotorError>)
      requires Valid()
      modifies this`stepId, this`stepTask, this`levels, this`nextSteps
      ensures Valid()
      ensures stepId == old(stepId) + 1 && stepTask == None
      ensures r.Pass? <==> open
      ensures open ==> levels == AllLow && nextSteps == []
      ensures !open ==> levels == old(levels) && nextSteps == old(nextSteps)
    {
      stepId := stepId + 1;
      stepTask := None;
      if !open {
        return Fail(PinsDisposed);
      }
      WritePins(AllLow);
      nextSteps := [];
      r := Pass;
    }

    /** The Mode setter: stops, and for a new mode switches the table and the steps per rotation. */
    method SetMode(value: Table) returns (r: Outcome<MotorError>)
      requires Valid()
      modifies this`stepId, this`stepTask, this`levels, this`nextSteps, this`mode, this`spr
      ensures Valid()
      ensures stepId == old(stepId) + 1 && stepTask == None
      ensures r.Pass? <==> open
      ensures open ==> levels == AllLow && nextSteps == [] && mode == value
      ensures !open ==> mode == old(mode)
      ensures spr == StepsPerRotation(mode)
    {
      r := Stop();
      if r.Fail? || mode == value {
        return;
      }
      mode := value;
      match mode
      case HalfStep =>
        spr := HalfSteps;
      case SinglePhase =>
        spr := HalfSteps / 2;
      case DualPhase =>
        spr := HalfSteps / 2;
    }

    /** InternalStepAsync(count): a task under the current id that runs to `step + count`. */
    method InternalStep(count: int)
      requires Valid()
      modifies this`stepTask
      ensures Valid()
      ensures stepTask == Some(NewTask(stepId, count, step))
    {
      stepTask := Some(StepTask(stepId, count, step + count));
    }

    /**
     * ContinueStep: raises the completion event if the finished task is still current; then,
     * unless it was cancelled (which empties the queue), starts the front queued item under a
     * new id, adopting its RPM when that is positive. The pause before the item is not
     * modelled, so the id it re-checks afterwards is the one it checked before.
     */
    method ContinueStep(id: int)
      requires Valid()
      modifies this`completed, this`nextSteps, this`rpm, this`stepId, this`stepTask
      ensures Valid()
      ensures completed == if id == old(stepId) then old(completed) + [id] else old(completed)
      ensures id != old(stepId) ==> nextSteps == [] && unchanged(this`rpm, this`stepId, this`stepTask)
      ensures id == old(stepId) && old(nextSteps) == [] ==> unchanged(this`nextSteps, this`rpm, this`stepId, this`stepTask)
      ensures id == old(stepId) && old(nextSteps) != [] ==>
        var item := old(nextSteps)[0];
        nextSteps == old(nextSteps)[1..] && stepId == old(stepId) + 1
        && rpm == (if item.rpm > 0.0 then ClampRpm(item.rpm) else old(rpm))
        && stepTask == Some(NewTask(stepId, ItemCount(item, step), step))
    {
      if id == stepId {
        completed := completed + [id];
      }
      if id != stepId {
        nextSteps := [];
        return;
      }
      if |nextSteps| < 1 {
        return;
      }
      var item := nextSteps[0];
      nextSteps := nextSteps[1..];
      if item.rpm > 0.0 {
        SetRpm(item.rpm);
      }
      stepId := stepId + 1;
      var count := if item.move == Relative then item.count else item.count - step;
      InternalStep(count);
    }

    /** The step task that has just returned false completes, unless it was already replaced. */
    method Complete(t: StepTask)
      modifies this`stepTask
      ensures stepTask == if old(stepTask) == Some(t) then None else old(stepTask)
    {
      if stepTask == Some(t) {
        stepTask := None;
      }
    }

    /**
     * One tick of task t. A cancelled task returns false. A task at its target hands over to
     * ContinueStep and returns false. Otherwise the position moves one step toward the target,
     * the engine phase moves the same way (wrapping 8 and 1), and column `engineStep - 1` of the
     * table is written to the pins.
     */
    method TakeStep(t: StepTask) returns (r: Result<bool, MotorError>)
      requires Valid()
      modifies this`completed, this`nextSteps, this`rpm, this`stepId, this`stepTask
      modifies this`engineStep, this`step, this`levels
      ensures Valid()
      ensures t.id != old(stepId) ==> (r == Ok(false) && step == old(step) && nextSteps == old(nextSteps)
        && completed == old(completed) && stepId == old(stepId))
      ensures t.id == old(stepId) && old(step) == t.target ==> (r == Ok(false) && step == old(step)
        && completed == old(completed) + [t.id])
      ensures t.id == old(stepId) && old(step) == t.target && old(nextSteps) == [] ==>
        && nextSteps == [] && rpm == old(rpm) && stepId == old(stepId)
        && stepTask == (if old(stepTask) == Some(t) then None else old(stepTask))
      ensures t.id == old(stepId) && old(step) == t.target && old(nextSteps) != [] ==>
        var item := old(nextSteps)[0];
        && nextSteps == old(nextSteps)[1..] && stepId == old(stepId) + 1
        && rpm == (if item.rpm > 0.0 then ClampRpm(item.rpm) else old(rpm))
        && stepTask == Some(NewTask(stepId, ItemCount(item, step), step))
      ensures t.id == old(stepId) && old(step) != t.target ==>
        step == (if t.count > 0 then old(step) + 1 else old(step) - 1)
        && engineStep == (if t.count > 0 then Forward(old(engineStep)) else Backward(old(engineStep)))
        && 1 <= engineStep <= 8
        && (r.Ok? <==> open) && (r.Ok? ==> r.value && levels == Column(mode, engineStep - 1))
        && unchanged(this`completed, this`nextSteps, this`rpm, this`stepId)
        && (r.Ok? ==> stepTask == old(stepTask))
      ensures r != Ok(true) ==> stepTask == None || stepTask != Some(t)
      ensures mode == old(mode)
    {
      if t.id != stepId {
        Complete(t);
        return Ok(false);
      }
      if step == t.target {
        ContinueStep(t.id);
        Complete(t);
        return Ok(false);
      }
      if t.count > 0 {
        engineStep := if engineStep + 1 > 8 then 1 else engineStep + 1;
        step := step + 1;
      } else {
        engineStep := if engineStep - 1 < 1 then 8 else engineStep - 1;
        step := step - 1;
      }
      if !open {
        Complete(t);
        return Err(PinsDisposed);
      }
      WritePins(Column(mode, engineStep - 1));
      r := Ok(true);
    }

    /**
     * PreciseTimer.Every: ticks task t until it returns false. A current task on track ends at
     * its target after exactly as many moving ticks as it had steps to go, and raises the
     * completion event once for its id.
     */
    method RunStepTask(t: StepTask) returns (moves: nat, r: Outcome<MotorError>)
      requires Valid() && open
      requires t.id == stepId ==> OnTrack(t, step)
      modifies this
      ensures Valid()
      ensures r.Pass?
      ensures t.id == old(stepId) ==> step == t.target && moves == Remaining(t, old(step))
      ensures t.id == old(stepId) ==> completed == old(completed) + [t.id]
      ensures t.id != old(stepId) ==> moves == 0 && step == old(step) && completed == old(completed)
      ensures unchanged(this`open, this`closed, this`mode)
    {
      moves := 0;
      var running := true;
      while running
        invariant Valid() && open && unchanged(this`open, this`closed, this`mode)
        invariant running ==> stepId == old(stepId) && completed == old(completed)
        invariant running && t.id == stepId ==> OnTrack(t, step) && moves + Remaining(t, step) == Remaining(t, old(step))
        invariant running && t.id != stepId ==> moves == 0 && step == old(step)
        invariant !running && t.id == old(stepId) ==> (step == t.target && moves == Remaining(t, old(step))
          && completed == old(completed) + [t.id])
        invariant !running && t.id != old(stepId) ==> moves == 0 && step == old(step) && completed == old(completed)
        decreases running, if t.id == stepId then Remaining(t, step) else 0
      {
        ghost var before := step;
        var tick := TakeStep(t);
        if tick != Ok(true) {
          running := false;
        } else {
          moves := moves + 1;
        }
      }
      r := Pass;
    }

    /** FirstStep: stops, then starts a task of `count` steps from the current position. */
    method FirstStep(count: int) returns (r: Outcome<MotorError>)
      requires Valid()
      modifies this`stepId, this`stepTask, this`levels, this`nextSteps
      ensures Valid()
      ensures stepId == old(stepId) + 1
      ensures r.Pass? <==> open
      ensures open ==> levels == AllLow && nextSteps == [] && stepTask == Some(NewTask(stepId, count, step))
      ensures !open ==> stepTask == None && nextSteps == old(nextSteps)
    {
      r := Stop();
      if r.Fail? {
        return;
      }
      InternalStep(count);
    }

    /**
     * NextStep (ThenPosition): queues a move; when no task is running it starts an empty task
     * whose first tick hands over to the queue.
     */
    method NextStep(count: int, move: StepperMove, delay: real, rpm: real)
      requires Valid()
      modifies this`nextSteps, this`stepTask
      ensures Valid()
      ensures nextSteps == old(nextSteps) + [StepItem(count, move, delay, rpm)]
      ensures stepTask == if old(stepTask).Some? then old(stepTask) else Some(NewTask(stepId, 0, step))
    {
      nextSteps := nextSteps + [StepItem(count, move, delay, rpm)];
      if !IsStepping() {
        InternalStep(0);
      }
    }

    /** The Position setter: cancels everything and starts one task that runs to `value`. */
    method SetPosition(value: int) returns (r: Outcome<MotorError>)
      requires Valid()
      modifies this`stepId, this`stepTask, this`levels, this`nextSteps
      ensures Valid()
      ensures r.Pass? <==> open
      ensures open ==> nextSteps == [] && stepTask == Some(NewTask(stepId, value - step, step))
      ensures open ==> stepTask.value.target == value && OnTrack(stepTask.value, step)
    {
      r := Stop();
      if r.Fail? {
        return;
      }
      var p := value - step;
      r := FirstStep(p);
    }

    /** MovePosition: an optional new RPM, then an absolute (Position) or relative (FirstStep) move. */
    method MovePosition(position: int, move: StepperMove, rpm: real) returns (r: Outcome<MotorError>)
      requires Valid()
      modifies this`stepId, this`stepTask, this`levels, this`nextSteps, this`rpm
      ensures Valid()
      ensures r.Pass? <==> open
      ensures this.rpm == if rpm > 0.0 then ClampRpm(rpm) else old(this.rpm)
      ensures open ==> (nextSteps == [] && stepTask.Some? && OnTrack(stepTask.value, step)
        && stepTask.value.id == stepId
        && stepTask.value.target == if move == Absolute then position else step + position)
    {
      if rpm > 0.0 {
        SetRpm(rpm);
      }
      if move == Absolute {
        r := SetPosition(position);
      } else {
        r := FirstStep(position);
      }
    }

    /** Zero: stops and makes the current position zero. */
    method Zero() returns (r: Outcome<MotorError>)
      requires Valid()
      modifies this`stepId, this`stepTask, this`levels, this`nextSteps, this`step
      ensures Valid()
      ensures r.Pass? <==> open
      ensures stepTask == None && stepId == old(stepId) + 1
      ensures step == if open then 0 else old(step)
      ensures open ==> nextSteps == [] && levels == AllLow
    {
      r := Stop();
      if r.Fail? {
        return;
      }
      step := 0;
    }

    /** Dispose: stops and closes the pins once; later calls return at once. */
    method Dispose()
      requires Valid()
      modifies this`stepId, this`stepTask, this`levels, this`nextSteps, this`open, this`closed
      ensures Valid() && !open
      ensures old(open) ==> (levels == AllLow && nextSteps == [] && stepTask == None
        && closed == old(closed) + pinNumbers && stepId == old(stepId) + 1)
      ensures !old(open) ==> unchanged(this`stepId, this`stepTask, this`levels, this`nextSteps, this`closed)
    {
      if !open {
        return;
      }
      var _ := Stop();
      closed := closed + pinNumbers;
      open := false;
    }
  }

  /** Setting Position to p and letting the timer run the step task it starts ends at step p. */
  method PositionEndsAt(m: Uln2003, p: int) returns (moves: nat)
    requires m.Valid() && m.open
    modifies m
    ensures m.Valid() && m.step == p
    ensures moves == if p >= old(m.step) then p - old(m.step) else old(m.step) - p
  {
    var r := m.SetPosition(p);
    moves, r := m.RunStepTask(m.stepTask.value);
  }
}
