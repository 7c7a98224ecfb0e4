/**
 * StepperMotor: the same position counter, FIFO of queued moves and step-id cancellation as
 * Uln2003, on top of an IStepperDriver. The driver is represented by the log of calls made to
 * it and by what its GetSPR answers after each SetMode; the timer thread, the lock and the waits
 * are not modelled (one tick is one call of TakeStep).
 */
module StepperMotors {
  import opened Wrappers
  import opened StepTasks

  /** The calls the motor makes on its driver. */
  datatype DriverCall = DriverStep | DriverSetDirection(direction: int) | DriverSetMode(mode: int) | DriverDispose

  /** Using the driver after Dispose set it to null: a NullReferenceException. */
  datatype MotorError = DriverDisposed

  /** `minRPM`. */
  const MinRpm: real := 0.1

  /** The RPM setter: anything below 0.1 becomes 0.1. */
  function ClampRpm(value: real): (r: real)
    ensures r >= MinRpm && (value >= MinRpm ==> r == value)
  {
    if value < MinRpm then MinRpm else value
  }

  /** n driver steps. */
  function Steps(n: nat): (s: seq<DriverCall>)
    ensures |s| == n && forall i :: 0 <= i < n ==> s[i] == DriverStep
  {
    if n == 0 then [] else Steps(n - 1) + [DriverStep]
  }

  /** The direction a task of `count` steps needs, or the current one when the count does not decide. */
  function DirectionFor(count: int, direction: int): int {
    if count > 0 then 1 else if count < 0 then -1 else direction
  }

  class StepperMotor {
    /** What the driver's GetSPR returns once SetMode(m) has been called on it. */
    const driverSpr: int -> int
    /** False once Dispose has set the driver to null. */
    var driverOpen: bool
    /** Every call made on the driver, in order. */
    var calls: seq<DriverCall>
    var direction: int
    var mode: int
    /** `SPR`. */
    var spr: int
    var rpm: real
    /** `step`: the position, in steps from zero. */
    var step: int
    var stepId: int
    /** `nextSteps`, front first. */
    var nextSteps: seq<StepItem>
    /** The `StepTask` property while it runs; None when null or completed. */
    var stepTask: Option<StepTask>
    /** The ids of the step tasks OnStepTaskComplete was raised for, in order. */
    var completed: seq<int>

    ghost predicate Valid()
      reads this
    {
      (direction == 1 || direction == -1) && rpm >= MinRpm
    }

    /** Direction 1 and mode 0 are sent to the driver, and SPR is read back from it. */
    constructor(spr: int -> int)
      ensures Valid() && driverSpr == spr && driverOpen
      ensures direction == 1 && mode == 0 && this.spr == spr(0) && rpm == 10.0
      ensures calls == [DriverSetDirection(1), DriverSetMode(0)]
      ensures step == 0 && stepId == 0 && nextSteps == [] && stepTask == None && completed == []
    {
      driverSpr := spr;
      driverOpen := true;
      direction := 1;
      mode := 0;
      calls := [DriverSetDirection(1), DriverSetMode(0)];
      this.spr := spr(0);
      rpm := 10.0;
      step := 0;
      stepId := 0;
      nextSteps := [];
      stepTask := None;
      completed := [];
    }

    /** The RPM setter. */
    method SetRpm(value: real)
      requires Valid()
      modifies this`rpm
      ensures Valid() && rpm == ClampRpm(value)
    {
      rpm := if value < MinRpm then MinRpm else value;
    }

    function IsStepping(): bool
      reads this
    {
      stepTask.Some?
    }

    /** Stop: bumps the step id so that every running task's next tick returns false, and empties the queue. */
    method Stop()
      requires Valid()
      modifies this`stepId, this`stepTask, this`nextSteps
      ensures Valid()
      ensures stepId == old(stepId) + 1 && stepTask == None && nextSteps == []
    {
      stepId := stepId + 1;
      stepTask := None;
      nextSteps := [];
    }

    /**
     * The Mode setter: stops, and for a new mode stores it, sends it to the driver and reads the
     * steps per rotation back. Without a driver the call throws after storing the mode.
     */
    method SetMode(value: int) returns (r: Outcome<MotorError>)
      requires Valid()
      modifies this`stepId, this`stepTask, this`nextSteps, this`mode, this`calls, this`spr
      ensures Valid()
      ensures stepId == old(stepId) + 1 && stepTask == None && nextSteps == []
      ensures mode == value
      ensures r.Fail? <==> value != old(mode) && !driverOpen
      ensures value != old(mode) && driverOpen ==> calls == old(calls) + [DriverSetMode(value)] && spr == driverSpr(value)
      ensures value == old(mode) || !driverOpen ==> calls == old(calls) && spr == old(spr)
    {
      Stop();
      r := Pass;
      if mode == value {
        return;
      }
      mode := value;
      if !driverOpen {
        return Fail(DriverDisposed);
      }
      calls := calls + [DriverSetMode(value)];
      spr := driverSpr(value);
    }

    /**
     * InternalStepAsync(count): turns the driver round only when the sign of the count disagrees
     * with the current direction, then starts a task under the current id that runs to
     * `step + count`. Without a driver the turn throws inside the step task, which completes at once.
     */
    method InternalStep(count: int)
      requires Valid()
      modifies this`direction, this`calls, this`stepTask
      ensures Valid()
      ensures direction == DirectionFor(count, old(direction))
      ensures calls == old(calls) + (if driverOpen && direction != old(direction) then [DriverSetDirection(direction)] else [])
      ensures stepTask == if driverOpen || direction == old(direction) then Some(NewTask(stepId, count, step)) else None
    {
      if count > 0 && direction < 0 {
        direction := 1;
        if !driverOpen {
          stepTask := None;
          return;
        }
        calls := calls + [DriverSetDirection(direction)];
      } else if count < 0 && direction > 0 {
        direction := -1;
        if !driverOpen {
          stepTask := None;
          return;
        }
        calls := calls + [DriverSetDirection(direction)];
      }
      stepTask := Some(StepTask(stepId, count, step + count));
    }

    /**
     * ContinueStep: raises the completion event if the finished task is still current; then,
     * unless it was cancelled (which empties the queue), starts the front queued item under a
     * new id, adopting its RPM when that is positive. The pause before the item is not
     * modelled, so the id it re-checks afterwards is the one it checked before.
     */
    method ContinueStep(id: int)
      requires Valid()
      modifies this`completed, this`nextSteps, this`rpm, this`stepId, this`stepTask, this`direction, this`calls
      ensures Valid()
      ensures completed == if id == old(stepId) then old(completed) + [id] else old(completed)
      ensures id != old(stepId) ==> nextSteps == [] && unchanged(this`rpm, this`stepId, this`stepTask, this`direction, this`calls)
      ensures id == old(stepId) && old(nextSteps) == [] ==> unchanged(this`nextSteps, this`rpm, this`stepId, this`stepTask, this`direction, this`calls)
      ensures id == old(stepId) && old(nextSteps) != [] ==>
        var item := old(nextSteps)[0];
        var count := ItemCount(item, step);
        nextSteps == old(nextSteps)[1..] && stepId == old(stepId) + 1
        && rpm == (if item.rpm > 0.0 then ClampRpm(item.rpm) else old(rpm))
        && direction == DirectionFor(count, old(direction))
        && (driverOpen ==> stepTask == Some(NewTask(stepId, count, step)))
      ensures |calls| >= |old(calls)| && calls[..|old(calls)|] == old(calls)
    {
      if id == stepId {
        completed := completed + [id];
      }
      if id != stepId {
        nextSteps := [];
        return;
      }
      if |nextSteps| < 1 {
        return;
      }
      var item := nextSteps[0];
      nextSteps := nextSteps[1..];
      if item.rpm > 0.0 {
        SetRpm(item.rpm);
      }
      stepId := stepId + 1;
      var count := if item.move == Relative then item.count else item.count - step;
      InternalStep(count);
    }

    /** The step task that has just returned false (or thrown) completes, unless it was already replaced. */
    method Complete(t: StepTask)
      modifies this`stepTask
      ensures stepTask == if old(stepTask) == Some(t) then None else old(stepTask)
    {
      if stepTask == Some(t) {
        stepTask := None;
      }
    }

    /**
     * One tick of task t: a cancelled task returns false; a task at its target hands over to
     * ContinueStep and returns false; otherwise the position moves one step toward the target
     * and the driver steps once.
     */
    method TakeStep(t: StepTask) returns (r: Result<bool, MotorError>)
      requires Valid()
      modifies this`completed, this`nextSteps, this`rpm, this`stepId, this`stepTask, this`direction, this`calls
      modifies this`step
      ensures Valid()
      ensures t.id != old(stepId) ==> (r == Ok(false) && step == old(step) && calls == old(calls)
        && completed == old(completed) && stepId == old(stepId))
      ensures t.id == old(stepId) && old(step) == t.target ==> (r == Ok(false) && step == old(step)
        && completed == old(completed) + [t.id] && |calls| >= |old(calls)| && calls[..|old(calls)|] == old(calls))
      ensures t.id == old(stepId) && old(step) == t.target && old(nextSteps) == [] ==>
        && nextSteps == [] && rpm == old(rpm) && stepId == old(stepId) && direction == old(direction)
        && stepTask == (if old(stepTask) == Some(t) then None else old(stepTask))
      ensures t.id == old(stepId) && old(step) == t.target && old(nextSteps) != [] ==>
        var item := old(nextSteps)[0];
        var count := ItemCount(item, step);
        && nextSteps == old(nextSteps)[1..] && stepId == old(stepId) + 1
        && rpm == (if item.rpm > 0.0 then ClampRpm(item.rpm) else old(rpm))
        && direction == DirectionFor(count, old(direction))
        && (driverOpen ==> stepTask == Some(NewTask(stepId, count, step)))
      ensures t.id == old(stepId) && old(step) != t.target ==>
        step == (if t.count > 0 then old(step) + 1 else old(step) - 1)
        && (r.Ok? <==> driverOpen)
        && calls == old(calls) + (if driverOpen then [DriverStep] else [])
        && (r.Ok? ==> r.value && stepTask == old(stepTask))
        && unchanged(this`completed, this`nextSteps, this`rpm, this`stepId, this`direction)
      ensures r != Ok(true) ==> stepTask == None || stepTask != Some(t)
    {
      if t.id != stepId {
        Complete(t);
        return Ok(false);
      }
      if step == t.target {
        ContinueStep(t.id);
        Complete(t);
        return Ok(false);
      }
      if t.count > 0 {
        step := step + 1;
      } else {
        step := step - 1;
      }
      if !driverOpen {
        Complete(t);
        return Err(DriverDisposed);
      }
      calls := calls + [DriverStep];
      r := Ok(true);
    }

    /**
     * PreciseTimer.Every: ticks task t until it returns false. A current task on track ends at
     * its target, has stepped the driver once per step of the way, and raises the completion
     * event once for its id.
     */
    method RunStepTask(t: StepTask) returns (moves: nat)
      requires Valid() && driverOpen
      requires t.id == stepId ==> OnTrack(t, step)
      modifies this
      ensures Valid() && driverOpen
      ensures t.id == old(stepId) ==> step == t.target && moves == Remaining(t, old(step))
      ensures t.id == old(stepId) ==> completed == old(completed) + [t.id]
      ensures |calls| >= |old(calls)| + moves && calls[..|old(calls)| + moves] == old(calls) + Steps(moves)
      ensures t.id != old(stepId) ==> moves == 0 && step == old(step) && completed == old(completed)
      ensures unchanged(this`driverOpen, this`mode, this`spr)
    {
      moves := 0;
      var running := true;
      while running
        invariant Valid() && driverOpen && unchanged(this`driverOpen, this`mode, this`spr)
        invariant running ==> stepId == old(stepId) && completed == old(completed) && calls == old(calls) + Steps(moves)
        invariant running && t.id == stepId ==> OnTrack(t, step) && moves + Remaining(t, step) == Remaining(t, old(step))
        invariant running && t.id != stepId ==> moves == 0 && step == old(step)
        invariant !running && t.id == old(stepId) ==> (step == t.target && moves == Remaining(t, old(step))
          && completed == old(completed) + [t.id])
        invariant !running && t.id != old(stepId) ==> moves == 0 && step == old(step) && completed == old(completed)
        invariant |calls| >= |old(calls)| + moves && calls[..|old(calls)| + moves] == old(calls) + Steps(moves)
        decreases running, if t.id == stepId then Remaining(t, step) else 0
      {
        ghost var before := calls;
        var tick := TakeStep(t);
        if tick != Ok(true) {
          running := false;
          assert calls[..|before|] == before;
        } else {
          moves := moves + 1;
        }
      }
    }

    /** FirstStep: stops, then starts a task of `count` steps from the current position. */
    method FirstStep(count: int)
      requires Valid()
      modifies this`stepId, this`stepTask, this`nextSteps, this`direction, this`calls
      ensures Valid()
      ensures stepId == old(stepId) + 1 && nextSteps == []
      ensures direction == DirectionFor(count, old(direction))
      ensures calls == old(calls) + (if driverOpen && direction != old(direction) then [DriverSetDirection(direction)] else [])
      ensures driverOpen ==> stepTask == Some(NewTask(stepId, count, step))
    {
      Stop();
      InternalStep(count);
    }

    /**
     * NextStep (ThenPosition): queues a move; when no task is running it starts an empty task
     * whose first tick hands over to the queue.
     */
    method NextStep(count: int, move: StepperMove, delay: real, rpm: real)
      requires Valid()
      modifies this`nextSteps, this`stepTask, this`direction, this`calls
      ensures Valid() && unchanged(this`direction, this`calls)
      ensures nextSteps == old(nextSteps) + [StepItem(count, move, delay, rpm)]
      ensures stepTask == if old(stepTask).Some? then old(stepTask) else Some(NewTask(stepId, 0, step))
    {
      nextSteps := nextSteps + [StepItem(count, move, delay, rpm)];
      if !IsStepping() {
        ghost var before := calls;
        InternalStep(0);
        assert calls == before + [] == before;
      }
    }

    /** The Position setter: cancels everything and starts one task that runs to `value`. */
    method SetPosition(value: int)
      requires Valid()
      modifies this`stepId, this`stepTask, this`nextSteps, this`direction, this`calls
      ensures Valid() && nextSteps == []
      ensures driverOpen ==> stepTask == Some(NewTask(stepId, value - step, step))
      ensures driverOpen ==> stepTask.value.target == value && OnTrack(stepTask.value, step)
    {
      Stop();
      var p := value - step;
      FirstStep(p);
    }

    /** MovePosition: an optional new RPM, then an absolute (Position) or relative (FirstStep) move. */
    method MovePosition(position: int, move: StepperMove, rpm: real)
      requires Valid()
      modifies this`stepId, this`stepTask, this`nextSteps, this`direction, this`calls, this`rpm
      ensures Valid() && nextSteps == []
      ensures this.rpm == if rpm > 0.0 then ClampRpm(rpm) else old(this.rpm)
      ensures driverOpen ==> (stepTask.Some? && OnTrack(stepTask.value, step) && stepTask.value.id == stepId
        && stepTask.value.target == if move == Absolute then position else step + position)
    {
      if rpm > 0.0 {
        SetRpm(rpm);
      }
      if move == Absolute {
        SetPosition(position);
      } else {
        FirstStep(position);
      }
    }

    /** Zero: stops and makes the current position zero. */
    method Zero()
      requires Valid()
      modifies this`stepId, this`stepTask, this`nextSteps, this`step
      ensures Valid()
      ensures stepTask == None && stepId == old(stepId) + 1 && nextSteps == [] && step == 0
    {
      Stop();
      step := 0;
    }

    /** Dispose: stops and disposes the driver once; later calls return at once. */
    method Dispose()
      requires Valid()
      modifies this`stepId, this`stepTask, this`nextSteps, this`driverOpen, this`calls
      ensures Valid() && !driverOpen
      ensures old(driverOpen) ==> (nextSteps == [] && stepTask == None && stepId == old(stepId) + 1
        && calls == old(calls) + [DriverDispose])
      ensures !old(driverOpen) ==> unchanged(this`stepId, this`stepTask, this`nextSteps, this`calls)
    {
      if !driverOpen {
        return;
      }
      Stop();
      calls := calls + [DriverDispose];
      driverOpen := false;
    }
  }

  /** Setting Position to p and letting the timer run the step task it starts ends at step p. */
  method PositionEndsAt(m: StepperMotor, p: int) returns (moves: nat)
    requires m.Valid() && m.driverOpen
    modifies m
    ensures m.Valid() && m.step == p
    ensures moves == if p >= old(m.step) then p - old(m.step) else old(m.step) - p
  {
    m.SetPosition(p);
    moves := m.RunStepTask(m.stepTask.value);
  }
}
