/**
 * The queued moves and step tasks that Uln2003 and StepperMotor share. A step task is the
 * closure InternalStepAsync hands to the timer: the id it was started under, its step count and
 * the absolute position it runs to. The timer calls the closure once per tick until it returns
 * false; one tick of the model is one such call.
 */
module StepTasks {

  /** `StepperMove`: a queued count is an absolute position or a relative distance. */
  datatype StepperMove = Absolute | Relative

  /** `StepItem`: a queued move with its optional pause (milliseconds) and speed. */
  datatype StepItem = StepItem(count: int, move: StepperMove, delay: real, rpm: real)

  datatype StepTask = StepTask(id: int, count: int, target: int)

  /** The step count a queued item runs with from position `step`. */
  function ItemCount(item: StepItem, step: int): (c: int)
    ensures item.move == Relative ==> c == item.count
    ensures item.move == Absolute ==> step + c == item.count
  {
    if item.move == Relative then item.count else item.count - step
  }

  /** The step task InternalStepAsync(count) creates at position `step` under id `id`. */
  function NewTask(id: int, count: int, step: int): (t: StepTask)
    ensures t.target - step == t.count == count && t.id == id
  {
    StepTask(id, count, step + count)
  }

  /**
   * A task moves forwards when its count is positive and backwards otherwise; it reaches its
   * target only when the target lies in that direction.
   */
  predicate OnTrack(t: StepTask, step: int) {
    if t.count > 0 then step <= t.target else t.target <= step
  }

  /** Every task that InternalStepAsync creates starts on track. */
  lemma NewTaskOnTrack(id: int, count: int, step: int)
    ensures OnTrack(NewTask(id, count, step), step)
  {
  }

  /** How far a task still has to go. */
  function Remaining(t: StepTask, step: int): nat {
    if t.target >= step then t.target - step else step - t.target
  }

  /**
   * The positions one ticking task passes through: a moving tick goes one step toward the
   * target and stays on track, so the remaining distance falls by one.
   */
  lemma TickApproaches(t: StepTask, step: int)
    requires OnTrack(t, step) && step != t.target
    ensures var next := if t.count > 0 then step + 1 else step - 1;
      OnTrack(t, next) && Remaining(t, next) == Remaining(t, step) - 1
  {
  }
}
