/**
 * The coil sequences of a four-wire unipolar stepper motor (28BYJ-48 on a ULN2003 board): eight
 * columns of four coil levels, one table per stepping mode. The same three tables appear in the
 * unipole driver, in both Uln2003 classes, and are defined here once.
 */
module CoilSequences {

  /** The three stepping modes; `UnipoleMode`/`StepperMode` number them 0, 1 and 2. */
  datatype Table = HalfStep | SinglePhase | DualPhase

  /** Rows are the pins IN1..IN4, columns the eight phases. */
  function Rows(t: Table): (rows: seq<seq<bool>>)
    ensures |rows| == 4 && forall i :: 0 <= i < 4 ==> |rows[i]| == 8
  {
    match t
    case HalfStep => [
      [true, true, false, false, false, false, false, true],
      [false, true, true, true, false, false, false, false],
      [false, false, false, true, true, true, false, false],
      [false, false, false, false, false, true, true, true]]
    case SinglePhase => [
      [true, false, false, false, true, false, false, false],
      [false, true, false, false, false, true, false, false],
      [false, false, true, false, false, false, true, false],
      [false, false, false, true, false, false, false, true]]
    case DualPhase => [
      [true, false, false, true, true, false, false, true],
      [true, true, false, false, true, true, false, false],
      [false, true, true, false, false, true, true, false],
      [false, false, true, true, false, false, true, true]]
  }

  /** `table[pin, column]`. */
  function Coil(t: Table, pin: int, column: int): bool
    requires 0 <= pin < 4 && 0 <= column < 8
  {
    Rows(t)[pin][column]
  }

  /** The four pin levels of one column, IN1 first. */
  function Column(t: Table, column: int): (c: seq<bool>)
    requires 0 <= column < 8
    ensures |c| == 4 && forall i :: 0 <= i < 4 ==> c[i] == Coil(t, i, column)
  {
    [Coil(t, 0, column), Coil(t, 1, column), Coil(t, 2, column), Coil(t, 3, column)]
  }

  /** All four coils off. */
  const AllLow: seq<bool> := [false, false, false, false]

  /** How many coils a column energises. */
  function Active(c: seq<bool>): nat {
    if c == [] then 0 else (if c[0] then 1 else 0) + Active(c[1..])
  }

  /** The number of distinct phases before a table repeats: 8 for half steps, 4 for full steps. */
  function Period(t: Table): nat {
    if t == HalfStep then 8 else 4
  }

  /**
   * Half-step columns alternate one and two energised coils (even columns one, odd columns two);
   * single-phase columns energise exactly one coil and dual-phase columns exactly two.
   */
  lemma ActiveCoils(t: Table, column: int)
    requires 0 <= column < 8
    ensures t == HalfStep ==> Active(Column(t, column)) == (if column % 2 == 0 then 1 else 2)
    ensures t == SinglePhase ==> Active(Column(t, column)) == 1
    ensures t == DualPhase ==> Active(Column(t, column)) == 2
  {
    var c := Column(t, column);
    assert c == [c[0], c[1], c[2], c[3]];
    assert Active(c) == (if c[0] then 1 else 0) + (if c[1] then 1 else 0) + (if c[2] then 1 else 0) + (if c[3] then 1 else 0) by {
      assert c[1..] == [c[1], c[2], c[3]];
      assert c[1..][1..] == [c[2], c[3]];
      assert c[1..][1..][1..] == [c[3]];
      assert c[1..][1..][1..][1..] == [];
    }
    assert column in {0, 1, 2, 3, 4, 5, 6, 7};
  }

  /** Every table repeats with its period: column k + Period(t) equals column k. */
  lemma Periodic(t: Table, column: int)
    requires 0 <= column && column + Period(t) < 8
    ensures Column(t, column + Period(t)) == Column(t, column)
  {
    assert column in {0, 1, 2, 3};
  }

  /** Consecutive columns (cyclically) differ in exactly one coil in half-step mode: each step switches one coil. */
  lemma HalfStepSwitchesOneCoil(column: int, pin: int)
    requires 0 <= column < 8 && 0 <= pin < 4
    ensures Coil(HalfStep, pin, column) != Coil(HalfStep, pin, (column + 1) % 8)
        <==> pin == (if column % 2 == 0 then (column / 2 + 1) % 4 else column / 2)
  {
    assert column in {0, 1, 2, 3, 4, 5, 6, 7};
    assert pin in {0, 1, 2, 3};
  }
}
