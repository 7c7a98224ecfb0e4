/**
 * The HD44780 character display driven over GPIO: a register-select pin, an enable pin and four
 * or eight data pins. The display latches the data pins on every enable pulse, so what it
 * receives is the sequence of pulses, each with the register-select level and the data-pin levels
 * at that moment. Delays are not modelled.
 *
 * The initialisation sequences follow figures 23 (8-bit interface) and 24 (4-bit interface) of
 * the Hitachi HD44780U datasheet.
 */
module CharacterLcds {
  import opened Wrappers

  // Commands
  const ClearDisplay: bv8 := 0x01
  const ReturnHome: bv8 := 0x02
  const EntryModeSet: bv8 := 0x04
  const DisplayControl: bv8 := 0x08
  const CursorShift: bv8 := 0x10
  const FunctionSet: bv8 := 0x20
  const SetDdramAddr: bv8 := 0x80

  // Entry mode flags
  const EntryLeft: bv8 := 0x02
  const EntryShiftIncrement: bv8 := 0x01
  // Display control flags
  const DisplayOn: bv8 := 0x04
  const CursorOn: bv8 := 0x02
  const BlinkOn: bv8 := 0x01
  // Shift flags
  const DisplayMove: bv8 := 0x08
  const MoveRight: bv8 := 0x04
  // Function set flags
  const EightBitMode: bv8 := 0x10
  const TwoLine: bv8 := 0x08
  const Dots5x10: bv8 := 0x04

  /** Bit i of a byte. */
  function Bit(v: bv8, i: nat): bool
    requires i < 8
  {
    (v >> i) & 1 == 1
  }

  /** Data-pin levels after the first n pins have been set to bits 0..n-1 of v. */
  function SetLow(levels: seq<bool>, v: bv8, n: nat): (r: seq<bool>)
    requires |levels| == 8 && n <= 8
    ensures |r| == 8
  {
    seq(8, i requires 0 <= i < 8 => if i < n then Bit(v, i) else levels[i])
  }

  function Weight(on: bool, w: bv8): bv8 {
    if on then w else 0
  }

  /** The byte the display reads from data pins 0..3. */
  function Low4(levels: seq<bool>): bv8
    requires |levels| == 8
  {
    Weight(levels[0], 1) | Weight(levels[1], 2) | Weight(levels[2], 4) | Weight(levels[3], 8)
  }

  /** The byte the display reads from data pins 0..7. */
  function All8(levels: seq<bool>): bv8
    requires |levels| == 8
  {
    Low4(levels) | Weight(levels[4], 16) | Weight(levels[5], 32) | Weight(levels[6], 64) | Weight(levels[7], 128)
  }

  /** The value the display latches from the pins: four or eight of them. */
  function Latched(levels: seq<bool>, width: nat): bv8
    requires |levels| == 8
  {
    if width == 8 then All8(levels) else Low4(levels)
  }

  /** Setting pins 0..3 to the low bits of v puts v's low nibble on them. */
  lemma Low4Reads(levels: seq<bool>, v: bv8)
    requires |levels| == 8
    ensures Low4(SetLow(levels, v, 4)) == v & 0x0F
  {
    var l := SetLow(levels, v, 4);
    assert l[0] == Bit(v, 0) && l[1] == Bit(v, 1) && l[2] == Bit(v, 2) && l[3] == Bit(v, 3);
  }

  /** Setting all eight pins puts v on them. */
  lemma All8Reads(levels: seq<bool>, v: bv8)
    requires |levels| == 8
    ensures All8(SetLow(levels, v, 8)) == v
  {
    var l := SetLow(levels, v, 8);
    assert l[0] == Bit(v, 0) && l[1] == Bit(v, 1) && l[2] == Bit(v, 2) && l[3] == Bit(v, 3);
    assert l[4] == Bit(v, 4) && l[5] == Bit(v, 5) && l[6] == Bit(v, 6) && l[7] == Bit(v, 7);
  }

  /** One enable pulse: the register-select level, how many data pins were written, their value. */
  datatype Pulse = Pulse(characters: bool, width: nat, data: bv8)

  /** The pulses WriteByte sends: one 8-bit transfer, or the high nibble then the low nibble. */
  function BytePulses(characters: bool, v: bv8, eightBit: bool): seq<Pulse> {
    if eightBit then [Pulse(characters, 8, v)]
    else [Pulse(characters, 4, v >> 4), Pulse(characters, 4, v & 0x0F)]
  }

  /** The pulses of a run of bytes sent with the same register select. */
  function BytesPulses(characters: bool, bytes: seq<bv8>, eightBit: bool): seq<Pulse> {
    if |bytes| == 0 then [] else BytesPulses(characters, bytes[..|bytes| - 1], eightBit) + BytePulses(characters, bytes[|bytes| - 1], eightBit)
  }

  /** What the display reads from a run of pulses: an 8-bit pulse is one byte, two 4-bit ones a byte, high nibble first. */
  function Received(pulses: seq<Pulse>): seq<(bool, bv8)>
    decreases |pulses|
  {
    if |pulses| == 0 then []
    else if pulses[0].width == 8 then [(pulses[0].characters, pulses[0].data)] + Received(pulses[1..])
    else if |pulses| >= 2 && pulses[1].width == 4 then
      [(pulses[0].characters, (pulses[0].data << 4) | (pulses[1].data & 0x0F))] + Received(pulses[2..])
    else []
  }

  /** A nibble pair reassembles the byte it split. */
  lemma NibblesJoin(v: bv8)
    ensures ((v >> 4) << 4) | ((v & 0x0F) & 0x0F) == v
  {
  }

  /** The display reads back exactly the byte WriteByte sent, whatever follows. */
  lemma ReceivedByte(characters: bool, v: bv8, eightBit: bool, rest: seq<Pulse>)
    ensures Received(BytePulses(characters, v, eightBit) + rest) == [(characters, v)] + Received(rest)
  {
    var p := BytePulses(characters, v, eightBit) + rest;
    if eightBit {
      assert p[1..] == rest;
    } else {
      assert p[2..] == rest;
      NibblesJoin(v);
    }
  }

  /** The display reads back a run of bytes in order. */
  lemma {:induction false} ReceivedBytes(characters: bool, bytes: seq<bv8>, eightBit: bool, rest: seq<Pulse>)
    ensures Received(BytesPulses(characters, bytes, eightBit) + rest) ==
            seq(|bytes|, i requires 0 <= i < |bytes| => (characters, bytes[i])) + Received(rest)
  {
    if |bytes| > 0 {
      var front, last := bytes[..|bytes| - 1], bytes[|bytes| - 1];
      var tail := BytePulses(characters, last, eightBit) + rest;
      calc {
        BytesPulses(characters, bytes, eightBit) + rest;
        (BytesPulses(characters, front, eightBit) + BytePulses(characters, last, eightBit)) + rest;
        BytesPulses(characters, front, eightBit) + tail;
      }
      ReceivedBytes(characters, front, eightBit, tail);
      ReceivedByte(characters, last, eightBit, rest);
      var rf := seq(|front|, i requires 0 <= i < |front| => (characters, front[i]));
      var rb := seq(|bytes|, i requires 0 <= i < |bytes| => (characters, bytes[i]));
      assert rf + [(characters, last)] == rb;
      calc {
        Received(BytesPulses(characters, bytes, eightBit) + rest);
        rf + Received(tail);
        rf + ([(characters, last)] + Received(rest));
        (rf + [(characters, last)]) + Received(rest);
        rb + Received(rest);
      }
    } else {
      assert BytesPulses(characters, bytes, eightBit) + rest == rest;
      assert seq(|bytes|, i requires 0 <= i < |bytes| => (characters, bytes[i])) == [];
    }
  }

  /** A flag byte with the bits of mask set (on) or cleared (off). */
  function WithFlag(bits: bv8, mask: bv8, on: bool): (r: bv8)
    ensures (r & mask == mask) == (on || mask == 0)
    ensures r & !mask == bits & !mask
  {
    if on then bits | mask else bits & !mask
  }

  function Clamp(x: int, lo: int, hi: int): int
    requires lo <= hi
  {
    if x < lo then lo else if x > hi then hi else x
  }

  /** The function-set bits after Setup: two lines iff more than one row, the tall font only on one row. */
  function SetupFunctionBits(bits: bv8, rows: int, largeFont: bool): (r: bv8)
    ensures (r & TwoLine == TwoLine) == (rows > 1)
    ensures (r & Dots5x10 == Dots5x10) == (largeFont && rows == 1)
    ensures r & EightBitMode == bits & EightBitMode
  {
    var r := WithFlag(WithFlag(bits, TwoLine, rows > 1), Dots5x10, largeFont && rows == 1);
    assert r & EightBitMode == bits & EightBitMode by {
      FlagsApart(bits, rows > 1, largeFont && rows == 1);
    }
    assert (r & TwoLine == TwoLine) == (rows > 1) by {
      FlagsApart(bits, rows > 1, largeFont && rows == 1);
    }
    r
  }

  lemma FlagsApart(bits: bv8, two: bool, tall: bool)
    ensures var r := WithFlag(WithFlag(bits, TwoLine, two), Dots5x10, tall);
      r & EightBitMode == bits & EightBitMode && (r & TwoLine == TwoLine) == two
  {
  }

  /** The byte order of the commands Setup sends after choosing the interface width. */
  function SetupCommands(functionBits: bv8): seq<bv8> {
    [FunctionSet | functionBits, ClearDisplay, ReturnHome, DisplayControl | DisplayOn, EntryModeSet | EntryLeft]
  }

  /**
   * The pulses Setup sends: for the 4-bit interface the nibbles 3, 3, 3, 2 of figure 24, for the
   * 8-bit interface three function-set commands of figure 23; then the common commands.
   */
  function SetupPulses(functionBits: bv8): seq<Pulse> {
    SetupStart(functionBits) + BytesPulses(false, SetupCommands(functionBits), functionBits & EightBitMode != 0)
  }

  /** The reset transfers that open Setup, before its commands. */
  function SetupStart(functionBits: bv8): seq<Pulse> {
    if functionBits & EightBitMode != 0 then
      BytesPulses(false, [FunctionSet | functionBits, FunctionSet | functionBits, FunctionSet | functionBits], true)
    else [Pulse(false, 4, 0x03), Pulse(false, 4, 0x03), Pulse(false, 4, 0x03), Pulse(false, 4, 0x02)]
  }

  /**
   * What the display reads during Setup: on the 4-bit interface the first four nibbles pair up as
   * 0x33 and 0x32, the usual 4-bit reset; then function set, clear, home, display on with cursor and
   * blinking off, and left-to-right entry without shift, all as commands.
   */
  lemma SetupReceived(functionBits: bv8)
    ensures var eightBit := functionBits & EightBitMode != 0;
      var f := FunctionSet | functionBits;
      Received(SetupPulses(functionBits)) ==
        (if eightBit then [(false, f), (false, f), (false, f)] else [(false, 0x33), (false, 0x32)]) +
        [(false, f), (false, ClearDisplay), (false, ReturnHome), (false, 0x0C), (false, 0x06)]
  {
    var eightBit := functionBits & EightBitMode != 0;
    var f := FunctionSet | functionBits;
    var tail := BytesPulses(false, SetupCommands(functionBits), eightBit);
    ReceivedBytes(false, SetupCommands(functionBits), eightBit, []);
    assert tail + [] == tail;
    var cmds := SetupCommands(functionBits);
    assert seq(|cmds|, i requires 0 <= i < |cmds| => (false, cmds[i])) ==
      [(false, f), (false, ClearDisplay), (false, ReturnHome), (false, 0x0C), (false, 0x06)];
    if eightBit {
      var three := [f, f, f];
      ReceivedBytes(false, three, true, tail);
      assert seq(|three|, i requires 0 <= i < |three| => (false, three[i])) == [(false, f), (false, f), (false, f)];
    } else {
      var start := [Pulse(false, 4, 0x03), Pulse(false, 4, 0x03), Pulse(false, 4, 0x03), Pulse(false, 4, 0x02)];
      var all := start + tail;
      assert all[2..][2..] == tail;
      assert Received(all) == [(false, 0x33)] + Received(all[2..]);
      assert Received(all[2..]) == [(false, 0x32)] + Received(tail);
    }
  }

  /** The DDRAM address of a row's first column: rows 2 and 3 continue rows 0 and 1 after Cols characters. */
  function RowOffset(row: int, cols: int): int
    requires 0 <= row < 4
  {
    if row == 0 then 0 else if row == 1 then 0x40 else if row == 2 then cols else cols + 0x40
  }

  /** The DDRAM address of a column and row, both already clamped. */
  function CursorAddress(col: int, row: int, cols: int): int
    requires 0 <= row < 4
  {
    col + RowOffset(row, cols)
  }

  /** Every cell of a display of 8..20 columns and up to four rows has its own address, below 0x80. */
  lemma AddressesDistinct(cols: int, c1: int, r1: int, c2: int, r2: int)
    requires 8 <= cols <= 20
    requires 0 <= c1 < cols && 0 <= r1 < 4 && 0 <= c2 < cols && 0 <= r2 < 4
    ensures 0 <= CursorAddress(c1, r1, cols) < 0x80
    ensures CursorAddress(c1, r1, cols) == CursorAddress(c2, r2, cols) ==> c1 == c2 && r1 == r2
  {
  }

  /** The set-DDRAM-address command, `(byte)(0x80 | address)`. */
  function CursorCommand(col: int, row: int, cols: int): bv8
    requires 8 <= cols <= 20 && 0 <= col < cols && 0 <= row < 4
  {
    AddressesDistinct(cols, col, row, col, row);
    SetDdramAddr | (CursorAddress(col, row, cols) as bv8)
  }

  /** The byte Encoding.ASCII gives a character: itself below 128, otherwise '?'. */
  function Ascii(c: char): bv8 {
    if c as int < 128 then (c as int) as bv8 else 0x3F
  }

  function AsciiBytes(s: string): (b: seq<bv8>)
    ensures |b| == |s|
    ensures forall i :: 0 <= i < |s| ==> b[i] == Ascii(s[i])
  {
    seq(|s|, i requires 0 <= i < |s| => Ascii(s[i]))
  }

  /** The register-select, enable and data pins. */
  class LcdBus {
    var select: bool
    var levels: seq<bool>
    var pulses: seq<Pulse>

    constructor()
      ensures !select && levels == [false, false, false, false, false, false, false, false] && pulses == []
    {
      select := false;
      levels := [false, false, false, false, false, false, false, false];
      pulses := [];
    }

    /** The loop of Write4bits and Write8bits: pin i gets bit i of value, for i below n. */
    method WriteLevels(value: bv8, n: nat)
      requires |levels| == 8 && n <= 8
      modifies this
      ensures levels == SetLow(old(levels), value, n)
      ensures select == old(select) && pulses == old(pulses)
    {
      ghost var before := levels;
      var i := 0;
      while i < n
        invariant 0 <= i <= n && |levels| == 8
        invariant levels == SetLow(before, value, i)
        invariant select == old(select) && pulses == old(pulses)
      {
        levels := levels[i := Bit(value, i)];
        i := i + 1;
      }
    }

    /** PulseEnable: the display latches the pins. */
    method PulseEnable(width: nat)
      requires |levels| == 8
      modifies this
      ensures select == old(select) && levels == old(levels)
      ensures pulses == old(pulses) + [Pulse(select, width, Latched(levels, width))]
    {
      pulses := pulses + [Pulse(select, width, Latched(levels, width))];
    }

    method Write4bits(value: bv8)
      requires |levels| == 8
      modifies this
      ensures levels == SetLow(old(levels), value, 4)
      ensures pulses == old(pulses) + [Pulse(select, 4, value & 0x0F)]
      ensures select == old(select)
    {
      WriteLevels(value, 4);
      Low4Reads(old(levels), value);
      PulseEnable(4);
    }

    method Write8bits(value: bv8)
      requires |levels| == 8
      modifies this
      ensures levels == SetLow(old(levels), value, 8)
      ensures pulses == old(pulses) + [Pulse(select, 8, value)]
      ensures select == old(select)
    {
      WriteLevels(value, 8);
      All8Reads(old(levels), value);
      PulseEnable(8);
    }
  }

  class CharacterLcd {
    const bus: LcdBus
    var cols: int
    var rows: int
    var functionBits: bv8
    var controlBits: bv8
    var modeBits: bv8

    predicate Valid()
      reads this, bus
    {
      8 <= cols <= 20 && 1 <= rows <= 4 && |bus.levels| == 8
    }

    predicate EightBit()
      reads this
    {
      functionBits & EightBitMode != 0
    }

    /** The 4-bit-interface constructor: Init with the 8-bit flag cleared, then Setup(20, 4). */
    constructor FourBit()
      ensures Valid() && fresh(bus) && !EightBit()
      ensures cols == 20 && rows == 4
      ensures bus.pulses == SetupPulses(functionBits)
    {
      bus := new LcdBus();
      functionBits := 0;
      new;
      Setup(20, 4, false);
    }

    /** The 8-bit-interface constructor: Init with the 8-bit flag set, then Setup(20, 4). */
    constructor EightBitBus()
      ensures Valid() && fresh(bus) && EightBit()
      ensures cols == 20 && rows == 4
      ensures bus.pulses == SetupPulses(functionBits)
    {
      bus := new LcdBus();
      functionBits := EightBitMode;
      new;
      Setup(20, 4, false);
    }

    /** WriteByte: the select pin says command or character; then one 8-bit or two 4-bit transfers. */
    method WriteByte(value: bv8, characters: bool)
      requires |bus.levels| == 8
      modifies bus
      ensures |bus.levels| == 8 && bus.select == characters
      ensures bus.pulses == old(bus.pulses) + BytePulses(characters, value, EightBit())
    {
      bus.select := characters;
      if functionBits & EightBitMode != 0 {
        bus.Write8bits(value);
      } else {
        bus.Write4bits(value >> 4);
        bus.Write4bits(value);
        assert (value >> 4) & 0x0F == value >> 4;
      }
    }

    method Command(value: bv8)
      requires |bus.levels| == 8
      modifies bus
      ensures |bus.levels| == 8 && !bus.select
      ensures bus.pulses == old(bus.pulses) + BytePulses(false, value, EightBit())
    {
      WriteByte(value, false);
    }

    /** Sends a run of commands, one after the other. */
    method Commands(values: seq<bv8>)
      requires |bus.levels| == 8
      modifies bus
      ensures |bus.levels| == 8 && (|values| > 0 ==> !bus.select) && (|values| == 0 ==> bus.select == old(bus.select))
      ensures bus.pulses == old(bus.pulses) + BytesPulses(false, values, EightBit())
    {
      var i := 0;
      while i < |values|
        invariant 0 <= i <= |values| && |bus.levels| == 8
        invariant (i > 0 ==> !bus.select) && (i == 0 ==> bus.select == old(bus.select))
        invariant bus.pulses == old(bus.pulses) + BytesPulses(false, values[..i], EightBit())
      {
        Command(values[i]);
        assert values[..i + 1][..i] == values[..i];
        i := i + 1;
      }
      assert values[..|values|] == values;
    }

    /**
     * Setup: clamps the size to 8..20 columns and 1..4 rows, chooses the line and font bits, runs
     * the initialisation for the interface width and leaves the display on, cursor and blinking
     * off, text left to right and no autoscroll.
     */
    method Setup(cols: int, rows: int, largeFont: bool)
      requires |bus.levels| == 8
      modifies this, bus
      ensures Valid()
      ensures this.cols == Clamp(cols, 8, 20) && this.rows == Clamp(rows, 1, 4)
      ensures functionBits == SetupFunctionBits(old(functionBits), this.rows, largeFont)
      ensures controlBits == DisplayOn && modeBits == EntryLeft
      ensures bus.pulses == old(bus.pulses) + SetupPulses(functionBits)
    {
      bus.select := false;
      this.cols := Clamp(cols, 8, 20);
      this.rows := Clamp(rows, 1, 4);
      functionBits := SetupFunctionBits(functionBits, this.rows, largeFont);
      controlBits := DisplayOn;
      modeBits := EntryLeft;
      SendSetup();
    }

    /** The transfers of Setup, once the function-set bits are chosen. */
    method SendSetup()
      requires |bus.levels| == 8 && !bus.select
      modifies bus
      ensures |bus.levels| == 8
      ensures bus.pulses == old(bus.pulses) + SetupPulses(functionBits)
    {
      SendReset();
      Commands(SetupCommands(functionBits));
    }

    /** The reset sequence that opens Setup: three or four transfers, by the interface width. */
    method SendReset()
      requires |bus.levels| == 8 && !bus.select
      modifies bus
      ensures |bus.levels| == 8 && !bus.select
      ensures bus.pulses == old(bus.pulses) + SetupStart(functionBits)
    {
      if functionBits & EightBitMode == 0 {
        bus.Write4bits(0x03);
        bus.Write4bits(0x03);
        bus.Write4bits(0x03);
        bus.Write4bits(0x02);
      } else {
        Commands([FunctionSet | functionBits, FunctionSet | functionBits, FunctionSet | functionBits]);
      }
    }

    /** Clear: the clear-display command. */
    method Clear()
      requires |bus.levels| == 8
      modifies bus
      ensures |bus.levels| == 8
      ensures bus.pulses == old(bus.pulses) + BytePulses(false, ClearDisplay, EightBit())
      ensures Received(bus.pulses[|old(bus.pulses)|..]) == [(false, ClearDisplay)]
    {
      Command(ClearDisplay);
      assert bus.pulses[|old(bus.pulses)|..] == BytePulses(false, ClearDisplay, EightBit()) + [];
      ReceivedByte(false, ClearDisplay, EightBit(), []);
    }

    /** Home: the return-home command. */
    method Home()
      requires |bus.levels| == 8
      modifies bus
      ensures |bus.levels| == 8
      ensures bus.pulses == old(bus.pulses) + BytePulses(false, ReturnHome, EightBit())
    {
      Command(ReturnHome);
    }

    /**
     * MoveCursor: clamps the column to 0..Cols-1 and the row to 0..Rows-1, then sets the DDRAM
     * address to the column plus the row's offset.
     */
    method MoveCursor(col: int, row: int)
      requires Valid()
      modifies bus
      ensures Valid()
      ensures bus.pulses == old(bus.pulses) +
        BytePulses(false, CursorCommand(Clamp(col, 0, cols - 1), Clamp(row, 0, rows - 1), cols), EightBit())
    {
      var c := Clamp(col, 0, cols - 1);
      var r := Clamp(row, 0, rows - 1);
      Command(CursorCommand(c, r, cols));
    }

    method ScrollLeft()
      requires |bus.levels| == 8
      modifies bus
      ensures |bus.levels| == 8
      ensures bus.pulses == old(bus.pulses) + BytePulses(false, CursorShift | DisplayMove, EightBit())
    {
      Command(CursorShift | DisplayMove);
    }

    method ScrollRight()
      requires |bus.levels| == 8
      modifies bus
      ensures |bus.levels| == 8
      ensures bus.pulses == old(bus.pulses) + BytePulses(false, CursorShift | DisplayMove | MoveRight, EightBit())
    {
      Command(CursorShift | DisplayMove | MoveRight);
    }

    /** Write: nothing for null or an empty string, otherwise one character byte per ASCII byte. */
    method Write(text: Option<string>)
      requires |bus.levels| == 8
      modifies bus
      ensures |bus.levels| == 8
      ensures text == None ==> bus.pulses == old(bus.pulses)
      ensures text.Some? ==> bus.pulses == old(bus.pulses) + BytesPulses(true, AsciiBytes(text.value), EightBit())
    {
      if text == None || |text.value| == 0 {
        return;
      }
      var bytes := AsciiBytes(text.value);
      var i := 0;
      while i < |bytes|
        invariant 0 <= i <= |bytes| && |bus.levels| == 8
        invariant bus.pulses == old(bus.pulses) + BytesPulses(true, bytes[..i], EightBit())
      {
        WriteByte(bytes[i], true);
        assert bytes[..i + 1][..i] == bytes[..i];
        i := i + 1;
      }
      assert bytes[..|bytes|] == bytes;
    }

    function AutoScroll(): bool
      reads this
    {
      modeBits & EntryShiftIncrement == EntryShiftIncrement
    }

    function Blinking(): bool
      reads this
    {
      controlBits & BlinkOn == BlinkOn
    }

    function Cursor(): bool
      reads this
    {
      controlBits & CursorOn == CursorOn
    }

    function Display(): bool
      reads this
    {
      controlBits & DisplayOn == DisplayOn
    }

    /** True for left to right. */
    function LeftToRight(): bool
      reads this
    {
      modeBits & EntryLeft == EntryLeft
    }

    method SetAutoScroll(value: bool)
      requires |bus.levels| == 8
      modifies this, bus
      ensures modeBits == WithFlag(old(modeBits), EntryShiftIncrement, value)
      ensures AutoScroll() == value && |bus.levels| == 8
      ensures unchanged(this`controlBits, this`functionBits, this`cols, this`rows)
      ensures bus.pulses == old(bus.pulses) + BytePulses(false, EntryModeSet | modeBits, EightBit())
    {
      modeBits := WithFlag(modeBits, EntryShiftIncrement, value);
      Command(EntryModeSet | modeBits);
    }

    method SetBlinking(value: bool)
      requires |bus.levels| == 8
      modifies this, bus
      ensures controlBits == WithFlag(old(controlBits), BlinkOn, value)
      ensures Blinking() == value && |bus.levels| == 8
      ensures unchanged(this`modeBits, this`functionBits, this`cols, this`rows)
      ensures bus.pulses == old(bus.pulses) + BytePulses(false, DisplayControl | controlBits, EightBit())
    {
      controlBits := WithFlag(controlBits, BlinkOn, value);
      Command(DisplayControl | controlBits);
    }

    method SetCursor(value: bool)
      requires |bus.levels| == 8
      modifies this, bus
      ensures controlBits == WithFlag(old(controlBits), CursorOn, value)
      ensures Cursor() == value && |bus.levels| == 8
      ensures unchanged(this`modeBits, this`functionBits, this`cols, this`rows)
      ensures bus.pulses == old(bus.pulses) + BytePulses(false, DisplayControl | controlBits, EightBit())
    {
      controlBits := WithFlag(controlBits, CursorOn, value);
      Command(DisplayControl | controlBits);
    }

    method SetDisplay(value: bool)
      requires |bus.levels| == 8
      modifies this, bus
      ensures controlBits == WithFlag(old(controlBits), DisplayOn, value)
      ensures Display() == value && |bus.levels| == 8
      ensures unchanged(this`modeBits, this`functionBits, this`cols, this`rows)
      ensures bus.pulses == old(bus.pulses) + BytePulses(false, DisplayControl | controlBits, EightBit())
    {
      controlBits := WithFlag(controlBits, DisplayOn, value);
      Command(DisplayControl | controlBits);
    }

    method SetTextDirection(leftToRight: bool)
      requires |bus.levels| == 8
      modifies this, bus
      ensures modeBits == WithFlag(old(modeBits), EntryLeft, leftToRight)
      ensures LeftToRight() == leftToRight && |bus.levels| == 8
      ensures unchanged(this`controlBits, this`functionBits, this`cols, this`rows)
      ensures bus.pulses == old(bus.pulses) + BytePulses(false, EntryModeSet | modeBits, EightBit())
    {
      modeBits := WithFlag(modeBits, EntryLeft, leftToRight);
      Command(EntryModeSet | modeBits);
    }
  }

  /** After Setup the display is on, the cursor and blinking are off, text runs left to right, no autoscroll. */
  lemma SetupDefaults(controlBits: bv8, modeBits: bv8)
    requires controlBits == DisplayOn && modeBits == EntryLeft
    ensures controlBits & DisplayOn == DisplayOn && controlBits & CursorOn != CursorOn && controlBits & BlinkOn != BlinkOn
    ensures modeBits & EntryLeft == EntryLeft && modeBits & EntryShiftIncrement != EntryShiftIncrement
  {
  }

  /** Setting one display-control flag leaves the other two as they were. */
  lemma ControlFlagsIndependent(bits: bv8, on: bool)
    ensures WithFlag(bits, BlinkOn, on) & (DisplayOn | CursorOn) == bits & (DisplayOn | CursorOn)
    ensures WithFlag(bits, CursorOn, on) & (DisplayOn | BlinkOn) == bits & (DisplayOn | BlinkOn)
    ensures WithFlag(bits, DisplayOn, on) & (CursorOn | BlinkOn) == bits & (CursorOn | BlinkOn)
  {
  }
}
