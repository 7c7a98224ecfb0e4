/**
 * The memory-mapped GPIO driver of the Raspberry Pi 3 and 4 (BCM2835/BCM2836/BCM2711).
 * The register block is an array of 32-bit words indexed by word offset, laid out as in
 * chapter 6 "General Purpose I/O" of the Broadcom BCM2835 ARM Peripherals datasheet;
 * the driver's table of open pins is an array of optional pin states.
 */
module GpioRegisters {
  import opened Wrappers
  import opened GpioBits

  /** The driver exposes 28 GPIO pins. */
  const PinCount: int := 28
  /** Words of the register block that the model keeps. */
  const RegisterWords: int := 64

  // Word offsets of the registers (byte offset divided by 4).
  const GPFSEL0: int := 0      // 0x00: six function-select words
  const GPSET0: int := 7       // 0x1C: two output-set words
  const GPCLR0: int := 10      // 0x28: two output-clear words
  const GPLEV0: int := 13      // 0x34: two pin-level words
  const GPPUD: int := 37       // 0x94: pull-up/down control
  const GPPUDCLK0: int := 38   // 0x98: two pull-up/down clock words
  const GPPUPPDN0: int := 57   // 0xE4: four pull-up/down words of the BCM2711


  /** The pin modes of System.Device.Gpio; any other enum value is OtherMode. */
  datatype PinMode = Input | Output | InputPullDown | InputPullUp | OtherMode(code: int)

  datatype PinValue = Low | High

  /** The exceptions the driver throws, by cause. */
  datatype GpioError =
    | InvalidPinNumber        // ArgumentException from ValidatePinNumber
    | ModeNotSupported        // InvalidOperationException from SetPinMode
    | PinNotOpen             // InvalidOperationException from GetPinMode
    | PullModeNotSupported    // ArgumentException from SetInputPullMode
    | NotGpioHeaderPin        // ArgumentException from the header table
    | ReadPastEnd             // IndexOutOfRangeException on a short read
    | DriverDisposed          // NullReferenceException once the inner driver is disposed

  /** One entry of the driver's open-pin table. */
  datatype PinState = PinState(currentPinMode: PinMode, inUseByInterruptDriver: bool)

  predicate IsPinNumber(pin: int) {
    0 <= pin < PinCount
  }

  /** The modes the function-select and pull registers can realise. */
  predicate IsPinModeSupported(pin: int, mode: PinMode) {
    mode.Input? || mode.InputPullDown? || mode.InputPullUp? || mode.Output?
  }

  /** Header (board) pin number to BCM pin number; other header pins are not GPIO pins. */
  function HeaderToLogical(header: int): (r: Result<int, GpioError>)
    ensures r.Err? ==> r.error == NotGpioHeaderPin
  {
    match header
    case 3 => Ok(2)
    case 5 => Ok(3)
    case 7 => Ok(4)
    case 8 => Ok(14)
    case 10 => Ok(15)
    case 11 => Ok(17)
    case 12 => Ok(18)
    case 13 => Ok(27)
    case 15 => Ok(22)
    case 16 => Ok(23)
    case 18 => Ok(24)
    case 19 => Ok(10)
    case 21 => Ok(9)
    case 22 => Ok(25)
    case 23 => Ok(11)
    case 24 => Ok(8)
    case 26 => Ok(7)
    case 27 => Ok(0)
    case 28 => Ok(1)
    case 29 => Ok(5)
    case 31 => Ok(6)
    case 32 => Ok(12)
    case 33 => Ok(13)
    case 35 => Ok(19)
    case 36 => Ok(16)
    case 37 => Ok(26)
    case 38 => Ok(20)
    case 40 => Ok(21)
    case _ => Err(NotGpioHeaderPin)
  }

  /** The 28 header positions wired to a GPIO pin. */
  const GpioHeaderPins: set<int> :=
    {3, 5, 7, 8, 10, 11, 12, 13, 15, 16, 18, 19, 21, 22, 23, 24, 26, 27, 28, 29, 31, 32, 33, 35, 36, 37, 38, 40}

  /** The header position of a BCM pin: the inverse of the header table. */
  function LogicalToHeader(pin: int): (h: int)
    requires IsPinNumber(pin)
    ensures h in GpioHeaderPins
  {
    [27, 28, 3, 5, 7, 29, 31, 26, 24, 21, 19, 23, 32, 33, 8, 10, 36, 11, 12, 35, 38, 40, 15, 16, 18, 22, 37, 13][pin]
  }

  /** The header table succeeds exactly on the GPIO header pins, and then yields a pin number. */
  lemma HeaderTableDomain(header: int)
    ensures HeaderToLogical(header).Ok? <==> header in GpioHeaderPins
    ensures HeaderToLogical(header).Ok? ==> IsPinNumber(HeaderToLogical(header).value)
  {
  }

  /** Every pin number is reached from its header position. */
  lemma HeaderTableRoundTrip(pin: int)
    requires IsPinNumber(pin)
    ensures HeaderToLogical(LogicalToHeader(pin)) == Ok(pin)
  {
  }

  /** A header pin leads back to itself: the header table and its inverse form a bijection. */
  lemma HeaderTableInverse(header: int)
    requires HeaderToLogical(header).Ok?
    ensures LogicalToHeader(HeaderToLogical(header).value) == header
  {
  }

  /** The header table never sends two header pins to the same BCM pin. */
  lemma HeaderTableInjective(a: int, b: int)
    requires HeaderToLogical(a).Ok? && HeaderToLogical(b).Ok?
    requires HeaderToLogical(a).value == HeaderToLogical(b).value
    ensures a == b
  {
    HeaderTableInverse(a);
    HeaderTableInverse(b);
  }

  // ---------------------------------------------------------------- register arithmetic

  /** Position of a pin's bit in its 32-pin word. */
  function BitIndex(pin: int): (k: bv32)
    requires IsPinNumber(pin)
    ensures k < 32
  {
    (pin % 32) as bv32
  }

  /** The single bit of a pin in its 32-pin set/clear/level/clock word. */
  function PinBit(pin: int): bv32
    requires IsPinNumber(pin)
  {
    (1 as bv32) << BitIndex(pin)
  }

  /** Bit offset of a pin's 3-bit field in its function-select word. */
  function FselShift(pin: int): (s: bv32)
    requires IsPinNumber(pin)
    ensures s <= 27
  {
    ((pin % 10) * 3) as bv32
  }

  /** Function-select code: 001 for an output, 000 for an input. */
  function FselCode(mode: PinMode): (c: bv32)
    ensures c <= 1
  {
    if mode == Output then 1 else 0
  }

  /** A function-select word after selecting a pin's mode. */
  function FselWord(word: bv32, pin: int, mode: PinMode): bv32
    requires IsPinNumber(pin)
  {
    SetField3(word, FselShift(pin), FselCode(mode))
  }

  /** Pull code of the BCM2835 GPPUD register; other modes are refused. */
  function Pi3PullCode(mode: PinMode): (r: Result<bv32, GpioError>)
    ensures r.Ok? ==> r.value <= 2
  {
    match mode
    case Input => Ok(0)
    case InputPullDown => Ok(1)
    case InputPullUp => Ok(2)
    case _ => Err(PullModeNotSupported)
  }

  /** Pull code of the BCM2711 GPIO_PUP_PDN_CNTRL registers; other modes give 0. */
  function Pi4PullCode(mode: PinMode): (c: bv32)
    ensures c <= 2
  {
    match mode
    case InputPullUp => 1
    case InputPullDown => 2
    case _ => 0
  }

  /** Bit offset of a pin's 2-bit field in its BCM2711 pull word: (pin & 0xF) << 1. */
  function Pi4PullShift(pin: int): (s: bv32)
    requires IsPinNumber(pin)
    ensures s <= 30
  {
    ((pin % 16) * 2) as bv32
  }

  /** One store into the register block, in program order. */
  datatype RegisterStore = RegisterStore(index: int, value: bv32)

  predicate IsRegisterFile(regs: seq<bv32>) {
    |regs| == RegisterWords
  }

  /** Every store of a list lands inside the register block. */
  predicate InBlock(stores: seq<RegisterStore>) {
    forall k | 0 <= k < |stores| :: 0 <= stores[k].index < RegisterWords
  }

  /** The registers after a list of stores, applied in order. */
  function Apply(regs: seq<bv32>, stores: seq<RegisterStore>): (r: seq<bv32>)
    requires IsRegisterFile(regs) && InBlock(stores)
    ensures IsRegisterFile(r)
    decreases |stores|
  {
    if stores == [] then regs
    else
      var last := stores[|stores| - 1];
      Apply(regs, stores[..|stores| - 1])[last.index := last.value]
  }

  /** Applying two lists of stores one after the other is applying their concatenation. */
  lemma {:induction false} ApplyAppend(regs: seq<bv32>, s: seq<RegisterStore>, t: seq<RegisterStore>)
    requires IsRegisterFile(regs) && InBlock(s) && InBlock(t)
    ensures InBlock(s + t)
    ensures Apply(regs, s + t) == Apply(Apply(regs, s), t)
    decreases |t|
  {
    assert InBlock(s + t) by {
      forall k | 0 <= k < |s + t| ensures 0 <= (s + t)[k].index < RegisterWords {
        if k >= |s| {
          assert (s + t)[k] == t[k - |s|];
        }
      }
    }
    if t == [] {
      assert s + t == s;
    } else {
      var t' := t[..|t| - 1];
      assert (s + t)[..|s + t| - 1] == s + t';
      ApplyAppend(regs, s, t');
    }
  }

  /** A word that no store of the list targets keeps its value. */
  lemma {:induction false} ApplyUntouched(regs: seq<bv32>, stores: seq<RegisterStore>, i: int)
    requires IsRegisterFile(regs) && InBlock(stores) && 0 <= i < RegisterWords
    requires forall k | 0 <= k < |stores| :: stores[k].index != i
    ensures Apply(regs, stores)[i] == regs[i]
    decreases |stores|
  {
    if stores != [] {
      ApplyUntouched(regs, stores[..|stores| - 1], i);
    }
  }

  /** The pull-up/down clock word of a pin: GPPUDCLK[pin/32]. */
  function ClockWord(pin: int): (w: int)
    requires IsPinNumber(pin)
    ensures GPPUDCLK0 <= w < GPPUDCLK0 + 2
  {
    GPPUDCLK0 + pin / 32
  }

  /**
   * The five stores of the BCM2835 pull sequence for clock word w and bit k: clear GPPUD's
   * control bits, or in the code, raise bit k of w, lower it again (the clock goes first so a
   * context switch cannot latch a stale signal), and clear GPPUD's control bits.
   */
  function Pi3PullStores(regs: seq<bv32>, w: int, k: bv32, code: bv32): (t: seq<RegisterStore>)
    requires IsRegisterFile(regs) && 0 <= w < RegisterWords && k < 32
    ensures InBlock(t)
  {
    var g := regs[GPPUD];
    var c := regs[w];
    [RegisterStore(GPPUD, ClearControl(g)), RegisterStore(GPPUD, OrControl(ClearControl(g), code)),
     RegisterStore(w, SetBit(c, k)), RegisterStore(w, ClearBit(SetBit(c, k), k)),
     RegisterStore(GPPUD, ClearControl(OrControl(ClearControl(g), code)))]
  }

  /** The net effect of the BCM2835 pull sequence: GPPUD and the clock word, each written once. */
  function Pi3Pull(regs: seq<bv32>, w: int, k: bv32, code: bv32): seq<bv32>
    requires IsRegisterFile(regs) && 0 <= w < RegisterWords && k < 32
  {
    regs[GPPUD := ClearControl(OrControl(ClearControl(regs[GPPUD]), code))][w := ClearBit(SetBit(regs[w], k), k)]
  }

  /** A single store updates one word. */
  lemma ApplyOne(regs: seq<bv32>, st: RegisterStore)
    requires IsRegisterFile(regs) && 0 <= st.index < RegisterWords
    ensures InBlock([st]) && Apply(regs, [st]) == regs[st.index := st.value]
  {
    assert [st][..0] == [];
  }

  /** Five stores applied in order are five updates in order. */
  lemma ApplyFive(regs: seq<bv32>, a: int, b: int, v0: bv32, v1: bv32, v2: bv32, v3: bv32, v4: bv32)
    requires IsRegisterFile(regs) && 0 <= a < RegisterWords && 0 <= b < RegisterWords
    ensures var t := [RegisterStore(a, v0), RegisterStore(a, v1), RegisterStore(b, v2), RegisterStore(b, v3), RegisterStore(a, v4)];
      InBlock(t) && Apply(regs, t) == regs[a := v0][a := v1][b := v2][b := v3][a := v4]
  {
    var t := [RegisterStore(a, v0), RegisterStore(a, v1), RegisterStore(b, v2), RegisterStore(b, v3), RegisterStore(a, v4)];
    assert InBlock(t);
    assert t[..0] == [];
    assert t[..1][..0] == [];
    assert Apply(regs, t[..1]) == regs[a := v0];
    assert t[..2][..1] == t[..1];
    assert Apply(regs, t[..2]) == regs[a := v0][a := v1];
    assert t[..3][..2] == t[..2];
    assert Apply(regs, t[..3]) == regs[a := v0][a := v1][b := v2];
    assert t[..4][..3] == t[..3];
    assert Apply(regs, t[..4]) == regs[a := v0][a := v1][b := v2][b := v3];
    assert t[..4] == t[..|t| - 1];
  }

  /** The five stores of the sequence add up to its net effect when the clock word is not GPPUD. */
  lemma Pi3PullApplied(regs: seq<bv32>, w: int, k: bv32, code: bv32)
    requires IsRegisterFile(regs) && 0 <= w < RegisterWords && w != GPPUD && k < 32
    ensures Apply(regs, Pi3PullStores(regs, w, k, code)) == Pi3Pull(regs, w, k, code)
  {
    var g := regs[GPPUD];
    var c := regs[w];
    var v0, v1 := ClearControl(g), OrControl(ClearControl(g), code);
    var v2, v3 := SetBit(c, k), ClearBit(SetBit(c, k), k);
    var v4 := ClearControl(OrControl(ClearControl(g), code));
    ApplyFive(regs, GPPUD, w, v0, v1, v2, v3, v4);
    UpdatesCollapse(regs, GPPUD, w, v0, v1, v2, v3, v4);
  }

  /** Of two words each written more than once, only the last write of each remains. */
  lemma UpdatesCollapse(regs: seq<bv32>, a: int, b: int, v0: bv32, v1: bv32, v2: bv32, v3: bv32, v4: bv32)
    requires 0 <= a < |regs| && 0 <= b < |regs| && a != b
    ensures regs[a := v0][a := v1][b := v2][b := v3][a := v4] == regs[a := v4][b := v3]
  {
  }

  /** The stores of SetInputPullMode, or the exception it throws before storing anything. */
  function PullStores(regs: seq<bv32>, isPi4: bool, pin: int, mode: PinMode): (r: Result<seq<RegisterStore>, GpioError>)
    requires IsRegisterFile(regs) && IsPinNumber(pin)
    ensures r.Ok? ==> InBlock(r.value)
  {
    if isPi4 then
      var i := GPPUPPDN0 + pin / 16;
      Ok([RegisterStore(i, SetField2(regs[i], Pi4PullShift(pin), Pi4PullCode(mode)))])
    else match Pi3PullCode(mode)
      case Ok(code) => Ok(Pi3PullStores(regs, ClockWord(pin), BitIndex(pin), code))
      case Err(e) => Err(e)
  }

  /** The store of a function-select word that SetPinMode performs first. */
  function FselStore(regs: seq<bv32>, pin: int, mode: PinMode): RegisterStore
    requires IsRegisterFile(regs) && IsPinNumber(pin)
  {
    var fsel := GPFSEL0 + pin / 10;
    RegisterStore(fsel, SetField3(regs[fsel], FselShift(pin), FselCode(mode)))
  }

  /** The stores of a successful SetPinMode: the function-select word, then the pull sequence of an input. */
  function ModeStores(regs: seq<bv32>, isPi4: bool, pin: int, mode: PinMode): (t: seq<RegisterStore>)
    requires IsRegisterFile(regs) && IsPinNumber(pin) && IsPinModeSupported(pin, mode)
    ensures InBlock(t)
  {
    var st := FselStore(regs, pin, mode);
    if mode == Output then [st]
    else
      var p := PullStores(regs[st.index := st.value], isPi4, pin, mode).value;
      assert InBlock([st]);
      ApplyAppendInBlock([st], p);
      [st] + p
  }

  /** Two lists of in-block stores concatenate to one. */
  lemma ApplyAppendInBlock(s: seq<RegisterStore>, t: seq<RegisterStore>)
    requires InBlock(s) && InBlock(t)
    ensures InBlock(s + t)
  {
    forall k | 0 <= k < |s + t| ensures 0 <= (s + t)[k].index < RegisterWords {
      if k >= |s| {
        assert (s + t)[k] == t[k - |s|];
      }
    }
  }

  /** The register a Write stores into: GPSET for High, GPCLR for Low. */
  function WriteTarget(pin: int, value: PinValue): int
    requires IsPinNumber(pin)
  {
    (if value == High then GPSET0 else GPCLR0) + pin / 32
  }

  /** The open-pin table entry after SetPinMode: an existing entry keeps its interrupt flag. */
  function ModeEntry(entry: Option<PinState>, mode: PinMode): Option<PinState> {
    match entry
    case Some(s) => Some(s.(currentPinMode := mode))
    case None => Some(PinState(mode, false))
  }

  /** The pull update throws exactly for the modes the BCM2835 sequence has no code for. */
  lemma PullStoresFail(regs: seq<bv32>, isPi4: bool, pin: int, mode: PinMode)
    requires IsRegisterFile(regs) && IsPinNumber(pin)
    ensures PullStores(regs, isPi4, pin, mode).Err? <==> !isPi4 && (mode.Output? || mode.OtherMode?)
    ensures PullStores(regs, isPi4, pin, mode).Err? ==> PullStores(regs, isPi4, pin, mode).error == PullModeNotSupported
  {
  }

  /** The pull update writes only GPPUD and the pin's GPPUDCLK word, or only its GPIO_PUP_PDN_CNTRL word. */
  lemma PullStoresTargets(regs: seq<bv32>, isPi4: bool, pin: int, mode: PinMode, k: int)
    requires IsRegisterFile(regs) && IsPinNumber(pin)
    requires PullStores(regs, isPi4, pin, mode).Ok? && 0 <= k < |PullStores(regs, isPi4, pin, mode).value|
    ensures var i := PullStores(regs, isPi4, pin, mode).value[k].index;
      if isPi4 then i == GPPUPPDN0 + pin / 16 else i == GPPUD || i == ClockWord(pin)
  {
  }

  /**
   * SetPinMode's first store writes 001 (output) or 000 (input) into the pin's 3-bit field at
   * (pin mod 10)*3 of GPFSEL[pin/10] and keeps every other bit of that word.
   */
  lemma FselStoreEffect(regs: seq<bv32>, pin: int, mode: PinMode)
    requires IsRegisterFile(regs) && IsPinNumber(pin)
    ensures var st := FselStore(regs, pin, mode);
      Field3Set(st.value, regs[st.index], FselShift(pin), FselCode(mode))
  {
    var fsel := GPFSEL0 + pin / 10;
    SetField3Effect(regs[fsel], FselShift(pin), FselCode(mode));
  }

  /**
   * After SetPinMode the function-select word holds the first store's value, an output changes
   * no other word, and an input changes only the pull registers of its board generation besides.
   */
  lemma ModeStoresFrame(regs: seq<bv32>, isPi4: bool, pin: int, mode: PinMode, i: int)
    requires IsRegisterFile(regs) && IsPinNumber(pin) && IsPinModeSupported(pin, mode)
    requires 0 <= i < RegisterWords
    ensures var st := FselStore(regs, pin, mode);
      var r := Apply(regs, ModeStores(regs, isPi4, pin, mode));
      && r[st.index] == st.value
      && (mode == Output && i != st.index ==> r[i] == regs[i])
      && (isPi4 && i != st.index && i != GPPUPPDN0 + pin / 16 ==> r[i] == regs[i])
      && (!isPi4 && i != st.index && i != GPPUD && i != ClockWord(pin) ==> r[i] == regs[i])
  {
    var st := FselStore(regs, pin, mode);
    var regs1 := regs[st.index := st.value];
    assert Apply(regs, [st]) == regs1 by {
      assert [st][..0] == [];
    }
    if mode != Output {
      var p := PullStores(regs1, isPi4, pin, mode).value;
      assert InBlock([st]);
      ApplyAppend(regs, [st], p);
      PullLeaves(regs1, isPi4, pin, mode, st.index);
      if (isPi4 && i != st.index && i != GPPUPPDN0 + pin / 16) || (!isPi4 && i != st.index && i != GPPUD && i != ClockWord(pin)) {
        PullLeaves(regs1, isPi4, pin, mode, i);
      }
    }
  }

  /** The pull stores leave every word but their targets as it was. */
  lemma PullLeaves(regs: seq<bv32>, isPi4: bool, pin: int, mode: PinMode, j: int)
    requires IsRegisterFile(regs) && IsPinNumber(pin) && PullStores(regs, isPi4, pin, mode).Ok?
    requires 0 <= j < RegisterWords
    requires if isPi4 then j != GPPUPPDN0 + pin / 16 else j != GPPUD && j != ClockWord(pin)
    ensures Apply(regs, PullStores(regs, isPi4, pin, mode).value)[j] == regs[j]
  {
    var p := PullStores(regs, isPi4, pin, mode).value;
    forall k | 0 <= k < |p| ensures p[k].index != j {
      PullStoresTargets(regs, isPi4, pin, mode, k);
    }
    ApplyUntouched(regs, p, j);
  }

  /** After the BCM2835 pull sequence GPPUD carries no control signal and keeps its other bits. */
  lemma Pi3PullGppud(regs: seq<bv32>, w: int, k: bv32, code: bv32)
    requires IsRegisterFile(regs) && 0 <= w < RegisterWords && w != GPPUD && k < 32 && code <= 2
    ensures ControlIs(Pi3Pull(regs, w, k, code)[GPPUD], regs[GPPUD], 0)
  {
    ControlCleared(regs[GPPUD], code);
  }

  /** After the BCM2835 pull sequence bit k of the clock word is low and its other bits are kept. */
  lemma Pi3PullClockWord(regs: seq<bv32>, w: int, k: bv32, code: bv32)
    requires IsRegisterFile(regs) && 0 <= w < RegisterWords && w != GPPUD && k < 32
    ensures BitLowered(Pi3Pull(regs, w, k, code)[w], regs[w], k)
  {
    BitPulse(regs[w], k);
  }

  /**
   * The BCM2835 pull sequence leaves GPPUD's control bits and the clock bit cleared, keeps the
   * other bits of those two words, and changes no other word.
   */
  lemma Pi3PullRegisters(regs: seq<bv32>, w: int, k: bv32, code: bv32, i: int)
    requires IsRegisterFile(regs) && 0 <= w < RegisterWords && w != GPPUD && k < 32 && code <= 2
    requires 0 <= i < RegisterWords
    ensures ControlIs(Apply(regs, Pi3PullStores(regs, w, k, code))[GPPUD], regs[GPPUD], 0)
    ensures BitLowered(Apply(regs, Pi3PullStores(regs, w, k, code))[w], regs[w], k)
    ensures i != GPPUD && i != w ==> Apply(regs, Pi3PullStores(regs, w, k, code))[i] == regs[i]
  {
    Pi3PullApplied(regs, w, k, code);
    Pi3PullGppud(regs, w, k, code);
    Pi3PullClockWord(regs, w, k, code);
  }

  /**
   * The order the driver uses: GPPUD is written twice, then the clock word twice, then GPPUD
   * again. Chapter 6 of the BCM2835 datasheet removes the control signal before the clock;
   * the driver departs from it on purpose and removes the clock first.
   */
  lemma Pi3PullOrder(regs: seq<bv32>, w: int, k: bv32, code: bv32)
    requires IsRegisterFile(regs) && 0 <= w < RegisterWords && k < 32
    ensures var t := Pi3PullStores(regs, w, k, code);
      && |t| == 5
      && t[0].index == GPPUD && t[1].index == GPPUD && t[4].index == GPPUD
      && t[2].index == w && t[3].index == w
  {
  }

  /** The second GPPUD store of the sequence carries the code and keeps GPPUD's other bits. */
  lemma Pi3ControlOn(regs: seq<bv32>, w: int, k: bv32, code: bv32)
    requires IsRegisterFile(regs) && 0 <= w < RegisterWords && k < 32 && code <= 2
    ensures ControlIs(Pi3PullStores(regs, w, k, code)[1].value, regs[GPPUD], code)
  {
    ControlSet(regs[GPPUD], code);
  }

  /** The last GPPUD store of the sequence removes the control signal. */
  lemma Pi3ControlOff(regs: seq<bv32>, w: int, k: bv32, code: bv32)
    requires IsRegisterFile(regs) && 0 <= w < RegisterWords && k < 32 && code <= 2
    ensures ControlIs(Pi3PullStores(regs, w, k, code)[4].value, regs[GPPUD], 0)
  {
    ControlCleared(regs[GPPUD], code);
  }

  /** The first clock store of the sequence raises bit k of the clock word and no other. */
  lemma Pi3ClockRaised(regs: seq<bv32>, w: int, k: bv32, code: bv32)
    requires IsRegisterFile(regs) && 0 <= w < RegisterWords && k < 32
    ensures BitRaised(Pi3PullStores(regs, w, k, code)[2].value, regs[w], k)
  {
    SetBitEffect(regs[w], k);
  }

  /** The second clock store of the sequence lowers bit k again and keeps the others. */
  lemma Pi3ClockLowered(regs: seq<bv32>, w: int, k: bv32, code: bv32)
    requires IsRegisterFile(regs) && 0 <= w < RegisterWords && k < 32
    ensures BitLowered(Pi3PullStores(regs, w, k, code)[3].value, regs[w], k)
  {
    BitPulse(regs[w], k);
  }

  /**
   * The signals of the sequence: bit k of the clock word is raised, and no other clock bit,
   * while GPPUD carries the code (Input 0, InputPullDown 1, InputPullUp 2); the clock bit is
   * lowered and then the control signal removed, each store keeping the other bits of its word.
   */
  lemma Pi3PullSignals(regs: seq<bv32>, w: int, k: bv32, code: bv32)
    requires IsRegisterFile(regs) && 0 <= w < RegisterWords && k < 32 && code <= 2
    ensures ControlIs(Pi3PullStores(regs, w, k, code)[1].value, regs[GPPUD], code)
    ensures BitRaised(Pi3PullStores(regs, w, k, code)[2].value, regs[w], k)
    ensures BitLowered(Pi3PullStores(regs, w, k, code)[3].value, regs[w], k)
    ensures ControlIs(Pi3PullStores(regs, w, k, code)[4].value, regs[GPPUD], 0)
  {
    Pi3ControlOn(regs, w, k, code);
    Pi3ClockRaised(regs, w, k, code);
    Pi3ClockLowered(regs, w, k, code);
    Pi3ControlOff(regs, w, k, code);
  }

  /**
   * The BCM2711 pull update is one store that rewrites only the 2-bit field at (pin & 0xF)*2
   * of GPIO_PUP_PDN_CNTRL[pin >> 4], with Input 0, InputPullUp 1 and InputPullDown 2.
   */
  lemma Pi4PullEffect(regs: seq<bv32>, pin: int, mode: PinMode)
    requires IsRegisterFile(regs) && IsPinNumber(pin)
    ensures var t := PullStores(regs, true, pin, mode).value;
      && |t| == 1 && t[0].index == GPPUPPDN0 + pin / 16
      && Field2Set(t[0].value, regs[t[0].index], Pi4PullShift(pin), Pi4PullCode(mode))
  {
    SetField2Effect(regs[GPPUPPDN0 + pin / 16], Pi4PullShift(pin), Pi4PullCode(mode));
  }
}
