/**
 * The Raspberry Pi 3/4 board driver: its own copy of the header-pin table, and every pin
 * operation forwarded to the Linux driver it owns until it is disposed.
 */
module GpioBoard {
  import opened Wrappers
  import opened GpioBits
  import opened GpioRegisters
  import opened LinuxGpioDriver

  /** The board driver's header table, written out separately from the Linux driver's. */
  function BoardHeaderToLogical(header: int): (r: Result<int, GpioError>)
    ensures r.Err? ==> r.error == NotGpioHeaderPin
  {
    match header
    case 3 => Ok(2)
    case 5 => Ok(3)
    case 7 => Ok(4)
    case 8 => Ok(14)
    case 10 => Ok(15)
    case 11 => Ok(17)
    case 12 => Ok(18)
    case 13 => Ok(27)
    case 15 => Ok(22)
    case 16 => Ok(23)
    case 18 => Ok(24)
    case 19 => Ok(10)
    case 21 => Ok(9)
    case 22 => Ok(25)
    case 23 => Ok(11)
    case 24 => Ok(8)
    case 26 => Ok(7)
    case 27 => Ok(0)
    case 28 => Ok(1)
    case 29 => Ok(5)
    case 31 => Ok(6)
    case 32 => Ok(12)
    case 33 => Ok(13)
    case 35 => Ok(19)
    case 36 => Ok(16)
    case 37 => Ok(26)
    case 38 => Ok(20)
    case 40 => Ok(21)
    case _ => Err(NotGpioHeaderPin)
  }

  /** Both drivers translate every header number alike, including the exception. */
  lemma BoardTableMatchesLinuxTable(header: int)
    ensures BoardHeaderToLogical(header) == HeaderToLogical(header)
  {
  }

  class RaspberryPi3Driver {
    /** The Linux driver every call is forwarded to; null after Dispose. */
    var inner: LinuxDriver?

    /** The objects a forwarded call may change. */
    ghost function Footprint(): set<object>
      reads this
    {
      if inner == null then {} else {inner, inner.regs, inner.pinModes}
    }

    predicate Valid()
      reads this
    {
      inner != null ==> inner.Valid()
    }

    /** The number of GPIO pins the board exposes. */
    function PinCount(): (n: int)
      ensures n == GpioRegisters.PinCount
    {
      28
    }

    constructor(isPi4: bool, registerBlock: seq<bv32>)
      requires IsRegisterFile(registerBlock)
      ensures Valid() && inner != null && fresh(inner) && inner.isPi4 == isPi4
      ensures inner.regs[..] == registerBlock && inner.stores == []
    {
      inner := new LinuxDriver(isPi4, registerBlock);
    }

    /** Read forwards to the inner driver; a disposed driver throws. */
    function Read(pin: int): (r: Result<PinValue, GpioError>)
      requires Valid()
      reads this, inner, if inner == null then {} else {inner.regs}
      ensures inner == null ==> r == Err(DriverDisposed)
      ensures inner != null ==> (r.Err? <==> !IsPinNumber(pin))
      ensures inner != null ==> (r == Ok(High) <==> IsPinNumber(pin) && BitSet(inner.regs[GPLEV0 + pin / 32], BitIndex(pin)))
    {
      if inner == null then Err(DriverDisposed) else inner.Read(pin)
    }

    /** GetPinMode forwards to the inner driver; a disposed driver throws. */
    function GetPinMode(pin: int): (r: Result<PinMode, GpioError>)
      reads this, inner, if inner == null then {} else {inner.pinModes}
      ensures inner == null ==> r == Err(DriverDisposed)
      ensures inner != null ==> (r.Err? <==> !IsPinNumber(pin) || pin >= inner.pinModes.Length || inner.pinModes[pin].None?)
    {
      if inner == null then Err(DriverDisposed) else inner.GetPinMode(pin)
    }

    /** IsPinModeSupported forwards to the inner driver; a disposed driver throws. */
    function IsPinModeSupportedOn(pin: int, mode: PinMode): (r: Result<bool, GpioError>)
      reads this
      ensures inner == null ==> r == Err(DriverDisposed)
      ensures inner != null ==> (r == Ok(true) <==> mode.Input? || mode.InputPullDown? || mode.InputPullUp? || mode.Output?)
    {
      if inner == null then Err(DriverDisposed) else Ok(IsPinModeSupported(pin, mode))
    }

    /** Write forwards to the inner driver; a disposed driver throws. */
    method Write(pin: int, value: PinValue) returns (r: Outcome<GpioError>)
      requires Valid()
      modifies Footprint()
      ensures Valid() && inner == old(inner)
      ensures inner == null ==> r == Fail(DriverDisposed)
      ensures inner != null ==> (r.Fail? <==> !IsPinNumber(pin))
      ensures inner != null && !IsPinNumber(pin) ==>
        r == Fail(InvalidPinNumber) && inner.regs[..] == old(inner.regs[..]) && inner.stores == old(inner.stores)
      ensures inner != null && IsPinNumber(pin) ==>
        && inner.regs[..] == old(inner.regs[..])[WriteTarget(pin, value) := PinBit(pin)]
        && inner.stores == old(inner.stores) + [RegisterStore(WriteTarget(pin, value), PinBit(pin))]
    {
      if inner == null {
        return Fail(DriverDisposed);
      }
      r := inner.Write(pin, value);
    }

    /** SetPinMode forwards to the inner driver; a disposed driver throws. */
    method SetPinMode(pin: int, mode: PinMode) returns (r: Outcome<GpioError>)
      requires Valid()
      modifies Footprint()
      ensures Valid() && inner == old(inner)
      ensures inner == null ==> r == Fail(DriverDisposed)
      ensures inner != null && !IsPinNumber(pin) ==> r == Fail(InvalidPinNumber)
      ensures inner != null && IsPinNumber(pin) && !IsPinModeSupported(pin, mode) ==> r == Fail(ModeNotSupported)
      ensures inner != null && r.Fail? ==>
        inner.regs[..] == old(inner.regs[..]) && inner.stores == old(inner.stores) && inner.pinModes[..] == old(inner.pinModes[..])
      ensures inner != null && IsPinNumber(pin) && IsPinModeSupported(pin, mode) ==>
        && r == Pass
        && inner.stores == old(inner.stores) + ModeStores(old(inner.regs[..]), inner.isPi4, pin, mode)
        && inner.regs[..] == Apply(old(inner.regs[..]), ModeStores(old(inner.regs[..]), inner.isPi4, pin, mode))
        && inner.pinModes[..] == old(inner.pinModes[..])[pin := ModeEntry(old(inner.pinModes[pin]), mode)]
        && inner.GetPinMode(pin) == Ok(mode)
    {
      if inner == null {
        return Fail(DriverDisposed);
      }
      r := inner.SetPinMode(pin, mode);
    }

    /** OpenPin forwards to the inner driver; a disposed driver throws. */
    method OpenPin(pin: int) returns (r: Outcome<GpioError>)
      requires Valid()
      modifies Footprint()
      ensures Valid() && inner == old(inner)
      ensures inner == null ==> r == Fail(DriverDisposed)
      ensures inner != null ==> (r.Fail? <==> !IsPinNumber(pin))
      ensures inner != null && r.Fail? ==>
        && r.error == InvalidPinNumber && inner.stores == old(inner.stores)
        && inner.regs[..] == old(inner.regs[..]) && inner.pinModes[..] == old(inner.pinModes[..])
      ensures inner != null && r.Pass? ==>
        && inner.stores == old(inner.stores) + ModeStores(old(inner.regs[..]), inner.isPi4, pin, Input)
        && inner.regs[..] == Apply(old(inner.regs[..]), ModeStores(old(inner.regs[..]), inner.isPi4, pin, Input))
        && inner.pinModes[..] == old(inner.pinModes[..])[pin := ModeEntry(old(inner.pinModes[pin]), Input)]
        && inner.GetPinMode(pin) == Ok(Input)
    {
      if inner == null {
        return Fail(DriverDisposed);
      }
      r := inner.OpenPin(pin);
    }

    /** ClosePin forwards to the inner driver; a disposed driver throws. */
    method ClosePin(pin: int) returns (r: Outcome<GpioError>)
      requires Valid()
      modifies Footprint()
      ensures Valid() && inner == old(inner)
      ensures inner == null ==> r == Fail(DriverDisposed)
      ensures inner != null ==> (r.Fail? <==> !IsPinNumber(pin))
      ensures inner != null && r.Fail? ==>
        && r.error == InvalidPinNumber && inner.stores == old(inner.stores)
        && inner.regs[..] == old(inner.regs[..]) && inner.pinModes[..] == old(inner.pinModes[..])
      ensures inner != null && r.Pass? ==>
        var cleared := old(inner.regs[..])[WriteTarget(pin, Low) := PinBit(pin)];
        && inner.stores == old(inner.stores) + [RegisterStore(WriteTarget(pin, Low), PinBit(pin))]
             + ModeStores(cleared, inner.isPi4, pin, Input)
        && inner.regs[..] == Apply(cleared, ModeStores(cleared, inner.isPi4, pin, Input))
        && inner.pinModes[..] == old(inner.pinModes[..])[pin := None]
        && inner.GetPinMode(pin) == Err(PinNotOpen)
    {
      if inner == null {
        return Fail(DriverDisposed);
      }
      r := inner.ClosePin(pin);
    }

    /** Dispose drops the inner driver; a second Dispose finds it null and does nothing more. */
    method Dispose()
      modifies this
      ensures inner == null && Valid()
    {
      inner := null;
    }
  }

  /** After Dispose every forwarded operation throws, and disposing again is harmless. */
  method DisposeTwice(d: RaspberryPi3Driver) returns (r: Result<PinValue, GpioError>)
    modifies d
    ensures d.inner == null && r == Err(DriverDisposed)
  {
    d.Dispose();
    d.Dispose();
    r := d.Read(3);
  }
}
