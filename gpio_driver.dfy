/**
 * The memory-mapped GPIO driver of the Raspberry Pi 3 and 4: a register block of 32-bit words,
 * the log of the stores made into it, and the table of open pins.
 */
module LinuxGpioDriver {
  import opened Wrappers
  import opened GpioBits
  import opened GpioRegisters

  lemma AppendFive<T>(s: seq<T>, a: T, b: T, c: T, d: T, e: T)
    ensures s + [a] + [b] + [c] + [d] + [e] == s + [a, b, c, d, e]
  {
  }

  lemma AppendAssoc<T>(a: seq<T>, b: seq<T>, c: seq<T>)
    ensures a + b + c == a + (b + c)
  {
  }

  class LinuxDriver {
    /** Set at initialisation from the device-tree model string. */
    const isPi4: bool
    /** The mapped register block. */
    const regs: array<bv32>
    /** The open-pin table; None is a null entry. */
    const pinModes: array<Option<PinState>>
    /** Every store into the register block so far, in program order. */
    ghost var stores: seq<RegisterStore>

    /** The register block and the open-pin table have their fixed sizes. */
    predicate Valid()
    {
      regs.Length == RegisterWords && pinModes.Length == PinCount
    }

    /** A driver over a mapped register block; no pin is open yet. */
    constructor(isPi4: bool, registerBlock: seq<bv32>)
      requires IsRegisterFile(registerBlock)
      ensures Valid() && this.isPi4 == isPi4
      ensures regs[..] == registerBlock && stores == []
      ensures forall p | 0 <= p < PinCount :: pinModes[p] == None
    {
      this.isPi4 := isPi4;
      regs := new bv32[RegisterWords](i requires 0 <= i < RegisterWords => registerBlock[i]);
      pinModes := new Option<PinState>[PinCount](_ => None);
      stores := [];
      new;
      assert regs[..] == registerBlock;
    }

    /** Stores one register word and logs the store. */
    method Store(i: int, v: bv32)
      requires Valid() && 0 <= i < RegisterWords
      modifies this, regs
      ensures regs[..] == old(regs[..])[i := v]
      ensures stores == old(stores) + [RegisterStore(i, v)]
    {
      regs[i] := v;
      stores := stores + [RegisterStore(i, v)];
    }

    /** Read: the level bit of the pin in GPLEV[pin/32]; an invalid pin throws. */
    function Read(pin: int): (r: Result<PinValue, GpioError>)
      requires Valid()
      reads regs
      ensures r.Err? <==> !IsPinNumber(pin)
      ensures r.Err? ==> r.error == InvalidPinNumber
      ensures r == Ok(High) <==> IsPinNumber(pin) && BitSet(regs[GPLEV0 + pin / 32], BitIndex(pin))
    {
      if !IsPinNumber(pin) then Err(InvalidPinNumber)
      else if BitSet(regs[GPLEV0 + pin / 32], BitIndex(pin)) then Ok(High)
      else Ok(Low)
    }

    /** Write stores exactly the pin's bit into GPSET[pin/32] (High) or GPCLR[pin/32] (Low). */
    method Write(pin: int, value: PinValue) returns (r: Outcome<GpioError>)
      requires Valid()
      modifies this, regs
      ensures r.Fail? <==> !IsPinNumber(pin)
      ensures !IsPinNumber(pin) ==> r == Fail(InvalidPinNumber) && regs[..] == old(regs[..]) && stores == old(stores)
      ensures IsPinNumber(pin) ==>
        && regs[..] == old(regs[..])[WriteTarget(pin, value) := PinBit(pin)]
        && stores == old(stores) + [RegisterStore(WriteTarget(pin, value), PinBit(pin))]
    {
      if !IsPinNumber(pin) {
        return Fail(InvalidPinNumber);
      }
      Store(WriteTarget(pin, value), PinBit(pin));
      r := Pass;
    }

    /** GetPinMode: the mode last set on an open pin; a null entry throws. */
    function GetPinMode(pin: int): (r: Result<PinMode, GpioError>)
      reads pinModes
      ensures r.Err? <==> !IsPinNumber(pin) || pin >= pinModes.Length || pinModes[pin].None?
      ensures r.Err? && IsPinNumber(pin) ==> r.error == PinNotOpen
    {
      if !IsPinNumber(pin) then Err(InvalidPinNumber)
      else if pin >= pinModes.Length then Err(PinNotOpen)
      else match pinModes[pin]
        case None => Err(PinNotOpen)
        case Some(s) => Ok(s.currentPinMode)
    }

    /**
     * SetInputPullMode: the BCM2711 update of the pin's pull field, or the BCM2835 sequence of
     * five stores; a mode the BCM2835 sequence has no code for throws before any store.
     */
    method SetInputPullMode(pin: int, mode: PinMode) returns (r: Outcome<GpioError>)
      requires Valid() && IsPinNumber(pin)
      modifies this, regs
      ensures var u := PullStores(old(regs[..]), isPi4, pin, mode);
        && (r.Fail? <==> u.Err?)
        && (u.Err? ==> r.error == u.error && regs[..] == old(regs[..]) && stores == old(stores))
        && (u.Ok? ==> stores == old(stores) + u.value && regs[..] == Apply(old(regs[..]), u.value))
    {
      if isPi4 {
        SetInputPullModePi4(pin, mode);
        return Pass;
      }
      var code := Pi3PullCode(mode);
      if code.Err? {
        return Fail(code.error);
      }
      PullSequence(ClockWord(pin), BitIndex(pin), code.value);
      r := Pass;
    }

    /** The BCM2835 sequence: GPPUD's control bits set to the code while bit k of clock word w is pulsed. */
    method PullSequence(w: int, k: bv32, code: bv32)
      requires Valid() && 0 <= w < RegisterWords && w != GPPUD && k < 32
      modifies this, regs
      ensures stores == old(stores) + Pi3PullStores(old(regs[..]), w, k, code)
      ensures regs[..] == Apply(old(regs[..]), Pi3PullStores(old(regs[..]), w, k, code))
    {
      ghost var regs0 := regs[..];
      ghost var stores0 := stores;
      ghost var t := Pi3PullStores(regs0, w, k, code);
      Store(GPPUD, ClearControl(regs[GPPUD]));
      Store(GPPUD, OrControl(regs[GPPUD], code));
      Store(w, SetBit(regs[w], k));
      Store(w, ClearBit(regs[w], k));
      Store(GPPUD, ClearControl(regs[GPPUD]));
      AppendFive(stores0, t[0], t[1], t[2], t[3], t[4]);
      assert t == [t[0], t[1], t[2], t[3], t[4]];
      ApplyFive(regs0, GPPUD, w, t[0].value, t[1].value, t[2].value, t[3].value, t[4].value);
    }

    /** SetInputPullModePi4: read-modify-write of the pin's 2-bit field of GPIO_PUP_PDN_CNTRL[pin >> 4]. */
    method SetInputPullModePi4(pin: int, mode: PinMode)
      requires Valid() && IsPinNumber(pin)
      modifies this, regs
      ensures stores == old(stores) + PullStores(old(regs[..]), true, pin, mode).value
      ensures regs[..] == Apply(old(regs[..]), PullStores(old(regs[..]), true, pin, mode).value)
    {
      ghost var regs0 := regs[..];
      var k := GPPUPPDN0 + pin / 16;
      Store(k, SetField2(regs[k], Pi4PullShift(pin), Pi4PullCode(mode)));
      ApplyOne(regs0, PullStores(regs0, true, pin, mode).value[0]);
    }

    /** Records a pin's mode in the open-pin table, creating the entry when it is null. */
    method RecordMode(pin: int, mode: PinMode)
      requires 0 <= pin < pinModes.Length
      modifies pinModes
      ensures pinModes[..] == old(pinModes[..])[pin := ModeEntry(old(pinModes[pin]), mode)]
    {
      pinModes[pin] := ModeEntry(pinModes[pin], mode);
    }

    /** Nulls a pin's entry in the open-pin table. */
    method ForgetPin(pin: int)
      requires 0 <= pin < pinModes.Length
      modifies pinModes
      ensures pinModes[..] == old(pinModes[..])[pin := None]
    {
      pinModes[pin] := None;
    }

    /**
     * SetPinMode: an invalid pin throws ArgumentException and an unsupported mode throws
     * InvalidOperationException, both before any register changes; otherwise the stores are
     * ModeStores of the old registers and the table entry records the mode.
     */
    method SetPinMode(pin: int, mode: PinMode) returns (r: Outcome<GpioError>)
      requires Valid()
      modifies this, regs, pinModes
      ensures !IsPinNumber(pin) ==> r == Fail(InvalidPinNumber)
      ensures IsPinNumber(pin) && !IsPinModeSupported(pin, mode) ==> r == Fail(ModeNotSupported)
      ensures r.Fail? ==> regs[..] == old(regs[..]) && stores == old(stores) && pinModes[..] == old(pinModes[..])
      ensures IsPinNumber(pin) && IsPinModeSupported(pin, mode) ==>
        && r == Pass
        && stores == old(stores) + ModeStores(old(regs[..]), isPi4, pin, mode)
        && regs[..] == Apply(old(regs[..]), ModeStores(old(regs[..]), isPi4, pin, mode))
        && pinModes[..] == old(pinModes[..])[pin := ModeEntry(old(pinModes[pin]), mode)]
        && GetPinMode(pin) == Ok(mode)
    {
      if !IsPinNumber(pin) {
        return Fail(InvalidPinNumber);
      }
      if !IsPinModeSupported(pin, mode) {
        return Fail(ModeNotSupported);
      }
      SelectMode(pin, mode);
      r := Pass;
    }

    /** The body of SetPinMode once the pin and the mode are accepted. */
    method SelectMode(pin: int, mode: PinMode)
      requires Valid() && IsPinNumber(pin) && IsPinModeSupported(pin, mode)
      modifies this, regs, pinModes
      ensures stores == old(stores) + ModeStores(old(regs[..]), isPi4, pin, mode)
      ensures regs[..] == Apply(old(regs[..]), ModeStores(old(regs[..]), isPi4, pin, mode))
      ensures pinModes[..] == old(pinModes[..])[pin := ModeEntry(old(pinModes[pin]), mode)]
    {
      ghost var regs0 := regs[..];
      ghost var stores0 := stores;
      ghost var st := FselStore(regs0, pin, mode);
      var fsel := GPFSEL0 + pin / 10;
      Store(fsel, SetField3(regs[fsel], FselShift(pin), FselCode(mode)));
      ghost var regs1 := regs[..];
      ApplyOne(regs0, st);
      RecordMode(pin, mode);
      if mode != Output {
        PullStoresFail(regs1, isPi4, pin, mode);
        var _ := SetInputPullMode(pin, mode);
        ghost var p := PullStores(regs1, isPi4, pin, mode).value;
        assert ModeStores(regs0, isPi4, pin, mode) == [st] + p;
        AppendAssoc(stores0, [st], p);
        ApplyAppend(regs0, [st], p);
      }
    }

    /** OpenPin selects input mode (mapping the registers is not modelled). */
    method OpenPin(pin: int) returns (r: Outcome<GpioError>)
      requires Valid()
      modifies this, regs, pinModes
      ensures r.Fail? <==> !IsPinNumber(pin)
      ensures r.Fail? ==> r.error == InvalidPinNumber && regs[..] == old(regs[..]) && pinModes[..] == old(pinModes[..])
      ensures r.Fail? ==> stores == old(stores)
      ensures r.Pass? ==>
        && stores == old(stores) + ModeStores(old(regs[..]), isPi4, pin, Input)
        && regs[..] == Apply(old(regs[..]), ModeStores(old(regs[..]), isPi4, pin, Input))
        && pinModes[..] == old(pinModes[..])[pin := ModeEntry(old(pinModes[pin]), Input)]
        && GetPinMode(pin) == Ok(Input)
    {
      if !IsPinNumber(pin) {
        return Fail(InvalidPinNumber);
      }
      r := SetPinMode(pin, Input);
    }

    /**
     * ClosePin drives the pin low, returns it to input mode and nulls its table entry, so a
     * later GetPinMode throws.
     */
    method ClosePin(pin: int) returns (r: Outcome<GpioError>)
      requires Valid()
      modifies this, regs, pinModes
      ensures r.Fail? <==> !IsPinNumber(pin)
      ensures r.Fail? ==> r.error == InvalidPinNumber && regs[..] == old(regs[..]) && pinModes[..] == old(pinModes[..])
      ensures r.Fail? ==> stores == old(stores)
      ensures r.Pass? ==>
        var cleared := old(regs[..])[WriteTarget(pin, Low) := PinBit(pin)];
        && stores == old(stores) + [RegisterStore(WriteTarget(pin, Low), PinBit(pin))] + ModeStores(cleared, isPi4, pin, Input)
        && regs[..] == Apply(cleared, ModeStores(cleared, isPi4, pin, Input))
        && pinModes[..] == old(pinModes[..])[pin := None]
        && GetPinMode(pin) == Err(PinNotOpen)
    {
      if !IsPinNumber(pin) {
        return Fail(InvalidPinNumber);
      }
      var _ := Write(pin, Low);
      ghost var cleared := regs[..];
      var _ := SetPinMode(pin, Input);
      assert regs[..] == Apply(cleared, ModeStores(cleared, isPi4, pin, Input));
      ForgetPin(pin);
      r := Pass;
    }
  }
}
