/**
 * The user-level GPIO layer: the pin names of Pi.Gpio, the GpioPin class with its validity
 * and mode guards, and the Pi.Gpio cache of pin objects.
 */
module PiGpio {
  import W = Wrappers
  import R = GpioRegisters
  import opened GpioControllerModel

  /** The kind a pin is put to; stored on the pin. */
  datatype PinKind = KindInput | KindInputPullDown | KindInputPullUp | KindOutput | KindNone

  /** The user-facing pin mode; None stands for an invalid pin or an unknown controller mode. */
  datatype GpioPinMode = Input | Output | InputPullDown | InputPullUp | None

  /** The exceptions a pin throws. */
  datatype PinError =
    | InvalidGpioPin                 // InvalidGpioPinException
    | InvalidGpioMode                // InvalidGpioModeException
    | ControllerError(e: R.GpioError)  // thrown by the controller

  /** The number of slots in the Pi.Gpio pin cache. */
  const SlotCount: int := 30

  /** The name of a logical pin; the empty string for a number that is no header GPIO. */
  function Name(number: int): string {
    match number
    case 2 => "BCM 2 (SDA)"
    case 3 => "BCM 3 (SCL)"
    case 4 => "BCM 4 (GPCLK0)"
    case 5 => "BCM 5"
    case 6 => "BCM 6"
    case 7 => "BCM 7 (CE1)"
    case 8 => "BCM 8 (CE0)"
    case 9 => "BCM 9 (MISO)"
    case 10 => "BCM 10 (MOSI)"
    case 11 => "BCM 11 (SCLK)"
    case 12 => "BCM 12 (PWM0)"
    case 13 => "BCM 13 (PWM1)"
    case 14 => "BCM 14 (TXD)"
    case 15 => "BCM 15 (RXD)"
    case 16 => "BCM 16"
    case 17 => "BCM 17"
    case 18 => "BCM 18 (PWM0)"
    case 19 => "BCM 19 (MISO)"
    case 20 => "BCM 20 (MOSI)"
    case 21 => "BCM 21 (SCLK)"
    case 22 => "BCM 22"
    case 23 => "BCM 23"
    case 24 => "BCM 24"
    case 25 => "BCM 25"
    case 26 => "BCM 26"
    case 27 => "BCM 27"
    case _ => ""
  }

  /** Exactly the logical pins 2 to 27 have a name. */
  lemma NameNonEmptyIff(number: int)
    ensures Name(number) != "" <==> 2 <= number <= 27
  {
  }

  /** The controller's mode as the user sees it: any mode outside the four is None. */
  function FromPinMode(mode: R.PinMode): (r: GpioPinMode)
    ensures r == None <==> mode.OtherMode?
  {
    match mode
    case Input => Input
    case Output => Output
    case InputPullDown => InputPullDown
    case InputPullUp => InputPullUp
    case OtherMode(_) => None
  }

  /** The controller mode the Mode setter passes on; None passes nothing. */
  function ToPinMode(mode: GpioPinMode): (r: W.Option<R.PinMode>)
    ensures r.None? <==> mode == None
    ensures r.Some? ==> R.IsPinModeSupported(0, r.value)
  {
    match mode
    case Input => W.Some(R.PinMode.Input)
    case Output => W.Some(R.PinMode.Output)
    case InputPullDown => W.Some(R.PinMode.InputPullDown)
    case InputPullUp => W.Some(R.PinMode.InputPullUp)
    case None => W.None
  }

  /** Setting a mode and reading it back gives the mode set. */
  lemma ModeRoundTrip(mode: GpioPinMode)
    requires mode != None
    ensures FromPinMode(ToPinMode(mode).value) == mode
  {
  }

  /** A mode that allows reading: neither None nor Output. */
  predicate IsInputMode(mode: GpioPinMode) {
    mode != None && mode != Output
  }

  /** One poll of a waiting loop: the level read and the clock's elapsed milliseconds after it. */
  datatype Poll = Poll(level: R.PinValue, elapsed: real)

  /** How a wait ends: the level was reached at the given time, the timeout passed, or the polls ran out. */
  datatype WaitOutcome = Reached(elapsed: real) | TimedOut | StillWaiting

  /** The outcome of waiting from poll i on. */
  function WaitFrom(polls: seq<Poll>, target: R.PinValue, timeout: real, i: nat): WaitOutcome
    requires i <= |polls|
    decreases |polls| - i
  {
    if i == |polls| then StillWaiting
    else if polls[i].level == target then Reached(polls[i].elapsed)
    else if polls[i].elapsed > timeout then TimedOut
    else WaitFrom(polls, target, timeout, i + 1)
  }

  /** No poll before index n ends the wait. */
  predicate NoStopBefore(polls: seq<Poll>, target: R.PinValue, timeout: real, n: int)
    requires n <= |polls|
  {
    forall j :: 0 <= j < n ==> polls[j].level != target && polls[j].elapsed <= timeout
  }

  /** A wait reaches its target only at the first poll that reads it, with no timeout before. */
  lemma {:induction false} WaitReachedMeans(polls: seq<Poll>, target: R.PinValue, timeout: real, i: nat)
    requires i <= |polls| && NoStopBefore(polls, target, timeout, i)
    ensures WaitFrom(polls, target, timeout, i).Reached? <==>
      exists k :: i <= k < |polls| && polls[k].level == target && NoStopBefore(polls, target, timeout, k)
    ensures WaitFrom(polls, target, timeout, i).TimedOut? <==>
      exists k :: i <= k < |polls| && polls[k].level != target && polls[k].elapsed > timeout && NoStopBefore(polls, target, timeout, k)
    decreases |polls| - i
  {
    if i < |polls| && polls[i].level != target && polls[i].elapsed <= timeout {
      WaitReachedMeans(polls, target, timeout, i + 1);
    }
  }

  class GpioPin {
    const controller: Controller
    /** The logical (BCM) number of the pin. */
    const number: int
    const name: string
    /** A pin is valid exactly when it has a name. */
    const valid: bool
    var kind: PinKind

    /** Valid and Name are fixed by the number at construction. */
    predicate Consistent() {
      name == Name(number) && valid == (name != "")
    }

    constructor(controller: Controller, number: int)
      ensures this.controller == controller && this.number == number && Consistent()
      ensures valid <==> 2 <= number <= 27
      ensures kind == KindInput
    {
      this.controller := controller;
      this.number := number;
      name := Name(number);
      valid := Name(number) != "";
      kind := KindInput;
      NameNonEmptyIff(number);
    }

    /** Mode is None for an invalid pin; otherwise the controller's mode of the pin. */
    function Mode(): (r: W.Result<GpioPinMode, PinError>)
      reads controller
      ensures !valid ==> r == W.Ok(None)
      ensures valid ==> (r.Ok? <==> number in controller.modes)
      ensures valid && r.Ok? ==> r.value == FromPinMode(controller.modes[number])
    {
      if !valid then W.Ok(None)
      else match controller.GetPinMode(number)
        case Err(e) => W.Err(ControllerError(e))
        case Ok(m) => W.Ok(FromPinMode(m))
    }

    /** Setting Mode on an invalid pin, or to None, changes nothing. */
    method SetMode(value: GpioPinMode)
      modifies controller
      ensures valid && value != None ==> controller.modes == old(controller.modes)[number := ToPinMode(value).value]
      ensures !valid || value == None ==> controller.modes == old(controller.modes)
      ensures valid && value != None ==> Mode() == W.Ok(value)
      ensures controller.levels == old(controller.levels) && controller.openLog == old(controller.openLog)
      ensures controller.writeLog == old(controller.writeLog)
    {
      if !valid {
        return;
      }
      match value
      case Input => controller.SetPinMode(number, R.PinMode.Input);
      case Output => controller.SetPinMode(number, R.PinMode.Output);
      case InputPullDown => controller.SetPinMode(number, R.PinMode.InputPullDown);
      case InputPullUp => controller.SetPinMode(number, R.PinMode.InputPullUp);
      case None =>
    }

    /** IsInput: the mode allows reading. */
    function IsInput(): (r: W.Result<bool, PinError>)
      reads controller
      ensures r.Ok? <==> Mode().Ok?
      ensures r.Ok? ==> (r.value <==> IsInputMode(Mode().value))
    {
      match Mode()
      case Err(e) => W.Err(e)
      case Ok(m) => W.Ok(m != None && m != Output)
    }

    /** IsOutput: the mode is Output. */
    function IsOutput(): (r: W.Result<bool, PinError>)
      reads controller
      ensures r.Ok? <==> Mode().Ok?
      ensures r.Ok? ==> (r.value <==> Mode().value == Output)
    {
      match Mode()
      case Err(e) => W.Err(e)
      case Ok(m) => W.Ok(m == Output)
    }

    /** Read throws for an invalid pin or a pin not in an input mode, and else reports a high level. */
    function Read(): (r: W.Result<bool, PinError>)
      reads controller
      ensures !valid ==> r == W.Err(InvalidGpioPin)
      ensures valid && Mode().Ok? && !IsInputMode(Mode().value) ==> r == W.Err(InvalidGpioMode)
      ensures r.Ok? <==> valid && number in controller.modes && IsInputMode(FromPinMode(controller.modes[number]))
      ensures r.Ok? ==> (r.value <==> controller.Read(number) == W.Ok(R.High))
    {
      if !valid then W.Err(InvalidGpioPin)
      else if number !in controller.modes then W.Err(ControllerError(R.PinNotOpen))
      else if !IsInputMode(FromPinMode(controller.modes[number])) then W.Err(InvalidGpioMode)
      else W.Ok(controller.Read(number) == W.Ok(R.High))
    }

    /** Write throws unless the pin is valid and an output; then it drives High for true and Low for false. */
    method Write(value: bool) returns (r: W.Outcome<PinError>)
      modifies controller
      ensures !valid ==> r == W.Fail(InvalidGpioPin)
      ensures valid && old(Mode()).Ok? && old(Mode()).value != Output ==> r == W.Fail(InvalidGpioMode)
      ensures r.Pass? <==> valid && old(Mode()) == W.Ok(Output)
      ensures r.Pass? ==> controller.writeLog == old(controller.writeLog) + [(number, if value then R.High else R.Low)]
      ensures r.Fail? ==> controller.writeLog == old(controller.writeLog) && controller.levels == old(controller.levels)
      ensures controller.modes == old(controller.modes) && controller.openLog == old(controller.openLog)
    {
      if !valid {
        return W.Fail(InvalidGpioPin);
      }
      var isOutput := IsOutput();
      if isOutput.Err? {
        return W.Fail(isOutput.error);
      }
      if !isOutput.value {
        return W.Fail(InvalidGpioMode);
      }
      var written := controller.Write(number, if value then R.High else R.Low);
      assert written.Pass?;
      r := W.Pass;
    }

    /**
     * WaitRead polls the pin until it reads the target level or the elapsed time exceeds the
     * timeout. The clock and the levels come in as the sequence of polls.
     */
    method WaitRead(timeout: real, target: R.PinValue, polls: seq<Poll>) returns (r: W.Result<WaitOutcome, PinError>)
      ensures !valid ==> r == W.Err(InvalidGpioPin)
      ensures valid && IsInput() == W.Ok(false) ==> r == W.Err(InvalidGpioMode)
      ensures r.Ok? <==> IsInput() == W.Ok(true)
      ensures r.Ok? ==> r.value == WaitFrom(polls, target, timeout, 0)
    {
      if !valid {
        return W.Err(InvalidGpioPin);
      }
      var isInput := IsInput();
      if isInput.Err? {
        return W.Err(isInput.error);
      }
      if !isInput.value {
        return W.Err(InvalidGpioMode);
      }
      var i := 0;
      while i < |polls|
        invariant 0 <= i <= |polls|
        invariant WaitFrom(polls, target, timeout, i) == WaitFrom(polls, target, timeout, 0)
      {
        if polls[i].level == target {
          return W.Ok(Reached(polls[i].elapsed));
        }
        if polls[i].elapsed > timeout {
          return W.Ok(TimedOut);
        }
        i := i + 1;
      }
      r := W.Ok(StillWaiting);
    }
  }

  /** The valid cached pins of a slot sequence, in slot order. */
  function ValidCached(slots: seq<GpioPin?>): seq<GpioPin> {
    if slots == [] then []
    else
      var last := slots[|slots| - 1];
      ValidCached(slots[..|slots| - 1]) + (if last != null && last.valid then [last] else [])
  }

  /** ValidCached yields exactly the non-null valid pins of the slots. */
  lemma {:induction false} ValidCachedMembers(slots: seq<GpioPin?>, p: GpioPin)
    ensures p in ValidCached(slots) <==> p in slots && p.valid
  {
    if slots != [] {
      ValidCachedMembers(slots[..|slots| - 1], p);
      assert slots == slots[..|slots| - 1] + [slots[|slots| - 1]];
    }
  }

  /** ValidCached keeps slot order: the pins of earlier slots come first. */
  lemma {:induction false} ValidCachedSplit(slots: seq<GpioPin?>, k: nat)
    requires k <= |slots|
    ensures ValidCached(slots) == ValidCached(slots[..k]) + ValidCached(slots[k..])
    decreases |slots|
  {
    if k < |slots| {
      var init := slots[..|slots| - 1];
      ValidCachedSplit(init, k);
      assert init[..k] == slots[..k];
      assert slots[k..][..|slots[k..]| - 1] == init[k..];
    } else {
      assert slots[..k] == slots;
    }
  }

  /** The names of a sequence of pins. */
  function NamesOf(pins: seq<GpioPin>): (r: seq<string>)
    ensures |r| == |pins| && forall i :: 0 <= i < |pins| ==> r[i] == pins[i].name
  {
    if pins == [] then [] else NamesOf(pins[..|pins| - 1]) + [pins[|pins| - 1].name]
  }

  /** The Pi.Gpio class: one controller and a cache of thirty pin slots. */
  class Gpio {
    const controller: Controller
    const pins: array<GpioPin?>

    /** Every cached pin sits in its own number's slot and talks to this controller. */
    predicate Valid()
      reads pins
    {
      && pins.Length == SlotCount
      && forall i :: 0 <= i < SlotCount && pins[i] != null ==>
           pins[i].number == i && pins[i].Consistent() && pins[i].controller == controller
    }

    constructor()
      ensures Valid() && fresh(pins) && fresh(controller)
      ensures forall i :: 0 <= i < SlotCount ==> pins[i] == null
      ensures controller.modes == map[] && controller.openLog == []
    {
      controller := new Controller();
      pins := new GpioPin?[SlotCount](_ => null);
    }

    /** A pin number clamped into the cache's slots. */
    static function Clamp(number: int): (r: int)
      ensures 0 <= r < SlotCount
      ensures 0 <= number < SlotCount ==> r == number
      ensures number < 0 ==> r == 0
      ensures number >= SlotCount ==> r == SlotCount - 1
    {
      if number < 0 then 0 else if number > SlotCount - 1 then SlotCount - 1 else number
    }

    /** Close forgets the cached pin of the clamped slot and nothing else. */
    method Close(number: int)
      requires Valid()
      modifies pins
      ensures Valid() && pins[..] == old(pins[..])[Clamp(number) := null]
    {
      pins[Clamp(number)] := null;
    }

    /**
     * Pin returns the cached pin of the clamped slot, creating and caching it when the slot is
     * empty; only a new valid pin is opened on the controller.
     */
    method Pin(number: int) returns (pin: GpioPin)
      requires Valid()
      modifies pins, controller
      ensures Valid() && pin.number == Clamp(number) && pin.controller == controller
      ensures old(pins[Clamp(number)]) != null ==>
        && pin == old(pins[Clamp(number)])
        && pins[..] == old(pins[..])
        && controller.modes == old(controller.modes) && controller.openLog == old(controller.openLog)
      ensures old(pins[Clamp(number)]) == null ==>
        && fresh(pin) && pin.kind == KindInput
        && pins[..] == old(pins[..])[Clamp(number) := pin]
        && (pin.valid <==> 2 <= Clamp(number) <= 27)
        && controller.openLog == old(controller.openLog) + (if pin.valid then [Clamp(number)] else [])
        && controller.modes == (if pin.valid then old(controller.modes)[Clamp(number) := R.PinMode.Input] else old(controller.modes))
      ensures controller.levels == old(controller.levels) && controller.writeLog == old(controller.writeLog)
    {
      var slot := Clamp(number);
      var cached := pins[slot];
      if cached != null {
        pin := cached;
      } else {
        pin := new GpioPin(controller, slot);
        pins[slot] := pin;
        if pin.valid {
          controller.OpenPin(slot);
        }
      }
    }

    /** Pin with a kind returns the same pin as Pin and sets its kind. */
    method PinOfKind(number: int, kind: PinKind) returns (pin: GpioPin)
      requires Valid()
      modifies pins, controller, pins[Clamp(number)]
      ensures Valid() && pin.number == Clamp(number) && pin.kind == kind && pin.controller == controller
      ensures pins[..] == old(pins[..])[Clamp(number) := pin]
      ensures old(pins[Clamp(number)]) != null ==>
        && pin == old(pins[Clamp(number)])
        && controller.modes == old(controller.modes) && controller.openLog == old(controller.openLog)
      ensures old(pins[Clamp(number)]) == null ==>
        && fresh(pin)
        && (pin.valid <==> 2 <= Clamp(number) <= 27)
        && controller.openLog == old(controller.openLog) + (if pin.valid then [Clamp(number)] else [])
        && controller.modes == (if pin.valid then old(controller.modes)[Clamp(number) := R.PinMode.Input] else old(controller.modes))
      ensures controller.levels == old(controller.levels) && controller.writeLog == old(controller.writeLog)
    {
      pin := Pin(number);
      pin.kind := kind;
    }

    /** Pins yields the cached valid pins in slot order. */
    method Pins() returns (r: seq<GpioPin>)
      requires Valid()
      ensures r == ValidCached(pins[..])
    {
      r := [];
      var i := 0;
      while i < pins.Length
        invariant 0 <= i <= pins.Length
        invariant r == ValidCached(pins[..i])
      {
        assert pins[..i + 1][..i] == pins[..i];
        var pin := pins[i];
        if pin != null && pin.valid {
          r := r + [pin];
        }
        i := i + 1;
      }
      assert pins[..i] == pins[..];
    }

    /** Names yields the names of the cached valid pins in slot order. */
    method Names() returns (r: seq<string>)
      requires Valid()
      ensures r == NamesOf(ValidCached(pins[..]))
    {
      r := [];
      var i := 0;
      while i < pins.Length
        invariant 0 <= i <= pins.Length
        invariant r == NamesOf(ValidCached(pins[..i]))
      {
        assert pins[..i + 1][..i] == pins[..i];
        var pin := pins[i];
        if pin != null && pin.valid {
          r := r + [pin.name];
        }
        i := i + 1;
      }
      assert pins[..i] == pins[..];
    }
  }

  /** Every name Names yields is non-empty, because only valid pins are listed. */
  lemma {:induction false} NamesNonEmpty(slots: seq<GpioPin?>)
    requires forall i :: 0 <= i < |slots| && slots[i] != null ==> slots[i].Consistent()
    ensures forall n :: n in NamesOf(ValidCached(slots)) ==> n != ""
  {
    var ps := ValidCached(slots);
    forall n | n in NamesOf(ps)
      ensures n != ""
    {
      var i :| 0 <= i < |ps| && NamesOf(ps)[i] == n;
      ValidCachedMembers(slots, ps[i]);
      var j :| 0 <= j < |slots| && slots[j] == ps[i];
    }
  }
}
