/**
 * The pin controller the user-level pin classes talk to. The controller library itself is
 * not part of this model; this class stands in for it with the observable state the pin
 * classes rely on: which pins are open and in which mode, the level each pin reads, and the
 * log of opens and writes.
 */
module GpioControllerModel {
  import opened Wrappers
  import opened GpioRegisters

  class Controller {
    /** The mode of every open pin; a pin missing here is not open. */
    var modes: map<int, PinMode>
    /** The level a read of each pin returns; a pin missing here reads low. */
    var levels: map<int, PinValue>
    /** Every pin number passed to OpenPin, in call order. */
    var openLog: seq<int>
    /** Every write, in call order. */
    var writeLog: seq<(int, PinValue)>

    constructor()
      ensures modes == map[] && levels == map[] && openLog == [] && writeLog == []
    {
      modes := map[];
      levels := map[];
      openLog := [];
      writeLog := [];
    }

    /** Opening a pin puts it in input mode, as the Linux driver's OpenPin does. */
    method OpenPin(pin: int)
      modifies this
      ensures modes == old(modes)[pin := Input] && openLog == old(openLog) + [pin]
      ensures levels == old(levels) && writeLog == old(writeLog)
    {
      modes := modes[pin := Input];
      openLog := openLog + [pin];
    }

    method SetPinMode(pin: int, mode: PinMode)
      modifies this
      ensures modes == old(modes)[pin := mode]
      ensures levels == old(levels) && openLog == old(openLog) && writeLog == old(writeLog)
    {
      modes := modes[pin := mode];
    }

    /** The mode of an open pin; a pin that is not open throws. */
    function GetPinMode(pin: int): (r: Result<PinMode, GpioError>)
      reads this
      ensures r.Ok? <==> pin in modes
      ensures r.Ok? ==> r.value == modes[pin]
    {
      if pin in modes then Ok(modes[pin]) else Err(PinNotOpen)
    }

    /** The level of an open pin; a pin that is not open throws. */
    function Read(pin: int): (r: Result<PinValue, GpioError>)
      reads this
      ensures r.Ok? <==> pin in modes
      ensures r == Ok(High) <==> pin in modes && pin in levels && levels[pin] == High
    {
      if pin !in modes then Err(PinNotOpen)
      else if pin in levels then Ok(levels[pin])
      else Ok(Low)
    }

    /** Writing an open pin drives its level; a pin that is not open throws. */
    method Write(pin: int, value: PinValue) returns (r: Outcome<GpioError>)
      modifies this
      ensures r.Pass? <==> pin in old(modes)
      ensures r.Pass? ==> levels == old(levels)[pin := value] && writeLog == old(writeLog) + [(pin, value)]
      ensures r.Fail? ==> r.error == PinNotOpen && levels == old(levels) && writeLog == old(writeLog)
      ensures modes == old(modes) && openLog == old(openLog)
    {
      if pin !in modes {
        return Fail(PinNotOpen);
      }
      levels := levels[pin := value];
      writeLog := writeLog + [(pin, value)];
      r := Pass;
    }
  }
}
