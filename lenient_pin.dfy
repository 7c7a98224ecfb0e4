/**
 * The lenient pin of the second library generation: an invalid pin reads false, ignores
 * writes and mode changes, and reports mode None, where the first generation throws.
 */
module LenientGpio {
  import W = Wrappers
  import R = GpioRegisters
  import opened GpioControllerModel
  import opened PiGpio

  class LenientPin {
    const controller: Controller
    const number: int
    const name: string
    const valid: bool

    constructor(controller: Controller, number: int)
      ensures this.controller == controller && this.number == number
      ensures name == Name(number) && (valid <==> 2 <= number <= 27)
    {
      this.controller := controller;
      this.number := number;
      name := Name(number);
      valid := Name(number) != "";
      NameNonEmptyIff(number);
    }

    /** Read is false for an invalid pin without asking the controller. */
    function Read(): (r: W.Result<bool, R.GpioError>)
      reads controller
      ensures !valid ==> r == W.Ok(false)
      ensures valid ==> (r.Ok? <==> number in controller.modes)
      ensures r == W.Ok(true) <==> valid && controller.Read(number) == W.Ok(R.High)
    {
      if !valid then W.Ok(false)
      else match controller.Read(number)
        case Err(e) => W.Err(e)
        case Ok(v) => W.Ok(v == R.High)
    }

    /** Write on an invalid pin does nothing; otherwise it drives High for true and Low for false. */
    method Write(value: bool) returns (r: W.Outcome<R.GpioError>)
      modifies controller
      ensures !valid ==> r == W.Pass && controller.writeLog == old(controller.writeLog) && controller.levels == old(controller.levels)
      ensures valid ==> (r.Pass? <==> number in old(controller.modes))
      ensures valid && r.Pass? ==>
        controller.writeLog == old(controller.writeLog) + [(number, if value then R.High else R.Low)]
      ensures r.Fail? ==> controller.writeLog == old(controller.writeLog)
      ensures controller.modes == old(controller.modes) && controller.openLog == old(controller.openLog)
    {
      if !valid {
        return W.Pass;
      }
      r := controller.Write(number, if value then R.High else R.Low);
    }

    /** Mode is None for an invalid pin; otherwise the controller's mode of the pin. */
    function Mode(): (r: W.Result<GpioPinMode, R.GpioError>)
      reads controller
      ensures !valid ==> r == W.Ok(None)
      ensures valid ==> (r.Ok? <==> number in controller.modes)
      ensures valid && r.Ok? ==> r.value == FromPinMode(controller.modes[number])
    {
      if !valid then W.Ok(None)
      else match controller.GetPinMode(number)
        case Err(e) => W.Err(e)
        case Ok(m) => W.Ok(FromPinMode(m))
    }

    /** Setting Mode on an invalid pin, or to None, changes nothing. */
    method SetMode(value: GpioPinMode)
      modifies controller
      ensures valid && value != None ==> controller.modes == old(controller.modes)[number := ToPinMode(value).value]
      ensures !valid || value == None ==> controller.modes == old(controller.modes)
      ensures valid && value != None ==> Mode() == W.Ok(value)
      ensures controller.levels == old(controller.levels) && controller.openLog == old(controller.openLog)
      ensures controller.writeLog == old(controller.writeLog)
    {
      if valid {
        match value
        case Input => controller.SetPinMode(number, R.PinMode.Input);
        case Output => controller.SetPinMode(number, R.PinMode.Output);
        case InputPullDown => controller.SetPinMode(number, R.PinMode.InputPullDown);
        case InputPullUp => controller.SetPinMode(number, R.PinMode.InputPullUp);
        case None =>
      }
    }
  }
}
