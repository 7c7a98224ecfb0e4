/**
 * The termios-based serial port: the flag words UpdatePort computes from the options, after
 * the General Terminal Interface of POSIX.1 (XBD chapter 11) with the Linux bit values the
 * code uses, and the open/closed state of the port's file descriptor.
 */
module SerialPorts {
  import W = Wrappers
  import opened Utf8

  // c_cflag bits
  const CBAUD: bv32 := 4111
  const CBAUDEX: bv32 := 4096
  const B300: bv32 := 7
  const B1200: bv32 := 9
  const B2400: bv32 := 11
  const B4800: bv32 := 12
  const B9600: bv32 := 13
  const B19200: bv32 := 14
  const B38400: bv32 := 15
  const B57600: bv32 := 4097
  const B115200: bv32 := 4098
  const B230400: bv32 := 4099
  const CS5: bv32 := 0
  const CS6: bv32 := 16
  const CS7: bv32 := 32
  const CS8: bv32 := 48
  const CSIZE: bv32 := 48
  const CSTOPB: bv32 := 64
  const CREAD: bv32 := 128
  const PARENB: bv32 := 256
  const PARODD: bv32 := 512
  const CLOCAL: bv32 := 2048
  // c_lflag bits
  const ISIG: bv32 := 1
  const ICANON: bv32 := 2
  const ECHO: bv32 := 8
  const ECHOE: bv32 := 16
  const ECHOK: bv32 := 32
  const ECHONL: bv32 := 64
  const IEXTEN: bv32 := 32768
  // c_iflag bits
  const IGNBRK: bv32 := 1
  const INPCK: bv32 := 16
  const ISTRIP: bv32 := 32
  const INLCR: bv32 := 64
  const IGNCR: bv32 := 128
  const ICRNL: bv32 := 256
  // c_oflag bits
  const OPOST: bv32 := 1
  const ONLCR: bv32 := 4
  const OCRNL: bv32 := 8

  /** The local-mode, output and input bits UpdatePort clears. */
  const LocalCleared: bv32 := ICANON | ECHO | ECHOE | ECHOK | ECHONL | ISIG | IEXTEN
  const OutputCleared: bv32 := OPOST | ONLCR | OCRNL
  const InputCleared: bv32 := INLCR | IGNCR | ICRNL | IGNBRK | INPCK | ISTRIP
  /** Every control-mode bit UpdatePort decides. */
  const ControlDecided: bv32 := CBAUD | CBAUDEX | CSIZE | PARENB | PARODD | CSTOPB | CLOCAL | CREAD

  datatype Parity = Even | Odd | None
  datatype StopBits = One | Two
  datatype FlushDirection = FlushInput | FlushOutput | FlushBoth

  datatype SerialPortOptions = SerialPortOptions(
    baud: int, dataBits: int, parity: Parity, stopBits: StopBits, min: bv8, timeout: bv8)

  /** 9600 baud, 8 data bits, no parity, one stop bit, VMIN 1 and VTIME 0. */
  const DefaultOptions := SerialPortOptions(9600, 8, None, One, 1, 0)

  /** The four flag words and the VTIME (c_cc5) and VMIN (c_cc6) slots of a termios record. */
  datatype Termios = Termios(iflag: bv32, oflag: bv32, cflag: bv32, lflag: bv32, cc5: bv8, cc6: bv8)

  /** The speed code of a baud rate; an unlisted rate is 9600 baud. */
  function BaudCode(baud: int): (code: bv32)
    ensures code & !(CBAUD | CBAUDEX) == 0
  {
    match baud
    case 300 => B300
    case 1200 => B1200
    case 2400 => B2400
    case 4800 => B4800
    case 9600 => B9600
    case 19200 => B19200
    case 38400 => B38400
    case 57600 => B57600
    case 115200 => B115200
    case 230400 => B230400
    case _ => B9600
  }

  /** The character-size code of a number of data bits; any unlisted number is 8 bits. */
  function SizeCode(dataBits: int): bv32 {
    match dataBits
    case 5 => CS5
    case 6 => CS6
    case 7 => CS7
    case _ => CS8
  }

  function ParityCode(parity: Parity): bv32 {
    match parity
    case Odd => PARENB | PARODD
    case Even => PARENB
    case None => 0
  }

  function StopCode(stopBits: StopBits): bv32 {
    if stopBits == One then 0 else CSTOPB
  }

  /** Distinct listed rates get distinct speed codes, so the code identifies the rate. */
  lemma BaudCodeInjective(a: int, b: int)
    requires a in {300, 1200, 2400, 4800, 9600, 19200, 38400, 57600, 115200, 230400}
    requires b in {300, 1200, 2400, 4800, 9600, 19200, 38400, 57600, 115200, 230400}
    ensures BaudCode(a) == BaudCode(b) ==> a == b
  {
  }

  /** A control word with every decided field cleared and then set to the given codes. */
  function ControlWord(c: bv32, baud: bv32, size: bv32, parity: bv32, stop: bv32): bv32 {
    ((((((c | CLOCAL | CREAD) & !(CBAUD | CBAUDEX | CSIZE)) | baud | size) & !(PARENB | PARODD)) | parity) & !CSTOPB) | stop
  }

  /** The codes that fit their fields. */
  predicate FieldCodes(baud: bv32, size: bv32, parity: bv32, stop: bv32) {
    && baud & !(CBAUD | CBAUDEX) == 0 && size & !CSIZE == 0
    && parity & !(PARENB | PARODD) == 0 && stop & !CSTOPB == 0
  }

  lemma ControlWordBaud(c: bv32, baud: bv32, size: bv32, parity: bv32, stop: bv32)
    requires FieldCodes(baud, size, parity, stop)
    ensures ControlWord(c, baud, size, parity, stop) & (CBAUD | CBAUDEX) == baud
  {
  }

  lemma ControlWordSize(c: bv32, baud: bv32, size: bv32, parity: bv32, stop: bv32)
    requires FieldCodes(baud, size, parity, stop)
    ensures ControlWord(c, baud, size, parity, stop) & CSIZE == size
  {
  }

  lemma ControlWordParity(c: bv32, baud: bv32, size: bv32, parity: bv32, stop: bv32)
    requires FieldCodes(baud, size, parity, stop)
    ensures ControlWord(c, baud, size, parity, stop) & (PARENB | PARODD) == parity
  {
  }

  lemma ControlWordStop(c: bv32, baud: bv32, size: bv32, parity: bv32, stop: bv32)
    requires FieldCodes(baud, size, parity, stop)
    ensures ControlWord(c, baud, size, parity, stop) & CSTOPB == stop
  {
  }

  lemma ControlWordLines(c: bv32, baud: bv32, size: bv32, parity: bv32, stop: bv32)
    requires FieldCodes(baud, size, parity, stop)
    ensures ControlWord(c, baud, size, parity, stop) & (CLOCAL | CREAD) == CLOCAL | CREAD
  {
  }

  lemma ControlWordRest(c: bv32, baud: bv32, size: bv32, parity: bv32, stop: bv32)
    requires FieldCodes(baud, size, parity, stop)
    ensures ControlWord(c, baud, size, parity, stop) & !ControlDecided == c & !ControlDecided
  {
  }

  /** The codes of any options fit their fields. */
  lemma OptionCodesFit(options: SerialPortOptions)
    ensures FieldCodes(BaudCode(options.baud), SizeCode(options.dataBits), ParityCode(options.parity), StopCode(options.stopBits))
  {
  }

  /** The control word of the options. */
  function OptionsControlWord(c: bv32, options: SerialPortOptions): bv32 {
    ControlWord(c, BaudCode(options.baud), SizeCode(options.dataBits), ParityCode(options.parity), StopCode(options.stopBits))
  }

  /** The control word of the options sets each field to its code and keeps every other bit. */
  lemma OptionsControlWordFields(c: bv32, options: SerialPortOptions)
    ensures OptionsControlWord(c, options) & (CBAUD | CBAUDEX) == BaudCode(options.baud)
    ensures OptionsControlWord(c, options) & CSIZE == SizeCode(options.dataBits)
    ensures OptionsControlWord(c, options) & (PARENB | PARODD) == ParityCode(options.parity)
    ensures OptionsControlWord(c, options) & CSTOPB == StopCode(options.stopBits)
    ensures OptionsControlWord(c, options) & (CLOCAL | CREAD) == CLOCAL | CREAD
    ensures OptionsControlWord(c, options) & !ControlDecided == c & !ControlDecided
  {
    var b, s, p, t := BaudCode(options.baud), SizeCode(options.dataBits), ParityCode(options.parity), StopCode(options.stopBits);
    OptionCodesFit(options);
    ControlWordBaud(c, b, s, p, t);
    ControlWordSize(c, b, s, p, t);
    ControlWordParity(c, b, s, p, t);
    ControlWordStop(c, b, s, p, t);
    ControlWordLines(c, b, s, p, t);
    ControlWordRest(c, b, s, p, t);
  }

  /**
   * UpdatePort: raw mode with the receiver on and the modem lines ignored, then the speed,
   * character size, parity and stop bits of the options, and VTIME and VMIN.
   */
  method UpdatePort(current: Termios, options: SerialPortOptions) returns (term: Termios)
    ensures term.cflag == OptionsControlWord(current.cflag, options)
    ensures term.lflag == current.lflag & !LocalCleared
    ensures term.oflag == current.oflag & !OutputCleared
    ensures term.iflag == current.iflag & !InputCleared
    ensures term.cc5 == options.timeout && term.cc6 == options.min
  {
    var cflag := current.cflag | CLOCAL | CREAD;
    var lflag := current.lflag & !LocalCleared;
    var oflag := current.oflag & !OutputCleared;
    var iflag := current.iflag & !InputCleared;
    cflag := cflag & !(CBAUD | CBAUDEX | CSIZE);
    cflag := cflag | BaudCode(options.baud);
    cflag := cflag | SizeCode(options.dataBits);
    ghost var sized := cflag;
    cflag := ParityStep(cflag, options.parity);
    ParityStepEffect(sized, options.parity);
    ghost var parityDone := cflag;
    cflag := StopStep(cflag, options.stopBits);
    StopStepEffect(parityDone, options.stopBits);
    term := Termios(iflag, oflag, cflag, lflag, options.timeout, options.min);
  }

  /** The parity step: odd sets both bits, even clears PARODD and sets PARENB, none clears both. */
  function ParityStep(c: bv32, parity: Parity): bv32 {
    if parity == Odd then c | PARENB | PARODD
    else if parity == Even then (c & !PARODD) | PARENB
    else c & !(PARENB | PARODD)
  }

  /** The stop-bit step: one stop bit clears CSTOPB, two set it. */
  function StopStep(c: bv32, stopBits: StopBits): bv32 {
    if stopBits == One then c & !CSTOPB else c | CSTOPB
  }

  /** The parity step replaced the two parity bits by the parity's code. */
  predicate ParityReplaced(c: bv32, parity: Parity) {
    ParityStep(c, parity) == (c & !(PARENB | PARODD)) | ParityCode(parity)
  }

  lemma ParityStepEffect(c: bv32, parity: Parity)
    ensures ParityReplaced(c, parity)
  {
    if parity == Odd {
      OddParity(c, parity);
    } else if parity == Even {
      EvenParity(c, parity);
    } else {
      NoParity(c, parity);
    }
  }

  lemma OddParity(c: bv32, parity: Parity)
    requires parity == Odd
    ensures ParityReplaced(c, parity)
  {
    assert ParityCode(parity) == PARENB | PARODD;
    assert ParityStep(c, parity) == c | PARENB | PARODD;
  }

  lemma EvenParity(c: bv32, parity: Parity)
    requires parity == Even
    ensures ParityReplaced(c, parity)
  {
    assert ParityCode(parity) == PARENB;
    assert ParityStep(c, parity) == (c & !PARODD) | PARENB;
  }

  lemma NoParity(c: bv32, parity: Parity)
    requires parity == None
    ensures ParityReplaced(c, parity)
  {
    assert ParityCode(parity) == 0;
    assert ParityStep(c, parity) == c & !(PARENB | PARODD);
  }

  /** The stop-bit step replaced CSTOPB by the stop bits' code. */
  predicate StopReplaced(c: bv32, stopBits: StopBits) {
    StopStep(c, stopBits) == (c & !CSTOPB) | StopCode(stopBits)
  }

  lemma StopStepEffect(c: bv32, stopBits: StopBits)
    ensures StopReplaced(c, stopBits)
  {
    if stopBits == One {
      OneStopBit(c, stopBits);
    } else {
      TwoStopBits(c, stopBits);
    }
  }

  lemma OneStopBit(c: bv32, stopBits: StopBits)
    requires stopBits == One
    ensures StopReplaced(c, stopBits)
  {
    assert StopCode(stopBits) == 0;
    assert StopStep(c, stopBits) == c & !CSTOPB;
  }

  lemma TwoStopBits(c: bv32, stopBits: StopBits)
    requires stopBits == Two
    ensures StopReplaced(c, stopBits)
  {
    assert StopCode(stopBits) == CSTOPB;
    assert StopStep(c, stopBits) == c | CSTOPB;
  }

  /** The serial port: a file descriptor, open when positive, and what was sent through the system calls. */
  class SerialPort {
    const device: string
    var port: int
    /** Every termios record passed to tcsetattr, in call order. */
    var settings: seq<Termios>
    /** Every buffer passed to write, in call order. */
    var sent: seq<seq<W.Byte>>
    /** Every flush request passed to ioctl, in call order. */
    var flushes: seq<FlushDirection>

    constructor(device: string)
      ensures this.device == device && port == 0 && settings == [] && sent == [] && flushes == []
    {
      this.device := device;
      port := 0;
      settings := [];
      sent := [];
      flushes := [];
    }

    predicate IsOpened()
      reads this
    {
      port > 0
    }

    predicate IsClosed()
      reads this
    {
      port < 1
    }

    /** A port is open or closed, never both. */
    lemma OpenedIffNotClosed()
      ensures IsOpened() <==> !IsClosed()
    {
    }

    /**
     * Open fails on an open port or a missing device, and when the system's open returns no
     * descriptor; otherwise it configures the port from the options. The existence of the
     * device file, the descriptor open returns and the record tcgetattr fills in are inputs.
     */
    method Open(options: SerialPortOptions, deviceExists: bool, fd: int, current: Termios) returns (ok: bool)
      modifies this
      ensures old(IsOpened()) || !deviceExists ==> !ok && port == old(port) && settings == old(settings)
      ensures !old(IsOpened()) && deviceExists ==> port == fd && (ok <==> fd > 0)
      ensures ok <==> IsOpened() && !old(IsOpened())
      ensures ok ==> |settings| == |old(settings)| + 1 && settings[..|old(settings)|] == old(settings)
      ensures ok ==> var term := settings[|settings| - 1];
        && term.cflag == OptionsControlWord(current.cflag, options)
        && term.lflag == current.lflag & !LocalCleared
        && term.oflag == current.oflag & !OutputCleared
        && term.iflag == current.iflag & !InputCleared
        && term.cc5 == options.timeout && term.cc6 == options.min
      ensures !ok ==> settings == old(settings)
      ensures sent == old(sent) && flushes == old(flushes)
    {
      if IsOpened() {
        return false;
      }
      if !deviceExists {
        return false;
      }
      port := fd;
      if IsClosed() {
        return false;
      }
      var term := UpdatePort(current, options);
      settings := settings + [term];
      ok := true;
    }

    /** Close fails on a closed port; otherwise it sets the descriptor to 0. */
    method Close() returns (ok: bool)
      modifies this
      ensures ok <==> old(IsOpened())
      ensures ok ==> port == 0
      ensures !ok ==> port == old(port)
      ensures IsClosed()
      ensures settings == old(settings) && sent == old(sent) && flushes == old(flushes)
    {
      if IsClosed() {
        return false;
      }
      port := 0;
      ok := true;
    }

    /** Flush does nothing on a closed port. */
    method Flush(direction: FlushDirection)
      modifies this
      ensures flushes == if old(IsOpened()) then old(flushes) + [direction] else old(flushes)
      ensures port == old(port) && settings == old(settings) && sent == old(sent)
    {
      if IsClosed() {
        return;
      }
      flushes := flushes + [direction];
    }

    /** Write sends the UTF-8 bytes of the text; it does nothing on a closed port. */
    method Write(text: string)
      modifies this
      ensures sent == if old(IsOpened()) then old(sent) + [Encode(text)] else old(sent)
      ensures port == old(port) && settings == old(settings) && flushes == old(flushes)
    {
      if IsOpened() {
        WriteBytes(Encode(text));
      }
    }

    /** WriteBytes does nothing on a closed port. */
    method WriteBytes(data: seq<W.Byte>)
      modifies this
      ensures sent == if old(IsOpened()) then old(sent) + [data] else old(sent)
      ensures port == old(port) && settings == old(settings) && flushes == old(flushes)
    {
      if IsOpened() {
        sent := sent + [data];
      }
    }

    /** Dispose closes the port. */
    method Dispose()
      modifies this
      ensures IsClosed() && settings == old(settings) && sent == old(sent) && flushes == old(flushes)
    {
      var _ := Close();
    }
  }
}
