/**
 * The stty-based serial port: a file stream that is open or null, and the argument line it
 * hands to /bin/stty when it opens.
 */
module SimpleSerial {
  import opened Utf8
  import opened Wrappers
  import opened SerialPorts

  /** The decimal digit of a number below ten. */
  function Digit(d: nat): char
    requires d < 10
  {
    "0123456789"[d]
  }

  /** The value of a decimal digit character. */
  function DigitValue(c: char): int {
    c as int - '0' as int
  }

  /** The decimal text of a natural number, without leading zeros. */
  function NatToDecimal(n: nat): (r: string)
    ensures |r| >= 1
    decreases n
  {
    if n < 10 then [Digit(n)] else NatToDecimal(n / 10) + [Digit(n % 10)]
  }

  /** The decimal text of an integer, as int.ToString writes it. */
  function IntToDecimal(i: int): string {
    if i < 0 then "-" + NatToDecimal(-i) else NatToDecimal(i)
  }

  predicate IsDigits(s: string) {
    forall k :: 0 <= k < |s| ==> '0' <= s[k] <= '9'
  }

  /** The value of a string of decimal digits. */
  function DecimalValue(s: string): int
    decreases |s|
  {
    if s == [] then 0 else DecimalValue(s[..|s| - 1]) * 10 + DigitValue(s[|s| - 1])
  }

  /** Reading back the decimal text of a number gives the number, and the text is all digits. */
  lemma {:induction false} NatToDecimalRoundTrip(n: nat)
    ensures IsDigits(NatToDecimal(n)) && DecimalValue(NatToDecimal(n)) == n
    decreases n
  {
    var s := NatToDecimal(n);
    if n < 10 {
      DigitRoundTrip(n);
      assert s[..|s| - 1] == [];
    } else {
      NatToDecimalRoundTrip(n / 10);
      DigitRoundTrip(n % 10);
      var front := NatToDecimal(n / 10);
      assert s == front + [Digit(n % 10)];
      assert s[..|s| - 1] == front;
      assert IsDigits(s) by {
        forall k | 0 <= k < |s| ensures '0' <= s[k] <= '9' {
          if k < |front| {
            assert s[k] == front[k];
          }
        }
      }
    }
  }

  /** A digit character is in '0'..'9' and has the digit's value. */
  lemma DigitRoundTrip(d: nat)
    requires d < 10
    ensures '0' <= Digit(d) <= '9' && DigitValue(Digit(d)) == d
  {
  }

  /** The parity words of stty. */
  function ParityArgument(parity: Parity): string {
    if parity == Even then "parenb -parodd"
    else if parity == Odd then "parenb parodd"
    else "-parenb"
  }

  /** The stop-bit word of stty. */
  function StopArgument(stopBits: StopBits): string {
    if stopBits == One then "-cstopb" else "cstopb"
  }

  /** Distinct parities and stop bits get distinct words, so stty receives what was asked for. */
  lemma ArgumentsDistinct(p: Parity, q: Parity, s: StopBits, t: StopBits)
    ensures ParityArgument(p) == ParityArgument(q) ==> p == q
    ensures StopArgument(s) == StopArgument(t) ==> s == t
  {
    if ParityArgument(p) == ParityArgument(q) {
      assert ParityArgument(p)[0] == ParityArgument(q)[0];
      assert |ParityArgument(p)| == |ParityArgument(q)|;
    }
    if StopArgument(s) == StopArgument(t) {
      assert StopArgument(s)[0] == StopArgument(t)[0];
    }
  }

  /** The raw-mode flags stty is always given. */
  const RawFlags: string :=
    "-brkint -icrnl -imaxbel -opost -onlcr -isig -icanon -iexten -echo -echoe -echok -echoctl -echoke"

  /** The device part of the stty line. */
  function SttyHead(device: string): string {
    "-F " + device
  }

  /** The speed and character-size part of the stty line. */
  function SttyMiddle(baud: int, dataBits: int): string {
    " " + IntToDecimal(baud) + " cs" + IntToDecimal(dataBits)
  }

  /** The parity, stop-bit and raw-mode part of the stty line. */
  function SttyTail(parity: Parity, stopBits: StopBits): string {
    " " + ParityArgument(parity) + " " + StopArgument(stopBits) + " " + RawFlags
  }

  /** The argument line of stty: the device, the baud rate, the size, parity and stop words, and the raw flags. */
  function SttyArguments(device: string, baud: int, dataBits: int, parity: Parity, stopBits: StopBits): string {
    SttyHead(device) + SttyMiddle(baud, dataBits) + SttyTail(parity, stopBits)
  }

  /** A concatenation of three strings begins with the first and ends with the last. */
  lemma ThreeParts(a: string, b: string, c: string)
    ensures |a + b + c| == |a| + |b| + |c|
    ensures (a + b + c)[..|a|] == a && (a + b + c)[|a| + |b|..] == c
  {
  }

  /** The line starts with the device and ends with the parity, stop and raw-mode words. */
  lemma SttyArgumentsShape(device: string, baud: int, dataBits: int, parity: Parity, stopBits: StopBits)
    ensures var line := SttyArguments(device, baud, dataBits, parity, stopBits);
      var tail := SttyTail(parity, stopBits);
      && |line| > |device| + |tail| + 3
      && line[..|device| + 3] == "-F " + device
      && line[|line| - |tail|..] == tail
  {
    ThreeParts(SttyHead(device), SttyMiddle(baud, dataBits), SttyTail(parity, stopBits));
  }

  class SimpleSerialPort {
    const device: string
    /** Whether the file stream is open (not null). */
    var streamOpen: bool
    /** Every stty argument line run, in order. */
    var commands: seq<string>
    /** Every buffer written to the stream, in order. */
    var sent: seq<seq<Byte>>

    constructor(device: string)
      ensures this.device == device && !streamOpen && commands == [] && sent == []
    {
      this.device := device;
      streamOpen := false;
      commands := [];
      sent := [];
    }

    predicate IsOpened()
      reads this
    {
      streamOpen
    }

    predicate IsClosed()
      reads this
    {
      !streamOpen
    }

    /**
     * Open fails on an open port or a missing device file; otherwise it opens the stream and
     * runs stty with the settings. Whether the device file exists is an input.
     */
    method Open(baud: int, dataBits: int, parity: Parity, stopBits: StopBits, deviceExists: bool) returns (ok: bool)
      modifies this
      ensures ok <==> !old(streamOpen) && deviceExists
      ensures streamOpen == (old(streamOpen) || ok)
      ensures commands == if ok then old(commands) + [SttyArguments(device, baud, dataBits, parity, stopBits)] else old(commands)
      ensures sent == old(sent)
    {
      if !streamOpen {
        if !deviceExists {
          return false;
        }
        streamOpen := true;
        commands := commands + [SttyArguments(device, baud, dataBits, parity, stopBits)];
        return true;
      } else {
        return false;
      }
    }

    /** Close succeeds exactly on an open port and leaves it closed. */
    method Close() returns (ok: bool)
      modifies this
      ensures ok <==> old(streamOpen)
      ensures !streamOpen && commands == old(commands) && sent == old(sent)
    {
      if !streamOpen {
        return false;
      }
      streamOpen := false;
      ok := true;
    }

    /** Write sends the UTF-8 bytes of the text; it does nothing on a closed port. */
    method Write(text: string)
      modifies this
      ensures sent == if old(streamOpen) then old(sent) + [Encode(text)] else old(sent)
      ensures streamOpen == old(streamOpen) && commands == old(commands)
    {
      if IsClosed() {
        return;
      }
      sent := sent + [Encode(text)];
    }

    /** WriteBytes does nothing on a closed port. */
    method WriteBytes(data: seq<Byte>)
      modifies this
      ensures sent == if old(streamOpen) then old(sent) + [data] else old(sent)
      ensures streamOpen == old(streamOpen) && commands == old(commands)
    {
      if IsClosed() {
        return;
      }
      sent := sent + [data];
    }

    method Dispose()
      modifies this
      ensures !streamOpen && commands == old(commands) && sent == old(sent)
    {
      var _ := Close();
    }
  }
}
