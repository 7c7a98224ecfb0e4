# Raspberry Pi device libraries, modelled in Dafny

This project models the parts of a family of C# libraries for the Raspberry Pi that compute
something precise. It also models one Python colour script. Each part is stated as a Dafny
datatype, function or class, and its promises are proved.

- **GPIO.** The memory-mapped BCM2835/BCM2711 driver:
  - the register words for function select, set, clear, level and pull, laid out as in chapter 6 "General Purpose I/O" of the Broadcom BCM2835 ARM Peripherals datasheet;
  - the header-to-BCM pin table, the open-pin table and the peripheral base address check.
  The board driver forwards to it. Above that sit the user-level `Pi.Gpio` pin cache and pin names, the guarded `GpioPin` of both library generations, and `PinGroup` edge debouncing.
- **Serial ports.** The termios flag words the serial port computes, after the General Terminal Interface of POSIX.1 (XBD chapter 11). The stty argument line of the simple serial port. The open and closed states of both. UTF-8 encoding after section 3 of RFC 3629.
- **Colour and WS2812 NeoPixels.**
  - `ColorRGB` packing, saturating arithmetic and the hex parser.
  - The WS2812 SPI encoding. Each bit becomes the symbol 1, b, 0, so a byte becomes three SPI bytes. A pixel is nine bytes in G, R, B order, and a frame ends with 30 zero bytes.
  - The four buffers that use this encoding and the two NeoPixel classes.
- **DHT sensors.** The DHTxx probe turns phase lengths into 40 bits, then five bytes, then a checksum. The per-model decoders work in tenths. The DHT10 frame layout is modelled too.
- **HD44780 character display.** Modelled as the sequence of enable pulses it receives, following figures 23 and 24 of the Hitachi HD44780U datasheet. The scrolling console on top of it is included.
- **Stepper motors.**
  - The coil tables and the unipole and bipole drivers.
  - The step-task machinery of `Uln2003` and `StepperMotor`: position, engine phase, a FIFO of queued moves and cancellation by step id. One tick is one call of the timer's callback.
  - The blocking `Uln2003` of the test project.
- **Small tables and loops.** The FT4222 SPI clock choice and SPI mode split, the MCP25xxx RXBnSIDH register, the BH1745 measurement times, the retry-with-backoff helper, and the colour script's ANSI swatch.

Effects are modelled in one of three ways. Pin writes, register stores, driver calls and sent frames are kept as logs or as last-written levels in the class that owns them. Clocks, timers and device reads are parameters. Exceptions are the `Fail`/`Err` side of `Outcome`/`Result` values.

## Model

| member | source | states |
|---|---|---|
| GpioRegisters.HeaderToLogical | Codebot.Raspberry.Board/src/Gpio/Drivers/RaspberryPi3LinuxDriver.cs:70-104 | header pins 3..40 that carry a GPIO map to their BCM number; every other header number is an ArgumentException |
| GpioRegisters.LogicalToHeader | Codebot.Raspberry.Board/src/Gpio/Drivers/RaspberryPi3LinuxDriver.cs:70-104 | every BCM pin 0..27 has a header position among the 28 GPIO header pins |
| GpioRegisters.HeaderTableDomain | Codebot.Raspberry.Board/src/Gpio/Drivers/RaspberryPi3LinuxDriver.cs:70-104 | the table succeeds exactly on the 28 GPIO header pins and then yields a valid pin number |
| GpioRegisters.HeaderTableRoundTrip | Codebot.Raspberry.Board/src/Gpio/Drivers/RaspberryPi3LinuxDriver.cs:70-104 | every pin 0..27 is reached from its header position |
| GpioRegisters.HeaderTableInverse | Codebot.Raspberry.Board/src/Gpio/Drivers/RaspberryPi3LinuxDriver.cs:70-104 | a header pin leads back to itself through the inverse table, so the table is a bijection onto 0..27 |
| GpioRegisters.HeaderTableInjective | Codebot.Raspberry.Board/src/Gpio/Drivers/RaspberryPi3LinuxDriver.cs:70-104 | no two header pins map to the same BCM pin |
| GpioRegisters.BitIndex | Codebot.Raspberry.Board/src/Gpio/Drivers/RaspberryPi3LinuxDriver.cs:187-188 | a pin's bit position pin % 32 is below 32 |
| GpioRegisters.FselShift | Codebot.Raspberry.Board/src/Gpio/Drivers/RaspberryPi3LinuxDriver.cs:227 | the function-select shift (pin % 10) * 3 is at most 27 |
| GpioRegisters.FselCode | Codebot.Raspberry.Board/src/Gpio/Drivers/RaspberryPi3LinuxDriver.cs:234 | the function-select code is 001 for Output and 000 otherwise |
| GpioRegisters.Pi3PullCode | Codebot.Raspberry.Board/src/Gpio/Drivers/RaspberryPi3LinuxDriver.cs:272-286 | Input, InputPullDown, InputPullUp give codes 0, 1, 2; any other mode is an ArgumentException |
| GpioRegisters.Pi4PullCode | Codebot.Raspberry.Board/src/Gpio/Drivers/RaspberryPi3LinuxDriver.cs:353-366 | Input, InputPullUp, InputPullDown give 0, 1, 2; any other mode leaves the initial 0 |
| GpioRegisters.Pi4PullShift | Codebot.Raspberry.Board/src/Gpio/Drivers/RaspberryPi3LinuxDriver.cs:352 | the pull shift (pin & 0xF) << 1 is at most 30 |
| GpioRegisters.Apply | Codebot.Raspberry.Board/src/Gpio/Drivers/RaspberryPi3LinuxDriver.cs:226-235 | applying register stores in program order keeps a register block of the same size |
| GpioRegisters.ApplyAppend | Codebot.Raspberry.Board/src/Gpio/Drivers/RaspberryPi3LinuxDriver.cs:211-250 | applying two store lists in turn is applying their concatenation |
| GpioRegisters.ApplyUntouched | Codebot.Raspberry.Board/src/Gpio/Drivers/RaspberryPi3LinuxDriver.cs:211-250 | a word no store targets keeps its value |
| GpioRegisters.ClockWord | Codebot.Raspberry.Board/src/Gpio/Drivers/RaspberryPi3LinuxDriver.cs:312-314 | the pull clock word of a pin is GPPUDCLK[pin / 32], one of the two clock words |
| GpioRegisters.Pi3PullStores | Codebot.Raspberry.Board/src/Gpio/Drivers/RaspberryPi3LinuxDriver.cs:287-335 | the BCM2835 pull sequence's five stores all land inside the register block |
| GpioRegisters.Pi3PullApplied | Codebot.Raspberry.Board/src/Gpio/Drivers/RaspberryPi3LinuxDriver.cs:287-335 | the five stores of the sequence amount to one final value each for GPPUD and the clock word |
| GpioRegisters.PullStores | Codebot.Raspberry.Board/src/Gpio/Drivers/RaspberryPi3LinuxDriver.cs:258-376 | the stores of SetInputPullMode (BCM2711 or BCM2835 path) stay inside the register block |
| GpioRegisters.ModeStores | Codebot.Raspberry.Board/src/Gpio/Drivers/RaspberryPi3LinuxDriver.cs:211-250 | the stores of a successful SetPinMode stay inside the register block |
| GpioRegisters.PullStoresFail | Codebot.Raspberry.Board/src/Gpio/Drivers/RaspberryPi3LinuxDriver.cs:266-286 | the pull update throws exactly on the BCM2835 path for Output or a mode outside the enumeration, and then before any store |
| GpioRegisters.PullStoresTargets | Codebot.Raspberry.Board/src/Gpio/Drivers/RaspberryPi3LinuxDriver.cs:287-376 | the pull update writes only GPPUD and the pin's GPPUDCLK word, or only its GPIO_PUP_PDN_CNTRL word |
| GpioRegisters.FselStoreEffect | Codebot.Raspberry.Board/src/Gpio/Drivers/RaspberryPi3LinuxDriver.cs:226-235 | SetPinMode's first store writes 001 or 000 into the 3-bit field at (pin % 10) * 3 of GPFSEL[pin / 10] and keeps every other bit |
| GpioRegisters.ModeStoresFrame | Codebot.Raspberry.Board/src/Gpio/Drivers/RaspberryPi3LinuxDriver.cs:211-250 | after SetPinMode an output changes only its function-select word; an input also changes only its generation's pull registers |
| GpioRegisters.PullLeaves | Codebot.Raspberry.Board/src/Gpio/Drivers/RaspberryPi3LinuxDriver.cs:287-376 | the pull stores leave every word but their targets unchanged |
| GpioRegisters.Pi3PullGppud | Codebot.Raspberry.Board/src/Gpio/Drivers/RaspberryPi3LinuxDriver.cs:303-335 | after the BCM2835 sequence GPPUD has no control signal and keeps its other bits |
| GpioRegisters.Pi3PullClockWord | Codebot.Raspberry.Board/src/Gpio/Drivers/RaspberryPi3LinuxDriver.cs:312-335 | after the sequence the pin's clock bit is low and the other clock bits are kept |
| GpioRegisters.Pi3PullRegisters | Codebot.Raspberry.Board/src/Gpio/Drivers/RaspberryPi3LinuxDriver.cs:287-335 | the BCM2835 sequence leaves GPPUD's control bits and the clock bit cleared, keeps their words' other bits, and changes no other word |
| GpioRegisters.Pi3PullOrder | Codebot.Raspberry.Board/src/Gpio/Drivers/RaspberryPi3LinuxDriver.cs:287-335 | GPPUD is written twice, then the clock word twice, then GPPUD, so the clock is removed before the control signal |
| GpioRegisters.Pi3ControlOn | Codebot.Raspberry.Board/src/Gpio/Drivers/RaspberryPi3LinuxDriver.cs:303-306 | the second GPPUD store carries the pull code and keeps GPPUD's other bits |
| GpioRegisters.Pi3ControlOff | Codebot.Raspberry.Board/src/Gpio/Drivers/RaspberryPi3LinuxDriver.cs:322-335 | the last GPPUD store removes the control signal |
| GpioRegisters.Pi3ClockRaised | Codebot.Raspberry.Board/src/Gpio/Drivers/RaspberryPi3LinuxDriver.cs:312-321 | the first clock store raises the pin's bit of GPPUDCLK and no other |
| GpioRegisters.Pi3ClockLowered | Codebot.Raspberry.Board/src/Gpio/Drivers/RaspberryPi3LinuxDriver.cs:322-335 | the second clock store lowers the pin's bit again and keeps the others |
| GpioRegisters.Pi3PullSignals | Codebot.Raspberry.Board/src/Gpio/Drivers/RaspberryPi3LinuxDriver.cs:272-335 | the whole signal order of the sequence with codes Input 0, InputPullDown 1, InputPullUp 2 |
| GpioRegisters.Pi4PullEffect | Codebot.Raspberry.Board/src/Gpio/Drivers/RaspberryPi3LinuxDriver.cs:344-376 | the BCM2711 update is one store that rewrites only the 2-bit field at (pin & 0xF) * 2 of GPIO_PUP_PDN_CNTRL[pin >> 4], with Input 0, InputPullUp 1, InputPullDown 2 |
| GpioBits.SetField3Effect | Codebot.Raspberry.Board/src/Gpio/Drivers/RaspberryPi3LinuxDriver.cs:230-235 | clearing a 3-bit field and or-ing in a code sets the field to the code and keeps every other bit |
| GpioBits.SetField2Effect | Codebot.Raspberry.Board/src/Gpio/Drivers/RaspberryPi3LinuxDriver.cs:369-372 | clearing a 2-bit field and or-ing in a code sets the field to the code and keeps every other bit |
| GpioBits.SetBitEffect | Codebot.Raspberry.Board/src/Gpio/Drivers/RaspberryPi3LinuxDriver.cs:315-318 | or-ing in bit k raises it and keeps the others |
| GpioBits.ClearBitEffect | Codebot.Raspberry.Board/src/Gpio/Drivers/RaspberryPi3LinuxDriver.cs:322-327 | and-ing with the complement of bit k lowers it and keeps the others |
| GpioBits.BitPulse | Codebot.Raspberry.Board/src/Gpio/Drivers/RaspberryPi3LinuxDriver.cs:315-327 | raising and lowering the clock bit leaves the word with only that bit cleared |
| GpioBits.ControlSet | Codebot.Raspberry.Board/src/Gpio/Drivers/RaspberryPi3LinuxDriver.cs:303-306 | clearing GPPUD's two control bits and or-ing in a code sets them to it and keeps the others |
| GpioBits.ControlCleared | Codebot.Raspberry.Board/src/Gpio/Drivers/RaspberryPi3LinuxDriver.cs:328-331 | clearing the control bits again leaves no signal and the other bits as they were |
| GpioBaseAddress.LittleEndianOfReversed | Codebot.Raspberry.Board/src/Gpio/Drivers/RaspberryPi3LinuxDriver.cs:451-463 | reading four reversed bytes least significant first is a big-endian read of the original |
| GpioBaseAddress.ReadUint | Codebot.Raspberry.Board/src/Gpio/Drivers/RaspberryPi3LinuxDriver.cs:451-463 | the first four bytes are reversed in place, the rest kept, the result is the big-endian value of the original bytes; a short buffer throws before any byte moves |
| GpioBaseAddress.PeripheralBaseAddress | Codebot.Raspberry.Board/src/Gpio/Drivers/RaspberryPi3LinuxDriver.cs:474-503 | a short ranges file throws; otherwise the result is the CPU word (the word at offset 4, or the next word when that one is zero) exactly when the first word is the videocore address 0x7E000000 and the CPU word is one of the three known bases, and 0xFFFFFFFF otherwise |
| GpioBaseAddress.PeripheralBaseOfPi3 | Codebot.Raspberry.Board/src/Gpio/Drivers/RaspberryPi3LinuxDriver.cs:483-499 | concrete device trees: a Pi 3 base, a zero CPU word followed by the Pi 4 base, and a wrong videocore word giving 0xFFFFFFFF |
| LinuxGpioDriver.LinuxDriver.constructor | Codebot.Raspberry.Board/src/Gpio/Drivers/RaspberryPi3LinuxDriver.cs:41-47 | a driver over a register block with every open-pin entry null |
| LinuxGpioDriver.LinuxDriver.Read | Codebot.Raspberry.Board/src/Gpio/Drivers/RaspberryPi3LinuxDriver.cs:178-189 | an invalid pin throws ArgumentException; otherwise High exactly when bit pin % 32 of GPLEV[pin / 32] is set |
| LinuxGpioDriver.LinuxDriver.Write | Codebot.Raspberry.Board/src/Gpio/Drivers/RaspberryPi3LinuxDriver.cs:417-431 | an invalid pin throws with nothing stored; otherwise exactly 1 << (pin % 32) is stored into GPSET[pin / 32] for High or GPCLR[pin / 32] for Low, and no other word changes |
| LinuxGpioDriver.LinuxDriver.GetPinMode | Codebot.Raspberry.Board/src/Gpio/Drivers/RaspberryPi3LinuxDriver.cs:627-638 | the mode of the pin's entry; an invalid pin or a null entry throws |
| LinuxGpioDriver.LinuxDriver.SetInputPullMode | Codebot.Raspberry.Board/src/Gpio/Drivers/RaspberryPi3LinuxDriver.cs:258-335 | the stores made are PullStores of the old registers, or the exception before any store |
| LinuxGpioDriver.LinuxDriver.PullSequence | Codebot.Raspberry.Board/src/Gpio/Drivers/RaspberryPi3LinuxDriver.cs:287-335 | the five stores of the BCM2835 sequence, logged and applied in order |
| LinuxGpioDriver.LinuxDriver.SetInputPullModePi4 | Codebot.Raspberry.Board/src/Gpio/Drivers/RaspberryPi3LinuxDriver.cs:344-376 | the read-modify-write of GPIO_PUP_PDN_CNTRL[pin >> 4], logged and applied |
| LinuxGpioDriver.LinuxDriver.SetPinMode | Codebot.Raspberry.Board/src/Gpio/Drivers/RaspberryPi3LinuxDriver.cs:211-250 | an invalid pin or an unsupported mode throws before any register or table change; otherwise the registers become Apply of ModeStores and the table entry records the mode |
| LinuxGpioDriver.LinuxDriver.SelectMode | Codebot.Raspberry.Board/src/Gpio/Drivers/RaspberryPi3LinuxDriver.cs:226-249 | the function-select store, the table update, and the pull update for a non-output mode |
| LinuxGpioDriver.LinuxDriver.RecordMode | Codebot.Raspberry.Board/src/Gpio/Drivers/RaspberryPi3LinuxDriver.cs:237-244 | an existing entry takes the new mode, a null one becomes a new entry; no other entry changes |
| LinuxGpioDriver.LinuxDriver.OpenPin | Codebot.Raspberry.Board/src/Gpio/Drivers/RaspberryPi3LinuxDriver.cs:166-171 | an invalid pin throws with no store and no table change; otherwise the stores are the input-mode ModeStores, only the pin's table entry changes, and GetPinMode then returns Input |
| LinuxGpioDriver.LinuxDriver.ClosePin | Codebot.Raspberry.Board/src/Gpio/Drivers/RaspberryPi3LinuxDriver.cs:126-140 | an invalid pin throws with no store; otherwise the stores are the GPCLR write of the pin's bit followed by the input-mode stores, and only the pin's table entry is nulled |
| GpioBoard.BoardHeaderToLogical | Codebot.Raspberry.Board/src/Gpio/Drivers/RaspberryPi3Driver.cs:52-86 | the board driver's own header table throws ArgumentException for every non-GPIO header number |
| GpioBoard.BoardTableMatchesLinuxTable | Codebot.Raspberry.Board/src/Gpio/Drivers/RaspberryPi3Driver.cs:52-86 | the board driver's table and the Linux driver's translate every header number alike, exception included |
| GpioBoard.RaspberryPi3Driver.PinCount | Codebot.Raspberry.Board/src/Gpio/Drivers/RaspberryPi3Driver.cs:43 | the board exposes 28 pins, the Linux driver's count |
| GpioBoard.RaspberryPi3Driver.constructor | Codebot.Raspberry.Board/src/Gpio/Drivers/RaspberryPi3Driver.cs:32-40 | a board driver over a fresh Linux driver |
| GpioBoard.RaspberryPi3Driver.Read | Codebot.Raspberry.Board/src/Gpio/Drivers/RaspberryPi3Driver.cs:98 | forwards to the inner driver's Read; after Dispose the null inner driver throws |
| GpioBoard.RaspberryPi3Driver.GetPinMode | Codebot.Raspberry.Board/src/Gpio/Drivers/RaspberryPi3Driver.cs:89 | forwards to the inner driver; throws after Dispose |
| GpioBoard.RaspberryPi3Driver.IsPinModeSupportedOn | Codebot.Raspberry.Board/src/Gpio/Drivers/RaspberryPi3Driver.cs:92 | true exactly for Input, InputPullDown, InputPullUp and Output; throws after Dispose |
| GpioBoard.RaspberryPi3Driver.Write | Codebot.Raspberry.Board/src/Gpio/Drivers/RaspberryPi3Driver.cs:113 | the inner driver's Write: an invalid pin throws with registers and stores unchanged, a valid one makes its one set/clear store; throws after Dispose |
| GpioBoard.RaspberryPi3Driver.SetPinMode | Codebot.Raspberry.Board/src/Gpio/Drivers/RaspberryPi3Driver.cs:104 | the inner driver's SetPinMode: an invalid pin or a refused mode throws with registers, stores and table unchanged; otherwise its ModeStores, the pin's table entry updated and the mode read back; throws after Dispose |
| GpioBoard.RaspberryPi3Driver.OpenPin | Codebot.Raspberry.Board/src/Gpio/Drivers/RaspberryPi3Driver.cs:95 | the inner driver's OpenPin: an invalid pin throws with nothing changed; otherwise the input-mode stores, the pin's table entry set and Input read back; throws after Dispose |
| GpioBoard.RaspberryPi3Driver.ClosePin | Codebot.Raspberry.Board/src/Gpio/Drivers/RaspberryPi3Driver.cs:49 | the inner driver's ClosePin: an invalid pin throws with nothing changed; otherwise the low write, the input-mode stores and the pin's entry nulled, so its mode can no longer be read; throws after Dispose |
| GpioBoard.RaspberryPi3Driver.Dispose | Codebot.Raspberry.Board/src/Gpio/Drivers/RaspberryPi3Driver.cs:138-142 | the inner driver is dropped; a second Dispose does nothing more |
| GpioBoard.DisposeTwice | Codebot.Raspberry.Board/src/Gpio/Drivers/RaspberryPi3Driver.cs:138-142 | after two Dispose calls a Read throws the null-driver error |
| PiGpio.NameNonEmptyIff | Codebot.Raspberry/src/Pi.cs:228-287 | exactly the logical pins 2..27 have a non-empty name |
| PiGpio.FromPinMode | Codebot.Raspberry/src/GpioPin.cs:71-78 | the user mode is None exactly for a controller mode outside the four |
| PiGpio.ToPinMode | Codebot.Raspberry/src/GpioPin.cs:84-98 | the setter passes a supported controller mode on for each of the four modes and nothing for None |
| PiGpio.ModeRoundTrip | Codebot.Raspberry/src/GpioPin.cs:65-100 | setting a mode and reading it back gives the mode set |
| PiGpio.WaitReachedMeans | Codebot.Raspberry/src/GpioPin.cs:126-145 | a wait succeeds exactly at the first poll that reads the target level with no earlier timeout, and times out exactly when the clock passes the timeout first |
| PiGpio.GpioPin.constructor | Codebot.Raspberry/src/GpioPin.cs:31-37 | a pin takes its name from its number and is valid exactly for numbers 2..27 |
| PiGpio.GpioPin.Mode | Codebot.Raspberry/src/GpioPin.cs:65-79 | None for an invalid pin; otherwise the controller's mode, which throws for a pin that is not open |
| PiGpio.GpioPin.SetMode | Codebot.Raspberry/src/GpioPin.cs:80-100 | on a valid pin and a mode other than None the controller takes the mode and Mode reads it back; otherwise nothing changes |
| PiGpio.GpioPin.IsInput | Codebot.Raspberry/src/GpioPin.cs:103-116 | true exactly when the mode is neither None nor Output |
| PiGpio.GpioPin.IsOutput | Codebot.Raspberry/src/GpioPin.cs:118-124 | true exactly when the mode is Output |
| PiGpio.GpioPin.Read | Codebot.Raspberry/src/GpioPin.cs:185-192 | InvalidGpioPinException for an invalid pin, InvalidGpioModeException for a non-input mode, else whether the controller reads High |
| PiGpio.GpioPin.Write | Codebot.Raspberry/src/GpioPin.cs:209-216 | throws unless the pin is valid and an output; then exactly one write of High for true or Low for false |
| PiGpio.GpioPin.WaitRead | Codebot.Raspberry/src/GpioPin.cs:126-145 | the validity and input checks, then the outcome of the polling loop over the given polls |
| PiGpio.ValidCachedMembers | Codebot.Raspberry/src/Pi.cs:162-174 | the enumeration yields exactly the non-null valid cached pins |
| PiGpio.ValidCachedSplit | Codebot.Raspberry/src/Pi.cs:162-174 | the enumeration keeps slot order |
| PiGpio.NamesOf | Codebot.Raspberry/src/Pi.cs:179-191 | the names of the pins, one per pin, in order |
| PiGpio.Gpio.constructor | Codebot.Raspberry/src/Pi.cs:112-119 | thirty empty pin slots and a fresh controller |
| PiGpio.Gpio.Clamp | Codebot.Raspberry/src/Pi.cs:123-126 | numbers below 0 become 0, above 29 become 29, others are kept |
| PiGpio.Gpio.Close | Codebot.Raspberry/src/Pi.cs:121-128 | only the clamped slot is emptied |
| PiGpio.Gpio.Pin | Codebot.Raspberry/src/Pi.cs:196-212 | a cached pin is returned as it is; otherwise a new pin is cached in the clamped slot and opened when valid |
| PiGpio.Gpio.PinOfKind | Codebot.Raspberry/src/Pi.cs:218-223 | the pin Pin returns, on the same controller, with its kind set; a cached pin leaves the controller alone, a new valid pin is opened in input mode, and no level or write changes |
| PiGpio.Gpio.Pins | Codebot.Raspberry/src/Pi.cs:162-174 | the loop yields ValidCached of the slots |
| PiGpio.Gpio.Names | Codebot.Raspberry/src/Pi.cs:179-191 | the loop yields the names of ValidCached of the slots |
| PiGpio.NamesNonEmpty | Codebot.Raspberry/src/Pi.cs:179-191 | every name the enumeration yields is non-empty |
| LenientGpio.LenientPin.constructor | Raspberry/src/GpioPin.cs:18-24 | name from the number; valid exactly for 2..27 |
| LenientGpio.LenientPin.Read | Raspberry/src/GpioPin.cs:31-34 | false for an invalid pin without asking the controller; otherwise whether the controller reads High |
| LenientGpio.LenientPin.Write | Raspberry/src/GpioPin.cs:36-40 | an invalid pin ignores the write; a valid one writes High for true, Low for false |
| LenientGpio.LenientPin.Mode | Raspberry/src/GpioPin.cs:42-56 | None for an invalid pin; otherwise the controller's mode |
| LenientGpio.LenientPin.SetMode | Raspberry/src/GpioPin.cs:57-76 | a valid pin passes a mode other than None on and reads it back; otherwise nothing changes |
| PinGroups.AcceptedTimesSpaced | Codebot.Raspberry/src/PinGroup.cs:30-42 | the edges the debounce accepts are each more than BounceDelay after the previous accepted one |
| PinGroups.RemoveFirst | Codebot.Raspberry/src/PinGroup.cs:65 | List.Remove takes one element out when the handler is present and none otherwise |
| PinGroups.RemoveFirstMultiset | Codebot.Raspberry/src/PinGroup.cs:65 | removing takes exactly one copy of the handler out and keeps the rest |
| PinGroups.Incremented | Codebot.Raspberry/src/PinGroup.cs:58-59 | one more subscription of the group's handler on every pin |
| PinGroups.Decremented | Codebot.Raspberry/src/PinGroup.cs:68-69 | one subscription fewer on every pin that has one |
| PinGroups.PinGroup.constructor | Codebot.Raspberry/src/PinGroup.cs:15-26 | the pins, last time 0, bounce delay 30 ms, both handler lists null |
| PinGroups.PinGroup.Fire | Codebot.Raspberry/src/PinGroup.cs:30-45 | an edge not yet bounced is accepted when more than BounceDelay after the last accepted one, which moves the time; every handler receives the marked arguments; a null list throws |
| PinGroups.PinGroup.Resubscribe | Codebot.Raspberry/src/PinGroup.cs:58-69 | one subscription more, or fewer, on every pin, for one edge only |
| PinGroups.PinGroup.AddHandler | Codebot.Raspberry/src/PinGroup.cs:53-62 | the first handler subscribes the group to every pin once; each add appends |
| PinGroups.PinGroup.RemoveHandler | Codebot.Raspberry/src/PinGroup.cs:63-73 | the first copy is removed; an emptied list unsubscribes every pin and becomes null; a null list throws |
| PinGroups.PinGroup.RemoveEvents | Codebot.Raspberry/src/PinGroup.cs:125-139 | both lists become null and no subscription of the group remains |
| PinGroups.Other | Codebot.Raspberry/src/PinGroup.cs:28 | the other edge differs from the edge |
| SerialPorts.BaudCode | Codebot.Raspberry/src/SerialPort.cs:225-261 | only speed bits are set; an unlisted rate falls back to the 9600-baud code |
| SerialPorts.BaudCodeInjective | Codebot.Raspberry/src/SerialPort.cs:226-261 | two listed rates with the same speed code are the same rate |
| SerialPorts.ControlWordBaud | Codebot.Raspberry/src/SerialPort.cs:225-261 | the control word's speed field holds exactly the chosen speed code |
| SerialPorts.ControlWordSize | Codebot.Raspberry/src/SerialPort.cs:262-279 | the character-size field holds exactly the size code |
| SerialPorts.ControlWordParity | Codebot.Raspberry/src/SerialPort.cs:280-288 | the PARENB/PARODD pair holds exactly the parity code |
| SerialPorts.ControlWordStop | Codebot.Raspberry/src/SerialPort.cs:289-292 | CSTOPB holds exactly the stop-bit code |
| SerialPorts.ControlWordLines | Codebot.Raspberry/src/SerialPort.cs:221 | CLOCAL and CREAD are both set, so the modem lines are ignored and the receiver is on |
| SerialPorts.ControlWordRest | Codebot.Raspberry/src/SerialPort.cs:221-292 | no control bit outside the decided fields changes |
| SerialPorts.OptionCodesFit | Codebot.Raspberry/src/SerialPort.cs:225-292 | the codes any options yield fit their fields |
| SerialPorts.OptionsControlWordFields | Codebot.Raspberry/src/SerialPort.cs:221-292 | for any options: speed, size, parity and stop fields equal their codes, CLOCAL and CREAD are set, and every other bit is kept |
| SerialPorts.UpdatePort | Codebot.Raspberry/src/SerialPort.cs:217-295 | the new record's control word is the options' control word; the local, output and input words have exactly the raw-mode bits cleared; VTIME is the timeout and VMIN the minimum |
| SerialPorts.ParityStepEffect | Codebot.Raspberry/src/SerialPort.cs:280-288 | the parity branch replaces both parity bits by the parity's code and keeps every other bit |
| SerialPorts.OddParity | Codebot.Raspberry/src/SerialPort.cs:282-283 | odd parity sets both PARENB and PARODD |
| SerialPorts.EvenParity | Codebot.Raspberry/src/SerialPort.cs:284-286 | even parity sets PARENB and clears PARODD |
| SerialPorts.NoParity | Codebot.Raspberry/src/SerialPort.cs:287-288 | no parity clears both bits |
| SerialPorts.StopStepEffect | Codebot.Raspberry/src/SerialPort.cs:289-292 | the stop-bit branch replaces CSTOPB by the code and keeps every other bit |
| SerialPorts.OneStopBit | Codebot.Raspberry/src/SerialPort.cs:289-290 | one stop bit clears CSTOPB |
| SerialPorts.TwoStopBits | Codebot.Raspberry/src/SerialPort.cs:291-292 | two stop bits set CSTOPB |
| SerialPorts.SerialPort.constructor | Codebot.Raspberry/src/SerialPort.cs:184-188 | a new port has its device and no descriptor, and has sent nothing |
| SerialPorts.SerialPort.OpenedIffNotClosed | Codebot.Raspberry/src/SerialPort.cs:408-413 | a port is open or closed, never both |
| SerialPorts.SerialPort.Open | Codebot.Raspberry/src/SerialPort.cs:200-210 | fails without change on an open port or a missing device; otherwise keeps the descriptor, succeeds iff it is positive, and then stores exactly one record, the one UpdatePort makes |
| SerialPorts.SerialPort.Close | Codebot.Raspberry/src/SerialPort.cs:301-309 | succeeds iff the port was open, and leaves it closed with descriptor 0 |
| SerialPorts.SerialPort.Flush | Codebot.Raspberry/src/SerialPort.cs:314-330 | an open port records the flush request; a closed one does nothing |
| SerialPorts.SerialPort.Write | Codebot.Raspberry/src/SerialPort.cs:335-339 | an open port sends the UTF-8 bytes of the text; a closed one sends nothing |
| SerialPorts.SerialPort.WriteBytes | Codebot.Raspberry/src/SerialPort.cs:344-348 | an open port sends the buffer unchanged; a closed one sends nothing |
| SerialPorts.SerialPort.Dispose | Codebot.Raspberry/src/SerialPort.cs:418-421 | the port ends closed and nothing else is sent or configured |
| Utf8.EncodeScalar | Codebot.Raspberry/src/SerialPort.cs:338 | every character becomes one to four bytes |
| Utf8.Scalars | Codebot.Raspberry/src/SerialPort.cs:338 | one scalar value per character, in order |
| Utf8.EncodeScalarDecodes | Codebot.Raspberry/src/SerialPort.cs:338 | each character's lead byte announces its sequence length, and the sequence decodes back to the character |
| Utf8.DecodeEncode | Codebot.Raspberry/src/SerialPort.cs:338 | decoding the UTF-8 bytes of a text gives back its scalar values, so Write loses nothing |
| Utf8.TwoByteDecodes | Codebot.Raspberry/src/SerialPort.cs:338 | the two-byte form's lead and continuation bytes lie in their ranges and rebuild the value |
| Utf8.ThreeByteDecodes | Codebot.Raspberry/src/SerialPort.cs:338 | the same for the three-byte form |
| Utf8.FourByteDecodes | Codebot.Raspberry/src/SerialPort.cs:338 | the same for the four-byte form |
| SimpleSerial.NatToDecimalRoundTrip | Codebot.Raspberry/src/SimpleSerialPort.cs:74 | the decimal text of the baud rate and size given to stty is all digits and reads back as the number |
| SimpleSerial.DigitRoundTrip | Codebot.Raspberry/src/SimpleSerialPort.cs:74 | each digit character lies in '0'..'9' and has the digit's value |
| SimpleSerial.ArgumentsDistinct | Codebot.Raspberry/src/SimpleSerialPort.cs:61-72 | different parities and stop bits get different stty words |
| SimpleSerial.SttyArgumentsShape | Codebot.Raspberry/src/SimpleSerialPort.cs:54-75 | the stty line starts with "-F" and the device, and ends with the parity, stop and raw-mode words |
| SimpleSerial.SimpleSerialPort.constructor | Codebot.Raspberry/src/SimpleSerialPort.cs:43-46 | a new port has its device and a closed stream, and has run and sent nothing |
| SimpleSerial.SimpleSerialPort.Open | Codebot.Raspberry/src/SimpleSerialPort.cs:51-80 | succeeds iff the stream was closed and the device exists; then the stream is open and exactly the stty line of the settings is run |
| SimpleSerial.SimpleSerialPort.Close | Codebot.Raspberry/src/SimpleSerialPort.cs:85-95 | succeeds iff the stream was open, and leaves it closed |
| SimpleSerial.SimpleSerialPort.Write | Codebot.Raspberry/src/SimpleSerialPort.cs:101-108 | an open port sends the UTF-8 bytes of the text; a closed one sends nothing |
| SimpleSerial.SimpleSerialPort.WriteBytes | Codebot.Raspberry/src/SimpleSerialPort.cs:113-119 | an open port sends the buffer; a closed one sends nothing |
| SimpleSerial.SimpleSerialPort.Dispose | Codebot.Raspberry/src/SimpleSerialPort.cs:184-187 | the stream ends closed |
| ColorRgb.HashCode | Codebot.Raspberry/src/Common/ColorRGB.cs:119-122 | the packed value R << 16, G << 8, B lies in 0..0xFFFFFF |
| ColorRgb.FromHashCode | Codebot.Raspberry/src/Common/ColorRGB.cs:35-43 | unpacking a colour's int value gives the colour back |
| ColorRgb.HashCodeOfInt | Codebot.Raspberry/src/Common/ColorRGB.cs:72-77 | the colour of an int keeps exactly its low 24 bits |
| ColorRgb.PackedChannels | Codebot.Raspberry/src/Common/ColorRGB.cs:72-77 | shifting and masking a packed value recovers each of its three bytes |
| ColorRgb.SameIffEqual | Codebot.Raspberry/src/Common/ColorRGB.cs:16-33 | comparison by hash code holds exactly when all three channels agree |
| ColorRgb.AddChannel | Codebot.Raspberry/src/Common/ColorRGB.cs:45-54 | a channel sum is the true sum clipped to 255 |
| ColorRgb.SubChannel | Codebot.Raspberry/src/Common/ColorRGB.cs:56-65 | a channel difference is the true difference clipped to 0 |
| ColorRgb.AddLaws | Codebot.Raspberry/src/Common/ColorRGB.cs:45-54 | addition commutes, black is its identity and white absorbs |
| ColorRgb.SubtractLaws | Codebot.Raspberry/src/Common/ColorRGB.cs:56-65 | a colour minus itself and black minus anything are black; minus black is the identity |
| ColorRgb.SaturationBounds | Codebot.Raspberry/src/Common/ColorRGB.cs:45-65 | a sum never lowers a channel and a difference never raises one |
| ColorRgb.SubtractUndoesAdd | Codebot.Raspberry/src/Common/ColorRGB.cs:45-65 | without saturation, subtracting what was added restores the colour |
| ColorRgb.BytesRoundTrip | Codebot.Raspberry/src/Common/ColorRGB.cs:86-94 | ToBytes and FromBytes are mutually inverse |
| ColorRgb.Upper | Codebot.Raspberry/src/Common/ColorRGB.cs:101 | upper-casing keeps the length and maps each character |
| ColorRgb.HexDigitValue | Codebot.Raspberry/src/Common/ColorRGB.cs:105-112 | a hex digit's value lies in 0..15 |
| ColorRgb.HexNumberBound | Codebot.Raspberry/src/Common/ColorRGB.cs:105-112 | a number spelled by at most n characters is below 16^n |
| ColorRgb.FromString | Codebot.Raspberry/src/Common/ColorRGB.cs:96-117 | the loop over the upper-cased text returns what ParseColor specifies: black once a seventh counted character is seen, otherwise the spelled number's colour |
| ColorRgb.CountedStep | Codebot.Raspberry/src/Common/ColorRGB.cs:103-104 | each character except '#' is counted, and a '#' is skipped wherever it stands, because the position counter is never advanced |
| ColorRgb.HexNumberStep | Codebot.Raspberry/src/Common/ColorRGB.cs:105-112 | a hex digit shifts the number by four bits and adds its value; any other character leaves it unchanged |
| ColorRgb.AccumulateStep | Codebot.Raspberry/src/Common/ColorRGB.cs:105-114 | one loop iteration over a non-'#' character extends the counted text by one and updates the number as HexNumber does |
| ColorRgb.Counted7 | Codebot.Raspberry/src/Common/ColorRGB.cs:113-114 | once seven characters are counted the whole text has more than six, so the early return agrees with the specification |
| ColorRgb.ParseIgnoresCase | Codebot.Raspberry/src/Common/ColorRGB.cs:101 | parsing ignores letter case |
| ColorRgb.CountedNoHash | Codebot.Raspberry/src/Common/ColorRGB.cs:103-104 | without a '#' every character counts |
| ColorRgb.CountedLeadingHash | Codebot.Raspberry/src/Common/ColorRGB.cs:103-104 | a leading '#' is skipped |
| ColorRgb.HexSix | Codebot.Raspberry/src/Common/ColorRGB.cs:105-112 | six hex digits spell their positional base-16 value |
| ColorRgb.ParseHexTriplet | Codebot.Raspberry/src/Common/ColorRGB.cs:96-117 | '#' and six hex digits of either case parse to the colour whose channels are the digit pairs |
| ColorRgb.ParseOrange | Codebot.Raspberry/src/Common/ColorRGB.cs:96-117 | "#ff8000" parses to red 255, green 128, blue 0 |
| ColorRgb.RoundHalfEven | Codebot.Raspberry/src/Common/ColorRGB.cs:138-140 | Math.Round gives an integer within one half of its argument, and the even one at a tie |
| ColorRgb.ScaleChannel | Codebot.Raspberry/src/Common/ColorRGB.cs:138-143 | for a non-negative factor a channel becomes the nearest integer to channel times factor, or 255 above 255.5 |
| ColorRgb.Scale | Codebot.Raspberry/src/Common/ColorRGB.cs:134-145 | a negative factor gives black; any other factor scales each channel as ScaleChannel states |
| ColorRgb.ScaleLaws | Codebot.Raspberry/src/Common/ColorRGB.cs:134-145 | a negative or zero factor gives black, and factor one keeps the colour |
| DrawingColors.FromRgb | Codebot.Raspberry.Device/Ws28xx/src/NeoPixel.cs:141 | a colour built from components has those channels and full alpha |
| DrawingColors.FromArgbInt | Codebot.Raspberry.Device/Ws28xx/src/NeoPixel.cs:135 | a colour built from a packed int takes alpha, red, green and blue from its four bytes |
| DrawingColors.NamedBlackIsNotComponentBlack | Codebot.Raspberry.Device/Ws28xx/src/NeoPixel.cs:98 | named black has the channels of component black yet compares unequal to it |
| Ws2812.CodeSymbols | Codebot.Raspberry.Device/Ws28xx/src/NeoPixelStrip.cs:25-36 | every 3-bit group of a byte's code is 1, the bit, 0, MSB first, and the code fits in 24 bits |
| Ws2812.CodeRoundTrip | Codebot.Raspberry.Device/Ws28xx/src/NeoPixelStrip.cs:30-31 | the middle bits of a code's eight symbols give the byte back |
| Ws2812.ExpandStep | Codebot.Raspberry.Device/Ws28xx/src/NeoPixelStrip.cs:30-31 | one pass of the inner loop shifts in the symbol of the next lower bit |
| Ws2812.ExpandEnds | Codebot.Raspberry.Device/Ws28xx/src/NeoPixelStrip.cs:29-31 | the inner loop starts from nothing and ends with the full code |
| Ws2812.Expand | Codebot.Raspberry.Device/Ws28xx/src/NeoPixelStrip.cs:29-31 | the inner loop computes exactly the byte's 24-bit code |
| Ws2812.BytesRoundTrip | Codebot.Raspberry.Device/Ws28xx/src/NeoPixelStrip.cs:32-34 | the three bytes cut from a code, high byte first, carry the code's byte |
| Ws2812.ChannelRoundTrip | Codebot.Raspberry.Device/Ws28xx/src/NeoPixelStrip.cs:32-34 | decoding a channel's three SPI bytes gives the channel back, so the encoding is injective |
| Ws2812.LookupStep | Codebot.Raspberry.Device/Ws28xx/src/NeoPixelStrip.cs:27-35 | storing byte i's code bytes after the entries of the smaller bytes extends the finished table by one entry |
| Ws2812.EntryWritten | Codebot.Raspberry.Device/Ws28xx/src/NeoPixelStrip.cs:32-34 | writing three bytes at 3i makes them entry i and keeps everything below |
| Ws2812.EntryBelow | Codebot.Raspberry.Device/Ws28xx/src/NeoPixelStrip.cs:32-34 | entries below 3i are unaffected |
| Ws2812.CodeOf | Codebot.Raspberry.Device/Ws28xx/src/NeoPixelStrip.cs:29-34 | the outer loop's three stored bytes are the channel's encoding |
| Ws2812.StoreCode | Codebot.Raspberry.Device/Ws28xx/src/NeoPixelStrip.cs:27-35 | one outer pass makes the table hold the codes of every byte up to i |
| Ws2812.BuildLookup | Codebot.Raspberry.Device/Ws28xx/src/NeoPixelStrip.cs:25-36 | the static constructor's table holds, for every byte, its three code bytes at 3 times the byte |
| Ws2812.PixelRoundTrip | Codebot.Raspberry.Device/Ws28xx/src/NeoPixelStrip.cs:51-63 | a pixel's nine bytes, in G, R, B order, decode to its red, green and blue channels |
| Ws2812.SpliceEffect | Codebot.Raspberry.Device/Ws28xx/src/NeoPixelStrip.cs:51-63 | a write of bytes at an offset holds them there and changes no other byte |
| Ws2812.WriteChannel | Codebot.Raspberry.Device/Ws28xx/src/NeoPixelStrip.cs:54-56 | three table bytes copied to the offset are the channel's code and nothing else changes |
| Ws2812.SpliceThree | Codebot.Raspberry.Device/Ws28xx/src/NeoPixelStrip.cs:53-62 | three adjacent writes are one write of the joined bytes |
| Ws2812.WritePixel | Codebot.Raspberry.Device/Ws28xx/src/NeoPixelStrip.cs:51-63 | SetPixel writes exactly bytes 9i to 9i + 8 with the pixel's G, R, B codes |
| Ws2812.SpliceSlots | Codebot.Raspberry.Device/Ws28xx/src/NeoPixelStrip.cs:51-63 | writing slot j leaves the earlier slots and the later bytes as they were |
| Ws2812.RefreshedSlots | Codebot.Raspberry.Device/Ws28xx/src/NeoPixelStrip.cs:133-144 | after a refresh of n slots each slot holds its colour's bytes if flagged and its old bytes if not; later bytes are kept |
| Ws2812.RefreshedSkips | Codebot.Raspberry.Device/Ws28xx/src/NeoPixelStrip.cs:139 | an unflagged slot keeps its bytes |
| Ws2812.FrameDecodes | Codebot.Raspberry.Device/Ws28xx/src/NeoPixelStrip.cs:41-63 | every slot of a frame decodes to its pixel's channels, and the 30 reset bytes are zero |
| Ws2812.FrameUnique | Codebot.Raspberry.Device/Ws28xx/src/NeoPixelStrip.cs:41-63 | a buffer of frame length whose slots hold the pixels' bytes and whose tail is zero is that frame |
| Ws2812.SlotsDetermine | Codebot.Raspberry.Device/Ws28xx/src/NeoPixelStrip.cs:41-63 | two buffers that agree on every slot and the tail are equal |
| Ws2812.SlotByte | Codebot.Raspberry.Device/Ws28xx/src/NeoPixelStrip.cs:53 | byte j of slot i is byte 9i + j of the buffer |
| Ws2812.RefreshWrite | Codebot.Raspberry.Device/Ws28xx/src/NeoPixelStrip.cs:139-143 | encoding a flagged slot extends the refreshed prefix by one |
| Ws2812.RefreshSkip | Codebot.Raspberry.Device/Ws28xx/src/NeoPixelStrip.cs:139 | passing an unflagged slot extends the refreshed prefix by one |
| NeoPixelStrips.PixelData.constructor | Codebot.Raspberry.Device/Ws28xx/src/NeoPixelStrip.cs:23-36 | a new frame holder has the finished lookup table and no buffer yet |
| NeoPixelStrips.PixelData.Resize | Codebot.Raspberry.Device/Ws28xx/src/NeoPixelStrip.cs:46-49 | a new all-zero buffer of count * 9 + 30 bytes; a negative size fails and keeps the old buffer |
| NeoPixelStrips.PixelData.SetPixel | Codebot.Raspberry.Device/Ws28xx/src/NeoPixelStrip.cs:51-63 | slot index gets the colour's G, R, B codes and no other byte changes |
| NeoPixelStrips.NeoPixelStrip.Create | Codebot.Raspberry.Device/Ws28xx/src/NeoPixelStrip.cs:73-85 | a negative count fails with ArgumentOutOfRangeException, as the Count setter's RemoveRange throws; otherwise a new strip has count black pixels, each encoded, with flags clear, and nothing sent |
| NeoPixelStrips.NeoPixelStrip.Grow | Codebot.Raspberry.Device/Ws28xx/src/NeoPixelStrip.cs:97-98 | appends fresh, distinct black pixels marked changed until there are n, keeping the old ones |
| NeoPixelStrips.NeoPixelStrip.EncodeOne | Codebot.Raspberry.Device/Ws28xx/src/NeoPixelStrip.cs:105-107 | pixel i is encoded into its slot and only its flag is cleared |
| NeoPixelStrips.NeoPixelStrip.EncodeAll | Codebot.Raspberry.Device/Ws28xx/src/NeoPixelStrip.cs:103-108 | every pixel is encoded into its slot with its flag cleared, colours and tail bytes kept |
| NeoPixelStrips.RemoveRange | Codebot.Raspberry.Device/Ws28xx/src/NeoPixelStrip.cs:99-100 | List.RemoveRange throws exactly when the range leaves the list, and otherwise removes exactly those elements, keeping the rest in order |
| NeoPixelStrips.AsWrittenShrinkThrows | Codebot.Raspberry.Device/Ws28xx/src/NeoPixelStrip.cs:99-100 | as written: the range starts at the end of the list with a negative length, so every shrink throws |
| NeoPixelStrips.ShrinkKeepsPrefix | Codebot.Raspberry.Device/Ws28xx/src/NeoPixelStrip.cs:99-100 | as intended: removing from the new count to the end keeps exactly the first pixels |
| NeoPixelStrips.NeoPixelStrip.SetCountAsWritten | Codebot.Raspberry.Device/Ws28xx/src/NeoPixelStrip.cs:90-110 | as written: the same count does nothing; a smaller one throws with nothing changed; a larger one keeps the old pixels, appends black ones, and leaves every pixel encoded with its flag clear |
| NeoPixelStrips.NeoPixelStrip.SetCount | Codebot.Raspberry.Device/Ws28xx/src/NeoPixelStrip.cs:90-110 | corrected: the same count does nothing and a negative one throws with nothing changed; otherwise the strip has exactly that many pixels, the first ones kept, the rest dropped or new black ones, a buffer of the new frame length, and every pixel encoded with its flag clear |
| NeoPixelStrips.NeoPixelStrip.Rebuild | Codebot.Raspberry.Device/Ws28xx/src/NeoPixelStrip.cs:101-108 | a new buffer of the frame length for the pixels, every pixel encoded into its slot with its colour kept and its flag clear |
| NeoPixelStrips.NeoPixelStrip.Get | Codebot.Raspberry.Device/Ws28xx/src/NeoPixelStrip.cs:117 | the pixel object at the index; out of range is an error |
| NeoPixelStrips.NeoPixelStrip.Set | Codebot.Raspberry.Device/Ws28xx/src/NeoPixelStrip.cs:118 | only the value's colour is copied into the pixel at index, which is marked changed; no other pixel changes; out of range fails |
| NeoPixelStrips.NeoPixelStrip.Reset | Codebot.Raspberry.Device/Ws28xx/src/NeoPixelStrip.cs:124-128 | every pixel becomes black and is marked changed; the buffer is kept |
| NeoPixelStrips.NeoPixelStrip.Update | Codebot.Raspberry.Device/Ws28xx/src/NeoPixelStrip.cs:133-147 | every pixel ends encoded with its flag clear, unchanged pixels keep their slot bytes, and the whole buffer is sent once |
| NeoPixelStrips.NeoPixelStrip.Refresh | Codebot.Raspberry.Device/Ws28xx/src/NeoPixelStrip.cs:136-144 | the loop re-encodes the flagged pixels only, and clears every flag |
| NeoPixelStrips.NeoPixelStrip.Dispose | Codebot.Raspberry.Device/Ws28xx/src/NeoPixelStrip.cs:152-157 | the device is disposed on the first call only |
| NeoPixels.AddChannel | Codebot.Raspberry.Device/Ws28xx/src/NeoPixel.cs:55 | the clamped sum: the true sum up to 255, else 255, and never below either channel |
| NeoPixels.Clamp | Codebot.Raspberry.Device/Ws28xx/src/NeoPixel.cs:84 | the result lies in the range and equals the value inside it |
| NeoPixels.MixChannel | Codebot.Raspberry.Device/Ws28xx/src/NeoPixel.cs:67-70 | a mixed channel, computed in exact real arithmetic, is a byte |
| NeoPixels.MixBounds | Codebot.Raspberry.Device/Ws28xx/src/NeoPixel.cs:67-70 | a weighted mean of two channel values lies between them |
| NeoPixels.MixChannelBetween | Codebot.Raspberry.Device/Ws28xx/src/NeoPixel.cs:67-70 | in exact real arithmetic a mixed channel lies between the two channels it mixes |
| NeoPixels.IntensityChannel | Codebot.Raspberry.Device/Ws28xx/src/NeoPixel.cs:100-117 | a scaled channel, computed in exact real arithmetic, is a byte |
| NeoPixels.IntensityDirection | Codebot.Raspberry.Device/Ws28xx/src/NeoPixel.cs:103-116 | above one half a channel never decreases, below it never increases |
| NeoPixels.NeoPixel.Default | Codebot.Raspberry.Device/Ws28xx/src/NeoPixel.cs:22-24 | the default pixel is black and changed |
| NeoPixels.NeoPixel.constructor | Codebot.Raspberry.Device/Ws28xx/src/NeoPixel.cs:26-30 | a new pixel holds its colour and is changed |
| NeoPixels.NeoPixel.SetColor | Codebot.Raspberry.Device/Ws28xx/src/NeoPixel.cs:37-46 | the setter stores the colour and always marks the pixel changed |
| NeoPixels.NeoPixel.Add | Codebot.Raspberry.Device/Ws28xx/src/NeoPixel.cs:52-57 | each channel becomes the clamped sum of the two colours' channels; returns the pixel itself |
| NeoPixels.NeoPixel.Mix | Codebot.Raspberry.Device/Ws28xx/src/NeoPixel.cs:59-74 | exactly a for m <= 0, exactly b for m >= 1, the truncated weighted mean, in exact real arithmetic, in between |
| NeoPixels.NeoPixel.Intensity | Codebot.Raspberry.Device/Ws28xx/src/NeoPixel.cs:82-119 | the factor is clamped; one half changes nothing, 0 gives black, 1 white, black stays black, any other colour gets the scaled channels, in exact real arithmetic |
| NeoPixels.NeoPixel.RgbInt | Codebot.Raspberry.Device/Ws28xx/src/NeoPixel.cs:133-137 | the low three bytes of the int become the channels, with full alpha |
| NeoPixels.NeoPixel.Rgb | Codebot.Raspberry.Device/Ws28xx/src/NeoPixel.cs:139-143 | the given channels, and changed |
| NeoPixels.FromColor | Codebot.Raspberry.Device/Ws28xx/src/NeoPixel.cs:8-14 | the shared conversion pixel gets the colour and is returned |
| NeoPixels.ConversionsAlias | Codebot.Raspberry.Device/Ws28xx/src/NeoPixel.cs:8-14 | two conversions return the same object, which holds the second colour |
| RaspberryNeoPixels.NeoPixel.Default | Raspberry.Device/Ws28xx/src/NeoPixel.cs:19-21 | the default pixel is black and changed |
| RaspberryNeoPixels.NeoPixel.constructor | Raspberry.Device/Ws28xx/src/NeoPixel.cs:23-27 | a new pixel holds its colour and is changed |
| RaspberryNeoPixels.NeoPixel.SetColor | Raspberry.Device/Ws28xx/src/NeoPixel.cs:33-41 | the setter stores the colour and marks the pixel changed |
| RaspberryNeoPixels.FromColor | Raspberry.Device/Ws28xx/src/NeoPixel.cs:8-14 | the shared conversion pixel gets the colour and is returned |
| RaspberryNeoPixels.ConversionsAlias | Raspberry.Device/Ws28xx/src/NeoPixel.cs:8-14 | two conversions return the same object, which holds the second colour |
| BitmapImages.BitmapImage.Create | Raspberry/src/Common/BitmapImage.cs:26-30 | a negative buffer size width * 9 + 30 fails with OverflowException; otherwise the buffer has that many zero bytes, the width is fixed, and the lookup table is built |
| BitmapImages.BitmapImage.SetPixel | Raspberry/src/Common/BitmapImage.cs:49-61 | slot x gets the colour's G, R, B codes and no other byte changes |
| BitmapImages.BitmapImage.Clear | Raspberry/src/Common/BitmapImage.cs:84-90 | every slot holds the colour's bytes and the reset bytes are kept |
| BitmapImages.ClearedImage | Raspberry/src/Common/BitmapImage.cs:26-90 | a cleared new image is exactly the frame of width copies of the colour, with a zero tail |
| NeoPixelDatas.NeoPixelData.Create | Raspberry.Device/Ws28xx/src/NeoPixelData.cs:12-33 | a negative buffer size count * 9 + 30 fails with OverflowException; otherwise the buffer has that many zero bytes and the lookup table is built |
| NeoPixelDatas.NeoPixelData.SetPixel | Raspberry.Device/Ws28xx/src/NeoPixelData.cs:38-50 | slot index gets the colour's G, R, B codes, no other byte changes, and the slot decodes to the colour |
| PixelBuffers.AsWrittenBytes | Raspberry.Device/Ws28xx/src/Pixels.cs:67-78 | the source's SetPixel writes eight bytes, with green's third code byte left out |
| PixelBuffers.AsWrittenRedMisreads | Raspberry.Device/Ws28xx/src/Pixels.cs:67-78 | with those bytes, pure red reads back with green 7 |
| PixelBuffers.AsWrittenLosesColor | Raspberry.Device/Ws28xx/src/Pixels.cs:67-78 | the slot written for pure red does not decode to pure red |
| PixelBuffers.WriteLeadingTwo | Raspberry.Device/Ws28xx/src/Pixels.cs:70-71 | the first two green code bytes go to the offset and nothing else changes |
| PixelBuffers.Pixels.Create | Raspberry.Device/Ws28xx/src/Pixels.cs:29-32 | corrected: a nonzero count with a negative buffer size fails with OverflowException; otherwise the count is kept and a new buffer of a nonzero count holds the empty colour's bytes in every slot |
| PixelBuffers.Pixels.Get | Raspberry.Device/Ws28xx/src/Pixels.cs:36-39 | the getter returns named black whatever is stored |
| PixelBuffers.Pixels.SetPixelAsWritten | Raspberry.Device/Ws28xx/src/Pixels.cs:67-78 | eight bytes from slot index are written, and byte 9i + 8 keeps its old value |
| PixelBuffers.Pixels.SetPixel | Raspberry.Device/Ws28xx/src/Pixels.cs:67-78 | corrected: all nine G, R, B code bytes at slot index, nothing else changes, and the slot decodes to the colour |
| PixelBuffers.Pixels.Set | Raspberry.Device/Ws28xx/src/Pixels.cs:40-43 | corrected: the setter writes the colour's nine bytes at the index |
| PixelBuffers.Pixels.Clear | Raspberry.Device/Ws28xx/src/Pixels.cs:80-84 | corrected: every slot below the count holds the colour's bytes; later bytes are kept |
| PixelBuffers.Pixels.SetCount | Raspberry.Device/Ws28xx/src/Pixels.cs:54-65 | corrected: the same count does nothing; a new one is stored, a new buffer is allocated and every slot holds the empty colour; a negative size fails |
| PixelBuffers.Resized | Raspberry.Device/Ws28xx/src/Pixels.cs:54-65 | corrected: resizing to a new count leaves exactly the frame of that many empty pixels |
| DhtDecoders.HumidityRange | Codebot.Raspberry.Device/Dhtxx/src/Dht22.cs:15-18 | humidity in tenths is never negative, at most 280.5 % on the DHT11 and DHT12 and at most 6553.5 % on the DHT21 and DHT22 |
| DhtDecoders.Dht11NeverNegative | Codebot.Raspberry.Device/Dhtxx/src/Dht11.cs:21-25 | the DHT11 temperature, whole degrees plus tenths, is never negative |
| DhtDecoders.MagnitudeIgnoresSign | Codebot.Raspberry.Device/Dhtxx/src/Dht21.cs:20-25 | toggling the sign bit leaves the magnitude unchanged, on every signed model |
| DhtDecoders.SignFromBit | Codebot.Raspberry.Device/Dhtxx/src/Dht22.cs:20-25 | a negative temperature has the sign bit set, and a set sign bit never gives a positive one |
| DhtDecoders.FlipNegates | Codebot.Raspberry.Device/Dhtxx/src/Dht22.cs:20-25 | toggling only the sign bit negates the temperature |
| DhtDecoders.Dht12SignNotInByte2 | Codebot.Raspberry.Device/Dhtxx/src/Dht12.cs:31-37 | on the DHT12 the sign is bit 7 of byte 3: setting bit 7 of byte 2 never makes the temperature negative |
| DhtDecoders.IgnoresChecksum | Codebot.Raspberry.Device/Dhtxx/src/Dht11.cs:16-25 | humidity and temperature depend only on bytes 0 to 3 |
| DhtDecoders.MasksAgree | Codebot.Raspberry.Device/Dhtxx/src/Dht21.cs:22-24 | the masks b & 0x7F and b & 0x80 are the low seven bits and the sign bit |
| DhtDecoders.ShiftOrAgrees | Codebot.Raspberry.Device/Dhtxx/src/Dht22.cs:17 | b0 shifted left by eight and or-ed with b1 is b0 * 256 + b1 |
| Dht10Frames.RawRanges | Raspberry.Device/Dhtxx/src/Dht10.cs:53-62 | both raw fields are 20-bit values |
| Dht10Frames.Pack | Raspberry.Device/Dhtxx/src/Dht10.cs:20-21 | five bytes carry a raw humidity and temperature pair |
| Dht10Frames.PackRaw | Raspberry.Device/Dhtxx/src/Dht10.cs:53-62 | bytes 1 to 5 are exactly the packing of the two raw fields, so byte 3 is split without overlap: high nibble to humidity, low nibble to temperature |
| Dht10Frames.RawPack | Raspberry.Device/Dhtxx/src/Dht10.cs:53-62 | the raw fields of packed bytes are the values packed, whatever the state byte |
| Dht10Frames.IgnoresState | Raspberry.Device/Dhtxx/src/Dht10.cs:20-21 | the state byte never contributes |
| Dht10Frames.HumidityShifts | Raspberry.Device/Dhtxx/src/Dht10.cs:55 | the humidity shift expression is b1 * 4096 + b2 * 16 + b3 / 16 |
| Dht10Frames.TemperatureShifts | Raspberry.Device/Dhtxx/src/Dht10.cs:61 | the temperature shift expression is (b3 mod 16) * 65536 + b4 * 256 + b5 |
| Dht10Frames.Dht10.constructor | Raspberry.Device/Dhtxx/src/Dht10.cs:18-21 | a new sensor has a fresh six-byte extra buffer of zeros |
| Dht10Frames.Dht10.Humidity | Raspberry.Device/Dhtxx/src/Dht10.cs:29-35 | as written: the getter decodes the extra buffer, so it is always 0 % |
| Dht10Frames.Dht10.Temperature | Raspberry.Device/Dhtxx/src/Dht10.cs:44-50 | as written: always -50 degrees Celsius |
| Dht10Frames.AsWrittenIgnoresFrame | Raspberry.Device/Dhtxx/src/Dht10.cs:29-35 | a frame carrying 25 % humidity still reads as 0 % |
| Dht10Frames.Reading | Raspberry.Device/Dhtxx/src/Dht10.cs:53-62 | corrected: the frame's own fields, humidity in [0, 100) % and temperature in [-50, 150) degrees |
| DhtProbes.BitsBound | Codebot.Raspberry.Device/Dhtxx/src/Dhtxx.cs:148-150 | n bits read MSB first make a number below 2^n |
| DhtProbes.BitsSplit | Codebot.Raspberry.Device/Dhtxx/src/Dhtxx.cs:148-150 | reading m bits then n more is reading m + n bits |
| DhtProbes.FirstTimeout | Codebot.Raspberry.Device/Dhtxx/src/Dhtxx.cs:104-145 | the first phase that waits more than 100 microseconds, or the end when none does |
| DhtProbes.AfterProbe | Codebot.Raspberry.Device/Dhtxx/src/Dhtxx.cs:151-152 | a probe replaces the bytes it read completely and keeps the others |
| DhtProbes.CompleteReadsAll | Codebot.Raspberry.Device/Dhtxx/src/Dhtxx.cs:122-153 | a probe reads all 40 bits exactly when no phase times out, and then the buffer holds the five bytes read |
| DhtProbes.TimeoutFails | Codebot.Raspberry.Device/Dhtxx/src/Dhtxx.cs:104-145 | any phase that waits more than 100 microseconds makes the probe fail |
| DhtProbes.ShiftMod | Codebot.Raspberry.Device/Dhtxx/src/Dhtxx.cs:148-150 | shifting the byte register left and adding a bit keeps the low byte |
| DhtProbes.ShiftIn | Codebot.Raspberry.Device/Dhtxx/src/Dhtxx.cs:148-150 | after bit i the register holds the last eight bits read |
| DhtProbes.RegisterHoldsByte | Codebot.Raspberry.Device/Dhtxx/src/Dhtxx.cs:151-152 | after bit 8k + 7 the register holds byte k, bits 8k to 8k + 7, and a bit is 1 iff its high phase exceeds 35 microseconds |
| DhtProbes.Stored | Codebot.Raspberry.Device/Dhtxx/src/Dhtxx.cs:151-152 | the buffer after n bytes have been stored keeps its length |
| DhtProbes.StoppedAt | Codebot.Raspberry.Device/Dhtxx/src/Dhtxx.cs:104-145 | a probe that first times out at phase k fails and has stored only the bytes whose bits ended before k |
| DhtProbes.CompleteSucceeds | Codebot.Raspberry.Device/Dhtxx/src/Dhtxx.cs:154-155 | a complete probe succeeds iff the checksum matches the low byte of the sum and byte 0 or byte 2 is nonzero |
| DhtProbes.StoppedNowhere | Codebot.Raspberry.Device/Dhtxx/src/Dhtxx.cs:122-153 | a probe that never times out has stored all five bytes |
| DhtProbes.FirstTimeoutIs | Codebot.Raspberry.Device/Dhtxx/src/Dhtxx.cs:104-145 | FirstTimeout finds the first phase that times out |
| DhtProbes.FirstTimeoutNone | Codebot.Raspberry.Device/Dhtxx/src/Dhtxx.cs:104-145 | FirstTimeout is the end when no phase times out |
| DhtProbes.Sensor.constructor | Codebot.Raspberry.Device/Dhtxx/src/Dhtxx.cs:23-28 | a new sensor has an all-zero buffer, no successful update, and the creation time as last update |
| DhtProbes.Sensor.StoreByte | Codebot.Raspberry.Device/Dhtxx/src/Dhtxx.cs:151-152 | storing the register when bit i ends a byte extends the stored prefix |
| DhtProbes.Sensor.CheckFrame | Codebot.Raspberry.Device/Dhtxx/src/Dhtxx.cs:154-155 | success is set exactly when the buffer's frame is accepted |
| DhtProbes.Sensor.ReadPin | Codebot.Raspberry.Device/Dhtxx/src/Dhtxx.cs:86-157 | the buffer ends as the probe left it, success is reset and holds iff the probe succeeds, and the last update is the finish time for a complete probe and the start time otherwise |
| DhtProbes.Sensor.ReadData | Codebot.Raspberry.Device/Dhtxx/src/Dhtxx.cs:76-81 | within one second of the last update nothing changes; otherwise one probe runs |
| DhtProbes.Sensor.Update | Codebot.Raspberry.Device/Dhtxx/src/Dhtxx.cs:39-43 | Update reads, subject to the rate limit, and returns whether the last probe succeeded |
| DhtProbes.Sensor.Temperature | Codebot.Raspberry.Device/Dhtxx/src/Dhtxx.cs:51-57 | the decoded temperature in tenths, or none (NaN) when the update fails |
| DhtProbes.Sensor.Humidity | Codebot.Raspberry.Device/Dhtxx/src/Dhtxx.cs:65-71 | the decoded humidity in tenths, or none (NaN) when the update fails |
| CharacterLcds.SetLow | Raspberry.Device/CharacterLcd/src/CharacterLcd.cs:232-243 | setting the first n data pins keeps all eight levels |
| CharacterLcds.Low4Reads | Raspberry.Device/CharacterLcd/src/CharacterLcd.cs:232-237 | after Write4bits' loop the four data pins carry the value's low nibble |
| CharacterLcds.All8Reads | Raspberry.Device/CharacterLcd/src/CharacterLcd.cs:239-244 | after Write8bits' loop the eight data pins carry the value |
| CharacterLcds.NibblesJoin | Raspberry.Device/CharacterLcd/src/CharacterLcd.cs:253-254 | the high nibble sent first and the low nibble sent second reassemble the byte |
| CharacterLcds.ReceivedByte | Raspberry.Device/CharacterLcd/src/CharacterLcd.cs:246-256 | in either interface width the display reads back exactly the byte WriteByte sent, with its register select |
| CharacterLcds.ReceivedBytes | Raspberry.Device/CharacterLcd/src/CharacterLcd.cs:335-342 | a run of bytes is read back in order |
| CharacterLcds.WithFlag | Raspberry.Device/CharacterLcd/src/CharacterLcd.cs:350-427 | a flag update sets or clears exactly the mask's bits and keeps all others |
| CharacterLcds.SetupFunctionBits | Raspberry.Device/CharacterLcd/src/CharacterLcd.cs:164-175 | the two-line bit is set iff there is more than one row, the 5x10 bit iff the large font is asked for on one row, and the 8-bit flag is kept |
| CharacterLcds.FlagsApart | Raspberry.Device/CharacterLcd/src/CharacterLcd.cs:164-175 | the line and font bits do not disturb each other |
| CharacterLcds.SetupReceived | Raspberry.Device/CharacterLcd/src/CharacterLcd.cs:180-219 | the display reads Setup's commands in order: function set, clear, home, display control, entry mode |
| CharacterLcds.AddressesDistinct | Raspberry.Device/CharacterLcd/src/CharacterLcd.cs:285-313 | on 8 to 20 columns and up to four rows every cell has its own DDRAM address below 0x80 |
| CharacterLcds.AsciiBytes | Raspberry.Device/CharacterLcd/src/CharacterLcd.cs:339 | one ASCII byte per character, in order |
| CharacterLcds.LcdBus.constructor | Raspberry.Device/CharacterLcd/src/CharacterLcd.cs:113-116 | a new bus has every pin low and no pulses |
| CharacterLcds.LcdBus.WriteLevels | Raspberry.Device/CharacterLcd/src/CharacterLcd.cs:234-235 | pin i gets bit i of the value for i below n; the other pins and the select pin stay |
| CharacterLcds.LcdBus.PulseEnable | Raspberry.Device/CharacterLcd/src/CharacterLcd.cs:222-230 | the display latches the pins once |
| CharacterLcds.LcdBus.Write4bits | Raspberry.Device/CharacterLcd/src/CharacterLcd.cs:232-237 | the low nibble is put on four pins and latched once |
| CharacterLcds.LcdBus.Write8bits | Raspberry.Device/CharacterLcd/src/CharacterLcd.cs:239-244 | the byte is put on eight pins and latched once |
| CharacterLcds.CharacterLcd.FourBit | Raspberry.Device/CharacterLcd/src/CharacterLcd.cs:118-122 | the 4-bit constructor clears the 8-bit flag, and Setup(20, 4) gives 20 columns and 4 rows |
| CharacterLcds.CharacterLcd.EightBitBus | Raspberry.Device/CharacterLcd/src/CharacterLcd.cs:124-128 | the 8-bit constructor sets the 8-bit flag, and Setup(20, 4) gives 20 columns and 4 rows |
| CharacterLcds.CharacterLcd.WriteByte | Raspberry.Device/CharacterLcd/src/CharacterLcd.cs:246-256 | the select pin says command or character; then one 8-bit transfer or the high nibble and the low nibble |
| CharacterLcds.CharacterLcd.Command | Raspberry.Device/CharacterLcd/src/CharacterLcd.cs:258-261 | a command is a byte written with the select pin low |
| CharacterLcds.CharacterLcd.Commands | Raspberry.Device/CharacterLcd/src/CharacterLcd.cs:201-208 | a run of commands is sent in order |
| CharacterLcds.CharacterLcd.Setup | Raspberry.Device/CharacterLcd/src/CharacterLcd.cs:130-220 | columns are clamped to 8..20 and rows to 1..4; the function bits follow the rows and font; afterwards the display is on, cursor and blinking off, left to right, no autoscroll |
| CharacterLcds.CharacterLcd.SendSetup | Raspberry.Device/CharacterLcd/src/CharacterLcd.cs:183-219 | the transfers of Setup once the function bits are chosen |
| CharacterLcds.CharacterLcd.SendReset | Raspberry.Device/CharacterLcd/src/CharacterLcd.cs:183-208 | three 4-bit 0x03 transfers and one 0x02 in 4-bit mode, or three function-set commands in 8-bit mode |
| CharacterLcds.CharacterLcd.Clear | Raspberry.Device/CharacterLcd/src/CharacterLcd.cs:267-271 | the clear-display command, read back as exactly that command |
| CharacterLcds.CharacterLcd.Home | Raspberry.Device/CharacterLcd/src/CharacterLcd.cs:276-280 | the return-home command |
| CharacterLcds.CharacterLcd.MoveCursor | Raspberry.Device/CharacterLcd/src/CharacterLcd.cs:285-314 | the column is clamped to 0..Cols-1 and the row to 0..Rows-1, then 0x80 with the column plus the row's offset 0, 0x40, Cols or Cols + 0x40 is sent |
| CharacterLcds.CharacterLcd.ScrollLeft | Raspberry.Device/CharacterLcd/src/CharacterLcd.cs:319-322 | the display-shift-left command |
| CharacterLcds.CharacterLcd.ScrollRight | Raspberry.Device/CharacterLcd/src/CharacterLcd.cs:327-330 | the display-shift-right command |
| CharacterLcds.CharacterLcd.Write | Raspberry.Device/CharacterLcd/src/CharacterLcd.cs:335-342 | null or the empty string sends nothing; otherwise one character byte per ASCII byte, in order |
| CharacterLcds.CharacterLcd.SetAutoScroll | Raspberry.Device/CharacterLcd/src/CharacterLcd.cs:350-360 | only the shift-increment bit changes, the getter reads back the value set, and the entry-mode command is sent |
| CharacterLcds.CharacterLcd.SetBlinking | Raspberry.Device/CharacterLcd/src/CharacterLcd.cs:366-376 | only the blink bit changes, the getter reads back the value, and the display-control command is sent |
| CharacterLcds.CharacterLcd.SetCursor | Raspberry.Device/CharacterLcd/src/CharacterLcd.cs:382-392 | only the cursor bit changes, the getter reads back the value, and the display-control command is sent |
| CharacterLcds.CharacterLcd.SetDisplay | Raspberry.Device/CharacterLcd/src/CharacterLcd.cs:398-408 | only the display bit changes, the getter reads back the value, and the display-control command is sent |
| CharacterLcds.CharacterLcd.SetTextDirection | Raspberry.Device/CharacterLcd/src/CharacterLcd.cs:414-425 | only the entry-left bit changes, the getter reads back the direction, and the entry-mode command is sent |
| CharacterLcds.SetupDefaults | Raspberry.Device/CharacterLcd/src/CharacterLcd.cs:214-219 | the flags Setup leaves: display on, cursor off, blink off, left to right, no autoscroll |
| CharacterLcds.ControlFlagsIndependent | Raspberry.Device/CharacterLcd/src/CharacterLcd.cs:366-408 | setting one display-control flag leaves the other two as they were |
| ConsoleLcds.TrimStartProperties | Codebot.Raspberry.Device/Hd44780/src/ConsoleLcd.cs:109 | TrimStart keeps a suffix, drops only white space and stops at the first other character |
| ConsoleLcds.TrimEndProperties | Codebot.Raspberry.Device/Hd44780/src/ConsoleLcd.cs:109 | TrimEnd keeps a prefix, drops only white space and stops at the last other character |
| ConsoleLcds.TrimProperties | Codebot.Raspberry.Device/Hd44780/src/ConsoleLcd.cs:109 | Trim never lengthens and leaves no white space at either end |
| ConsoleLcds.PadRight | Codebot.Raspberry.Device/Hd44780/src/ConsoleLcd.cs:59 | the padded text is at least n characters long |
| ConsoleLcds.PadRightKeeps | Codebot.Raspberry.Device/Hd44780/src/ConsoleLcd.cs:59 | the text is kept as a prefix and only spaces are added |
| ConsoleLcds.SplitFromNoBreaks | Codebot.Raspberry.Device/Hd44780/src/ConsoleLcd.cs:120-123 | splitting gives at least one piece and no piece holds a line break |
| ConsoleLcds.JoinFront | Codebot.Raspberry.Device/Hd44780/src/ConsoleLcd.cs:120-123 | joining a first piece onto the rest puts one newline between |
| ConsoleLcds.JoinAfterBreak | Codebot.Raspberry.Device/Hd44780/src/ConsoleLcd.cs:120-123 | a break ends the current piece and the rest follows after one newline |
| ConsoleLcds.SplitFromJoin | Codebot.Raspberry.Device/Hd44780/src/ConsoleLcd.cs:120-123 | joining the pieces with newlines gives the text with every "\r\n" and "\r" turned into "\n" |
| ConsoleLcds.SplitLinesProperties | Codebot.Raspberry.Device/Hd44780/src/ConsoleLcd.cs:120-123 | splitting on "\r\n", "\r" and "\n" gives at least one piece, none holds a break, and nothing else is lost |
| ConsoleLcds.Chunks | Codebot.Raspberry.Device/Hd44780/src/ConsoleLcd.cs:101-112 | there are no pieces exactly when the text is empty |
| ConsoleLcds.ChunksFit | Codebot.Raspberry.Device/Hd44780/src/ConsoleLcd.cs:101-112 | every piece is non-empty and at most Cols wide, and all but the last exactly Cols wide |
| ConsoleLcds.ChunksConcat | Codebot.Raspberry.Device/Hd44780/src/ConsoleLcd.cs:101-112 | the pieces put back together are the text |
| ConsoleLcds.ChunkStep | Codebot.Raspberry.Device/Hd44780/src/ConsoleLcd.cs:103-111 | one pass cuts off the first piece and continues with the rest |
| ConsoleLcds.ChunksAdvance | Codebot.Raspberry.Device/Hd44780/src/ConsoleLcd.cs:101-112 | the pieces cut so far and the pieces of what is left make up the whole cut |
| ConsoleLcds.Trimmed | Codebot.Raspberry.Device/Hd44780/src/ConsoleLcd.cs:109 | each piece is trimmed, none lost |
| ConsoleLcds.TrimmedSnoc | Codebot.Raspberry.Device/Hd44780/src/ConsoleLcd.cs:109 | trimming one more piece appends its trimmed form |
| ConsoleLcds.WriteOneFits | Codebot.Raspberry.Device/Hd44780/src/ConsoleLcd.cs:97-115 | the lines WriteOne leaves are never wider than the display, and the lines before the last stay |
| ConsoleLcds.ChunksShort | Codebot.Raspberry.Device/Hd44780/src/ConsoleLcd.cs:101-112 | text no wider than the display is one piece |
| ConsoleLcds.AsWrittenRepeatsLastLine | Codebot.Raspberry.Device/Hd44780/src/ConsoleLcd.cs:99-109 | "abcd" followed by "efgh" on 8 columns becomes "abcdabcdefgh" as written and "abcdefgh" as intended |
| ConsoleLcds.TrimKeeps | Codebot.Raspberry.Device/Hd44780/src/ConsoleLcd.cs:109 | text with no white space at either end is unchanged by Trim |
| ConsoleLcds.WriteItem | Codebot.Raspberry.Device/Hd44780/src/ConsoleLcd.cs:127-129 | each piece leaves at least one line |
| ConsoleLcds.WriteItems | Codebot.Raspberry.Device/Hd44780/src/ConsoleLcd.cs:125-131 | the pieces written so far leave at least one line |
| ConsoleLcds.WriteItemsNext | Codebot.Raspberry.Device/Hd44780/src/ConsoleLcd.cs:125-131 | writing one more piece applies the per-piece step |
| ConsoleLcds.AsWrittenWriteItem | Codebot.Raspberry.Device/Hd44780/src/ConsoleLcd.cs:127-129 | the source's per-piece step, through the as-written WriteOne, leaves at least one line |
| ConsoleLcds.AsWrittenWriteItems | Codebot.Raspberry.Device/Hd44780/src/ConsoleLcd.cs:125-131 | the pieces written so far by the source's loop leave at least one line |
| ConsoleLcds.AsWrittenWriteItemsNext | Codebot.Raspberry.Device/Hd44780/src/ConsoleLcd.cs:125-131 | one more piece of the source's loop applies its per-piece step |
| ConsoleLcds.AsWrittenWriteRepeatsLastLine | Codebot.Raspberry.Device/Hd44780/src/ConsoleLcd.cs:117-134 | "efgh" is one piece, and Write("efgh") after the last line "abcd" on 8 columns stores "abcdabcdefgh" as written and "abcdefgh" as intended |
| ConsoleLcds.AsWrittenWriteEndsUpdate | Codebot.Raspberry.Device/Hd44780/src/ConsoleLcd.cs:117-134 | inside one BeginUpdate, Write as written already zeroes the counter and redraws, while as intended it keeps the counter |
| ConsoleLcds.WriteOutsideUpdate | Codebot.Raspberry.Device/Hd44780/src/ConsoleLcd.cs:117-134 | outside any update both forms redraw and leave the counter at 0 |
| ConsoleLcds.WriteKeepsUpdate | Codebot.Raspberry.Device/Hd44780/src/ConsoleLcd.cs:117-134 | inside an update Write as intended keeps the counter, and as written drops it by one |
| ConsoleLcds.RefreshRows | Codebot.Raspberry.Device/Hd44780/src/ConsoleLcd.cs:52-61 | n passes of Refresh's loop make 2n calls |
| ConsoleLcds.RefreshRowsStep | Codebot.Raspberry.Device/Hd44780/src/ConsoleLcd.cs:52-61 | pass i extends the calls by a cursor move to display row rows - 1 - i and the padded line |
| ConsoleLcds.RefreshWrap | Codebot.Raspberry.Device/Hd44780/src/ConsoleLcd.cs:45-63 | Refresh's calls: display off, the row passes, display on |
| ConsoleLcds.RefreshRowsShape | Codebot.Raspberry.Device/Hd44780/src/ConsoleLcd.cs:52-61 | pass i moves to row rows - 1 - i and writes line bottom - i, or a blank above the first line, padded to at least Cols |
| ConsoleLcds.Progress | Codebot.Raspberry.Device/Hd44780/src/ConsoleLcd.cs:101-112 | the lines during WriteOne's loop are never empty |
| ConsoleLcds.AsWrittenProgress | Codebot.Raspberry.Device/Hd44780/src/ConsoleLcd.cs:101-112 | the same for the loop as written |
| ConsoleLcds.ProgressStep | Codebot.Raspberry.Device/Hd44780/src/ConsoleLcd.cs:108-110 | one pass stores the trimmed piece in the last line and adds an empty one |
| ConsoleLcds.AsWrittenProgressStep | Codebot.Raspberry.Device/Hd44780/src/ConsoleLcd.cs:108-110 | as written, one pass stores the trimmed last line followed by the piece |
| ConsoleLcds.ProgressDrop | Codebot.Raspberry.Device/Hd44780/src/ConsoleLcd.cs:113-114 | after the loop the last line is empty, and dropping it leaves the stored pieces |
| ConsoleLcds.AsWrittenProgressDrop | Codebot.Raspberry.Device/Hd44780/src/ConsoleLcd.cs:113-114 | the same for the loop as written |
| ConsoleLcds.ConsoleLcd.constructor | Codebot.Raspberry.Device/Hd44780/src/ConsoleLcd.cs:12-25 | the display is reset (off, cleared, no blink, no cursor, no autoscroll, left to right, on) and the console holds one empty line, row 0, update counter 0 |
| ConsoleLcds.ConsoleLcd.DrawRow | Codebot.Raspberry.Device/Hd44780/src/ConsoleLcd.cs:54-60 | pass i writes line r, or a blank, on display row rows - 1 - i |
| ConsoleLcds.ConsoleLcd.Refresh | Codebot.Raspberry.Device/Hd44780/src/ConsoleLcd.cs:45-63 | the display receives exactly the Refresh calls for the current row |
| ConsoleLcds.ConsoleLcd.ScrollTo | Codebot.Raspberry.Device/Hd44780/src/ConsoleLcd.cs:33-43 | the row is clamped to the lines there are, and the display is redrawn only when it changes |
| ConsoleLcds.ConsoleLcd.BeginUpdate | Codebot.Raspberry.Device/Hd44780/src/ConsoleLcd.cs:65-68 | the counter goes up by one |
| ConsoleLcds.ConsoleLcd.EndUpdate | Codebot.Raspberry.Device/Hd44780/src/ConsoleLcd.cs:70-79 | the counter goes down by one; below 1 it becomes 0, the row moves to the last line and the display is redrawn |
| ConsoleLcds.ConsoleLcd.Clear | Codebot.Raspberry.Device/Hd44780/src/ConsoleLcd.cs:81-87 | exactly one empty line is left; outside an update the display is redrawn at row 0 |
| ConsoleLcds.ConsoleLcd.NewLine | Codebot.Raspberry.Device/Hd44780/src/ConsoleLcd.cs:89-95 | exactly one empty line is appended, one row further down |
| ConsoleLcds.ConsoleLcd.WriteOneAsWritten | Codebot.Raspberry.Device/Hd44780/src/ConsoleLcd.cs:97-115 | as written: the first stored piece repeats the last line's text |
| ConsoleLcds.ConsoleLcd.WriteOne | Codebot.Raspberry.Device/Hd44780/src/ConsoleLcd.cs:97-115 | corrected: the last line followed by the text is cut into display-wide pieces that, trimmed, replace it, and no trailing empty line is left |
| ConsoleLcds.ConsoleLcd.WritePiece | Codebot.Raspberry.Device/Hd44780/src/ConsoleLcd.cs:127-129 | a fresh line before every piece but the first and before an empty one, then WriteOne |
| ConsoleLcds.ConsoleLcd.WritePieces | Codebot.Raspberry.Device/Hd44780/src/ConsoleLcd.cs:125-131 | every piece of the split is written, in order |
| ConsoleLcds.ConsoleLcd.WritePieceAsWritten | Codebot.Raspberry.Device/Hd44780/src/ConsoleLcd.cs:127-129 | as written: a fresh line before every piece but the first and before an empty one, then the as-written WriteOne |
| ConsoleLcds.ConsoleLcd.WritePiecesAsWritten | Codebot.Raspberry.Device/Hd44780/src/ConsoleLcd.cs:125-131 | as written: every piece of the split goes through the as-written WriteOne, in order |
| ConsoleLcds.ConsoleLcd.Write | Codebot.Raspberry.Device/Hd44780/src/ConsoleLcd.cs:117-134 | corrected: the split pieces are written and the counter returns where it was, so only the outermost update redraws |
| ConsoleLcds.ConsoleLcd.WriteAsWritten | Codebot.Raspberry.Device/Hd44780/src/ConsoleLcd.cs:117-134 | as written: every piece goes through the as-written WriteOne, so the first repeats the old last line, and the extra decrement closes one enclosing BeginUpdate early |
| ConsoleLcds.ConsoleLcd.WriteLine | Codebot.Raspberry.Device/Hd44780/src/ConsoleLcd.cs:136-142 | corrected: the corrected Write, then one more empty line, redrawn once outside an update |
| CoilSequences.Rows | Codebot.Raspberry.Device/Uln2003/src/Uln2003.cs:43-62 | each coil table has four rows, one per pin, of eight phases |
| CoilSequences.Column | Codebot.Raspberry.Device/Motors/src/UnipoleDriver.cs:36-55 | the pattern of one phase gives each of the four pins its table entry |
| CoilSequences.ActiveCoils | Codebot.Raspberry.Device/Motors/src/UnipoleDriver.cs:36-55 | half stepping alternates one and two energised coils; single phase energises one, dual phase two |
| CoilSequences.Periodic | Codebot.Raspberry.Device/Uln2003/src/Uln2003.cs:50-62 | the full-step tables repeat after four phases, so half of the eight columns suffice |
| CoilSequences.HalfStepSwitchesOneCoil | Codebot.Raspberry.Device/Uln2003/src/Uln2003.cs:43-48 | consecutive half-step phases, wrapping from the last to the first, differ on exactly one pin, and the lemma names which |
| UnipoleDrivers.UnipoleDriver.constructor | Codebot.Raspberry.Device/Motors/src/UnipoleDriver.cs:64-75 | four output pins, step 0, half-step mode and table, direction forward |
| UnipoleDrivers.UnipoleDriver.Step | Codebot.Raspberry.Device/Motors/src/UnipoleDriver.cs:77-86 | the step moves by the direction, wrapping 7 and 0, and the pins show that phase of the table; with the pins disposed it fails |
| UnipoleDrivers.UnipoleDriver.GetSPR | Codebot.Raspberry.Device/Motors/src/UnipoleDriver.cs:88-98 | 2048 steps per rotation in the full-step modes and 4096 in half-step mode, i.e. 512 times the table period |
| UnipoleDrivers.UnipoleDriver.SetDirection | Codebot.Raspberry.Device/Motors/src/UnipoleDriver.cs:100-103 | the direction is backward exactly when the value is negative |
| UnipoleDrivers.UnipoleDriver.SetMode | Codebot.Raspberry.Device/Motors/src/UnipoleDriver.cs:105-122 | modes 1 and 2 select their tables; every other value falls back to half stepping, mode 0 |
| UnipoleDrivers.UnipoleDriver.SetEnable | Codebot.Raspberry.Device/Motors/src/UnipoleDriver.cs:124-128 | enabling shows the current phase on the pins, disabling drives them all low; with the pins disposed it fails |
| UnipoleDrivers.UnipoleDriver.Dispose | Codebot.Raspberry.Device/Motors/src/UnipoleDriver.cs:130-138 | the first call drives all pins low and closes each; later calls change nothing |
| BipoleDrivers.BipoleDriver.constructor | Codebot.Raspberry.Device/Uln2003/src/BipoleDriver.cs:29-39 | the step angle is kept, six output pins opened, full-step mode |
| BipoleDrivers.BipoleDriver.SetDirection | Codebot.Raspberry.Device/Uln2003/src/BipoleDriver.cs:41-45 | the direction pin is high exactly for a negative value |
| BipoleDrivers.BipoleDriver.SetEnable | Codebot.Raspberry.Device/Uln2003/src/BipoleDriver.cs:47-51 | the enable pin takes the value |
| BipoleDrivers.BipoleDriver.SetMode | Codebot.Raspberry.Device/Uln2003/src/BipoleDriver.cs:53-96 | modes 1..5 are kept and any other value becomes full step; the M0, M1, M2 pins carry the mode's three low bits |
| BipoleDrivers.BipoleDriver.Step | Codebot.Raspberry.Device/Uln2003/src/BipoleDriver.cs:98-103 | one pulse: the step pin goes high then low |
| BipoleDrivers.BipoleDriver.GetSPR | Codebot.Raspberry.Device/Uln2003/src/BipoleDriver.cs:105-124 | 360 / angle times 2 to the mode, truncated toward zero |
| BipoleDrivers.WholeStepsPerRotation | Codebot.Raspberry.Device/Uln2003/src/BipoleDriver.cs:105-124 | for an angle dividing the circle into n whole steps the count is n times 2 to the mode, with nothing lost to truncation |
| BipoleDrivers.BipoleDriver.Dispose | Codebot.Raspberry.Device/Uln2003/src/BipoleDriver.cs:126-149 | the first call drives all six pins low and closes them; later calls change nothing |
| StepTasks.ItemCount | Codebot.Raspberry.Device/Uln2003/src/Uln2003.cs:221 | a relative item runs its count; an absolute one runs the distance from the position to its count |
| StepTasks.NewTask | Codebot.Raspberry.Device/Uln2003/src/Uln2003.cs:164-168 | a step task keeps the current id and aims at position plus count |
| StepTasks.NewTaskOnTrack | Codebot.Raspberry.Device/Uln2003/src/Uln2003.cs:164-168 | the target of a new task lies in the direction its count moves |
| StepTasks.TickApproaches | Codebot.Raspberry.Device/Uln2003/src/Uln2003.cs:180-189 | a moving tick of a task on track stays on track and is one step closer to the target |
| Uln2003Motors.StepsPerRotation | Codebot.Raspberry.Device/Uln2003/src/Uln2003.cs:129-142 | 4096 steps per rotation in half-step mode and 2048 in the full-step modes |
| Uln2003Motors.ClampRpm | Codebot.Raspberry.Device/Uln2003/src/Uln2003.cs:110-114 | the speed is never below the minimum and a speed at or above it is kept |
| Uln2003Motors.PhaseWraps | Codebot.Raspberry.Device/Uln2003/src/Uln2003.cs:180-189 | a tick from any phase lands in 1..8 and a forward and a backward tick undo each other |
| Uln2003Motors.Uln2003.constructor | Codebot.Raspberry.Device/Uln2003/src/Uln2003.cs:80-97 | four pins, 4096 steps per rotation, 10 RPM, half stepping, position, phase and id 0, empty queue, no task |
| Uln2003Motors.Uln2003.SetRpm | Codebot.Raspberry.Device/Uln2003/src/Uln2003.cs:110-114 | the speed becomes the clamped value |
| Uln2003Motors.Uln2003.WritePins | Codebot.Raspberry.Device/Uln2003/src/Uln2003.cs:190-191 | the four pins show the pattern |
| Uln2003Motors.Uln2003.Stop | Codebot.Raspberry.Device/Uln2003/src/Uln2003.cs:252-263 | the id is bumped and the step task dropped; the pins go low and the queue empties, or with the pins disposed it fails |
| Uln2003Motors.Uln2003.SetMode | Codebot.Raspberry.Device/Uln2003/src/Uln2003.cs:120-145 | stops, then selects the new table; the steps per rotation always match the mode |
| Uln2003Motors.Uln2003.InternalStep | Codebot.Raspberry.Device/Uln2003/src/Uln2003.cs:164-169 | the running task becomes one under the current id aimed at position plus count |
| Uln2003Motors.Uln2003.ContinueStep | Codebot.Raspberry.Device/Uln2003/src/Uln2003.cs:196-224 | the completion event fires only for the current id; a stale id empties the queue; otherwise the front item starts under a new id at its own speed |
| Uln2003Motors.Uln2003.TakeStep | Codebot.Raspberry.Device/Uln2003/src/Uln2003.cs:171-193 | a stale task stops; a task at its target with an empty queue ends (its task cleared, speed and id kept), with a queued item it dequeues it, bumps the id, takes the item's clamped speed and starts the new task; otherwise the position and the phase move one step the same way and the pins show the new phase |
| Uln2003Motors.Uln2003.RunStepTask | Codebot.Raspberry.Device/Uln2003/src/Uln2003.cs:169-193 | ticking a current task to the end reaches its target in exactly as many moves as it was away and fires its completion once; a stale task does nothing |
| Uln2003Motors.Uln2003.FirstStep | Codebot.Raspberry.Device/Uln2003/src/Uln2003.cs:226-230 | stops, then starts one task of count steps under the new id |
| Uln2003Motors.Uln2003.NextStep | Codebot.Raspberry.Device/Uln2003/src/Uln2003.cs:232-247 | the move joins the back of the queue, and an idle motor gets an empty task that starts the queue |
| Uln2003Motors.Uln2003.SetPosition | Codebot.Raspberry.Device/Uln2003/src/Uln2003.cs:303-312 | cancels everything and starts a task on track whose target is the value |
| Uln2003Motors.Uln2003.MovePosition | Codebot.Raspberry.Device/Uln2003/src/Uln2003.cs:336-346 | a positive speed is adopted; an absolute move aims at the position, a relative one at the current position plus it |
| Uln2003Motors.Uln2003.Zero | Codebot.Raspberry.Device/Uln2003/src/Uln2003.cs:405-409 | stops and makes the current position 0 |
| Uln2003Motors.Uln2003.Dispose | Codebot.Raspberry.Device/Uln2003/src/Uln2003.cs:426-434 | the first call stops and closes the four pins; later calls change nothing |
| Uln2003Motors.PositionEndsAt | Codebot.Raspberry.Device/Uln2003/src/Uln2003.cs:303-312 | setting the position and letting the timer run ends exactly there, after as many moves as the distance |
| StepperMotors.ClampRpm | Codebot.Raspberry.Device/Uln2003/src/StepperMotor.cs:90-94 | the speed is never below 0.1 and a speed at or above it is kept |
| StepperMotors.Steps | Codebot.Raspberry.Device/Uln2003/src/StepperMotor.cs:161 | n ticks make n driver steps |
| StepperMotors.StepperMotor.constructor | Codebot.Raspberry.Device/Uln2003/src/StepperMotor.cs:65-77 | direction 1 and mode 0 are sent to the driver and the steps per rotation read back; 10 RPM, position and id 0 |
| StepperMotors.StepperMotor.SetRpm | Codebot.Raspberry.Device/Uln2003/src/StepperMotor.cs:90-94 | the speed becomes the clamped value |
| StepperMotors.StepperMotor.Stop | Codebot.Raspberry.Device/Uln2003/src/StepperMotor.cs:222-231 | the id is bumped, the step task dropped and the queue emptied |
| StepperMotors.StepperMotor.SetMode | Codebot.Raspberry.Device/Uln2003/src/StepperMotor.cs:100-112 | stops; a new mode is stored, sent to the driver and the steps per rotation read back; an unchanged mode sends nothing |
| StepperMotors.StepperMotor.InternalStep | Codebot.Raspberry.Device/Uln2003/src/StepperMotor.cs:131-146 | the driver is turned round only when the count's sign disagrees with the direction; the step task aims at position plus count |
| StepperMotors.StepperMotor.ContinueStep | Codebot.Raspberry.Device/Uln2003/src/StepperMotor.cs:166-194 | the completion event fires only for the current id; a stale id empties the queue; otherwise the front item starts under a new id |
| StepperMotors.StepperMotor.TakeStep | Codebot.Raspberry.Device/Uln2003/src/StepperMotor.cs:148-163 | a stale task stops; a task at its target with an empty queue ends (task cleared, speed, id and direction kept), with a queued item it dequeues it, bumps the id, takes the item's clamped speed and direction and starts the new task while the driver is open; otherwise the position moves one step toward the target and the driver steps once |
| StepperMotors.StepperMotor.RunStepTask | Codebot.Raspberry.Device/Uln2003/src/StepperMotor.cs:146-163 | a current task ends at its target after one driver step per step of distance and fires its completion once |
| StepperMotors.StepperMotor.FirstStep | Codebot.Raspberry.Device/Uln2003/src/StepperMotor.cs:196-200 | stops, then starts one task of count steps under the new id |
| StepperMotors.StepperMotor.NextStep | Codebot.Raspberry.Device/Uln2003/src/StepperMotor.cs:202-217 | the move joins the back of the queue, and an idle motor gets an empty task that starts the queue |
| StepperMotors.StepperMotor.SetPosition | Codebot.Raspberry.Device/Uln2003/src/StepperMotor.cs:271-280 | cancels everything and starts a task on track whose target is the value |
| StepperMotors.StepperMotor.MovePosition | Codebot.Raspberry.Device/Uln2003/src/StepperMotor.cs:304-314 | a positive speed is adopted; an absolute move aims at the position, a relative one at the current position plus it |
| StepperMotors.StepperMotor.Zero | Codebot.Raspberry.Device/Uln2003/src/StepperMotor.cs:373-377 | stops and makes the current position 0 |
| StepperMotors.StepperMotor.Dispose | Codebot.Raspberry.Device/Uln2003/src/StepperMotor.cs:394-401 | the first call stops and disposes the driver; later calls change nothing |
| StepperMotors.PositionEndsAt | Codebot.Raspberry.Device/Uln2003/src/StepperMotor.cs:271-280 | setting the position and letting the timer run ends exactly there, after as many moves as the distance |
| BlockingUln2003.TruncDiv | Tests/src/Uln2003.cs:137 | the integer quotient of non-negative by positive values is the floor |
| BlockingUln2003.StepDelay | Tests/src/Uln2003.cs:137 | with a positive RPM the delay is the largest whole number of microseconds fitting steps times RPM steps into a minute, and zero steps divides by zero; otherwise it is the default 1000 |
| BlockingUln2003.Phase | Tests/src/Uln2003.cs:148-151 | the engine phase after k ticks stays within 1..8 |
| BlockingUln2003.Walk | Tests/src/Uln2003.cs:142-157 | one call writes one pattern per tick |
| BlockingUln2003.WalkNext | Tests/src/Uln2003.cs:152-154 | a further tick appends the pattern of the next phase |
| BlockingUln2003.PhaseStep | Tests/src/Uln2003.cs:140-151 | the loop's wrapping update from phase 0 agrees with the closed form: clockwise 8, 7, ..., 1, otherwise 1, 2, ..., 8 |
| BlockingUln2003.WalkPeriodic | Tests/src/Uln2003.cs:148-153 | the patterns one call writes repeat every eight ticks |
| BlockingUln2003.Uln2003.StepsInMode | Tests/src/Uln2003.cs:96-118 | half-step mode keeps the steps per rotation; the full-step modes halve them, rounding down |
| BlockingUln2003.Uln2003.constructor | Tests/src/Uln2003.cs:74-85 | four pins, the given steps per rotation, half-step mode, RPM 0, nothing written |
| BlockingUln2003.Uln2003.SetMode | Tests/src/Uln2003.cs:96-118 | the table and the steps in the mode follow the new mode |
| BlockingUln2003.Uln2003.SetRpm | Tests/src/Uln2003.cs:91 | the RPM is the value |
| BlockingUln2003.Uln2003.Stop | Tests/src/Uln2003.cs:123-128 | every pin is written low |
| BlockingUln2003.Uln2003.Step | Tests/src/Uln2003.cs:133-157 | the absolute count of patterns is written, walking the phases in the count's direction from a fresh start; zero steps with a positive RPM throws before any write |
| BlockingUln2003.Uln2003.Dispose | Tests/src/Uln2003.cs:168-175 | stops when there are pins, disposes each and leaves none |
| Ft4222Clocks.Rate | Microsoft/src/devices/Ft4222/Ft4222Spi.cs:90-232 | every system clock divides evenly by every divider, so the SPI clock times the divisor is the system clock |
| Ft4222Clocks.BestClockRate | Microsoft/src/devices/Ft4222/Ft4222Spi.cs:90-232 | requests below 187,500 Hz get 24 MHz / 256; requests of 80 MHz or more get 80 MHz / 1 |
| Ft4222Clocks.RateBounds | Microsoft/src/devices/Ft4222/Ft4222Spi.cs:90-232 | every achievable SPI clock lies between 93,750 Hz and 80 MHz |
| Ft4222Clocks.BestIsLargestNotAbove | Microsoft/src/devices/Ft4222/Ft4222Spi.cs:90-232 | from 93,750 Hz up the chosen clock does not exceed the request and no clock and divider pair gives a faster one that does not |
| Ft4222Clocks.BelowRangeIsSlowest | Microsoft/src/devices/Ft4222/Ft4222Spi.cs:95-98 | below the lowest threshold the choice is the slowest clock the chip can make |
| Ft4222Clocks.BestRateMonotone | Microsoft/src/devices/Ft4222/Ft4222Spi.cs:90-232 | a faster request never gets a slower clock |
| Ft4222Clocks.PolarityOf | Microsoft/src/devices/Ft4222/Ft4222Spi.cs:69-79 | the clock idles high exactly in modes 2 and 3 |
| Ft4222Clocks.PhaseOf | Microsoft/src/devices/Ft4222/Ft4222Spi.cs:69-79 | data is sampled on the trailing edge exactly in modes 1 and 3 |
| Ft4222Clocks.PolarityPhaseNumbering | Microsoft/src/devices/Ft4222/Ft4222Spi.cs:69-79 | the mode number is twice the polarity bit plus the phase bit, and each mode has its own pair |
| Mcp25xxxRegisters.NewRxBxSidh | Microsoft/src/devices/Mcp25xxx/Register/MessageReceive/RxBxSidh.cs:22-31 | buffer numbers 0 and 1 are accepted with the identifier kept; any other is an ArgumentException naming it |
| Mcp25xxxRegisters.GetAddress | Microsoft/src/devices/Mcp25xxx/Register/MessageReceive/RxBxSidh.cs:44-56 | buffer 0 is RXB0SIDH, buffer 1 RXB1SIDH, anything else an error |
| Mcp25xxxRegisters.GetRxBufferNumber | Microsoft/src/devices/Mcp25xxx/Register/MessageReceive/RxBxSidh.cs:62-73 | only the two SIDH addresses give a buffer number, which is 0 or 1; any other address is an error naming it |
| Mcp25xxxRegisters.ToByteRoundTrip | Microsoft/src/devices/Mcp25xxx/Register/MessageReceive/RxBxSidh.cs:22-85 | the byte of a register built from a valid buffer number and an identifier is that identifier |
| Mcp25xxxRegisters.AddressRoundTrip | Microsoft/src/devices/Mcp25xxx/Register/MessageReceive/RxBxSidh.cs:44-73 | the buffer number and the address convert into each other and back unchanged |
| Bh1745Times.ToMilliseconds | Microsoft/src/devices/Bh1745/Bh1745Extensions.cs:20-30 | the six listed times map to multiples of 160 ms between 160 and 5120; any other value is an ArgumentOutOfRangeException |
| Bh1745Times.DoublingTimes | Microsoft/src/devices/Bh1745/Bh1745Extensions.cs:20-30 | the k-th listed time is 160 times 2 to the k, each twice the one before |
| Bh1745Times.LengthsDistinct | Microsoft/src/devices/Bh1745/Bh1745Extensions.cs:20-30 | no two measurement times have the same length |
| RetryHelpers.DefaultBackoff | Microsoft/src/System.Device.Gpio.Tests/RetryHelper.cs:12 | the default wait is 100 ms per attempt made, capped at one minute |
| RetryHelpers.Sleeps | Microsoft/src/System.Device.Gpio.Tests/RetryHelper.cs:44-50 | one wait follows each failed attempt that is not the last |
| RetryHelpers.Failures | Microsoft/src/System.Device.Gpio.Tests/RetryHelper.cs:41-47 | the collected exceptions are one per failed attempt |
| RetryHelpers.FailuresNext | Microsoft/src/System.Device.Gpio.Tests/RetryHelper.cs:41-47 | a further failed attempt appends its exception at the end |
| RetryHelpers.Execute | Microsoft/src/System.Device.Gpio.Tests/RetryHelper.cs:20-52 | fewer than one attempt or a null test is refused before any run; otherwise the test runs until it first passes, or fails every one of maxAttempts runs and the failure aggregates every exception in order, with a backoff wait between runs |
| AnsiColors.GetColor | ColorServer/color.py:26-29 | the text opens with the 24-bit foreground escape and ends by resetting the foreground to white |
| AnsiColors.DigitRunOfDigits | ColorServer/color.py:28 | the run of decimal digits at the head of a number written out and followed by a non-digit is exactly that number |
| AnsiColors.ParseIntRoundTrip | ColorServer/color.py:28 | reading back an integer written in decimal gives the integer and the rest of the text |
| AnsiColors.ComponentRoundTrip | ColorServer/color.py:28 | reading one colour component and its semicolon gives the component back |
| AnsiColors.GetColorRoundTrip | ColorServer/color.py:26-29 | decoding the escape sequence gives back red, green and blue |
| AnsiColors.GetColorInjective | ColorServer/color.py:26-29 | two colours give the same text exactly when they are the same colour |

## Left out

- Memory mapping the register block, the device-tree and `/proc` reads behind the base address, and the interrupt drivers: these are operating-system I/O. The register block is an array and the bytes read are inputs.
- `Pi.Wait`, `PreciseTimer` waits, LCD and DHT delays, the stopwatch busy-wait of the blocking `Uln2003`, and the DHT pulse timing are timing. The DHT probe takes its phase lengths and clock readings as parameters. The other waits are not represented.
- The timer thread, `lock`, `StepTask.Wait` and `async` in `Uln2003` and `StepperMotor` are concurrency. One tick is one call of `TakeStep`, and `RunStepTask` is the timer calling it until it returns false.
- ContinueStep's pause before a queued item is not modelled. So the step id it checks again after the pause is the one it checked before.
- `Uln2003.Wait` and `StepperMotor.Wait` wait on tasks and timers, so they are not modelled.
- Angle, MoveAngle, ThenAngle and Closest of both motor classes are not modelled. The same goes for Rotate of the blocking `Uln2003`, which uses `Math.Round`. All of these work in double-precision angles.
- The motor position and step id are `long` in the source. The model uses unbounded integers, so 64-bit overflow is not modelled. `Math.Abs(long.MinValue)` in the blocking `Step` is not modelled either.
- Uln2003Motors.ClampRpm: `minRPM` is taken as exactly 75/1024 rotations per minute. The source computes it in double precision.
- The Uln2003, UnipoleDriver and BipoleDriver models assume every pin they open starts low.
- BipoleDrivers.BipoleDriver.GetSPR requires a nonzero step angle. The source divides by zero in double precision and casts the infinity to int.
- BipoleDrivers.BipoleDriver.GetSPR states only the truncation bounds for real angles. The rounding of the double-precision division is not modelled.
- RetryHelpers.DefaultBackoff does not model the 32-bit overflow of `i * 100`. With at most `maxAttempts` attempts it is reached only for more than 21 million attempts.
- PixelBuffers.Pixels.Set is built on the corrected nine-byte SetPixel of the first finding below. The source's indexer setter calls the eight-byte SetPixel, so a slot set to pure red decodes with green 7 there.
- PixelBuffers.Pixels.Clear writes nine bytes per slot through the corrected SetPixel. The source's Clear writes the eight as-written bytes, so each slot keeps its ninth byte and has its other bytes shifted.
- PixelBuffers.Pixels.SetCount fills the new buffer through the corrected SetPixel. In the source, `new Pixels(1)` leaves slot 0 as 92 49 92 49 24 92 49 24 00, where the model has 92 49 24 three times.
- PixelBuffers.Pixels.Create goes through SetCount, so it differs from the source in the same way.
- PixelBuffers.Resized states the corrected frame of empty pixels, not the bytes the source's Count setter leaves.
- ConsoleLcds.ConsoleLcd.WriteLine is built on the corrected Write and WriteOne of the second and third findings below. The source goes through the as-written ones. With last line "abcd", WriteLine("efgh") on 8 columns stores "abcdabcdefgh" and then "" in the source, where the model stores "abcdefgh" and then "". Outside an update, the source redraws three times (Write's EndUpdate, NewLine's EndUpdate and the outer EndUpdate at -1), where the model redraws once. Inside one update, the source ends at counter 0 and redraws, where the model keeps the counter at 1 and does not redraw.
- UnipoleDrivers, BipoleDrivers, Uln2003Motors and BlockingUln2003 take every pin write to succeed. In the source, setting `GpioPin.Value` throws InvalidGpioPinException for a pin outside 2..27 and InvalidGpioModeException for a pin not in Output mode. Neither exception is modelled for these drivers.
- BipoleDrivers.BipoleDriver.SetMode does not model the Console.WriteLine of the mode bits, which is console output.
- The buffer sizes `count * 9 + 30` of the four WS28xx buffers are computed with unbounded integers, so the 32-bit overflow for counts above about 238 million is not modelled.
- PiGpio.GpioPin keeps the kind that `Pi.Gpio.Pin(number, kind)` assigns as a plain `kind` field. The `Kind` property it stands for is not part of this model, so any effect of setting it on the pin's mode is not captured.
- LenientGpio.LenientPin takes a pin's name from PiGpio.Name, the Codebot library's `Pi.Gpio.Name` table. The Raspberry library's own `Pi` class, which its GpioPin calls, is not part of this model, so the two tables are assumed to agree.
- NeoPixelStrips.NeoPixelStrip.SetCount removes the pixels past the new count, as the fifth finding below intends. The source's Count setter throws for every smaller count. NeoPixelStrips.NeoPixelStrip.Create behaves the same either way, because on an empty list both forms throw exactly for a negative count.
- BitmapImages.BitmapImage.SetPixel requires slot x to lie inside the buffer. In the source a negative x throws IndexOutOfRangeException before any write, and an x whose slot runs past the buffer throws after writing the bytes of the slot that fit. Neither the throw nor the partial write is modelled.
- NeoPixelDatas.NeoPixelData.SetPixel requires the slot to lie inside the buffer. In the source an index out of range throws IndexOutOfRangeException in the same way, after writing the bytes that fit.
- PixelBuffers.Pixels.SetPixel, PixelBuffers.Pixels.SetPixelAsWritten and PixelBuffers.Pixels.Set require the slot to lie inside the buffer. In the source an index out of range throws IndexOutOfRangeException in the same way, after writing the bytes that fit.
- NeoPixelStrips.PixelData.SetPixel and Ws2812.WritePixel require the slot to lie inside the buffer. The strip only calls them for its own pixels, whose slots always fit.
- ColorRgb.Scale and ColorRgb.ScaleChannel clamp the rounded product as an unbounded integer. The source casts `Math.Round(R * s)` to int. For a product of 2^31 or more, or an infinite factor, C# leaves that cast's result unspecified. Legacy x64 gives int.MinValue, which passes the clamp and becomes 0 as a byte, while the model gives 255. A NaN factor cannot be represented either.
- DhtProbes.Sensor.ReadPin takes every pin write and read of the probe to succeed. In the source `pin.Write` and `pin.Read` throw InvalidGpioPinException for a pin outside 2..27. Setting `Mode` on such a pin does nothing. So ReadPin throws after clearing the success flag and stamping the update time, and that throw is not modelled.
- ConsoleLcds.ConsoleLcd.Write and ConsoleLcds.ConsoleLcd.WriteAsWritten differ in the lines as well as the counter. WriteAsWritten goes through WritePiecesAsWritten and the as-written WriteOne, as the source does.
- RetryHelpers.Execute records each backoff delay as a sleep. `Thread.Sleep` throws ArgumentOutOfRangeException for a custom backoff's negative delay other than -1, and sleeps forever for -1; neither is modelled.
- ConsoleLcds.ConsoleLcd.Write takes a string, which is never null, so the NullReferenceException of `s.Split` on a null argument is not modelled.
- ColorRgb.FromString counts Unicode scalar values, while C# `Length` counts UTF-16 code units. A character outside the Basic Multilingual Plane counts once here and twice in the source, so "#12345😀" parses to 0x012345 here and gives Black in the source.
- ConsoleLcds.Chunks and ConsoleLcds.PadRight split and pad by Unicode scalar values, while `Substring` and `PadRight` count UTF-16 code units. Text outside the Basic Multilingual Plane is cut and padded differently, and a surrogate pair is never split here.
- Utf8.Scalars and Utf8.EncodeScalar take strings of Unicode scalar values, so a lone surrogate cannot be represented. `Encoding.UTF8` writes one as EF BF BD.
- AnsiColors.GetColor takes integers only. The script's `format` also accepts any other value with a text form, and the call site that would pass floats is commented out.
- The tcgetattr, tcsetattr and ioctl calls, the file descriptor `open` returns, and the stty process launch are foreign calls. The serial models take their results as inputs and record their arguments.
- `SerialPort.Read`/`ReadBytes` and `SimpleSerialPort.Read` are not modelled: they run asynchronous tasks over the device. `SerialPort.ToString` is not modelled: it uses reflection.
- The three-factor ColorRGB `Scale` and the HSL code are floating-point colour maths and are not modelled.
- ColorRgb.Scale, ColorRgb.ScaleChannel and ColorRgb.RoundHalfEven work on the exact product of the channel and the factor. The source first rounds `R * s` to a double, so at a tie the result can differ by one: for the double nearest 0.1, scaling 5 gives 1 here and 0 in the source, where 5 * 0.1 rounds to exactly 0.5 and `Math.Round` takes the even neighbour. ScaleLaws holds for doubles too.
- The bodies of NeoPixel `Hue`, `Lightness` and `Saturation` are floating point and are not modelled.
- NeoPixels.NeoPixel.Mix and NeoPixels.MixChannel compute the interior 0 < m < 1 in exact real arithmetic on the factor's value. The source rounds every product and sum to a double, so a channel can differ by one: for the double nearest 0.6, mixing 0 toward 255 gives 153 in the source and 152 here. The endpoints m <= 0 and m >= 1 are exact in both.
- NeoPixels.MixChannelBetween holds for exact reals only. With the source's double rounding a channel can leave the range: mixing 3 with 3 at the double nearest 0.01 gives 2.
- NeoPixels.NeoPixel.Intensity and NeoPixels.IntensityChannel compute the scaled channels in exact real arithmetic, while the source computes them in doubles, so a channel can differ by one: channel 5 at the double nearest 0.3 is 3 in the source and 2 here. The factors 0, one half and 1 and IntensityDirection are exact in both.
- The SPI device write of the NeoPixel strip is a foreign call, recorded as the log of sent frames.
- The Dht10 frame read by `ReadData` and the I2C transfers of the DHT12 and DHT10 are device I/O. The frame is an input.
- The MCP25xxx `Address` enumeration is kept symbolic. Its numeric register values are not modelled.
- The FT4222 FTDI library calls, and its SPI reads and writes, are foreign calls.
- The System.Device.Gpio `GpioController` is not part of this model. `GpioControllerModel.Controller` stands in for it with the open pins, their modes, the levels read and a log of writes.

## Findings

| source | as written | input that shows it | evidently intended | confidence | as-written member | corrected member |
|---|---|---|---|---|---|---|
| Raspberry.Device/Ws28xx/src/Pixels.cs:67-78 | SetPixel writes eight bytes from 9i: green's first two code bytes, then the red and blue codes. Green's third code byte is never written, so red and blue land one byte early and byte 9i + 8 keeps its old value | SetPixel of pure red (255, 0, 0) into a fresh slot: the slot decodes with green 7 | all nine code bytes at 9i to 9i + 8, in G, R, B order, as the other three buffers write them | not executed; high | PixelBuffers.Pixels.SetPixelAsWritten, PixelBuffers.AsWrittenRedMisreads | PixelBuffers.Pixels.SetPixel |
| Codebot.Raspberry.Device/Hd44780/src/ConsoleLcd.cs:97-115 | WriteOne starts from the last line plus the text, then prepends the last line again on the first pass, so the old last line is written twice | last line "abcd", WriteOne("efgh") on an 8-column display gives "abcdabcdefgh" | "abcdefgh": the last line extended by the text once, wrapped at the column count | not executed; high | ConsoleLcds.ConsoleLcd.WriteOneAsWritten, ConsoleLcds.AsWrittenRepeatsLastLine | ConsoleLcds.ConsoleLcd.WriteOne |
| Codebot.Raspberry.Device/Hd44780/src/ConsoleLcd.cs:117-134 | Write decrements the update counter itself before its EndUpdate, so it closes one enclosing BeginUpdate as well as its own | Write inside one BeginUpdate (counter 1): the counter drops to 0 and the display redraws at once | Write restores the counter it found, so an enclosing BeginUpdate keeps deferring the redraw | not executed; medium | ConsoleLcds.ConsoleLcd.WriteAsWritten, ConsoleLcds.AsWrittenWriteEndsUpdate | ConsoleLcds.ConsoleLcd.Write |
| Raspberry.Device/Dhtxx/src/Dht10.cs:29-50 | the Humidity and Temperature getters call ReadData and then decode `extraBuffer`, a private array that nothing writes | a sensor frame carrying 25 % humidity (raw 2^18): the getter returns 0 % | decode the frame the sensor sent | not executed; high | Dht10Frames.Dht10.Humidity, Dht10Frames.AsWrittenIgnoresFrame | Dht10Frames.Reading |
| Codebot.Raspberry.Device/Ws28xx/src/NeoPixelStrip.cs:99-100 | the Count setter shrinks with RemoveRange(Count, value - Count): the range starts at the end of the list and has a negative length | a strip of 3 pixels given Count = 1 calls RemoveRange(3, -2), which throws ArgumentOutOfRangeException | RemoveRange(value, Count - value): drop the pixels past the new count and re-encode the rest | not executed; high | NeoPixelStrips.NeoPixelStrip.SetCountAsWritten, NeoPixelStrips.AsWrittenShrinkThrows | NeoPixelStrips.NeoPixelStrip.SetCount |
