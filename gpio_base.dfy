/**
 * The byte-order helper and the peripheral base address that the Raspberry Pi 3/4 driver
 * reads from the device tree before mapping the GPIO registers.
 */
module GpioBaseAddress {
  import opened Wrappers
  import opened GpioRegisters

  const PeripheralBaseAddressBcm2835: bv32 := 0x2000_0000
  const PeripheralBaseAddressBcm2836: bv32 := 0x3F00_0000
  const PeripheralBaseAddressBcm2838: bv32 := 0xFE00_0000
  const PeripheralBaseAddressVideocore: bv32 := 0x7E00_0000
  const InvalidPeripheralBaseAddress: bv32 := 0xFFFF_FFFF

  /** A 32-bit word from four bytes, most significant first. */
  function BigEndian(b: seq<bv8>): bv32
    requires |b| == 4
  {
    ((b[0] as bv32) << 24) | ((b[1] as bv32) << 16) | ((b[2] as bv32) << 8) | (b[3] as bv32)
  }

  /** A 32-bit word from four bytes, least significant first (BitConverter on ARM). */
  function LittleEndian(b: seq<bv8>): bv32
    requires |b| == 4
  {
    ((b[3] as bv32) << 24) | ((b[2] as bv32) << 16) | ((b[1] as bv32) << 8) | (b[0] as bv32)
  }

  /** Reading the reversed bytes least significant first is reading the original ones most significant first. */
  lemma LittleEndianOfReversed(b: seq<bv8>)
    requires |b| == 4
    ensures LittleEndian([b[3], b[2], b[1], b[0]]) == BigEndian(b)
  {
  }

  /**
   * ReadUint reverses the first four bytes in place and reads them little-endian, which is a
   * big-endian read of the original bytes; a buffer shorter than four bytes throws before any
   * byte is moved.
   */
  method ReadUint(data: array<bv8>) returns (r: Result<bv32, GpioError>)
    modifies data
    ensures data.Length < 4 ==> r == Err(ReadPastEnd) && data[..] == old(data[..])
    ensures data.Length >= 4 ==> data[..] == [old(data[3]), old(data[2]), old(data[1]), old(data[0])] + old(data[4..])
    ensures data.Length >= 4 ==> r == Ok(LittleEndian(data[..4])) && r == Ok(BigEndian(old(data[..4])))
  {
    if data.Length < 4 {
      return Err(ReadPastEnd);
    }
    ghost var original := data[..];
    var tmp := data[3];
    data[3] := data[0];
    data[0] := tmp;
    tmp := data[2];
    data[2] := data[1];
    data[1] := tmp;
    assert data[..4] == [original[3], original[2], original[1], original[0]];
    assert data[..] == data[..4] + original[4..];
    LittleEndianOfReversed(original[..4]);
    r := Ok(LittleEndian(data[..4]));
  }

  predicate IsKnownPeripheralBase(a: bv32) {
    a == PeripheralBaseAddressBcm2835 || a == PeripheralBaseAddressBcm2836 || a == PeripheralBaseAddressBcm2838
  }

  /** The CPU word of the ranges file: the word at offset 4, or the word after it when that one is zero. */
  function CpuWord(ranges: seq<bv8>): bv32
    requires |ranges| >= 8 && (BigEndian(ranges[4..8]) == 0 ==> |ranges| >= 12)
  {
    if BigEndian(ranges[4..8]) == 0 then BigEndian(ranges[8..12]) else BigEndian(ranges[4..8])
  }

  /**
   * The peripheral base address from the bytes of the device-tree `soc/ranges` file: a
   * videocore word, a CPU word and, when that is zero, the next word; a short file throws.
   */
  function PeripheralBaseAddress(ranges: seq<bv8>): (r: Result<bv32, GpioError>)
    ensures r.Err? <==> |ranges| < 8 || (|ranges| < 12 && BigEndian(ranges[4..8]) == 0)
    ensures r.Ok? ==> r.value == InvalidPeripheralBaseAddress || IsKnownPeripheralBase(r.value)
    ensures r.Ok? && r.value != InvalidPeripheralBaseAddress ==> BigEndian(ranges[0..4]) == PeripheralBaseAddressVideocore
    ensures r.Ok? ==> (r.value != InvalidPeripheralBaseAddress <==>
      BigEndian(ranges[0..4]) == PeripheralBaseAddressVideocore && IsKnownPeripheralBase(CpuWord(ranges)))
    ensures r.Ok? && r.value != InvalidPeripheralBaseAddress ==> r.value == CpuWord(ranges)
  {
    if |ranges| < 8 then Err(ReadPastEnd)
    else
      var vc := BigEndian(ranges[0..4]);
      var cpu := BigEndian(ranges[4..8]);
      if cpu == 0 && |ranges| < 12 then Err(ReadPastEnd)
      else
        var cpu' := if cpu == 0 then BigEndian(ranges[8..12]) else cpu;
        if vc != PeripheralBaseAddressVideocore || !IsKnownPeripheralBase(cpu') then Ok(InvalidPeripheralBaseAddress)
        else Ok(cpu')
  }

  /** A device tree with the videocore word and a Pi 3 base yields that base. */
  lemma PeripheralBaseOfPi3()
    ensures PeripheralBaseAddress([0x7E, 0, 0, 0, 0x3F, 0, 0, 0]) == Ok(PeripheralBaseAddressBcm2836)
    ensures PeripheralBaseAddress([0x7E, 0, 0, 0, 0, 0, 0, 0, 0xFE, 0, 0, 0]) == Ok(PeripheralBaseAddressBcm2838)
    ensures PeripheralBaseAddress([0x7D, 0, 0, 0, 0x3F, 0, 0, 0]) == Ok(InvalidPeripheralBaseAddress)
  {
  }
}
