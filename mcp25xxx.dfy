/**
 * The MCP25xxx receive-buffer standard-identifier-high register (RXBnSIDH): a buffer number,
 * 0 or 1, selecting one of two register addresses, and the eight high bits of the standard
 * identifier as the register's contents.
 */
module Mcp25xxxRegisters {
  import opened Wrappers

  /** An ArgumentException: a buffer number or address outside the two receive buffers. */
  datatype RegisterError = InvalidRxBufferNumber(number: Byte) | InvalidAddress(address: Address)

  /**
   * `Address`: the two receive buffers' SIDH registers; every other register address is
   * `OtherRegister`, distinguished by a tag (the enumeration's numeric values are not part of
   * this model).
   */
  datatype Address = RxB0Sidh | RxB1Sidh | OtherRegister(tag: int)

  datatype RxBxSidh = RxBxSidh(rxBufferNumber: Byte, standardIdentifier: Byte)

  /** The constructor: buffer numbers above 1 are refused. */
  function NewRxBxSidh(rxBufferNumber: Byte, standardIdentifier: Byte): (r: Result<RxBxSidh, RegisterError>)
    ensures r.Ok? <==> rxBufferNumber <= 1
    ensures r.Ok? ==> r.value.rxBufferNumber == rxBufferNumber && r.value.standardIdentifier == standardIdentifier
    ensures r.Err? ==> r.error == InvalidRxBufferNumber(rxBufferNumber)
  {
    if rxBufferNumber > 1 then Err(InvalidRxBufferNumber(rxBufferNumber))
    else Ok(RxBxSidh(rxBufferNumber, standardIdentifier))
  }

  /** GetAddress / the Address property: buffer 0 is RxB0Sidh, buffer 1 is RxB1Sidh. */
  function GetAddress(x: RxBxSidh): (r: Result<Address, RegisterError>)
    ensures x.rxBufferNumber == 0 <==> r == Ok(RxB0Sidh)
    ensures x.rxBufferNumber == 1 <==> r == Ok(RxB1Sidh)
    ensures x.rxBufferNumber > 1 <==> r == Err(InvalidRxBufferNumber(x.rxBufferNumber))
  {
    match x.rxBufferNumber
    case 0 => Ok(RxB0Sidh)
    case 1 => Ok(RxB1Sidh)
    case _ => Err(InvalidRxBufferNumber(x.rxBufferNumber))
  }

  /** GetRxBufferNumber: the inverse lookup; any other address throws. */
  function GetRxBufferNumber(address: Address): (r: Result<Byte, RegisterError>)
    ensures r.Ok? <==> address == RxB0Sidh || address == RxB1Sidh
    ensures r.Ok? ==> r.value <= 1
    ensures r.Err? ==> r.error == InvalidAddress(address)
  {
    match address
    case RxB0Sidh => Ok(0)
    case RxB1Sidh => Ok(1)
    case OtherRegister(_) => Err(InvalidAddress(address))
  }

  /** ToByte: the register's byte is the standard identifier, unchanged. */
  function ToByte(x: RxBxSidh): (r: Byte)
    ensures r == x.standardIdentifier
  {
    x.standardIdentifier
  }

  /** The byte of a register the constructor accepts is the identifier it was given. */
  lemma ToByteRoundTrip(n: Byte, sid: Byte)
    ensures NewRxBxSidh(n, sid).Ok? ==> ToByte(NewRxBxSidh(n, sid).value) == sid
  {
  }

  /**
   * Every register the constructor accepts has an address, and looking that address up gives
   * back its buffer number; the other way, every SIDH address maps to a buffer whose register
   * has that address.
   */
  lemma AddressRoundTrip(n: Byte, sid: Byte, a: Address)
    ensures NewRxBxSidh(n, sid).Ok? ==> (GetAddress(NewRxBxSidh(n, sid).value).Ok?
      && GetRxBufferNumber(GetAddress(NewRxBxSidh(n, sid).value).value) == Ok(n))
    ensures GetRxBufferNumber(a).Ok? ==> GetAddress(RxBxSidh(GetRxBufferNumber(a).value, sid)) == Ok(a)
  {
    if n <= 1 {
      assert GetAddress(RxBxSidh(n, sid)) == (if n == 0 then Ok(RxB0Sidh) else Ok(RxB1Sidh));
    }
  }
}
