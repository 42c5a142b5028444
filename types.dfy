/** Machine types and the vocabulary shared by every part of one I2C channel. */
module I2cTypes {

  /** An unsigned 8-bit value (uint8_t). */
  type byte = x: int | 0 <= x < 0x100

  /** An unsigned 32-bit value (uint / uint32_t on the RP2040). */
  type u32 = x: int | 0 <= x < 0x1_0000_0000

  /** A signed 32-bit value (int), the type of a bus driver's result. */
  type i32 = x: int | -0x8000_0000 <= x < 0x8000_0000

  /** The four-byte to 32-bit conversion the commands use; its byte order is a parameter of the model. */
  type Decode32 = (byte, byte, byte, byte) -> u32

  /** The Pico SDK's generic error result of a blocking transfer (the address was not acknowledged). */
  const PicoErrorGeneric: i32 := -2

  /** C's conversion of an `int` to `uint`: two's complement wrap-around for negative values. */
  function ToU32(x: i32): (r: u32)
    ensures 0 <= x ==> r == x
    ensures x < 0 ==> r == x + 0x1_0000_0000
  {
    x % 0x1_0000_0000
  }

  function Min(a: int, b: int): (r: int)
    ensures r <= a && r <= b && (r == a || r == b)
  {
    if a <= b then a else b
  }

  datatype Option<T> = None | Some(value: T)

  /** The status every entry point of an interface returns to the scheduler. */
  datatype CmdStatus = NotConcerned | Ok | Nok | NotFinished

  datatype InterfaceState = NotInitialized | Initialized

  /** One blocking transfer as the bus driver sees it: target address, byte count, stop suppressed. */
  datatype BusOp =
    | BusWrite(addr: byte, len: nat, noStop: bool)
    | BusRead(addr: byte, len: nat, noStop: bool)
}
