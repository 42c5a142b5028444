/** The part of the RP2040 I2C block (`i2c_inst_t`) and its driver that a channel relies on: a
    blocking-transfer capability that logs every transfer, the `restart_on_next` flag, and
    whether the peripheral is clocked. What a transfer returns is supplied by the caller. */
module Hardware {
  import opened I2cTypes

  class I2cInst {
    /** Every blocking transfer requested, in order. */
    var trace: seq<BusOp>
    /** `restart_on_next`: the next transfer starts with a repeated start. */
    var restartOnNext: bool
    /** `Some(baudrate)` between `i2c_init` and `i2c_deinit`. */
    var clock: Option<u32>

    constructor ()
      ensures trace == [] && !restartOnNext && clock == None
    {
      trace := [];
      restartOnNext := false;
      clock := None;
    }

    /** `i2c_init`: the driver's own reset of `restart_on_next` is not part of the contract. */
    method Init(baudrate: u32)
      modifies this
      ensures clock == Some(baudrate) && trace == old(trace)
    {
      clock := Some(baudrate);
    }

    /** `i2c_deinit`. */
    method Deinit()
      modifies this
      ensures clock == None && trace == old(trace)
    {
      clock := None;
    }

    /** `i2c_write_blocking`: logs the transfer and returns the driver's result `reply`. What the
        driver does with `restart_on_next` is left open. */
    method WriteBlocking(addr: byte, len: nat, noStop: bool, reply: i32) returns (n: i32)
      modifies this
      ensures n == reply
      ensures trace == old(trace) + [BusWrite(addr, len, noStop)] && clock == old(clock)
    {
      trace := trace + [BusWrite(addr, len, noStop)];
      n := reply;
    }

    /** `i2c_read_blocking` into `dst` from index `at`: logs the transfer and returns `reply`.
        The driver may store received bytes at `dst[at..at + len]`; nothing else of `dst`
        changes. */
    method ReadBlocking(addr: byte, dst: array<byte>, at: nat, len: nat, noStop: bool, reply: i32)
      returns (n: i32)
      modifies this, dst
      ensures n == reply
      ensures trace == old(trace) + [BusRead(addr, len, noStop)] && clock == old(clock)
      ensures forall i :: 0 <= i < dst.Length && !(at <= i < at + len) ==> dst[i] == old(dst[i])
    {
      trace := trace + [BusRead(addr, len, noStop)];
      n := reply;
    }
  }
}
