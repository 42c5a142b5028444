/** Parameter decoding and result classification of the one-shot transfers
    `I2CMaster::write`, `I2CMaster::read` and `I2CMaster::writeThenRead`. */
module Transactions {
  import opened I2cTypes

  /** A stop-flag byte asks for a stop condition exactly when it is 0x01; any other value
      suppresses the stop. */
  function NoStop(flag: byte): (noStop: bool)
    ensures !noStop <==> flag == 0x01
  {
    flag != 0x01
  }

  /** The inline payload capacity of a write command: the report minus its 7 header bytes. */
  function InlineCapacity(cmdSize: nat): (r: nat)
    requires 7 <= cmdSize
    ensures r + 7 == cmdSize
  {
    cmdSize - 7
  }

  /** What `write` asks of the bus: address, byte count, stop policy, and whether the requested
      length was over the inline capacity. */
  datatype WriteRequest = WriteRequest(addr: byte, len: nat, noStop: bool, over: bool)

  /** Decodes a write command: address at byte 1, stop flag at byte 2, 32-bit length at byte 3,
      payload from byte 7. An oversized length is cut to the inline capacity and the stop is
      suppressed whatever the flag says. */
  function DecodeWrite(cmd: seq<byte>, cmdSize: nat, decode32: Decode32): (r: WriteRequest)
    requires 7 <= cmdSize && 7 <= |cmd|
    ensures r.addr == cmd[1]
    ensures r.len <= InlineCapacity(cmdSize)
    ensures r.over <==> decode32(cmd[3], cmd[4], cmd[5], cmd[6]) > InlineCapacity(cmdSize)
    ensures r.over ==> r.len == InlineCapacity(cmdSize) && r.noStop
    ensures !r.over ==> r.len == decode32(cmd[3], cmd[4], cmd[5], cmd[6]) && r.noStop == (cmd[2] != 0x01)
  {
    var requested := decode32(cmd[3], cmd[4], cmd[5], cmd[6]);
    if requested > InlineCapacity(cmdSize) then
      WriteRequest(cmd[1], InlineCapacity(cmdSize), true, true)
    else
      WriteRequest(cmd[1], requested, NoStop(cmd[2]), false)
  }

  /** The classification `write` and `read` apply to a driver result: failure on the generic
      error or on any count other than the requested length. Since the error value is negative,
      a transfer succeeds exactly when the whole length went through. */
  function TransferStatus(reply: i32, len: nat): (r: CmdStatus)
    ensures r == Ok <==> reply == len
    ensures r == Ok || r == Nok
  {
    if reply == PicoErrorGeneric || reply != len then Nok else Ok
  }

  /** What `read` asks of the bus: address at byte 1, stop flag at byte 2, and a one-byte length
      at byte 3. */
  datatype ReadRequest = ReadRequest(addr: byte, len: byte, noStop: bool)

  function DecodeRead(cmd: seq<byte>): (r: ReadRequest)
    requires 4 <= |cmd|
    ensures r.addr == cmd[1] && r.len == cmd[3]
    ensures !r.noStop <==> cmd[2] == 0x01
  {
    ReadRequest(cmd[1], cmd[3], NoStop(cmd[2]))
  }

  /** What `writeThenRead` asks of the bus: address at byte 1, the read's stop flag at byte 2,
      one-byte write and read lengths at bytes 3 and 4, payload from byte 5. */
  datatype WriteThenReadRequest = WriteThenReadRequest(addr: byte, writeLen: byte, readLen: byte, readNoStop: bool)

  function DecodeWriteThenRead(cmd: seq<byte>): (r: WriteThenReadRequest)
    requires 5 <= |cmd|
    ensures r.addr == cmd[1] && r.writeLen == cmd[3] && r.readLen == cmd[4]
    ensures !r.readNoStop <==> cmd[2] == 0x01
  {
    WriteThenReadRequest(cmd[1], cmd[3], cmd[4], NoStop(cmd[2]))
  }

  /** The status `writeThenRead` returns: failure when the write phase reports the generic error
      or a short count; otherwise success. The read phase's outcome is evaluated by
      `writeThenRead` but never reaches the status, so it is not an argument here. */
  function WriteThenReadStatus(req: WriteThenReadRequest, writeReply: i32): (r: CmdStatus)
    ensures r == Ok <==> writeReply == req.writeLen
    ensures r == Ok || r == Nok
  {
    if writeReply == PicoErrorGeneric then Nok
    else if writeReply != req.writeLen then Nok
    else Ok
  }
}
