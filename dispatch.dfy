/** Opcode selection of `I2CMaster::process`: which handler, if any, a command report is for. */
module Dispatch {
  import opened I2cTypes

  /** The `Report::ID` values the channel compares against: the six channel-0 opcodes and the
      stride between the opcodes of consecutive channels (`I2C0_I2C1_OFFSET`). */
  datatype ReportIds = ReportIds(
    i2c0Init: nat,
    i2c0Deinit: nat,
    i2c0Write: nat,
    i2c0Read: nat,
    i2c0WriteFromUart: nat,
    i2c0WriteThenRead: nat,
    i2c0I2c1Offset: nat)

  /** The six operations a channel handles. */
  datatype Op = InitCmd | DeinitCmd | WriteCmd | ReadCmd | WriteFromUartCmd | WriteThenReadCmd

  /** The channel-0 opcode of an operation. */
  function Base(ids: ReportIds, op: Op): (r: nat)
  {
    match op
    case InitCmd => ids.i2c0Init
    case DeinitCmd => ids.i2c0Deinit
    case WriteCmd => ids.i2c0Write
    case ReadCmd => ids.i2c0Read
    case WriteFromUartCmd => ids.i2c0WriteFromUart
    case WriteThenReadCmd => ids.i2c0WriteThenRead
  }

  /** The opcode of an operation on channel `index`. */
  function Opcode(ids: ReportIds, op: Op, index: nat): (r: nat)
  {
    Base(ids, op) + index * ids.i2c0I2c1Offset
  }

  /** The position of an operation's test in the dispatcher's if-else chain. */
  function Rank(op: Op): (r: nat)
  {
    match op
    case InitCmd => 0
    case DeinitCmd => 1
    case WriteCmd => 2
    case ReadCmd => 3
    case WriteFromUartCmd => 4
    case WriteThenReadCmd => 5
  }

  /** The operation, if any, that command byte `code` selects on channel `index`: the first
      operation in the if-else chain whose channel opcode equals `code`. */
  function Decode(ids: ReportIds, index: nat, code: byte): (r: Option<Op>)
    ensures r.None? <==> forall op: Op :: Opcode(ids, op, index) != code
    ensures r.Some? ==> Opcode(ids, r.value, index) == code
    ensures r.Some? ==> forall op: Op :: Rank(op) < Rank(r.value) ==> Opcode(ids, op, index) != code
  {
    if code == Opcode(ids, InitCmd, index) then Some(InitCmd)
    else if code == Opcode(ids, DeinitCmd, index) then Some(DeinitCmd)
    else if code == Opcode(ids, WriteCmd, index) then Some(WriteCmd)
    else if code == Opcode(ids, ReadCmd, index) then Some(ReadCmd)
    else if code == Opcode(ids, WriteFromUartCmd, index) then Some(WriteFromUartCmd)
    else if code == Opcode(ids, WriteThenReadCmd, index) then Some(WriteThenReadCmd)
    else None
  }

  /** The six channel-0 opcodes are pairwise different. */
  predicate Distinct(ids: ReportIds)
  {
    forall a: Op, b: Op :: a != b ==> Base(ids, a) != Base(ids, b)
  }

  /** With distinct opcodes, the dispatcher selects an operation exactly from its own opcode. */
  lemma {:induction false} DecodeOpcode(ids: ReportIds, index: nat, op: Op, code: byte)
    requires Distinct(ids)
    ensures Decode(ids, index, code) == Some(op) <==> code == Opcode(ids, op, index)
  {
  }
}
