/** One I2C master channel (`I2CMaster`): command dispatch, the one-shot transfers, interface
    (de)initialisation and the streamed write driven by the scheduler's ticks. */
module Master {
  import opened I2cTypes
  import opened Dispatch
  import opened Transactions
  import opened StreamWrite
  import opened Hardware

  class I2cMaster {
    /** The index the channel was constructed with: 0 selects `i2c0`, anything else `i2c1`. */
    const i2cIndex: byte
    /** The staging buffer's capacity (`streamBufferSize`). */
    const bufferSize: nat
    /** The `Report::ID` opcode values. */
    const ids: ReportIds
    /** `HID_CMD_SIZE`, the length of a command report. */
    const cmdSize: nat
    /** `convertBytesToUInt32`. */
    const decode32: Decode32
    /** `_i2cInst`, the I2C block and its driver. */
    const inst: I2cInst

    /** The interface state (`setInterfaceState`). */
    var state: InterfaceState
    /** SDA and SCL are routed to the I2C function. */
    var pinsI2c: bool
    /** The internal pull-ups of SDA and SCL are on. */
    var pullUps: bool
    /** `_totalRemainingBytesToSend`. */
    var remaining: u32
    /** `_currentStreamAddress`. */
    var streamAddress: byte
    /** Chunks the host link has staged for the stream and `streamRxRead` has not yet taken. */
    var rx: seq<seq<byte>>
    /** The staging buffer's content (`getBuffer()`). */
    var buf: seq<byte>

    ghost predicate Valid()
      reads this
    {
      && 7 <= cmdSize && 0 < bufferSize && |buf| <= bufferSize
      && forall i :: 0 <= i < |rx| ==> 0 < |rx[i]| <= bufferSize
    }

    /** The stream fields as a value. */
    function StreamState(): Stream
      reads this
    {
      Stream(remaining, streamAddress, rx, buf)
    }

    constructor (i2cIndex: byte, streamBufferSize: nat, ids: ReportIds, cmdSize: nat, decode32: Decode32)
      requires 7 <= cmdSize && 0 < streamBufferSize
      ensures Valid() && fresh(inst)
      ensures this.i2cIndex == i2cIndex && bufferSize == streamBufferSize
      ensures this.ids == ids && this.cmdSize == cmdSize && this.decode32 == decode32
      ensures state == NotInitialized && !pinsI2c && !pullUps
      ensures StreamState() == Stream(0, 0, [], [])
      ensures inst.trace == [] && inst.clock == None
    {
      this.i2cIndex := i2cIndex;
      bufferSize := streamBufferSize;
      this.ids := ids;
      this.cmdSize := cmdSize;
      this.decode32 := decode32;
      inst := new I2cInst();
      state := NotInitialized;
      pinsI2c, pullUps := false, false;
      remaining, streamAddress := 0, 0;
      rx, buf := [], [];
    }

    /** `getInstIndex`: the hardware index of the channel's I2C block. */
    function InstIndex(): (r: nat)
      ensures r <= 1 && (r == 0 <==> i2cIndex == 0)
    {
      if i2cIndex == 0 then 0 else 1
    }

    /** The opcode a stream's completion response carries: the channel-0 stream opcode plus
        0x10 per channel, stored in a byte. */
    function CompletionOpcode(): (r: byte)
      ensures i2cIndex == 0 ==> r == ids.i2c0WriteFromUart % 0x100
      ensures i2cIndex != 0 ==> r == (ids.i2c0WriteFromUart + 0x10) % 0x100
      ensures ids.i2c0I2c1Offset == 0x10 ==> r == Opcode(ids, WriteFromUartCmd, InstIndex()) % 0x100
    {
      (ids.i2c0WriteFromUart + InstIndex() * 0x10) % 0x100
    }

    /** The 32-bit parameter of a command at byte offset `at`. */
    function Word(cmd: seq<byte>, at: nat): (r: u32)
      requires at + 4 <= |cmd|
    {
      decode32(cmd[at], cmd[at + 1], cmd[at + 2], cmd[at + 3])
    }

    /** The status the handler of `op` returns, `first` being the driver's result for its first
        transfer. */
    function HandlerStatus(op: Op, cmd: seq<byte>, first: i32): (r: CmdStatus)
      requires 7 <= cmdSize && |cmd| == cmdSize
    {
      match op
      case InitCmd => Ok
      case DeinitCmd => Ok
      case WriteCmd => TransferStatus(first, DecodeWrite(cmd, cmdSize, decode32).len)
      case ReadCmd => TransferStatus(first, DecodeRead(cmd).len)
      case WriteFromUartCmd => Ok
      case WriteThenReadCmd => WriteThenReadStatus(DecodeWriteThenRead(cmd), first)
    }

    /** The transfers the handler of `op` requests from the bus. */
    function HandlerTrace(op: Op, cmd: seq<byte>, first: i32): (r: seq<BusOp>)
      requires 7 <= cmdSize && |cmd| == cmdSize
    {
      match op
      case InitCmd => []
      case DeinitCmd => []
      case WriteCmd =>
        var req := DecodeWrite(cmd, cmdSize, decode32);
        [BusWrite(req.addr, req.len, req.noStop)]
      case ReadCmd =>
        var req := DecodeRead(cmd);
        [BusRead(req.addr, req.len, req.noStop)]
      case WriteFromUartCmd => []
      case WriteThenReadCmd =>
        var req := DecodeWriteThenRead(cmd);
        [BusWrite(req.addr, req.writeLen, true)]
        + (if WriteThenReadStatus(req, first) == Ok then [BusRead(req.addr, req.readLen, req.readNoStop)] else [])
    }

    /** `process`: hands a command report to the handler its opcode selects, or reports
        not-concerned, touching nothing, when the opcode is none of this channel's six. `first`
        and `second` are the driver's results for the handler's first and second transfer. */
    method Process(cmd: seq<byte>, response: array<byte>, first: i32, second: i32) returns (status: CmdStatus)
      requires Valid() && |cmd| == cmdSize && response.Length == 64
      modifies this, inst, response
      ensures Valid()
      ensures Decode(ids, InstIndex(), cmd[0]).None? ==>
                status == NotConcerned && unchanged(this) && unchanged(inst) && unchanged(response)
      ensures Decode(ids, InstIndex(), cmd[0]).Some? ==>
                && status == HandlerStatus(Decode(ids, InstIndex(), cmd[0]).value, cmd, first)
                && inst.trace == old(inst.trace) + HandlerTrace(Decode(ids, InstIndex(), cmd[0]).value, cmd, first)
      ensures state == match Decode(ids, InstIndex(), cmd[0])
                       case Some(InitCmd) => Initialized
                       case Some(DeinitCmd) => NotInitialized
                       case _ => old(state)
      ensures Decode(ids, InstIndex(), cmd[0]) == Some(InitCmd) ==>
                pinsI2c && pullUps == (old(pullUps) || cmd[1] != 0) && inst.clock == Some(Word(cmd, 2))
      ensures Decode(ids, InstIndex(), cmd[0]) == Some(DeinitCmd) ==> !pullUps && inst.clock == None
      ensures Decode(ids, InstIndex(), cmd[0]) != Some(InitCmd) ==> pinsI2c == old(pinsI2c)
      ensures Decode(ids, InstIndex(), cmd[0]) !in {Some(InitCmd), Some(DeinitCmd)} ==>
                pullUps == old(pullUps) && inst.clock == old(inst.clock)
      ensures (Decode(ids, InstIndex(), cmd[0]) == Some(WriteCmd) && DecodeWrite(cmd, cmdSize, decode32).over
               && status == Ok) ==> !inst.restartOnNext
      ensures StreamState() == if Decode(ids, InstIndex(), cmd[0]) == Some(WriteFromUartCmd)
                               then Stream(Word(cmd, 2), cmd[1], [], [])
                               else old(StreamState())
      ensures Decode(ids, InstIndex(), cmd[0]) == Some(WriteFromUartCmd) ==> unchanged(inst)
      ensures response[0] == old(response[0]) && response[1] == old(response[1])
      ensures Decode(ids, InstIndex(), cmd[0]) !in {Some(ReadCmd), Some(WriteThenReadCmd)} ==>
                response[..] == old(response[..])
      ensures Decode(ids, InstIndex(), cmd[0]) == Some(ReadCmd) ==>
                forall i :: 0 <= i < response.Length && !(2 <= i < 2 + cmd[3] as int) ==> response[i] == old(response[i])
      ensures Decode(ids, InstIndex(), cmd[0]) == Some(WriteThenReadCmd) ==>
                && (status == Nok ==> response[..] == old(response[..]))
                && forall i :: 0 <= i < response.Length && !(2 <= i < 2 + cmd[4] as int) ==> response[i] == old(response[i])
    {
      status := NotConcerned;
      match Decode(ids, InstIndex(), cmd[0])
      case None =>
      case Some(InitCmd) => status := Init(cmd);
      case Some(DeinitCmd) => status := DeInit();
      case Some(WriteCmd) => status := Write(cmd, first);
      case Some(ReadCmd) => status := Read(cmd, response, first);
      case Some(WriteFromUartCmd) => status := WriteFromUart(cmd);
      case Some(WriteThenReadCmd) => status := WriteThenRead(cmd, response, first, second);
    }

    /** `task`: one scheduler tick of the streamed write, `reply` being the driver's result for
        the one write it may issue. */
    method Task(response: array<byte>, reply: i32) returns (status: CmdStatus)
      requires Valid() && response.Length == 64
      modifies this`remaining, this`streamAddress, this`rx, this`buf, inst, response
      ensures Valid()
      ensures status == TaskStep(old(StreamState()), reply).status
      ensures StreamState() == TaskStep(old(StreamState()), reply).next
      ensures inst.trace == old(inst.trace) + TaskStep(old(StreamState()), reply).writes
      ensures inst.clock == old(inst.clock)
      ensures Completed(status) ==> response[0] == CompletionOpcode() && inst.restartOnNext
      ensures !Completed(status) ==> response[0] == old(response[0])
      ensures forall i :: 1 <= i < response.Length ==> response[i] == old(response[i])
      ensures !Completed(status) && TaskStep(old(StreamState()), reply).writes != [] ==> !inst.restartOnNext
      ensures TaskStep(old(StreamState()), reply).writes == [] ==> inst.restartOnNext == old(inst.restartOnNext)
    {
      if remaining == 0 {
        return NotConcerned;
      }
      var error := false;
      // The loop body ends with an unconditional `break`: at most one pass per tick. The pass
      // is recorded in `passed`, whose being set ends the loop.
      var passed := false;
      while remaining > 0 && AvailableSize(rx) > 0 && !error && !passed
        invariant !passed ==> !error && unchanged(this) && unchanged(inst) && unchanged(response)
        invariant passed ==>
          && old(AvailableSize(rx)) > 0
          && var n := ChunkLen(old(StreamState()));
          && inst.trace == old(inst.trace) + [BusWrite(old(streamAddress), n, n < old(remaining))]
          && rx == old(rx[1..]) && buf == [] && streamAddress == old(streamAddress)
          && (error <==> ToU32(reply) != n)
          && remaining == (if error then old(remaining) else old(remaining) - n)
          && inst.clock == old(inst.clock) && !inst.restartOnNext && unchanged(response)
        decreases if passed then 0 else 1
      {
        // streamRxRead(): the next staged chunk becomes the buffer's content
        buf, rx := rx[0], rx[1..];
        var n := Min(remaining, |buf|);
        var noStop := remaining - n > 0;
        var written := inst.WriteBlocking(streamAddress, n, noStop, reply);
        inst.restartOnNext := false;
        // the driver's int result is compared with, and subtracted from, an unsigned count
        if ToU32(written) != n {
          error := true;
        } else {
          remaining := remaining - ToU32(written);
        }
        buf := [];
        passed := true;
      }
      if error || remaining == 0 {
        remaining, streamAddress := 0, 0;
        response[0] := CompletionOpcode();
        inst.restartOnNext := true;
        return if error then Nok else Ok;
      }
      return NotFinished;
    }

    /** `init`: clocks the block at the baud rate given at byte 2, routes both pins to I2C, turns
        their pull-ups on when byte 1 is non-zero (and otherwise leaves them as they were), and
        marks the interface initialised. */
    method Init(cmd: seq<byte>) returns (status: CmdStatus)
      requires Valid() && |cmd| == cmdSize
      modifies this`state, this`pinsI2c, this`pullUps, inst
      ensures Valid() && status == Ok && state == Initialized
      ensures inst.clock == Some(Word(cmd, 2)) && inst.trace == old(inst.trace)
      ensures pinsI2c && pullUps == (old(pullUps) || cmd[1] != 0)
    {
      inst.Init(Word(cmd, 2));
      pinsI2c := true;
      if cmd[1] != 0 {
        pullUps := true;
      }
      state := Initialized;
      return Ok;
    }

    /** `deInit`: stops the block, turns the pins' pulls off and marks the interface not
        initialised. A stream in progress is left as it is. */
    method DeInit() returns (status: CmdStatus)
      requires Valid()
      modifies this`state, this`pullUps, inst
      ensures Valid() && status == Ok && state == NotInitialized
      ensures inst.clock == None && inst.trace == old(inst.trace) && !pullUps
    {
      inst.Deinit();
      pullUps := false;
      state := NotInitialized;
      return Ok;
    }

    /** `write`: one blocking write of the inline payload (from byte 7), cut to the inline
        capacity with the stop suppressed when the requested length is larger. */
    method Write(cmd: seq<byte>, reply: i32) returns (status: CmdStatus)
      requires Valid() && |cmd| == cmdSize
      modifies inst
      ensures var req := DecodeWrite(cmd, cmdSize, decode32);
        && inst.trace == old(inst.trace) + [BusWrite(req.addr, req.len, req.noStop)]
        && status == TransferStatus(reply, req.len)
        && (req.over && status == Ok ==> !inst.restartOnNext)
      ensures inst.clock == old(inst.clock)
    {
      var req := DecodeWrite(cmd, cmdSize, decode32);
      var written := inst.WriteBlocking(cmd[1], req.len, req.noStop, reply);
      if written == PicoErrorGeneric || written != req.len {
        return Nok;
      }
      if req.over {
        inst.restartOnNext := false;
      }
      return Ok;
    }

    /** `read`: one blocking read of the length at byte 3 into the response from byte 2. */
    method Read(cmd: seq<byte>, response: array<byte>, reply: i32) returns (status: CmdStatus)
      requires Valid() && |cmd| == cmdSize && response.Length == 64
      modifies inst, response
      ensures var req := DecodeRead(cmd);
        && inst.trace == old(inst.trace) + [BusRead(req.addr, req.len, req.noStop)]
        && status == TransferStatus(reply, req.len)
      ensures inst.clock == old(inst.clock)
      ensures forall i :: 0 <= i < response.Length && !(2 <= i < 2 + cmd[3] as int) ==> response[i] == old(response[i])
    {
      var req := DecodeRead(cmd);
      var got := inst.ReadBlocking(req.addr, response, 2, req.len, req.noStop, reply);
      if got == PicoErrorGeneric || got != req.len {
        return Nok;
      }
      return Ok;
    }

    /** `writeFromUart`: starts a stream of the 32-bit length at byte 2 to the address at byte 1,
        dropping whatever was staged before. Overwrites a stream in progress. */
    method WriteFromUart(cmd: seq<byte>) returns (status: CmdStatus)
      requires Valid() && |cmd| == cmdSize
      modifies this`remaining, this`streamAddress, this`rx, this`buf
      ensures Valid() && status == Ok
      ensures StreamState() == Stream(Word(cmd, 2), cmd[1], [], [])
    {
      rx, buf := [], [];
      remaining := Word(cmd, 2);
      streamAddress := cmd[1];
      return Ok;
    }

    /** `writeThenRead`: a write (stop suppressed) of the length at byte 3 from byte 5, then, if
        it went through, a read of the length at byte 4 with the stop flag at byte 2. */
    method WriteThenRead(cmd: seq<byte>, response: array<byte>, writeReply: i32, readReply: i32)
      returns (status: CmdStatus)
      requires Valid() && |cmd| == cmdSize && response.Length == 64
      modifies inst, response
      ensures var req := DecodeWriteThenRead(cmd);
        && status == WriteThenReadStatus(req, writeReply)
        && inst.trace == old(inst.trace) + [BusWrite(req.addr, req.writeLen, true)]
             + (if status == Ok then [BusRead(req.addr, req.readLen, req.readNoStop)] else [])
      ensures inst.clock == old(inst.clock)
      ensures status == Nok ==> response[..] == old(response[..])
      ensures forall i :: 0 <= i < response.Length && !(2 <= i < 2 + cmd[4] as int) ==> response[i] == old(response[i])
    {
      var req := DecodeWriteThenRead(cmd);
      var written := inst.WriteBlocking(req.addr, req.writeLen, true, writeReply);
      if written == PicoErrorGeneric {
        // the address was not acknowledged
        return Nok;
      } else if written != req.writeLen {
        // short write: the device refused a byte
        return Nok;
      }
      var got := inst.ReadBlocking(req.addr, response, 2, req.readLen, req.readNoStop, readReply);
      // A generic error or a short count from the read is tested for, but the failure status
      // is never assigned, so the read phase does not affect the result.
      return Ok;
    }

    /** The host link staging a chunk of stream data; it stands for the UART side, which fills
        the stream buffer. */
    method Stage(chunk: seq<byte>)
      requires Valid() && 0 < |chunk| <= bufferSize
      modifies this`rx
      ensures Valid() && rx == old(rx) + [chunk]
    {
      rx := rx + [chunk];
    }
  }
}
