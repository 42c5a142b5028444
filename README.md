# One I2C master channel of the u2if firmware, in Dafny

This project models `I2CMaster`: one I2C channel of a USB-to-I2C bridge. The channel takes
fixed-size command reports from the host and turns them into blocking I2C transfers. It also runs
a streamed write. That write is started by one command and drained by the scheduler's repeated
calls of `task`, one staged chunk per call.

Layout:

- `types.dfy` (`I2cTypes`): the machine integers `byte`, `u32` and `i32`, C's `int`-to-`uint`
  conversion, the status codes, the interface state, and the bus transfer record `BusOp`, which
  holds the address, the length and whether the stop is suppressed.
- `dispatch.dfy` (`Dispatch`): the opcode selection of `process`, as a pure function of the
  `Report::ID` values and the channel index.
- `transactions.dfy` (`Transactions`): how `write`, `read` and `writeThenRead` decode their
  parameters and classify the driver's result.
- `stream.dfy` (`StreamWrite`): one `task` call as a function `TaskStep` of the stream fields.
  The module also has lemmas about runs of ticks.
- `hardware.dfy` (`Hardware`): the I2C block `i2c_inst_t` and its blocking driver, as a class.
  The class logs every transfer. It returns whatever result it is given, and it holds
  `restart_on_next` and the clock state.
- `master.dfy` (`Master`): the class `I2cMaster`, with the channel's fields and one method per
  source function. `Task` is proved equal to `TaskStep`. `Process` is proved to do exactly what
  the selected handler does.

Parameters of the model:

- The `Report::ID` values are the datatype `ReportIds`.
- `HID_CMD_SIZE` is `cmdSize`. The model only assumes it is at least 7.
- `convertBytesToUInt32` is the function parameter `decode32`, so its byte order stays open.
- `getInstIndex` comes from the constructor's index. Index 0 selects `i2c0`; any other index
  selects `i2c1`.
- Each driver result is an `i32` parameter. The generic error is `PICO_ERROR_GENERIC` (-2).

Behaviour of the code that is easy to misread:

- A stop-flag byte of 0x01 means *send* a stop. Any other value suppresses it.
- An oversized inline write is cut to `HID_CMD_SIZE - 7` bytes and sent with the stop
  *suppressed*.
- `read`, and both lengths of `writeThenRead`, are one-byte fields (bytes 3 and 4).
- In `writeThenRead`, a failed read is tested for but never reported. Lines 210 and 214 evaluate
  `CmdStatus::NOK` without using it, so the function returns OK once the write went through.
- A zero-length stream is accepted with OK. After that, every `task` returns NOT_CONCERNED, so no
  completion response is ever emitted (`IdlePollIsSilent`).
- The completion response carries `I2C0_WRITE_FROM_UART + index * 0x10`, truncated to a byte.
  The stride there is the literal 0x10, not `I2C0_I2C1_OFFSET`.
- The `task` loop ends every pass with an unconditional `break`. The model records that pass in
  a flag, which ends the loop the same way.

## Model

| member | source | states |
|---|---|---|
| `Dispatch.Decode` | firmware/source/interfaces/I2cMaster.cpp:21-40 | It gives no operation exactly when `cmd[0]` equals none of the six `ID + index * I2C0_I2C1_OFFSET` opcodes. Otherwise it gives an operation whose opcode equals `cmd[0]`, and no operation tested earlier in the chain matches. |
| `Dispatch.DecodeOpcode` | firmware/source/interfaces/I2cMaster.cpp:25-37 | When the six base IDs are distinct, the dispatcher selects an operation exactly when the command byte is that operation's channel opcode. |
| `Transactions.DecodeWrite` | firmware/source/interfaces/I2cMaster.cpp:107-117 | The address is byte 1, and the length never exceeds `HID_CMD_SIZE - 7`. A requested length over that capacity sends exactly the capacity with the stop suppressed. A length within it is sent as asked, with the stop suppressed unless byte 2 is 0x01. |
| `Transactions.TransferStatus` | firmware/source/interfaces/I2cMaster.cpp:132-133 | The result is OK exactly when the driver's count equals the requested length; otherwise it is NOK, generic error included. |
| `Transactions.WriteThenReadStatus` | firmware/source/interfaces/I2cMaster.cpp:187-216 | The result is OK exactly when the write phase's count equals the write length; otherwise it is NOK. The read result has no influence. |
| `I2cTypes.ToU32` | firmware/source/interfaces/I2cMaster.cpp:62-65 | C's conversion of the driver's `int` to `uint`: non-negative values are kept, and negative ones wrap by 2^32. |
| `StreamWrite.TaskStep` | firmware/source/interfaces/I2cMaster.cpp:42-81 | It makes at most one write. With nothing remaining it returns NOT_CONCERNED and changes nothing. With no data staged it returns NOT_FINISHED and changes nothing. Otherwise it makes one write to the stream address, of length min(remaining, chunk) with the stop suppressed unless the write empties remaining. It consumes the chunk and clears the buffer. It returns NOK exactly on a short count, and OK exactly when the full write empties remaining; both reset remaining and the address to 0. It returns NOT_CONCERNED exactly when nothing remains. A full write that leaves bytes returns NOT_FINISHED, keeps the address and reduces remaining by exactly the chunk. On NOT_FINISHED, remaining drops by exactly the bytes sent. Remaining never grows. |
| `StreamWrite.IdlePollIsSilent` | firmware/source/interfaces/I2cMaster.cpp:42-44 | Any number of ticks with nothing remaining return NOT_CONCERNED, write nothing and change no field. A zero-length stream therefore never completes. |
| `StreamWrite.PollBounds` | firmware/source/interfaces/I2cMaster.cpp:48-70 | Over any run of ticks there is one status per tick, the writes number at most the ticks, and remaining never grows. |
| `StreamWrite.CompletionIsFinal` | firmware/source/interfaces/I2cMaster.cpp:72-79 | After a tick returns OK or NOK, every later tick returns NOT_CONCERNED. A stream emits at most one completion. |
| `StreamWrite.AckedRunDelivers` | firmware/source/interfaces/I2cMaster.cpp:48-79 | Take a stream of N bytes over staged chunks totalling T bytes, on a bus that acknowledges every byte. It sends min(N, T) bytes to the stream's address in non-empty writes, at most one per chunk and none longer than its chunk, and remaining drops by exactly that amount. Only the last write asserts the stop, and only when T >= N. That last tick returns OK and every earlier tick returns NOT_FINISHED. |
| `Master.I2cMaster.constructor` | firmware/source/interfaces/I2cMaster.cpp:4-11 | A new channel is not initialised and has no stream. Its stream address is 0, nothing is staged and its bus has seen no transfer. |
| `Master.I2cMaster.Process` | firmware/source/interfaces/I2cMaster.cpp:21-40 | For an unknown opcode it returns NOT_CONCERNED with no bus call and no change to the channel, the bus or the response. Otherwise it returns the selected handler's status and makes exactly that handler's transfers and field changes. `writeFromUart` leaves the I2C block untouched, `restart_on_next` included. Only `init` moves the pins. Only `init` and `deInit` change the pulls and the clock. After a successful oversized write, `restart_on_next` is clear. Only `read` and `writeThenRead` touch the response, and only at indices from 2 up to their read length; a failed `writeThenRead` touches nothing. Response bytes 0 and 1 never change. |
| `Master.I2cMaster.CompletionOpcode` | firmware/source/interfaces/I2cMaster.cpp:75 | Channel 0 reports `I2C0_WRITE_FROM_UART` and channel 1 reports it plus 0x10, both truncated to a byte. When `I2C0_I2C1_OFFSET` is 0x10, the value is the channel's own stream opcode, truncated to a byte. |
| `Master.I2cMaster.Task` | firmware/source/interfaces/I2cMaster.cpp:42-81 | The status, the new stream fields and the bus writes are those of `TaskStep`. On OK or NOK, `response[0]` becomes the completion opcode and `restart_on_next` is set. After a write that does not end the stream, `restart_on_next` is clear. No other response byte changes. |
| `Master.I2cMaster.Init` | firmware/source/interfaces/I2cMaster.cpp:83-95 | It returns OK and the state becomes INITIALIZED. The block is clocked at the 32-bit baud rate from byte 2, and the pins are routed to I2C. Pull-ups are on afterwards exactly when they were on before or byte 1 is non-zero. No transfer is made. |
| `Master.I2cMaster.DeInit` | firmware/source/interfaces/I2cMaster.cpp:97-103 | It returns OK and the state becomes NOT_INITIALIZED. The block is stopped, pulls are off and no transfer is made. A stream in progress is left untouched. |
| `Master.I2cMaster.Write` | firmware/source/interfaces/I2cMaster.cpp:107-137 | It makes exactly one write with the address, length and stop policy of `DecodeWrite`, and returns `TransferStatus` of the driver's result. After a successful oversized write, `restart_on_next` is clear. |
| `Master.I2cMaster.Read` | firmware/source/interfaces/I2cMaster.cpp:139-160 | It makes exactly one read of the byte-3 length from the byte-1 address, with the stop suppressed unless byte 2 is 0x01. It returns OK exactly when the whole length was read. Only response bytes from index 2 may change. |
| `Master.I2cMaster.WriteFromUart` | firmware/source/interfaces/I2cMaster.cpp:162-167 | It returns OK. The staged data and the buffer are flushed, remaining becomes the 32-bit value at byte 2 and the address becomes byte 1. No bus call is made. |
| `Master.I2cMaster.WriteThenRead` | firmware/source/interfaces/I2cMaster.cpp:169-216 | It always writes first, with the stop suppressed. A generic error or a short count returns NOK and issues no read, and the response stays untouched. Otherwise it issues the read with the byte-2 stop flag and returns OK whatever the read gave. |

## Left out

- The Pico SDK's hardware setup is reduced to flags: `i2c_init`, `i2c_deinit`,
  `gpio_set_function`, `gpio_pull_up` and `gpio_disable_pulls`. The channel holds `pinsI2c` and
  `pullUps`; the block holds `clock`.
- The blocking driver's internals are not modelled. A transfer is logged as address, length and
  stop policy, and the caller supplies its result. What the driver does to `restart_on_next` is
  left open.
- Payload bytes are not recorded on the bus. Byte order within a stream is not modelled, only
  byte counts and stop placement.
- The bytes a read fetches into the response are not modelled. The contract says only that
  bytes before index 2, and after the read length, stay as they were.
- The model does not capture writes past the end of the 64-byte response when `read` or
  `writeThenRead` asks for more than 62 bytes.
- The model does not capture reads past the end of the command report when `writeThenRead`'s
  write length exceeds `HID_CMD_SIZE - 5`.
- `StreamedInterface`, `StreamBuffer`, `streamRxRead`, `streamRxAvailableSize` and
  `flushStreamRx` are not part of this model. They are replaced by a queue of staged chunks
  (`rx`), the buffer content (`buf`) and the size of the next chunk. `Stage` stands for the host
  link filling the queue.
- `Report.h`, with the `Report::ID` values and `HID_CMD_SIZE`, is not part of this model; those
  values are parameters. `convertBytesToUInt32` is not part of this model either and becomes the
  parameter `decode32`.
- `i2c0` and `i2c1` are global blocks in the firmware. Here each channel gets its own block, so
  two channels sharing one block are not modelled.
- The initial state of a new channel is assumed. The constructor sets only the stream address.
  Remaining 0, NOT_INITIALIZED, pulls off, pins not routed and an unclocked block come from member
  declarations and SDK state that are not part of this model.
- The commented-out `printf` debugging is logging and is left out.
- `StreamWrite.AckedRunDelivers`: it assumes every chunk is shorter than 2^31 bytes, so that an
  acknowledging driver can report the count in an `int`. The default staging buffer is 512 bytes.
