# KGAPI "system" command router (Keyglove controller)

This project models the command router of the "system" class of KGAPI, the
binary request/response protocol the Keyglove controller speaks to its host:
`process_protocol_command_system` in `keyglove/support_protocol_system.cpp`.

The router receives a packet buffer laid out as `[0]` packet type, `[1]`
parameter length, `[2]` class, `[3]` command id, `[4..]` parameters. It does
four things:

- It switches on the command id. Six ids are known: ping, reset, get_info,
  get_memory, set_timer and get_battery_status.
- It checks the length byte against the fixed parameter count of that
  command (0, 1, 0, 0, 4, 0).
- It decodes the fixed-offset parameters. set_timer's 16-bit interval is
  assembled from bytes 5 and 6, low byte first.
- It calls the command's handler and sends one fixed-size reply frame. The
  reply echoes the class and command bytes and carries the handler's outputs
  little-endian, in declared field order. reset alone sends no reply when its
  handler returns 0xFFFF.

It returns 0 on success, or PARAMETER_LENGTH or INVALID_COMMAND.

Files:

- `little_endian.dfy` (module `LittleEndian`): the unsigned byte, uint16 and
  uint32 types. It holds a reference little-endian encoder and decoder, proved
  inverse in both directions. It also holds the router's shift-and-mask byte
  builders and its `lo | (hi << 8)` assembly, each proved equal to the
  reference encoding.
- `kgapi_system.dfy` (module `KgapiSystem`): the router's decision logic as
  one function, `Process(packet, handlers)`. It returns the status, the handler
  call made, if any, and the reply frame sent, if any. The handlers are oracle
  inputs. The command table (`Lookup`) is written out separately. Lemmas
  connect `Process` to that table, to the parameter encoding and to the reply
  layout of each command.
- `router.dfy` (module `KgapiSystemRouter`): the router as the source runs it.
  The class `Router` records every handler call and every
  `send_keyglove_packet` call in an `effects` trace. Its
  `ProcessCommandSystem` method follows the source's switch statement by
  statement. It is proved to return `Process`'s status and to append exactly
  `Process`'s call and reply to the trace.
- `options.dfy` (module `Options`): the optional-value datatype.

C's `(x >> 8k) & 0xFF` on an unsigned value is written `(x / 256^k) % 256`.
`ShiftMask16` and `ShiftMask32` prove the two forms equal on 16- and 32-bit
words. The one bitwise OR in the source, `rxPacket[5] | (rxPacket[6] << 8)`,
is written on `bv16` and proved equal to `lo + 256 * hi`.

Notes on the packet layout and the command table:

- Byte 0 is the packet type. The router never reads it; it reads the length
  at byte 1, the class at byte 2 and the command at byte 3.
- The router is a switch with one branch per command, and the model keeps
  that switch in both `Process` and `ProcessCommandSystem`. `Lookup` writes
  the switch out as a command table, and `Process` is proved against it.

## Model

| member | source | states |
|---|---|---|
| `KgapiSystem.Process` | keyglove/support_protocol_system.cpp:56-184 | An unknown command id gives InvalidCommand, and only then. A known id whose length byte differs from its parameter count gives ParameterLength, and only then. Neither error calls a handler or sends a frame. A valid request calls exactly the handler of its id. Any reply is a Command frame echoing class and command, with length argument equal to payload size equal to the command's reply length. A valid request goes unanswered exactly when it is reset and the handler returned 0xFFFF. |
| `KgapiSystem.StatusIgnoresHandlers` | keyglove/support_protocol_system.cpp:58-183 | The status is a function of the packet alone: Success exactly for a known id with the right length, whatever the handler's result code. |
| `KgapiSystem.CallDecodesParams` | keyglove/support_protocol_system.cpp:79-150 | On success, the parameter encoding of the handler call made is exactly the packet's parameter bytes `[4 .. 4+len)`. |
| `KgapiSystem.SameParamsSameCall` | keyglove/support_protocol_system.cpp:79-150 | Two valid packets with the same command id and the same parameter bytes make the same handler call. |
| `KgapiSystem.PingReply` | keyglove/support_protocol_system.cpp:60-76 | ping replies with a 4-byte frame whose payload is the little-endian uptime, and decoding it gives the uptime back. |
| `KgapiSystem.PingIgnoresResult` | keyglove/support_protocol_system.cpp:69-75 | The ping outcome depends on the handler's uptime only, never on its result code. |
| `KgapiSystem.ResetReply` | keyglove/support_protocol_system.cpp:79-98 | reset calls its handler with byte 4. It sends no frame exactly when the result is 0xFFFF. Otherwise it sends the 2-byte little-endian result, which decodes back to the result. |
| `KgapiSystem.GetInfoReply` | keyglove/support_protocol_system.cpp:100-120 | The get_info payload is major, minor, patch, then the 4-byte little-endian timestamp. Bytes 3-6 decode to the timestamp. |
| `KgapiSystem.GetMemoryReply` | keyglove/support_protocol_system.cpp:122-140 | The get_memory payload is free_ram, then total_ram, each 4 bytes little-endian. Each half decodes to its value. |
| `KgapiSystem.SetTimerReply` | keyglove/support_protocol_system.cpp:142-158 | set_timer passes handle = byte 4, interval = byte 5 + 256 * byte 6 (re-encoding it gives bytes 5-6 back) and oneshot = byte 7. It always replies with the 2-byte little-endian result, 0xFFFF included. |
| `KgapiSystem.GetBatteryStatusReply` | keyglove/support_protocol_system.cpp:160-178 | The get_battery_status payload is status, then level. |
| `LittleEndian.U32Bytes` | keyglove/support_protocol_system.cpp:72 | The four payload bytes the source builds from a uint32 (also at :115 and :135) are its little-endian encoding, least significant byte first. Reassembling them gives back every uint32, 0 and 0xFFFFFFFF included. |
| `LittleEndian.U16Bytes` | keyglove/support_protocol_system.cpp:92 | The two payload bytes the source builds from a uint16 result (also at :153) are its little-endian encoding. Reassembling them gives the value back. |
| `LittleEndian.ShiftMask32` | keyglove/support_protocol_system.cpp:72 | On the 32-bit word holding a uint32, the source's `(v >> 8k) & 0xFF` for k = 0..3 are exactly the bytes `U32Bytes` gives for its value. |
| `LittleEndian.ShiftMask16` | keyglove/support_protocol_system.cpp:153 | On the 16-bit word holding a uint16, the source's `v & 0xFF` and `(v >> 8) & 0xFF` are exactly the bytes `U16Bytes` gives for its value. |
| `KgapiSystem.Lookup` | keyglove/support_protocol_system.cpp:59-181 | The command table written out from the switch's case labels and length checks: exactly the ids 0x01 to 0x06 are known. |
| `KgapiSystem.CallId` | keyglove/support_protocol_system.cpp:60-160 | Every handler is selected by a command id the table knows. |
| `KgapiSystem.EncodeParams` | keyglove/support_protocol_system.cpp:87-150 | The parameter bytes of each handler call, in declared order and little-endian, are exactly as many as the table's parameter count for its command. |
| `LittleEndian.OrShift8` | keyglove/support_protocol_system.cpp:150 | The source's OR of lo with hi shifted left by 8 is the little-endian decoding of the two bytes `[lo, hi]`. |
| `LittleEndian.OrShift8IsSum` | keyglove/support_protocol_system.cpp:150 | On 16-bit words, the OR of lo with hi shifted left by 8 equals `lo + 256 * hi` for all bytes lo and hi. |
| `LittleEndian.DecodeEncode` | keyglove/support_protocol_system.cpp:135 | Decoding the n-byte little-endian encoding of any value below 256^n gives the value back. |
| `LittleEndian.EncodeDecode` | keyglove/support_protocol_system.cpp:150 | Re-encoding the decoded value of any byte sequence in as many bytes gives the sequence back. |
| `LittleEndian.DecodeLEBound` | keyglove/support_protocol_system.cpp:150 | Decoding n bytes always yields a value below 256^n: a two-byte field read back always fits in a uint16, a four-byte field in a uint32. |
| `LittleEndian.EncodeLEInjective` | keyglove/support_protocol_system.cpp:115 | Distinct values of one width have distinct encodings. |
| `KgapiSystemRouter.AtMostOneFrame` | keyglove/support_protocol_system.cpp:59-182 | One call of the router causes at most two effects. Any sent frame is the last effect, comes after a handler call, and is a correctly shaped reply. |
| `KgapiSystemRouter.Router.ProcessCommandSystem` | keyglove/support_protocol_system.cpp:56-184 | The switch as the source runs it returns `Process`'s status. It appends to the trace exactly `Process`'s handler call and then its reply frame, and nothing else. |
| `KgapiSystemRouter.Router.SendKeyglovePacket` | keyglove/support_protocol_system.cpp:75 | Sending appends one frame, with the given type, length, class, command and payload, to the trace. |
| `KgapiSystemRouter.Router.CmdPing` | keyglove/support_protocol_system.cpp:69 | Calling the ping handler records the call and returns its result code and uptime. |
| `KgapiSystemRouter.Router.CmdReset` | keyglove/support_protocol_system.cpp:87 | Calling the reset handler with the type byte records the call and returns its result. |
| `KgapiSystemRouter.Router.CmdGetInfo` | keyglove/support_protocol_system.cpp:112 | Calling the get_info handler records the call and returns its result, version bytes and timestamp. |
| `KgapiSystemRouter.Router.CmdGetMemory` | keyglove/support_protocol_system.cpp:132 | Calling the get_memory handler records the call and returns its result, free_ram and total_ram. |
| `KgapiSystemRouter.Router.CmdSetTimer` | keyglove/support_protocol_system.cpp:150 | Calling the set_timer handler with handle, interval and oneshot records that call and returns its result. |
| `KgapiSystemRouter.Router.CmdGetBatteryStatus` | keyglove/support_protocol_system.cpp:170 | Calling the get_battery_status handler records the call and returns its result, status and level. |

## Left out

- The bodies of the `kg_cmd_system_*` handlers are not part of this model. They are foreign code (uptime, reset, memory, battery, timer). Each handler is an oracle input, a function from its decoded parameters to its outputs. What a handler does to the device, such as actually resetting it, is not modelled.
- `send_keyglove_packet` and the byte-stream transport below it are I/O. The model records each call as a `Sent` frame in the router's trace.
- The timer state machine (arming, ticking, oneshot disarming, remainder carry) is not modelled. support_protocol_system.cpp contains only the handler call at :150, so any timer behaviour beyond that call would be invented.
- The event callback slots (`kg_evt_system_*`, keyglove/support_protocol_system.cpp:186-190) are not modelled. They are declarations only, with no registration or emission logic.
- The touch router is in a separate source file and is not modelled. keyglove/support_protocol_touch.h holds only its constants and prototypes.
- The numeric values of the two protocol errors and of the Command packet type are defined in headers that are not part of this model. They are kept as distinct symbolic constructors; Success stands for 0.
- The InvalidClass error is not modelled. The layer above this router dispatches on class and reports it.
- C integer promotion of `rxPacket[6] << 8` to `int` is not modelled. The shift is done on a 16-bit word, which gives the same value for every byte.
