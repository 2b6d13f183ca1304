/** The decision logic of the KGAPI "system" command router,
    `process_protocol_command_system` in keyglove/support_protocol_system.cpp.

    An inbound packet buffer is laid out as
      [0] packet type, [1] parameter length, [2] class, [3] command id, [4..] parameters.
    The router switches on the command id, checks the length byte against
    the number of parameter bytes that command takes, decodes the
    parameters at fixed offsets, calls the command's handler and builds the
    reply frame, and returns a protocol status.

    The handlers (`kg_cmd_system_*`) are not part of this model: they are
    the `Handlers` argument, whose fields give what each handler would
    return for the parameters it is given. `Process` states the whole
    outcome of one call: the status, the handler call made (if any) and the
    reply frame sent (if any). */
module KgapiSystem {
  import opened LittleEndian
  import opened Options

  /** The router's status byte. Only Success is known to be 0; the numeric
      values of the two errors are defined in a header that is not part of
      this model, so they are kept symbolic and distinct. */
  datatype ProtocolError = Success | ParameterLength | InvalidCommand

  /** Packet types of KGAPI. The router only ever sends Command frames
      (replies to commands); Event frames belong to the unsolicited-event
      path, which is not part of this model. */
  datatype PacketType = Command | Event

  /** Command ids of the "system" class. */
  const CMD_PING: u8 := 0x01
  const CMD_RESET: u8 := 0x02
  const CMD_GET_INFO: u8 := 0x03
  const CMD_GET_MEMORY: u8 := 0x04
  const CMD_SET_TIMER: u8 := 0x05
  const CMD_GET_BATTERY_STATUS: u8 := 0x06

  /** The result value with which the reset handler asks for no reply. */
  const NO_REPLY: u16 := 0xFFFF

  /** What the handlers of the value-returning commands write through their
      out-parameters, together with their uint16 result code. */
  datatype PingOut = PingOut(result: u16, uptime: u32)
  datatype InfoOut = InfoOut(result: u16, major: u8, minor: u8, patch: u8, timestamp: u32)
  datatype MemoryOut = MemoryOut(result: u16, freeRam: u32, totalRam: u32)
  datatype BatteryOut = BatteryOut(result: u16, status: u8, level: u8)

  /** The six command handlers, as oracles: each field gives what the handler
      returns when it is called with the decoded parameters. */
  datatype Handlers = Handlers(
    ping: () -> PingOut,
    reset: u8 -> u16,
    getInfo: () -> InfoOut,
    getMemory: () -> MemoryOut,
    setTimer: (u8, u16, u8) -> u16,
    getBatteryStatus: () -> BatteryOut)

  /** One handler invocation with the parameters the router decoded for it. */
  datatype HandlerCall =
    | Ping
    | Reset(kind: u8)
    | GetInfo
    | GetMemory
    | SetTimer(handle: u8, interval: u16, oneshot: u8)
    | GetBatteryStatus

  /** One outbound frame, as passed to `send_keyglove_packet(type, len, class, command, payload)`. */
  datatype Frame = Frame(kind: PacketType, length: u8, cls: u8, cmd: u8, payload: seq<u8>)

  /** Everything one call of the router does. */
  datatype Outcome = Outcome(status: ProtocolError, call: Option<HandlerCall>, reply: Option<Frame>)

  /** The command table of the "system" class: for each known command id,
      the number of parameter bytes it takes and the length of its reply
      payload. */
  datatype Descriptor = Descriptor(paramLen: u8, replyLen: u8)

  function Lookup(cmd: u8): (d: Option<Descriptor>)
    ensures d.Some? <==> CMD_PING <= cmd <= CMD_GET_BATTERY_STATUS
  {
    if cmd == CMD_PING then Some(Descriptor(0, 4))
    else if cmd == CMD_RESET then Some(Descriptor(1, 2))
    else if cmd == CMD_GET_INFO then Some(Descriptor(0, 7))
    else if cmd == CMD_GET_MEMORY then Some(Descriptor(0, 8))
    else if cmd == CMD_SET_TIMER then Some(Descriptor(4, 2))
    else if cmd == CMD_GET_BATTERY_STATUS then Some(Descriptor(0, 2))
    else None
  }

  /** The command id that selects a handler. */
  function CallId(c: HandlerCall): (id: u8)
    ensures Lookup(id).Some?
  {
    match c
    case Ping => CMD_PING
    case Reset(_) => CMD_RESET
    case GetInfo => CMD_GET_INFO
    case GetMemory => CMD_GET_MEMORY
    case SetTimer(_, _, _) => CMD_SET_TIMER
    case GetBatteryStatus => CMD_GET_BATTERY_STATUS
  }

  /** The parameter bytes a host puts in a packet to request call c, in
      declared field order with multi-byte fields little-endian. */
  function EncodeParams(c: HandlerCall): (ps: seq<u8>)
    ensures |ps| == Lookup(CallId(c)).value.paramLen as int
  {
    match c
    case Reset(kind) => [kind]
    case SetTimer(handle, interval, oneshot) => [handle] + EncodeLE(interval, 2) + [oneshot]
    case _ => []
  }

  /** What the transport guarantees of the buffer it hands over: the four
      header bytes and as many parameter bytes as the length byte says. */
  predicate WellFormed(pkt: seq<u8>)
  {
    |pkt| >= 4 && |pkt| >= 4 + pkt[1] as int
  }

  /** A reply frame as every branch of the router builds it: a Command frame
      echoing the request's class and command bytes, whose length argument
      is the size of its payload and the reply length of its command. */
  predicate ReplyShaped(pkt: seq<u8>, f: Frame)
    requires WellFormed(pkt)
  {
    && f.kind == Command
    && f.cls == pkt[2]
    && f.cmd == pkt[3]
    && Lookup(pkt[3]).Some?
    && f.length as int == |f.payload| == Lookup(pkt[3]).value.replyLen as int
  }

  /** A reply to the request in pkt carrying the given payload. */
  function Reply(pkt: seq<u8>, length: u8, payload: seq<u8>): (f: Frame)
    requires WellFormed(pkt)
  {
    Frame(Command, length, pkt[2], pkt[3], payload)
  }

  /** `process_protocol_command_system`: one inbound packet in, one outcome out. */
  function Process(pkt: seq<u8>, h: Handlers): (o: Outcome)
    requires WellFormed(pkt)
    // unknown ids are rejected as such, known ids of the wrong length as such
    ensures (o.status == InvalidCommand) <==> Lookup(pkt[3]).None?
    ensures (o.status == ParameterLength) <==>
              (Lookup(pkt[3]).Some? && pkt[1] != Lookup(pkt[3]).value.paramLen)
    // validation precedes every effect
    ensures o.status != Success ==> o.call.None? && o.reply.None?
    // a valid request calls exactly the handler of its command id
    ensures o.status == Success ==> o.call.Some? && CallId(o.call.value) == pkt[3]
    // at most one frame, correctly shaped, and only after a handler call
    ensures o.reply.Some? ==> o.call.Some? && ReplyShaped(pkt, o.reply.value)
    // a valid request goes unanswered exactly when reset returns the sentinel
    ensures (o.status == Success && o.reply.None?) <==>
              (pkt[3] == CMD_RESET && pkt[1] == 1 && h.reset(pkt[4]) == NO_REPLY)
  {
    var len, cmd := pkt[1], pkt[3];
    if cmd == CMD_PING then
      if len != 0 then Outcome(ParameterLength, None, None)
      else
        var out := h.ping();
        Outcome(Success, Some(Ping), Some(Reply(pkt, 4, U32Bytes(out.uptime))))
    else if cmd == CMD_RESET then
      if len != 1 then Outcome(ParameterLength, None, None)
      else
        var result := h.reset(pkt[4]);
        if result != NO_REPLY then
          Outcome(Success, Some(Reset(pkt[4])), Some(Reply(pkt, 2, U16Bytes(result))))
        else
          Outcome(Success, Some(Reset(pkt[4])), None)
    else if cmd == CMD_GET_INFO then
      if len != 0 then Outcome(ParameterLength, None, None)
      else
        var out := h.getInfo();
        Outcome(Success, Some(GetInfo),
                Some(Reply(pkt, 7, [out.major, out.minor, out.patch] + U32Bytes(out.timestamp))))
    else if cmd == CMD_GET_MEMORY then
      if len != 0 then Outcome(ParameterLength, None, None)
      else
        var out := h.getMemory();
        Outcome(Success, Some(GetMemory),
                Some(Reply(pkt, 8, U32Bytes(out.freeRam) + U32Bytes(out.totalRam))))
    else if cmd == CMD_SET_TIMER then
      if len != 4 then Outcome(ParameterLength, None, None)
      else
        var handle, interval, oneshot := pkt[4], OrShift8(pkt[5], pkt[6]), pkt[7];
        var result := h.setTimer(handle, interval, oneshot);
        Outcome(Success, Some(SetTimer(handle, interval, oneshot)), Some(Reply(pkt, 2, U16Bytes(result))))
    else if cmd == CMD_GET_BATTERY_STATUS then
      if len != 0 then Outcome(ParameterLength, None, None)
      else
        var out := h.getBatteryStatus();
        Outcome(Success, Some(GetBatteryStatus), Some(Reply(pkt, 2, [out.status, out.level])))
    else
      Outcome(InvalidCommand, None, None)
  }

  // ---------------------------------------------------------------------
  // Properties relating the router to the command table, the parameter
  // encoding and the reply encoding.
  // ---------------------------------------------------------------------

  /** The status depends on the packet alone: a correctly sized known command
      returns Success whatever its handler's result code. */
  lemma StatusIgnoresHandlers(pkt: seq<u8>, h1: Handlers, h2: Handlers)
    requires WellFormed(pkt)
    ensures Process(pkt, h1).status == Process(pkt, h2).status
    ensures Process(pkt, h1).status == Success <==>
              (Lookup(pkt[3]).Some? && pkt[1] == Lookup(pkt[3]).value.paramLen)
  {
  }

  /** The handler is called with exactly the call whose parameter encoding is
      the packet's parameter bytes, so the decoding loses nothing. */
  lemma {:induction false} CallDecodesParams(pkt: seq<u8>, h: Handlers)
    requires WellFormed(pkt)
    requires Process(pkt, h).status == Success
    ensures Process(pkt, h).call.Some?
    ensures EncodeParams(Process(pkt, h).call.value) == pkt[4..4 + pkt[1] as int]
  {
    if pkt[3] == CMD_SET_TIMER {
      var ps := pkt[5..7];
      assert ps == [pkt[5], pkt[6]];
      EncodeDecode(ps);
      assert pkt[4..8] == [pkt[4]] + ps + [pkt[7]];
    }
  }

  /** Two packets requesting the same command with the same parameter bytes
      lead to the same handler call: decoding is a function of those bytes. */
  lemma SameParamsSameCall(pkt1: seq<u8>, pkt2: seq<u8>, h: Handlers)
    requires WellFormed(pkt1) && WellFormed(pkt2)
    requires Process(pkt1, h).status == Success && Process(pkt2, h).status == Success
    requires pkt1[3] == pkt2[3]
    requires pkt1[4..4 + pkt1[1] as int] == pkt2[4..4 + pkt2[1] as int]
    ensures Process(pkt1, h).call == Process(pkt2, h).call
  {
    StatusIgnoresHandlers(pkt1, h, h);
    StatusIgnoresHandlers(pkt2, h, h);
    var ps1, ps2 := pkt1[4..4 + pkt1[1] as int], pkt2[4..4 + pkt2[1] as int];
    if pkt1[3] == CMD_SET_TIMER {
      assert ps1[0] == pkt1[4] && ps1[1] == pkt1[5] && ps1[2] == pkt1[6] && ps1[3] == pkt1[7];
      assert ps2[0] == pkt2[4] && ps2[1] == pkt2[5] && ps2[2] == pkt2[6] && ps2[3] == pkt2[7];
    } else if pkt1[3] == CMD_RESET {
      assert ps1[0] == pkt1[4] && ps2[0] == pkt2[4];
    }
  }

  /** ping replies with its uptime as 4 little-endian bytes. */
  lemma PingReply(pkt: seq<u8>, h: Handlers)
    requires WellFormed(pkt) && pkt[3] == CMD_PING && pkt[1] == 0
    ensures Process(pkt, h).reply == Some(Reply(pkt, 4, EncodeLE(h.ping().uptime, 4)))
    ensures DecodeLE(Process(pkt, h).reply.value.payload) == h.ping().uptime
  {
  }

  /** The ping reply never carries the handler's result code: handlers that
      agree on the uptime produce the same outcome. */
  lemma PingIgnoresResult(pkt: seq<u8>, h1: Handlers, h2: Handlers)
    requires WellFormed(pkt) && pkt[3] == CMD_PING
    requires h1.ping().uptime == h2.ping().uptime
    ensures Process(pkt, h1) == Process(pkt, h2)
  {
  }

  /** reset sends nothing exactly when its handler returns the sentinel, and
      otherwise replies with the result as 2 little-endian bytes. */
  lemma ResetReply(pkt: seq<u8>, h: Handlers)
    requires WellFormed(pkt) && pkt[3] == CMD_RESET && pkt[1] == 1
    ensures Process(pkt, h).call == Some(Reset(pkt[4]))
    ensures Process(pkt, h).reply.None? <==> h.reset(pkt[4]) == NO_REPLY
    ensures h.reset(pkt[4]) != NO_REPLY ==>
              Process(pkt, h).reply == Some(Reply(pkt, 2, EncodeLE(h.reset(pkt[4]), 2)))
              && DecodeLE(Process(pkt, h).reply.value.payload) == h.reset(pkt[4])
  {
  }

  /** get_info replies with major, minor, patch, then the timestamp in 4
      little-endian bytes, with no padding. */
  lemma GetInfoReply(pkt: seq<u8>, h: Handlers)
    requires WellFormed(pkt) && pkt[3] == CMD_GET_INFO && pkt[1] == 0
    ensures Process(pkt, h).reply.Some?
    ensures var out, p := h.getInfo(), Process(pkt, h).reply.value.payload;
      && p == [out.major, out.minor, out.patch] + EncodeLE(out.timestamp, 4)
      && DecodeLE(p[3..]) == out.timestamp
  {
    var out := h.getInfo();
    var p := Process(pkt, h).reply.value.payload;
    assert p[3..] == U32Bytes(out.timestamp);
  }

  /** get_memory replies with free_ram, then total_ram, each in 4
      little-endian bytes. */
  lemma GetMemoryReply(pkt: seq<u8>, h: Handlers)
    requires WellFormed(pkt) && pkt[3] == CMD_GET_MEMORY && pkt[1] == 0
    ensures Process(pkt, h).reply.Some?
    ensures var out, p := h.getMemory(), Process(pkt, h).reply.value.payload;
      && p == EncodeLE(out.freeRam, 4) + EncodeLE(out.totalRam, 4)
      && DecodeLE(p[..4]) == out.freeRam
      && DecodeLE(p[4..]) == out.totalRam
  {
    var out := h.getMemory();
    var p := Process(pkt, h).reply.value.payload;
    assert p[..4] == U32Bytes(out.freeRam);
    assert p[4..] == U32Bytes(out.totalRam);
  }

  /** set_timer passes handle = byte 4, interval = bytes 5-6 little-endian
      and oneshot = byte 7, and always replies with the handler's result in
      2 little-endian bytes, the sentinel value included. */
  lemma SetTimerReply(pkt: seq<u8>, h: Handlers)
    requires WellFormed(pkt) && pkt[3] == CMD_SET_TIMER && pkt[1] == 4
    ensures Process(pkt, h).call.Some? && Process(pkt, h).call.value.SetTimer?
    ensures var c := Process(pkt, h).call.value;
      && c.handle == pkt[4]
      && c.interval == pkt[5] as int + 256 * pkt[6] as int
      && EncodeLE(c.interval, 2) == pkt[5..7]
      && c.oneshot == pkt[7]
      && Process(pkt, h).reply ==
           Some(Reply(pkt, 2, EncodeLE(h.setTimer(c.handle, c.interval, c.oneshot), 2)))
  {
    var c := Process(pkt, h).call.value;
    DecodeTwo(pkt[5], pkt[6]);
    assert pkt[5..7] == [pkt[5], pkt[6]];
    EncodeDecode(pkt[5..7]);
  }

  /** get_battery_status replies with status, then level. */
  lemma GetBatteryStatusReply(pkt: seq<u8>, h: Handlers)
    requires WellFormed(pkt) && pkt[3] == CMD_GET_BATTERY_STATUS && pkt[1] == 0
    ensures Process(pkt, h).reply ==
              Some(Reply(pkt, 2, [h.getBatteryStatus().status, h.getBatteryStatus().level]))
  {
  }
}
