/** The router as the source runs it: one pass through the command switch
    with a local `protocol_error`, handler calls that write their outputs
    through out-parameters, and `send_keyglove_packet` called as a side
    effect. The handlers and the packet writer are foreign code; what the
    router does to them is recorded, in order, in the `effects` trace of a
    `Router`. `ProcessCommandSystem` is proved to do exactly what
    `KgapiSystem.Process` describes. */
module KgapiSystemRouter {
  import opened LittleEndian
  import opened Options
  import opened KgapiSystem

  /** One observable action of the router: a handler call or a sent frame. */
  datatype Effect = Invoked(call: HandlerCall) | Sent(frame: Frame)

  /** The actions an outcome stands for: the handler call, then the reply. */
  function Effects(o: Outcome): (es: seq<Effect>)
    ensures |es| == (if o.call.Some? then 1 else 0) + (if o.reply.Some? then 1 else 0)
    ensures o.call.Some? ==> es[0] == Invoked(o.call.value)
    ensures o.reply.Some? ==> es[|es| - 1] == Sent(o.reply.value)
  {
    (if o.call.Some? then [Invoked(o.call.value)] else [])
      + (if o.reply.Some? then [Sent(o.reply.value)] else [])
  }

  /** A call of the router sends at most one frame, only after calling a
      handler, and that frame is a correctly shaped reply. */
  lemma AtMostOneFrame(pkt: seq<u8>, h: Handlers)
    requires WellFormed(pkt)
    ensures var es := Effects(Process(pkt, h));
      && |es| <= 2
      && (forall i :: 0 <= i < |es| && es[i].Sent? ==> i == |es| - 1 && es[0].Invoked?)
      && (forall i :: 0 <= i < |es| && es[i].Sent? ==> ReplyShaped(pkt, es[i].frame))
  {
  }

  class Router {
    /** Everything the router has done to its collaborators, oldest first. */
    var effects: seq<Effect>

    constructor ()
      ensures effects == []
    {
      effects := [];
    }

    /** `send_keyglove_packet`: hands one frame to the transport. */
    method SendKeyglovePacket(kind: PacketType, length: u8, cls: u8, cmd: u8, payload: seq<u8>)
      modifies this
      ensures effects == old(effects) + [Sent(Frame(kind, length, cls, cmd, payload))]
    {
      effects := effects + [Sent(Frame(kind, length, cls, cmd, payload))];
    }

    /** `kg_cmd_system_ping(&uptime)` */
    method CmdPing(h: Handlers) returns (result: u16, uptime: u32)
      modifies this
      ensures PingOut(result, uptime) == h.ping()
      ensures effects == old(effects) + [Invoked(Ping)]
    {
      effects := effects + [Invoked(Ping)];
      var out := h.ping();
      result, uptime := out.result, out.uptime;
    }

    /** `kg_cmd_system_reset(type)` */
    method CmdReset(h: Handlers, kind: u8) returns (result: u16)
      modifies this
      ensures result == h.reset(kind)
      ensures effects == old(effects) + [Invoked(Reset(kind))]
    {
      effects := effects + [Invoked(Reset(kind))];
      result := h.reset(kind);
    }

    /** `kg_cmd_system_get_info(&major, &minor, &patch, &timestamp)` */
    method CmdGetInfo(h: Handlers) returns (result: u16, major: u8, minor: u8, patch: u8, timestamp: u32)
      modifies this
      ensures InfoOut(result, major, minor, patch, timestamp) == h.getInfo()
      ensures effects == old(effects) + [Invoked(GetInfo)]
    {
      effects := effects + [Invoked(GetInfo)];
      var out := h.getInfo();
      result, major, minor, patch, timestamp := out.result, out.major, out.minor, out.patch, out.timestamp;
    }

    /** `kg_cmd_system_get_memory(&free_ram, &total_ram)` */
    method CmdGetMemory(h: Handlers) returns (result: u16, freeRam: u32, totalRam: u32)
      modifies this
      ensures MemoryOut(result, freeRam, totalRam) == h.getMemory()
      ensures effects == old(effects) + [Invoked(GetMemory)]
    {
      effects := effects + [Invoked(GetMemory)];
      var out := h.getMemory();
      result, freeRam, totalRam := out.result, out.freeRam, out.totalRam;
    }

    /** `kg_cmd_system_set_timer(handle, interval, oneshot)` */
    method CmdSetTimer(h: Handlers, handle: u8, interval: u16, oneshot: u8) returns (result: u16)
      modifies this
      ensures result == h.setTimer(handle, interval, oneshot)
      ensures effects == old(effects) + [Invoked(SetTimer(handle, interval, oneshot))]
    {
      effects := effects + [Invoked(SetTimer(handle, interval, oneshot))];
      result := h.setTimer(handle, interval, oneshot);
    }

    /** `kg_cmd_system_get_battery_status(&status, &level)` */
    method CmdGetBatteryStatus(h: Handlers) returns (result: u16, status: u8, level: u8)
      modifies this
      ensures BatteryOut(result, status, level) == h.getBatteryStatus()
      ensures effects == old(effects) + [Invoked(GetBatteryStatus)]
    {
      effects := effects + [Invoked(GetBatteryStatus)];
      var out := h.getBatteryStatus();
      result, status, level := out.result, out.status, out.level;
    }

    /** `process_protocol_command_system(rxPacket)`: returns the protocol
        status and appends to the trace exactly the handler call and the
        reply frame that `Process` describes. */
    method ProcessCommandSystem(rxPacket: seq<u8>, h: Handlers) returns (protocolError: ProtocolError)
      requires WellFormed(rxPacket)
      modifies this
      ensures protocolError == Process(rxPacket, h).status
      ensures effects == old(effects) + Effects(Process(rxPacket, h))
    {
      protocolError := Success;
      var cmd := rxPacket[3];
      if cmd == CMD_PING {
        if rxPacket[1] != 0 {
          protocolError := ParameterLength;
        } else {
          var result, uptime := CmdPing(h);
          var payload := U32Bytes(uptime);
          SendKeyglovePacket(Command, 4, rxPacket[2], rxPacket[3], payload);
        }
      } else if cmd == CMD_RESET {
        if rxPacket[1] != 1 {
          protocolError := ParameterLength;
        } else {
          var result := CmdReset(h, rxPacket[4]);
          if result != NO_REPLY {
            var payload := U16Bytes(result);
            SendKeyglovePacket(Command, 2, rxPacket[2], rxPacket[3], payload);
          }
        }
      } else if cmd == CMD_GET_INFO {
        if rxPacket[1] != 0 {
          protocolError := ParameterLength;
        } else {
          var result, major, minor, patch, timestamp := CmdGetInfo(h);
          var payload := [major, minor, patch] + U32Bytes(timestamp);
          SendKeyglovePacket(Command, 7, rxPacket[2], rxPacket[3], payload);
        }
      } else if cmd == CMD_GET_MEMORY {
        if rxPacket[1] != 0 {
          protocolError := ParameterLength;
        } else {
          var result, freeRam, totalRam := CmdGetMemory(h);
          var payload := U32Bytes(freeRam) + U32Bytes(totalRam);
          SendKeyglovePacket(Command, 8, rxPacket[2], rxPacket[3], payload);
        }
      } else if cmd == CMD_SET_TIMER {
        if rxPacket[1] != 4 {
          protocolError := ParameterLength;
        } else {
          var result := CmdSetTimer(h, rxPacket[4], OrShift8(rxPacket[5], rxPacket[6]), rxPacket[7]);
          var payload := U16Bytes(result);
          SendKeyglovePacket(Command, 2, rxPacket[2], rxPacket[3], payload);
        }
      } else if cmd == CMD_GET_BATTERY_STATUS {
        if rxPacket[1] != 0 {
          protocolError := ParameterLength;
        } else {
          var result, status, level := CmdGetBatteryStatus(h);
          var payload := [status, level];
          SendKeyglovePacket(Command, 2, rxPacket[2], rxPacket[3], payload);
        }
      } else {
        protocolError := InvalidCommand;
      }
    }
  }
}
