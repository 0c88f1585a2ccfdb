/** Both machines and the network between them. The network is a set of datagrams
    sent so far: any of them may be delivered at any time, in any order, any
    number of times or never, but none is ever forged. */
module System {
  import opened Machine
  import opened Wire
  import opened WireCodec
  import opened Capture
  import opened SessionIds
  import ClientModel
  import ClientInvariant
  import ServerModel

  datatype InFlight = InFlight(packet: Packet, sentAt: Instant)

  /** One audio frame the server sent, and where in which capture stream it was cut. */
  datatype SentFrame = SentFrame(frame: AudioFrame, pid: nat, offset: nat)

  datatype System = System(
    clock: Instant,
    client: ClientModel.Client,
    server: ServerModel.Loop,
    toServer: set<InFlight>,
    toClient: set<InFlight>,
    // history
    startAcks: seq<U64>,            // sessions of the Start Acks emitted, in order
    streams: seq<Bytes>,            // what capture process k writes
    sentLog: seq<SentFrame>,        // audio frames sent, in order
    played: seq<AudioFrame>,        // audio frames rendered, in order
    ackAt: Instant)                 // emission time of the last Ack that the client took

  const INITIAL := System(0, ClientModel.Fresh(0), ServerModel.NEW_LOOP, {}, {}, [], [], [], [], 0)

  /** The one client address. */
  const CLIENT: ServerModel.Endpoint := 0

  datatype Action =
    | Pass(time: nat)
    | ClientStart(epochMs: U64, startOk: bool)
    | ClientStop(stopOk: bool)
    | ClientAdvance(supply: ClientModel.Supply)
    | ClientRender(renderOk: bool)
    | ToClient(datagram: InFlight, t4: U64)
    | ToServer(request: InFlight, t2: U64, t3: U64, hw: ServerModel.Hardware)
    | ServerTimers(timersHw: ServerModel.Hardware)
    | ServerAudio(audioHw: ServerModel.Hardware)

  /** The capture process a launch would yield: the next unused one, unread. */
  predicate NewProcess(s: System, hw: ServerModel.Hardware)
  {
    hw.spawn.Some? ==> hw.spawn.value.pid == |s.streams| && hw.spawn.value.position == 0
  }

  /** Only datagrams that were sent can be delivered. */
  predicate Enabled(s: System, a: Action)
  {
    match a
    case ToClient(d, _) => d in s.toClient
    case ToServer(d, _, _, hw) => d in s.toServer && NewProcess(s, hw)
    case ServerTimers(hw) => NewProcess(s, hw)
    case ServerAudio(hw) => NewProcess(s, hw)
    case _ => true
  }

  function Stamp(packets: seq<Packet>, at: Instant): set<InFlight>
  {
    set p | p in packets :: InFlight(p, at)
  }

  function Payloads(sent: seq<ServerModel.Addressed>): seq<Packet>
  {
    seq(|sent|, i requires 0 <= i < |sent| => sent[i].packet)
  }

  /** Packets that a failed send did not deliver are added too: being in the set
      obliges no delivery. */
  function ClientMoves(s: System, client: ClientModel.Client, sent: seq<Packet>): System
  {
    s.(client := client, toServer := s.toServer + Stamp(sent, s.clock))
  }

  function Offered(streams: seq<Bytes>, hw: ServerModel.Hardware): seq<Bytes>
  {
    if hw.spawn.Some? then streams + [hw.spawn.value.stream] else streams
  }

  function ServerMoves(s: System, looped: ServerModel.Looped, hw: ServerModel.Hardware): System
  {
    s.(server := looped.loop, toClient := s.toClient + Stamp(Payloads(looped.sent), s.clock),
       streams := Offered(s.streams, hw))
  }

  function StartAckOf(p: Packet): seq<U64>
  {
    if p.Control? && p.message.Ack? && p.message.ackedKind == START_TAG then [p.message.sessionId] else []
  }

  /** The Start Acks among what the server sent. */
  function StartAcksIn(sent: seq<ServerModel.Addressed>): seq<U64>
  {
    if sent == [] then [] else StartAckOf(sent[0].packet) + StartAcksIn(sent[1..])
  }

  function SentFrameOf(p: Packet, pid: nat, offset: nat): seq<SentFrame>
  {
    if p.Audio? then [SentFrame(p.frame, pid, offset)] else []
  }

  function AudioIn(sent: seq<ServerModel.Addressed>, pid: nat, offset: nat): seq<SentFrame>
  {
    if sent == [] then [] else SentFrameOf(sent[0].packet, pid, offset) + AudioIn(sent[1..], pid, offset)
  }

  /** What a turn of the loop adds to the log, given the process it read from. */
  function LoggedBy(cut: Option<Pipe>, sent: seq<ServerModel.Addressed>): seq<SentFrame>
  {
    if cut.Some? then AudioIn(sent, cut.value.pid, cut.value.position) else []
  }

  function Step(s: System, a: Action): System
  {
    match a
    case Pass(time) => s.(clock := s.clock + time)
    case ClientStart(epochMs, ok) =>
      var m := ClientModel.StartRun(s.client, s.clock, epochMs, ok);
      ClientMoves(s, m.client, m.sent)
    case ClientStop(ok) =>
      var m := ClientModel.StopRun(s.client, ok);
      ClientMoves(s, m.client, m.sent)
    case ClientAdvance(supply) =>
      var m := ClientModel.Advance(s.client, s.clock, supply);
      ClientMoves(s, m.client, m.sent)
    case ClientRender(ok) =>
      var r := ClientModel.RenderReady(s.client, s.clock, ok);
      s.(client := r.client,
         played := if r.result == Ok(ClientModel.AudioRendered) then s.played + [r.frame.value] else s.played)
    case ToClient(d, t4) =>
      var r := ClientModel.Receive(s.client, PacketBytes(d.packet), s.clock, t4);
      s.(client := r.client,
         ackAt := if r.result.Ok? && (r.result.value.StartAck? || r.result.value.HeartbeatAck?) then d.sentAt
                  else s.ackAt)
    case ToServer(d, t2, t3, hw) =>
      var looped := ServerModel.ServeDatagram(s.server, PacketBytes(d.packet), CLIENT, s.clock, t2, t3, hw);
      ServerMoves(s, looped, hw).(startAcks := s.startAcks + StartAcksIn(looped.sent))
    case ServerTimers(hw) => ServerMoves(s, ServerModel.ServeTimers(s.server, s.clock, hw), hw)
    case ServerAudio(hw) =>
      var looped := ServerModel.ServeAudio(s.server, s.clock, hw);
      ServerMoves(s, looped, hw).(
        sentLog := s.sentLog + LoggedBy(s.server.control.capture.process, looped.sent))
  }

  function Run(actions: seq<Action>): System
  {
    if actions == [] then INITIAL else Step(Run(actions[..|actions| - 1]), actions[|actions| - 1])
  }

  predicate Legal(actions: seq<Action>)
  {
    actions == [] ||
    (Legal(actions[..|actions| - 1]) && Enabled(Run(actions[..|actions| - 1]), actions[|actions| - 1]))
  }
}
