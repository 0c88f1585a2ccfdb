/** The server control plane and its service loop as values: one transition
    function per operation. What the capture process does (spawn, stop, read and
    exit) is told by parameters and may fail at every call. */
module ServerModel {
  import opened Machine
  import opened Wire
  import opened WireCodec
  import opened SessionIds
  import opened Capture

  const HEARTBEAT_TIMEOUT: nat := 30 * SECOND
  const CAPTURE_RETRY_INTERVAL: nat := 5 * SECOND

  datatype ServerPhase = Idle | Starting | Streaming

  datatype Server = Server(
    capture: Handle,
    order: Option<U64>,
    phase: ServerPhase,
    lastActive: Option<U64>,
    lastHeartbeat: Option<Instant>,
    nextRetry: Option<Instant>,
    retryAttempt: U32)

  const NEW_SERVER := Server(NO_CAPTURE, None, Idle, None, None, None, 0)

  /** What the capture hardware does during one call. */
  datatype Hardware = Hardware(spawn: Option<Pipe>, stopOk: bool, observedAt: nat, exit: Exit)

  datatype ServerError = BadPacket(error: ProtocolError) | UnexpectedAck(sessionId: U64) | CaptureStopFailed

  datatype Moved<T> = Moved(server: Server, result: Result<T, ServerError>)

  function ScheduleRetry(s: Server, now: Instant): Server
  {
    s.(phase := Starting, retryAttempt := if s.retryAttempt < U32_MAX then s.retryAttempt + 1 else U32_MAX,
       nextRetry := Some(now + CAPTURE_RETRY_INTERVAL))
  }

  function TryStart(s: Server, now: Instant, hw: Hardware): Server
  {
    var (capture, started) := StartCapture(s.capture, hw.spawn);
    var tried := s.(capture := capture);
    if started.Ok? then tried.(phase := Streaming, nextRetry := None, retryAttempt := 0)
    else ScheduleRetry(tried, now)
  }

  /** The state is idle even when stopping the process fails. */
  function StopAndIdle(s: Server, hw: Hardware): Moved<()>
  {
    var (capture, stopped) := StopCapture(s.capture, hw.stopOk);
    Moved(s.(phase := Idle, lastHeartbeat := None, nextRetry := None, retryAttempt := 0, capture := capture),
          if stopped.Ok? then Ok(()) else Err(CaptureStopFailed))
  }

  predicate TimedOut(s: Server, now: Instant)
  {
    s.lastHeartbeat.Some? && SatSub(now, s.lastHeartbeat.value) >= HEARTBEAT_TIMEOUT
  }

  function Advance(s: Server, now: Instant, hw: Hardware): Moved<()>
  {
    if TimedOut(s, now) then if s.lastActive.Some? then StopAndIdle(s, hw) else Moved(s, Ok(()))
    else if s.phase.Starting? && s.nextRetry.Some? && now >= s.nextRetry.value then Moved(TryStart(s, now, hw), Ok(()))
    else Moved(s, Ok(()))
  }

  /** How long the loop may block on the socket; None is forever. */
  function ReadTimeout(s: Server, now: Instant, streamingPoll: nat): Option<nat>
  {
    match s.phase
    case Idle => None
    case Starting =>
      Some(Max(if s.nextRetry.Some? then SatSub(s.nextRetry.value, now) else streamingPoll, streamingPoll))
    case Streaming => Some(streamingPoll)
  }

  // ------------------------------------------------------------ messages

  function HandleStart(s: Server, id: U64, now: Instant, hw: Hardware): Moved<Option<ControlMessage>>
  {
    if !IsNewerSession(s.order, id) then Moved(s, Ok(None))
    else
      var taken := s.(order := Some(id), lastActive := Some(id), lastHeartbeat := Some(now));
      var after :=
        match s.phase
        case Idle => TryStart(taken.(phase := Starting, retryAttempt := 0), now, hw)
        case Starting => taken.(retryAttempt := 0, nextRetry := Some(now + CAPTURE_RETRY_INTERVAL))
        case Streaming => taken;
      Moved(after, Ok(Some(Ack(id, START_TAG))))
  }

  function HandleHeartbeat(s: Server, id: U64, now: Instant): Moved<Option<ControlMessage>>
  {
    if s.lastActive != Some(id) || !s.phase.Streaming? then Moved(s, Ok(None))
    else Moved(s.(lastHeartbeat := Some(now)), Ok(Some(Ack(id, HEARTBEAT_TAG))))
  }

  function HandleStop(s: Server, id: U64, hw: Hardware): Moved<Option<ControlMessage>>
  {
    if s.lastActive != Some(id) then Moved(s, Ok(None))
    else if s.phase.Idle? then Moved(s, Ok(Some(Ack(id, STOP_TAG))))
    else
      var stopped := StopAndIdle(s, hw);
      Moved(stopped.server, if stopped.result.Ok? then Ok(Some(Ack(id, STOP_TAG))) else Err(stopped.result.error))
  }

  function HandleMessage(s: Server, m: ControlMessage, now: Instant, hw: Hardware): Moved<Option<ControlMessage>>
  {
    match m
    case Start(id) => HandleStart(s, id, now, hw)
    case Heartbeat(id) => HandleHeartbeat(s, id, now)
    case Stop(id) => HandleStop(s, id, hw)
    case Ack(id, _) => Moved(s, Err(UnexpectedAck(id)))
  }

  function HandleDatagram(s: Server, packet: Bytes, now: Instant, hw: Hardware): Moved<Option<ControlMessage>>
  {
    var advanced := Advance(s, now, hw);
    if advanced.result.Err? then Moved(advanced.server, Err(advanced.result.error))
    else match ParseControl(packet)
      case Err(e) => Moved(advanced.server, Err(BadPacket(e)))
      case Ok(m) => HandleMessage(advanced.server, m, now, hw)
  }

  /** The next frame of the active session. A failed read schedules a restart and yields nothing. */
  function NextAudioFrame(s: Server, sequence: U32, now: Instant, hw: Hardware): (Server, Option<AudioFrame>)
  {
    if s.lastActive.None? || !s.phase.Streaming? then (s, None)
    else
      var (capture, read) := ReadCapture(s.capture, hw.observedAt, hw.exit);
      var after := s.(capture := capture);
      match read
      case Err(_) => (ScheduleRetry(after, now), None)
      case Ok(captured) => (after, Some(NewAudioFrame(s.lastActive.value, sequence, captured.pcm)))
  }

  // ------------------------------------------------------------ the service loop

  type Endpoint = nat

  datatype Loop = Loop(control: Server, peer: Option<Endpoint>, sequence: U32)

  datatype Addressed = Addressed(packet: Packet, destination: Endpoint)

  /** What the loop does next: the rest of the iteration, the next one, or leave. */
  datatype Onward = Proceed | Continue | Exit

  datatype Looped = Looped(loop: Loop, sent: seq<Addressed>, onward: Onward)

  const NEW_LOOP := Loop(NEW_SERVER, None, 0)

  /** One datagram; t2 and t3 are the wall clock readings for a probe reply. */
  function ServeDatagram(l: Loop, packet: Bytes, source: Endpoint, now: Instant, t2: U64, t3: U64, hw: Hardware): Looped
  {
    if packet != [] && packet[0] == CALIBRATION_PROBE_TAG then
      match ParseCalibration(packet)
      case Ok(Probe(sequence, t1)) =>
        Looped(l, [Addressed(Calibrate(Reply(sequence, t1, t2, t3)), source)], Continue)
      case _ => Looped(l, [], Continue)
    else
      var handled := HandleDatagram(l.control, packet, now, hw);
      var after := l.(control := handled.server);
      match handled.result
      case Err(CaptureStopFailed) => Looped(after, [], Exit)
      case Err(_) => Looped(after, [], Proceed)
      case Ok(None) => Looped(after, [], Proceed)
      case Ok(Some(ack)) =>
        var message := ParseControl(packet);
        var routed :=
          if message.Ok? && message.value.Start? then after.(peer := Some(source), sequence := 0)
          else if message.Ok? && message.value.Stop? then after.(peer := None)
          else after;
        Looped(routed, [Addressed(Control(ack), source)], Proceed)
  }

  function ServeTimers(l: Loop, now: Instant, hw: Hardware): Looped
  {
    var advanced := Advance(l.control, now, hw);
    Looped(l.(control := advanced.server), [], if advanced.result.Ok? then Proceed else Exit)
  }

  function ServeAudio(l: Loop, now: Instant, hw: Hardware): Looped
  {
    if l.peer.None? then Looped(l, [], Proceed)
    else
      var (control, frame) := NextAudioFrame(l.control, l.sequence, now, hw);
      match frame
      case None => Looped(l.(control := control), [], Proceed)
      case Some(f) =>
        Looped(l.(control := control, sequence := WrapNext(l.sequence)), [Addressed(Audio(f), l.peer.value)], Proceed)
  }
}
