/** The client control plane as a value: one transition function per operation.
    Instants are nanoseconds on one clock; a send either succeeds or fails, as
    told by a parameter, and the packets attempted are part of the result. */
module ClientModel {
  import opened Machine
  import opened Wire
  import opened WireCodec
  import opened SessionIds
  import opened Calibration
  import opened JitterModel

  const HEARTBEAT_INTERVAL: nat := 5 * SECOND
  const RECONNECT_RETRY_INTERVAL: nat := 5 * SECOND
  const START_ACK_TIMEOUT: nat := 5 * SECOND
  const RECALIBRATION_INTERVAL: nat := 30 * SECOND
  const MAX_MISSED_HEARTBEATS: U8 := 2

  datatype ClientPhase = Establishing | Streaming | Unreachable | Stopped

  datatype Client = Client(
    origin: Instant,
    jitter: Jitter,
    lastIssued: U64,
    phase: ClientPhase,
    pending: Option<U64>,
    accepted: Option<U64>,
    startDeadline: Option<Instant>,
    nextHeartbeat: Option<Instant>,
    nextRetry: Option<Instant>,
    missed: U8,
    nextCalibration: Option<Instant>,
    calibrationSequence: U32,
    outstanding: Option<U32>,
    offset: Option<I64>)

  function Fresh(origin: Instant): Client
  {
    Client(origin, EMPTY, 0, Establishing, None, None, None, None, None, 0, None, 0, None, None)
  }

  datatype ClientError = TransportFailed | BadPacket(error: ProtocolError) | IdsExhausted | RenderFailed

  datatype Inbound =
    | StartAck(sessionId: U64)
    | HeartbeatAck(sessionId: U64)
    | IgnoredAck(sessionId: U64)
    | AudioQueued(sessionId: U64, outcome: InsertOutcome)
    | IgnoredAudio(sessionId: U64)
    | IgnoredControl
    | Calibrated(update: CalibrationUpdate)
    | CalibrationRejected

  datatype Moved<T> = Moved(client: Client, sent: seq<Packet>, result: Result<T, ClientError>)

  function Due(deadline: Option<Instant>, now: Instant): bool { deadline.Some? && now >= deadline.value }

  function ElapsedMs(origin: Instant, now: Instant): U64
  {
    Min(SatSub(now, origin) / MILLISECOND, U64_MAX)
  }

  // ------------------------------------------------------------ lifecycle

  function BeginEstablishing(c: Client): Client
  {
    c.(phase := Establishing, pending := None, accepted := None, startDeadline := None,
       nextHeartbeat := None, nextRetry := None, nextCalibration := None, outstanding := None,
       missed := 0, jitter := EMPTY)
  }

  function IssueStart(c: Client, now: Instant, epochMs: U64, ok: bool): Moved<U64>
  {
    match NextSessionId(epochMs, c.lastIssued)
    case Err(_) => Moved(c, [], Err(IdsExhausted))
    case Ok(id) =>
      var issued := c.(lastIssued := id, accepted := None, pending := Some(id),
                       startDeadline := Some(now + START_ACK_TIMEOUT), nextRetry := None, phase := Establishing);
      Moved(issued, [Control(ControlMessage.Start(id))], if ok then Ok(id) else Err(TransportFailed))
  }

  /** `start`, and `restart` which is the same. */
  function StartRun(c: Client, now: Instant, epochMs: U64, ok: bool): Moved<U64>
  {
    IssueStart(BeginEstablishing(c), now, epochMs, ok)
  }

  function CurrentSession(c: Client): Option<U64> { if c.pending.Some? then c.pending else c.accepted }

  function StopRun(c: Client, ok: bool): Moved<()>
  {
    var id := CurrentSession(c);
    var stopped := c.(phase := Stopped, pending := None, accepted := None, startDeadline := None,
                      nextHeartbeat := None, nextRetry := None, outstanding := None, missed := 0, jitter := EMPTY);
    if id.None? then Moved(stopped, [], Ok(()))
    else Moved(stopped, [Control(ControlMessage.Stop(id.value))], if ok then Ok(()) else Err(TransportFailed))
  }

  // ------------------------------------------------------------ timers

  function MarkUnreachable(c: Client, now: Instant): Client
  {
    if c.phase.Unreachable? then c
    else c.(phase := Unreachable, nextRetry := Some(now + RECONNECT_RETRY_INTERVAL), jitter := EMPTY)
  }

  function MaybeRecalibrate(c: Client, now: Instant, t1: U64, ok: bool): Moved<()>
  {
    if !c.phase.Streaming? || !Due(c.nextCalibration, now) then Moved(c, [], Ok(()))
    else
      var probe := [Calibrate(Probe(c.calibrationSequence, t1))];
      if !ok then Moved(c, probe, Err(TransportFailed))
      else Moved(c.(outstanding := Some(c.calibrationSequence),
                    calibrationSequence := WrapNext(c.calibrationSequence),
                    nextCalibration := Some(now + RECALIBRATION_INTERVAL)), probe, Ok(()))
  }

  function AdvanceStreaming(c: Client, now: Instant, ok: bool): Moved<()>
  {
    if !Due(c.nextHeartbeat, now) || c.accepted.None? then Moved(c, [], Ok(()))
    else
      var heartbeat := [Control(ControlMessage.Heartbeat(c.accepted.value))];
      if !ok then Moved(c, heartbeat, Err(TransportFailed))
      else
        var missed: U8 := if c.missed < 255 then c.missed + 1 else 255;
        var beaten := c.(missed := missed, nextHeartbeat := Some(now + HEARTBEAT_INTERVAL));
        Moved(if missed >= MAX_MISSED_HEARTBEATS then MarkUnreachable(beaten, now) else beaten, heartbeat, Ok(()))
  }

  function DropId(m: Moved<U64>): Moved<()>
  {
    Moved(m.client, m.sent, if m.result.Ok? then Ok(()) else Err(m.result.error))
  }

  /** The part of `advance` after the calibration check. */
  function AdvancePhase(c: Client, now: Instant, epochMs: U64, ok: bool): Moved<()>
  {
    match c.phase
    case Stopped => Moved(c, [], Ok(()))
    case Establishing =>
      if Due(c.startDeadline, now) then DropId(IssueStart(MarkUnreachable(c, now), now, epochMs, ok))
      else Moved(c, [], Ok(()))
    case Unreachable =>
      if Due(c.nextRetry, now) then DropId(IssueStart(c, now, epochMs, ok)) else Moved(c, [], Ok(()))
    case Streaming => AdvanceStreaming(c, now, ok)
  }

  /** What the environment supplies to one `advance`: wall clocks and send results. */
  datatype Supply = Supply(epochMs: U64, t1: U64, probeOk: bool, controlOk: bool)

  function Advance(c: Client, now: Instant, s: Supply): Moved<()>
  {
    var probed := MaybeRecalibrate(c, now, s.t1, s.probeOk);
    if probed.result.Err? then probed
    else
      var moved := AdvancePhase(probed.client, now, s.epochMs, s.controlOk);
      moved.(sent := probed.sent + moved.sent)
  }

  // ------------------------------------------------------------ inbound packets

  function AcceptStart(c: Client, id: U64, now: Instant): Client
  {
    c.(pending := None, accepted := Some(id), startDeadline := None, nextRetry := None, outstanding := None,
       nextHeartbeat := Some(now + HEARTBEAT_INTERVAL), missed := 0, jitter := EMPTY,
       nextCalibration := Some(now + RECALIBRATION_INTERVAL), phase := Streaming)
  }

  function AcceptHeartbeat(c: Client, now: Instant): Client
  {
    c.(phase := Streaming, nextRetry := None, nextHeartbeat := Some(now + HEARTBEAT_INTERVAL), missed := 0)
  }

  datatype Received = Received(client: Client, result: Result<Inbound, ClientError>)

  function ReceiveMessage(c: Client, m: ControlMessage, now: Instant): Received
  {
    if !m.Ack? then Received(c, Ok(IgnoredControl))
    else if m.ackedKind == START_TAG && c.pending == Some(m.sessionId) then
      Received(AcceptStart(c, m.sessionId, now), Ok(StartAck(m.sessionId)))
    else if m.ackedKind == HEARTBEAT_TAG && c.accepted == Some(m.sessionId)
            && (c.phase.Streaming? || c.phase.Unreachable?) then
      Received(AcceptHeartbeat(c, now), Ok(HeartbeatAck(m.sessionId)))
    else Received(c, Ok(IgnoredAck(m.sessionId)))
  }

  function ReceiveFrame(c: Client, f: AudioFrame, now: Instant): Received
  {
    if !c.phase.Streaming? || c.accepted != Some(f.sessionId) then Received(c, Ok(IgnoredAudio(f.sessionId)))
    else
      var pushed := JitterModel.Push(c.jitter, f, ElapsedMs(c.origin, now));
      Received(c.(jitter := pushed.buffer), Ok(AudioQueued(f.sessionId, pushed.outcome)))
  }

  function ReceiveReply(c: Client, p: CalibrationPacket, t4: U64): Received
  {
    if p.Probe? || c.outstanding != Some(p.sequence) then Received(c, Ok(CalibrationRejected))
    else
      var heard := c.(outstanding := None);
      match Calibration.Calibrate(NtpSample(p.t1, p.t2, p.t3, t4))
      case Err(_) => Received(heard, Ok(CalibrationRejected))
      case Ok(r) =>
        Received(heard.(offset := Some(r.offset)),
                 Ok(Calibrated(CalibrationUpdate(r.offset, r.errorBound, Unstable(c.offset, r.offset)))))
  }

  /** One datagram from the approved peer; t4 is the wall clock on receipt. */
  function Receive(c: Client, packet: Bytes, now: Instant, t4: U64): Received
  {
    if packet != [] && packet[0] == AUDIO_TAG then
      match ParseAudio(packet)
      case Err(e) => Received(c, Err(BadPacket(e)))
      case Ok(f) => ReceiveFrame(c, f, now)
    else if packet != [] && packet[0] == CALIBRATION_REPLY_TAG then
      match ParseCalibration(packet)
      case Err(_) => Received(c, Ok(CalibrationRejected))
      case Ok(p) => ReceiveReply(c, p, t4)
    else
      match ParseControl(packet)
      case Err(e) => Received(c, Err(BadPacket(e)))
      case Ok(m) => ReceiveMessage(c, m, now)
  }

  // ------------------------------------------------------------ playout

  datatype RenderOutcome = NotReady | AudioRendered | GapRendered

  datatype Rendered = Rendered(client: Client, frame: Option<AudioFrame>, result: Result<RenderOutcome, ClientError>)

  function SlotFrame(item: PlayoutItem): AudioFrame
  {
    match item
    case AudioItem(f) => f
    case GapItem(session, sequence) => NewAudioFrame(session, sequence, Silence())
  }

  function RenderReady(c: Client, now: Instant, renderOk: bool): Rendered
  {
    var polled := JitterModel.Poll(c.jitter, ElapsedMs(c.origin, now));
    var after := c.(jitter := polled.buffer);
    match polled.item
    case None => Rendered(after, None, Ok(NotReady))
    case Some(item) =>
      Rendered(after, Some(SlotFrame(item)),
               if !renderOk then Err(RenderFailed)
               else Ok(if item.AudioItem? then AudioRendered else GapRendered))
  }

  function Earlier(a: Option<Instant>, b: Option<Instant>): Option<Instant>
  {
    if a.None? then b else if b.None? then a else Some(Min(a.value, b.value))
  }

  function StateDeadline(c: Client): Option<Instant>
  {
    match c.phase
    case Stopped => None
    case Establishing => c.startDeadline
    case Unreachable => c.nextRetry
    case Streaming => Earlier(c.nextHeartbeat, c.nextCalibration)
  }

  function PlayoutDeadline(c: Client): Option<Instant>
  {
    if c.jitter.pacing.nextPlayout.None? then None
    else Some(c.origin + c.jitter.pacing.nextPlayout.value * MILLISECOND)
  }

  function NextWakeup(c: Client): Option<Instant> { Earlier(StateDeadline(c), PlayoutDeadline(c)) }
}
