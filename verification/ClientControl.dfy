/** The client's control plane object. It owns the jitter buffer, the session id
    generator and the calibration tracker, and updates its fields in place; every
    method follows its transition function in ClientModel.
    Socket sends and the renderer are stood in for by the boolean parameters. */
module ClientControl {
  import opened Machine
  import opened Wire
  import opened WireCodec
  import opened SessionIds
  import opened Calibration
  import opened JitterBuffers
  import opened ClientModel
  import JitterModel

  class ControlPlane {
    const origin: Instant
    const jitter: JitterBuffer
    const sessionIds: SessionIdGenerator
    const calibration: CalibrationTracker
    var phase: ClientPhase
    var pendingSessionId: Option<U64>
    var acceptedSessionId: Option<U64>
    var startDeadline: Option<Instant>
    var nextHeartbeat: Option<Instant>
    var nextRetry: Option<Instant>
    var missedHeartbeats: U8
    var nextCalibrationAt: Option<Instant>
    var calibrationSequence: U32
    var outstandingSequence: Option<U32>

    function View(): Client
      reads this, jitter, sessionIds, calibration
    {
      Client(origin, jitter.View(), sessionIds.lastIssued, phase, pendingSessionId, acceptedSessionId,
             startDeadline, nextHeartbeat, nextRetry, missedHeartbeats, nextCalibrationAt,
             calibrationSequence, outstandingSequence, calibration.offset)
    }

    constructor (origin: Instant)
      ensures View() == Fresh(origin)
      ensures fresh(jitter) && fresh(sessionIds) && fresh(calibration)
    {
      this.origin := origin;
      jitter := new JitterBuffer();
      sessionIds := new SessionIdGenerator();
      calibration := new CalibrationTracker();
      phase := Establishing;
      pendingSessionId, acceptedSessionId := None, None;
      startDeadline, nextHeartbeat, nextRetry := None, None, None;
      missedHeartbeats := 0;
      nextCalibrationAt, calibrationSequence, outstandingSequence := None, 0, None;
    }

    method BeginEstablishing()
      modifies this, jitter
      ensures View() == ClientModel.BeginEstablishing(old(View()))
    {
      phase := Establishing;
      pendingSessionId := None;
      acceptedSessionId := None;
      startDeadline := None;
      nextHeartbeat := None;
      nextRetry := None;
      nextCalibrationAt := None;
      outstandingSequence := None;
      missedHeartbeats := 0;
      jitter.Clear();
    }

    method IssueStart(now: Instant, epochMs: U64, sendOk: bool)
      returns (sent: seq<Packet>, result: Result<U64, ClientError>)
      modifies this, sessionIds
      ensures Moved(View(), sent, result) == ClientModel.IssueStart(old(View()), now, epochMs, sendOk)
    {
      var id := sessionIds.NextId(epochMs);
      if id.Err? {
        return [], Err(IdsExhausted);
      }
      acceptedSessionId := None;
      pendingSessionId := Some(id.value);
      startDeadline := Some(now + START_ACK_TIMEOUT);
      nextRetry := None;
      phase := Establishing;
      sent := [Control(ControlMessage.Start(id.value))];
      result := if sendOk then Ok(id.value) else Err(TransportFailed);
    }

    method Start(now: Instant, epochMs: U64, sendOk: bool)
      returns (sent: seq<Packet>, result: Result<U64, ClientError>)
      modifies this, jitter, sessionIds
      ensures Moved(View(), sent, result) == ClientModel.StartRun(old(View()), now, epochMs, sendOk)
    {
      BeginEstablishing();
      sent, result := IssueStart(now, epochMs, sendOk);
    }

    method Stop(sendOk: bool) returns (sent: seq<Packet>, result: Result<(), ClientError>)
      modifies this, jitter
      ensures Moved(View(), sent, result) == ClientModel.StopRun(old(View()), sendOk)
    {
      var sessionId := if pendingSessionId.Some? then pendingSessionId else acceptedSessionId;
      sent, result := [], Ok(());
      if sessionId.Some? {
        sent := [Control(ControlMessage.Stop(sessionId.value))];
        result := if sendOk then Ok(()) else Err(TransportFailed);
      }
      phase := Stopped;
      pendingSessionId := None;
      acceptedSessionId := None;
      startDeadline := None;
      nextHeartbeat := None;
      nextRetry := None;
      outstandingSequence := None;
      missedHeartbeats := 0;
      jitter.Clear();
    }

    method MarkUnreachable(now: Instant)
      modifies this, jitter
      ensures View() == ClientModel.MarkUnreachable(old(View()), now)
    {
      if phase.Unreachable? {
        return;
      }
      phase := Unreachable;
      nextRetry := Some(now + RECONNECT_RETRY_INTERVAL);
      jitter.Clear();
    }

    method MaybeRecalibrate(now: Instant, t1: U64, sendOk: bool)
      returns (sent: seq<Packet>, result: Result<(), ClientError>)
      modifies this
      ensures Moved(View(), sent, result) == ClientModel.MaybeRecalibrate(old(View()), now, t1, sendOk)
    {
      if !phase.Streaming? || !Due(nextCalibrationAt, now) {
        return [], Ok(());
      }
      sent := [Packet.Calibrate(Probe(calibrationSequence, t1))];
      if !sendOk {
        return sent, Err(TransportFailed);
      }
      outstandingSequence := Some(calibrationSequence);
      calibrationSequence := WrapNext(calibrationSequence);
      nextCalibrationAt := Some(now + RECALIBRATION_INTERVAL);
      result := Ok(());
    }

    method AdvanceStreaming(now: Instant, sendOk: bool)
      returns (sent: seq<Packet>, result: Result<(), ClientError>)
      modifies this, jitter
      ensures Moved(View(), sent, result) == ClientModel.AdvanceStreaming(old(View()), now, sendOk)
    {
      if !Due(nextHeartbeat, now) || acceptedSessionId.None? {
        return [], Ok(());
      }
      var missed: U8 := if missedHeartbeats < 255 then missedHeartbeats + 1 else 255;
      sent := [Control(ControlMessage.Heartbeat(acceptedSessionId.value))];
      if !sendOk {
        return sent, Err(TransportFailed);
      }
      missedHeartbeats := missed;
      nextHeartbeat := Some(now + HEARTBEAT_INTERVAL);
      if missed >= MAX_MISSED_HEARTBEATS {
        MarkUnreachable(now);
      }
      result := Ok(());
    }

    method Advance(now: Instant, s: Supply) returns (sent: seq<Packet>, result: Result<(), ClientError>)
      modifies this, jitter, sessionIds
      ensures Moved(View(), sent, result) == ClientModel.Advance(old(View()), now, s)
    {
      var probes;
      probes, result := MaybeRecalibrate(now, s.t1, s.probeOk);
      if result.Err? {
        return probes, result;
      }
      ghost var probed := View();
      sent := [];
      match phase {
        case Stopped =>
        case Establishing =>
          if Due(startDeadline, now) {
            MarkUnreachable(now);
            var id;
            sent, id := IssueStart(now, s.epochMs, s.controlOk);
            result := if id.Ok? then Ok(()) else Err(id.error);
          }
        case Unreachable =>
          if Due(nextRetry, now) {
            var id;
            sent, id := IssueStart(now, s.epochMs, s.controlOk);
            result := if id.Ok? then Ok(()) else Err(id.error);
          }
        case Streaming =>
          sent, result := AdvanceStreaming(now, s.controlOk);
      }
      assert Moved(View(), sent, result) == AdvancePhase(probed, now, s.epochMs, s.controlOk);
      sent := probes + sent;
    }

    method AcceptStart(sessionId: U64, now: Instant)
      modifies this, jitter
      ensures View() == ClientModel.AcceptStart(old(View()), sessionId, now)
    {
      pendingSessionId := None;
      acceptedSessionId := Some(sessionId);
      startDeadline := None;
      nextRetry := None;
      outstandingSequence := None;
      nextHeartbeat := Some(now + HEARTBEAT_INTERVAL);
      missedHeartbeats := 0;
      jitter.Clear();
      nextCalibrationAt := Some(now + RECALIBRATION_INTERVAL);
      phase := Streaming;
    }

    method AcceptHeartbeat(now: Instant)
      modifies this
      ensures View() == ClientModel.AcceptHeartbeat(old(View()), now)
    {
      phase := Streaming;
      nextRetry := None;
      nextHeartbeat := Some(now + HEARTBEAT_INTERVAL);
      missedHeartbeats := 0;
    }

    method ReceiveControl(packet: Bytes, now: Instant) returns (result: Result<Inbound, ClientError>)
      modifies this, jitter
      ensures match ParseControl(packet)
        case Err(e) => View() == old(View()) && result == Err(BadPacket(e))
        case Ok(m) => Received(View(), result) == ReceiveMessage(old(View()), m, now)
    {
      var parsed := ParseControl(packet);
      if parsed.Err? {
        return Err(BadPacket(parsed.error));
      }
      var m := parsed.value;
      if !m.Ack? {
        return Ok(IgnoredControl);
      }
      if m.ackedKind == START_TAG && pendingSessionId == Some(m.sessionId) {
        AcceptStart(m.sessionId, now);
        return Ok(StartAck(m.sessionId));
      }
      if m.ackedKind == HEARTBEAT_TAG && acceptedSessionId == Some(m.sessionId)
         && (phase.Streaming? || phase.Unreachable?) {
        AcceptHeartbeat(now);
        return Ok(HeartbeatAck(m.sessionId));
      }
      result := Ok(IgnoredAck(m.sessionId));
    }

    method ReceiveAudio(packet: Bytes, now: Instant) returns (result: Result<Inbound, ClientError>)
      modifies jitter
      ensures match ParseAudio(packet)
        case Err(e) => View() == old(View()) && result == Err(BadPacket(e))
        case Ok(f) => Received(View(), result) == ReceiveFrame(old(View()), f, now)
    {
      var parsed := ParseAudio(packet);
      if parsed.Err? {
        return Err(BadPacket(parsed.error));
      }
      var frame := parsed.value;
      if !phase.Streaming? || acceptedSessionId != Some(frame.sessionId) {
        return Ok(IgnoredAudio(frame.sessionId));
      }
      var outcome := jitter.Push(frame, ElapsedMs(origin, now));
      result := Ok(AudioQueued(frame.sessionId, outcome));
    }

    method ReceiveCalibration(packet: Bytes, t4: U64) returns (result: Result<Inbound, ClientError>)
      modifies this, calibration
      ensures match ParseCalibration(packet)
        case Err(_) => View() == old(View()) && result == Ok(CalibrationRejected)
        case Ok(p) => Received(View(), result) == ReceiveReply(old(View()), p, t4)
    {
      var parsed := ParseCalibration(packet);
      if parsed.Err? || parsed.value.Probe? {
        return Ok(CalibrationRejected);
      }
      var reply := parsed.value;
      if outstandingSequence != Some(reply.sequence) {
        return Ok(CalibrationRejected);
      }
      outstandingSequence := None;
      var sample := Calibration.Calibrate(NtpSample(reply.t1, reply.t2, reply.t3, t4));
      if sample.Err? {
        return Ok(CalibrationRejected);
      }
      var update := calibration.Update(sample.value);
      result := Ok(Calibrated(update));
    }

    method ReceiveDatagram(packet: Bytes, now: Instant, t4: U64) returns (result: Result<Inbound, ClientError>)
      modifies this, jitter, calibration
      ensures Received(View(), result) == Receive(old(View()), packet, now, t4)
    {
      if packet != [] && packet[0] == AUDIO_TAG {
        result := ReceiveAudio(packet, now);
      } else if packet != [] && packet[0] == CALIBRATION_REPLY_TAG {
        result := ReceiveCalibration(packet, t4);
      } else {
        result := ReceiveControl(packet, now);
      }
    }

    /** Polls the jitter buffer; the frame handed to the renderer is an out-parameter. */
    method RenderReady(now: Instant, renderOk: bool)
      returns (frame: Option<AudioFrame>, result: Result<RenderOutcome, ClientError>)
      modifies jitter
      ensures Rendered(View(), frame, result) == ClientModel.RenderReady(old(View()), now, renderOk)
    {
      var item := jitter.Poll(ElapsedMs(origin, now));
      if item.None? {
        return None, Ok(NotReady);
      }
      frame := Some(SlotFrame(item.value));
      if !renderOk {
        return frame, Err(RenderFailed);
      }
      result := Ok(if item.value.AudioItem? then AudioRendered else GapRendered);
    }
  }
}
