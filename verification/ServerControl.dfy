/** The server's control plane object and service loop, updating their fields in
    place along the transition functions of ServerModel. */
module ServerControl {
  import opened Machine
  import opened Wire
  import opened WireCodec
  import opened SessionIds
  import opened Capture
  import opened ServerModel

  class ControlPlane {
    const capture: CaptureHandle
    const sessionOrder: SessionOrder
    var phase: ServerPhase
    var lastActiveSessionId: Option<U64>
    var lastHeartbeatAt: Option<Instant>
    var nextRetryAt: Option<Instant>
    var retryAttempt: U32

    function View(): Server
      reads this, capture, sessionOrder
    {
      Server(capture.View(), sessionOrder.lastAccepted, phase, lastActiveSessionId, lastHeartbeatAt,
             nextRetryAt, retryAttempt)
    }

    constructor ()
      ensures View() == NEW_SERVER && fresh(capture) && fresh(sessionOrder)
    {
      capture := new CaptureHandle();
      sessionOrder := new SessionOrder();
      phase := Idle;
      lastActiveSessionId, lastHeartbeatAt, nextRetryAt := None, None, None;
      retryAttempt := 0;
    }

    method ScheduleCaptureRetry(now: Instant)
      modifies this
      ensures View() == ScheduleRetry(old(View()), now)
    {
      phase := Starting;
      retryAttempt := if retryAttempt < U32_MAX then retryAttempt + 1 else U32_MAX;
      nextRetryAt := Some(now + CAPTURE_RETRY_INTERVAL);
    }

    method TryStart(now: Instant, hw: Hardware)
      modifies this, capture
      ensures View() == ServerModel.TryStart(old(View()), now, hw)
    {
      var started := capture.Start(hw.spawn);
      if started.Ok? {
        phase := Streaming;
        nextRetryAt := None;
        retryAttempt := 0;
      } else {
        ScheduleCaptureRetry(now);
      }
    }

    method StopAndIdle(hw: Hardware) returns (result: Result<(), ServerError>)
      modifies this, capture
      ensures Moved(View(), result) == ServerModel.StopAndIdle(old(View()), hw)
    {
      phase := Idle;
      lastHeartbeatAt := None;
      nextRetryAt := None;
      retryAttempt := 0;
      var stopped := capture.Stop(hw.stopOk);
      result := if stopped.Ok? then Ok(()) else Err(CaptureStopFailed);
    }

    method Advance(now: Instant, hw: Hardware) returns (result: Result<(), ServerError>)
      modifies this, capture
      ensures Moved(View(), result) == ServerModel.Advance(old(View()), now, hw)
    {
      if lastHeartbeatAt.Some? {
        var elapsed := SatSub(now, lastHeartbeatAt.value);
        if elapsed >= HEARTBEAT_TIMEOUT {
          if lastActiveSessionId.Some? {
            result := StopAndIdle(hw);
            return;
          }
          return Ok(());
        }
      }
      if phase.Starting? && nextRetryAt.Some? && now >= nextRetryAt.value {
        TryStart(now, hw);
      }
      result := Ok(());
    }

    method HandleStart(id: U64, now: Instant, hw: Hardware)
      returns (result: Result<Option<ControlMessage>, ServerError>)
      modifies this, capture, sessionOrder
      ensures Moved(View(), result) == ServerModel.HandleStart(old(View()), id, now, hw)
    {
      var accepted := sessionOrder.Accept(id);
      if !accepted {
        return Ok(None);
      }
      lastActiveSessionId := Some(id);
      lastHeartbeatAt := Some(now);
      match phase {
        case Idle =>
          phase := Starting;
          retryAttempt := 0;
          TryStart(now, hw);
        case Starting =>
          retryAttempt := 0;
          nextRetryAt := Some(now + CAPTURE_RETRY_INTERVAL);
        case Streaming =>
      }
      result := Ok(Some(Ack(id, START_TAG)));
    }

    method HandleHeartbeat(id: U64, now: Instant) returns (result: Result<Option<ControlMessage>, ServerError>)
      modifies this
      ensures Moved(View(), result) == ServerModel.HandleHeartbeat(old(View()), id, now)
    {
      if lastActiveSessionId != Some(id) {
        return Ok(None);
      }
      if !phase.Streaming? {
        return Ok(None);
      }
      lastHeartbeatAt := Some(now);
      result := Ok(Some(Ack(id, HEARTBEAT_TAG)));
    }

    method HandleStop(id: U64, hw: Hardware) returns (result: Result<Option<ControlMessage>, ServerError>)
      modifies this, capture
      ensures Moved(View(), result) == ServerModel.HandleStop(old(View()), id, hw)
    {
      if lastActiveSessionId != Some(id) {
        return Ok(None);
      }
      if !phase.Idle? {
        var stopped := StopAndIdle(hw);
        if stopped.Err? {
          return Err(stopped.error);
        }
      }
      result := Ok(Some(Ack(id, STOP_TAG)));
    }

    method HandleDatagram(packet: Bytes, now: Instant, hw: Hardware)
      returns (result: Result<Option<ControlMessage>, ServerError>)
      modifies this, capture, sessionOrder
      ensures Moved(View(), result) == ServerModel.HandleDatagram(old(View()), packet, now, hw)
    {
      var advanced := Advance(now, hw);
      if advanced.Err? {
        return Err(advanced.error);
      }
      var parsed := ParseControl(packet);
      if parsed.Err? {
        return Err(BadPacket(parsed.error));
      }
      match parsed.value
      case Start(id) => result := HandleStart(id, now, hw);
      case Heartbeat(id) => result := HandleHeartbeat(id, now);
      case Stop(id) => result := HandleStop(id, hw);
      case Ack(id, _) => result := Err(UnexpectedAck(id));
    }

    method NextAudioFrame(sequence: U32, now: Instant, hw: Hardware) returns (frame: Option<AudioFrame>)
      modifies this, capture
      ensures (View(), frame) == ServerModel.NextAudioFrame(old(View()), sequence, now, hw)
    {
      if lastActiveSessionId.None? || !phase.Streaming? {
        return None;
      }
      var captured := capture.ReadFrame(hw.observedAt, hw.exit);
      if captured.Err? {
        ScheduleCaptureRetry(now);
        return None;
      }
      frame := Some(NewAudioFrame(lastActiveSessionId.value, sequence, captured.value.pcm));
    }
  }

  /** `run_server`: the local variables of the loop, and one iteration of its body. */
  class ServiceLoop {
    const control: ControlPlane
    var peer: Option<Endpoint>
    var sequence: U32

    function View(): Loop
      reads this, control, control.capture, control.sessionOrder
    {
      Loop(control.View(), peer, sequence)
    }

    constructor ()
      ensures View() == NEW_LOOP && fresh(control) && fresh(control.capture) && fresh(control.sessionOrder)
    {
      control := new ControlPlane();
      peer, sequence := None, 0;
    }

    /** The first half: a datagram, if one arrived before the read timeout. */
    method Receive(packet: Bytes, source: Endpoint, now: Instant, t2: U64, t3: U64, hw: Hardware)
      returns (sent: seq<Addressed>, onward: Onward)
      modifies this, control, control.capture, control.sessionOrder
      ensures Looped(View(), sent, onward) == ServeDatagram(old(View()), packet, source, now, t2, t3, hw)
    {
      if packet != [] && packet[0] == CALIBRATION_PROBE_TAG {
        var probe := ParseCalibration(packet);
        if probe.Ok? && probe.value.Probe? {
          return [Addressed(Calibrate(Reply(probe.value.sequence, probe.value.t1, t2, t3)), source)], Continue;
        }
        return [], Continue;
      }
      var message := ParseControl(packet);
      var handled := control.HandleDatagram(packet, now, hw);
      if handled.Err? {
        return [], if handled.error.CaptureStopFailed? then Exit else Proceed;
      }
      if handled.value.None? {
        return [], Proceed;
      }
      sent := [Addressed(Control(handled.value.value), source)];
      if message.Ok? && message.value.Start? {
        peer := Some(source);
        sequence := 0;
      }
      if message.Ok? && message.value.Stop? {
        peer := None;
      }
      onward := Proceed;
    }

    /** The second half: timers, then at most one audio frame. */
    method Pace(now: Instant, hw: Hardware, later: Instant, audio: Hardware)
      returns (sent: seq<Addressed>, onward: Onward)
      modifies this, control, control.capture
      ensures var timers := ServeTimers(old(View()), now, hw);
        Looped(View(), sent, onward) ==
        if timers.onward.Exit? then timers else ServeAudio(timers.loop, later, audio)
    {
      var advanced := control.Advance(now, hw);
      if advanced.Err? {
        return [], Exit;
      }
      sent := [];
      if peer.Some? {
        var frame := control.NextAudioFrame(sequence, later, audio);
        if frame.Some? {
          sent := [Addressed(Audio(frame.value), peer.value)];
          sequence := WrapNext(sequence);
        }
      }
      onward := Proceed;
    }
  }
}
