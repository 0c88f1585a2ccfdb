/** When the server acknowledges a message, and what each message, timer and audio
    read does to it: exactly, and both ways. */
module ServerAnswers {
  import opened Machine
  import opened Wire
  import opened WireCodec
  import opened SessionIds
  import opened Capture
  import opened ServerModel
  import opened ServerInvariant

  /** The process that a Stop has to end cannot be stopped. */
  predicate StopFails(s: Server, m: ControlMessage, hw: Hardware)
  {
    m.Stop? && s.lastActive == Some(m.sessionId) && s.capture.process.Some? && !hw.stopOk
  }

  /** A Start is newer than all before, a Heartbeat is for the active session while it
      streams, a Stop is for the active session and succeeds. */
  predicate Acknowledged(s: Server, m: ControlMessage, hw: Hardware)
  {
    match m
    case Start(id) => s.lastActive.None? || id > s.lastActive.value
    case Heartbeat(id) => s.lastActive == Some(id) && s.phase.Streaming?
    case Stop(id) => s.lastActive == Some(id) && !StopFails(s, m, hw)
    case Ack(_, _) => false
  }

  /** The tag that an Ack for this message carries. */
  function AckedKind(m: ControlMessage): U8
  {
    match m
    case Start(_) => 1
    case Heartbeat(_) => 2
    case Stop(_) => 3
    case Ack(_, _) => 4
  }

  /** One datagram: it is acknowledged if and only if `Acknowledged`, and every other
      answer is exact too. A timer that fails ends the call before the packet is read. */
  lemma AnsweredExactly(s: Server, packet: Bytes, now: Instant, hw: Hardware)
    requires Inv(s)
    ensures var timers, request, m := Advance(s, now, hw), ParseControl(packet), HandleDatagram(s, packet, now, hw);
      m.result ==
        if timers.result.Err? then Err(timers.result.error)
        else if request.Err? then Err(BadPacket(request.error))
        else if request.value.Ack? then Err(UnexpectedAck(request.value.sessionId))
        else if StopFails(timers.server, request.value, hw) then Err(CaptureStopFailed)
        else if Acknowledged(timers.server, request.value, hw) then
          Ok(Some(Ack(request.value.sessionId, AckedKind(request.value))))
        else Ok(None)
  {
    AdvanceKeepsInv(s, now, hw);
    hide Advance, ParseControl;
  }

  /** What is neither acknowledged nor a Stop that fails changes nothing beyond what
      the timers did. */
  lemma UnacknowledgedChangesNothing(s: Server, packet: Bytes, now: Instant, hw: Hardware)
    requires Inv(s)
    ensures var timers, request := Advance(s, now, hw), ParseControl(packet);
      timers.result.Err? || request.Err? ||
      (!Acknowledged(timers.server, request.value, hw) && !StopFails(timers.server, request.value, hw)) ==>
        HandleDatagram(s, packet, now, hw).server == timers.server
  {
    AdvanceKeepsInv(s, now, hw);
    hide Advance, ParseControl;
  }

  /** A Stop stops: for the active session it always leaves the server idle with no
      process, no lease and no retry, whether or not the process could be stopped. */
  lemma StopStops(s: Server, id: U64, now: Instant, hw: Hardware)
    requires Inv(s)
    ensures var timers, m := Advance(s, now, hw), HandleDatagram(s, ControlBytes(Stop(id)), now, hw);
      timers.result.Ok? && timers.server.lastActive == Some(id) ==>
        m.server.phase.Idle? && m.server.capture.process.None? &&
        m.server.lastHeartbeat.None? && m.server.nextRetry.None? &&
        m.server.lastActive == m.server.order == Some(id) &&
        (timers.server.phase.Idle? ==> m.server == timers.server) &&
        (!timers.server.phase.Idle? ==> m.server.retryAttempt == 0)
  {
    ControlRoundTrip(Stop(id));
    AdvanceKeepsInv(s, now, hw);
    hide Advance, ParseControl;
  }

  /** An acknowledged Heartbeat renews the lease and changes nothing else. */
  lemma HeartbeatRenews(s: Server, id: U64, now: Instant, hw: Hardware)
    requires Inv(s)
    ensures var timers, m := Advance(s, now, hw), HandleDatagram(s, ControlBytes(Heartbeat(id)), now, hw);
      timers.result.Ok? ==>
        m.server.lastHeartbeat ==
          (if Acknowledged(timers.server, Heartbeat(id), hw) then Some(now) else timers.server.lastHeartbeat) &&
        m.server.(lastHeartbeat := None) == timers.server.(lastHeartbeat := None)
  {
    ControlRoundTrip(Heartbeat(id));
    AdvanceKeepsInv(s, now, hw);
    hide Advance, ParseControl;
  }

  /** An attempt to start capture at `now`: with the process that is there, or with a
      new one; otherwise one more failure is counted and the next attempt is five
      seconds later. */
  predicate Attempted(before: Server, after: Server, attempts: nat, now: Instant, hw: Hardware)
  {
    var process := if before.capture.process.Some? then before.capture.process else hw.spawn;
    after.capture == before.capture.(process := process) &&
    if process.Some? then after.phase.Streaming? && after.nextRetry.None? && after.retryAttempt == 0
    else
      after.phase.Starting? && after.nextRetry == Some(now + 5 * SECOND) &&
      after.retryAttempt == Min(attempts + 1, U32_MAX)
  }

  /** A newer Start takes over: its session is active with a fresh lease. A streaming
      server goes on streaming, a starting one gets five seconds more, and an idle
      one attempts to start capture at once. */
  lemma StartTakesOver(s: Server, id: U64, now: Instant, hw: Hardware)
    requires Inv(s)
    ensures var timers, m := Advance(s, now, hw), HandleDatagram(s, ControlBytes(Start(id)), now, hw);
      timers.result.Ok? && Acknowledged(timers.server, Start(id), hw) ==>
        m.server.lastActive == m.server.order == Some(id) && m.server.lastHeartbeat == Some(now) &&
        match timers.server.phase
        case Streaming =>
          m.server.phase.Streaming? && m.server.capture == timers.server.capture && m.server.nextRetry.None?
        case Starting =>
          m.server.phase.Starting? && m.server.capture == timers.server.capture && m.server.retryAttempt == 0 &&
          m.server.nextRetry == Some(now + 5 * SECOND)
        case Idle => Attempted(timers.server, m.server, 0, now, hw)
  {
    ControlRoundTrip(Start(id));
    AdvanceKeepsInv(s, now, hw);
    hide Advance, ParseControl;
  }

  /** The timers: a session unheard of for 30 s is given up with its process, a due
      retry is attempted, and otherwise nothing happens. */
  lemma TimersTakeEffect(s: Server, now: Instant, hw: Hardware)
    requires Inv(s)
    ensures var after := Advance(s, now, hw).server;
      if s.lastHeartbeat.Some? && now >= s.lastHeartbeat.value + 30 * SECOND then
        after.phase.Idle? && after.capture.process.None? && after.lastHeartbeat.None? && after.nextRetry.None? &&
        after.retryAttempt == 0 && after.lastActive == s.lastActive
      else if s.phase.Starting? && now >= s.nextRetry.value then
        Attempted(s, after, s.retryAttempt, now, hw) && after.lastActive == s.lastActive &&
        after.lastHeartbeat == s.lastHeartbeat
      else after == s
  {
  }

  /** One audio read while Streaming: the frame that was read, labelled with the active
      session and the given number; or, exactly when the read fails, no frame and a
      restart of capture five seconds later. In no other phase is anything read. */
  lemma ReadTakesEffect(s: Server, sequence: U32, now: Instant, hw: Hardware)
    requires Inv(s)
    ensures var ((after, frame), (capture, read)) :=
        (NextAudioFrame(s, sequence, now, hw), ReadCapture(s.capture, hw.observedAt, hw.exit));
      if !s.phase.Streaming? then after == s && frame.None?
      else if read.Ok? then
        after == s.(capture := capture) &&
        frame == Some(AudioFrame(1, s.lastActive.value, sequence, read.value.pcm))
      else
        frame.None? && after.phase.Starting? && after.nextRetry == Some(now + 5 * SECOND) &&
        after.retryAttempt == Min(s.retryAttempt + 1, U32_MAX) && after.capture == capture &&
        after.lastActive == s.lastActive && after.lastHeartbeat == s.lastHeartbeat
  {
    hide ReadCapture;
  }
}
