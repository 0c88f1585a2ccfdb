/** What each call of the client control plane sends, answers and does to its
    state: exactly, and both ways. */
module ClientAnswers {
  import opened Machine
  import opened Wire
  import opened WireCodec
  import opened SessionIds
  import opened Calibration
  import opened JitterModel
  import opened JitterInvariant
  import opened ClientModel
  import opened ClientInvariant

  // ------------------------------------------------------------ lifecycle

  /** The least id newer than every one issued and not behind the clock. */
  function NewId(c: Client, epochMs: U64): int { Max(epochMs, c.lastIssued + 1) }

  /** What outlives a session: the origin, the ids issued, and the calibration. */
  function Renewed(c: Client): Client
  {
    Fresh(c.origin).(lastIssued := c.lastIssued, calibrationSequence := c.calibrationSequence, offset := c.offset)
  }

  /** An explicit start forgets the old run and asks for a new session, even when the
      Start cannot be sent. Only an exhausted id space keeps it from asking. */
  lemma StartIsFresh(c: Client, now: Instant, epochMs: U64, ok: bool)
    ensures var m := StartRun(c, now, epochMs, ok);
      if c.lastIssued == U64_MAX then m == Moved(Renewed(c), [], Err(IdsExhausted))
      else
        m.client == Renewed(c).(lastIssued := NewId(c, epochMs), pending := Some(NewId(c, epochMs)),
                                startDeadline := Some(now + 5 * SECOND)) &&
        m.sent == [Control(ControlMessage.Start(NewId(c, epochMs)))] &&
        m.result == if ok then Ok(NewId(c, epochMs)) else Err(TransportFailed)
  {
  }

  /** An explicit stop attempts one Stop, for the pending session if there is one, or
      else the accepted one, and ends up stopped whether or not it could be sent. */
  lemma StopSaysStop(c: Client, ok: bool)
    requires Inv(c)
    ensures var m := StopRun(c, ok);
      m.client == Renewed(c).(phase := Stopped, nextCalibration := c.nextCalibration) &&
      m.sent == (if c.pending.Some? then [Control(ControlMessage.Stop(c.pending.value))]
                 else if c.accepted.Some? then [Control(ControlMessage.Stop(c.accepted.value))] else []) &&
      m.result == if m.sent == [] || ok then Ok(()) else Err(TransportFailed)
  {
  }

  // ------------------------------------------------------------ timers

  predicate ProbeDue(c: Client, now: Instant)
  {
    c.phase.Streaming? && c.nextCalibration.Some? && now >= c.nextCalibration.value
  }

  predicate BeatDue(c: Client, now: Instant)
  {
    c.phase.Streaming? && c.nextHeartbeat.Some? && now >= c.nextHeartbeat.value
  }

  predicate StartDue(c: Client, now: Instant)
  {
    (c.phase.Establishing? && c.startDeadline.Some? && now >= c.startDeadline.value) ||
    (c.phase.Unreachable? && c.nextRetry.Some? && now >= c.nextRetry.value)
  }

  /** What one `advance` attempts to send: a due probe; if that does not fail, a due
      heartbeat for the accepted session; or a due Start with a new id. */
  lemma TimersSend(c: Client, now: Instant, s: Supply)
    requires Inv(c)
    ensures Advance(c, now, s).sent ==
      (if ProbeDue(c, now) then [Calibrate(Probe(c.calibrationSequence, s.t1))] else []) +
      (if BeatDue(c, now) && (ProbeDue(c, now) ==> s.probeOk) then
         [Control(ControlMessage.Heartbeat(c.accepted.value))] else []) +
      (if StartDue(c, now) && c.lastIssued < U64_MAX then
         [Control(ControlMessage.Start(NewId(c, s.epochMs)))] else [])
  {
  }

  /** And what it answers: an error exactly when a send fails or the ids are used up. */
  lemma TimersAnswer(c: Client, now: Instant, s: Supply)
    requires Inv(c)
    ensures Advance(c, now, s).result ==
      if ProbeDue(c, now) && !s.probeOk then Err(TransportFailed)
      else if StartDue(c, now) && c.lastIssued == U64_MAX then Err(IdsExhausted)
      else if (BeatDue(c, now) || StartDue(c, now)) && !s.controlOk then Err(TransportFailed)
      else Ok(())
  {
  }

  /** A Start that goes unanswered for five seconds, or a retry that is due, asks for a
      new session; with no id left, the client is unreachable for five seconds more. */
  lemma StartTimerEffect(c: Client, now: Instant, s: Supply)
    requires Inv(c) && !c.phase.Streaming?
    ensures var after := Advance(c, now, s).client;
      if !StartDue(c, now) then after == c
      else if c.lastIssued < U64_MAX then
        after == c.(phase := Establishing, lastIssued := NewId(c, s.epochMs), pending := Some(NewId(c, s.epochMs)),
                    accepted := None, startDeadline := Some(now + 5 * SECOND), nextRetry := None)
      else if c.phase.Unreachable? then after == c
      else after == c.(phase := Unreachable, nextRetry := Some(now + 5 * SECOND))
  {
  }

  /** The client after a due probe, if any, was sent. */
  function Probed(c: Client, now: Instant): Client
  {
    if !ProbeDue(c, now) then c
    else c.(outstanding := Some(c.calibrationSequence),
            calibrationSequence := if c.calibrationSequence == U32_MAX then 0 else c.calibrationSequence + 1,
            nextCalibration := Some(now + 30 * SECOND))
  }

  /** While Streaming, a heartbeat that is sent counts one miss and is due again after
      five seconds; the second miss in a row makes the client unreachable for five
      seconds, with its session kept and its audio dropped. A failed send counts nothing. */
  lemma BeatTimerEffect(c: Client, now: Instant, s: Supply)
    requires Inv(c) && c.phase.Streaming?
    ensures var after := Advance(c, now, s).client;
      if ProbeDue(c, now) && !s.probeOk then after == c
      else if !BeatDue(c, now) || !s.controlOk then after == Probed(c, now)
      else if c.missed == 0 then
        after == Probed(c, now).(missed := 1, nextHeartbeat := Some(now + 5 * SECOND))
      else
        after == Probed(c, now).(missed := 2, nextHeartbeat := Some(now + 5 * SECOND), phase := Unreachable,
                                 nextRetry := Some(now + 5 * SECOND), jitter := EMPTY)
  {
  }

  // ------------------------------------------------------------ inbound packets

  predicate TakesStartAck(c: Client, m: ControlMessage)
  {
    m.Ack? && m.ackedKind == 1 && c.pending == Some(m.sessionId)
  }

  predicate TakesHeartbeatAck(c: Client, m: ControlMessage)
  {
    m.Ack? && m.ackedKind == 2 && c.accepted == Some(m.sessionId) && (c.phase.Streaming? || c.phase.Unreachable?)
  }

  /** One control message: a Start Ack for the pending session begins streaming it from
      scratch. A heartbeat Ack for the accepted session, while Streaming or
      Unreachable, clears the misses and the retry, and the session streams on. Any
      other message changes nothing. */
  lemma AckIsTakenExactly(c: Client, m: ControlMessage, now: Instant, t4: U64)
    requires Inv(c) && (m.Ack? ==> IsControlKind(m.ackedKind))
    ensures var r := Receive(c, ControlBytes(m), now, t4);
      if TakesStartAck(c, m) then
        r.result == Ok(StartAck(m.sessionId)) &&
        r.client == Renewed(c).(phase := Streaming, accepted := Some(m.sessionId),
                                nextHeartbeat := Some(now + 5 * SECOND), nextCalibration := Some(now + 30 * SECOND))
      else if TakesHeartbeatAck(c, m) then
        r.result == Ok(HeartbeatAck(m.sessionId)) &&
        r.client == c.(phase := Streaming, nextRetry := None, missed := 0, nextHeartbeat := Some(now + 5 * SECOND))
      else r == Received(c, Ok(if m.Ack? then IgnoredAck(m.sessionId) else IgnoredControl))
  {
    ControlRoundTrip(m);
    hide ParseControl;
  }

  /** Recovery: an unreachable client that hears a heartbeat Ack for its session streams
      that session again, with no new id, and what it sends next is a heartbeat for it
      (or, before that, a probe). */
  lemma UnreachableResumes(c: Client, now: Instant, t4: U64, later: Instant, s: Supply)
    requires Inv(c) && c.phase.Unreachable? && c.accepted.Some?
    ensures var after := Receive(c, ControlBytes(Ack(c.accepted.value, HEARTBEAT_TAG)), now, t4).client;
      after.phase.Streaming? && after.accepted == c.accepted && after.lastIssued == c.lastIssued &&
      after.missed == 0 && after.nextRetry.None? && after.nextHeartbeat == Some(now + 5 * SECOND) &&
      (forall p :: p in Advance(after, later, s).sent && p.Control? ==> p.message == Heartbeat(c.accepted.value)) &&
      (later >= now + 5 * SECOND && s.probeOk ==>
        Control(Heartbeat(c.accepted.value)) in Advance(after, later, s).sent)
  {
    var ack := Ack(c.accepted.value, HEARTBEAT_TAG);
    AckIsTakenExactly(c, ack, now, t4);
    ReceiveKeepsInv(c, ControlBytes(ack), now, t4);
    TimersSend(Receive(c, ControlBytes(ack), now, t4).client, later, s);
    hide Receive, Advance;
  }

  /** One audio frame: pushed, with its arrival time, exactly while Streaming and for
      the accepted session. */
  lemma FrameIsTakenExactly(c: Client, f: AudioFrame, now: Instant, t4: U64)
    requires f.version == 1
    ensures var r := Receive(c, AudioBytes(f), now, t4);
      if c.phase.Streaming? && c.accepted == Some(f.sessionId) then
        var pushed := Push(c.jitter, f, ElapsedMs(c.origin, now));
        r == Received(c.(jitter := pushed.buffer), Ok(AudioQueued(f.sessionId, pushed.outcome)))
      else r == Received(c, Ok(IgnoredAudio(f.sessionId)))
  {
    AudioRoundTrip(f);
    hide ParseAudio, Push;
  }

  /** One calibration reply: used exactly when it answers the outstanding probe, and
      then at most once. It sets the offset unless its round trip is negative or longer
      than 20 ms. */
  lemma ReplyIsTakenExactly(c: Client, p: CalibrationPacket, now: Instant, t4: U64)
    requires p.Reply?
    ensures var r := Receive(c, CalibrationBytes(p), now, t4);
      if c.outstanding != Some(p.sequence) then r == Received(c, Ok(CalibrationRejected))
      else if t4 < p.t1 || t4 - p.t1 > 20_000 then
        r == Received(c.(outstanding := None), Ok(CalibrationRejected))
      else
        var half := (t4 - p.t1) / 2;
        var offset := Max(I64_MIN, Min(p.t2 - (p.t1 + half), I64_MAX));
        var jumps := c.offset.Some? && Abs(c.offset.value - offset) > 5_000;
        r == Received(c.(outstanding := None, offset := Some(offset)),
                      Ok(Calibrated(CalibrationUpdate(offset, half, jumps))))
  {
    CalibrationRoundTrip(p);
    hide ParseCalibration;
  }

  /** What does not decode changes nothing. It is reported as malformed, except that a
      packet with the tag of a calibration reply is only rejected. */
  lemma MalformedChangesNothing(c: Client, packet: Bytes, now: Instant, t4: U64)
    ensures var r := Receive(c, packet, now, t4);
      ParseAudio(packet).Err? && ParseControl(packet).Err? && ParseCalibration(packet).Err? ==>
        r.client == c &&
        (if packet != [] && packet[0] == 6 then r.result == Ok(CalibrationRejected)
         else r.result.Err? && r.result.error.BadPacket?)
  {
    hide ParseAudio, ParseControl, ParseCalibration;
  }

  // ------------------------------------------------------------ playout

  /** One `render_ready`: nothing until the playout deadline. From then on the slot at
      the cursor, as the resident frame that carries its number or as silence, and the
      buffer moves past it, even when the renderer fails. */
  lemma RenderIsExact(c: Client, now: Instant, ok: bool)
    requires Inv(c)
    ensures var r, due := RenderReady(c, now, ok), PollDue(c.jitter, ElapsedMs(c.origin, now));
      r.client == c.(jitter := r.client.jitter) &&
      if !due then r == Rendered(c, None, Ok(NotReady))
      else
        var next := c.jitter.next.value;
        r.client.jitter.next == Some(if next == U32_MAX then 0 else next + 1) &&
        if exists f :: f in c.jitter.frames && f.sequence == next then
          r.frame.Some? && r.frame.value in c.jitter.frames && r.frame.value.sequence == next &&
          c.jitter.frames == [r.frame.value] + r.client.jitter.frames &&
          r.result == if ok then Ok(AudioRendered) else Err(RenderFailed)
        else
          r.frame == Some(AudioFrame(1, c.accepted.value, next, seq(480, _ => 0))) &&
          r.client.jitter.frames == c.jitter.frames &&
          r.result == if ok then Ok(GapRendered) else Err(RenderFailed)
  {
    PollKeepsValid(c.jitter, ElapsedMs(c.origin, now));
    hide Poll, Ordered;
  }
}
