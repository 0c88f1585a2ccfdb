/** What every operation of the server keeps, even when capture fails to start,
    read or stop. */
module ServerInvariant {
  import opened Machine
  import opened Wire
  import opened WireCodec
  import opened SessionIds
  import opened Capture
  import opened ServerModel

  ghost predicate Inv(s: Server)
  {
    (s.phase.Idle? <==> s.lastHeartbeat.None?) &&
    (s.phase.Starting? <==> s.nextRetry.Some?) &&
    (s.phase.Idle? ==> s.capture.process.None?) &&
    (s.phase.Streaming? ==> s.capture.process.Some?) &&
    s.order == s.lastActive &&
    (!s.phase.Idle? ==> s.lastActive.Some?)
  }

  predicate NotBelow(after: Option<U64>, before: Option<U64>)
  {
    before.Some? ==> after.Some? && after.value >= before.value
  }

  lemma AdvanceKeepsInv(s: Server, now: Instant, hw: Hardware)
    requires Inv(s)
    ensures Inv(Advance(s, now, hw).server) && Advance(s, now, hw).server.order == s.order
  {
  }

  /** After a successful `advance` at `now` no liveness timeout and no retry is overdue. */
  lemma AdvanceLeavesNothingOverdue(s: Server, now: Instant, hw: Hardware)
    requires Inv(s)
    ensures var m := Advance(s, now, hw);
      m.result.Ok? ==>
        (!m.server.phase.Idle? ==> SatSub(now, m.server.lastHeartbeat.value) < HEARTBEAT_TIMEOUT) &&
        (m.server.phase.Starting? ==> m.server.nextRetry.value > now)
  {
  }

  /** It fails only by giving up an expired session whose process could not be stopped. */
  lemma AdvanceFailsOnlyOnStop(s: Server, now: Instant, hw: Hardware)
    requires Inv(s)
    ensures var m := Advance(s, now, hw);
      m.result.Err? <==> TimedOut(s, now) && s.capture.process.Some? && !hw.stopOk
    ensures TimedOut(s, now) ==> Advance(s, now, hw).server.phase.Idle?
  {
  }

  /** Blocking for `read_timeout` is safe. An idle server may block for ever: no
      timer ever fires. A starting one wakes in time for its retry, not later than
      one poll after it, and until the retry only the liveness timeout can fire. */
  lemma ReadTimeoutIsSafe(s: Server, now: Instant, poll: nat, at: Instant, hw: Hardware)
    requires Inv(s)
    ensures ReadTimeout(s, now, poll).None? <==> s.phase.Idle?
    ensures s.phase.Streaming? ==> ReadTimeout(s, now, poll) == Some(poll)
    ensures s.phase.Idle? ==> Advance(s, at, hw) == Moved(s, Ok(()))
    ensures s.phase.Starting? ==>
      var wake := now + ReadTimeout(s, now, poll).value;
      s.nextRetry.value <= wake <= Max(now, s.nextRetry.value) + poll &&
      (at >= wake && !TimedOut(s, at) ==> Advance(s, at, hw) == Moved(TryStart(s, at, hw), Ok(()))) &&
      (at < s.nextRetry.value && !TimedOut(s, at) ==> Advance(s, at, hw) == Moved(s, Ok(())))
  {
  }

  lemma MessageKeepsInv(s: Server, m: ControlMessage, now: Instant, hw: Hardware)
    requires Inv(s)
    ensures var after := HandleMessage(s, m, now, hw).server;
      Inv(after) && NotBelow(after.order, s.order)
  {
  }

  lemma DatagramKeepsInv(s: Server, packet: Bytes, now: Instant, hw: Hardware)
    requires Inv(s)
    ensures var after := HandleDatagram(s, packet, now, hw).server;
      Inv(after) && NotBelow(after.order, s.order)
  {
    AdvanceKeepsInv(s, now, hw);
    if ParseControl(packet).Ok? {
      MessageKeepsInv(Advance(s, now, hw).server, ParseControl(packet).value, now, hw);
    }
  }

  lemma AudioKeepsInv(s: Server, sequence: U32, now: Instant, hw: Hardware)
    requires Inv(s)
    ensures var (after, frame) := NextAudioFrame(s, sequence, now, hw);
      Inv(after) && after.order == s.order && after.lastActive == s.lastActive &&
      after.lastHeartbeat == s.lastHeartbeat && after.phase.Idle? == s.phase.Idle? &&
      (frame.Some? ==>
        s.phase.Streaming? && s.lastActive == Some(frame.value.sessionId) && frame.value.sequence == sequence)
  {
  }

  /** An Ack means: the message was for the session that is now the active one, and
      for a Start or Heartbeat that session's lease begins anew. */
  lemma AckMeans(s: Server, packet: Bytes, now: Instant, hw: Hardware)
    requires Inv(s)
    ensures var m := HandleDatagram(s, packet, now, hw);
      m.result.Ok? && m.result.value.Some? ==>
        var ack, request := m.result.value.value, ParseControl(packet);
        request.Ok? && ack.Ack? && ack.ackedKind == ControlTag(request.value) &&
        ack.sessionId == request.value.sessionId && m.server.lastActive == Some(ack.sessionId) &&
        (request.value.Start? || request.value.Heartbeat? ==>
          !m.server.phase.Idle? && m.server.lastHeartbeat == Some(now)) &&
        (request.value.Stop? ==> m.server.phase.Idle?)
  {
    AdvanceKeepsInv(s, now, hw);
  }

  /** A Start is acknowledged exactly when it is strictly newer than every session
      accepted before (and the overdue cleanup, if any, succeeded). */
  lemma StartIsAckedOnce(s: Server, id: U64, now: Instant, hw: Hardware)
    requires Inv(s)
    ensures var m := HandleDatagram(s, ControlBytes(Start(id)), now, hw);
      Advance(s, now, hw).result.Ok? ==>
        m.result == Ok(if IsNewerSession(s.order, id) then Some(Ack(id, START_TAG)) else None) &&
        !IsNewerSession(m.server.order, id)
  {
    ControlRoundTrip(Start(id));
    AdvanceKeepsInv(s, now, hw);
  }

  // ------------------------------------------------------------ the service loop

  datatype Service =
    | Datagram(packet: Bytes, source: Endpoint, t2: U64, t3: U64, hw: Hardware)
    | Timers(hw: Hardware)
    | AudioTurn(hw: Hardware)

  function Serve(l: Loop, now: Instant, e: Service): Looped
  {
    match e
    case Datagram(packet, source, t2, t3, hw) => ServeDatagram(l, packet, source, now, t2, t3, hw)
    case Timers(hw) => ServeTimers(l, now, hw)
    case AudioTurn(hw) => ServeAudio(l, now, hw)
  }

  lemma ServeKeepsInv(l: Loop, now: Instant, e: Service)
    requires Inv(l.control)
    ensures var after := Serve(l, now, e).loop;
      Inv(after.control) && NotBelow(after.control.order, l.control.order)
  {
    match e
    case Datagram(packet, _, _, _, hw) => DatagramKeepsInv(l.control, packet, now, hw);
    case Timers(hw) => AdvanceKeepsInv(l.control, now, hw);
    case AudioTurn(hw) => AudioKeepsInv(l.control, l.sequence, now, hw);
  }

  function RunService(run: seq<(Instant, Service)>): Loop
  {
    if run == [] then NEW_LOOP
    else
      var last := run[|run| - 1];
      Serve(RunService(run[..|run| - 1]), last.0, last.1).loop
  }

  /** In every reachable server state: Idle iff no heartbeat time, Starting iff a
      retry deadline, Idle owns no capture process, Streaming owns one; and the
      session high-water mark never falls along the run. */
  lemma {:induction false} ReachableServers(run: seq<(Instant, Service)>, k: nat)
    requires k <= |run|
    ensures var s := RunService(run).control;
      Inv(s) &&
      (s.phase.Idle? <==> s.lastHeartbeat.None?) && (s.phase.Starting? <==> s.nextRetry.Some?) &&
      (s.phase.Idle? ==> s.capture.process.None?) && (s.phase.Streaming? ==> s.capture.process.Some?) &&
      NotBelow(s.order, RunService(run[..k]).control.order)
    decreases |run|
  {
    if k == |run| {
      assert run[..k] == run;
    }
    if run != [] {
      var front := run[..|run| - 1];
      var last := run[|run| - 1];
      ReachableServers(front, if k < |run| then k else |front|);
      if k < |run| {
        assert front[..k] == run[..k];
      }
      ServeKeepsInv(RunService(front), last.0, last.1);
    }
  }
}
