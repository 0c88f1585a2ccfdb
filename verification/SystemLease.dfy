/** The timed lease: while the client streams a session, the server keeps it
    active. That holds at every instant exactly when acknowledgements take less
    than 20 s. At exactly 20 s it still holds except at instants at which the
    client's heartbeat is due. */
module SystemLease {
  import opened Machine
  import opened Wire
  import opened WireCodec
  import opened SessionIds
  import opened System
  import opened SystemAgreement
  import ClientModel
  import ClientInvariant
  import Capture
  import ServerModel
  import ServerInvariant

  const MAX_DELAY: nat := 20 * SECOND
  const LEASE: nat := 30 * SECOND
  const BEAT: nat := 5 * SECOND

  /** Timing assumptions on one action: a datagram reaches the client within
      `delay` of its emission, and time does not pass a streaming client's
      heartbeat deadline without the client servicing it. */
  predicate Timely(delay: nat, s: System, a: Action)
  {
    Enabled(s, a) &&
    match a
    case Pass(time) => s.client.phase.Streaming? && s.client.nextHeartbeat.Some? ==>
      s.clock + time <= s.client.nextHeartbeat.value
    case ToClient(d, _) => s.clock <= d.sentAt + delay
    case _ => true
  }

  predicate TimelyRun(delay: nat, actions: seq<Action>)
  {
    actions == [] ||
    (TimelyRun(delay, actions[..|actions| - 1]) &&
     Timely(delay, Run(actions[..|actions| - 1]), actions[|actions| - 1]))
  }

  /** Whenever the client is streaming, the server is not idle and its active
      session is the client's. */
  ghost predicate LeaseHolds(s: System)
  {
    s.client.phase.Streaming? ==>
      !s.server.control.phase.Idle? && s.client.accepted.Some? && HighWater(s) == s.client.accepted
  }

  predicate BeatDue(s: System)
  {
    s.client.nextHeartbeat.Some? && s.clock >= s.client.nextHeartbeat.value
  }

  /** The same at every instant at which no heartbeat is due. */
  ghost predicate LeaseHoldsBetweenBeats(s: System)
  {
    BeatDue(s) || LeaseHolds(s)
  }

  // ------------------------------------------------------------ the invariant

  predicate IsLeaseAck(p: Packet)
  {
    p.Control? && p.message.Ack? && (p.message.ackedKind == START_TAG || p.message.ackedKind == HEARTBEAT_TAG)
  }

  predicate IsStop(p: Packet, id: U64) { p == Control(Stop(id)) }

  ghost predicate StopSent(toServer: set<InFlight>, id: U64)
  {
    exists d :: d in toServer && IsStop(d.packet, id)
  }

  /** An Ack emitted at `at` for the active session: the server still serves that
      lease, or thirty seconds have passed, or the client has asked to stop. */
  ghost predicate LeaseServed(control: ServerModel.Server, clock: Instant, toServer: set<InFlight>,
                              id: U64, at: Instant)
  {
    control.lastActive == Some(id) ==>
      (control.lastHeartbeat.Some? && control.lastHeartbeat.value >= at) ||
      clock >= at + LEASE || StopSent(toServer, id)
  }

  ghost predicate LeasesServed(s: System)
  {
    forall d :: d in s.toClient && IsLeaseAck(d.packet) ==>
      d.sentAt <= s.clock && LeaseServed(s.server.control, s.clock, s.toServer, d.packet.message.sessionId, d.sentAt)
  }

  ghost predicate StopsAreFinal(s: System)
  {
    forall d :: d in s.toServer && d.packet.Control? && d.packet.message.Stop? ==>
      ClientModel.CurrentSession(s.client) != Some(d.packet.message.sessionId)
  }

  /** `ackAt` is the emission time of an Ack for the accepted session. */
  ghost predicate AckHeld(s: System)
  {
    exists d :: d in s.toClient && IsLeaseAck(d.packet) && s.client.accepted == Some(d.packet.message.sessionId) &&
      d.sentAt == s.ackAt
  }

  /** The client's heartbeat deadline is bounded by the Ack it holds and its misses. */
  ghost predicate BeatBounded(s: System, delay: nat)
  {
    s.client.phase.Streaming? && s.client.nextHeartbeat.Some? ==>
      AckHeld(s) && s.clock <= s.client.nextHeartbeat.value <= s.ackAt + delay + (s.client.missed + 1) * BEAT
  }

  ghost predicate LeaseInv(s: System, delay: nat)
  {
    Agree(s) && LeasesServed(s) && StopsAreFinal(s) && BeatBounded(s, delay)
  }

  lemma InvGivesLease(s: System, delay: nat)
    requires LeaseInv(s, delay)
    ensures delay < MAX_DELAY ==> LeaseHolds(s)
    ensures delay <= MAX_DELAY ==> LeaseHoldsBetweenBeats(s)
  {
    if s.client.phase.Streaming? && delay <= MAX_DELAY {
      var d :| d in s.toClient && IsLeaseAck(d.packet) && s.client.accepted == Some(d.packet.message.sessionId) &&
        d.sentAt == s.ackAt;
      var id := d.packet.message.sessionId;
      assert LeaseServed(s.server.control, s.clock, s.toServer, id, d.sentAt);
      assert (s.client.missed + 1) * BEAT <= 2 * BEAT;
      assert !StopSent(s.toServer, id);
    }
  }

  // ------------------------------------------------------------ the client's moves

  /** How an operation other than a receipt may move the heartbeat deadline. */
  ghost predicate BeatStepOk(c: ClientModel.Client, after: ClientModel.Client, now: Instant)
  {
    after.phase.Streaming? && after.nextHeartbeat.Some? ==>
      c.phase.Streaming? && c.nextHeartbeat.Some? && after.accepted == c.accepted &&
      ((after.nextHeartbeat == c.nextHeartbeat && after.missed == c.missed) ||
       (now >= c.nextHeartbeat.value && after.nextHeartbeat.value == now + BEAT && after.missed == c.missed + 1))
  }

  lemma StartAndStopBeat(c: ClientModel.Client, now: Instant, epochMs: U64, ok: bool)
    requires ClientInvariant.Inv(c)
    ensures BeatStepOk(c, ClientModel.StartRun(c, now, epochMs, ok).client, now)
    ensures BeatStepOk(c, ClientModel.StopRun(c, ok).client, now)
  {
  }

  lemma AdvanceBeats(c: ClientModel.Client, now: Instant, supply: ClientModel.Supply)
    requires ClientInvariant.Inv(c)
    ensures BeatStepOk(c, ClientModel.Advance(c, now, supply).client, now)
  {
  }

  lemma ClientMovesKeepLease(s: System, client: ClientModel.Client, sent: seq<Packet>, delay: nat)
    requires LeaseInv(s, delay) && ClientStepOk(s.client, client, sent) && BeatStepOk(s.client, client, s.clock)
    ensures LeaseInv(ClientMoves(s, client, sent), delay)
  {
    var after := ClientMoves(s, client, sent);
    ClientMovesAgree(s, client, sent);
    forall d | d in after.toClient && IsLeaseAck(d.packet)
      ensures d.sentAt <= after.clock &&
        LeaseServed(after.server.control, after.clock, after.toServer, d.packet.message.sessionId, d.sentAt)
    {
      MoreRequests(s.toServer, after.toServer, d.packet.message.sessionId);
      assert LeaseServed(s.server.control, s.clock, s.toServer, d.packet.message.sessionId, d.sentAt);
    }
    NewStopsAreFinal(s, client, sent);
    if client.phase.Streaming? && client.nextHeartbeat.Some? {
      var d :| d in s.toClient && IsLeaseAck(d.packet) && s.client.accepted == Some(d.packet.message.sessionId) &&
        d.sentAt == s.ackAt;
      assert d in after.toClient;
    }
  }

  lemma MoreRequests(a: set<InFlight>, b: set<InFlight>, id: U64)
    requires a <= b
    ensures StopSent(a, id) ==> StopSent(b, id)
  {
    if StopSent(a, id) {
      var d :| d in a && IsStop(d.packet, id);
      assert d in b;
    }
  }

  lemma NewStopsAreFinal(s: System, client: ClientModel.Client, sent: seq<Packet>)
    requires Agree(s) && StopsAreFinal(s) && ClientStepOk(s.client, client, sent)
    ensures StopsAreFinal(ClientMoves(s, client, sent))
  {
    var after := ClientMoves(s, client, sent);
    forall d | d in after.toServer && d.packet.Control? && d.packet.message.Stop?
      ensures ClientModel.CurrentSession(client) != Some(d.packet.message.sessionId)
    {
      if d in s.toServer {
        assert RequestOk(d.packet, s.client.lastIssued);
      } else {
        assert d.packet in sent;
      }
    }
  }

  // ------------------------------------------------------------ delivery

  /** The parts of the state that the lease depends on are the same on both sides. */
  ghost predicate SameBeat(s: System, after: System)
  {
    after.client.phase == s.client.phase && after.client.nextHeartbeat == s.client.nextHeartbeat &&
    after.client.missed == s.client.missed && after.client.accepted == s.client.accepted && after.ackAt == s.ackAt
  }

  /** A receipt either leaves the lease alone or is an Ack for the session now accepted. */
  lemma DeliveryEffect(s: System, d: InFlight, t4: U64)
    requires Agree(s) && d in s.toClient
    ensures var after := Step(s, ToClient(d, t4));
      ClientModel.CurrentSession(after.client) == ClientModel.CurrentSession(s.client) &&
      (SameBeat(s, after) ||
       (IsLeaseAck(d.packet) && after.client.accepted == Some(d.packet.message.sessionId) && after.ackAt == d.sentAt &&
        after.client.nextHeartbeat == Some(s.clock + BEAT) && after.client.missed == 0))
  {
    hide ClientModel.Receive;
    ReplyDecodes(s.client, d.packet, HighWater(s), s.clock, t4);
  }

  lemma DeliveryKeepsLease(s: System, d: InFlight, t4: U64, delay: nat)
    requires LeaseInv(s, delay) && Timely(delay, s, ToClient(d, t4))
    ensures LeaseInv(Step(s, ToClient(d, t4)), delay)
  {
    DeliveryAgrees(s, d, t4);
    DeliveryEffect(s, d, t4);
    var after := Step(s, ToClient(d, t4));
    if SameBeat(s, after) {
      assert AckHeld(s) ==> AckHeld(after);
    } else {
      assert d in after.toClient;
      assert AckHeld(after);
    }
  }

  // ------------------------------------------------------------ the server's moves

  /** A turn of the service loop ends a lease only by timing out or on a Stop. */
  ghost predicate LeaseStepOk(before: ServerModel.Server, after: ServerModel.Server, now: Instant,
                              request: Option<Packet>)
  {
    after.lastActive == before.lastActive && before.lastHeartbeat.Some? ==>
      (after.lastHeartbeat == before.lastHeartbeat || after.lastHeartbeat == Some(now)) ||
      now >= before.lastHeartbeat.value + LEASE ||
      (before.lastActive.Some? && request == Some(Control(Stop(before.lastActive.value))))
  }

  /** A lease Ack is emitted only while the server is not idle, and renews the lease. */
  ghost predicate AckStepOk(looped: ServerModel.Looped, now: Instant)
  {
    forall a :: a in looped.sent && IsLeaseAck(a.packet) ==>
      looped.loop.control.lastActive == Some(a.packet.message.sessionId) &&
      looped.loop.control.lastHeartbeat == Some(now)
  }

  lemma RequestsLease(l: ServerModel.Loop, p: Packet, lastIssued: U64, now: Instant, t2: U64, t3: U64,
                      hw: ServerModel.Hardware)
    requires ServerInvariant.Inv(l.control) && RequestOk(p, lastIssued)
    ensures var looped := ServerModel.ServeDatagram(l, PacketBytes(p), CLIENT, now, t2, t3, hw);
      LeaseStepOk(l.control, looped.loop.control, now, Some(p)) && AckStepOk(looped, now)
  {
    ServerInvariant.AdvanceKeepsInv(l.control, now, hw);
    match p {
      case Control(m) => ControlRoundTrip(m);
      case Calibrate(c) => CalibrationRoundTrip(c);
    }
  }

  lemma TimersLease(l: ServerModel.Loop, now: Instant, hw: ServerModel.Hardware)
    requires ServerInvariant.Inv(l.control)
    ensures LeaseStepOk(l.control, ServerModel.ServeTimers(l, now, hw).loop.control, now, None)
    ensures AckStepOk(ServerModel.ServeTimers(l, now, hw), now)
    ensures LeaseStepOk(l.control, ServerModel.ServeAudio(l, now, hw).loop.control, now, None)
    ensures AckStepOk(ServerModel.ServeAudio(l, now, hw), now)
  {
    ServerInvariant.AudioKeepsInv(l.control, l.sequence, now, hw);
  }

  lemma OldAckStaysServed(s: System, looped: ServerModel.Looped, request: Option<InFlight>, d: InFlight)
    requires Agree(s) && LeasesServed(s) && ServerStepOk(s.server, looped)
    requires d in s.toClient && IsLeaseAck(d.packet)
    requires request.Some? ==> request.value in s.toServer
    requires LeaseStepOk(s.server.control, looped.loop.control, s.clock,
                         if request.Some? then Some(request.value.packet) else None)
    ensures LeaseServed(looped.loop.control, s.clock, s.toServer, d.packet.message.sessionId, d.sentAt)
  {
    var id := d.packet.message.sessionId;
    assert ReplyOk(d.packet, HighWater(s));
    assert LeaseServed(s.server.control, s.clock, s.toServer, id, d.sentAt);
    if looped.loop.control.lastActive == Some(id) == HighWater(s) && request.Some?
       && request.value.packet == Control(Stop(id)) {
      assert IsStop(request.value.packet, id);
    }
  }

  lemma ServerMovesKeepLease(s: System, looped: ServerModel.Looped, hw: ServerModel.Hardware,
                             request: Option<InFlight>, after: System, delay: nat)
    requires LeaseInv(s, delay) && ServerStepOk(s.server, looped) && AckStepOk(looped, s.clock)
    requires request.Some? ==> request.value in s.toServer
    requires LeaseStepOk(s.server.control, looped.loop.control, s.clock,
                         if request.Some? then Some(request.value.packet) else None)
    requires Agree(after)
    requires var moved := ServerMoves(s, looped, hw);
      after == moved.(startAcks := after.startAcks, sentLog := after.sentLog)
    ensures LeaseInv(after, delay)
  {
    forall d | d in after.toClient && IsLeaseAck(d.packet)
      ensures d.sentAt <= after.clock &&
        LeaseServed(after.server.control, after.clock, after.toServer, d.packet.message.sessionId, d.sentAt)
    {
      if d in s.toClient {
        OldAckStaysServed(s, looped, request, d);
      } else {
        var i :| 0 <= i < |looped.sent| && Payloads(looped.sent)[i] == d.packet;
        assert looped.sent[i] in looped.sent;
      }
    }
    if s.client.phase.Streaming? && s.client.nextHeartbeat.Some? {
      var d :| d in s.toClient && IsLeaseAck(d.packet) && s.client.accepted == Some(d.packet.message.sessionId) &&
        d.sentAt == s.ackAt;
      assert d in after.toClient;
    }
  }

  lemma ServerStepKeepsLease(s: System, a: Action, delay: nat)
    requires LeaseInv(s, delay) && Timely(delay, s, a) && (a.ToServer? || a.ServerTimers? || a.ServerAudio?)
    ensures LeaseInv(Step(s, a), delay)
  {
    StepAgrees(s, a);
    match a
    case ToServer(d, t2, t3, hw) =>
      RequestIsServed(s.server, d.packet, s.client.lastIssued, s.clock, t2, t3, hw);
      RequestsLease(s.server, d.packet, s.client.lastIssued, s.clock, t2, t3, hw);
      var looped := ServerModel.ServeDatagram(s.server, PacketBytes(d.packet), CLIENT, s.clock, t2, t3, hw);
      ServerMovesKeepLease(s, looped, hw, Some(d), Step(s, a), delay);
    case ServerTimers(hw) =>
      TimersAndAudioAreServed(s.server, s.clock, hw);
      TimersLease(s.server, s.clock, hw);
      ServerMovesKeepLease(s, ServerModel.ServeTimers(s.server, s.clock, hw), hw, None, Step(s, a), delay);
    case ServerAudio(hw) =>
      TimersAndAudioAreServed(s.server, s.clock, hw);
      TimersLease(s.server, s.clock, hw);
      ServerMovesKeepLease(s, ServerModel.ServeAudio(s.server, s.clock, hw), hw, None, Step(s, a), delay);
  }

  lemma RenderKeepsLease(s: System, ok: bool, delay: nat)
    requires LeaseInv(s, delay)
    ensures LeaseInv(Step(s, ClientRender(ok)), delay)
  {
    StepAgrees(s, ClientRender(ok));
    var after := Step(s, ClientRender(ok));
    if s.client.phase.Streaming? && s.client.nextHeartbeat.Some? {
      assert AckHeld(s);
      assert AckHeld(after);
    }
  }

  lemma PassKeepsLease(s: System, time: nat, delay: nat)
    requires LeaseInv(s, delay) && Timely(delay, s, Pass(time))
    ensures LeaseInv(Step(s, Pass(time)), delay)
  {
    StepAgrees(s, Pass(time));
    var after := Step(s, Pass(time));
    forall d | d in after.toClient && IsLeaseAck(d.packet)
      ensures d.sentAt <= after.clock &&
        LeaseServed(after.server.control, after.clock, after.toServer, d.packet.message.sessionId, d.sentAt)
    {
      assert LeaseServed(s.server.control, s.clock, s.toServer, d.packet.message.sessionId, d.sentAt);
    }
    if s.client.phase.Streaming? && s.client.nextHeartbeat.Some? {
      assert AckHeld(s);
      assert AckHeld(after);
    }
  }

  lemma StepKeepsLease(s: System, a: Action, delay: nat)
    requires LeaseInv(s, delay) && Timely(delay, s, a)
    ensures LeaseInv(Step(s, a), delay)
  {
    match a
    case Pass(time) => PassKeepsLease(s, time, delay);
    case ClientStart(epochMs, ok) =>
      StartIsOk(s.client, s.clock, epochMs, ok);
      StartAndStopBeat(s.client, s.clock, epochMs, ok);
      var m := ClientModel.StartRun(s.client, s.clock, epochMs, ok);
      ClientMovesKeepLease(s, m.client, m.sent, delay);
    case ClientStop(ok) =>
      StopIsOk(s.client, ok);
      StartAndStopBeat(s.client, s.clock, 0, ok);
      var m := ClientModel.StopRun(s.client, ok);
      ClientMovesKeepLease(s, m.client, m.sent, delay);
    case ClientAdvance(supply) =>
      AdvanceIsOk(s.client, s.clock, supply);
      AdvanceBeats(s.client, s.clock, supply);
      var m := ClientModel.Advance(s.client, s.clock, supply);
      ClientMovesKeepLease(s, m.client, m.sent, delay);
    case ClientRender(ok) => RenderKeepsLease(s, ok, delay);
    case ToClient(d, t4) => DeliveryKeepsLease(s, d, t4, delay);
    case _ => ServerStepKeepsLease(s, a, delay);
  }

  lemma {:induction false} TimelyRunsKeepLease(delay: nat, actions: seq<Action>)
    requires TimelyRun(delay, actions)
    ensures LeaseInv(Run(actions), delay)
  {
    if actions != [] {
      TimelyRunsKeepLease(delay, actions[..|actions| - 1]);
      StepKeepsLease(Run(actions[..|actions| - 1]), actions[|actions| - 1], delay);
    }
  }

  lemma LeaseBelowMaxDelay(delay: nat, actions: seq<Action>)
    requires TimelyRun(delay, actions)
    ensures delay < MAX_DELAY ==> LeaseHolds(Run(actions))
    ensures delay <= MAX_DELAY ==> LeaseHoldsBetweenBeats(Run(actions))
  {
    TimelyRunsKeepLease(delay, actions);
    InvGivesLease(Run(actions), delay);
  }

  // ------------------------------------------------------------ the bound is tight

  const QUIET := ServerModel.Hardware(None, true, 0, Capture.Exited(true, false))
  const SPAWNING := QUIET.(spawn := Some(Capture.Pipe(0, [], 0, [])))
  const SUPPLY := ClientModel.Supply(1, 0, true, true)
  const START := InFlight(Control(Start(1)), 0)
  const START_ACK := InFlight(Control(Ack(1, START_TAG)), 0)
  const BEAT_SENT := InFlight(Control(Heartbeat(1)), BEAT)
  const BEAT_ACK := InFlight(Control(Ack(1, HEARTBEAT_TAG)), BEAT)

  lemma Extend(delay: nat, actions: seq<Action>, a: Action) returns (more: seq<Action>)
    requires TimelyRun(delay, actions) && Timely(delay, Run(actions), a)
    ensures TimelyRun(delay, more) && Run(more) == Step(Run(actions), a)
  {
    more := actions + [a];
    assert more[..|actions|] == actions;
  }

  predicate Asked(s: System)
  {
    s.clock == 0 && s.client.phase.Establishing? && s.client.pending == Some(1) && s.client.accepted.None? &&
    START in s.toServer && s.server == ServerModel.NEW_LOOP && s.streams == []
  }

  predicate Serving(s: System, heartbeat: Instant)
  {
    s.server.control.phase.Streaming? && s.server.control.lastActive == Some(1) &&
    s.server.control.lastHeartbeat == Some(heartbeat)
  }

  predicate Listening(s: System, now: Instant, next: Instant, missed: U8)
  {
    s.clock == now && s.client.phase.Streaming? && s.client.accepted == Some(1) &&
    s.client.nextHeartbeat == Some(next) && s.client.missed == missed && s.client.nextCalibration == Some(LEASE)
  }

  /** The client holds an Ack that the server emitted at 5 s, its last sign of life. */
  predicate Held(s: System, now: Instant, next: Instant)
  {
    Listening(s, now, next, 0) && Serving(s, BEAT) && BEAT_ACK in s.toClient
  }

  lemma Ask()
    ensures Asked(Step(INITIAL, ClientStart(1, true)))
  {
    assert Control(Start(1)) in ClientModel.StartRun(ClientModel.Fresh(0), 0, 1, true).sent;
  }

  /** A server with no timer due answers a well-formed message as the handler says. */
  lemma Answered(l: ServerModel.Loop, m: ControlMessage, ack: ControlMessage, now: Instant, hw: ServerModel.Hardware)
    requires ServerModel.Advance(l.control, now, hw) == ServerModel.Moved(l.control, Ok(()))
    requires ServerModel.HandleMessage(l.control, m, now, hw).result == Ok(Some(ack))
    ensures var looped := ServerModel.ServeDatagram(l, PacketBytes(Control(m)), CLIENT, now, 0, 0, hw);
      looped.loop.control == ServerModel.HandleMessage(l.control, m, now, hw).server &&
      InFlight(Control(ack), now) in Stamp(Payloads(looped.sent), now)
  {
    ControlRoundTrip(m);
    var looped := ServerModel.ServeDatagram(l, PacketBytes(Control(m)), CLIENT, now, 0, 0, hw);
    assert Payloads(looped.sent)[0] == Control(ack);
  }

  lemma Grant(s: System)
    requires Asked(s)
    ensures var after := Step(s, ToServer(START, 0, 0, SPAWNING));
      after.client == s.client && after.clock == 0 && Serving(after, 0) && START_ACK in after.toClient
  {
    Answered(s.server, Start(1), Ack(1, START_TAG), 0, SPAWNING);
  }

  lemma Join(s: System)
    requires s.clock == 0 && s.client.phase.Establishing? && s.client.pending == Some(1) && Serving(s, 0)
    ensures var after := Step(s, ToClient(START_ACK, 0)); Listening(after, 0, BEAT, 0) && Serving(after, 0)
  {
    ReplyDecodes(s.client, START_ACK.packet, Some(1), 0, 0);
  }

  lemma Beat(s: System)
    requires Listening(s, BEAT, BEAT, 0) && Serving(s, 0)
    ensures var after := Step(s, ClientAdvance(SUPPLY));
      Listening(after, BEAT, 2 * BEAT, 1) && Serving(after, 0) && BEAT_SENT in after.toServer
  {
    assert Control(Heartbeat(1)) in ClientModel.Advance(s.client, BEAT, SUPPLY).sent;
  }

  lemma Renew(s: System)
    requires Listening(s, BEAT, 2 * BEAT, 1) && Serving(s, 0)
    ensures var after := Step(s, ToServer(BEAT_SENT, 0, 0, QUIET));
      Listening(after, BEAT, 2 * BEAT, 1) && Serving(after, BEAT) && BEAT_ACK in after.toClient
  {
    Answered(s.server, Heartbeat(1), Ack(1, HEARTBEAT_TAG), BEAT, QUIET);
  }

  /** One more delivery of the same Ack buys the client five seconds. */
  lemma Refresh(s: System, now: Instant, next: Instant, missed: U8)
    requires Listening(s, now, next, missed) && Serving(s, BEAT) && BEAT_ACK in s.toClient
    ensures Held(Step(s, ToClient(BEAT_ACK, 0)), now, now + BEAT)
  {
    ReplyDecodes(s.client, BEAT_ACK.packet, Some(1), now, 0);
  }

  lemma Wait(s: System, now: Instant, next: Instant, time: nat)
    requires Held(s, now, next)
    ensures Held(Step(s, Pass(time)), now + time, next)
  {
  }

  lemma Hold(delay: nat) returns (actions: seq<Action>)
    ensures TimelyRun(delay, actions) && Held(Run(actions), BEAT, 2 * BEAT)
  {
    actions := [];
    Ask();
    actions := Extend(delay, actions, ClientStart(1, true));
    Grant(Run(actions));
    actions := Extend(delay, actions, ToServer(START, 0, 0, SPAWNING));
    Join(Run(actions));
    actions := Extend(delay, actions, ToClient(START_ACK, 0));
    actions := Extend(delay, actions, Pass(BEAT));
    Beat(Run(actions));
    actions := Extend(delay, actions, ClientAdvance(SUPPLY));
    Renew(Run(actions));
    actions := Extend(delay, actions, ToServer(BEAT_SENT, 0, 0, QUIET));
    Refresh(Run(actions), BEAT, 2 * BEAT, 1);
    actions := Extend(delay, actions, ToClient(BEAT_ACK, 0));
  }

  /** Waits for `time` and takes the old Ack once more. */
  lemma WaitAndRefresh(delay: nat, actions: seq<Action>, now: Instant, next: Instant, time: nat)
    returns (more: seq<Action>)
    requires TimelyRun(delay, actions) && Held(Run(actions), now, next)
    requires now + time <= next && now + time <= BEAT + delay
    ensures TimelyRun(delay, more) && Held(Run(more), now + time, now + time + BEAT)
  {
    hide Step, Run, TimelyRun;
    more := Extend(delay, actions, Pass(time));
    Wait(Run(actions), now, next, time);
    Refresh(Run(more), now + time, next, 0);
    more := Extend(delay, more, ToClient(BEAT_ACK, 0));
  }

  /** The last heartbeat, 25 s or more after the Ack that the client still holds. */
  lemma LastBeat(s: System, now: Instant)
    requires LEASE <= now < LEASE + BEAT && Held(s, now, now)
    ensures var after := Step(s, ClientAdvance(SUPPLY));
      after.clock == now && after.client.phase.Streaming? && Serving(after, BEAT) &&
      after.client.nextHeartbeat == Some(now + BEAT)
  {
  }

  lemma TimeOut(s: System, next: Instant)
    requires s.clock == LEASE + BEAT && s.client.phase.Streaming? && Serving(s, BEAT)
    requires s.client.nextHeartbeat == Some(next)
    ensures var after := Step(s, ServerTimers(QUIET));
      !LeaseHolds(after) && (next > LEASE + BEAT ==> !LeaseHoldsBetweenBeats(after))
  {
  }

  /** Duplicates of one Ack carry the client from 5 s to 25 s. */
  lemma HoldFor20s(delay: nat) returns (actions: seq<Action>)
    requires delay >= MAX_DELAY
    ensures TimelyRun(delay, actions) && Held(Run(actions), 5 * BEAT, 6 * BEAT)
  {
    actions := Hold(delay);
    actions := WaitAndRefresh(delay, actions, BEAT, 2 * BEAT, BEAT);
    actions := WaitAndRefresh(delay, actions, 2 * BEAT, 3 * BEAT, BEAT);
    actions := WaitAndRefresh(delay, actions, 3 * BEAT, 4 * BEAT, BEAT);
    actions := WaitAndRefresh(delay, actions, 4 * BEAT, 5 * BEAT, BEAT);
  }

  /** From there on the client's own heartbeats are lost: it beats once more and is
      still streaming when the server times out at 35 s. */
  lemma BeatAndTimeOut(delay: nat, actions: seq<Action>, now: Instant, next: Instant) returns (more: seq<Action>)
    requires TimelyRun(delay, actions) && Held(Run(actions), now, next)
    requires now <= next && LEASE <= next < LEASE + BEAT
    ensures TimelyRun(delay, more) && !LeaseHolds(Run(more))
    ensures next > LEASE ==> !LeaseHoldsBetweenBeats(Run(more))
  {
    hide Run, TimelyRun;
    more := Extend(delay, actions, Pass(next - now));
    Wait(Run(actions), now, next, next - now);
    LastBeat(Run(more), next);
    more := Extend(delay, more, ClientAdvance(SUPPLY));
    more := Extend(delay, more, Pass(LEASE + BEAT - next));
    TimeOut(Run(more), next + BEAT);
    more := Extend(delay, more, ServerTimers(QUIET));
  }

  /** At a delay of exactly 20 s the last beat falls on 30 s, and the next one is due
      at the very instant at which the server times out. */
  lemma AckAtMaxDelayBreaksLease(delay: nat) returns (actions: seq<Action>)
    requires delay >= MAX_DELAY
    ensures TimelyRun(delay, actions) && !LeaseHolds(Run(actions))
  {
    actions := HoldFor20s(delay);
    actions := BeatAndTimeOut(delay, actions, 5 * BEAT, 6 * BEAT);
  }

  /** With any longer delay the server also times out between two beats. */
  lemma LateAcksBreakLease(delay: nat) returns (actions: seq<Action>)
    requires delay > MAX_DELAY
    ensures TimelyRun(delay, actions) && !LeaseHoldsBetweenBeats(Run(actions))
  {
    actions := HoldFor20s(delay);
    actions := WaitAndRefresh(delay, actions, 5 * BEAT, 6 * BEAT, 1);
    actions := BeatAndTimeOut(delay, actions, 5 * BEAT + 1, 6 * BEAT + 1);
  }

  ghost predicate LeaseGuaranteed(delay: nat)
  {
    forall actions :: TimelyRun(delay, actions) ==> LeaseHolds(Run(actions))
  }

  ghost predicate LeaseGuaranteedBetweenBeats(delay: nat)
  {
    forall actions :: TimelyRun(delay, actions) ==> LeaseHoldsBetweenBeats(Run(actions))
  }

  /** The lease is guaranteed in every state of every run exactly when every
      datagram reaches the client in less than 20 s from its emission. The way to
      the server may take any time: only the Ack's own journey counts. */
  lemma LeaseExactly(delay: nat)
    ensures LeaseGuaranteed(delay) <==> delay < MAX_DELAY
  {
    if delay < MAX_DELAY {
      forall actions | TimelyRun(delay, actions) ensures LeaseHolds(Run(actions)) {
        LeaseBelowMaxDelay(delay, actions);
      }
    } else {
      var actions := AckAtMaxDelayBreaksLease(delay);
    }
  }

  /** In states in which no heartbeat is due it is guaranteed up to 20 s and no further. */
  lemma LeaseBetweenBeatsExactly(delay: nat)
    ensures LeaseGuaranteedBetweenBeats(delay) <==> delay <= MAX_DELAY
  {
    if delay <= MAX_DELAY {
      forall actions | TimelyRun(delay, actions) ensures LeaseHoldsBetweenBeats(Run(actions)) {
        LeaseBelowMaxDelay(delay, actions);
      }
    } else {
      var actions := LateAcksBreakLease(delay);
    }
  }
}
