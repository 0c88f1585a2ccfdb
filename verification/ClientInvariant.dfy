/** What every operation of the client keeps, over every run. */
module ClientInvariant {
  import opened Machine
  import opened Wire
  import opened WireCodec
  import opened SessionIds
  import opened JitterModel
  import opened JitterInvariant
  import opened ClientModel

  ghost predicate Inv(c: Client)
  {
    JitterInvariant.Valid(c.jitter) &&
    (c.pending.Some? ==> c.accepted.None? && c.pending.value == c.lastIssued) &&
    (c.accepted.Some? ==> c.accepted.value == c.lastIssued) &&
    (c.jitter.session.Some? ==> c.phase.Streaming? && c.jitter.session == c.accepted) &&
    match c.phase
    case Streaming =>
      c.accepted.Some? && c.nextHeartbeat.Some? && c.nextCalibration.Some? && c.missed <= 1
    case Establishing => c.accepted.None? && (c.startDeadline.Some? <==> c.pending.Some?)
    case Unreachable => c.nextRetry.Some? && (c.accepted.Some? ==> c.nextCalibration.Some?)
    case Stopped => CurrentSession(c).None?
  }

  /** The operations an environment can invoke on a client. */
  datatype Operation =
    | DoStart(epochMs: U64, startOk: bool)
    | DoStop(stopOk: bool)
    | DoAdvance(supply: Supply)
    | DoReceive(packet: Bytes, t4: U64)
    | DoRender(renderOk: bool)

  /** What one operation does: the new state, the packets it attempts, the frame it renders. */
  datatype Effect = Effect(client: Client, sent: seq<Packet>, rendered: Option<AudioFrame>)

  function Perform(c: Client, now: Instant, op: Operation): Effect
  {
    match op
    case DoStart(epochMs, ok) => var m := StartRun(c, now, epochMs, ok); Effect(m.client, m.sent, None)
    case DoStop(ok) => var m := StopRun(c, ok); Effect(m.client, m.sent, None)
    case DoAdvance(s) => var m := Advance(c, now, s); Effect(m.client, m.sent, None)
    case DoReceive(packet, t4) => Effect(Receive(c, packet, now, t4).client, [], None)
    case DoRender(ok) => var r := RenderReady(c, now, ok); Effect(r.client, [], r.frame)
  }

  lemma StartKeepsInv(c: Client, now: Instant, epochMs: U64, ok: bool)
    requires Inv(c)
    ensures Inv(StartRun(c, now, epochMs, ok).client) && Inv(StopRun(c, ok).client)
  {
  }

  lemma ProbeKeepsInv(c: Client, now: Instant, t1: U64, ok: bool)
    requires Inv(c)
    ensures Inv(MaybeRecalibrate(c, now, t1, ok).client)
  {
  }

  lemma HeartbeatKeepsInv(c: Client, now: Instant, ok: bool)
    requires Inv(c) && c.phase.Streaming?
    ensures Inv(AdvanceStreaming(c, now, ok).client)
  {
  }

  lemma AdvanceKeepsInv(c: Client, now: Instant, s: Supply)
    requires Inv(c)
    ensures Inv(Advance(c, now, s).client)
  {
    ProbeKeepsInv(c, now, s.t1, s.probeOk);
    var probed := MaybeRecalibrate(c, now, s.t1, s.probeOk);
    if probed.result.Ok? && c.phase.Streaming? {
      HeartbeatKeepsInv(probed.client, now, s.controlOk);
    }
  }

  lemma MessageKeepsInv(c: Client, m: ControlMessage, now: Instant)
    requires Inv(c)
    ensures Inv(ReceiveMessage(c, m, now).client)
  {
  }

  lemma FrameKeepsInv(c: Client, f: AudioFrame, now: Instant)
    requires Inv(c)
    ensures Inv(ReceiveFrame(c, f, now).client)
  {
    PushKeepsValid(c.jitter, f, ElapsedMs(c.origin, now));
  }

  lemma ReceiveKeepsInv(c: Client, packet: Bytes, now: Instant, t4: U64)
    requires Inv(c)
    ensures Inv(Receive(c, packet, now, t4).client)
  {
    var m, f := ParseControl(packet), ParseAudio(packet);
    if m.Ok? {
      MessageKeepsInv(c, m.value, now);
    }
    if f.Ok? {
      FrameKeepsInv(c, f.value, now);
    }
  }

  lemma RenderKeepsInv(c: Client, now: Instant, ok: bool)
    requires Inv(c)
    ensures Inv(RenderReady(c, now, ok).client)
  {
    PollKeepsValid(c.jitter, ElapsedMs(c.origin, now));
  }

  lemma OperationKeepsInv(c: Client, now: Instant, op: Operation)
    requires Inv(c)
    ensures Inv(Perform(c, now, op).client)
  {
    match op
    case DoStart(epochMs, ok) => StartKeepsInv(c, now, epochMs, ok);
    case DoStop(ok) => StartKeepsInv(c, now, 0, ok);
    case DoAdvance(s) => AdvanceKeepsInv(c, now, s);
    case DoReceive(packet, t4) => ReceiveKeepsInv(c, packet, now, t4);
    case DoRender(ok) => RenderKeepsInv(c, now, ok);
  }

  // ------------------------------------------------------------ runs

  /** A run: operations with the instants at which they happen, latest last. */
  function RunClient(origin: Instant, run: seq<(Instant, Operation)>): Client
  {
    if run == [] then Fresh(origin)
    else
      var last := run[|run| - 1];
      Perform(RunClient(origin, run[..|run| - 1]), last.0, last.1).client
  }

  /** In every reachable client state: never both a pending and an accepted id,
      each being the last id issued; Streaming has an accepted id, armed heartbeat
      and calibration deadlines and at most one miss; the jitter buffer is in use
      only while Streaming and then for the accepted session. */
  lemma {:induction false} ReachableClients(origin: Instant, run: seq<(Instant, Operation)>)
    ensures var c := RunClient(origin, run);
      Inv(c) &&
      !(c.pending.Some? && c.accepted.Some?) &&
      (c.phase.Streaming? ==>
        c.accepted == Some(c.lastIssued) && c.nextHeartbeat.Some? && c.nextCalibration.Some? && c.missed <= 1) &&
      (c.jitter.session.Some? ==> c.phase.Streaming? && c.jitter.session == c.accepted)
  {
    if run != [] {
      ReachableClients(origin, run[..|run| - 1]);
      var last := run[|run| - 1];
      OperationKeepsInv(RunClient(origin, run[..|run| - 1]), last.0, last.1);
    }
  }

  /** A frame is never refused as belonging to another session: the control plane
      filters those first. */
  lemma SessionMismatchIsUnreachable(c: Client, packet: Bytes, now: Instant, t4: U64)
    requires Inv(c)
    ensures var r := Receive(c, packet, now, t4).result;
      r.Ok? && r.value.AudioQueued? ==>
        c.accepted == Some(r.value.sessionId) && !r.value.outcome.SessionMismatch?
  {
  }

  /** A slot is rendered only while Streaming, and carries the accepted session;
      an audio slot is a resident frame, a gap slot is silence. */
  lemma RenderedSlotIsAccepted(c: Client, now: Instant, ok: bool)
    requires Inv(c)
    ensures var r := RenderReady(c, now, ok);
      r.frame.Some? ==>
        c.phase.Streaming? && c.accepted == Some(r.frame.value.sessionId) &&
        c.jitter.next == Some(r.frame.value.sequence) &&
        (r.frame.value in c.jitter.frames || r.frame.value.pcm == Silence())
  {
    PollKeepsValid(c.jitter, ElapsedMs(c.origin, now));
    if PollDue(c.jitter, ElapsedMs(c.origin, now)) {
      var item := Poll(c.jitter, ElapsedMs(c.origin, now)).item.value;
      assert item.AudioItem? ==> c.jitter.frames[0] == item.frame;
    }
  }

  /** Once stopped, a client stays stopped, sends nothing and renders nothing,
      whatever arrives and however much time passes, until an explicit start. */
  lemma StoppedIsSilent(c: Client, now: Instant, op: Operation)
    requires Inv(c) && c.phase.Stopped? && !op.DoStart?
    ensures var e := Perform(c, now, op);
      e.client.phase.Stopped? && e.sent == [] && e.rendered.None?
  {
  }

  /** What a packet means: a Start carries a brand-new id that is now pending, a
      Heartbeat the session being streamed, a Stop the session being given up. */
  lemma PacketsAreCurrent(c: Client, now: Instant, op: Operation)
    requires Inv(c)
    ensures var e := Perform(c, now, op);
      forall p :: p in e.sent && p.Control? ==>
        (p.message.Start? ==>
          p.message.sessionId == e.client.lastIssued > c.lastIssued &&
          e.client.pending == Some(p.message.sessionId)) &&
        (p.message.Heartbeat? ==> c.phase.Streaming? && c.accepted == Some(p.message.sessionId)) &&
        (p.message.Stop? ==> op.DoStop? && CurrentSession(c) == Some(p.message.sessionId)) &&
        !p.message.Ack?
  {
    match op
    case DoStart(epochMs, ok) => NextIsLeastNewer(epochMs, c.lastIssued, 0);
    case DoAdvance(s) => NextIsLeastNewer(s.epochMs, c.lastIssued, 0);
    case _ =>
  }
}
