/** Session agreement between the two machines, over every run of the system. */
module SystemAgreement {
  import opened Machine
  import opened Wire
  import opened WireCodec
  import opened SessionIds
  import opened System
  import ClientModel
  import ClientInvariant
  import ServerModel
  import ServerInvariant

  /** What may be on its way to the server, given the last id the client issued. */
  predicate RequestOk(p: Packet, lastIssued: U64)
  {
    match p
    case Control(m) => !m.Ack? && m.sessionId <= lastIssued
    case Calibrate(c) => c.Probe?
    case Audio(_) => false
  }

  /** What may be on its way to the client, given the server's session high-water mark. */
  predicate ReplyOk(p: Packet, lastActive: Option<U64>)
  {
    match p
    case Control(m) =>
      m.Ack? && IsControlKind(m.ackedKind) && lastActive.Some? && m.sessionId <= lastActive.value
    case Calibrate(c) => c.Reply?
    case Audio(f) => f.version == WIRE_VERSION
  }

  ghost predicate AcksIncrease(acks: seq<U64>, lastActive: Option<U64>)
  {
    (forall i :: 0 <= i < |acks| ==> lastActive.Some? && acks[i] <= lastActive.value) &&
    forall i, k :: 0 <= i < k < |acks| ==> acks[i] < acks[k]
  }

  function HighWater(s: System): Option<U64> { s.server.control.lastActive }

  ghost predicate Agree(s: System)
  {
    ClientInvariant.Inv(s.client) && ServerInvariant.Inv(s.server.control) &&
    (HighWater(s).Some? ==> HighWater(s).value <= s.client.lastIssued) &&
    (forall d :: d in s.toServer ==> RequestOk(d.packet, s.client.lastIssued)) &&
    (forall d :: d in s.toClient ==> ReplyOk(d.packet, HighWater(s))) &&
    (s.client.accepted.Some? ==> HighWater(s) == s.client.accepted) &&
    AcksIncrease(s.startAcks, HighWater(s))
  }

  // ------------------------------------------------------------ the client's moves

  ghost predicate ClientStepOk(c: ClientModel.Client, after: ClientModel.Client, sent: seq<Packet>)
  {
    ClientInvariant.Inv(after) && IdsStepOk(c, after, sent)
  }

  /** What any operation that is not a receipt does to the client's ids. */
  ghost predicate IdsStepOk(c: ClientModel.Client, after: ClientModel.Client, sent: seq<Packet>)
  {
    after.lastIssued >= c.lastIssued &&
    (after.accepted.Some? ==> after.accepted == c.accepted && after.lastIssued == c.lastIssued) &&
    (ClientModel.CurrentSession(after).Some? ==>
      ClientModel.CurrentSession(after) == ClientModel.CurrentSession(c) || after.lastIssued > c.lastIssued) &&
    forall p :: p in sent ==>
      RequestOk(p, after.lastIssued) &&
      (p.Control? && p.message.Stop? ==> ClientModel.CurrentSession(after).None?)
  }

  lemma StartIsOk(c: ClientModel.Client, now: Instant, epochMs: U64, ok: bool)
    requires ClientInvariant.Inv(c)
    ensures var m := ClientModel.StartRun(c, now, epochMs, ok); ClientStepOk(c, m.client, m.sent)
  {
    NextIsLeastNewer(epochMs, c.lastIssued, 0);
    ClientInvariant.StartKeepsInv(c, now, epochMs, ok);
  }

  lemma StopIsOk(c: ClientModel.Client, ok: bool)
    requires ClientInvariant.Inv(c)
    ensures var m := ClientModel.StopRun(c, ok); ClientStepOk(c, m.client, m.sent)
  {
    ClientInvariant.StartKeepsInv(c, 0, 0, ok);
  }

  lemma TimersAreOk(c: ClientModel.Client, now: Instant, epochMs: U64, ok: bool)
    requires ClientInvariant.Inv(c)
    ensures var m := ClientModel.AdvancePhase(c, now, epochMs, ok); IdsStepOk(c, m.client, m.sent)
  {
    NextIsLeastNewer(epochMs, c.lastIssued, 0);
  }

  lemma ProbeIsOk(c: ClientModel.Client, now: Instant, t1: U64, ok: bool)
    requires ClientInvariant.Inv(c)
    ensures var m := ClientModel.MaybeRecalibrate(c, now, t1, ok);
      ClientInvariant.Inv(m.client) && IdsStepOk(c, m.client, m.sent) &&
      m.client.lastIssued == c.lastIssued && m.client.accepted == c.accepted && m.client.pending == c.pending &&
      forall p :: p in m.sent ==> p.Calibrate? && p.calibration.Probe?
  {
  }

  lemma AdvanceIsOk(c: ClientModel.Client, now: Instant, supply: ClientModel.Supply)
    requires ClientInvariant.Inv(c)
    ensures var m := ClientModel.Advance(c, now, supply); ClientStepOk(c, m.client, m.sent)
  {
    ClientInvariant.AdvanceKeepsInv(c, now, supply);
    ProbeIsOk(c, now, supply.t1, supply.probeOk);
    var probed := ClientModel.MaybeRecalibrate(c, now, supply.t1, supply.probeOk);
    TimersAreOk(probed.client, now, supply.epochMs, supply.controlOk);
    hide ClientInvariant.Inv, ClientModel.MaybeRecalibrate, ClientModel.AdvancePhase;
  }

  lemma ClientMovesAgree(s: System, client: ClientModel.Client, sent: seq<Packet>)
    requires Agree(s) && ClientStepOk(s.client, client, sent)
    ensures Agree(ClientMoves(s, client, sent))
  {
  }

  // ------------------------------------------------------------ delivery

  /** A datagram that the network may hold decodes to what was encoded. */
  lemma ReplyDecodes(c: ClientModel.Client, p: Packet, lastActive: Option<U64>, now: Instant, t4: U64)
    requires ReplyOk(p, lastActive)
    ensures ClientModel.Receive(c, PacketBytes(p), now, t4) ==
      match p
      case Control(m) => ClientModel.ReceiveMessage(c, m, now)
      case Calibrate(reply) => ClientModel.ReceiveReply(c, reply, t4)
      case Audio(f) => ClientModel.ReceiveFrame(c, f, now)
  {
    match p
    case Control(m) => ControlRoundTrip(m);
    case Calibrate(reply) => CalibrationRoundTrip(reply);
    case Audio(f) => AudioRoundTrip(f);
  }

  lemma DeliveryAgrees(s: System, d: InFlight, t4: U64)
    requires Agree(s) && d in s.toClient
    ensures Agree(Step(s, ToClient(d, t4)))
  {
    assert s.client.pending.Some? ==> s.client.pending.value == s.client.lastIssued;
    hide ClientInvariant.Inv, ClientModel.Receive;
    ReplyDecodes(s.client, d.packet, HighWater(s), s.clock, t4);
    ClientInvariant.ReceiveKeepsInv(s.client, PacketBytes(d.packet), s.clock, t4);
  }

  // ------------------------------------------------------------ the server's moves

  /** What any turn of the service loop does, as seen by the network. */
  ghost predicate ServerStepOk(before: ServerModel.Loop, looped: ServerModel.Looped)
  {
    var active := looped.loop.control.lastActive;
    ServerInvariant.Inv(looped.loop.control) &&
    ServerInvariant.NotBelow(active, before.control.lastActive) &&
    (|looped.sent| == 0 || |looped.sent| == 1) &&
    (forall a :: a in looped.sent ==> ReplyOk(a.packet, active)) &&
    (active != before.control.lastActive <==> StartAcksIn(looped.sent) != []) &&
    (StartAcksIn(looped.sent) != [] ==> StartAcksIn(looped.sent) == [active.value])
  }

  lemma OneStartAck(a: ServerModel.Addressed)
    ensures StartAcksIn([a]) == StartAckOf(a.packet)
  {
    assert StartAcksIn([a]) == StartAckOf(a.packet) + StartAcksIn([]);
  }

  lemma RequestIsServed(l: ServerModel.Loop, p: Packet, lastIssued: U64, now: Instant, t2: U64, t3: U64,
                        hw: ServerModel.Hardware)
    requires ServerInvariant.Inv(l.control) && RequestOk(p, lastIssued)
    ensures var looped := ServerModel.ServeDatagram(l, PacketBytes(p), CLIENT, now, t2, t3, hw);
      ServerStepOk(l, looped) &&
      (looped.loop.control.lastActive != l.control.lastActive ==>
        p.Control? && p.message.Start? && looped.loop.control.lastActive == Some(p.message.sessionId))
  {
    hide ParseControl, ParseCalibration;
    var looped := ServerModel.ServeDatagram(l, PacketBytes(p), CLIENT, now, t2, t3, hw);
    ServerInvariant.AdvanceKeepsInv(l.control, now, hw);
    match p {
      case Control(m) =>
        ControlRoundTrip(m);
        ServerInvariant.DatagramKeepsInv(l.control, ControlBytes(m), now, hw);
      case Calibrate(c) => CalibrationRoundTrip(c);
    }
    if looped.sent != [] {
      OneStartAck(looped.sent[0]);
      assert looped.sent == [looped.sent[0]];
    }
  }

  lemma TimersAndAudioAreServed(l: ServerModel.Loop, now: Instant, hw: ServerModel.Hardware)
    requires ServerInvariant.Inv(l.control)
    ensures ServerStepOk(l, ServerModel.ServeTimers(l, now, hw))
    ensures ServerStepOk(l, ServerModel.ServeAudio(l, now, hw))
    ensures StartAcksIn(ServerModel.ServeTimers(l, now, hw).sent) == []
    ensures StartAcksIn(ServerModel.ServeAudio(l, now, hw).sent) == []
  {
    ServerInvariant.AdvanceKeepsInv(l.control, now, hw);
    ServerInvariant.AudioKeepsInv(l.control, l.sequence, now, hw);
    var audio := ServerModel.ServeAudio(l, now, hw);
    if audio.sent != [] {
      OneStartAck(audio.sent[0]);
      assert audio.sent == [audio.sent[0]];
    }
  }

  lemma AcksGrow(acks: seq<U64>, before: Option<U64>, active: Option<U64>, more: seq<U64>)
    requires AcksIncrease(acks, before) && ServerInvariant.NotBelow(active, before)
    requires active == before ==> more == []
    requires active != before ==> active.Some? && more == [active.value]
    ensures AcksIncrease(acks + more, active)
  {
    if active != before {
      assert before.Some? ==> before.value < active.value;
    } else {
      assert acks + more == acks;
    }
  }

  lemma ServerMovesAgree(s: System, looped: ServerModel.Looped, hw: ServerModel.Hardware, acks: seq<U64>)
    requires Agree(s) && ServerStepOk(s.server, looped)
    requires var active := looped.loop.control.lastActive;
      active != HighWater(s) ==> active.Some? && active.value <= s.client.lastIssued && s.client.accepted.None?
    requires acks == s.startAcks + StartAcksIn(looped.sent)
    ensures Agree(ServerMoves(s, looped, hw).(startAcks := acks))
  {
    var active := looped.loop.control.lastActive;
    var after := ServerMoves(s, looped, hw);
    AcksGrow(s.startAcks, HighWater(s), active, StartAcksIn(looped.sent));
    forall d | d in after.toClient ensures ReplyOk(d.packet, active) {
      if d !in s.toClient {
        var i :| 0 <= i < |looped.sent| && Payloads(looped.sent)[i] == d.packet;
        assert looped.sent[i] in looped.sent;
      }
    }
  }

  lemma RequestAgrees(s: System, d: InFlight, t2: U64, t3: U64, hw: ServerModel.Hardware)
    requires Agree(s) && d in s.toServer
    ensures Agree(Step(s, ToServer(d, t2, t3, hw)))
  {
    RequestIsServed(s.server, d.packet, s.client.lastIssued, s.clock, t2, t3, hw);
    var looped := ServerModel.ServeDatagram(s.server, PacketBytes(d.packet), CLIENT, s.clock, t2, t3, hw);
    ServerMovesAgree(s, looped, hw, s.startAcks + StartAcksIn(looped.sent));
  }

  lemma StepAgrees(s: System, a: Action)
    requires Agree(s) && Enabled(s, a)
    ensures Agree(Step(s, a))
  {
    match a
    case Pass(_) =>
    case ClientStart(epochMs, ok) =>
      StartIsOk(s.client, s.clock, epochMs, ok);
      var m := ClientModel.StartRun(s.client, s.clock, epochMs, ok);
      ClientMovesAgree(s, m.client, m.sent);
    case ClientStop(ok) =>
      StopIsOk(s.client, ok);
      var m := ClientModel.StopRun(s.client, ok);
      ClientMovesAgree(s, m.client, m.sent);
    case ClientAdvance(supply) =>
      AdvanceIsOk(s.client, s.clock, supply);
      var m := ClientModel.Advance(s.client, s.clock, supply);
      ClientMovesAgree(s, m.client, m.sent);
    case ClientRender(ok) => ClientInvariant.RenderKeepsInv(s.client, s.clock, ok);
    case ToClient(d, t4) => DeliveryAgrees(s, d, t4);
    case ToServer(d, t2, t3, hw) => RequestAgrees(s, d, t2, t3, hw);
    case ServerTimers(hw) =>
      TimersAndAudioAreServed(s.server, s.clock, hw);
      assert s.startAcks + [] == s.startAcks;
      ServerMovesAgree(s, ServerModel.ServeTimers(s.server, s.clock, hw), hw, s.startAcks);
    case ServerAudio(hw) =>
      TimersAndAudioAreServed(s.server, s.clock, hw);
      assert s.startAcks + [] == s.startAcks;
      ServerMovesAgree(s, ServerModel.ServeAudio(s.server, s.clock, hw), hw, s.startAcks);
  }

  lemma {:induction false} RunAgrees(actions: seq<Action>)
    requires Legal(actions)
    ensures Agree(Run(actions))
  {
    if actions != [] {
      RunAgrees(actions[..|actions| - 1]);
      StepAgrees(Run(actions[..|actions| - 1]), actions[|actions| - 1]);
    }
  }

  /** Session agreement. In every run, with loss, duplication and reordering: a
      session that the client holds as accepted is the last one it issued and is
      the server's active one; and no session is acknowledged as started twice. */
  lemma SessionAgreement(actions: seq<Action>)
    requires Legal(actions)
    ensures var s := Run(actions);
      (s.client.accepted.Some? ==>
        s.client.accepted.value == s.client.lastIssued && s.server.control.lastActive == s.client.accepted) &&
      (forall i, k :: 0 <= i < k < |s.startAcks| ==> s.startAcks[i] != s.startAcks[k])
  {
    RunAgrees(actions);
  }
}
