/** End-to-end integrity of the audio: from the bytes a capture process writes to
    the frames the client renders. */
module SystemIntegrity {
  import opened Machine
  import opened Wire
  import opened WireCodec
  import opened Capture
  import opened System
  import opened SystemAgreement
  import JitterModel
  import JitterInvariant
  import ClientModel
  import ClientInvariant
  import ServerModel
  import ServerInvariant

  // ------------------------------------------------------------ cutting

  /** The frame is the 480-byte block at `offset` of the stream of process `pid`. */
  ghost predicate IsCut(e: SentFrame, streams: seq<Bytes>)
  {
    e.pid < |streams| && e.offset + PCM_PAYLOAD_BYTES <= |streams[e.pid]| &&
    e.frame.pcm == streams[e.pid][e.offset..e.offset + PCM_PAYLOAD_BYTES]
  }

  /** Block e ends before byte `position` of process `pid`. */
  predicate EndsBefore(e: SentFrame, pid: nat, position: nat)
  {
    e.pid < pid || (e.pid == pid && e.offset + PCM_PAYLOAD_BYTES <= position)
  }

  ghost predicate CutInv(s: System)
  {
    var process := s.server.control.capture.process;
    (process.Some? ==> process.value.pid < |s.streams| && s.streams[process.value.pid] == process.value.stream) &&
    (forall i :: 0 <= i < |s.sentLog| ==> IsCut(s.sentLog[i], s.streams)) &&
    (forall i, k :: 0 <= i < k < |s.sentLog| ==> EndsBefore(s.sentLog[i], s.sentLog[k].pid, s.sentLog[k].offset)) &&
    (process.Some? ==> forall i :: 0 <= i < |s.sentLog| ==>
      EndsBefore(s.sentLog[i], process.value.pid, process.value.position))
  }

  /** A turn that reads no audio keeps the process, drops it, or starts the one offered. */
  predicate ProcessKept(before: Option<Pipe>, after: Option<Pipe>, hw: ServerModel.Hardware)
  {
    after.None? || after == before || after == hw.spawn
  }

  lemma TurnsKeepProcess(l: ServerModel.Loop, packet: Bytes, now: Instant, t2: U64, t3: U64, hw: ServerModel.Hardware)
    ensures ProcessKept(l.control.capture.process,
              ServerModel.ServeDatagram(l, packet, CLIENT, now, t2, t3, hw).loop.control.capture.process, hw)
    ensures ProcessKept(l.control.capture.process,
              ServerModel.ServeTimers(l, now, hw).loop.control.capture.process, hw)
  {
    hide ParseControl, ParseCalibration;
  }

  lemma OfferKeepsCut(s: System, after: System, hw: ServerModel.Hardware)
    requires CutInv(s) && NewProcess(s, hw)
    requires after.sentLog == s.sentLog && after.streams == Offered(s.streams, hw)
    requires ProcessKept(s.server.control.capture.process, after.server.control.capture.process, hw)
    ensures CutInv(after)
  {
    forall i | 0 <= i < |after.sentLog| ensures IsCut(after.sentLog[i], after.streams) {
      assert IsCut(s.sentLog[i], s.streams);
    }
  }

  /** `after` is the process `before`, read further. */
  predicate ReadOn(before: Option<Pipe>, after: Option<Pipe>)
  {
    after.Some? ==>
      before.Some? && after.value.pid == before.value.pid && after.value.stream == before.value.stream &&
      after.value.position >= before.value.position
  }

  /** One audio turn: nothing is sent, or the block at the reading position. */
  lemma AudioTurnCuts(l: ServerModel.Loop, now: Instant, hw: ServerModel.Hardware)
    requires ServerInvariant.Inv(l.control)
    ensures var looped, before := ServerModel.ServeAudio(l, now, hw), l.control.capture.process;
      var after := looped.loop.control.capture.process;
      ReadOn(before, after) &&
      (looped.sent != [] ==>
        before.Some? && after.Some? && |looped.sent| == 1 && looped.sent[0].packet.Audio? &&
        after.value.position == before.value.position + PCM_PAYLOAD_BYTES <= |before.value.stream| &&
        looped.sent[0].packet.frame.pcm ==
          before.value.stream[before.value.position..before.value.position + PCM_PAYLOAD_BYTES])
  {
    if l.control.capture.process.Some? {
      FrameIsNextBlock(l.control.capture.process.value);
    }
  }

  lemma LoggedOne(cut: Option<Pipe>, sent: seq<ServerModel.Addressed>)
    requires |sent| <= 1 && (sent != [] ==> cut.Some? && sent[0].packet.Audio?)
    ensures LoggedBy(cut, sent) ==
      if sent == [] then [] else [SentFrame(sent[0].packet.frame, cut.value.pid, cut.value.position)]
  {
    if sent != [] {
      assert AudioIn(sent, cut.value.pid, cut.value.position) ==
        SentFrameOf(sent[0].packet, cut.value.pid, cut.value.position) +
        AudioIn(sent[1..], cut.value.pid, cut.value.position);
    }
  }

  lemma AudioKeepsCut(s: System, hw: ServerModel.Hardware)
    requires CutInv(s) && NewProcess(s, hw) && ServerInvariant.Inv(s.server.control)
    ensures CutInv(Step(s, ServerAudio(hw)))
  {
    AudioTurnCuts(s.server, s.clock, hw);
    LoggedOne(s.server.control.capture.process, ServerModel.ServeAudio(s.server, s.clock, hw).sent);
    var after := Step(s, ServerAudio(hw));
    forall i | 0 <= i < |after.sentLog| ensures IsCut(after.sentLog[i], after.streams) {
      if i < |s.sentLog| {
        assert IsCut(s.sentLog[i], s.streams);
      }
    }
  }

  // ------------------------------------------------------------ numbering

  /** How many frames of a session are in the log. */
  function CountOf(log: seq<SentFrame>, session: U64): nat
  {
    if log == [] then 0
    else CountOf(log[..|log| - 1], session) + if log[|log| - 1].frame.sessionId == session then 1 else 0
  }

  /** Each frame is numbered by how many of its session went before it. */
  ghost predicate Numbered(log: seq<SentFrame>, active: Option<U64>)
  {
    log == [] ||
    (Numbered(log[..|log| - 1], active) &&
     var last := log[|log| - 1].frame;
     active.Some? && last.sessionId <= active.value &&
     last.sequence == Wrap(CountOf(log[..|log| - 1], last.sessionId)))
  }

  lemma {:induction false} NumberedAt(log: seq<SentFrame>, active: Option<U64>, i: nat)
    requires Numbered(log, active) && i < |log|
    ensures log[i].frame.sequence == Wrap(CountOf(log[..i], log[i].frame.sessionId))
    ensures active.Some? && log[i].frame.sessionId <= active.value
  {
    if i < |log| - 1 {
      NumberedAt(log[..|log| - 1], active, i);
      assert log[..|log| - 1][..i] == log[..i];
    }
  }

  lemma {:induction false} NumberedUnderHigher(log: seq<SentFrame>, active: Option<U64>, higher: Option<U64>)
    requires Numbered(log, active) && ServerInvariant.NotBelow(higher, active)
    ensures Numbered(log, higher)
  {
    if log != [] {
      NumberedUnderHigher(log[..|log| - 1], active, higher);
    }
  }

  ghost predicate NumberInv(s: System)
  {
    Numbered(s.sentLog, HighWater(s)) &&
    (HighWater(s).Some? ==> s.server.sequence == Wrap(CountOf(s.sentLog, HighWater(s).value)))
  }

  lemma {:induction false} NoneYet(log: seq<SentFrame>, session: U64)
    requires forall i :: 0 <= i < |log| ==> log[i].frame.sessionId < session
    ensures CountOf(log, session) == 0
  {
    if log != [] {
      NoneYet(log[..|log| - 1], session);
    }
  }

  /** The frame counter stays with its session and restarts when a newer one starts. */
  predicate CounterFollows(active: Option<U64>, sequence: U32, after: Option<U64>, sequence': U32)
  {
    if after == active then sequence' == sequence
    else (sequence' == 0 && after.Some? && (active.Some? ==> active.value < after.value))
  }

  lemma CounterRestarts(l: ServerModel.Loop, p: Packet, lastIssued: U64, now: Instant, t2: U64, t3: U64,
                        hw: ServerModel.Hardware)
    requires ServerInvariant.Inv(l.control) && RequestOk(p, lastIssued)
    ensures var after := ServerModel.ServeDatagram(l, PacketBytes(p), CLIENT, now, t2, t3, hw).loop;
      CounterFollows(l.control.lastActive, l.sequence, after.control.lastActive, after.sequence)
  {
    ServerInvariant.AdvanceKeepsInv(l.control, now, hw);
    match p {
      case Control(m) => ControlRoundTrip(m);
      case Calibrate(c) => CalibrationRoundTrip(c);
    }
  }

  lemma RestartKeepsNumbers(s: System, after: System)
    requires NumberInv(s) && after.sentLog == s.sentLog
    requires CounterFollows(HighWater(s), s.server.sequence, HighWater(after), after.server.sequence)
    ensures NumberInv(after)
  {
    NumberedUnderHigher(s.sentLog, HighWater(s), HighWater(after));
    if HighWater(after) != HighWater(s) {
      forall i | 0 <= i < |s.sentLog| ensures s.sentLog[i].frame.sessionId < HighWater(after).value {
        NumberedAt(s.sentLog, HighWater(s), i);
      }
      NoneYet(s.sentLog, HighWater(after).value);
    }
  }

  lemma CountAppend(log: seq<SentFrame>, e: SentFrame, session: U64)
    ensures CountOf(log + [e], session) == CountOf(log, session) + if e.frame.sessionId == session then 1 else 0
  {
    assert (log + [e])[..|log|] == log;
  }

  lemma NumberedAppend(log: seq<SentFrame>, active: Option<U64>, e: SentFrame)
    requires Numbered(log, active) && active == Some(e.frame.sessionId)
    requires e.frame.sequence == Wrap(CountOf(log, e.frame.sessionId))
    ensures Numbered(log + [e], active)
  {
    assert (log + [e])[..|log|] == log;
  }

  lemma AudioKeepsNumbers(s: System, hw: ServerModel.Hardware)
    requires NumberInv(s) && ServerInvariant.Inv(s.server.control)
    ensures NumberInv(Step(s, ServerAudio(hw)))
  {
    var cut, sent := s.server.control.capture.process, ServerModel.ServeAudio(s.server, s.clock, hw).sent;
    hide Numbered, CountOf, LoggedBy;
    AudioTurnCuts(s.server, s.clock, hw);
    LoggedOne(cut, sent);
    if sent != [] {
      var e := SentFrame(sent[0].packet.frame, cut.value.pid, cut.value.position);
      CountAppend(s.sentLog, e, HighWater(s).value);
      NumberedAppend(s.sentLog, HighWater(s), e);
      WrapSuccessor(CountOf(s.sentLog, HighWater(s).value));
    } else {
      assert s.sentLog + [] == s.sentLog;
    }
  }

  lemma {:induction false} CountMonotone(log: seq<SentFrame>, session: U64, i: nat)
    requires i <= |log|
    ensures CountOf(log[..i], session) <= CountOf(log, session)
  {
    if i < |log| {
      CountMonotone(log[..|log| - 1], session, i);
      assert log[..|log| - 1][..i] == log[..i];
    } else {
      assert log[..i] == log;
    }
  }

  /** Every frame of a session is counted after the ones before it. */
  lemma CountAfter(log: seq<SentFrame>, i: nat, k: nat)
    requires i < k <= |log|
    ensures CountOf(log[..i], log[i].frame.sessionId) < CountOf(log[..k], log[i].frame.sessionId)
  {
    CountMonotone(log[..k], log[i].frame.sessionId, i + 1);
    assert log[..k][..i + 1] == log[..i + 1];
    assert log[..i + 1][..i] == log[..i];
  }

  /** A (session, sequence) pair is not used twice within the first 2^32 frames of a session. */
  lemma NumbersDoNotRepeat(log: seq<SentFrame>, active: Option<U64>, i: nat, k: nat)
    requires Numbered(log, active) && i < k < |log|
    requires log[i].frame.sessionId == log[k].frame.sessionId && log[i].frame.sequence == log[k].frame.sequence
    ensures CountOf(log, log[i].frame.sessionId) > U32_LIMIT
  {
    var session := log[i].frame.sessionId;
    NumberedAt(log, active, i);
    NumberedAt(log, active, k);
    CountAfter(log, i, k);
    CountAfter(log, k, |log|);
    assert log[..|log|] == log;
    var a, b := CountOf(log[..i], session), CountOf(log[..k], session);
    if b - a < U32_LIMIT {
      WrapIdentifies(b, a);
    }
  }

  // ------------------------------------------------------------ carrying

  ghost predicate Logged(f: AudioFrame, log: seq<SentFrame>)
  {
    exists i :: 0 <= i < |log| && log[i].frame == f
  }

  lemma LogOnlyGrows(f: AudioFrame, log: seq<SentFrame>, more: seq<SentFrame>)
    requires Logged(f, log)
    ensures Logged(f, log + more)
  {
    var i :| 0 <= i < |log| && log[i].frame == f;
    assert (log + more)[i].frame == f;
  }

  /** Whatever audio is in the network, in the jitter buffer or was played, was sent. */
  ghost predicate CarryInv(s: System)
  {
    (forall d :: d in s.toClient && d.packet.Audio? ==> Logged(d.packet.frame, s.sentLog)) &&
    (forall f :: f in s.client.jitter.frames ==> Logged(f, s.sentLog)) &&
    (forall f :: f in s.played ==> Logged(f, s.sentLog))
  }

  lemma PushAddsAtMost(j: JitterModel.Jitter, f: AudioFrame, arrival: U64)
    requires JitterInvariant.Valid(j)
    ensures forall g :: g in JitterModel.Push(j, f, arrival).buffer.frames ==> g in j.frames || g == f
  {
    JitterInvariant.PushKeepsValid(j, f, arrival);
    var fate := JitterModel.Push(j, f, arrival).fate;
    if fate.Queued? {
      JitterInvariant.QueueKeepsOrder(fate.before, f);
    }
  }

  lemma DeliveryKeepsCarry(s: System, d: InFlight, t4: U64)
    requires Agree(s) && CarryInv(s) && d in s.toClient
    ensures CarryInv(Step(s, ToClient(d, t4)))
  {
    ReplyDecodes(s.client, d.packet, HighWater(s), s.clock, t4);
    if d.packet.Audio? {
      PushAddsAtMost(s.client.jitter, d.packet.frame, ClientModel.ElapsedMs(s.client.origin, s.clock));
    }
  }

  lemma RenderKeepsCarry(s: System, ok: bool)
    requires Agree(s) && CarryInv(s)
    ensures CarryInv(Step(s, ClientRender(ok)))
  {
    JitterInvariant.PollKeepsValid(s.client.jitter, ClientModel.ElapsedMs(s.client.origin, s.clock));
  }

  lemma ClientMovesKeepCarry(s: System, client: ClientModel.Client, sent: seq<Packet>)
    requires CarryInv(s) && (client.jitter == s.client.jitter || client.jitter == JitterModel.EMPTY)
    ensures CarryInv(ClientMoves(s, client, sent))
  {
  }

  lemma OperationsKeepJitter(c: ClientModel.Client, now: Instant, epochMs: U64, ok: bool, supply: ClientModel.Supply)
    ensures ClientModel.StartRun(c, now, epochMs, ok).client.jitter == JitterModel.EMPTY
    ensures ClientModel.StopRun(c, ok).client.jitter == JitterModel.EMPTY
    ensures var after := ClientModel.Advance(c, now, supply).client.jitter;
      after == c.jitter || after == JitterModel.EMPTY
  {
  }

  lemma ServerKeepsCarry(s: System, after: System, sent: seq<ServerModel.Addressed>, more: seq<SentFrame>)
    requires CarryInv(s)
    requires after.client == s.client && after.played == s.played && after.sentLog == s.sentLog + more
    requires after.toClient == s.toClient + Stamp(Payloads(sent), s.clock)
    requires forall a :: a in sent && a.packet.Audio? ==> Logged(a.packet.frame, after.sentLog)
    ensures CarryInv(after)
  {
    forall f | Logged(f, s.sentLog) ensures Logged(f, after.sentLog) {
      LogOnlyGrows(f, s.sentLog, more);
    }
    forall d | d in after.toClient && d.packet.Audio? ensures Logged(d.packet.frame, after.sentLog) {
      if d !in s.toClient {
        var i :| 0 <= i < |sent| && Payloads(sent)[i] == d.packet;
        assert sent[i] in sent;
      }
    }
  }

  // ------------------------------------------------------------ all together

  ghost predicate Intact(s: System)
  {
    CutInv(s) && NumberInv(s) && CarryInv(s)
  }

  ghost predicate Sound(s: System)
  {
    Agree(s) && Intact(s)
  }

  lemma RequestStaysIntact(s: System, d: InFlight, t2: U64, t3: U64, hw: ServerModel.Hardware)
    requires Sound(s) && Enabled(s, ToServer(d, t2, t3, hw))
    ensures Intact(Step(s, ToServer(d, t2, t3, hw)))
  {
    var after := Step(s, ToServer(d, t2, t3, hw));
    var looped := ServerModel.ServeDatagram(s.server, PacketBytes(d.packet), CLIENT, s.clock, t2, t3, hw);
    TurnsKeepProcess(s.server, PacketBytes(d.packet), s.clock, t2, t3, hw);
    OfferKeepsCut(s, after, hw);
    CounterRestarts(s.server, d.packet, s.client.lastIssued, s.clock, t2, t3, hw);
    RestartKeepsNumbers(s, after);
    RequestIsServed(s.server, d.packet, s.client.lastIssued, s.clock, t2, t3, hw);
    RequestsSendNoAudio(s.server, PacketBytes(d.packet), s.clock, t2, t3, hw);
    assert s.sentLog + [] == s.sentLog;
    ServerKeepsCarry(s, after, looped.sent, []);
  }

  lemma RequestsSendNoAudio(l: ServerModel.Loop, packet: Bytes, now: Instant, t2: U64, t3: U64,
                            hw: ServerModel.Hardware)
    ensures forall a :: a in ServerModel.ServeDatagram(l, packet, CLIENT, now, t2, t3, hw).sent ==> !a.packet.Audio?
  {
  }

  lemma TimersStayIntact(s: System, hw: ServerModel.Hardware)
    requires Sound(s) && Enabled(s, ServerTimers(hw))
    ensures Intact(Step(s, ServerTimers(hw)))
  {
    var after := Step(s, ServerTimers(hw));
    TurnsKeepProcess(s.server, [], s.clock, 0, 0, hw);
    OfferKeepsCut(s, after, hw);
    ServerInvariant.AdvanceKeepsInv(s.server.control, s.clock, hw);
    RestartKeepsNumbers(s, after);
    assert s.sentLog + [] == s.sentLog;
    ServerKeepsCarry(s, after, [], []);
  }

  lemma AudioKeepsCarry(s: System, hw: ServerModel.Hardware)
    requires CarryInv(s) && ServerInvariant.Inv(s.server.control)
    ensures CarryInv(Step(s, ServerAudio(hw)))
  {
    var cut, sent := s.server.control.capture.process, ServerModel.ServeAudio(s.server, s.clock, hw).sent;
    var after := Step(s, ServerAudio(hw));
    AudioTurnCuts(s.server, s.clock, hw);
    LoggedOne(cut, sent);
    if sent != [] {
      assert after.sentLog[|s.sentLog|].frame == sent[0].packet.frame;
      assert sent == [sent[0]];
    }
    ServerKeepsCarry(s, after, sent, LoggedBy(cut, sent));
  }

  lemma ClientActionsStayIntact(s: System, a: Action)
    requires Sound(s) && (a.ClientStart? || a.ClientStop? || a.ClientAdvance?)
    ensures Intact(Step(s, a))
  {
    match a
    case ClientStart(epochMs, ok) =>
      OperationsKeepJitter(s.client, s.clock, epochMs, ok, ClientModel.Supply(0, 0, ok, ok));
      var m := ClientModel.StartRun(s.client, s.clock, epochMs, ok);
      ClientMovesKeepCarry(s, m.client, m.sent);
    case ClientStop(ok) =>
      OperationsKeepJitter(s.client, s.clock, 0, ok, ClientModel.Supply(0, 0, ok, ok));
      var m := ClientModel.StopRun(s.client, ok);
      ClientMovesKeepCarry(s, m.client, m.sent);
    case ClientAdvance(supply) =>
      OperationsKeepJitter(s.client, s.clock, 0, true, supply);
      var m := ClientModel.Advance(s.client, s.clock, supply);
      ClientMovesKeepCarry(s, m.client, m.sent);
  }

  lemma StepStaysIntact(s: System, a: Action)
    requires Sound(s) && Enabled(s, a)
    ensures Intact(Step(s, a))
  {
    match a
    case Pass(_) =>
    case ClientRender(ok) => RenderKeepsCarry(s, ok);
    case ToClient(d, t4) => DeliveryKeepsCarry(s, d, t4);
    case ToServer(d, t2, t3, hw) => RequestStaysIntact(s, d, t2, t3, hw);
    case ServerTimers(hw) => TimersStayIntact(s, hw);
    case ServerAudio(hw) =>
      AudioKeepsCut(s, hw);
      AudioKeepsNumbers(s, hw);
      AudioKeepsCarry(s, hw);
    case _ => ClientActionsStayIntact(s, a);
  }

  lemma {:induction false} RunIsSound(actions: seq<Action>)
    requires Legal(actions)
    ensures Sound(Run(actions))
  {
    if actions != [] {
      RunIsSound(actions[..|actions| - 1]);
      StepAgrees(Run(actions[..|actions| - 1]), actions[|actions| - 1]);
      StepStaysIntact(Run(actions[..|actions| - 1]), actions[|actions| - 1]);
    }
  }

  /** End-to-end integrity, in every run. Each audio frame rendered was sent under
      its session and sequence, and its payload is byte for byte one contiguous
      480-byte block of what one capture process wrote. */
  lemma RenderedAudioIsCaptured(actions: seq<Action>, k: nat) returns (i: nat)
    requires Legal(actions) && k < |Run(actions).played|
    ensures var s := Run(actions);
      i < |s.sentLog| && s.sentLog[i].frame == s.played[k] && IsCut(s.sentLog[i], s.streams)
  {
    RunIsSound(actions);
    var s := Run(actions);
    assert s.played[k] in s.played;
    i :| 0 <= i < |s.sentLog| && s.sentLog[i].frame == s.played[k];
  }

  /** Successive frames are cut from disjoint, increasing blocks; and two frames of
      one session share a sequence number only after 2^32 frames of it. */
  lemma BlocksAndNumbersAreDistinct(actions: seq<Action>, i: nat, k: nat)
    requires Legal(actions) && i < k < |Run(actions).sentLog|
    ensures var log := Run(actions).sentLog;
      EndsBefore(log[i], log[k].pid, log[k].offset) &&
      (log[i].frame.sessionId == log[k].frame.sessionId && log[i].frame.sequence == log[k].frame.sequence ==>
        CountOf(log, log[i].frame.sessionId) > U32_LIMIT)
  {
    RunIsSound(actions);
    var s := Run(actions);
    if s.sentLog[i].frame.sessionId == s.sentLog[k].frame.sessionId
       && s.sentLog[i].frame.sequence == s.sentLog[k].frame.sequence {
      NumbersDoNotRepeat(s.sentLog, HighWater(s), i, k);
    }
  }
}
