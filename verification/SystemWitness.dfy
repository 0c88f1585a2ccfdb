/** The system does play audio: a run that carries any block from the capture process
    to the renderer. And everything the server sends in it, as in any run, is
    addressed to the client. */
module SystemWitness {
  import opened Machine
  import opened Wire
  import opened WireCodec
  import opened SessionIds
  import opened System
  import opened SystemAgreement
  import opened JitterModel
  import Capture
  import ClientModel
  import ClientAnswers
  import ServerModel
  import ServerInvariant
  import ServerRouting
  import SystemLease

  // ------------------------------------------------------------ addressing

  /** The server knows no peer other than the client. */
  predicate PeerIsClient(s: System)
  {
    s.server.peer.None? || s.server.peer == Some(CLIENT)
  }

  /** What a turn of the service loop sends, if the action is one. */
  function SentBy(s: System, a: Action): seq<ServerModel.Addressed>
  {
    match a
    case ToServer(d, t2, t3, hw) =>
      ServerModel.ServeDatagram(s.server, PacketBytes(d.packet), CLIENT, s.clock, t2, t3, hw).sent
    case ServerTimers(hw) => ServerModel.ServeTimers(s.server, s.clock, hw).sent
    case ServerAudio(hw) => ServerModel.ServeAudio(s.server, s.clock, hw).sent
    case _ => []
  }

  lemma StepKeepsPeer(s: System, a: Action)
    requires Agree(s) && PeerIsClient(s)
    ensures PeerIsClient(Step(s, a))
    ensures forall m :: m in SentBy(s, a) ==> m.destination == CLIENT
  {
    hide ServerModel.HandleDatagram, ServerModel.Advance, ServerModel.NextAudioFrame, ParseControl, ParseCalibration;
    hide ClientModel.Advance, ClientModel.Receive, ClientModel.RenderReady, ClientModel.StartRun, ClientModel.StopRun;
  }

  lemma {:induction false} RunKeepsPeer(actions: seq<Action>)
    requires Legal(actions)
    ensures Agree(Run(actions)) && PeerIsClient(Run(actions))
  {
    RunAgrees(actions);
    if actions != [] {
      RunKeepsPeer(actions[..|actions| - 1]);
      StepKeepsPeer(Run(actions[..|actions| - 1]), actions[|actions| - 1]);
    }
  }

  /** In every run the server sends to the client only, which is what allows the network
      to drop the addresses. */
  lemma EverythingIsForTheClient(actions: seq<Action>, a: Action)
    requires Legal(actions) && Enabled(Run(actions), a)
    ensures forall m :: m in SentBy(Run(actions), a) ==> m.destination == CLIENT
  {
    RunKeepsPeer(actions);
    StepKeepsPeer(Run(actions), a);
  }

  // ------------------------------------------------------------ one block, end to end

  /** A process that writes one block and hands it over in one read. */
  function OneBlock(pcm: PcmFrame): Capture.Pipe
  {
    Capture.Pipe(0, pcm, 0, [Capture.Deliver(480)])
  }

  function Spawning(pcm: PcmFrame): ServerModel.Hardware
  {
    ServerModel.Hardware(Some(OneBlock(pcm)), true, 0, Capture.Exited(true, false))
  }

  function BlockFrame(pcm: PcmFrame): AudioFrame { AudioFrame(1, 1, 0, pcm) }

  predicate Ready(s: System, pcm: PcmFrame)
  {
    s.server.control.phase.Streaming? && s.server.control.lastActive == Some(1) && s.server.peer == Some(CLIENT) &&
    s.server.sequence == 0 && s.server.control.capture.process == Some(OneBlock(pcm)) &&
    s.clock == 0 && s.sentLog == [] && s.played == [] && s.client.origin == 0
  }

  predicate Joined(s: System)
  {
    s.client.phase.Streaming? && s.client.accepted == Some(1) && s.client.jitter == EMPTY
  }

  lemma GrantWithBlock(s: System, pcm: PcmFrame)
    requires SystemLease.Asked(s) && s.sentLog == [] && s.played == [] && s.client.origin == 0
    ensures var after := Step(s, ToServer(SystemLease.START, 0, 0, Spawning(pcm)));
      Ready(after, pcm) && after.client == s.client && SystemLease.START_ACK in after.toClient
  {
    SystemLease.Answered(s.server, Start(1), Ack(1, START_TAG), 0, Spawning(pcm));
    ControlRoundTrip(Start(1));
    hide ParseControl;
  }

  lemma JoinAfterGrant(s: System, pcm: PcmFrame)
    requires Ready(s, pcm) && s.client.phase.Establishing? && s.client.pending == Some(1)
    requires SystemLease.START_ACK in s.toClient
    ensures var after := Step(s, ToClient(SystemLease.START_ACK, 0)); Ready(after, pcm) && Joined(after)
  {
    ReplyDecodes(s.client, SystemLease.START_ACK.packet, Some(1), 0, 0);
    hide ClientModel.Receive;
  }

  lemma SendBlock(s: System, pcm: PcmFrame)
    requires Ready(s, pcm) && Joined(s) && ServerInvariant.Inv(s.server.control)
    ensures var after := Step(s, ServerAudio(SystemLease.QUIET));
      after.client == s.client && after.clock == 0 && after.played == [] &&
      after.sentLog == [SentFrame(BlockFrame(pcm), 0, 0)] && InFlight(Audio(BlockFrame(pcm)), 0) in after.toClient
  {
    assert pcm[0..480] == pcm;
    assert Capture.Supplies([Capture.Deliver(480)], 480);
    ServerRouting.SuppliedFrameIsSent(s.server, 0, SystemLease.QUIET);
    var sent := ServerModel.ServeAudio(s.server, 0, SystemLease.QUIET).sent;
    assert Payloads(sent)[0] == Audio(BlockFrame(pcm));
    assert AudioIn(sent, 0, 0) == SentFrameOf(sent[0].packet, 0, 0) + AudioIn(sent[1..], 0, 0);
    assert sent[1..] == [];
    hide ServerModel.ServeAudio;
  }

  lemma HearBlock(s: System, pcm: PcmFrame)
    requires Joined(s) && s.clock == 0 && s.client.origin == 0
    ensures var after := Step(s, ToClient(InFlight(Audio(BlockFrame(pcm)), 0), 0));
      after.played == s.played && after.sentLog == s.sentLog && after.clock == 0 &&
      after.client == s.client.(jitter := Push(EMPTY, BlockFrame(pcm), 0).buffer)
  {
    ClientAnswers.FrameIsTakenExactly(s.client, BlockFrame(pcm), 0, 0);
    hide ClientModel.Receive, Push;
  }

  lemma PlayBlock(s: System, pcm: PcmFrame)
    requires s.clock == 40 * MILLISECOND && s.client.origin == 0 && s.played == []
    requires s.client.jitter == Push(EMPTY, BlockFrame(pcm), 0).buffer
    ensures Step(s, ClientRender(true)).played == [BlockFrame(pcm)]
  {
    var f := BlockFrame(pcm);
    var pacing := Pacing(Some(0), Some(40), 40, 0, 0);
    assert s.client.jitter == Jitter([f], Some(1), Some(0), Some(0), None, Some((0, 0)), pacing);
    assert ClientModel.ElapsedMs(0, s.clock) == 40;
    assert Poll(s.client.jitter, 40).item == Some(AudioItem(f));
    hide Poll, Push;
  }

  lemma Extend(actions: seq<Action>, a: Action) returns (more: seq<Action>)
    requires Legal(actions) && Enabled(Run(actions), a)
    ensures Legal(more) && Run(more) == Step(Run(actions), a)
  {
    more := actions + [a];
    assert more[..|actions|] == actions;
  }

  /** For every block there is a legal run in which the capture process writes it, the
      server sends it once, and the client renders exactly it. */
  lemma AnyBlockCanBePlayed(pcm: PcmFrame) returns (actions: seq<Action>)
    ensures Legal(actions)
    ensures Run(actions).sentLog == [SentFrame(BlockFrame(pcm), 0, 0)]
    ensures Run(actions).played == [BlockFrame(pcm)]
  {
    SystemLease.Ask();
    actions := Extend([], ClientStart(1, true));
    assert Run([]) == INITIAL;
    assert Run(actions).sentLog == [] && Run(actions).played == [] && Run(actions).client.origin == 0;
    hide Run, Legal, Step, ServerInvariant.Inv;
    GrantWithBlock(Run(actions), pcm);
    actions := Extend(actions, ToServer(SystemLease.START, 0, 0, Spawning(pcm)));
    JoinAfterGrant(Run(actions), pcm);
    actions := Extend(actions, ToClient(SystemLease.START_ACK, 0));
    RunAgrees(actions);
    SendBlock(Run(actions), pcm);
    actions := Extend(actions, ServerAudio(SystemLease.QUIET));
    HearBlock(Run(actions), pcm);
    actions := Extend(actions, ToClient(InFlight(Audio(BlockFrame(pcm)), 0), 0));
    var heard := Run(actions);
    actions := Extend(actions, Pass(40 * MILLISECOND));
    PassOnly(heard, 40 * MILLISECOND);
    PlayBlock(Run(actions), pcm);
    actions := Extend(actions, ClientRender(true));
    RenderKeepsLog(heard, 40 * MILLISECOND);
  }

  lemma PassOnly(s: System, time: nat)
    ensures Step(s, Pass(time)) == s.(clock := s.clock + time)
  {
  }

  lemma RenderKeepsLog(s: System, time: nat)
    ensures Step(Step(s, Pass(time)), ClientRender(true)).sentLog == s.sentLog
  {
  }
}
