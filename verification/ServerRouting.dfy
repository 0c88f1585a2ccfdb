/** Where the service loop sends: Acks and calibration replies to whoever asked, audio
    to the peer of the session, and when it sends audio at all. */
module ServerRouting {
  import opened Machine
  import opened Wire
  import opened WireCodec
  import opened SessionIds
  import opened Capture
  import opened ServerModel
  import opened ServerInvariant
  import opened ServerAnswers

  /** An Ack of this kind is among what was sent. */
  predicate Acks(sent: seq<Addressed>, kind: U8)
  {
    |sent| > 0 && sent[0].packet.Control? && sent[0].packet.message.Ack? && sent[0].packet.message.ackedKind == kind
  }

  /** Who asked for the session, as an observer of the socket sees it: the source of the
      last acknowledged Start, unless a Stop was acknowledged since. */
  function Subscriber(run: seq<(Instant, Service)>): Option<Endpoint>
  {
    if run == [] then None
    else
      var front, last := run[..|run| - 1], run[|run| - 1];
      var sent := Serve(RunService(front), last.0, last.1).sent;
      if last.1.Datagram? && Acks(sent, START_TAG) then Some(last.1.source)
      else if last.1.Datagram? && Acks(sent, STOP_TAG) then None
      else Subscriber(front)
  }

  lemma TurnMovesPeer(l: Loop, now: Instant, e: Service)
    requires Inv(l.control)
    ensures var looped := Serve(l, now, e);
      looped.loop.peer ==
        if e.Datagram? && Acks(looped.sent, START_TAG) then Some(e.source)
        else if e.Datagram? && Acks(looped.sent, STOP_TAG) then None
        else l.peer
  {
    hide NextAudioFrame, Advance, HandleDatagram, ParseCalibration, ParseControl;
    if e.Datagram? {
      AckMeans(l.control, e.packet, now, e.hw);
    }
  }

  /** In every run the peer is the subscriber. */
  lemma {:induction false} PeerIsSubscriber(run: seq<(Instant, Service)>)
    ensures RunService(run).peer == Subscriber(run) && Inv(RunService(run).control)
  {
    if run != [] {
      var front, last := run[..|run| - 1], run[|run| - 1];
      PeerIsSubscriber(front);
      TurnMovesPeer(RunService(front), last.0, last.1);
      ServeKeepsInv(RunService(front), last.0, last.1);
      hide Serve;
    }
  }

  /** In every run, whatever a turn sends is either audio for the subscriber, or an Ack
      or a calibration reply for the sender of the datagram being served. */
  lemma EverythingIsRouted(run: seq<(Instant, Service)>, now: Instant, e: Service, a: Addressed)
    requires a in Serve(RunService(run), now, e).sent
    ensures match a.packet
      case Audio(_) => e.AudioTurn? && Subscriber(run) == Some(a.destination)
      case Control(m) => e.Datagram? && m.Ack? && a.destination == e.source
      case Calibrate(c) => e.Datagram? && c.Reply? && a.destination == e.source
  {
    PeerIsSubscriber(run);
    var l := RunService(run);
    hide RunService, Subscriber, NextAudioFrame, Advance, HandleDatagram, ParseCalibration, ParseControl;
    if e.Datagram? {
      AckMeans(l.control, e.packet, now, e.hw);
    }
  }

  /** A probe is answered at once with its own sequence number and stamp, and touches
      nothing else, not even the timers. */
  lemma ProbeIsAnswered(l: Loop, sequence: U32, t1: U64, source: Endpoint, now: Instant, t2: U64, t3: U64, hw: Hardware)
    ensures ServeDatagram(l, CalibrationBytes(Probe(sequence, t1)), source, now, t2, t3, hw) ==
      Looped(l, [Addressed(Calibrate(Reply(sequence, t1, t2, t3)), source)], Continue)
  {
    CalibrationRoundTrip(Probe(sequence, t1));
  }

  /** Any other datagram: the control plane's answer goes to its sender, the frame
      counter restarts exactly on an acknowledged Start, and the loop leaves exactly
      when a capture process could not be stopped. */
  lemma DatagramTurn(l: Loop, packet: Bytes, source: Endpoint, now: Instant, t2: U64, t3: U64, hw: Hardware)
    requires Inv(l.control) && (packet == [] || packet[0] != CALIBRATION_PROBE_TAG)
    ensures var looped := ServeDatagram(l, packet, source, now, t2, t3, hw);
      var handled := HandleDatagram(l.control, packet, now, hw);
      looped.loop.control == handled.server &&
      looped.sent == (if handled.result.Ok? && handled.result.value.Some? then
                        [Addressed(Control(handled.result.value.value), source)] else []) &&
      looped.loop.sequence == (if Acks(looped.sent, START_TAG) then 0 else l.sequence) &&
      looped.onward == (if handled.result == Err(CaptureStopFailed) then Exit else Proceed)
  {
    AckMeans(l.control, packet, now, hw);
    hide Advance, HandleDatagram, ParseControl;
  }

  /** The timers' turn sends nothing, and leaves the loop exactly when a session that
      timed out has a process that cannot be stopped. */
  lemma TimersTurn(l: Loop, now: Instant, hw: Hardware)
    requires Inv(l.control)
    ensures var looped := ServeTimers(l, now, hw);
      looped.loop == l.(control := Advance(l.control, now, hw).server) && looped.sent == [] &&
      (looped.onward == Exit <==> TimedOut(l.control, now) && l.control.capture.process.Some? && !hw.stopOk) &&
      (looped.onward == Proceed <==> looped.onward != Exit)
  {
    AdvanceFailsOnlyOnStop(l.control, now, hw);
  }

  /** One audio turn: with a peer, a streaming server and a readable frame it sends that
      frame, and only then anything at all; each frame sent takes the next number. */
  lemma AudioTurnSendsExactly(l: Loop, now: Instant, hw: Hardware)
    requires Inv(l.control)
    ensures var looped, read := ServeAudio(l, now, hw), ReadCapture(l.control.capture, hw.observedAt, hw.exit).1;
      var sends := l.peer.Some? && l.control.phase.Streaming? && read.Ok?;
      looped.sent ==
        (if sends then
           [Addressed(Audio(AudioFrame(1, l.control.lastActive.value, l.sequence, read.value.pcm)), l.peer.value)]
         else []) &&
      looped.loop.sequence ==
        (if !sends then l.sequence else if l.sequence == U32_MAX then 0 else l.sequence + 1) &&
      looped.loop.peer == l.peer && looped.onward == Proceed &&
      looped.loop.control ==
        (if l.peer.None? then l.control else NextAudioFrame(l.control, l.sequence, now, hw).0)
  {
    hide ReadCapture;
  }

  /** In particular, whenever the running process supplies a frame. */
  lemma SuppliedFrameIsSent(l: Loop, now: Instant, hw: Hardware)
    requires Inv(l.control) && l.peer.Some? && l.control.phase.Streaming?
    requires var p := l.control.capture.process.value; Supplies(p.script, 480) && p.position + 480 <= |p.stream|
    ensures var p, looped := l.control.capture.process.value, ServeAudio(l, now, hw);
      looped.sent == [Addressed(Audio(AudioFrame(1, l.control.lastActive.value, l.sequence,
                                                 p.stream[p.position..p.position + 480])), l.peer.value)]
  {
    var p := l.control.capture.process.value;
    AudioTurnSendsExactly(l, now, hw);
    ReadsExactlyWhenSupplied(p, 0);
    FrameIsNextBlock(p);
    hide ReadOneFrame, ServeAudio;
  }
}
