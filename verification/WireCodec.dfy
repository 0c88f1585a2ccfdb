/** The three wire codecs as functions on byte sequences, with the proof that
    each decoder is the exact inverse of its encoder. */
module WireCodec {
  import opened Machine
  import opened Wire

  // ------------------------------------------------------------ big-endian integers

  function Pow256(width: nat): nat { if width == 0 then 1 else 256 * Pow256(width - 1) }

  /** `to_be_bytes`, most significant byte first. */
  function ToBe(n: nat, width: nat): (b: Bytes)
    ensures |b| == width
  {
    if width == 0 then [] else ToBe(n / 256, width - 1) + [n % 256]
  }

  /** `from_be_bytes`. */
  function FromBe(b: Bytes): nat
  {
    if b == [] then 0 else FromBe(b[..|b| - 1]) * 256 + b[|b| - 1]
  }

  lemma {:induction false} FromBeBound(b: Bytes)
    ensures FromBe(b) < Pow256(|b|)
  {
    if b != [] {
      FromBeBound(b[..|b| - 1]);
    }
  }

  lemma {:induction false} FromToBe(n: nat, width: nat)
    requires n < Pow256(width)
    ensures FromBe(ToBe(n, width)) == n
  {
    if width > 0 {
      FromToBe(n / 256, width - 1);
      var b := ToBe(n, width);
      assert b[..|b| - 1] == ToBe(n / 256, width - 1);
    }
  }

  lemma {:induction false} ToFromBe(b: Bytes)
    ensures ToBe(FromBe(b), |b|) == b
  {
    if b != [] {
      ToFromBe(b[..|b| - 1]);
      assert b == b[..|b| - 1] + [b[|b| - 1]];
    }
  }

  lemma WidthsFit()
    ensures Pow256(4) == U32_LIMIT && Pow256(8) == U64_LIMIT
  {
    assert Pow256(2) == 0x1_0000;
    assert Pow256(4) == 0x1_0000_0000;
    assert Pow256(6) == 0x1_0000_0000_0000;
  }

  function Be32(n: U32): (b: Bytes)
    ensures |b| == 4
  {
    ToBe(n, 4)
  }

  function Be64(n: U64): (b: Bytes)
    ensures |b| == 8
  {
    ToBe(n, 8)
  }

  function Read32(b: Bytes): U32
    requires |b| == 4
  {
    WidthsFit();
    FromBeBound(b);
    FromBe(b)
  }

  function Read64(b: Bytes): U64
    requires |b| == 8
  {
    WidthsFit();
    FromBeBound(b);
    FromBe(b)
  }

  lemma Be32RoundTrip(n: U32)
    ensures Read32(Be32(n)) == n
  {
    WidthsFit();
    FromToBe(n, 4);
  }

  lemma Be64RoundTrip(n: U64)
    ensures Read64(Be64(n)) == n
  {
    WidthsFit();
    FromToBe(n, 8);
  }

  lemma Be32Canonical(b: Bytes)
    requires |b| == 4
    ensures Be32(Read32(b)) == b
  {
    ToFromBe(b);
  }

  lemma Be64Canonical(b: Bytes)
    requires |b| == 8
    ensures Be64(Read64(b)) == b
  {
    ToFromBe(b);
  }

  // ------------------------------------------------------------ audio

  function AudioBytes(f: AudioFrame): (b: Bytes)
    ensures |b| == AUDIO_PACKET_BYTES
  {
    [AUDIO_TAG, f.version] + Be64(f.sessionId) + Be32(f.sequence) + f.pcm
  }

  function ParseAudio(packet: Bytes): Result<AudioFrame, ProtocolError>
  {
    if |packet| == 0 then Err(Truncated(AUDIO_PACKET_BYTES, 0))
    else if packet[0] != AUDIO_TAG then Err(InvalidTag(packet[0]))
    else if |packet| < 2 then Err(Truncated(AUDIO_PACKET_BYTES, |packet|))
    else if packet[1] != WIRE_VERSION then Err(InvalidVersion(WIRE_VERSION, packet[1]))
    else if |packet| < AUDIO_PACKET_BYTES then Err(Truncated(AUDIO_PACKET_BYTES, |packet|))
    else if |packet| > AUDIO_PACKET_BYTES then Err(InvalidLength(AUDIO_PACKET_BYTES, |packet|))
    else Ok(AudioFrame(packet[1], Read64(packet[2..10]), Read32(packet[10..14]), packet[14..]))
  }

  lemma AudioLayout(f: AudioFrame)
    ensures var b := AudioBytes(f);
      b[0] == AUDIO_TAG && b[1] == f.version &&
      b[2..10] == Be64(f.sessionId) && b[10..14] == Be32(f.sequence) && b[14..] == f.pcm
  {
  }

  /** Decoding an encoded frame gives it back, exactly when it carries the current version. */
  lemma AudioRoundTrip(f: AudioFrame)
    ensures ParseAudio(AudioBytes(f)) == Ok(f) <==> f.version == WIRE_VERSION
  {
    AudioLayout(f);
    Be64RoundTrip(f.sessionId);
    Be32RoundTrip(f.sequence);
  }

  /** The only bytes that decode are the encoding of the result. */
  lemma AudioCanonical(packet: Bytes)
    ensures ParseAudio(packet).Ok? ==>
      packet == AudioBytes(ParseAudio(packet).value) && ParseAudio(packet).value.version == WIRE_VERSION
    ensures ParseAudio(packet).Ok? <==>
      |packet| == AUDIO_PACKET_BYTES && packet[0] == AUDIO_TAG && packet[1] == WIRE_VERSION
  {
    if ParseAudio(packet).Ok? {
      Be64Canonical(packet[2..10]);
      Be32Canonical(packet[10..14]);
      assert packet == [packet[0], packet[1]] + packet[2..10] + packet[10..14] + packet[14..];
    }
  }

  // ------------------------------------------------------------ control

  function ControlTag(m: ControlMessage): U8
  {
    match m
    case Start(_) => START_TAG
    case Heartbeat(_) => HEARTBEAT_TAG
    case Stop(_) => STOP_TAG
    case Ack(_, _) => ACK_TAG
  }

  function ControlBytes(m: ControlMessage): Bytes
  {
    [ControlTag(m), WIRE_VERSION] + Be64(m.sessionId) + if m.Ack? then [m.ackedKind] else []
  }

  /** The datagram length that a control tag calls for. */
  function ControlLength(tag: U8): nat
  {
    if tag == ACK_TAG then ACK_PACKET_BYTES else CONTROL_HEADER_BYTES
  }

  function ParseControl(packet: Bytes): Result<ControlMessage, ProtocolError>
  {
    if |packet| == 0 then Err(Truncated(CONTROL_HEADER_BYTES, 0))
    else
      var tag := packet[0];
      if !IsControlKind(tag) && tag != ACK_TAG then Err(InvalidTag(tag))
      else
        var expected := ControlLength(tag);
        if |packet| < 2 then Err(Truncated(expected, |packet|))
        else if packet[1] != WIRE_VERSION then Err(InvalidVersion(WIRE_VERSION, packet[1]))
        else if |packet| < expected then Err(Truncated(expected, |packet|))
        else if |packet| > expected then Err(InvalidLength(expected, |packet|))
        else
          var sessionId := Read64(packet[2..10]);
          if tag == START_TAG then Ok(Start(sessionId))
          else if tag == HEARTBEAT_TAG then Ok(Heartbeat(sessionId))
          else if tag == STOP_TAG then Ok(Stop(sessionId))
          else if !IsControlKind(packet[10]) then Err(InvalidTag(packet[10]))
          else Ok(Ack(sessionId, packet[10]))
  }

  /** Decoding an encoded message gives it back, exactly when an Ack names a control kind. */
  lemma ControlRoundTrip(m: ControlMessage)
    ensures ParseControl(ControlBytes(m)) == Ok(m) <==> (m.Ack? ==> IsControlKind(m.ackedKind))
  {
    var b := ControlBytes(m);
    assert b[2..10] == Be64(m.sessionId);
    Be64RoundTrip(m.sessionId);
  }

  lemma ControlCanonical(packet: Bytes)
    ensures ParseControl(packet).Ok? ==>
      packet == ControlBytes(ParseControl(packet).value) &&
      (ParseControl(packet).value.Ack? ==> IsControlKind(ParseControl(packet).value.ackedKind))
    ensures ParseControl(packet).Ok? <==>
      |packet| >= 2 && packet[1] == WIRE_VERSION &&
      ((IsControlKind(packet[0]) && |packet| == CONTROL_HEADER_BYTES) ||
       (packet[0] == ACK_TAG && |packet| == ACK_PACKET_BYTES && IsControlKind(packet[10])))
  {
    if ParseControl(packet).Ok? {
      Be64Canonical(packet[2..10]);
      assert packet == [packet[0], packet[1]] + packet[2..10] + packet[10..];
    }
  }

  // ------------------------------------------------------------ calibration

  function CalibrationBytes(p: CalibrationPacket): Bytes
  {
    match p
    case Probe(sequence, t1) => [CALIBRATION_PROBE_TAG, WIRE_VERSION] + Be32(sequence) + Be64(t1)
    case Reply(sequence, t1, t2, t3) =>
      [CALIBRATION_REPLY_TAG, WIRE_VERSION] + Be32(sequence) + Be64(t1) + Be64(t2) + Be64(t3)
  }

  function ParseCalibration(packet: Bytes): Result<CalibrationPacket, ProtocolError>
  {
    if |packet| == 0 then Err(Truncated(CALIBRATION_PROBE_BYTES, 0))
    else
      var tag := packet[0];
      if tag != CALIBRATION_PROBE_TAG && tag != CALIBRATION_REPLY_TAG then Err(InvalidTag(tag))
      else
        var expected := if tag == CALIBRATION_PROBE_TAG then CALIBRATION_PROBE_BYTES else CALIBRATION_REPLY_BYTES;
        // a missing version byte reads as 0 here, unlike in the other two decoders
        if |packet| < 2 then Err(InvalidVersion(WIRE_VERSION, 0))
        else if packet[1] != WIRE_VERSION then Err(InvalidVersion(WIRE_VERSION, packet[1]))
        else if |packet| < expected then Err(Truncated(expected, |packet|))
        else if |packet| > expected then Err(InvalidLength(expected, |packet|))
        else
          var sequence, t1 := Read32(packet[2..6]), Read64(packet[6..14]);
          if tag == CALIBRATION_PROBE_TAG then Ok(Probe(sequence, t1))
          else Ok(Reply(sequence, t1, Read64(packet[14..22]), Read64(packet[22..30])))
  }

  lemma ReplyLayout(head: Bytes, a: Bytes, t1: Bytes, t2: Bytes, t3: Bytes)
    requires |head| == 2 && |a| == 4 && |t1| == |t2| == |t3| == 8
    ensures var b := head + a + t1 + t2 + t3;
      b[2..6] == a && b[6..14] == t1 && b[14..22] == t2 && b[22..30] == t3
  {
  }

  lemma ProbeLayout(head: Bytes, a: Bytes, t1: Bytes)
    requires |head| == 2 && |a| == 4 && |t1| == 8
    ensures var b := head + a + t1; b[2..6] == a && b[6..14] == t1
  {
  }

  lemma CalibrationRoundTrip(p: CalibrationPacket)
    ensures ParseCalibration(CalibrationBytes(p)) == Ok(p)
  {
    Be32RoundTrip(p.sequence);
    Be64RoundTrip(p.t1);
    match p
    case Probe(sequence, t1) =>
      ProbeLayout([CALIBRATION_PROBE_TAG, WIRE_VERSION], Be32(sequence), Be64(t1));
    case Reply(sequence, t1, t2, t3) =>
      Be64RoundTrip(t2);
      Be64RoundTrip(t3);
      ReplyLayout([CALIBRATION_REPLY_TAG, WIRE_VERSION], Be32(sequence), Be64(t1), Be64(t2), Be64(t3));
  }

  lemma CalibrationCanonical(packet: Bytes)
    ensures ParseCalibration(packet).Ok? ==> packet == CalibrationBytes(ParseCalibration(packet).value)
    ensures ParseCalibration(packet).Ok? <==>
      |packet| >= 2 && packet[1] == WIRE_VERSION &&
      ((packet[0] == CALIBRATION_PROBE_TAG && |packet| == CALIBRATION_PROBE_BYTES) ||
       (packet[0] == CALIBRATION_REPLY_TAG && |packet| == CALIBRATION_REPLY_BYTES))
  {
    if ParseCalibration(packet).Ok? {
      Be32Canonical(packet[2..6]);
      Be64Canonical(packet[6..14]);
      if packet[0] == CALIBRATION_REPLY_TAG {
        Be64Canonical(packet[14..22]);
        Be64Canonical(packet[22..30]);
        assert packet == [packet[0], packet[1]] + packet[2..6] + packet[6..14] + packet[14..22] + packet[22..30];
      } else {
        assert packet == [packet[0], packet[1]] + packet[2..6] + packet[6..14];
      }
    }
  }

  // ------------------------------------------------------------ bytes on the wire

  /** The most significant byte comes first. */
  lemma Read32IsBigEndian(b: Bytes)
    requires |b| == 4
    ensures var b0: int, b1: int, b2: int, b3: int := b[0], b[1], b[2], b[3];
      Read32(b) == ((b0 * 256 + b1) * 256 + b2) * 256 + b3
  {
    assert b[..3][..2] == b[..2] && b[..2][..1] == b[..1];
    assert FromBe(b[..1]) == b[0];
    assert FromBe(b[..2]) == FromBe(b[..1]) * 256 + b[1];
    assert FromBe(b[..3]) == FromBe(b[..2]) * 256 + b[2];
  }

  lemma Read64IsBigEndian(b: Bytes)
    requires |b| == 8
    ensures var b4: int, b5: int, b6: int, b7: int := b[4], b[5], b[6], b[7];
      Read64(b) == (((Read32(b[..4]) * 256 + b4) * 256 + b5) * 256 + b6) * 256 + b7
  {
    assert b[..7][..6] == b[..6] && b[..6][..5] == b[..5] && b[..5][..4] == b[..4];
    assert FromBe(b[..5]) == FromBe(b[..4]) * 256 + b[4];
    assert FromBe(b[..6]) == FromBe(b[..5]) * 256 + b[5];
    assert FromBe(b[..7]) == FromBe(b[..6]) * 256 + b[6];
    assert FromBe(b) == FromBe(b[..7]) * 256 + b[7];
    hide FromBe;
  }

  /** Where each field of an encoded packet lies. Encoding then decoding only says that
      the two directions agree; this pins the bytes themselves. */
  lemma AudioOnTheWire(f: AudioFrame)
    ensures var b := AudioBytes(f);
      |b| == 494 && b[0] == 0 && b[1] == f.version && Read64(b[2..10]) == f.sessionId &&
      Read32(b[10..14]) == f.sequence && b[14..] == f.pcm
  {
    AudioLayout(f);
    Be64RoundTrip(f.sessionId);
    Be32RoundTrip(f.sequence);
  }

  lemma ControlOnTheWire(m: ControlMessage)
    ensures var b := ControlBytes(m);
      |b| == (if m.Ack? then 11 else 10) && b[1] == 1 && Read64(b[2..10]) == m.sessionId &&
      b[0] == (if m.Start? then 1 else if m.Heartbeat? then 2 else if m.Stop? then 3 else 4) &&
      (m.Ack? ==> b[10] == m.ackedKind)
  {
    assert ControlBytes(m)[2..10] == Be64(m.sessionId);
    Be64RoundTrip(m.sessionId);
  }

  lemma CalibrationOnTheWire(p: CalibrationPacket)
    ensures var b := CalibrationBytes(p);
      |b| == (if p.Probe? then 14 else 30) && b[0] == (if p.Probe? then 5 else 6) && b[1] == 1 &&
      Read32(b[2..6]) == p.sequence && Read64(b[6..14]) == p.t1 &&
      (p.Reply? ==> Read64(b[14..22]) == p.t2 && Read64(b[22..30]) == p.t3)
  {
    Be32RoundTrip(p.sequence);
    Be64RoundTrip(p.t1);
    match p
    case Probe(sequence, t1) => ProbeLayout([CALIBRATION_PROBE_TAG, WIRE_VERSION], Be32(sequence), Be64(t1));
    case Reply(sequence, t1, t2, t3) =>
      Be64RoundTrip(t2);
      Be64RoundTrip(t3);
      ReplyLayout([CALIBRATION_REPLY_TAG, WIRE_VERSION], Be32(sequence), Be64(t1), Be64(t2), Be64(t3));
  }

  /** Which error each malformed packet gets: the tag is judged first, then the version,
      then the length, and the kind of an Ack last. */
  lemma AudioErrorsAreExact(b: Bytes)
    ensures ParseAudio(b).Err? ==>
      ParseAudio(b).error == (
        if b == [] then Truncated(494, 0)
        else if b[0] != 0 then InvalidTag(b[0])
        else if |b| > 1 && b[1] != 1 then InvalidVersion(1, b[1])
        else if |b| < 494 then Truncated(494, |b|) else InvalidLength(494, |b|))
  {
  }

  lemma ControlErrorsAreExact(b: Bytes)
    ensures ParseControl(b).Err? ==>
      ParseControl(b).error == (
        if b == [] then Truncated(10, 0)
        else
          var length := if b[0] == 4 then 11 else 10;
          if b[0] == 0 || b[0] > 4 then InvalidTag(b[0])
          else if |b| > 1 && b[1] != 1 then InvalidVersion(1, b[1])
          else if |b| < length then Truncated(length, |b|)
          else if |b| > length then InvalidLength(length, |b|)
          else InvalidTag(b[length - 1]))
  {
  }

  lemma CalibrationErrorsAreExact(b: Bytes)
    ensures ParseCalibration(b).Err? ==>
      ParseCalibration(b).error == (
        if b == [] then Truncated(14, 0)
        else
          var length := if b[0] == 5 then 14 else 30;
          if b[0] != 5 && b[0] != 6 then InvalidTag(b[0])
          else if |b| == 1 then InvalidVersion(1, 0)
          else if b[1] != 1 then InvalidVersion(1, b[1])
          else if |b| < length then Truncated(length, |b|) else InvalidLength(length, |b|))
  {
  }

  function PacketBytes(p: Packet): Bytes
  {
    match p
    case Control(m) => ControlBytes(m)
    case Calibrate(c) => CalibrationBytes(c)
    case Audio(f) => AudioBytes(f)
  }

  // ------------------------------------------------------------ the buffers the source fills

  method EncodeAudioFrame(frame: AudioFrame) returns (packet: array<U8>)
    ensures fresh(packet) && packet[..] == AudioBytes(frame)
  {
    packet := new U8[AUDIO_PACKET_BYTES](_ => 0);
    packet[0] := AUDIO_TAG;
    packet[1] := frame.version;
    CopyFromSlice(packet, 2, Be64(frame.sessionId));
    CopyFromSlice(packet, 10, Be32(frame.sequence));
    CopyFromSlice(packet, 14, frame.pcm);
    AudioLayout(frame);
    assert packet[..] == packet[0..2] + packet[2..10] + packet[10..14] + packet[14..];
  }

  method CopyFromSlice(target: array<U8>, start: nat, source: Bytes)
    requires start + |source| <= target.Length
    modifies target
    ensures target[..] == old(target[..start]) + source + old(target[start + |source|..])
  {
    forall k | 0 <= k < |source| {
      target[start + k] := source[k];
    }
  }

  method DecodeAudioFrame(packet: array<U8>) returns (r: Result<AudioFrame, ProtocolError>)
    ensures r == ParseAudio(packet[..])
  {
    if packet.Length == 0 {
      return Err(Truncated(AUDIO_PACKET_BYTES, 0));
    }
    if packet[0] != AUDIO_TAG {
      return Err(InvalidTag(packet[0]));
    }
    if packet.Length < 2 {
      return Err(Truncated(AUDIO_PACKET_BYTES, packet.Length));
    }
    if packet[1] != WIRE_VERSION {
      return Err(InvalidVersion(WIRE_VERSION, packet[1]));
    }
    if packet.Length < AUDIO_PACKET_BYTES {
      return Err(Truncated(AUDIO_PACKET_BYTES, packet.Length));
    }
    if packet.Length > AUDIO_PACKET_BYTES {
      return Err(InvalidLength(AUDIO_PACKET_BYTES, packet.Length));
    }
    assert packet[..][2..10] == packet[2..10] && packet[..][10..14] == packet[10..14];
    assert packet[..][14..] == packet[14..];
    r := Ok(AudioFrame(packet[1], Read64(packet[2..10]), Read32(packet[10..14]), packet[14..]));
  }

  method EncodeControl(message: ControlMessage) returns (packet: Bytes)
    ensures packet == ControlBytes(message)
  {
    packet := [];
    packet := packet + [ControlTag(message)];
    packet := packet + [WIRE_VERSION];
    packet := packet + Be64(message.sessionId);
    if message.Ack? {
      packet := packet + [message.ackedKind];
    }
  }

  method EncodeCalibration(p: CalibrationPacket) returns (packet: Bytes)
    ensures packet == CalibrationBytes(p)
  {
    packet := [if p.Probe? then CALIBRATION_PROBE_TAG else CALIBRATION_REPLY_TAG];
    packet := packet + [WIRE_VERSION];
    packet := packet + Be32(p.sequence);
    packet := packet + Be64(p.t1);
    if p.Reply? {
      packet := packet + Be64(p.t2);
      packet := packet + Be64(p.t3);
    }
  }
}
