/** The values carried by datagrams, and the constants of the wire contract. */
module Wire {
  import opened Machine

  type Bytes = seq<U8>

  const WIRE_VERSION: U8 := 1
  const AUDIO_TAG: U8 := 0x00
  const START_TAG: U8 := 0x01
  const HEARTBEAT_TAG: U8 := 0x02
  const STOP_TAG: U8 := 0x03
  const ACK_TAG: U8 := 0x04
  const CALIBRATION_PROBE_TAG: U8 := 0x05
  const CALIBRATION_REPLY_TAG: U8 := 0x06

  const FRAME_DURATION_MS: nat := 5
  const SAMPLES_PER_FRAME: nat := 240
  const BYTES_PER_SAMPLE: nat := 2
  const PCM_PAYLOAD_BYTES: nat := 480
  const SESSION_ID_BYTES: nat := 8
  const SEQUENCE_BYTES: nat := 4
  const MESSAGE_PREFIX_BYTES: nat := 2
  const AUDIO_PACKET_BYTES: nat := 494
  const CONTROL_HEADER_BYTES: nat := 10
  const ACK_PACKET_BYTES: nat := 11
  const CALIBRATION_PROBE_BYTES: nat := 14
  const CALIBRATION_REPLY_BYTES: nat := 30

  /** The fixed-size PCM payload of one frame. */
  type PcmFrame = pcm: Bytes | |pcm| == 480 witness seq(480, _ => 0)

  function Silence(): (pcm: PcmFrame)
    ensures forall k :: 0 <= k < |pcm| ==> pcm[k] == 0
  {
    seq(480, _ => 0)
  }

  datatype AudioFrame = AudioFrame(version: U8, sessionId: U64, sequence: U32, pcm: PcmFrame)

  /** `AudioFrame::new`: a frame of the current wire version. */
  function NewAudioFrame(sessionId: U64, sequence: U32, pcm: PcmFrame): AudioFrame
  {
    AudioFrame(WIRE_VERSION, sessionId, sequence, pcm)
  }

  datatype ControlMessage =
    | Start(sessionId: U64)
    | Heartbeat(sessionId: U64)
    | Stop(sessionId: U64)
    | Ack(sessionId: U64, ackedKind: U8)

  datatype CalibrationPacket =
    | Probe(sequence: U32, t1: U64)
    | Reply(sequence: U32, t1: U64, t2: U64, t3: U64)

  /** Any datagram of the protocol. */
  datatype Packet =
    | Control(message: ControlMessage)
    | Calibrate(calibration: CalibrationPacket)
    | Audio(frame: AudioFrame)

  datatype ProtocolError =
    | Truncated(expected: nat, actual: nat)
    | InvalidVersion(expectedVersion: U8, actualVersion: U8)
    | InvalidTag(tag: U8)
    | InvalidLength(expected: nat, actual: nat)

  predicate IsControlKind(kind: U8)
  {
    kind == START_TAG || kind == HEARTBEAT_TAG || kind == STOP_TAG
  }
}
