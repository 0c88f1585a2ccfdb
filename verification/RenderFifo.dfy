/** Playback gain, the mono to stereo image, and the bounded PCM FIFO. */
module RenderFifo {
  import opened Machine
  import opened Wire

  const STEREO_FRAME_BYTES: nat := 960
  const DEVICE_FRAME_BYTES: nat := 4
  const RENDER_GAIN_MULTIPLIER: int := 4
  const I16_MIN: int := -0x8000
  const I16_MAX: int := 0x7FFF

  // ------------------------------------------------------------ gain

  /** `i16::from_le_bytes`. */
  function FromLe(lo: U8, hi: U8): (n: int)
    ensures I16_MIN <= n <= I16_MAX
  {
    var u := lo + 0x100 * hi;
    if u < 0x8000 then u else u - 0x1_0000
  }

  /** `i16::to_le_bytes`. */
  function ToLe(n: int): (b: Bytes)
    requires I16_MIN <= n <= I16_MAX
    ensures |b| == 2 && FromLe(b[0], b[1]) == n
  {
    var u := if n >= 0 then n else n + 0x1_0000;
    [u % 0x100, u / 0x100]
  }

  /** Samples are little-endian two's complement: the one i16 that is congruent to
      low byte plus 256 times high byte. */
  lemma SamplesAreLittleEndian(lo: U8, hi: U8, n: int)
    ensures FromLe(lo, hi) == n <==> -0x8000 <= n < 0x8000 && n % 0x1_0000 == lo + 256 * hi
  {
  }

  function ApplyGain(lo: U8, hi: U8): (b: Bytes)
    ensures |b| == 2
  {
    ToLe(Max(I16_MIN, Min(FromLe(lo, hi) * RENDER_GAIN_MULTIPLIER, I16_MAX)))
  }

  /** The i-th mono sample of a frame, and one channel of the i-th stereo sample. */
  function MonoSample(mono: PcmFrame, i: nat): int
    requires i < SAMPLES_PER_FRAME
  {
    FromLe(mono[2 * i], mono[2 * i + 1])
  }

  function Channel(stereo: Bytes, i: nat, channel: nat): int
    requires |stereo| == STEREO_FRAME_BYTES && i < SAMPLES_PER_FRAME && channel < 2
  {
    FromLe(stereo[4 * i + 2 * channel], stereo[4 * i + 2 * channel + 1])
  }

  /** The stereo image of a frame: byte k belongs to sample k / 4. */
  function StereoImage(mono: PcmFrame): (stereo: Bytes)
    ensures |stereo| == STEREO_FRAME_BYTES
  {
    seq(STEREO_FRAME_BYTES, k requires 0 <= k < STEREO_FRAME_BYTES =>
      ApplyGain(mono[2 * (k / 4)], mono[2 * (k / 4) + 1])[k % 2])
  }

  /** Both channels carry four times the mono sample, saturated, never wrapped. */
  lemma StereoCarriesSaturatedGain(mono: PcmFrame, i: nat, channel: nat)
    requires i < SAMPLES_PER_FRAME && channel < 2
    ensures var gained, sample := Channel(StereoImage(mono), i, channel), MonoSample(mono, i);
      gained == (if 4 * sample > I16_MAX then I16_MAX else if 4 * sample < I16_MIN then I16_MIN else 4 * sample)
  {
    var k := 4 * i + 2 * channel;
    assert k / 4 == i && (k + 1) / 4 == i && k % 2 == 0 && (k + 1) % 2 == 1;
  }

  method MonoToStereoBytes(mono: PcmFrame) returns (stereo: array<U8>)
    ensures fresh(stereo) && stereo[..] == StereoImage(mono)
  {
    stereo := new U8[STEREO_FRAME_BYTES](_ => 0);
    for i := 0 to SAMPLES_PER_FRAME
      invariant forall k :: 0 <= k < 4 * i ==> stereo[k] == StereoImage(mono)[k]
    {
      var gained := ApplyGain(mono[2 * i], mono[2 * i + 1]);
      var start := 4 * i;
      stereo[start], stereo[start + 1] := gained[0], gained[1];
      stereo[start + 2], stereo[start + 3] := gained[0], gained[1];
      forall k | start <= k < start + 4 ensures stereo[k] == StereoImage(mono)[k] {
        assert k / 4 == i;
      }
    }
  }

  // ------------------------------------------------------------ the FIFO

  /** The queue after one more frame, or nothing when it would overflow. */
  function Enqueued(pcm: Bytes, frame: AudioFrame, capacityFrames: nat): Option<Bytes>
  {
    if capacityFrames == 0 || |pcm| + STEREO_FRAME_BYTES > capacityFrames * STEREO_FRAME_BYTES then None
    else Some(pcm + StereoImage(frame.pcm))
  }

  function Front(pcm: Bytes, deviceFrames: nat): Bytes
  {
    pcm[..Min(deviceFrames * DEVICE_FRAME_BYTES, |pcm|)]
  }

  function PlanRenderFrames(available: U32, queuedDeviceFrames: nat): nat
  {
    Min(queuedDeviceFrames, available)
  }

  class PcmFifo {
    var pcm: Bytes
    const capacityFrames: nat

    ghost predicate Valid()
      reads this
    {
      |pcm| <= capacityFrames * STEREO_FRAME_BYTES && |pcm| % DEVICE_FRAME_BYTES == 0
    }

    constructor (capacityFrames: nat)
      ensures Valid() && pcm == [] && this.capacityFrames == capacityFrames
    {
      this.capacityFrames := capacityFrames;
      pcm := [];
    }

    /** Refuses a frame exactly when it does not fit, leaving the queue as it was. */
    method Push(frame: AudioFrame) returns (accepted: bool)
      requires Valid()
      modifies this
      ensures Valid()
      ensures accepted <==> old(|pcm|) + STEREO_FRAME_BYTES <= capacityFrames * STEREO_FRAME_BYTES
      ensures pcm == if accepted then old(pcm) + StereoImage(frame.pcm) else old(pcm)
      ensures Enqueued(old(pcm), frame, capacityFrames) == if accepted then Some(pcm) else None
    {
      if capacityFrames == 0 || |pcm| + STEREO_FRAME_BYTES > capacityFrames * STEREO_FRAME_BYTES {
        return false;
      }
      var image := MonoToStereoBytes(frame.pcm);
      pcm := pcm + image[..];
      accepted := true;
    }

    method QueuedDeviceFrames() returns (frames: nat)
      requires Valid()
      ensures frames * DEVICE_FRAME_BYTES == |pcm|
    {
      frames := |pcm| / DEVICE_FRAME_BYTES;
    }

    /** Overwrites the scratch buffer with the oldest bytes; the queue keeps them. */
    method CopyFront(deviceFrames: nat) returns (target: Bytes)
      ensures target == Front(pcm, deviceFrames)
    {
      target := [];
      target := target + pcm[..Min(deviceFrames * DEVICE_FRAME_BYTES, |pcm|)];
    }

    /** `drain` panics past the end, hence the precondition. */
    method DiscardFront(deviceFrames: nat)
      requires Valid() && deviceFrames * DEVICE_FRAME_BYTES <= |pcm|
      modifies this
      ensures Valid() && old(pcm) == Front(old(pcm), deviceFrames) + pcm
    {
      pcm := pcm[deviceFrames * DEVICE_FRAME_BYTES..];
    }
  }
}
