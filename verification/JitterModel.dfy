/** The jitter buffer as a value: one transition function per operation of the
    source's `JitterBuffer`. The class in JitterBuffer.dfy updates its fields in
    place and is proved to follow these functions. */
module JitterModel {
  import opened Machine
  import opened Wire
  import opened Sequence

  const MIN_TARGET_DELAY_MS: nat := 40
  const MAX_TARGET_DELAY_MS: nat := 200
  const GROWTH_THRESHOLD_FRAMES: nat := 3
  const STABLE_PERIOD_FRAMES: nat := 20
  const TARGET_GROWTH_STEP_MS: nat := 20
  const TARGET_DECAY_STEP_MS: nat := 5
  const LATE_TOLERANCE_MS: nat := 5
  const MAX_BUFFERED_FRAMES: nat := 41

  datatype InsertOutcome =
    | FirstFrame
    | InOrderFrame
    | GapBefore(missingFrames: U32)
    | Reordered
    | LateFrame(sequence: U32)
    | DuplicateFrame(sequence: U32)
    | SessionMismatch(expected: U64, received: U64)

  /** One renderer-facing slot: decoded PCM, or a gap to be concealed. */
  datatype PlayoutItem =
    | AudioItem(frame: AudioFrame)
    | GapItem(gapSession: U64, gapSequence: U32)
  {
    function Session(): U64 { if AudioItem? then frame.sessionId else gapSession }

    function Sequence(): U32 { if AudioItem? then frame.sequence else gapSequence }
  }

  /** The adaptive controller: two deadlines, the delay target and its counters. */
  datatype Pacing = Pacing(
    firstArrival: Option<U64>,
    nextPlayout: Option<U64>,
    target: U64,
    adverse: U32,
    stable: U32)

  datatype Jitter = Jitter(
    frames: seq<AudioFrame>,
    session: Option<U64>,
    next: Option<U32>,
    latest: Option<U32>,
    lastPlayed: Option<U32>,
    anchor: Option<(U32, U64)>,
    pacing: Pacing)

  const EMPTY_PACING := Pacing(None, None, MIN_TARGET_DELAY_MS, 0, 0)
  const EMPTY := Jitter([], None, None, None, None, None, EMPTY_PACING)

  // ------------------------------------------------------------ the controller

  function ExtendStartDeadline(p: Pacing): Pacing
  {
    match (p.firstArrival, p.nextPlayout)
    case (Some(first), Some(playout)) =>
      p.(nextPlayout := Some(Max(playout, SatAdd64(first, p.target))))
    case _ => p
  }

  function RegisterAdverse(p: Pacing, frames: U32): Pacing
  {
    var total: U32 := if p.adverse + frames <= U32_MAX then p.adverse + frames else U32_MAX;
    var growth := (total / GROWTH_THRESHOLD_FRAMES) * TARGET_GROWTH_STEP_MS;
    ExtendStartDeadline(p.(
      stable := 0,
      adverse := total % GROWTH_THRESHOLD_FRAMES,
      target := Min(SatAdd64(p.target, growth), MAX_TARGET_DELAY_MS)))
  }

  function RegisterStable(p: Pacing): Pacing
  {
    var stable := if p.stable < U32_MAX then p.stable + 1 else U32_MAX;
    if stable < STABLE_PERIOD_FRAMES then
      p.(adverse := 0, stable := stable)
    else
      p.(adverse := 0, stable := 0,
         target := Max(SatSub(p.target, TARGET_DECAY_STEP_MS), MIN_TARGET_DELAY_MS))
  }

  /** Where playout restarts when a stream or a window begins at `arrival`. */
  function RestartPlayout(p: Pacing, arrival: U64): Pacing
  {
    p.(firstArrival := Some(arrival), nextPlayout := Some(SatAdd64(arrival, p.target)))
  }

  // ------------------------------------------------------------ classification

  predicate IsDuplicate(j: Jitter, sequence: U32)
  {
    j.lastPlayed == Some(sequence) || exists f :: f in j.frames && f.sequence == sequence
  }

  predicate IsFuture(j: Jitter, sequence: U32)
  {
    j.next.Some? && 0 < WrapSub(sequence, j.next.value) < HALF_SEQUENCE_RANGE
  }

  predicate IsOutsideWindow(j: Jitter, sequence: U32)
  {
    j.next.Some? && MAX_BUFFERED_FRAMES <= WrapSub(sequence, j.next.value) < HALF_SEQUENCE_RANGE
  }

  /** How many frame durations `arrival` is behind the slot of the frame that
      lies `distance` frames after one that arrived at `anchorArrival`. */
  function LateFramesAfter(distance: nat, anchorArrival: U64, arrival: U64): U32
    requires distance < U32_LIMIT
  {
    var lateBy := SatSub(arrival, SatAdd64(anchorArrival, distance * FRAME_DURATION_MS));
    if lateBy <= LATE_TOLERANCE_MS then 0
    else Min(Max(lateBy / FRAME_DURATION_MS, 1), U32_MAX)
  }

  function LateFrames(j: Jitter, sequence: U32, arrival: U64): U32
  {
    match j.anchor
    case None => 0
    case Some((anchorSequence, anchorArrival)) =>
      var distance := WrapSub(sequence, anchorSequence);
      if distance >= HALF_SEQUENCE_RANGE then 0
      else LateFramesAfter(distance, anchorArrival, arrival)
  }

  // ------------------------------------------------------------ the queue

  /** The first position whose frame lies further than `distance` from `next`. */
  function PositionBeyond(frames: seq<AudioFrame>, next: U32, distance: U32): (i: nat)
    ensures i <= |frames|
    ensures forall k :: 0 <= k < i ==> WrapSub(frames[k].sequence, next) <= distance
    ensures i < |frames| ==> WrapSub(frames[i].sequence, next) > distance
  {
    if frames == [] || WrapSub(frames[0].sequence, next) > distance then 0
    else 1 + PositionBeyond(frames[1..], next, distance)
  }

  lemma PositionBeyondIs(frames: seq<AudioFrame>, next: U32, distance: U32, i: nat)
    requires i <= |frames|
    requires forall k :: 0 <= k < i ==> WrapSub(frames[k].sequence, next) <= distance
    requires i < |frames| ==> WrapSub(frames[i].sequence, next) > distance
    ensures i == PositionBeyond(frames, next, distance)
  {
  }

  /** The queue after the capacity check, before the new frame goes in. */
  function AfterEviction(frames: seq<AudioFrame>): seq<AudioFrame>
  {
    if |frames| >= MAX_BUFFERED_FRAMES then frames[1..] else frames
  }

  function QueueFrame(j: Jitter, frame: AudioFrame): Jitter
  {
    match j.next
    case None => j.(next := Some(frame.sequence), frames := j.frames + [frame])
    case Some(next) =>
      var kept := AfterEviction(j.frames);
      var at := PositionBeyond(kept, next, WrapSub(frame.sequence, next));
      j.(frames := InsertAt(kept, at, frame))
  }

  function ResetPlayoutWindow(j: Jitter, sequence: U32, arrival: U64): Jitter
  {
    j.(frames := [], next := Some(sequence), lastPlayed := None,
       anchor := Some((sequence, arrival)), pacing := RestartPlayout(j.pacing, arrival))
  }

  /** Resets the window when the frame is beyond it. */
  function MakeRoom(j: Jitter, sequence: U32, arrival: U64): Jitter
  {
    if IsOutsideWindow(j, sequence) then ResetPlayoutWindow(j, sequence, arrival) else j
  }

  // ------------------------------------------------------------ push and poll

  /** What became of a pushed frame. A queueing keeps the buffer as it stood
      just before `queue_frame`, so that reset and eviction can be observed. */
  datatype Fate =
    | Opened
    | Refused
    | Queued(before: Jitter, reset: bool)

  datatype Pushed = Pushed(buffer: Jitter, outcome: InsertOutcome, fate: Fate)

  /** Queues `frame` into `j`, whose window may have to be reset first. */
  function Admit(j: Jitter, frame: AudioFrame, arrival: U64, outcome: InsertOutcome): Pushed
  {
    var roomy := MakeRoom(j, frame.sequence, arrival);
    Pushed(QueueFrame(roomy, frame), outcome,
           Queued(roomy, IsOutsideWindow(j, frame.sequence)))
  }

  function OpenStream(j: Jitter, frame: AudioFrame, arrival: U64): Jitter
  {
    Jitter(j.frames + [frame], Some(frame.sessionId), Some(frame.sequence), Some(frame.sequence),
           j.lastPlayed, Some((frame.sequence, arrival)), RestartPlayout(j.pacing, arrival))
  }

  /** Registers a late arrival, if it is one. */
  function RegisterLate(p: Pacing, late: U32): Pacing
  {
    if late > 0 then RegisterAdverse(p, late) else p
  }

  function Classify(j: Jitter, sequence: U32): SequenceClassification
  {
    match j.latest
    case None => SequenceClassification.InOrder
    case Some(seen) => ClassifySequence(seen, sequence)
  }

  /** What a frame is worth before the queue is touched. `Take` carries the
      buffer with its sequence and pacing already updated. */
  datatype Decision =
    | Open
    | Refuse(buffer: Jitter, outcome: InsertOutcome)
    | Take(buffer: Jitter, outcome: InsertOutcome)

  function Decide(j: Jitter, frame: AudioFrame, arrival: U64): Decision
  {
    var sequence := frame.sequence;
    if j.session.None? then Open
    else if j.session.value != frame.sessionId then
      Refuse(j, SessionMismatch(j.session.value, frame.sessionId))
    else if IsDuplicate(j, sequence) then
      Refuse(j, DuplicateFrame(sequence))
    else
      var late := LateFrames(j, sequence, arrival);
      match Classify(j, sequence)
      case InOrder =>
        var seen := j.(latest := Some(sequence));
        if late > 0 then
          Take(seen.(pacing := RegisterAdverse(j.pacing, late)), LateFrame(sequence))
        else
          Take(seen.(pacing := RegisterStable(j.pacing)), InOrderFrame)
      case Gap(missing) =>
        var pacing := RegisterLate(RegisterAdverse(j.pacing, Max(missing, 1)), late);
        Take(j.(latest := Some(sequence), pacing := pacing), GapBefore(missing))
      case LateOrDuplicate =>
        if IsFuture(j, sequence) then
          Take(j.(pacing := RegisterLate(j.pacing, late)), Reordered)
        else
          Refuse(j.(pacing := RegisterAdverse(j.pacing, 1)), LateFrame(sequence))
  }

  function Push(j: Jitter, frame: AudioFrame, arrival: U64): Pushed
  {
    match Decide(j, frame, arrival)
    case Open => Pushed(OpenStream(j, frame, arrival), FirstFrame, Opened)
    case Refuse(buffer, outcome) => Pushed(buffer, outcome, Refused)
    case Take(buffer, outcome) => Admit(buffer, frame, arrival, outcome)
  }

  /** The first resident position holding `sequence`. */
  function PositionOf(frames: seq<AudioFrame>, sequence: U32): (at: Option<nat>)
    ensures at.Some? ==> at.value < |frames| && frames[at.value].sequence == sequence
    ensures at.Some? ==> forall k :: 0 <= k < at.value ==> frames[k].sequence != sequence
    ensures at.None? ==> forall f :: f in frames ==> f.sequence != sequence
  {
    if frames == [] then None
    else if frames[0].sequence == sequence then Some(0)
    else match PositionOf(frames[1..], sequence)
      case None => None
      case Some(k) => Some(k + 1)
  }

  datatype Polled = Polled(buffer: Jitter, item: Option<PlayoutItem>)

  predicate PollDue(j: Jitter, now: U64)
  {
    j.next.Some? && j.pacing.nextPlayout.Some? && j.session.Some? && now >= j.pacing.nextPlayout.value
  }

  function Poll(j: Jitter, now: U64): Polled
  {
    if !PollDue(j, now) then Polled(j, None)
    else
      var next := j.next.value;
      var advanced := j.(
        next := Some(WrapNext(next)),
        lastPlayed := Some(next),
        pacing := j.pacing.(nextPlayout := Some(SatAdd64(j.pacing.nextPlayout.value, FRAME_DURATION_MS))));
      match PositionOf(j.frames, next)
      case None => Polled(advanced, Some(GapItem(j.session.value, next)))
      case Some(at) =>
        Polled(advanced.(frames := j.frames[..at] + j.frames[at + 1..]), Some(AudioItem(j.frames[at])))
  }
}
