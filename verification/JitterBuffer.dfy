/** The bounded, sequence-aware PCM FIFO with its adaptive playout target, as the
    object the client mutates. Every method is proved to take the abstract state
    along the transition function of JitterModel. */
module JitterBuffers {
  import opened Machine
  import opened Wire
  import opened Sequence
  import opened JitterModel

  class JitterBuffer {
    var frames: seq<AudioFrame>
    var sessionId: Option<U64>
    var nextSequence: Option<U32>
    var latestReceived: Option<U32>
    var lastPlayed: Option<U32>
    var arrivalAnchor: Option<(U32, U64)>
    var firstArrivalMs: Option<U64>
    var nextPlayoutMs: Option<U64>
    var targetDelayMs: U64
    var adverseFrames: U32
    var stableFrames: U32

    /** The abstract value of the object. */
    function View(): Jitter
      reads this
    {
      Jitter(frames, sessionId, nextSequence, latestReceived, lastPlayed, arrivalAnchor, Timers())
    }

    function Timers(): Pacing
      reads this
    {
      Pacing(firstArrivalMs, nextPlayoutMs, targetDelayMs, adverseFrames, stableFrames)
    }

    constructor ()
      ensures View() == EMPTY
    {
      frames := [];
      sessionId, nextSequence, latestReceived, lastPlayed := None, None, None, None;
      arrivalAnchor, firstArrivalMs, nextPlayoutMs := None, None, None;
      targetDelayMs, adverseFrames, stableFrames := MIN_TARGET_DELAY_MS, 0, 0;
    }

    method Clear()
      modifies this
      ensures View() == EMPTY
    {
      frames := [];
      sessionId := None;
      nextSequence := None;
      latestReceived := None;
      lastPlayed := None;
      arrivalAnchor := None;
      firstArrivalMs := None;
      nextPlayoutMs := None;
      targetDelayMs := MIN_TARGET_DELAY_MS;
      adverseFrames := 0;
      stableFrames := 0;
    }

    method ExtendDeadline()
      modifies this`nextPlayoutMs
      ensures Timers() == ExtendStartDeadline(old(Timers()))
    {
      if firstArrivalMs.Some? && nextPlayoutMs.Some? {
        var deadline := SatAdd64(firstArrivalMs.value, targetDelayMs);
        nextPlayoutMs := Some(Max(nextPlayoutMs.value, deadline));
      }
    }

    method Adverse(count: U32)
      modifies this`stableFrames, this`adverseFrames, this`targetDelayMs, this`nextPlayoutMs
      ensures Timers() == RegisterAdverse(old(Timers()), count)
    {
      stableFrames := 0;
      adverseFrames := if adverseFrames + count <= U32_MAX then adverseFrames + count else U32_MAX;
      var growthSteps := adverseFrames / GROWTH_THRESHOLD_FRAMES;
      adverseFrames := adverseFrames % GROWTH_THRESHOLD_FRAMES;
      var growthMs := growthSteps * TARGET_GROWTH_STEP_MS;
      targetDelayMs := Min(SatAdd64(targetDelayMs, growthMs), MAX_TARGET_DELAY_MS);
      ExtendDeadline();
    }

    method Stable()
      modifies this`stableFrames, this`adverseFrames, this`targetDelayMs
      ensures Timers() == RegisterStable(old(Timers()))
    {
      adverseFrames := 0;
      stableFrames := if stableFrames < U32_MAX then stableFrames + 1 else U32_MAX;
      if stableFrames < STABLE_PERIOD_FRAMES {
        return;
      }
      stableFrames := 0;
      targetDelayMs := Max(SatSub(targetDelayMs, TARGET_DECAY_STEP_MS), MIN_TARGET_DELAY_MS);
    }

    method Queue(frame: AudioFrame)
      modifies this`frames, this`nextSequence
      ensures View() == QueueFrame(old(View()), frame)
    {
      if nextSequence.None? {
        nextSequence := Some(frame.sequence);
        frames := frames + [frame];
        return;
      }
      var next := nextSequence.value;
      var distance := WrapSub(frame.sequence, next);
      if |frames| >= MAX_BUFFERED_FRAMES {
        frames := frames[1..];
      }
      var position := 0;
      while position < |frames| && WrapSub(frames[position].sequence, next) <= distance
        invariant position <= |frames|
        invariant forall k :: 0 <= k < position ==> WrapSub(frames[k].sequence, next) <= distance
      {
        position := position + 1;
      }
      PositionBeyondIs(frames, next, distance, position);
      frames := InsertAt(frames, position, frame);
    }

    method ResetWindow(sequence: U32, arrivalMs: U64)
      modifies this
      ensures View() == ResetPlayoutWindow(old(View()), sequence, arrivalMs)
    {
      frames := [];
      nextSequence := Some(sequence);
      lastPlayed := None;
      arrivalAnchor := Some((sequence, arrivalMs));
      firstArrivalMs := Some(arrivalMs);
      nextPlayoutMs := Some(SatAdd64(arrivalMs, targetDelayMs));
    }

    /** The tail shared by every accepting branch: reset the window if needed, then queue. */
    method ResetAndQueue(frame: AudioFrame, arrivalMs: U64)
      modifies this
      ensures forall outcome :: View() == Admit(old(View()), frame, arrivalMs, outcome).buffer
    {
      if IsOutsideWindow(View(), frame.sequence) {
        ResetWindow(frame.sequence, arrivalMs);
      }
      Queue(frame);
    }

    method Push(frame: AudioFrame, arrivalMs: U64) returns (outcome: InsertOutcome)
      modifies this
      ensures var pushed := JitterModel.Push(old(View()), frame, arrivalMs);
        View() == pushed.buffer && outcome == pushed.outcome
    {
      var sequence := frame.sequence;
      if sessionId.None? {
        sessionId := Some(frame.sessionId);
        nextSequence := Some(sequence);
        latestReceived := Some(sequence);
        arrivalAnchor := Some((sequence, arrivalMs));
        firstArrivalMs := Some(arrivalMs);
        nextPlayoutMs := Some(SatAdd64(arrivalMs, targetDelayMs));
        frames := frames + [frame];
        return FirstFrame;
      }
      if sessionId.value != frame.sessionId {
        return SessionMismatch(sessionId.value, frame.sessionId);
      }
      if IsDuplicate(View(), sequence) {
        return DuplicateFrame(sequence);
      }
      var late := LateFrames(View(), sequence, arrivalMs);
      ghost var decision := Decide(View(), frame, arrivalMs);
      match Classify(View(), sequence)
      case InOrder =>
        latestReceived := Some(sequence);
        if late > 0 {
          Adverse(late);
          outcome := LateFrame(sequence);
        } else {
          Stable();
          outcome := InOrderFrame;
        }
        assert decision == Take(View(), outcome);
        ResetAndQueue(frame, arrivalMs);
      case Gap(missing) =>
        latestReceived := Some(sequence);
        Adverse(Max(missing, 1));
        if late > 0 {
          Adverse(late);
        }
        outcome := GapBefore(missing);
        assert decision == Take(View(), outcome);
        ResetAndQueue(frame, arrivalMs);
      case LateOrDuplicate =>
        if IsFuture(View(), sequence) {
          if late > 0 {
            Adverse(late);
          }
          outcome := Reordered;
          assert decision == Take(View(), outcome);
          ResetAndQueue(frame, arrivalMs);
        } else {
          Adverse(1);
          outcome := LateFrame(sequence);
        }
    }

    method Poll(nowMs: U64) returns (item: Option<PlayoutItem>)
      modifies this
      ensures var polled := JitterModel.Poll(old(View()), nowMs);
        View() == polled.buffer && item == polled.item
    {
      if nextSequence.None? || nextPlayoutMs.None? || sessionId.None? {
        return None;
      }
      if nowMs < nextPlayoutMs.value {
        return None;
      }
      var next := nextSequence.value;
      nextSequence := Some(WrapNext(next));
      nextPlayoutMs := Some(SatAdd64(nextPlayoutMs.value, FRAME_DURATION_MS));
      lastPlayed := Some(next);
      var index := 0;
      while index < |frames| && frames[index].sequence != next
        invariant index <= |frames|
        invariant forall k :: 0 <= k < index ==> frames[k].sequence != next
      {
        index := index + 1;
      }
      assert PositionOf(frames, next) == if index < |frames| then Some(index) else None;
      if index < |frames| {
        item := Some(AudioItem(frames[index]));
        frames := frames[..index] + frames[index + 1..];
      } else {
        item := Some(GapItem(sessionId.value, next));
      }
    }
  }
}
