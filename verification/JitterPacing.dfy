/** What a push and a poll do to the pacing of playout: lateness, the delay target
    and the two deadlines. */
module JitterPacing {
  import opened Machine
  import opened Wire
  import opened Sequence
  import opened JitterModel
  import opened JitterInvariant
  import opened JitterAdaptive

  /** Lateness counts whole frame durations, of five milliseconds, behind schedule,
      with none counted for the first five milliseconds. */
  lemma LatenessIsWholeFrames(distance: nat, anchorArrival: U64, arrival: U64)
    requires distance < U32_LIMIT
    ensures var late := LateFramesAfter(distance, anchorArrival, arrival);
      var expected := Min(anchorArrival + 5 * distance, U64_MAX);
      (late == 0 <==> arrival <= expected + 5) &&
      (late > 0 ==> 5 * late <= arrival - expected && (arrival - expected < 5 * late + 5 || late == U32_MAX))
  {
  }

  /** The pacing after n adverse frames are noted at once, if any. */
  function Noted(p: Pacing, n: nat): Pacing
  {
    if n == 0 then p else Grown(p, Min(p.adverse + n, U32_MAX))
  }

  /** The pacing after one stable frame: five milliseconds off for every twentieth. */
  function Calmed(p: Pacing): Pacing
  {
    p.(adverse := 0, stable := (p.stable + 1) % 20,
       target := if p.stable == 19 then Max(40, p.target - 5) else p.target)
  }

  /** What a push counts, by its outcome. */
  function Counted(p: Pacing, outcome: InsertOutcome, refused: bool, late: U32): Pacing
  {
    match outcome
    case InOrderFrame => Calmed(p)
    case LateFrame(_) => Noted(p, if refused then 1 else late)
    case GapBefore(missing) => Noted(Noted(p, missing), late)
    case Reordered => Noted(p, late)
    case _ => p
  }

  /** Playout starts `target` after this arrival. */
  function StartsAt(p: Pacing, arrival: U64): Pacing
  {
    p.(firstArrival := Some(arrival), nextPlayout := Some(Min(arrival + p.target, U64_MAX)))
  }

  lemma StableIsCalm(p: Pacing)
    requires ControllerOk(p)
    ensures RegisterStable(p) == Calmed(p)
  {
  }

  lemma LateIsNoted(p: Pacing, late: U32)
    requires ControllerOk(p)
    ensures RegisterLate(p, late) == Noted(p, late) && ControllerOk(Noted(p, late))
  {
    AdverseClosedForm(p, late);
    ControllerStaysOk(p, late);
  }

  lemma DecisionCounts(j: Jitter, frame: AudioFrame, arrival: U64)
    requires Valid(j) && j.session.Some?
    ensures var d := Decide(j, frame, arrival);
      !d.Open? &&
      d.buffer.pacing == Counted(j.pacing, d.outcome, d.Refuse?, LateFrames(j, frame.sequence, arrival)) &&
      (d.Take? && d.outcome.InOrderFrame? ==> LateFrames(j, frame.sequence, arrival) == 0) &&
      (d.Take? && d.outcome.LateFrame? ==> LateFrames(j, frame.sequence, arrival) > 0)
  {
    hide RegisterAdverse, RegisterStable, RegisterLate, LateFrames, Noted, Calmed, ControllerOk, Ordered;
    var p, late := j.pacing, LateFrames(j, frame.sequence, arrival);
    StableIsCalm(p);
    LateIsNoted(p, late);
    LateIsNoted(p, 1);
    AdverseIsNoted(p, late);
    AdverseIsNoted(p, 1);
    match Classify(j, frame.sequence) {
      case Gap(missing) =>
        LateIsNoted(p, missing);
        AdverseIsNoted(p, missing);
        LateIsNoted(Noted(p, missing), late);
      case _ =>
    }
  }

  lemma AdverseIsNoted(p: Pacing, n: U32)
    requires ControllerOk(p)
    ensures n > 0 ==> RegisterAdverse(p, n) == Noted(p, n)
  {
    AdverseClosedForm(p, n);
  }

  /** The whole pacing after a push, by its outcome: in closed form, and restarted at
      the arrival when the stream or its window is. */
  lemma PushPaces(j: Jitter, frame: AudioFrame, arrival: U64)
    requires Valid(j)
    ensures var pushed := Push(j, frame, arrival);
      var counted := Counted(j.pacing, pushed.outcome, pushed.fate.Refused?, LateFrames(j, frame.sequence, arrival));
      pushed.buffer.pacing ==
        if pushed.fate.Opened? || (pushed.fate.Queued? && pushed.fate.reset) then StartsAt(counted, arrival)
        else counted
  {
    if j.session.Some? {
      DecisionCounts(j, frame, arrival);
      hide Decide, Counted, Valid, QueueFrame;
      var d := Decide(j, frame, arrival);
      if d.Take? {
        RoomPaces(d.buffer, frame.sequence, arrival);
        QueueKeepsPacing(MakeRoom(d.buffer, frame.sequence, arrival), frame);
      }
    }
  }

  lemma RoomPaces(j: Jitter, sequence: U32, arrival: U64)
    ensures MakeRoom(j, sequence, arrival).pacing ==
      if IsOutsideWindow(j, sequence) then StartsAt(j.pacing, arrival) else j.pacing
  {
  }

  lemma QueueKeepsPacing(j: Jitter, frame: AudioFrame)
    ensures QueueFrame(j, frame).pacing == j.pacing
  {
  }

  // ------------------------------------------------------------ the start delay

  /** Playout is not due before the target delay after the first arrival. */
  predicate Delayed(p: Pacing)
  {
    p.firstArrival.Some? && p.nextPlayout.Some? ==>
      p.nextPlayout.value >= Min(p.firstArrival.value + p.target, U64_MAX)
  }

  lemma CountingDelays(p: Pacing, outcome: InsertOutcome, refused: bool, late: U32)
    requires ControllerOk(p) && p.firstArrival.Some? && p.nextPlayout.Some? && Delayed(p)
    ensures var after := Counted(p, outcome, refused, late);
      after.firstArrival == p.firstArrival &&
      after.nextPlayout == Some(Max(p.nextPlayout.value, Min(p.firstArrival.value + after.target, U64_MAX)))
  {
    if outcome.GapBefore? {
      NotingDelays(p, outcome.missingFrames);
      LateIsNoted(p, outcome.missingFrames);
      NotingDelays(Noted(p, outcome.missingFrames), late);
      hide Noted;
    } else {
      NotingDelays(p, if refused then 1 else late);
      NotingDelays(p, late);
    }
  }

  lemma NotingDelays(p: Pacing, n: nat)
    requires ControllerOk(p) && p.firstArrival.Some? && p.nextPlayout.Some? && Delayed(p)
    ensures var after := Noted(p, n);
      after.firstArrival == p.firstArrival && after.target >= p.target && Delayed(after) &&
      after.nextPlayout == Some(Max(p.nextPlayout.value, Min(p.firstArrival.value + after.target, U64_MAX)))
  {
  }

  /** A push that restarts nothing leaves the first arrival alone and moves the next
      playout to the larger of where it was and first arrival plus the new target. */
  lemma PushSetsDeadline(j: Jitter, frame: AudioFrame, arrival: U64)
    requires Valid(j) && j.session.Some? && Delayed(j.pacing)
    ensures var pushed, p := Push(j, frame, arrival), j.pacing;
      var after := pushed.buffer.pacing;
      !(pushed.fate.Queued? && pushed.fate.reset) ==>
        after.firstArrival == p.firstArrival &&
        after.nextPlayout == Some(Max(p.nextPlayout.value, Min(p.firstArrival.value + after.target, U64_MAX)))
  {
    hide Push, Counted;
    PushPaces(j, frame, arrival);
    PushKeepsValid(j, frame, arrival);
    CountingDelays(j.pacing, Push(j, frame, arrival).outcome, Push(j, frame, arrival).fate.Refused?,
                   LateFrames(j, frame.sequence, arrival));
  }

  lemma StepKeepsDelay(j: Jitter, e: Event)
    requires Valid(j) && Delayed(j.pacing)
    ensures Delayed(Apply(j, e).pacing)
  {
    match e
    case Arrive(frame, arrival) =>
      hide Push, Counted;
      PushPaces(j, frame, arrival);
      PushKeepsValid(j, frame, arrival);
      if j.session.Some? {
        PushSetsDeadline(j, frame, arrival);
      }
    case Tick(now) =>
    case Reset =>
  }

  /** In every run no slot is handed out before the first arrival plus the target of
      that moment: growing the target before playout has started delays it. */
  lemma {:induction false} PlayoutWaitsForTarget(j: Jitter, events: seq<Event>, now: U64)
    requires Valid(j) && Delayed(j.pacing)
    ensures var after := Run(j, events);
      Delayed(after.pacing) &&
      (Poll(after, now).item.Some? ==>
        after.pacing.firstArrival.Some? &&
        now >= Min(after.pacing.firstArrival.value + after.pacing.target, U64_MAX))
    decreases |events|
  {
    if events == [] {
      PollKeepsValid(j, now);
    } else {
      StepKeepsValid(j, events[0]);
      StepKeepsDelay(j, events[0]);
      PlayoutWaitsForTarget(Apply(j, events[0]), events[1..], now);
    }
  }
}
