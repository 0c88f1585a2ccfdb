/** The queue shared by the client (producer) and the render worker. The worker
    takes the lock three separate times per iteration (plan, copy, discard) and
    writes to the device in between without it; the producer may run at any of
    those points. */
module RenderWorker {
  import opened Machine
  import opened Wire
  import opened RenderFifo

  const MAX_RENDER_QUEUE_FRAMES: nat := 512

  /** Where the worker is, with its local variables. */
  datatype Worker =
    | Waiting
    | Checking
    | Planning
    | Copying(frames: nat)
    | Writing(frames: nat, scratch: Bytes)
    | Discarding(frames: nat)
    | Ended

  datatype Shared = Shared(
    pcm: Bytes,
    shutdown: bool,
    failed: bool,
    worker: Worker,
    accepted: seq<AudioFrame>,   // history: frames the queue took
    written: Bytes)              // history: bytes the device took

  const INITIAL := Shared([], false, false, Waiting, [], [])

  datatype Signal = Event | Timeout | WaitError

  datatype Action =
    | Render(frame: AudioFrame)             // producer, under the lock
    | RequestShutdown                       // producer, under the lock
    | Wait(signal: Signal)
    | CheckShutdown                         // worker, under the lock
    | Plan(available: Option<U32>)          // worker, under the lock; None: the query failed
    | Copy                                  // worker, under the lock
    | Write(ok: bool)
    | Discard                               // worker, under the lock

  function Fail(s: Shared): Shared { s.(failed := true, shutdown := true, worker := Ended) }

  /** One atomic step. A worker action that is not the worker's next one has no effect. */
  function Step(s: Shared, a: Action): Shared
  {
    match a
    case Render(frame) =>
      var queued := Enqueued(s.pcm, frame, MAX_RENDER_QUEUE_FRAMES);
      if s.failed || queued.None? then s
      else s.(pcm := queued.value, accepted := s.accepted + [frame])
    case RequestShutdown => s.(shutdown := true)
    case Wait(signal) =>
      if !s.worker.Waiting? then s
      else if signal.Event? then s.(worker := Checking)
      else if signal.Timeout? && s.shutdown then s.(worker := Ended)
      else Fail(s)
    case CheckShutdown =>
      if !s.worker.Checking? then s
      else s.(worker := if s.shutdown then Ended else Planning)
    case Plan(available) =>
      if !s.worker.Planning? then s
      else if available.None? then Fail(s)
      else
        var frames := PlanRenderFrames(available.value, |s.pcm| / DEVICE_FRAME_BYTES);
        s.(worker := if frames == 0 then Waiting else Copying(frames))
    case Copy =>
      if !s.worker.Copying? then s
      else s.(worker := Writing(s.worker.frames, Front(s.pcm, s.worker.frames)))
    case Write(ok) =>
      if !s.worker.Writing? then s
      else if !ok then Fail(s)
      else s.(worker := Discarding(s.worker.frames), written := s.written + s.worker.scratch)
    case Discard =>
      if !s.worker.Discarding? then s
      else s.(worker := Waiting, pcm := s.pcm[Min(s.worker.frames * DEVICE_FRAME_BYTES, |s.pcm|)..])
  }

  function Run(s: Shared, actions: seq<Action>): Shared
  {
    if actions == [] then s else Step(Run(s, actions[..|actions| - 1]), actions[|actions| - 1])
  }

  /** The stereo images of frames, one after the other. */
  function Images(frames: seq<AudioFrame>): Bytes
  {
    if frames == [] then [] else Images(frames[..|frames| - 1]) + StereoImage(frames[|frames| - 1].pcm)
  }

  /** Bytes in the queue that the device has not taken yet: between the write and
      the discard the chunk in flight is still queued but already written. */
  function Unwritten(s: Shared): Bytes
  {
    if s.worker.Discarding? then s.pcm[Min(s.worker.frames * DEVICE_FRAME_BYTES, |s.pcm|)..] else s.pcm
  }

  /** What the worker learned under an earlier lock still holds at its next step. */
  ghost predicate PlanHolds(s: Shared)
  {
    match s.worker
    case Copying(frames) => 0 < frames && frames * DEVICE_FRAME_BYTES <= |s.pcm|
    case Writing(frames, scratch) =>
      0 < frames && frames * DEVICE_FRAME_BYTES <= |s.pcm| && scratch == s.pcm[..frames * DEVICE_FRAME_BYTES]
    case Discarding(frames) => 0 < frames && frames * DEVICE_FRAME_BYTES <= |s.pcm|
    case _ => true
  }

  ghost predicate Inv(s: Shared)
  {
    |s.pcm| <= MAX_RENDER_QUEUE_FRAMES * STEREO_FRAME_BYTES &&
    |s.pcm| % DEVICE_FRAME_BYTES == 0 && |s.written| % DEVICE_FRAME_BYTES == 0 &&
    PlanHolds(s) &&
    s.written + Unwritten(s) == Images(s.accepted)
  }

  lemma AppendBehindCut(pcm: Bytes, image: Bytes, cut: nat)
    requires cut <= |pcm|
    ensures (pcm + image)[cut..] == pcm[cut..] + image && (pcm + image)[..cut] == pcm[..cut]
  {
  }

  lemma AppendJoins(a: Bytes, b: Bytes, image: Bytes)
    ensures a + (b + image) == (a + b) + image
  {
  }

  lemma ImagesAppend(frames: seq<AudioFrame>, frame: AudioFrame)
    ensures Images(frames + [frame]) == Images(frames) + StereoImage(frame.pcm)
  {
    assert (frames + [frame])[..|frames|] == frames;
  }

  /** The byte count a worker state has committed to, if any. */
  function Cut(w: Worker): nat
  {
    if w.Copying? || w.Writing? || w.Discarding? then w.frames * DEVICE_FRAME_BYTES else 0
  }

  lemma RenderKeepsInv(s: Shared, frame: AudioFrame)
    requires Inv(s)
    ensures Inv(Step(s, Render(frame)))
  {
    var image := StereoImage(frame.pcm);
    AppendBehindCut(s.pcm, image, Cut(s.worker));
    AppendJoins(s.written, Unwritten(s), image);
    ImagesAppend(s.accepted, frame);
  }

  lemma CutJoins(a: Bytes, b: Bytes, cut: nat)
    requires cut <= |b|
    ensures a + b == (a + b[..cut]) + b[cut..]
  {
    assert b == b[..cut] + b[cut..];
  }

  lemma WriteKeepsInv(s: Shared, ok: bool)
    requires Inv(s)
    ensures Inv(Step(s, Write(ok)))
  {
    if s.worker.Writing? && ok {
      CutJoins(s.written, s.pcm, s.worker.frames * DEVICE_FRAME_BYTES);
    }
  }

  lemma PlanKeepsInv(s: Shared, available: Option<U32>)
    requires Inv(s)
    ensures Inv(Step(s, Plan(available)))
  {
  }

  lemma CopyAndDiscardKeepInv(s: Shared)
    requires Inv(s)
    ensures Inv(Step(s, Copy)) && Inv(Step(s, Discard))
  {
  }

  lemma StepKeepsInv(s: Shared, a: Action)
    requires Inv(s)
    ensures Inv(Step(s, a))
  {
    match a
    case Render(frame) => RenderKeepsInv(s, frame);
    case Write(ok) => WriteKeepsInv(s, ok);
    case Plan(available) => PlanKeepsInv(s, available);
    case Copy => CopyAndDiscardKeepInv(s);
    case Discard => CopyAndDiscardKeepInv(s);
    case RequestShutdown =>
    case Wait(_) =>
    case CheckShutdown =>
  }

  /** For every interleaving: the bytes written followed by the bytes still queued,
      counting a chunk in flight once, are exactly the stereo images of the
      accepted frames in order; the capacity holds; and whenever the worker is
      about to drain, the queue still holds at least what it drains. */
  lemma {:induction false} NothingLostOrRepeated(actions: seq<Action>)
    ensures var s := Run(INITIAL, actions);
      s.written + Unwritten(s) == Images(s.accepted) &&
      |s.pcm| <= MAX_RENDER_QUEUE_FRAMES * STEREO_FRAME_BYTES &&
      (s.worker.Discarding? ==> s.worker.frames * DEVICE_FRAME_BYTES <= |s.pcm|) &&
      (s.worker.Writing? ==> |s.worker.scratch| == s.worker.frames * DEVICE_FRAME_BYTES)
    ensures Inv(Run(INITIAL, actions))
  {
    if actions != [] {
      NothingLostOrRepeated(actions[..|actions| - 1]);
      StepKeepsInv(Run(INITIAL, actions[..|actions| - 1]), actions[|actions| - 1]);
    }
  }

  /** Every frame the producer offers is either taken whole or refused with the
      queue unchanged; it is refused only after a failure or when it does not fit. */
  lemma RefusalIsExact(s: Shared, frame: AudioFrame)
    requires Inv(s)
    ensures var s' := Step(s, Render(frame));
      (s' == s <==> s.failed || |s.pcm| + 960 > 512 * 960) &&
      (s' != s ==> s' == s.(pcm := s.pcm + StereoImage(frame.pcm), accepted := s.accepted + [frame]))
  {
    assert |s.accepted + [frame]| != |s.accepted|;
  }

  /** The plan is limited by the device or by the queue, and by nothing else. */
  lemma PlanIsExact(available: U32, queued: nat)
    ensures var frames := PlanRenderFrames(available, queued);
      frames <= available && frames <= queued && (frames == available || frames == queued)
  {
  }

  /** One undisturbed iteration of the worker. */
  function Iteration(available: U32): seq<Action>
  {
    [Wait(Event), CheckShutdown, Plan(Some(available)), Copy, Write(true), Discard]
  }

  lemma RunAppend(s: Shared, actions: seq<Action>, a: Action)
    ensures Run(s, actions + [a]) == Step(Run(s, actions), a)
  {
    assert (actions + [a])[..|actions|] == actions;
  }

  lemma RunIteration(s: Shared, available: U32)
    ensures var planned := Step(Step(Step(s, Wait(Event)), CheckShutdown), Plan(Some(available)));
      Run(s, Iteration(available)) == Step(Step(Step(planned, Copy), Write(true)), Discard)
  {
    hide Step;
    var first := [Wait(Event), CheckShutdown, Plan(Some(available))];
    RunAppend(s, [], Wait(Event));
    RunAppend(s, [] + [Wait(Event)], CheckShutdown);
    RunAppend(s, [] + [Wait(Event)] + [CheckShutdown], Plan(Some(available)));
    assert first == [] + [Wait(Event)] + [CheckShutdown] + [Plan(Some(available))];
    RunAppend(s, first, Copy);
    RunAppend(s, first + [Copy], Write(true));
    RunAppend(s, first + [Copy] + [Write(true)], Discard);
    assert Iteration(available) == first + [Copy] + [Write(true)] + [Discard];
  }

  /** Progress: an undisturbed iteration moves as many device frames as the device has
      room for, or all there are, from the front of the queue to the device. */
  lemma IterationMovesFront(s: Shared, available: U32)
    requires Inv(s) && s.worker.Waiting? && !s.shutdown
    ensures var moved := 4 * (if available <= |s.pcm| / 4 then available else |s.pcm| / 4);
      Run(s, Iteration(available)) == s.(pcm := s.pcm[moved..], written := s.written + s.pcm[..moved])
  {
    RunIteration(s, available);
    if available == 0 || s.pcm == [] {
      assert s.written + [] == s.written;
    }
  }

  /** The worker ends by failing exactly when the wait fails or times out unasked, the
      space query fails, or a write fails; it ends in good order exactly when it finds
      shutdown requested, after an event or a timeout. */
  lemma WorkerEndsExactly(s: Shared, a: Action)
    requires !s.worker.Ended?
    ensures var failing :=
        (s.worker.Waiting? && a.Wait? && (a.signal.WaitError? || (a.signal.Timeout? && !s.shutdown))) ||
        (s.worker.Planning? && a.Plan? && a.available.None?) || (s.worker.Writing? && a.Write? && !a.ok);
      var leaving :=
        s.shutdown && ((s.worker.Waiting? && a == Wait(Timeout)) || (s.worker.Checking? && a.CheckShutdown?));
      (Step(s, a).worker.Ended? <==> failing || leaving) &&
      Step(s, a).failed == (s.failed || failing) && Step(s, a).shutdown == (s.shutdown || failing || a.RequestShutdown?)
  {
  }
}
