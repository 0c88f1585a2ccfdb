/** An ideal jitter buffer keyed by unbounded frame indices: a finite map, plain
    integer order, no capacity and no wrap-around. The wrapped-u32 buffer is
    proved to refine it exactly as long as it evicts nothing. */
module JitterIdeal {
  import opened Machine
  import opened Wire
  import opened Sequence
  import opened JitterModel
  import opened JitterInvariant

  datatype Ideal =
    | Idle
    | Live(
        session: U64,
        slots: map<int, AudioFrame>,
        cursor: int,
        newest: int,
        heard: bool,          // the slot before the cursor has been handed out
        anchor: int,
        anchorArrival: U64,
        pacing: Pacing)

  datatype IdealPushed = IdealPushed(buffer: Ideal, outcome: InsertOutcome)

  /** The window restarts at slot i when i is beyond it. */
  function IdealRoom(a: Ideal, i: int, arrival: U64): Ideal
    requires a.Live?
  {
    if i >= a.cursor + MAX_BUFFERED_FRAMES then
      a.(slots := map[], cursor := i, heard := false, anchor := i, anchorArrival := arrival,
         pacing := RestartPlayout(a.pacing, arrival))
    else a
  }

  /** A frame for slot i enters, restarting the window first if need be. */
  function Place(a: Ideal, i: int, frame: AudioFrame, arrival: U64): Ideal
    requires a.Live?
  {
    var room := IdealRoom(a, i, arrival);
    room.(slots := room.slots[i := frame])
  }

  function Lateness(a: Ideal, i: int, arrival: U64): U32
    requires a.Live? && i - a.anchor < U32_LIMIT
  {
    if i < a.anchor then 0 else LateFramesAfter(i - a.anchor, a.anchorArrival, arrival)
  }

  /** The frame with index i arrives. */
  function IdealPush(a: Ideal, i: int, frame: AudioFrame, arrival: U64): IdealPushed
    requires a.Live? ==> InRange(a, i)
  {
    match a
    case Idle =>
      IdealPushed(Live(frame.sessionId, map[i := frame], i, i, false, i, arrival,
                       RestartPlayout(EMPTY_PACING, arrival)), FirstFrame)
    case Live(session, slots, cursor, newest, heard, _, _, pacing) =>
      if frame.sessionId != session then IdealPushed(a, SessionMismatch(session, frame.sessionId))
      else if i in slots || (heard && i == cursor - 1) then IdealPushed(a, DuplicateFrame(frame.sequence))
      else
        var late := Lateness(a, i, arrival);
        if i == newest + 1 then
          var paced := if late > 0 then RegisterAdverse(pacing, late) else RegisterStable(pacing);
          IdealPushed(Place(a.(newest := i, pacing := paced), i, frame, arrival),
                      if late > 0 then LateFrame(frame.sequence) else InOrderFrame)
        else if i > newest then
          var missing := i - newest - 1;
          var paced := RegisterLate(RegisterAdverse(pacing, missing), late);
          IdealPushed(Place(a.(newest := i, pacing := paced), i, frame, arrival), GapBefore(missing))
        else if i > cursor then
          IdealPushed(Place(a.(pacing := RegisterLate(pacing, late)), i, frame, arrival), Reordered)
        else
          IdealPushed(a.(pacing := RegisterAdverse(pacing, 1)), LateFrame(frame.sequence))
  }

  datatype IdealPolled = IdealPolled(buffer: Ideal, item: Option<PlayoutItem>)

  function IdealPoll(a: Ideal, now: U64): IdealPolled
  {
    if a.Idle? || a.pacing.nextPlayout.None? || now < a.pacing.nextPlayout.value then IdealPolled(a, None)
    else
      var advanced := a.(
        cursor := a.cursor + 1, heard := true, slots := a.slots - {a.cursor},
        pacing := a.pacing.(nextPlayout := Some(SatAdd64(a.pacing.nextPlayout.value, FRAME_DURATION_MS))));
      IdealPolled(advanced,
                  Some(if a.cursor in a.slots then AudioItem(a.slots[a.cursor])
                       else GapItem(a.session, Wrap(a.cursor))))
  }

  /** The true index is within half the circle of the three references that the
      u32 code compares it with. */
  predicate InRange(a: Ideal, i: int)
    requires a.Live?
  {
    -HALF_SEQUENCE_RANGE <= i - a.cursor < HALF_SEQUENCE_RANGE &&
    -HALF_SEQUENCE_RANGE <= i - a.newest < HALF_SEQUENCE_RANGE &&
    -HALF_SEQUENCE_RANGE <= i - a.anchor < HALF_SEQUENCE_RANGE
  }

  /** A push that would need a forty-second place: a new frame of the session that
      is to be stored without restarting the window, while 41 are resident. */
  predicate Overflows(a: Ideal, i: int, frame: AudioFrame)
  {
    a.Live? && frame.sessionId == a.session && |a.slots| >= MAX_BUFFERED_FRAMES &&
    i !in a.slots && !(a.heard && i == a.cursor - 1) &&
    (i > a.newest || i > a.cursor) && i < a.cursor + MAX_BUFFERED_FRAMES
  }

  predicate IdealDue(a: Ideal, now: U64)
  {
    a.Live? && a.pacing.nextPlayout.Some? && now >= a.pacing.nextPlayout.value
  }

  /** A poll that would leave a stored frame more than half the circle behind the cursor. */
  predicate Strands(a: Ideal, now: U64)
  {
    IdealDue(a, now) && a.cursor - HALF_SEQUENCE_RANGE in a.slots
  }

  // ------------------------------------------------------------ refinement

  /** The index nearest to the cursor that carries this label. */
  function Index(sequence: U32, cursor: int): int
  {
    var d := WrapSub(sequence, Wrap(cursor));
    if d < HALF_SEQUENCE_RANGE then cursor + d else cursor + d - U32_LIMIT
  }

  lemma IndexOfLabel(i: int, cursor: int)
    requires -HALF_SEQUENCE_RANGE <= i - cursor < HALF_SEQUENCE_RANGE
    ensures Index(Wrap(i), cursor) == i
  {
    WrapDistance(i, cursor);
  }

  /** Slot i lies inside the window or at most half the circle behind the cursor,
      and its frame is resident and labelled with i modulo 2^32. */
  ghost predicate Holds(i: int, frame: AudioFrame, frames: seq<AudioFrame>, cursor: int)
  {
    cursor - HALF_SEQUENCE_RANGE <= i < cursor + MAX_BUFFERED_FRAMES && frame.sequence == Wrap(i) && frame in frames
  }

  /** Frame f is the content of the slot that its label stands for. */
  predicate Fills(f: AudioFrame, slots: map<int, AudioFrame>, cursor: int)
  {
    Index(f.sequence, cursor) in slots && slots[Index(f.sequence, cursor)] == f
  }

  /** The residents of the u32 buffer are exactly the contents of the ideal slots. */
  ghost predicate SameSlots(frames: seq<AudioFrame>, slots: map<int, AudioFrame>, cursor: int)
  {
    |slots| == |frames| &&
    (forall i :: i in slots ==> Holds(i, slots[i], frames, cursor)) &&
    (forall f :: f in frames ==> Fills(f, slots, cursor))
  }

  /** Everything but the residents. */
  ghost predicate SameClock(j: Jitter, a: Ideal)
  {
    match a
    case Idle => j == EMPTY
    case Live(session, _, cursor, newest, heard, anchor, anchorArrival, pacing) =>
      j.session == Some(session) &&
      j.next == Some(Wrap(cursor)) &&
      j.latest == Some(Wrap(newest)) &&
      j.lastPlayed == (if heard then Some(Wrap(cursor - 1)) else None) &&
      j.anchor == Some((Wrap(anchor), anchorArrival)) &&
      j.pacing == pacing
  }

  ghost predicate Refines(j: Jitter, a: Ideal)
  {
    Valid(j) && SameClock(j, a) && (a.Live? ==> SameSlots(j.frames, a.slots, a.cursor))
  }

  lemma ResidentLabels(frames: seq<AudioFrame>, slots: map<int, AudioFrame>, cursor: int, i: int)
    requires SameSlots(frames, slots, cursor)
    requires -HALF_SEQUENCE_RANGE <= i - cursor < HALF_SEQUENCE_RANGE
    ensures i in slots <==> exists f :: f in frames && f.sequence == Wrap(i)
  {
    IndexOfLabel(i, cursor);
    if i in slots {
      assert Holds(i, slots[i], frames, cursor);
    }
  }

  lemma DuplicatesAgree(j: Jitter, a: Ideal, i: int)
    requires a.Live? && Refines(j, a) && InRange(a, i)
    ensures IsDuplicate(j, Wrap(i)) <==> i in a.slots || (a.heard && i == a.cursor - 1)
  {
    ResidentLabels(j.frames, a.slots, a.cursor, i);
    WrapDistance(i, a.cursor - 1);
  }

  lemma LatenessAgrees(j: Jitter, a: Ideal, i: int, arrival: U64)
    requires a.Live? && SameClock(j, a) && InRange(a, i)
    ensures LateFrames(j, Wrap(i), arrival) == Lateness(a, i, arrival)
  {
    WrapDistance(i, a.anchor);
  }

  lemma ComparisonsAgree(j: Jitter, a: Ideal, i: int)
    requires a.Live? && SameClock(j, a) && InRange(a, i)
    ensures Classify(j, Wrap(i)) ==
      if i == a.newest + 1 then InOrder
      else if i > a.newest then Gap(i - a.newest - 1) else LateOrDuplicate
    ensures IsFuture(j, Wrap(i)) <==> i > a.cursor
    ensures IsOutsideWindow(j, Wrap(i)) <==> i >= a.cursor + MAX_BUFFERED_FRAMES
  {
    ClassifyIsTrueOrder(a.newest, i);
    WrapDistance(i, a.cursor);
  }

  /** Storing a frame in a free slot, wherever the queue puts it. */
  lemma SlotsGrow(frames: seq<AudioFrame>, slots: map<int, AudioFrame>, cursor: int,
                  i: int, frame: AudioFrame, grown: seq<AudioFrame>)
    requires SameSlots(frames, slots, cursor) && i !in slots
    requires cursor - HALF_SEQUENCE_RANGE <= i < cursor + MAX_BUFFERED_FRAMES && frame.sequence == Wrap(i)
    requires multiset(grown) == multiset(frames) + multiset{frame}
    ensures SameSlots(grown, slots[i := frame], cursor)
  {
    var slots' := slots[i := frame];
    assert |multiset(grown)| == |grown| == |frames| + 1;
    forall k | k in slots' ensures Holds(k, slots'[k], grown, cursor) {
      assert k != i ==> Holds(k, slots[k], frames, cursor);
      assert slots'[k] in multiset(frames) + multiset{frame};
    }
    forall f | f in grown ensures Fills(f, slots', cursor) {
      assert f in multiset(grown);
      IndexOfLabel(i, cursor);
      assert f in frames ==> Fills(f, slots, cursor);
    }
  }

  lemma RoomAgrees(j: Jitter, a: Ideal, i: int, arrival: U64)
    requires a.Live? && Refines(j, a)
    requires -HALF_SEQUENCE_RANGE <= i - a.cursor < HALF_SEQUENCE_RANGE
    ensures Refines(MakeRoom(j, Wrap(i), arrival), IdealRoom(a, i, arrival))
  {
    WrapDistance(i, a.cursor);
    MakeRoomKeepsValid(j, Wrap(i), arrival);
  }

  /** Queueing keeps the relation exactly when there is a free place. */
  lemma QueueAgrees(j: Jitter, a: Ideal, i: int, frame: AudioFrame)
    requires a.Live? && Refines(j, a) && frame.sessionId == a.session && frame.sequence == Wrap(i)
    requires i !in a.slots && a.cursor - HALF_SEQUENCE_RANGE <= i < a.cursor + MAX_BUFFERED_FRAMES
    ensures SameClock(QueueFrame(j, frame), a.(slots := a.slots[i := frame]))
    ensures Refines(QueueFrame(j, frame), a.(slots := a.slots[i := frame])) <==> |a.slots| < MAX_BUFFERED_FRAMES
  {
    ResidentLabels(j.frames, a.slots, a.cursor, i);
    QueueKeepsValid(j, frame);
    QueueKeepsOrder(j, frame);
    if |j.frames| < MAX_BUFFERED_FRAMES {
      SlotsGrow(j.frames, a.slots, a.cursor, i, frame, QueueFrame(j, frame).frames);
    } else {
      assert |a.slots[i := frame]| > |QueueFrame(j, frame).frames|;
    }
  }

  lemma AdmitAgrees(j: Jitter, a: Ideal, i: int, frame: AudioFrame, arrival: U64, outcome: InsertOutcome)
    requires a.Live? && Refines(j, a) && frame.sessionId == a.session && frame.sequence == Wrap(i)
    requires i !in a.slots
    requires -HALF_SEQUENCE_RANGE <= i - a.cursor < HALF_SEQUENCE_RANGE
    ensures SameClock(Admit(j, frame, arrival, outcome).buffer, Place(a, i, frame, arrival))
    ensures Refines(Admit(j, frame, arrival, outcome).buffer, Place(a, i, frame, arrival)) <==>
      |a.slots| < MAX_BUFFERED_FRAMES || i >= a.cursor + MAX_BUFFERED_FRAMES
  {
    RoomAgrees(j, a, i, arrival);
    QueueAgrees(MakeRoom(j, Wrap(i), arrival), IdealRoom(a, i, arrival), i, frame);
  }

  /** Both sides reach the same verdict on a frame that is not a duplicate. */
  ghost predicate SameVerdict(j: Jitter, d: Decision, a: Ideal, i: int, frame: AudioFrame, arrival: U64)
    requires a.Live? && InRange(a, i)
  {
    var late := Lateness(a, i, arrival);
    if i == a.newest + 1 then
      var paced := if late > 0 then RegisterAdverse(a.pacing, late) else RegisterStable(a.pacing);
      d == Take(j.(latest := Some(Wrap(i)), pacing := paced),
                if late > 0 then LateFrame(frame.sequence) else InOrderFrame)
    else if i > a.newest then
      d == Take(j.(latest := Some(Wrap(i)), pacing := RegisterLate(RegisterAdverse(a.pacing, i - a.newest - 1), late)),
                GapBefore(i - a.newest - 1))
    else if i > a.cursor then
      d == Take(j.(pacing := RegisterLate(a.pacing, late)), Reordered)
    else
      d == Refuse(j.(pacing := RegisterAdverse(a.pacing, 1)), LateFrame(frame.sequence))
  }

  lemma VerdictsAgree(j: Jitter, a: Ideal, i: int, frame: AudioFrame, arrival: U64)
    requires a.Live? && SameClock(j, a) && InRange(a, i)
    requires frame.sequence == Wrap(i) && frame.sessionId == a.session && !IsDuplicate(j, frame.sequence)
    ensures SameVerdict(j, Decide(j, frame, arrival), a, i, frame, arrival)
  {
    LatenessAgrees(j, a, i, arrival);
    ComparisonsAgree(j, a, i);
  }

  /** The buffer after a push whose decision is already known. */
  function Settle(d: Decision, frame: AudioFrame, arrival: U64): Jitter
    requires !d.Open?
  {
    if d.Take? then Admit(d.buffer, frame, arrival, d.outcome).buffer else d.buffer
  }

  lemma VerdictRefines(j: Jitter, d: Decision, a: Ideal, i: int, frame: AudioFrame, arrival: U64)
    requires a.Live? && Refines(j, a) && InRange(a, i)
    requires frame.sequence == Wrap(i) && frame.sessionId == a.session
    requires i !in a.slots && !(a.heard && i == a.cursor - 1)
    requires !d.Open? && Valid(d.buffer) && SameVerdict(j, d, a, i, frame, arrival)
    ensures d.outcome == IdealPush(a, i, frame, arrival).outcome
    ensures SameClock(Settle(d, frame, arrival), IdealPush(a, i, frame, arrival).buffer)
    ensures Refines(Settle(d, frame, arrival), IdealPush(a, i, frame, arrival).buffer) <==> !Overflows(a, i, frame)
  {
    hide SameSlots, Valid, RegisterAdverse, RegisterStable, RegisterLate, Lateness, Admit, Place;
    var late := Lateness(a, i, arrival);
    if i > a.newest {
      var paced :=
        if i == a.newest + 1 then if late > 0 then RegisterAdverse(a.pacing, late) else RegisterStable(a.pacing)
        else RegisterLate(RegisterAdverse(a.pacing, i - a.newest - 1), late);
      AdmitAgrees(d.buffer, a.(newest := i, pacing := paced), i, frame, arrival, d.outcome);
    } else if i > a.cursor {
      AdmitAgrees(d.buffer, a.(pacing := RegisterLate(a.pacing, late)), i, frame, arrival, d.outcome);
    }
  }

  lemma FirstSlot(frame: AudioFrame, i: int)
    requires frame.sequence == Wrap(i)
    ensures SameSlots([frame], map[i := frame], i)
  {
    IndexOfLabel(i, i);
  }

  /** One push, wherever its index lies: the outcome is the same on both sides and
      so is everything but the residents; the residents agree as well if and only
      if the push does not overflow the buffer. */
  lemma PushRefines(j: Jitter, a: Ideal, i: int, frame: AudioFrame, arrival: U64)
    requires Refines(j, a) && frame.sequence == Wrap(i)
    requires a.Live? ==> InRange(a, i)
    ensures Push(j, frame, arrival).outcome == IdealPush(a, i, frame, arrival).outcome
    ensures SameClock(Push(j, frame, arrival).buffer, IdealPush(a, i, frame, arrival).buffer)
    ensures Refines(Push(j, frame, arrival).buffer, IdealPush(a, i, frame, arrival).buffer) <==> !Overflows(a, i, frame)
  {
    PushKeepsValid(j, frame, arrival);
    if a.Idle? {
      FirstSlot(frame, i);
    } else if frame.sessionId == a.session {
      DuplicatesAgree(j, a, i);
      if !IsDuplicate(j, frame.sequence) {
        DecideKeepsQueue(j, frame, arrival);
        VerdictsAgree(j, a, i, frame, arrival);
        VerdictRefines(j, Decide(j, frame, arrival), a, i, frame, arrival);
      }
    }
  }

  /** Seen from the u32 side, an overflowing push is exactly one that evicts. */
  lemma OverflowIsEviction(j: Jitter, a: Ideal, i: int, frame: AudioFrame, arrival: U64)
    requires Refines(j, a) && frame.sequence == Wrap(i)
    requires a.Live? ==> InRange(a, i)
    ensures Overflows(a, i, frame) <==> Evicts(j, frame)
  {
    if a.Live? && frame.sessionId == a.session {
      DuplicatesAgree(j, a, i);
      ComparisonsAgree(j, a, i);
    }
  }

  lemma OnlyFrontIsDue(frames: seq<AudioFrame>, next: U32)
    requires Ordered(frames, next)
    ensures forall k :: 0 < k < |frames| ==> frames[k].sequence != next
  {
    forall k | 0 < k < |frames| ensures frames[k].sequence != next {
      assert Distance(frames[0], next) < Distance(frames[k], next);
    }
  }

  /** The frame at the cursor, if resident, is the front. */
  lemma FrontIsCursor(frames: seq<AudioFrame>, slots: map<int, AudioFrame>, cursor: int)
    requires SameSlots(frames, slots, cursor) && Ordered(frames, Wrap(cursor))
    ensures cursor in slots <==> |frames| > 0 && frames[0].sequence == Wrap(cursor)
    ensures cursor in slots ==> frames[0] == slots[cursor]
  {
    IndexOfLabel(cursor, cursor);
    OnlyFrontIsDue(frames, Wrap(cursor));
    assert |frames| > 0 ==> Fills(frames[0], slots, cursor);
    if cursor in slots {
      assert Holds(cursor, slots[cursor], frames, cursor);
    }
  }

  /** The residents once the slot labelled `next` has been played. */
  function LeftFrames(frames: seq<AudioFrame>, next: U32): seq<AudioFrame>
  {
    if |frames| > 0 && frames[0].sequence == next then frames[1..] else frames
  }

  lemma LeftIsLater(frames: seq<AudioFrame>, next: U32, f: AudioFrame)
    requires Ordered(frames, next)
    ensures f in LeftFrames(frames, next) <==> f in frames && f.sequence != next
  {
    OnlyFrontIsDue(frames, next);
    if |frames| > 0 {
      assert frames == [frames[0]] + frames[1..];
    }
  }

  lemma LeftFills(frames: seq<AudioFrame>, slots: map<int, AudioFrame>, cursor: int, f: AudioFrame)
    requires SameSlots(frames, slots, cursor) && cursor - HALF_SEQUENCE_RANGE !in slots
    requires f in frames && f.sequence != Wrap(cursor)
    ensures Fills(f, slots - {cursor}, cursor + 1)
  {
    var i := Index(f.sequence, cursor);
    assert Fills(f, slots, cursor) && Holds(i, slots[i], frames, cursor);
    IndexOfLabel(i, cursor + 1);
  }

  /** The cursor moves on: the residents still match the slots, unless a slot is
      left more than half the circle behind. */
  lemma CursorMoves(frames: seq<AudioFrame>, slots: map<int, AudioFrame>, cursor: int)
    requires SameSlots(frames, slots, cursor) && Ordered(frames, Wrap(cursor))
    ensures SameSlots(LeftFrames(frames, Wrap(cursor)), slots - {cursor}, cursor + 1)
            <==> cursor - HALF_SEQUENCE_RANGE !in slots
  {
    FrontIsCursor(frames, slots, cursor);
    var left, slots', last := LeftFrames(frames, Wrap(cursor)), slots - {cursor}, cursor - HALF_SEQUENCE_RANGE;
    if last in slots {
      assert last in slots' && !Holds(last, slots'[last], left, cursor + 1);
    } else {
      forall i | i in slots' ensures Holds(i, slots'[i], left, cursor + 1) {
        assert Holds(i, slots[i], frames, cursor);
        WrapIdentifies(i, cursor);
        LeftIsLater(frames, Wrap(cursor), slots[i]);
      }
      forall f | f in left ensures Fills(f, slots', cursor + 1) {
        LeftIsLater(frames, Wrap(cursor), f);
        LeftFills(frames, slots, cursor, f);
      }
    }
  }

  lemma DuePoll(j: Jitter, now: U64)
    requires Valid(j) && PollDue(j, now)
    ensures Poll(j, now) == Polled(
      j.(next := Some(WrapNext(j.next.value)), lastPlayed := j.next, frames := LeftFrames(j.frames, j.next.value),
         pacing := j.pacing.(nextPlayout := Some(SatAdd64(j.pacing.nextPlayout.value, FRAME_DURATION_MS)))),
      Some(if |j.frames| > 0 && j.frames[0].sequence == j.next.value then AudioItem(j.frames[0])
           else GapItem(j.session.value, j.next.value)))
  {
    PollScanHitsFront(j);
    assert j.frames[..0] == [];
  }

  /** One poll: same item and everything but the residents; the residents agree as
      well if and only if no stored frame is left more than half the circle behind. */
  lemma PollRefines(j: Jitter, a: Ideal, now: U64)
    requires Refines(j, a)
    ensures Poll(j, now).item == IdealPoll(a, now).item
    ensures SameClock(Poll(j, now).buffer, IdealPoll(a, now).buffer)
    ensures Refines(Poll(j, now).buffer, IdealPoll(a, now).buffer) <==> !Strands(a, now)
  {
    PollKeepsValid(j, now);
    if PollDue(j, now) {
      FrontIsCursor(j.frames, a.slots, a.cursor);
      CursorMoves(j.frames, a.slots, a.cursor);
      WrapSuccessor(a.cursor);
      DuePoll(j, now);
      hide Valid, SameSlots, Poll, LeftFrames, PollDue;
    }
  }

  // ------------------------------------------------------------ whole runs

  /** An event of the environment, with the true index of each frame. */
  datatype Happening =
    | Arrival(index: int, frame: AudioFrame, at: U64)
    | Playout(now: U64)
    | Clearing

  /** What an observer of the buffer sees after one event. */
  datatype Observation =
    | Inserted(outcome: InsertOutcome)
    | Played(item: Option<PlayoutItem>)
    | Cleared

  function Observe(j: Jitter, h: Happening): (Jitter, Observation)
  {
    match h
    case Arrival(_, frame, at) => var p := Push(j, frame, at); (p.buffer, Inserted(p.outcome))
    case Playout(now) => var p := Poll(j, now); (p.buffer, Played(p.item))
    case Clearing => (EMPTY, Cleared)
  }

  function IdealObserve(a: Ideal, h: Happening): (Ideal, Observation)
    requires Labelled(a, h)
  {
    match h
    case Arrival(i, frame, at) => var p := IdealPush(a, i, frame, at); (p.buffer, Inserted(p.outcome))
    case Playout(now) => var p := IdealPoll(a, now); (p.buffer, Played(p.item))
    case Clearing => (Idle, Cleared)
  }

  /** A frame carries its index modulo 2^32, and the index is in range. */
  predicate Labelled(a: Ideal, h: Happening)
  {
    h.Arrival? ==> h.frame.sequence == Wrap(h.index) && (a.Live? ==> InRange(a, h.index))
  }

  /** Neither an eviction nor a stored frame left more than half the circle behind. */
  predicate Roomy(a: Ideal, h: Happening)
  {
    match h
    case Arrival(i, frame, _) => !Overflows(a, i, frame)
    case Playout(now) => !Strands(a, now)
    case Clearing => true
  }

  predicate LabelledRun(a: Ideal, hs: seq<Happening>)
    decreases |hs|
  {
    hs == [] || (Labelled(a, hs[0]) && LabelledRun(IdealObserve(a, hs[0]).0, hs[1..]))
  }

  predicate RoomyRun(a: Ideal, hs: seq<Happening>)
    requires LabelledRun(a, hs)
    decreases |hs|
  {
    hs == [] || (Roomy(a, hs[0]) && RoomyRun(IdealObserve(a, hs[0]).0, hs[1..]))
  }

  function Trace(j: Jitter, hs: seq<Happening>): seq<Observation>
    decreases |hs|
  {
    if hs == [] then [] else [Observe(j, hs[0]).1] + Trace(Observe(j, hs[0]).0, hs[1..])
  }

  function IdealTrace(a: Ideal, hs: seq<Happening>): seq<Observation>
    requires LabelledRun(a, hs)
    decreases |hs|
  {
    if hs == [] then [] else [IdealObserve(a, hs[0]).1] + IdealTrace(IdealObserve(a, hs[0]).0, hs[1..])
  }

  lemma ObserveRefines(j: Jitter, a: Ideal, h: Happening)
    requires Refines(j, a) && Labelled(a, h)
    ensures Observe(j, h).1 == IdealObserve(a, h).1
    ensures Refines(Observe(j, h).0, IdealObserve(a, h).0) <==> Roomy(a, h)
  {
    match h
    case Arrival(i, frame, at) => PushRefines(j, a, i, frame, at);
    case Playout(now) => PollRefines(j, a, now);
    case Clearing =>
  }

  /** Refinement over every run of pushes, polls and clears that evicts nothing:
      the u32 buffer and the ideal buffer return the same outcome for every push
      and the same item for every poll, frames that polling has overtaken
      included. */
  lemma {:induction false} TracesAgree(j: Jitter, a: Ideal, hs: seq<Happening>)
    requires Refines(j, a) && LabelledRun(a, hs) && RoomyRun(a, hs)
    ensures Trace(j, hs) == IdealTrace(a, hs)
    decreases |hs|
  {
    if hs != [] {
      ObserveRefines(j, a, hs[0]);
      TracesAgree(Observe(j, hs[0]).0, IdealObserve(a, hs[0]).0, hs[1..]);
    }
  }

  /** In particular from the freshly constructed buffer. */
  lemma FreshBufferRefinesIdeal(hs: seq<Happening>)
    requires LabelledRun(Idle, hs) && RoomyRun(Idle, hs)
    ensures Trace(EMPTY, hs) == IdealTrace(Idle, hs)
  {
    TracesAgree(EMPTY, Idle, hs);
  }

  // ------------------------------------------------------------ runs that polling never overtakes

  /** Polling has overtaken the slot of a frame that would advance `newest`. */
  predicate Overtaken(a: Ideal, h: Happening)
  {
    h.Arrival? && a.Live? && a.session == h.frame.sessionId && a.newest < h.index < a.cursor
  }

  predicate NeverOvertakenRun(a: Ideal, hs: seq<Happening>)
    requires LabelledRun(a, hs)
    decreases |hs|
  {
    hs == [] || (!Overtaken(a, hs[0]) && NeverOvertakenRun(IdealObserve(a, hs[0]).0, hs[1..]))
  }

  /** No stored frame lies behind the cursor. */
  ghost predicate AllAhead(a: Ideal)
  {
    a.Live? ==> forall i :: i in a.slots ==> i >= a.cursor
  }

  lemma AheadIsWindowed(j: Jitter, a: Ideal)
    requires Refines(j, a) && AllAhead(a)
    ensures Windowed(j)
  {
    forall f | f in j.frames && j.next.Some? ensures Distance(f, j.next.value) < MAX_BUFFERED_FRAMES {
      var i := Index(f.sequence, a.cursor);
      assert Fills(f, a.slots, a.cursor) && Holds(i, a.slots[i], j.frames, a.cursor);
      WrapDistance(i, a.cursor);
    }
  }

  /** Pigeonhole on the ideal side: a frame for a free slot of the window finds room. */
  lemma AheadHasRoom(j: Jitter, a: Ideal, i: int, frame: AudioFrame)
    requires a.Live? && Refines(j, a) && AllAhead(a) && i !in a.slots
    requires a.cursor <= i < a.cursor + MAX_BUFFERED_FRAMES
    ensures |a.slots| < MAX_BUFFERED_FRAMES
  {
    AheadIsWindowed(j, a);
    WrapDistance(i, a.cursor);
    ResidentLabels(j.frames, a.slots, a.cursor, i);
    if |j.frames| == MAX_BUFFERED_FRAMES {
      FullWindowHasEverySlot(j.frames, j.next.value, Wrap(i));
    }
  }

  lemma AheadStaysAhead(j: Jitter, a: Ideal, h: Happening)
    requires Refines(j, a) && AllAhead(a) && Labelled(a, h) && !Overtaken(a, h)
    ensures Roomy(a, h) && AllAhead(IdealObserve(a, h).0)
  {
    if h.Arrival? && Overflows(a, h.index, h.frame) {
      AheadHasRoom(j, a, h.index, h.frame);
      assert false;
    }
  }

  /** As long as polling overtakes no frame that is still to come, nothing is
      evicted, so that the traces agree. */
  lemma {:induction false} NeverOvertakenTracesAgree(j: Jitter, a: Ideal, hs: seq<Happening>)
    requires Refines(j, a) && AllAhead(a) && LabelledRun(a, hs) && NeverOvertakenRun(a, hs)
    ensures RoomyRun(a, hs) && Trace(j, hs) == IdealTrace(a, hs)
    decreases |hs|
  {
    if hs != [] {
      ObserveRefines(j, a, hs[0]);
      AheadStaysAhead(j, a, hs[0]);
      NeverOvertakenTracesAgree(Observe(j, hs[0]).0, IdealObserve(a, hs[0]).0, hs[1..]);
    }
  }
}
