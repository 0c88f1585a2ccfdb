/** What every operation of the jitter buffer keeps, and what whole runs do. */
module JitterInvariant {
  import opened Machine
  import opened Wire
  import opened Sequence
  import opened JitterModel

  /** Forward distance of a frame from the playout cursor. */
  function Distance(f: AudioFrame, next: U32): U32 { WrapSub(f.sequence, next) }

  ghost predicate Ordered(frames: seq<AudioFrame>, next: U32)
  {
    forall i, k :: 0 <= i < k < |frames| ==> Distance(frames[i], next) < Distance(frames[k], next)
  }

  ghost predicate ControllerOk(p: Pacing)
  {
    MIN_TARGET_DELAY_MS <= p.target <= MAX_TARGET_DELAY_MS && p.target % 5 == 0 &&
    p.adverse < GROWTH_THRESHOLD_FRAMES && p.stable < STABLE_PERIOD_FRAMES
  }

  /** The invariant: either the buffer is exactly the empty one, or every
      optional field is set, the resident frames are strictly ordered by
      distance from the cursor, belong to the session, and number at most 41. */
  ghost predicate Valid(j: Jitter)
  {
    ControllerOk(j.pacing) &&
    if j.session.None? then j == EMPTY
    else
      j.next.Some? && j.latest.Some? && j.anchor.Some? &&
      j.pacing.firstArrival.Some? && j.pacing.nextPlayout.Some? &&
      (j.lastPlayed.Some? ==> WrapNext(j.lastPlayed.value) == j.next.value) &&
      Ordered(j.frames, j.next.value) &&
      |j.frames| <= MAX_BUFFERED_FRAMES &&
      forall f :: f in j.frames ==> f.sessionId == j.session.value
  }

  lemma ControllerStaysOk(p: Pacing, frames: U32)
    requires ControllerOk(p)
    ensures ControllerOk(RegisterAdverse(p, frames)) && ControllerOk(RegisterStable(p))
  {
  }

  /** Before the insertion point every distance is smaller, from it on larger. */
  lemma PositionSplits(kept: seq<AudioFrame>, next: U32, frame: AudioFrame, k: nat)
    requires Ordered(kept, next) && k < |kept|
    requires forall f :: f in kept ==> f.sequence != frame.sequence
    ensures k < PositionBeyond(kept, next, Distance(frame, next)) <==> Distance(kept[k], next) < Distance(frame, next)
    ensures Distance(kept[k], next) != Distance(frame, next)
  {
    var at := PositionBeyond(kept, next, Distance(frame, next));
    assert kept[k] in kept;
    WrapSubInjective(kept[k].sequence, frame.sequence, next);
    assert at < k ==> Distance(kept[at], next) < Distance(kept[k], next);
  }

  lemma InsertKeepsOrder(kept: seq<AudioFrame>, next: U32, frame: AudioFrame)
    requires Ordered(kept, next)
    requires forall f :: f in kept ==> f.sequence != frame.sequence
    ensures Ordered(InsertAt(kept, PositionBeyond(kept, next, Distance(frame, next)), frame), next)
  {
    var at := PositionBeyond(kept, next, Distance(frame, next));
    var r := InsertAt(kept, at, frame);
    forall i, k | 0 <= i < k < |r| ensures Distance(r[i], next) < Distance(r[k], next) {
      if i == at {
        PositionSplits(kept, next, frame, k - 1);
      } else if k == at {
        PositionSplits(kept, next, frame, i);
      } else {
        var i', k' := if i < at then i else i - 1, if k < at then k else k - 1;
        assert Distance(kept[i'], next) < Distance(kept[k'], next);
      }
    }
  }

  lemma QueueKeepsOrder(j: Jitter, frame: AudioFrame)
    requires j.next.Some? && Ordered(j.frames, j.next.value) && |j.frames| <= MAX_BUFFERED_FRAMES
    requires forall f :: f in j.frames ==> f.sequence != frame.sequence
    ensures var q := QueueFrame(j, frame);
      Ordered(q.frames, j.next.value) && |q.frames| <= MAX_BUFFERED_FRAMES &&
      multiset(q.frames) == multiset(AfterEviction(j.frames)) + multiset{frame} &&
      forall f :: f in q.frames ==> f in j.frames || f == frame
  {
    var kept := AfterEviction(j.frames);
    InsertKeepsOrder(kept, j.next.value, frame);
    forall f | f in QueueFrame(j, frame).frames ensures f in j.frames || f == frame {
      assert f in multiset(kept) + multiset{frame};
    }
  }

  /** Deciding about a frame touches only `latest` and the pacing. */
  lemma DecideKeepsQueue(j: Jitter, frame: AudioFrame, arrival: U64)
    requires Valid(j)
    ensures var d := Decide(j, frame, arrival);
      (d.Open? <==> j.session.None?) &&
      (!d.Open? ==> Valid(d.buffer) && d.buffer == j.(latest := d.buffer.latest, pacing := d.buffer.pacing)) &&
      (d.Take? ==> j.session == Some(frame.sessionId) && !IsDuplicate(j, frame.sequence))
  {
    var late := LateFrames(j, frame.sequence, arrival);
    ControllerStaysOk(j.pacing, late);
    ControllerStaysOk(j.pacing, 1);
    if j.session == Some(frame.sessionId) {
      match Classify(j, frame.sequence)
      case InOrder =>
      case LateOrDuplicate =>
      case Gap(missing) =>
        ControllerStaysOk(j.pacing, Max(missing, 1));
        ControllerStaysOk(RegisterAdverse(j.pacing, Max(missing, 1)), late);
    }
  }

  lemma MakeRoomKeepsValid(j: Jitter, sequence: U32, arrival: U64)
    requires Valid(j) && j.session.Some?
    ensures var roomy := MakeRoom(j, sequence, arrival);
      roomy.next == (if IsOutsideWindow(j, sequence) then Some(sequence) else j.next) &&
      Valid(roomy) && roomy.session == j.session && !IsOutsideWindow(roomy, sequence) &&
      roomy.frames == (if IsOutsideWindow(j, sequence) then [] else j.frames)
  {
  }

  lemma QueueKeepsValid(j: Jitter, frame: AudioFrame)
    requires Valid(j) && j.session == Some(frame.sessionId)
    requires forall f :: f in j.frames ==> f.sequence != frame.sequence
    ensures Valid(QueueFrame(j, frame)) && QueueFrame(j, frame).session == j.session
  {
    QueueKeepsOrder(j, frame);
  }

  /** All that the run lemmas need to know about a push. */
  ghost predicate PushShape(j: Jitter, frame: AudioFrame, pushed: Pushed)
  {
    Valid(pushed.buffer) &&
    pushed.buffer.session == (if j.session.None? then Some(frame.sessionId) else j.session) &&
    match pushed.fate
    case Opened => j.session.None? && pushed.buffer.frames == [frame] && pushed.buffer.next == Some(frame.sequence)
    case Refused => j.session.Some? && pushed.buffer.frames == j.frames && pushed.buffer.next == j.next
    case Queued(before, reset) =>
      j.session.Some? &&
      Valid(before) && before.session == Some(frame.sessionId) &&
      (forall f :: f in before.frames ==> f.sequence != frame.sequence) &&
      pushed.buffer == QueueFrame(before, frame) &&
      before.frames == (if reset then [] else j.frames) &&
      before.next == (if reset then Some(frame.sequence) else j.next) &&
      !IsOutsideWindow(before, frame.sequence)
  }

  /** Every push keeps the invariant, whatever the frame and its arrival time;
      what it queues is new to a valid buffer of the frame's own session. */
  lemma PushKeepsValid(j: Jitter, frame: AudioFrame, arrival: U64)
    requires Valid(j)
    ensures PushShape(j, frame, Push(j, frame, arrival))
  {
    DecideKeepsQueue(j, frame, arrival);
    var d := Decide(j, frame, arrival);
    if d.Take? {
      MakeRoomKeepsValid(d.buffer, frame.sequence, arrival);
      QueueKeepsValid(MakeRoom(d.buffer, frame.sequence, arrival), frame);
    }
  }

  /** Strict order means the frame due now can only be at the front: the scan of
      `poll` hits index 0 or nothing. */
  lemma PollScanHitsFront(j: Jitter)
    requires Valid(j) && j.session.Some?
    ensures PositionOf(j.frames, j.next.value) ==
      if |j.frames| > 0 && j.frames[0].sequence == j.next.value then Some(0) else None
    ensures forall k :: 0 < k < |j.frames| ==> j.frames[k].sequence != j.next.value
  {
    forall k | 0 < k < |j.frames| ensures j.frames[k].sequence != j.next.value {
      assert Distance(j.frames[0], j.next.value) < Distance(j.frames[k], j.next.value);
    }
  }

  /** Moving the cursor past its slot keeps the order of the frames that are not in it. */
  lemma CursorKeepsOrder(frames: seq<AudioFrame>, next: U32)
    requires Ordered(frames, next)
    requires forall f :: f in frames ==> f.sequence != next
    ensures Ordered(frames, WrapNext(next))
    ensures forall f :: f in frames ==> Distance(f, WrapNext(next)) == Distance(f, next) - 1
  {
    forall f | f in frames ensures Distance(f, WrapNext(next)) == Distance(f, next) - 1 {
      WrapSubAfterNext(f.sequence, next);
    }
  }

  /** Every poll keeps the invariant; a due poll yields exactly the slot at the
      cursor, as audio if and only if that frame is resident, and advances it. */
  lemma PollKeepsValid(j: Jitter, now: U64)
    requires Valid(j)
    ensures Valid(Poll(j, now).buffer) && Poll(j, now).item.Some? == PollDue(j, now)
    ensures !PollDue(j, now) ==> Poll(j, now).buffer == j
    ensures PollDue(j, now) ==>
      var polled, next := Poll(j, now), j.next.value;
      polled.buffer.session == j.session &&
      polled.buffer.next == Some(WrapNext(next)) &&
      polled.item.value.Sequence() == next &&
      polled.item.value.Session() == j.session.value &&
      (polled.item.value.AudioItem? <==> exists f :: f in j.frames && f.sequence == next) &&
      (polled.item.value.AudioItem? ==> j.frames == [polled.item.value.frame] + polled.buffer.frames) &&
      (polled.item.value.GapItem? ==> polled.buffer.frames == j.frames) &&
      (forall f :: f in polled.buffer.frames ==>
        f in j.frames && Distance(f, WrapNext(next)) == Distance(f, next) - 1)
  {
    if PollDue(j, now) {
      PollScanHitsFront(j);
      var next := j.next.value;
      var rest := if PositionOf(j.frames, next).Some? then j.frames[1..] else j.frames;
      CursorKeepsOrder(rest, next);
      assert PositionOf(j.frames, next).Some? ==> j.frames == [j.frames[0]] + rest;
      assert Poll(j, now).buffer.frames == rest;
    }
  }

  // ------------------------------------------------------------ whole runs

  datatype Event =
    | Arrive(frame: AudioFrame, arrival: U64)
    | Tick(now: U64)
    | Reset

  function Apply(j: Jitter, e: Event): Jitter
  {
    match e
    case Arrive(frame, arrival) => Push(j, frame, arrival).buffer
    case Tick(now) => Poll(j, now).buffer
    case Reset => EMPTY
  }

  function Run(j: Jitter, events: seq<Event>): Jitter
    decreases |events|
  {
    if events == [] then j else Run(Apply(j, events[0]), events[1..])
  }

  /** The playout items of a run, in order. */
  function Items(j: Jitter, events: seq<Event>): seq<PlayoutItem>
    decreases |events|
  {
    if events == [] then []
    else
      var here := Item(j, events[0]);
      (if here.Some? then [here.value] else []) + Items(Apply(j, events[0]), events[1..])
  }

  lemma {:induction false} RunKeepsValid(j: Jitter, events: seq<Event>)
    requires Valid(j)
    ensures Valid(Run(j, events))
    decreases |events|
  {
    if events != [] {
      StepKeepsValid(j, events[0]);
      RunKeepsValid(Apply(j, events[0]), events[1..]);
    }
  }

  lemma StepKeepsValid(j: Jitter, e: Event)
    requires Valid(j)
    ensures Valid(Apply(j, e))
  {
    match e
    case Arrive(frame, arrival) => PushKeepsValid(j, frame, arrival);
    case Tick(now) => PollKeepsValid(j, now);
    case Reset =>
  }

  /** No event of the run empties the buffer or restarts its window. */
  ghost predicate Uninterrupted(j: Jitter, events: seq<Event>)
    decreases |events|
  {
    events == [] ||
    (!events[0].Reset? &&
     (events[0].Arrive? ==>
        var fate := Push(j, events[0].frame, events[0].arrival).fate; fate.Queued? ==> !fate.reset) &&
     Uninterrupted(Apply(j, events[0]), events[1..]))
  }

  /** The item, if any, that one event hands to the renderer. */
  function Item(j: Jitter, e: Event): Option<PlayoutItem>
  {
    if e.Tick? then Poll(j, e.now).item else None
  }

  /** One uninterrupted event moves the cursor past the item it hands out, if any. */
  lemma StepCursor(j: Jitter, e: Event)
    requires Valid(j) && j.session.Some? && Uninterrupted(j, [e])
    ensures Valid(Apply(j, e)) && Apply(j, e).session == j.session
    ensures Item(j, e).None? ==> Apply(j, e).next == j.next
    ensures Item(j, e).Some? ==>
      Apply(j, e).next == Some(WrapNext(j.next.value)) &&
      Item(j, e).value.Sequence() == j.next.value && Item(j, e).value.Session() == j.session.value
  {
    if e.Arrive? {
      PushKeepsValid(j, e.frame, e.arrival);
    } else {
      PollKeepsValid(j, e.now);
    }
  }

  /** Items numbered consecutively from a start, all of one session. */
  ghost predicate Consecutive(items: seq<PlayoutItem>, start: U32, session: U64)
  {
    forall k :: 0 <= k < |items| ==> items[k].Sequence() == Wrap(start + k) && items[k].Session() == session
  }

  lemma ConsecutiveCons(item: PlayoutItem, rest: seq<PlayoutItem>, start: U32, session: U64)
    requires item.Sequence() == start && item.Session() == session
    requires Consecutive(rest, WrapNext(start), session)
    ensures Consecutive([item] + rest, start, session)
    ensures Wrap(WrapNext(start) + |rest|) == Wrap(start + |[item] + rest|)
  {
    var items := [item] + rest;
    forall k | 0 <= k < |items|
      ensures items[k].Sequence() == Wrap(start + k) && items[k].Session() == session
    {
      if k > 0 {
        assert items[k] == rest[k - 1];
      }
    }
  }

  /** Between resets playout is gapless in sequence numbers: the k-th item has
      sequence start + k modulo 2^32 and the stream's session, and the cursor
      has advanced by exactly the number of items. */
  lemma {:induction false} PlayoutIsConsecutive(j: Jitter, events: seq<Event>)
    requires Valid(j) && j.session.Some? && Uninterrupted(j, events)
    ensures Consecutive(Items(j, events), j.next.value, j.session.value)
    ensures Run(j, events).session == j.session
    ensures Run(j, events).next == Some(Wrap(j.next.value + |Items(j, events)|))
    decreases |events|
  {
    hide Push, Poll, Apply, Item;
    if events != [] {
      var e := events[0];
      StepCursor(j, e);
      var after := Apply(j, e);
      PlayoutIsConsecutive(after, events[1..]);
      if Item(j, e).Some? {
        ConsecutiveCons(Item(j, e).value, Items(after, events[1..]), j.next.value, j.session.value);
      }
    }
  }

  // ------------------------------------------------------------ no eviction

  /** All residents are inside the 41-slot window in front of the cursor. */
  ghost predicate Windowed(j: Jitter)
  {
    j.next.Some? ==> forall f :: f in j.frames ==> Distance(f, j.next.value) < MAX_BUFFERED_FRAMES
  }

  /** A queued frame lies behind the cursor of the buffer that received it. */
  predicate Behind(pushed: Pushed, frame: AudioFrame)
  {
    pushed.fate.Queued? && pushed.fate.before.next.Some? &&
    WrapSub(frame.sequence, pushed.fate.before.next.value) >= HALF_SEQUENCE_RANGE
  }

  /** The k-th resident is at least k slots ahead. */
  lemma {:induction false} OrderedSpread(frames: seq<AudioFrame>, next: U32, k: nat)
    requires k < |frames| && Ordered(frames, next)
    ensures Distance(frames[k], next) >= k
    decreases k
  {
    if k > 0 {
      OrderedSpread(frames, next, k - 1);
      assert Distance(frames[k - 1], next) < Distance(frames[k], next);
    }
  }

  /** And within the window it is at most as far ahead as leaves room for the rest. */
  lemma {:induction false} OrderedCeiling(frames: seq<AudioFrame>, next: U32, k: nat)
    requires k < |frames| <= MAX_BUFFERED_FRAMES && Ordered(frames, next)
    requires forall f :: f in frames ==> Distance(f, next) < MAX_BUFFERED_FRAMES
    ensures Distance(frames[k], next) <= MAX_BUFFERED_FRAMES - |frames| + k
    decreases |frames| - k
  {
    if k + 1 < |frames| {
      OrderedCeiling(frames, next, k + 1);
      assert Distance(frames[k], next) < Distance(frames[k + 1], next);
    }
  }

  /** Pigeonhole: a full window holds every slot, so a frame that is new and in
      the window always finds room. */
  lemma FullWindowHasEverySlot(frames: seq<AudioFrame>, next: U32, sequence: U32)
    requires Ordered(frames, next) && |frames| == MAX_BUFFERED_FRAMES
    requires forall f :: f in frames ==> Distance(f, next) < MAX_BUFFERED_FRAMES
    requires WrapSub(sequence, next) < MAX_BUFFERED_FRAMES
    ensures exists f :: f in frames && f.sequence == sequence
  {
    var d := WrapSub(sequence, next);
    OrderedSpread(frames, next, d);
    OrderedCeiling(frames, next, d);
    WrapSubInjective(frames[d].sequence, sequence, next);
    assert frames[d] in frames;
  }

  lemma WindowHasRoom(before: Jitter, frame: AudioFrame)
    requires Valid(before) && before.session.Some? && Windowed(before)
    requires forall f :: f in before.frames ==> f.sequence != frame.sequence
    requires WrapSub(frame.sequence, before.next.value) < MAX_BUFFERED_FRAMES
    ensures |before.frames| < MAX_BUFFERED_FRAMES && Windowed(QueueFrame(before, frame))
    ensures multiset(QueueFrame(before, frame).frames) == multiset(before.frames) + multiset{frame}
  {
    if |before.frames| == MAX_BUFFERED_FRAMES {
      FullWindowHasEverySlot(before.frames, before.next.value, frame.sequence);
    }
    QueueKeepsOrder(before, frame);
  }

  /** As long as nothing is queued behind the cursor, the window invariant holds
      and `pop_front` does not fire. */
  lemma NoEvictionInWindow(j: Jitter, frame: AudioFrame, pushed: Pushed)
    requires Valid(j) && Windowed(j) && PushShape(j, frame, pushed) && !Behind(pushed, frame)
    ensures Windowed(pushed.buffer)
    ensures pushed.fate.Queued? ==>
      |pushed.fate.before.frames| < MAX_BUFFERED_FRAMES &&
      multiset(pushed.buffer.frames) == multiset(pushed.fate.before.frames) + multiset{frame}
  {
    if pushed.fate.Queued? {
      WindowHasRoom(pushed.fate.before, frame);
    }
  }

  /** Where every frame ever taken into the buffer went. */
  datatype Ledger = Ledger(
    taken: multiset<AudioFrame>,
    played: multiset<AudioFrame>,
    dropped: multiset<AudioFrame>,
    evicted: multiset<AudioFrame>)

  const BLANK := Ledger(multiset{}, multiset{}, multiset{}, multiset{})

  /** Books one event: openings and queueings are taken in, audio items are
      played, a window reset or clear drops the residents, a full queue evicts. */
  function Book(l: Ledger, j: Jitter, e: Event): Ledger
  {
    match e
    case Reset => l.(dropped := l.dropped + multiset(j.frames))
    case Tick(now) => BookItem(l, Poll(j, now).item)
    case Arrive(frame, arrival) => BookPush(l, j, frame, Push(j, frame, arrival))
  }

  function BookItem(l: Ledger, item: Option<PlayoutItem>): Ledger
  {
    if item.Some? && item.value.AudioItem? then l.(played := l.played + multiset{item.value.frame}) else l
  }

  /** The frame that the capacity check throws away, if any. */
  function Lost(before: seq<AudioFrame>): multiset<AudioFrame>
  {
    if |before| >= MAX_BUFFERED_FRAMES then multiset{before[0]} else multiset{}
  }

  function BookPush(l: Ledger, j: Jitter, frame: AudioFrame, pushed: Pushed): Ledger
  {
    match pushed.fate
    case Refused => l
    case Opened => l.(taken := l.taken + multiset{frame})
    case Queued(before, reset) =>
      l.(taken := l.taken + multiset{frame},
         dropped := if reset then l.dropped + multiset(j.frames) else l.dropped,
         evicted := l.evicted + Lost(before.frames))
  }

  function BookRun(l: Ledger, j: Jitter, events: seq<Event>): Ledger
    decreases |events|
  {
    if events == [] then l else BookRun(Book(l, j, events[0]), Apply(j, events[0]), events[1..])
  }

  ghost predicate Balanced(l: Ledger, j: Jitter)
  {
    l.taken == multiset(j.frames) + l.played + l.dropped + l.evicted
  }

  /** A new frame of the session that is in order, leaves a gap, or is still to be played. */
  predicate IsStored(j: Jitter, frame: AudioFrame)
  {
    j.session == Some(frame.sessionId) && !IsDuplicate(j, frame.sequence) &&
    (!Classify(j, frame.sequence).LateOrDuplicate? || IsFuture(j, frame.sequence))
  }

  /** The guard of the eviction branch, on the buffer before the push: the frame is
      stored without restarting the window while all 41 places are taken. */
  predicate Evicts(j: Jitter, frame: AudioFrame)
  {
    IsStored(j, frame) && !IsOutsideWindow(j, frame.sequence) && |j.frames| >= MAX_BUFFERED_FRAMES
  }

  /** Which pushes reach `queue_frame`, and on which residents. */
  lemma StoringIsExact(j: Jitter, frame: AudioFrame, arrival: U64)
    requires Valid(j)
    ensures Push(j, frame, arrival).fate.Queued? <==> IsStored(j, frame)
    ensures IsStored(j, frame) ==>
      Push(j, frame, arrival).fate.before.frames == if IsOutsideWindow(j, frame.sequence) then [] else j.frames
    ensures IsStored(j, frame) && !IsOutsideWindow(j, frame.sequence) ==>
      Push(j, frame, arrival).buffer.frames == QueueFrame(j, frame).frames
  {
    hide LateFrames, RegisterLate, RegisterAdverse, RegisterStable, RestartPlayout, QueueFrame;
    DecideKeepsQueue(j, frame, arrival);
    var d := Decide(j, frame, arrival);
    if d.Take? {
      SameQueue(j, d.buffer, frame);
    }
  }

  lemma SameQueue(j: Jitter, k: Jitter, frame: AudioFrame)
    requires j.frames == k.frames && j.next == k.next
    ensures QueueFrame(j, frame).frames == QueueFrame(k, frame).frames
  {
  }

  /** A push evicts exactly under that guard, and then exactly the front. */
  lemma EvictionIsExact(l: Ledger, j: Jitter, frame: AudioFrame, arrival: U64)
    requires Valid(j)
    ensures Book(l, j, Arrive(frame, arrival)).evicted ==
      l.evicted + if Evicts(j, frame) then multiset{j.frames[0]} else multiset{}
  {
    hide Push, Valid, IsStored, IsOutsideWindow;
    StoringIsExact(j, frame, arrival);
  }

  lemma EvictionLosesFront(j: Jitter, frame: AudioFrame)
    requires Valid(j) && j.session == Some(frame.sessionId)
    requires forall f :: f in j.frames ==> f.sequence != frame.sequence
    ensures multiset(j.frames) + multiset{frame} ==
      multiset(QueueFrame(j, frame).frames) + Lost(j.frames)
  {
    QueueKeepsOrder(j, frame);
    FrontIsLost(j.frames);
  }

  lemma FrontIsLost(frames: seq<AudioFrame>)
    ensures multiset(frames) == multiset(AfterEviction(frames)) + Lost(frames)
  {
    if |frames| >= MAX_BUFFERED_FRAMES {
      assert frames == [frames[0]] + frames[1..];
    }
  }

  /** The bookkeeping of a queueing, on counts alone. */
  lemma QueueingBalances(l: Ledger, resident: multiset<AudioFrame>, before: multiset<AudioFrame>,
                         frame: AudioFrame, after: multiset<AudioFrame>, lost: multiset<AudioFrame>, reset: bool)
    requires l.taken == resident + l.played + l.dropped + l.evicted
    requires before == if reset then multiset{} else resident
    requires before + multiset{frame} == after + lost
    ensures l.taken + multiset{frame} ==
      after + l.played + (if reset then l.dropped + resident else l.dropped) + (l.evicted + lost)
  {
    var dropped := if reset then l.dropped + resident else l.dropped;
    var total := after + l.played + dropped + (l.evicted + lost);
    forall x ensures (l.taken + multiset{frame})[x] == total[x] {
      assert (before + multiset{frame})[x] == (after + lost)[x];
    }
  }

  lemma BookBalances(l: Ledger, j: Jitter, e: Event)
    requires Valid(j) && Balanced(l, j)
    ensures Balanced(Book(l, j, e), Apply(j, e))
  {
    hide Push, Poll;
    match e
    case Reset =>
    case Tick(now) => PollKeepsValid(j, now);
    case Arrive(frame, arrival) =>
      PushKeepsValid(j, frame, arrival);
      var pushed := Push(j, frame, arrival);
      if pushed.fate.Queued? {
        var before := pushed.fate.before;
        EvictionLosesFront(before, frame);
        QueueingBalances(l, multiset(j.frames), multiset(before.frames), frame,
                         multiset(pushed.buffer.frames), Lost(before.frames), pushed.fate.reset);
      }
  }

  /** Conservation over every run: each frame taken in is resident, was played,
      was dropped by a reset or clear, or was evicted, counted exactly once. */
  lemma {:induction false} EveryFrameIsAccountedFor(l: Ledger, j: Jitter, events: seq<Event>)
    requires Valid(j) && Balanced(l, j)
    ensures Balanced(BookRun(l, j, events), Run(j, events))
    decreases |events|
  {
    if events != [] {
      BookBalances(l, j, events[0]);
      StepKeepsValid(j, events[0]);
      EveryFrameIsAccountedFor(Book(l, j, events[0]), Apply(j, events[0]), events[1..]);
    }
  }

  /** No push of the run queues a frame behind the cursor. */
  ghost predicate NeverBehind(j: Jitter, events: seq<Event>)
    decreases |events|
  {
    events == [] ||
    ((events[0].Arrive? ==> !Behind(Push(j, events[0].frame, events[0].arrival), events[0].frame)) &&
     NeverBehind(Apply(j, events[0]), events[1..]))
  }

  lemma StepKeepsWindow(l: Ledger, j: Jitter, e: Event)
    requires Valid(j) && Windowed(j)
    requires e.Arrive? ==> !Behind(Push(j, e.frame, e.arrival), e.frame)
    ensures Windowed(Apply(j, e)) && Book(l, j, e).evicted == l.evicted
  {
    match e
    case Reset =>
    case Arrive(frame, arrival) =>
      PushKeepsValid(j, frame, arrival);
      NoEvictionInWindow(j, frame, Push(j, frame, arrival));
    case Tick(now) =>
      PollKeepsValid(j, now);
  }

  /** In a run that queues nothing behind the cursor the eviction branch never
      fires: every frame taken in is resident, played exactly once, or dropped by
      a reset or clear, and the residents always fit the window. */
  lemma {:induction false} NeverBehindNeverEvicts(l: Ledger, j: Jitter, events: seq<Event>)
    requires Valid(j) && Windowed(j) && Balanced(l, j) && l.evicted == multiset{}
    requires NeverBehind(j, events)
    ensures var after, books := Run(j, events), BookRun(l, j, events);
      Windowed(after) && books.evicted == multiset{} &&
      books.taken == multiset(after.frames) + books.played + books.dropped
    decreases |events|
  {
    if events != [] {
      BookBalances(l, j, events[0]);
      StepKeepsValid(j, events[0]);
      StepKeepsWindow(l, j, events[0]);
      NeverBehindNeverEvicts(Book(l, j, events[0]), Apply(j, events[0]), events[1..]);
    }
  }

  /** When does a frame go in behind the cursor? Exactly when it is a new frame
      of the session that advances `latest` while polling has already overtaken
      its slot. The guard is one a caller can evaluate before the push. */
  lemma BehindExactlyWhenOvertaken(j: Jitter, frame: AudioFrame, arrival: U64)
    requires Valid(j)
    ensures Behind(Push(j, frame, arrival), frame) <==>
      j.session == Some(frame.sessionId) && !IsDuplicate(j, frame.sequence) &&
      1 <= WrapSub(frame.sequence, j.latest.value) < HALF_SEQUENCE_RANGE &&
      WrapSub(frame.sequence, j.next.value) >= HALF_SEQUENCE_RANGE
  {
    hide LateFrames, RegisterLate, RegisterAdverse, RegisterStable, QueueFrame;
  }

  /** That guard is also exact for the window: a push takes a windowed buffer out of
      its window if and only if it queues behind the cursor. */
  lemma WindowKeptExactly(j: Jitter, frame: AudioFrame, arrival: U64)
    requires Valid(j) && Windowed(j)
    ensures Windowed(Push(j, frame, arrival).buffer) <==> !Behind(Push(j, frame, arrival), frame)
  {
    hide Push;
    PushKeepsValid(j, frame, arrival);
    var pushed := Push(j, frame, arrival);
    if Behind(pushed, frame) {
      QueueKeepsOrder(pushed.fate.before, frame);
      assert frame in multiset(pushed.buffer.frames);
    } else {
      NoEvictionInWindow(j, frame, pushed);
    }
  }

  /** The buffer after frame 0 arrived at 0 ms and three deadlines passed. */
  function Starved(session: U64): Jitter
  {
    Jitter([], Some(session), Some(3), Some(0), Some(2), Some((0, 0)), Pacing(Some(0), Some(55), 40, 0, 0))
  }

  lemma StarvedIsReached(f0: AudioFrame)
    requires f0.sequence == 0
    ensures Run(EMPTY, [Arrive(f0, 0), Tick(40), Tick(45), Tick(50)]) == Starved(f0.sessionId)
  {
    var session := f0.sessionId;
    var pacing := Pacing(Some(0), Some(40), 40, 0, 0);
    var j1 := Jitter([f0], Some(session), Some(0), Some(0), None, Some((0, 0)), pacing);
    var j2 := Jitter([], Some(session), Some(1), Some(0), Some(0), Some((0, 0)), pacing.(nextPlayout := Some(45)));
    var j3 := Jitter([], Some(session), Some(2), Some(0), Some(1), Some((0, 0)), pacing.(nextPlayout := Some(50)));
    assert Push(EMPTY, f0, 0).buffer == j1;
    assert Poll(j1, 40).buffer == j2;
    assert Poll(j2, 45).buffer == j3;
    assert Poll(j3, 50).buffer == Starved(session);
    RunCons(EMPTY, Arrive(f0, 0), [Tick(40), Tick(45), Tick(50)]);
    RunCons(j1, Tick(40), [Tick(45), Tick(50)]);
    RunCons(j2, Tick(45), [Tick(50)]);
    RunCons(j3, Tick(50), []);
  }

  lemma RunCons(j: Jitter, e: Event, rest: seq<Event>)
    ensures Run(j, [e] + rest) == Run(Apply(j, e), rest)
  {
    assert ([e] + rest)[1..] == rest;
  }

  lemma StarvedStoresBehind(session: U64, f1: AudioFrame)
    requires f1.sequence == 1 && f1.sessionId == session
    ensures var pushed := Push(Starved(session), f1, 50);
      pushed.outcome == LateFrame(1) && pushed.buffer.frames == [f1] && Behind(pushed, f1) &&
      pushed.buffer.next == Some(3)
  {
  }

  lemma PollMissesBehind(j: Jitter, f: AudioFrame, now: U64)
    requires j.frames == [f] && j.next != Some(f.sequence)
    ensures Poll(j, now).buffer.frames == [f]
  {
  }

  /** The window claim is false without that guard: three deadlines pass with
      only frame 0 received; frame 1 then still counts as in order, is stored
      behind the cursor, and no next poll returns it. */
  lemma OvertakenFrameIsStored(f0: AudioFrame, f1: AudioFrame, now: U64)
    requires f0.sequence == 0 && f1.sequence == 1 && f0.sessionId == f1.sessionId
    ensures var j := Run(EMPTY, [Arrive(f0, 0), Tick(40), Tick(45), Tick(50)]);
      var pushed := Push(j, f1, 50);
      Windowed(j) && Behind(pushed, f1) && pushed.outcome == LateFrame(1) &&
      !Windowed(pushed.buffer) && Poll(pushed.buffer, now).buffer.frames == [f1]
  {
    StarvedIsReached(f0);
    StarvedStoresBehind(f0.sessionId, f1);
    var stored := Push(Starved(f0.sessionId), f1, 50).buffer;
    assert f1 in stored.frames;
    PollMissesBehind(stored, f1, now);
  }
}
