/** On a loss-free in-order stream the jitter buffer is a transparent delay line. */
module JitterDelayLine {
  import opened Machine
  import opened Wire
  import opened Sequence
  import opened JitterModel
  import opened JitterInvariant

  /** A stream of fewer than 2^31 consecutively numbered frames of one session;
      frame k arrives between 5k and 5k + 5 milliseconds after `origin`. */
  datatype Stream = Stream(start: U32, frames: seq<AudioFrame>, arrivals: seq<U64>, origin: nat)

  ghost predicate OnTime(s: Stream)
  {
    0 < |s.frames| < HALF_SEQUENCE_RANGE && |s.arrivals| == |s.frames| &&
    s.origin + 5 * |s.frames| + 100 < U64_LIMIT &&
    (forall k :: 0 <= k < |s.frames| ==>
      s.frames[k].sequence == Wrap(s.start + k) && s.frames[k].sessionId == s.frames[0].sessionId) &&
    forall k :: 0 <= k < |s.arrivals| ==> s.origin + 5 * k <= s.arrivals[k] <= s.origin + 5 * k + 5
  }

  /** The n-th playout deadline. */
  function Deadline(s: Stream, n: nat): nat
    requires |s.arrivals| > 0
  {
    s.arrivals[0] + MIN_TARGET_DELAY_MS + n * FRAME_DURATION_MS
  }

  /** The buffer after k arrivals and n polls, in closed form. */
  function Steady(s: Stream, k: nat, n: nat): Jitter
    requires 0 < k <= |s.frames| == |s.arrivals| && n <= k
    requires Deadline(s, n) < U64_LIMIT
  {
    Jitter(s.frames[n..k], Some(s.frames[0].sessionId), Some(Wrap(s.start + n)), Some(Wrap(s.start + k - 1)),
           if n > 0 then Some(Wrap(s.start + n - 1)) else None,
           Some((s.start, s.arrivals[0])),
           Pacing(Some(s.arrivals[0]), Some(Deadline(s, n)), MIN_TARGET_DELAY_MS, 0, (k - 1) % 20))
  }

  lemma DeadlineFits(s: Stream, n: nat)
    requires OnTime(s) && n <= |s.frames|
    ensures Deadline(s, n) < U64_LIMIT
  {
  }

  lemma FirstArrivalIsSteady(s: Stream)
    requires OnTime(s)
    ensures Deadline(s, 0) < U64_LIMIT &&
      Push(EMPTY, s.frames[0], s.arrivals[0]).buffer == Steady(s, 1, 0)
  {
    DeadlineFits(s, 0);
    assert s.frames[0].sequence == Wrap(s.start + 0);
    assert s.frames[0..1] == [s.frames[0]];
  }

  /** No resident and no just-played label collides with the next one to arrive. */
  lemma NextIsNew(s: Stream, k: nat, n: nat)
    requires OnTime(s) && n <= k && 0 < k < |s.frames| && k - n < MAX_BUFFERED_FRAMES
    requires Deadline(s, n) < U64_LIMIT
    ensures !IsDuplicate(Steady(s, k, n), s.frames[k].sequence)
  {
    assert s.frames[k].sequence == Wrap(s.start + k);
    if n > 0 {
      WrapIdentifies(s.start + n - 1, s.start + k);
    }
    forall f | f in s.frames[n..k] ensures f.sequence != s.frames[k].sequence {
      var m :| n <= m < k && s.frames[m] == f;
      assert f.sequence == Wrap(s.start + m);
      WrapIdentifies(s.start + m, s.start + k);
    }
  }

  lemma NextIsInOrder(s: Stream, k: nat)
    requires OnTime(s) && 0 < k < |s.frames|
    ensures ClassifySequence(Wrap(s.start + k - 1), s.frames[k].sequence) == InOrder
  {
    assert s.frames[k].sequence == Wrap(s.start + k);
    ClassifyIsTrueOrder(s.start + k - 1, s.start + k);
  }

  lemma NextIsNotLate(s: Stream, k: nat)
    requires OnTime(s) && 0 < k < |s.frames|
    ensures WrapSub(s.frames[k].sequence, s.start) == k
    ensures LateFramesAfter(k, s.arrivals[0], s.arrivals[k]) == 0
  {
    assert s.frames[k].sequence == Wrap(s.start + k);
    WrapDistance(s.start + k, s.start);
    assert s.origin <= s.arrivals[0] && s.arrivals[k] <= s.origin + 5 * k + 5;
  }

  lemma NextDistance(s: Stream, k: nat, n: nat)
    requires OnTime(s) && n <= k && 0 < k < |s.frames|
    ensures WrapSub(s.frames[k].sequence, Wrap(s.start + n)) == k - n
  {
    assert s.frames[k].sequence == Wrap(s.start + k);
    WrapDistance(s.start + k, s.start + n);
  }

  lemma ResidentsAreNearer(s: Stream, k: nat, n: nat, m: nat)
    requires OnTime(s) && n + m < k <= |s.frames|
    ensures WrapSub(s.frames[n..k][m].sequence, Wrap(s.start + n)) == m
  {
    assert s.frames[n + m].sequence == Wrap(s.start + n + m);
    WrapDistance(s.start + n + m, s.start + n);
  }

  /** A frame further out than every resident goes to the back of the queue. */
  lemma QueueAtEnd(j: Jitter, frame: AudioFrame)
    requires j.next.Some? && |j.frames| < MAX_BUFFERED_FRAMES
    requires forall m :: 0 <= m < |j.frames| ==>
      WrapSub(j.frames[m].sequence, j.next.value) <= WrapSub(frame.sequence, j.next.value)
    ensures QueueFrame(j, frame) == j.(frames := j.frames + [frame])
  {
    PositionBeyondIs(j.frames, j.next.value, WrapSub(frame.sequence, j.next.value), |j.frames|);
  }

  /** An arrival that precedes the next deadline is at most nine slots ahead. */
  lemma LeadIsShort(s: Stream, k: nat, n: nat)
    requires OnTime(s) && n <= k < |s.frames| && s.arrivals[k] <= Deadline(s, n)
    ensures k - n <= 9
  {
  }

  lemma StableAtFloor(first: U64, playout: U64, k: nat)
    requires k > 0
    ensures RegisterStable(Pacing(Some(first), Some(playout), MIN_TARGET_DELAY_MS, 0, (k - 1) % 20)) ==
      Pacing(Some(first), Some(playout), MIN_TARGET_DELAY_MS, 0, k % 20)
  {
  }

  /** The steady buffer with its newest label and counter already moved on. */
  function Seen(s: Stream, k: nat, n: nat): Jitter
    requires 0 < k < |s.frames| == |s.arrivals| && n <= k
    requires Deadline(s, n) < U64_LIMIT
  {
    Steady(s, k, n).(latest := Some(Wrap(s.start + k)),
      pacing := Pacing(Some(s.arrivals[0]), Some(Deadline(s, n)), MIN_TARGET_DELAY_MS, 0, k % 20))
  }

  lemma ArrivalIsTaken(s: Stream, k: nat, n: nat)
    requires OnTime(s) && n <= k && 0 < k < |s.frames| && k - n < MAX_BUFFERED_FRAMES
    requires Deadline(s, n) < U64_LIMIT
    ensures Decide(Steady(s, k, n), s.frames[k], s.arrivals[k]) == Take(Seen(s, k, n), InOrderFrame)
  {
    NextIsNew(s, k, n);
    NextIsInOrder(s, k);
    NextIsNotLate(s, k);
    StableAtFloor(s.arrivals[0], Deadline(s, n), k);
    assert s.frames[k].sequence == Wrap(s.start + k);
  }

  lemma ArrivalIsQueued(s: Stream, k: nat, n: nat)
    requires OnTime(s) && n <= k && 0 < k < |s.frames| && k - n < MAX_BUFFERED_FRAMES
    requires Deadline(s, n) < U64_LIMIT
    ensures !IsOutsideWindow(Seen(s, k, n), s.frames[k].sequence)
    ensures QueueFrame(Seen(s, k, n), s.frames[k]) == Steady(s, k + 1, n)
  {
    NextDistance(s, k, n);
    forall m | 0 <= m < k - n ensures WrapSub(s.frames[n..k][m].sequence, Wrap(s.start + n)) <= k - n {
      ResidentsAreNearer(s, k, n, m);
    }
    QueueAtEnd(Seen(s, k, n), s.frames[k]);
    SliceBack(s.frames, n, k);
  }

  lemma ArrivalStep(s: Stream, k: nat, n: nat)
    requires OnTime(s) && n <= k && 0 < k < |s.frames| && s.arrivals[k] <= Deadline(s, n)
    ensures Deadline(s, n) < U64_LIMIT
    ensures var pushed := Push(Steady(s, k, n), s.frames[k], s.arrivals[k]);
      pushed.buffer == Steady(s, k + 1, n) && pushed.outcome == InOrderFrame &&
      pushed.fate.Queued? && !pushed.fate.reset
  {
    DeadlineFits(s, n);
    LeadIsShort(s, k, n);
    ArrivalIsTaken(s, k, n);
    ArrivalIsQueued(s, k, n);
  }

  /** By the n-th deadline frame n has arrived. */
  lemma DueFrameIsHere(s: Stream, k: nat, n: nat)
    requires OnTime(s) && n <= k && n < |s.frames|
    requires k < |s.frames| ==> Deadline(s, n) <= s.arrivals[k]
    ensures n < k
  {
  }

  lemma PollTakesFront(j: Jitter, now: U64)
    requires PollDue(j, now) && |j.frames| > 0 && j.frames[0].sequence == j.next.value
    ensures Poll(j, now) == Polled(
      j.(next := Some(WrapNext(j.next.value)), lastPlayed := j.next, frames := j.frames[1..],
         pacing := j.pacing.(nextPlayout := Some(SatAdd64(j.pacing.nextPlayout.value, FRAME_DURATION_MS)))),
      Some(AudioItem(j.frames[0])))
  {
    assert j.frames[..0] == [];
  }

  lemma PollStep(s: Stream, k: nat, n: nat)
    requires OnTime(s) && n < k <= |s.frames|
    ensures Deadline(s, n) < U64_LIMIT && Deadline(s, n + 1) < U64_LIMIT
    ensures var polled := Poll(Steady(s, k, n), Deadline(s, n));
      polled.buffer == Steady(s, k, n + 1) && polled.item == Some(AudioItem(s.frames[n]))
  {
    DeadlineFits(s, n);
    DeadlineFits(s, n + 1);
    assert s.frames[n].sequence == Wrap(s.start + n);
    hide Poll;
    WrapSuccessor(s.start + n);
    PollTakesFront(Steady(s, k, n), Deadline(s, n));
  }

  /** What happens next: a frame arrives, or a deadline is polled. */
  datatype Move = Arrives | Deadlined

  /** Events happen in time order: nothing overtakes an earlier arrival or deadline. */
  predicate InTimeOrder(s: Stream, k: nat, n: nat, moves: seq<Move>)
    requires |s.arrivals| == |s.frames| > 0
    decreases |moves|
  {
    moves == [] ||
    match moves[0]
    case Arrives =>
      k < |s.frames| && (k > 0 ==> s.arrivals[k] <= Deadline(s, n)) && InTimeOrder(s, k + 1, n, moves[1..])
    case Deadlined =>
      0 < k && n < |s.frames| && (k < |s.frames| ==> Deadline(s, n) <= s.arrivals[k]) &&
      InTimeOrder(s, k, n + 1, moves[1..])
  }

  /** The buffer events of a schedule. */
  function Events(s: Stream, k: nat, n: nat, moves: seq<Move>): seq<Event>
    requires OnTime(s) && InTimeOrder(s, k, n, moves)
    decreases |moves|
  {
    if moves == [] then []
    else match moves[0]
      case Arrives => [Arrive(s.frames[k], s.arrivals[k])] + Events(s, k + 1, n, moves[1..])
      case Deadlined => DeadlineFits(s, n); [Tick(Deadline(s, n))] + Events(s, k, n + 1, moves[1..])
  }

  function Polls(moves: seq<Move>): nat
  {
    if moves == [] then 0 else (if moves[0].Deadlined? then 1 else 0) + Polls(moves[1..])
  }

  function AudioItems(frames: seq<AudioFrame>): seq<PlayoutItem>
  {
    seq(|frames|, k requires 0 <= k < |frames| => AudioItem(frames[k]))
  }

  /** Event by event: arrivals never restart the window, each poll hands out the
      next of `frames` as audio, and the target ends at the floor. */
  ghost predicate PlaysThrough(j: Jitter, events: seq<Event>, frames: seq<AudioFrame>)
    decreases |events|
  {
    if events == [] then frames == [] && j.pacing.target == MIN_TARGET_DELAY_MS
    else match events[0]
      case Reset => false
      case Arrive(frame, arrival) =>
        !IsRestart(Push(j, frame, arrival).fate) && PlaysThrough(Apply(j, events[0]), events[1..], frames)
      case Tick(now) =>
        frames != [] && Poll(j, now).item == Some(AudioItem(frames[0])) &&
        PlaysThrough(Apply(j, events[0]), events[1..], frames[1..])
  }

  predicate IsRestart(fate: Fate) { fate.Queued? && fate.reset }

  lemma {:induction false} PlaysThroughMeans(j: Jitter, events: seq<Event>, frames: seq<AudioFrame>)
    requires PlaysThrough(j, events, frames)
    ensures Items(j, events) == AudioItems(frames)
    ensures Uninterrupted(j, events) && Run(j, events).pacing.target == MIN_TARGET_DELAY_MS
    decreases |events|
  {
    if events != [] {
      var rest := if events[0].Tick? then frames[1..] else frames;
      PlaysThroughMeans(Apply(j, events[0]), events[1..], rest);
      if events[0].Tick? {
        assert AudioItems(frames) == [AudioItem(frames[0])] + AudioItems(rest);
      }
    }
  }

  lemma ArrivalThen(s: Stream, k: nat, n: nat, rest: seq<Event>, frames: seq<AudioFrame>)
    requires OnTime(s) && n <= k && 0 < k < |s.frames| && s.arrivals[k] <= Deadline(s, n) < U64_LIMIT
    requires PlaysThrough(Steady(s, k + 1, n), rest, frames)
    ensures PlaysThrough(Steady(s, k, n), [Arrive(s.frames[k], s.arrivals[k])] + rest, frames)
  {
    ArrivalStep(s, k, n);
    assert ([Arrive(s.frames[k], s.arrivals[k])] + rest)[1..] == rest;
  }

  lemma PollThen(s: Stream, k: nat, n: nat, rest: seq<Event>, frames: seq<AudioFrame>)
    requires OnTime(s) && n < k <= |s.frames| && Deadline(s, n + 1) < U64_LIMIT
    requires PlaysThrough(Steady(s, k, n + 1), rest, frames)
    ensures PlaysThrough(Steady(s, k, n), [Tick(Deadline(s, n))] + rest, [s.frames[n]] + frames)
  {
    PollStep(s, k, n);
    assert ([Tick(Deadline(s, n))] + rest)[1..] == rest && ([s.frames[n]] + frames)[1..] == frames;
  }

  /** The frames whose deadlines pass in a schedule. */
  function DueFrames(s: Stream, n: nat, moves: seq<Move>): seq<AudioFrame>
    decreases |moves|
  {
    if moves == [] then []
    else if moves[0].Deadlined? && n < |s.frames| then [s.frames[n]] + DueFrames(s, n + 1, moves[1..])
    else DueFrames(s, n, moves[1..])
  }

  lemma {:induction false} DueInOrder(s: Stream, k: nat, n: nat, moves: seq<Move>)
    requires |s.arrivals| == |s.frames| > 0 && n <= |s.frames| && InTimeOrder(s, k, n, moves)
    ensures n + Polls(moves) <= |s.frames|
    ensures DueFrames(s, n, moves) == s.frames[n..n + Polls(moves)]
    decreases |moves|
  {
    if moves != [] {
      if moves[0].Arrives? {
        DueInOrder(s, k + 1, n, moves[1..]);
      } else {
        DueInOrder(s, k, n + 1, moves[1..]);
        SliceFront(s.frames, n, n + Polls(moves));
      }
    }
  }

  /** From the steady buffer, the schedule plays the due frames. */
  ghost predicate Glides(s: Stream, k: nat, n: nat, moves: seq<Move>)
    requires OnTime(s) && 0 < k <= |s.frames| && n <= k && InTimeOrder(s, k, n, moves)
  {
    Deadline(s, n) < U64_LIMIT && PlaysThrough(Steady(s, k, n), Events(s, k, n, moves), DueFrames(s, n, moves))
  }

  lemma ArrivalGlides(s: Stream, k: nat, n: nat, moves: seq<Move>)
    requires OnTime(s) && 0 < k <= |s.frames| && n <= k && InTimeOrder(s, k, n, moves)
    requires moves != [] && moves[0].Arrives? && k < |s.frames| && Glides(s, k + 1, n, moves[1..])
    ensures Glides(s, k, n, moves)
  {
    ArrivalThen(s, k, n, Events(s, k + 1, n, moves[1..]), DueFrames(s, n, moves[1..]));
  }

  lemma PollGlides(s: Stream, k: nat, n: nat, moves: seq<Move>)
    requires OnTime(s) && 0 < k <= |s.frames| && n < k && InTimeOrder(s, k, n, moves)
    requires moves != [] && moves[0].Deadlined? && n < |s.frames| && Glides(s, k, n + 1, moves[1..])
    ensures Glides(s, k, n, moves)
  {
    DeadlineFits(s, n);
    PollThen(s, k, n, Events(s, k, n + 1, moves[1..]), DueFrames(s, n + 1, moves[1..]));
  }

  lemma {:induction false} SteadyRun(s: Stream, k: nat, n: nat, moves: seq<Move>)
    requires OnTime(s) && 0 < k <= |s.frames| && n <= k && InTimeOrder(s, k, n, moves)
    ensures Glides(s, k, n, moves)
    decreases |moves|
  {
    if moves == [] {
      DeadlineFits(s, n);
    } else if moves[0].Arrives? {
      SteadyRun(s, k + 1, n, moves[1..]);
      ArrivalGlides(s, k, n, moves);
    } else {
      DueFrameIsHere(s, k, n);
      SteadyRun(s, k, n + 1, moves[1..]);
      PollGlides(s, k, n, moves);
    }
  }

  /** The delay line: from the empty buffer, in every time-ordered schedule that
      polls each deadline once, playout is exactly the pushed frames in order,
      none concealed, the window is never reset and the target stays at 40 ms. */
  lemma TransparentDelayLine(s: Stream, moves: seq<Move>)
    requires OnTime(s) && InTimeOrder(s, 0, 0, moves) && moves != []
    ensures Polls(moves) <= |s.frames|
    ensures var events := Events(s, 0, 0, moves);
      Items(EMPTY, events) == AudioItems(s.frames[..Polls(moves)]) &&
      Uninterrupted(EMPTY, events) && Run(EMPTY, events).pacing.target == MIN_TARGET_DELAY_MS
  {
    FirstArrivalIsSteady(s);
    SteadyRun(s, 1, 0, moves[1..]);
    DueInOrder(s, 0, 0, moves);
    PlaysThroughMeans(EMPTY, Events(s, 0, 0, moves), DueFrames(s, 0, moves));
  }
}
