/** A run in which the u32 buffer evicts the very frame that is due next, so that
    it conceals a slot that the ideal buffer plays. */
module JitterEviction {
  import opened Machine
  import opened Wire
  import opened Sequence
  import opened JitterModel
  import opened JitterInvariant
  import opened JitterIdeal

  /** Frames 0 to 43 of one session. */
  predicate Numbered(fs: seq<AudioFrame>)
  {
    |fs| == 44 && forall k :: 0 <= k < |fs| ==> fs[k].sequence == k && fs[k].sessionId == fs[0].sessionId
  }

  function AsEvent(h: Happening): Event
  {
    match h
    case Arrival(_, frame, at) => Arrive(frame, at)
    case Playout(now) => Tick(now)
    case Clearing => Reset
  }

  function Evicted(j: Jitter, hs: seq<Happening>): multiset<AudioFrame>
    decreases |hs|
  {
    if hs == [] then multiset{}
    else Book(BLANK, j, AsEvent(hs[0])).evicted + Evicted(Observe(j, hs[0]).0, hs[1..])
  }

  function AsEvents(hs: seq<Happening>): seq<Event>
  {
    if hs == [] then [] else [AsEvent(hs[0])] + AsEvents(hs[1..])
  }

  lemma BookIsAdditive(l: Ledger, j: Jitter, e: Event)
    ensures Book(l, j, e).evicted == l.evicted + Book(BLANK, j, e).evicted
  {
    hide Push, Poll;
  }

  /** `Evicted` is what the ledger of the run says. */
  lemma {:induction false} EvictedIsBooked(l: Ledger, j: Jitter, hs: seq<Happening>)
    ensures BookRun(l, j, AsEvents(hs)).evicted == l.evicted + Evicted(j, hs)
    decreases |hs|
  {
    hide Push, Poll, Book;
    if hs != [] {
      var e := AsEvent(hs[0]);
      assert AsEvents(hs)[1..] == AsEvents(hs[1..]);
      assert Apply(j, e) == Observe(j, hs[0]).0;
      BookIsAdditive(l, j, e);
      EvictedIsBooked(Book(l, j, e), Apply(j, e), hs[1..]);
    }
  }

  /** The two buffers show an observer different things, and the u32 one evicts `lost`. */
  ghost predicate Diverges(j: Jitter, a: Ideal, hs: seq<Happening>, lost: multiset<AudioFrame>)
  {
    LabelledRun(a, hs) && Trace(j, hs) != IdealTrace(a, hs) && Evicted(j, hs) == lost
  }

  lemma DivergesLater(j: Jitter, a: Ideal, h: Happening, hs: seq<Happening>, lost: multiset<AudioFrame>,
                      lostLater: multiset<AudioFrame>)
    requires Labelled(a, h) && Diverges(Observe(j, h).0, IdealObserve(a, h).0, hs, lostLater)
    requires lost == Book(BLANK, j, AsEvent(h)).evicted + lostLater
    ensures Diverges(j, a, [h] + hs, lost)
  {
    hide Observe, IdealObserve, Labelled, Book;
    var run := [h] + hs;
    assert run[1..] == hs;
    assert Trace(j, run)[1..] == Trace(Observe(j, h).0, hs);
    assert IdealTrace(a, run)[1..] == IdealTrace(IdealObserve(a, h).0, hs);
  }

  lemma PollEvictsNothing(j: Jitter, now: U64)
    ensures Book(BLANK, j, Tick(now)).evicted == multiset{}
  {
    hide Poll;
  }

  lemma DivergesAtPoll(j: Jitter, a: Ideal, now: U64)
    requires Poll(j, now).item != IdealPoll(a, now).item
    ensures Diverges(j, a, [Playout(now)], multiset{})
  {
    hide Poll, IdealPoll, Book;
    var poll := Playout(now);
    PollEvictsNothing(j, now);
    assert [poll][1..] == [];
    assert Trace(j, [poll])[0] == Played(Poll(j, now).item);
    assert LabelledRun(a, [poll]);
    assert IdealTrace(a, [poll])[0] == Played(IdealPoll(a, now).item);
    assert Trace(j, [poll]) != IdealTrace(a, [poll]);
    assert Evicted(Observe(j, poll).0, []) == multiset{};
    assert Evicted(j, [poll]) == multiset{};
  }

  // ------------------------------------------------------------ filling the buffer

  /** Frames `from` to `to` - 1 and the overtaken frame 1 behind them. */
  function Row(fs: seq<AudioFrame>, from: nat, to: nat): seq<AudioFrame>
    requires from <= to <= |fs| == 44
  {
    fs[from..to] + [fs[1]]
  }

  /** Cursor 3 with frame 1 stored behind it and frames 3 to n + 2 ahead of it. */
  ghost predicate Crowded(j: Jitter, a: Ideal, fs: seq<AudioFrame>, n: nat)
    requires Numbered(fs) && n <= 40
  {
    Refines(j, a) && a.Live? && a.session == fs[0].sessionId && a.cursor == 3 && a.anchor == 0 && a.heard &&
    a.newest == (if n == 0 then 1 else n + 2) && j.frames == Row(fs, 3, n + 3)
  }

  /** Frames n + 3 to 43 arrive, and the next deadline is polled. */
  function Burst(fs: seq<AudioFrame>, n: nat, at: U64): seq<Happening>
    requires |fs| == 44 && n <= 40
    decreases 40 - n
  {
    [Arrival(n + 3, fs[n + 3], at)] + if n == 40 then [Playout(U64_MAX)] else Burst(fs, n + 1, at)
  }

  lemma CrowdedIsNew(j: Jitter, a: Ideal, fs: seq<AudioFrame>, n: nat)
    requires Numbered(fs) && n <= 40 && Crowded(j, a, fs, n)
    ensures InRange(a, n + 3) && Wrap(n + 3) == n + 3 && n + 3 !in a.slots
    ensures j.next == Some(3) && !IsDuplicate(j, n + 3) && !IsOutsideWindow(j, n + 3)
    ensures IsStored(j, fs[n + 3]) && Evicts(j, fs[n + 3]) == (n == 40)
  {
    forall f | f in j.frames ensures f.sequence != n + 3 {
      var k :| 0 <= k < |j.frames| && j.frames[k] == f;
      assert k < n ==> f == fs[k + 3];
    }
    ResidentLabels(j.frames, a.slots, a.cursor, n + 3);
    ComparisonsAgree(j, a, n + 3);
  }

  lemma GoesBeforeLast(ahead: seq<AudioFrame>, last: AudioFrame, f: AudioFrame, next: U32)
    requires forall k :: 0 <= k < |ahead| ==> Distance(ahead[k], next) <= Distance(f, next)
    requires Distance(last, next) > Distance(f, next)
    ensures InsertAt(ahead + [last], PositionBeyond(ahead + [last], next, Distance(f, next)), f) == ahead + [f] + [last]
  {
    PositionBeyondIs(ahead + [last], next, Distance(f, next), |ahead|);
    assert InsertAt(ahead + [last], |ahead|, f) == ahead + [f] + [last];
  }

  /** The next frame goes in front of the overtaken one. */
  lemma RowGrows(fs: seq<AudioFrame>, from: nat, to: nat)
    requires Numbered(fs) && 3 <= from <= to < 44
    ensures InsertAt(Row(fs, from, to), PositionBeyond(Row(fs, from, to), 3, to - 3), fs[to]) == Row(fs, from, to + 1)
  {
    var ahead := fs[from..to];
    forall k | 0 <= k < |ahead| ensures Distance(ahead[k], 3) <= Distance(fs[to], 3) {
      assert ahead[k] == fs[from + k];
    }
    GoesBeforeLast(ahead, fs[1], fs[to], 3);
    SliceBack(fs, from, to);
  }

  lemma RowEvicts(fs: seq<AudioFrame>, n: nat)
    requires |fs| == 44 && n <= 40
    ensures AfterEviction(Row(fs, 3, n + 3)) == Row(fs, if n == 40 then 4 else 3, n + 3)
  {
    assert fs[3..43][1..] == fs[4..43];
  }

  /** With all places taken, frame 3 goes out for the next one. */
  lemma NextGoesInFront(j: Jitter, fs: seq<AudioFrame>, n: nat)
    requires Numbered(fs) && n <= 40 && j.next == Some(3) && j.frames == Row(fs, 3, n + 3)
    ensures QueueFrame(j, fs[n + 3]).frames == Row(fs, if n == 40 then 4 else 3, n + 4)
  {
    hide Row, AfterEviction;
    RowEvicts(fs, n);
    RowGrows(fs, if n == 40 then 4 else 3, n + 3);
  }

  /** What the ideal buffer does with a frame that advances `newest` within the window. */
  lemma IdealTakes(a: Ideal, i: int, frame: AudioFrame, at: U64)
    requires a.Live? && InRange(a, i) && frame.sessionId == a.session
    requires a.newest < i < a.cursor + MAX_BUFFERED_FRAMES && i !in a.slots && i != a.cursor - 1
    ensures var after := IdealPush(a, i, frame, at).buffer;
      after.Live? && after == a.(slots := a.slots[i := frame], newest := i, pacing := after.pacing)
  {
    hide RegisterLate, RegisterAdverse, RegisterStable, LateFramesAfter;
  }

  lemma CrowdedGrows(j: Jitter, a: Ideal, fs: seq<AudioFrame>, n: nat, at: U64)
    requires Numbered(fs) && n < 40 && Crowded(j, a, fs, n)
    ensures Labelled(a, Arrival(n + 3, fs[n + 3], at))
    ensures Book(BLANK, j, Arrive(fs[n + 3], at)).evicted == multiset{}
    ensures Crowded(Push(j, fs[n + 3], at).buffer, IdealPush(a, n + 3, fs[n + 3], at).buffer, fs, n + 1)
  {
    CrowdedIsNew(j, a, fs, n);
    NextGoesInFront(j, fs, n);
    StoringIsExact(j, fs[n + 3], at);
    EvictionIsExact(BLANK, j, fs[n + 3], at);
    OverflowIsEviction(j, a, n + 3, fs[n + 3], at);
    PushRefines(j, a, n + 3, fs[n + 3], at);
    IdealTakes(a, n + 3, fs[n + 3], at);
    hide Refines, Push, IdealPush, QueueFrame, Book, Row, Evicts, Overflows, IsStored;
  }

  lemma {:induction false} BurstDiverges(j: Jitter, a: Ideal, fs: seq<AudioFrame>, n: nat, at: U64)
    requires Numbered(fs) && n <= 40 && Crowded(j, a, fs, n)
    ensures Diverges(j, a, Burst(fs, n, at), multiset{fs[3]})
    decreases 40 - n
  {
    hide Push, IdealPush, Book, Diverges, Crowded, Labelled;
    var h := Arrival(n + 3, fs[n + 3], at);
    if n == 40 {
      LastSlotDiverges(j, a, fs, at);
    } else {
      CrowdedGrows(j, a, fs, n, at);
      BurstDiverges(Observe(j, h).0, IdealObserve(a, h).0, fs, n + 1, at);
      DivergesLater(j, a, h, Burst(fs, n + 1, at), multiset{fs[3]}, multiset{fs[3]});
    }
  }

  /** The eviction itself: frame 3, due next, is the one that goes. */
  lemma FrameThreeGoes(j: Jitter, a: Ideal, fs: seq<AudioFrame>, at: U64)
    requires Numbered(fs) && Crowded(j, a, fs, 40)
    ensures Labelled(a, Arrival(43, fs[43], at))
    ensures Book(BLANK, j, Arrive(fs[43], at)).evicted == multiset{fs[3]}
    ensures Push(j, fs[43], at).buffer.frames == Row(fs, 4, 44)
  {
    CrowdedIsNew(j, a, fs, 40);
    NextGoesInFront(j, fs, 40);
    StoringIsExact(j, fs[43], at);
    EvictionIsExact(BLANK, j, fs[43], at);
    ComparisonsAgree(j, a, 43);
    assert j.frames[0] == fs[3];
    hide Push, QueueFrame, SameSlots, Refines;
  }

  lemma MissingIsConcealed(j: Jitter, fs: seq<AudioFrame>)
    requires Numbered(fs) && Valid(j) && j.session == Some(fs[0].sessionId) && j.next == Some(3)
    requires j.frames == Row(fs, 4, 44)
    ensures Poll(j, U64_MAX).item == Some(GapItem(fs[0].sessionId, 3))
  {
    assert j.frames[0] == fs[4];
    DuePoll(j, U64_MAX);
  }

  lemma StoredIsPlayed(j: Jitter, a: Ideal, fs: seq<AudioFrame>, at: U64)
    requires Numbered(fs) && Crowded(j, a, fs, 40)
    ensures InRange(a, 43)
    ensures IdealPoll(IdealPush(a, 43, fs[43], at).buffer, U64_MAX).item == Some(AudioItem(fs[3]))
  {
    CrowdedIsNew(j, a, fs, 40);
    assert j.frames[0] == fs[3];
    FrontIsCursor(j.frames, a.slots, 3);
    PushRefines(j, a, 43, fs[43], at);
    PushKeepsValid(j, fs[43], at);
    IdealTakes(a, 43, fs[43], at);
    hide IdealPush, Push;
  }

  lemma LastSlotDiverges(j: Jitter, a: Ideal, fs: seq<AudioFrame>, at: U64)
    requires Numbered(fs) && Crowded(j, a, fs, 40)
    ensures Diverges(j, a, Burst(fs, 40, at), multiset{fs[3]})
  {
    var h := Arrival(43, fs[43], at);
    FrameThreeGoes(j, a, fs, at);
    PushKeepsValid(j, fs[43], at);
    PushRefines(j, a, 43, fs[43], at);
    MissingIsConcealed(Push(j, fs[43], at).buffer, fs);
    StoredIsPlayed(j, a, fs, at);
    DivergesAtPoll(Observe(j, h).0, IdealObserve(a, h).0, U64_MAX);
    DivergesLater(j, a, h, [Playout(U64_MAX)], multiset{fs[3]}, multiset{});
    assert Burst(fs, 40, at) == [h] + [Playout(U64_MAX)];
  }

  // ------------------------------------------------------------ from the empty buffer

  /** Both sides after frame 0 arrived at 0 ms and k deadlines passed. */
  function Waiting(f0: AudioFrame, k: nat): Jitter
    requires k <= 3
  {
    Jitter(if k == 0 then [f0] else [], Some(f0.sessionId), Some(k), Some(0), if k == 0 then None else Some(k - 1),
           Some((0, 0)), Pacing(Some(0), Some(40 + 5 * k), 40, 0, 0))
  }

  function IdealWaiting(f0: AudioFrame, k: nat): Ideal
    requires k <= 3
  {
    Live(f0.sessionId, if k == 0 then map[0 := f0] else map[], k, 0, k > 0, 0, 0,
         Pacing(Some(0), Some(40 + 5 * k), 40, 0, 0))
  }

  lemma FirstFrameOpens(f0: AudioFrame)
    requires f0.sequence == 0
    ensures Push(EMPTY, f0, 0).buffer == Waiting(f0, 0) && IdealPush(Idle, 0, f0, 0).buffer == IdealWaiting(f0, 0)
    ensures Book(BLANK, EMPTY, Arrive(f0, 0)).evicted == multiset{}
  {
  }

  lemma DeadlinePasses(f0: AudioFrame, k: nat)
    requires f0.sequence == 0 && k < 3
    ensures Poll(Waiting(f0, k), 40 + 5 * k).buffer == Waiting(f0, k + 1)
    ensures IdealPoll(IdealWaiting(f0, k), 40 + 5 * k).buffer == IdealWaiting(f0, k + 1)
    ensures Book(BLANK, Waiting(f0, k), Tick(40 + 5 * k)).evicted == multiset{}
  {
    assert k == 0 ==> map[0 := f0] - {0} == map[];
  }

  lemma WaitingRefines(f0: AudioFrame)
    ensures Refines(Waiting(f0, 3), IdealWaiting(f0, 3))
  {
  }

  lemma OvertakenIsStored(f0: AudioFrame, f1: AudioFrame)
    requires f1.sequence == 1 && f1.sessionId == f0.sessionId
    ensures Push(Waiting(f0, 3), f1, 50).buffer.frames == [f1]
  {
    hide Push;
    StarvedStoresBehind(f0.sessionId, f1);
    assert Waiting(f0, 3) == Starved(f0.sessionId);
  }

  /** Frame 1 goes in behind the cursor. */
  lemma OvertakenCrowds(fs: seq<AudioFrame>)
    requires Numbered(fs)
    ensures var j, a := Waiting(fs[0], 3), IdealWaiting(fs[0], 3);
      Labelled(a, Arrival(1, fs[1], 50)) && Book(BLANK, j, Arrive(fs[1], 50)).evicted == multiset{} &&
      Crowded(Push(j, fs[1], 50).buffer, IdealPush(a, 1, fs[1], 50).buffer, fs, 0)
  {
    var j, a := Waiting(fs[0], 3), IdealWaiting(fs[0], 3);
    WaitingRefines(fs[0]);
    OvertakenIsStored(fs[0], fs[1]);
    assert a.Live? && a.session == fs[0].sessionId && a.cursor == 3 && a.newest == a.anchor == 0 && a.heard;
    assert j.frames == [] && a.slots == map[] && Row(fs, 3, 3) == [fs[1]];
    hide Waiting, IdealWaiting, Valid, Push, IdealPush, Book, Row;
    EvictionIsExact(BLANK, j, fs[1], 50);
    PushRefines(j, a, 1, fs[1], 50);
    IdealTakes(a, 1, fs[1], 50);
  }

  /** From the deadlines on: k have passed already. */
  function Stall(fs: seq<AudioFrame>, k: nat, at: U64): seq<Happening>
    requires |fs| == 44 && k <= 3
    decreases 3 - k
  {
    if k < 3 then [Playout(40 + 5 * k)] + Stall(fs, k + 1, at) else [Arrival(1, fs[1], 50)] + Burst(fs, 0, at)
  }

  lemma {:induction false} StallDiverges(fs: seq<AudioFrame>, k: nat, at: U64)
    requires Numbered(fs) && k <= 3
    ensures Diverges(Waiting(fs[0], k), IdealWaiting(fs[0], k), Stall(fs, k, at), multiset{fs[3]})
    decreases 3 - k
  {
    hide Push, Poll, IdealPush, IdealPoll, Book, Diverges, Burst, Crowded, Refines;
    var j, a := Waiting(fs[0], k), IdealWaiting(fs[0], k);
    if k < 3 {
      DeadlinePasses(fs[0], k);
      StallDiverges(fs, k + 1, at);
      DivergesLater(j, a, Playout(40 + 5 * k), Stall(fs, k + 1, at), multiset{fs[3]}, multiset{fs[3]});
    } else {
      OvertakenCrowds(fs);
      BurstDiverges(Push(j, fs[1], 50).buffer, IdealPush(a, 1, fs[1], 50).buffer, fs, 0, at);
      DivergesLater(j, a, Arrival(1, fs[1], 50), Burst(fs, 0, at), multiset{fs[3]}, multiset{fs[3]});
    }
  }

  /** From the empty buffer: frame 0 arrives, three deadlines pass, frame 1 arrives
      too late but is stored, and frames 3 to 43 fill the buffer. The last of them
      evicts frame 3, and the next poll conceals slot 3 where the ideal buffer
      plays it. */
  lemma EvictionDiverges(fs: seq<AudioFrame>, at: U64)
    requires Numbered(fs)
    ensures var run := [Arrival(0, fs[0], 0)] + Stall(fs, 0, at);
      LabelledRun(Idle, run) && Trace(EMPTY, run) != IdealTrace(Idle, run) &&
      BookRun(BLANK, EMPTY, AsEvents(run)).evicted == multiset{fs[3]}
  {
    EvictedIsBooked(BLANK, EMPTY, [Arrival(0, fs[0], 0)] + Stall(fs, 0, at));
    FirstFrameOpens(fs[0]);
    StallDiverges(fs, 0, at);
    DivergesLater(EMPTY, Idle, Arrival(0, fs[0], 0), Stall(fs, 0, at), multiset{fs[3]}, multiset{fs[3]});
  }
}
