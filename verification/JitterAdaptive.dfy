/** Laws of the adaptive delay controller, against closed forms. */
module JitterAdaptive {
  import opened Machine
  import opened Wire
  import opened JitterModel
  import opened JitterInvariant

  /** n adverse frames registered one at a time. */
  function AdverseTimes(p: Pacing, n: nat): Pacing
  {
    if n == 0 then p else RegisterAdverse(AdverseTimes(p, n - 1), 1)
  }

  /** k consecutive stable frames. */
  function StableTimes(p: Pacing, k: nat): Pacing
  {
    if k == 0 then p else RegisterStable(StableTimes(p, k - 1))
  }

  /** The playout deadline under a new target: never before `target` after the first
      arrival, and never earlier than it was. */
  function PushedOut(p: Pacing, target: U64): Option<U64>
  {
    if p.firstArrival.None? || p.nextPlayout.None? then p.nextPlayout
    else Some(Max(p.nextPlayout.value, Min(p.firstArrival.value + target, U64_MAX)))
  }

  /** The controller with `total` adverse frames on its counter: twenty milliseconds
      per completed group of three, capped at 200, the rest still counted, the
      stable count lost, and the deadline pushed out to match. */
  function Grown(p: Pacing, total: nat): Pacing
  {
    var target := Min(p.target + total / 3 * 20, 200);
    Pacing(p.firstArrival, PushedOut(p, target), target, total % 3, 0)
  }

  /** `register_adverse` in closed form, the deadline extension included. */
  lemma AdverseClosedForm(p: Pacing, n: U32)
    requires ControllerOk(p)
    ensures RegisterAdverse(p, n) == Grown(p, Min(p.adverse + n, U32_MAX))
  {
    var total := Min(p.adverse + n, U32_MAX);
    assert Min(SatAdd64(p.target, total / 3 * 20), 200) == Min(p.target + total / 3 * 20, 200);
  }

  /** What the closed form means for the two deadlines. */
  lemma AdverseMovesDeadline(p: Pacing, n: U32)
    requires ControllerOk(p) && p.firstArrival.Some? && p.nextPlayout.Some?
    ensures var after := RegisterAdverse(p, n);
      after.firstArrival == p.firstArrival && p.target <= after.target <= 200 &&
      after.nextPlayout ==
        Some(Max(p.nextPlayout.value, Min(p.firstArrival.value + after.target, 0xFFFF_FFFF_FFFF_FFFF)))
  {
    AdverseClosedForm(p, n);
  }

  lemma GroupStep(m: nat)
    ensures (m % 3 + 1) % 3 == (m + 1) % 3 && m / 3 + (m % 3 + 1) / 3 == (m + 1) / 3
  {
  }

  /** Growing by one more group member, on the capped target alone. */
  lemma TargetStep(target: nat, m: nat)
    requires target <= 200
    ensures Min(Min(target + m / 3 * 20, 200) + (m % 3 + 1) / 3 * 20, 200) == Min(target + (m + 1) / 3 * 20, 200)
  {
    GroupStep(m);
  }

  lemma SingleGrows(p: Pacing, m: nat)
    requires ControllerOk(p)
    ensures Grown(Grown(p, m), m % 3 + 1) == Grown(p, m + 1)
  {
    GroupStep(m);
    TargetStep(p.target, m);
    assert Grown(p, m).target <= Grown(p, m + 1).target;
  }

  lemma GrownStaysOk(p: Pacing, total: nat)
    requires ControllerOk(p)
    ensures ControllerOk(Grown(p, total))
  {
  }

  lemma {:induction false} SinglesGrow(p: Pacing, n: nat)
    requires ControllerOk(p) && n > 0
    ensures AdverseTimes(p, n) == Grown(p, p.adverse + n)
  {
    var before := AdverseTimes(p, n - 1);
    if n > 1 {
      SinglesGrow(p, n - 1);
      GrownStaysOk(p, p.adverse + n - 1);
      SingleGrows(p, p.adverse + n - 1);
    }
    AdverseClosedForm(before, 1);
    hide RegisterAdverse;
  }

  /** Registering n adverse frames at once is the same as registering them one by
      one, including the deadline extension, if and only if the counter does not
      saturate. */
  lemma BulkEqualsSingles(p: Pacing, n: U32)
    requires ControllerOk(p) && n > 0
    ensures RegisterAdverse(p, n) == AdverseTimes(p, n) <==> p.adverse + n <= U32_MAX
  {
    AdverseClosedForm(p, n);
    SinglesGrow(p, n);
    hide RegisterAdverse, AdverseTimes;
  }

  /** The buffer after frame 0 arrived at 0 ms and frame 1 seven milliseconds late. */
  function OneLate(f0: AudioFrame, f1: AudioFrame): Jitter
  {
    Jitter([f0, f1], Some(f0.sessionId), Some(0), Some(1), None, Some((0, 0)), Pacing(Some(0), Some(40), 40, 1, 0))
  }

  function Started(f0: AudioFrame): Jitter
  {
    Jitter([f0], Some(f0.sessionId), Some(0), Some(0), None, Some((0, 0)), Pacing(Some(0), Some(40), 40, 0, 0))
  }

  lemma LateIsTaken(f0: AudioFrame, f1: AudioFrame)
    requires f0.sequence == 0 && f1.sequence == 1 && f0.sessionId == f1.sessionId
    ensures Decide(Started(f0), f1, 12) == Take(OneLate(f0, f1).(frames := [f0]), LateFrame(1))
  {
    assert LateFrames(Started(f0), 1, 12) == 1;
  }

  lemma LateFollows(f0: AudioFrame, f1: AudioFrame)
    requires f0.sequence == 0 && f1.sequence == 1 && f0.sessionId == f1.sessionId
    ensures Push(Started(f0), f1, 12).buffer == OneLate(f0, f1)
  {
    LateIsTaken(f0, f1);
    PositionBeyondIs([f0], 0, 1, 1);
    assert InsertAt([f0], 1, f1) == [f0, f1];
    hide InsertAt, PositionBeyond, Decide;
  }

  lemma OneLateIsReached(f0: AudioFrame, f1: AudioFrame)
    requires f0.sequence == 0 && f1.sequence == 1 && f0.sessionId == f1.sessionId
    ensures Run(EMPTY, [Arrive(f0, 0), Arrive(f1, 12)]) == OneLate(f0, f1)
  {
    assert Push(EMPTY, f0, 0).buffer == Started(f0);
    hide Push;
    LateFollows(f0, f1);
    RunCons(EMPTY, Arrive(f0, 0), [Arrive(f1, 12)]);
    RunCons(Started(f0), Arrive(f1, 12), []);
  }

  /** Lateness can saturate the counter: frame 2 arrives some 248 days late, and one
      adverse frame is lost. */
  lemma SaturationIsReached(f0: AudioFrame, f1: AudioFrame, f2: AudioFrame)
    requires f0.sequence == 0 && f1.sequence == 1 && f2.sequence == 2
    requires f0.sessionId == f1.sessionId == f2.sessionId
    ensures var j := Run(EMPTY, [Arrive(f0, 0), Arrive(f1, 12)]);
      var pushed := Push(j, f2, 10 + 5 * U32_MAX);
      pushed.buffer.pacing == RegisterAdverse(j.pacing, U32_MAX) != AdverseTimes(j.pacing, U32_MAX)
  {
    hide AdverseTimes;
    OneLateIsReached(f0, f1);
    var j := OneLate(f0, f1);
    assert LateFrames(j, 2, 10 + 5 * U32_MAX) == U32_MAX;
    BulkEqualsSingles(j.pacing, U32_MAX);
    hide RegisterAdverse, LateFrames, Run;
  }

  /** Decay: five milliseconds per completed period of twenty, down to the floor. */
  lemma {:induction false} StableDecay(p: Pacing, k: nat)
    requires ControllerOk(p)
    ensures StableTimes(p, k).target == Max(MIN_TARGET_DELAY_MS, p.target - 5 * ((p.stable + k) / 20))
    ensures StableTimes(p, k).stable == (p.stable + k) % 20
    ensures StableTimes(p, k).adverse == if k == 0 then p.adverse else 0
    ensures StableTimes(p, k).nextPlayout == p.nextPlayout && StableTimes(p, k).firstArrival == p.firstArrival
  {
    if k > 0 {
      StableDecay(p, k - 1);
      PeriodStep(p.stable + k - 1);
    }
  }

  lemma PeriodStep(m: nat)
    ensures m % 20 < 19 ==> (m + 1) % 20 == m % 20 + 1 && (m + 1) / 20 == m / 20
    ensures m % 20 == 19 ==> (m + 1) % 20 == 0 && (m + 1) / 20 == m / 20 + 1
  {
  }

  /** 640 stable frames restore the floor from anywhere, and no smaller number
      does so from the ceiling. */
  lemma RecoveryTakes640(p: Pacing, k: nat)
    requires ControllerOk(p)
    ensures k >= 640 ==> StableTimes(p, k).target == MIN_TARGET_DELAY_MS
    ensures p.target == MAX_TARGET_DELAY_MS && p.stable == 0 && k < 640 ==>
      StableTimes(p, k).target > MIN_TARGET_DELAY_MS
  {
    StableDecay(p, k);
  }
}
