/** `next_wakeup` is exact: sleeping until it changes nothing that an observer of
    the client could see. */
module ClientWakeup {
  import opened Machine
  import opened Wire
  import opened SessionIds
  import opened JitterModel
  import opened JitterInvariant
  import opened ClientModel
  import ClientInvariant

  /** `origin + p` milliseconds is the first instant whose elapsed milliseconds reach p. */
  lemma PlayoutInstant(origin: Instant, now: Instant, p: U64)
    requires now >= origin
    ensures ElapsedMs(origin, now) >= p <==> now >= origin + p * MILLISECOND
  {
  }

  /** Strictly before the wakeup instant nothing is due: `advance` sends nothing and
      changes nothing, and no slot is ready. */
  lemma NothingIsDueBefore(c: Client, now: Instant, s: Supply, renderOk: bool)
    requires ClientInvariant.Inv(c) && now >= c.origin
    requires NextWakeup(c).Some? ==> now < NextWakeup(c).value
    ensures Advance(c, now, s) == Moved(c, [], Ok(()))
    ensures RenderReady(c, now, renderOk) == Rendered(c, None, Ok(NotReady))
  {
    if c.jitter.pacing.nextPlayout.Some? {
      PlayoutInstant(c.origin, now, c.jitter.pacing.nextPlayout.value);
    }
  }

  /** The one way a due timer can pass without a packet: a new Start is due but the
      session id space is used up. */
  predicate IdsUsedUp(c: Client)
  {
    (c.phase.Establishing? || c.phase.Unreachable?) && c.lastIssued == U64_MAX
  }

  /** From the wakeup instant on something happens at once: a packet is attempted,
      or `advance` finds no timer due and a slot is ready. This holds exactly when
      the session id space is not used up at a due Start. */
  lemma SomethingIsDueAt(c: Client, now: Instant, s: Supply, renderOk: bool)
    requires ClientInvariant.Inv(c) && now >= c.origin
    requires NextWakeup(c).Some? && now >= NextWakeup(c).value
    ensures Advance(c, now, s).sent != [] || RenderReady(Advance(c, now, s).client, now, renderOk).frame.Some?
            <==> !IdsUsedUp(c)
  {
    NextIsLeastNewer(s.epochMs, c.lastIssued, 0);
    if c.jitter.pacing.nextPlayout.Some? {
      PlayoutInstant(c.origin, now, c.jitter.pacing.nextPlayout.value);
      assert c.phase.Streaming?;
    }
    hide NextSessionId, Poll, ClientInvariant.Inv;
  }

  /** That state is reachable: a client whose clock reads the largest u64 issues the
      last id. Its Start is due again after five seconds, and nothing is sent then. */
  lemma IdsCanRunOut(s: Supply, renderOk: bool)
    ensures var c := ClientInvariant.RunClient(0, [(0, ClientInvariant.DoStart(U64_MAX, true))]);
      IdsUsedUp(c) && NextWakeup(c) == Some(5 * SECOND) &&
      Advance(c, 5 * SECOND, s).sent == [] && Advance(c, 5 * SECOND, s).result == Err(IdsExhausted)
  {
    var run := [(0, ClientInvariant.DoStart(U64_MAX, true))];
    assert run[..0] == [];
    assert ClientInvariant.RunClient(0, run) == StartRun(Fresh(0), 0, U64_MAX, true).client;
  }

  // ------------------------------------------------------------ sleeping and polling

  /** What the environment supplies at each instant. */
  datatype Weather = Weather(supply: Supply, renderOk: bool)

  /** Everything an observer sees of one iteration. */
  datatype Seen = Seen(at: Instant, sent: seq<Packet>, frame: Option<AudioFrame>,
                       advanced: Result<(), ClientError>, rendered: Result<RenderOutcome, ClientError>)

  /** One loop iteration without inbound datagram: advance, then render. */
  function Iterate(c: Client, now: Instant, w: Weather): (Client, Seen)
  {
    var m := Advance(c, now, w.supply);
    var r := RenderReady(m.client, now, w.renderOk);
    (r.client, Seen(now, m.sent, r.frame, m.result, r.result))
  }

  /** An iteration leaves a trace when it sends, renders or fails. */
  predicate Visible(s: Seen)
  {
    s.sent != [] || s.frame.Some? || s.advanced.Err? || s.rendered.Err?
  }

  datatype Traced = Traced(client: Client, trace: seq<Seen>)

  /** One iteration in front of a trace. */
  function Prepend(step: (Client, Seen), rest: Traced): Traced
  {
    Traced(rest.client, (if Visible(step.1) then [step.1] else []) + rest.trace)
  }

  /** Iterates at every instant from `now` up to `end`, keeping the visible iterations. */
  function PollEvery(c: Client, now: Instant, end: Instant, weather: Instant -> Weather): Traced
    decreases end - now
  {
    if now >= end then Traced(c, [])
    else
      var step := Iterate(c, now, weather(now));
      Prepend(step, PollEvery(step.0, now + 1, end, weather))
  }

  /** When a sleeper that looks at the client at `now` runs next: at `end` if nothing is due before. */
  function WakeAt(c: Client, now: Instant, end: Instant): (wake: Instant)
    requires now <= end
    ensures now <= wake <= end
  {
    var due := NextWakeup(c);
    if due.None? then end else Min(Max(now, due.value), end)
  }

  /** Iterates only when `next_wakeup` says so. */
  function SleepUntilDue(c: Client, now: Instant, end: Instant, weather: Instant -> Weather): Traced
    requires now <= end
    decreases end - now
  {
    var wake := WakeAt(c, now, end);
    if wake == end then Traced(c, [])
    else
      var step := Iterate(c, wake, weather(wake));
      Prepend(step, SleepUntilDue(step.0, wake + 1, end, weather))
  }

  lemma IterateKeepsInv(c: Client, now: Instant, w: Weather)
    requires ClientInvariant.Inv(c)
    ensures ClientInvariant.Inv(Iterate(c, now, w).0) && Iterate(c, now, w).0.origin == c.origin
  {
    ClientInvariant.AdvanceKeepsInv(c, now, w.supply);
    ClientInvariant.RenderKeepsInv(Advance(c, now, w.supply).client, now, w.renderOk);
  }

  /** Polling through a quiet stretch is the same as skipping it. */
  lemma {:induction false} QuietStretch(c: Client, now: Instant, wake: Instant, end: Instant,
                                        weather: Instant -> Weather)
    requires ClientInvariant.Inv(c) && c.origin <= now <= wake <= end
    requires NextWakeup(c).Some? ==> wake <= Max(now, NextWakeup(c).value)
    ensures PollEvery(c, now, end, weather) == PollEvery(c, wake, end, weather)
    decreases wake - now
  {
    hide Advance, RenderReady;
    if now < wake {
      NothingIsDueBefore(c, now, weather(now).supply, weather(now).renderOk);
      QuietStretch(c, now + 1, wake, end, weather);
    }
  }

  /** Sleeping to the deadline yields the same final state and the same visible
      trace, instant by instant, as polling at every tick. */
  lemma {:induction false} SleepingMissesNothing(c: Client, now: Instant, end: Instant, weather: Instant -> Weather)
    requires ClientInvariant.Inv(c) && c.origin <= now <= end
    ensures SleepUntilDue(c, now, end, weather) == PollEvery(c, now, end, weather)
    decreases end - now
  {
    hide Iterate;
    var wake := WakeAt(c, now, end);
    QuietStretch(c, now, wake, end, weather);
    if wake < end {
      var step := Iterate(c, wake, weather(wake));
      IterateKeepsInv(c, wake, weather(wake));
      SleepingMissesNothing(step.0, wake + 1, end, weather);
    }
  }
}
