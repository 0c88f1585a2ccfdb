/** NTP-style clock calibration: the offset estimate, its true error, and the drift check. */
module Calibration {
  import opened Machine

  const MAX_CALIBRATION_ROUND_TRIP_US: nat := 20_000
  const CLOCK_INSTABILITY_THRESHOLD_US: nat := 5_000
  const I64_MIN: int := -0x8000_0000_0000_0000
  const I64_MAX: int := 0x7FFF_FFFF_FFFF_FFFF

  type I64 = n: int | -0x8000_0000_0000_0000 <= n <= 0x7FFF_FFFF_FFFF_FFFF

  datatype NtpSample = NtpSample(t1: U64, t2: U64, t3: U64, t4: U64)

  datatype CalibrationResult = CalibrationResult(offset: I64, errorBound: U64, roundTrip: U64)

  datatype CalibrationError = InvalidTimestampOrder | RoundTripTooLong(roundTrip: U64, maximum: U64)

  datatype CalibrationUpdate = CalibrationUpdate(offset: I64, errorBound: U64, instabilityWarning: bool)

  function ClampI64(n: int): I64
  {
    if n < I64_MIN then I64_MIN else if n > I64_MAX then I64_MAX else n
  }

  function Abs(n: int): nat { if n < 0 then -n else n }

  function Calibrate(s: NtpSample): Result<CalibrationResult, CalibrationError>
  {
    if s.t4 < s.t1 then Err(InvalidTimestampOrder)
    else
      var roundTrip := s.t4 - s.t1;
      if roundTrip > MAX_CALIBRATION_ROUND_TRIP_US then
        Err(RoundTripTooLong(roundTrip, MAX_CALIBRATION_ROUND_TRIP_US))
      else
        var midpoint := SatAdd64(s.t1, roundTrip / 2);
        Ok(CalibrationResult(ClampI64(s.t2 - midpoint), roundTrip / 2, roundTrip))
  }

  /** A probe that the server received when the client clock showed `received`,
      with the server clock ahead by a constant `skew`. */
  ghost predicate Exchange(s: NtpSample, skew: int, received: int)
  {
    s.t1 <= received <= s.t4 && s.t2 == received + skew
  }

  /** A sample is refused exactly when it ends before it begins, or takes more than
      20 ms; an accepted one reports its round trip and half of it, rounded down. */
  lemma AcceptanceIsExact(s: NtpSample)
    ensures Calibrate(s) == Err(InvalidTimestampOrder) <==> s.t4 < s.t1
    ensures s.t4 - s.t1 > 20_000 ==> Calibrate(s) == Err(RoundTripTooLong(s.t4 - s.t1, 20_000))
    ensures Calibrate(s).Ok? <==> 0 <= s.t4 - s.t1 <= 20_000
    ensures Calibrate(s).Ok? ==>
      Calibrate(s).value.roundTrip == s.t4 - s.t1 &&
      0 <= s.t4 - s.t1 - 2 * Calibrate(s).value.errorBound <= 1
  {
  }

  /** Half the round trip, rounded up: the furthest that a representable estimate can be off. */
  function HalfUp(roundTrip: nat): nat { (roundTrip + 1) / 2 }

  /** The estimate is off by at most the ceiling of half the round trip, and so by at
      most 10 ms, if and only if the clamp to i64 leaves room for that: the skew
      itself may be out of range, but by no more than that half. */
  lemma OffsetError(s: NtpSample, skew: int, received: int)
    requires Exchange(s, skew, received) && Calibrate(s).Ok?
    ensures var r := Calibrate(s).value;
      HalfUp(r.roundTrip) <= 10_000 &&
      (Abs(r.offset - skew) <= HalfUp(r.roundTrip) <==>
        I64_MIN - HalfUp(r.roundTrip) <= skew <= I64_MAX + HalfUp(r.roundTrip))
  {
  }

  /** The published `error_bound_us` is the floor of that half instead. With a skew
      that the clamp leaves room for, it is a true bound except in one case: the
      round trip is odd, the whole of it was spent on the way to the server, and
      the estimate was not clamped. */
  lemma PublishedBoundIsExactUnless(s: NtpSample, skew: int, received: int)
    requires Exchange(s, skew, received) && Calibrate(s).Ok?
    ensures var r, raw := Calibrate(s).value, s.t2 - (s.t1 + (s.t4 - s.t1) / 2);
      Abs(r.offset - skew) <= r.errorBound <==>
        I64_MIN - r.errorBound <= skew <= I64_MAX + r.errorBound &&
        !(r.roundTrip % 2 == 1 && received == s.t4 && I64_MIN <= raw <= I64_MAX)
  {
  }

  /** An instance of a skew beyond that room. */
  lemma UnrepresentableSkewIsMissed()
    ensures var s, skew := NtpSample(0, 0x8000_0000_0000_4E20, 0, 0), 0x8000_0000_0000_4E20;
      Exchange(s, skew, 0) && Calibrate(s).Ok? && Abs(Calibrate(s).value.offset - skew) > 10_000
  {
    OffsetError(NtpSample(0, 0x8000_0000_0000_4E20, 0, 0), 0x8000_0000_0000_4E20, 0);
  }

  class CalibrationTracker {
    var offset: Option<I64>

    constructor ()
      ensures offset == None
    {
      offset := None;
    }

    /** Applies one sample: it becomes the active offset, and a warning is raised
        exactly when it moved by more than 5 ms from the previous one. */
    method Update(result: CalibrationResult) returns (update: CalibrationUpdate)
      modifies this
      ensures offset == Some(result.offset)
      ensures update.offset == result.offset && update.errorBound == result.errorBound
      ensures update.instabilityWarning == Unstable(old(offset), result.offset)
    {
      var warning := false;
      if offset.Some? {
        warning := Abs(offset.value - result.offset) > CLOCK_INSTABILITY_THRESHOLD_US;
      }
      offset := Some(result.offset);
      update := CalibrationUpdate(result.offset, result.errorBound, warning);
    }
  }

  predicate Unstable(previous: Option<I64>, offset: I64)
  {
    previous.Some? && Abs(previous.value - offset) > CLOCK_INSTABILITY_THRESHOLD_US
  }

  /** Two exchanges with one and the same skew whose offsets raise the warning. */
  ghost predicate FalseWarning(a: NtpSample, b: NtpSample, skew: int, receivedA: int, receivedB: int)
  {
    Exchange(a, skew, receivedA) && Exchange(b, skew, receivedB) && Calibrate(a).Ok? && Calibrate(b).Ok? &&
    Unstable(Some(Calibrate(a).value.offset), Calibrate(b).value.offset)
  }

  function RoundTrip(s: NtpSample): int { s.t4 - s.t1 }

  /** Some two exchanges with these round trips raise a false warning under this skew. */
  ghost predicate CanMislead(p: nat, q: nat, skew: int)
  {
    exists a, b, receivedA, receivedB ::
      FalseWarning(a, b, skew, receivedA, receivedB) && RoundTrip(a) == p && RoundTrip(b) == q
  }

  /** Whatever the skew, the two offsets differ by at most half the sum of the round trips, rounded up. */
  lemma OffsetsDiffer(a: NtpSample, b: NtpSample, skew: int, receivedA: int, receivedB: int)
    requires Exchange(a, skew, receivedA) && Exchange(b, skew, receivedB)
    requires Calibrate(a).Ok? && Calibrate(b).Ok?
    ensures Abs(Calibrate(a).value.offset - Calibrate(b).value.offset) <= HalfUp(RoundTrip(a) + RoundTrip(b))
  {
  }

  /** An exchange whose whole round trip is spent on the way out, or on the way back. */
  function OneWay(roundTrip: nat, skew: I64, out: bool): NtpSample
    requires roundTrip <= MAX_CALIBRATION_ROUND_TRIP_US && I64_MIN + 10_000 <= skew <= I64_MAX - 10_000
  {
    var t1 := Max(-skew, 0);
    NtpSample(t1, t1 + skew + if out then roundTrip else 0, t1 + skew, t1 + roundTrip)
  }

  lemma OneWayOffset(roundTrip: nat, skew: I64, out: bool)
    requires roundTrip <= MAX_CALIBRATION_ROUND_TRIP_US && I64_MIN + 10_000 <= skew <= I64_MAX - 10_000
    ensures var s := OneWay(roundTrip, skew, out);
      Exchange(s, skew, if out then s.t4 else s.t1) && RoundTrip(s) == roundTrip && Calibrate(s).Ok? &&
      Calibrate(s).value.offset == skew + if out then HalfUp(roundTrip) else -(roundTrip / 2)
  {
  }

  /** An odd first round trip goes out and the second comes back, or the other way round. */
  lemma OneWaysMislead(p: nat, q: nat, skew: I64)
    requires p <= MAX_CALIBRATION_ROUND_TRIP_US && q <= MAX_CALIBRATION_ROUND_TRIP_US && p + q > 10_000
    requires I64_MIN + 10_000 <= skew <= I64_MAX - 10_000
    ensures CanMislead(p, q, skew)
  {
    var out := p % 2 == 1;
    OneWayOffset(p, skew, out);
    OneWayOffset(q, skew, !out);
    var a, b := OneWay(p, skew, out), OneWay(q, skew, !out);
    assert FalseWarning(a, b, skew, if out then a.t4 else a.t1, if out then b.t1 else b.t4);
  }

  /** The instability warning is false for some constant skew exactly when the two
      round trips, each short enough to be accepted, exceed 10 ms together. */
  lemma FalseWarningIffSumAbove10ms(p: nat, q: nat)
    ensures (exists skew :: CanMislead(p, q, skew)) <==>
      p <= MAX_CALIBRATION_ROUND_TRIP_US && q <= MAX_CALIBRATION_ROUND_TRIP_US && p + q > 10_000
  {
    if p <= MAX_CALIBRATION_ROUND_TRIP_US && q <= MAX_CALIBRATION_ROUND_TRIP_US && p + q > 10_000 {
      OneWaysMislead(p, q, 0);
    }
    if skew :| CanMislead(p, q, skew) {
      var a, b, ra, rb :| FalseWarning(a, b, skew, ra, rb) && RoundTrip(a) == p && RoundTrip(b) == q;
      OffsetsDiffer(a, b, skew, ra, rb);
    }
  }
}
