/** Latency percentiles and the soundness of their conservative margin. */
module Measurement {
  import opened Machine
  import opened Calibration

  const CONSERVATIVE_P95_MARGIN_US: nat := 25_000

  datatype LatencyStats = LatencyStats(rawP50: U64, rawP95: U64, rawP99: U64, conservativeP95: U64)

  // ------------------------------------------------------------ sorting

  function Insert(x: U64, s: seq<U64>): seq<U64>
  {
    if s == [] || x <= s[0] then [x] + s else [s[0]] + Insert(x, s[1..])
  }

  /** `sort_unstable`, specified by insertion. */
  function Sorted(s: seq<U64>): seq<U64>
  {
    if s == [] then [] else Insert(s[0], Sorted(s[1..]))
  }

  ghost predicate Ascending(s: seq<U64>)
  {
    forall i, k :: 0 <= i < k < |s| ==> s[i] <= s[k]
  }

  /** How many samples are at most x. */
  function Count(s: seq<U64>, x: int): nat
  {
    if s == [] then 0 else (if s[0] <= x then 1 else 0) + Count(s[1..], x)
  }

  function CountBelow(s: seq<U64>, x: int): nat { Count(s, x - 1) }

  lemma {:induction false} InsertCounts(v: U64, s: seq<U64>, x: int)
    ensures Count(Insert(v, s), x) == Count([v] + s, x) && |Insert(v, s)| == |s| + 1
  {
    if s != [] && v > s[0] {
      InsertCounts(v, s[1..], x);
      assert ([v] + s)[1..] == s && ([v] + s[1..])[1..] == s[1..];
      assert Insert(v, s)[1..] == Insert(v, s[1..]);
    }
  }

  lemma {:induction false} SortedCounts(s: seq<U64>, x: int)
    ensures Count(Sorted(s), x) == Count(s, x) && |Sorted(s)| == |s|
  {
    if s != [] {
      SortedCounts(s[1..], x);
      InsertCounts(s[0], Sorted(s[1..]), x);
      assert ([s[0]] + Sorted(s[1..]))[1..] == Sorted(s[1..]);
    }
  }

  lemma {:induction false} InsertAscends(x: U64, s: seq<U64>)
    requires Ascending(s)
    ensures Ascending(Insert(x, s))
    ensures forall y :: y in Insert(x, s) <==> y == x || y in s
  {
    if s != [] && x > s[0] {
      InsertAscends(x, s[1..]);
      var r := Insert(x, s[1..]);
      forall k | 0 <= k < |r| ensures s[0] <= r[k] {
        assert r[k] in r;
      }
      assert s == [s[0]] + s[1..];
    }
  }

  lemma {:induction false} SortedAscends(s: seq<U64>)
    ensures Ascending(Sorted(s))
    ensures forall y :: y in Sorted(s) <==> y in s
  {
    if s != [] {
      SortedAscends(s[1..]);
      InsertAscends(s[0], Sorted(s[1..]));
      assert s == [s[0]] + s[1..];
    }
  }

  /** In ascending order, position r holds at most x exactly when more than r samples do. */
  lemma {:induction false} PositionByCount(s: seq<U64>, r: nat, x: int)
    requires Ascending(s) && r < |s|
    ensures s[r] <= x <==> Count(s, x) >= r + 1
  {
    if s[0] > x {
      NoneBelow(s, x);
    } else if r > 0 {
      PositionByCount(s[1..], r - 1, x);
    }
  }

  lemma {:induction false} NoneBelow(s: seq<U64>, x: int)
    requires Ascending(s) && |s| > 0 && s[0] > x
    ensures Count(s, x) == 0
  {
    if |s| > 1 {
      NoneBelow(s[1..], x);
    }
  }

  // ------------------------------------------------------------ nearest rank

  /** The zero-based position of a percentile among n > 0 samples. */
  function Rank(n: nat, percent: nat): nat
    requires n > 0
  {
    Max((n * percent + 99) / 100, 1) - 1
  }

  lemma RankIsCeiling(n: nat, percent: nat)
    requires n > 0 && 1 <= percent <= 100
    ensures Rank(n, percent) < n
    ensures (Rank(n, percent) + 1) * 100 >= n * percent > Rank(n, percent) * 100
  {
    assert n <= n * percent <= n * 100;
  }

  function Percentile(values: seq<U64>, percent: nat): U64
    requires 1 <= percent <= 100
  {
    if values == [] then 0
    else
      RankIsCeiling(|values|, percent);
      values[Rank(|values|, percent)]
  }

  /** The textbook definition: a sample that at least `percent` per cent of the
      samples do not exceed, and that is the least such value. */
  ghost predicate IsNearestRank(samples: seq<U64>, percent: nat, v: U64)
  {
    v in samples && Count(samples, v) * 100 >= |samples| * percent > CountBelow(samples, v) * 100
  }

  lemma PercentileIsNearestRank(samples: seq<U64>, percent: nat)
    requires samples != [] && 1 <= percent <= 100
    ensures IsNearestRank(samples, percent, Percentile(Sorted(samples), percent))
  {
    var sorted := Sorted(samples);
    SortedAscends(samples);
    SortedCounts(samples, 0);
    var r := Rank(|samples|, percent);
    RankIsCeiling(|samples|, percent);
    var v: int := sorted[r];
    assert sorted[r] in sorted;
    SortedCounts(samples, v);
    SortedCounts(samples, v - 1);
    PositionByCount(sorted, r, v);
    PositionByCount(sorted, r, v - 1);
  }

  /** The definition singles out one value. */
  lemma NearestRankIsUnique(samples: seq<U64>, percent: nat, v: U64, w: U64)
    requires IsNearestRank(samples, percent, v) && IsNearestRank(samples, percent, w)
    ensures v == w
  {
    var x: int, y: int := v, w;
    if x < y {
      CountMonotone(samples, x, y - 1);
    } else if y < x {
      CountMonotone(samples, y, x - 1);
    }
  }

  lemma {:induction false} CountMonotone(s: seq<U64>, x: int, y: int)
    requires x <= y
    ensures Count(s, x) <= Count(s, y)
  {
    if s != [] {
      CountMonotone(s[1..], x, y);
    }
  }

  function Stats(samples: seq<U64>): LatencyStats
  {
    var values := Sorted(samples);
    LatencyStats(Percentile(values, 50), Percentile(values, 95), Percentile(values, 99),
                 SatAdd64(Percentile(values, 95), CONSERVATIVE_P95_MARGIN_US))
  }

  /** `LatencyStats::from_microseconds`: each percentile is the nearest-rank one,
      all zero for no samples. */
  method FromMicroseconds(samples: seq<U64>) returns (stats: LatencyStats)
    ensures stats == Stats(samples)
    ensures samples != [] ==>
      IsNearestRank(samples, 50, stats.rawP50) && IsNearestRank(samples, 95, stats.rawP95) &&
      IsNearestRank(samples, 99, stats.rawP99)
    ensures samples == [] ==> stats == LatencyStats(0, 0, 0, CONSERVATIVE_P95_MARGIN_US)
  {
    var values := samples;
    values := Sorted(values);
    var p95 := Percentile(values, 95);
    stats := LatencyStats(Percentile(values, 50), p95, Percentile(values, 99),
                          SatAdd64(p95, CONSERVATIVE_P95_MARGIN_US));
    if samples != [] {
      PercentileIsNearestRank(samples, 50);
      PercentileIsNearestRank(samples, 95);
      PercentileIsNearestRank(samples, 99);
    }
  }

  // ------------------------------------------------------------ the margin

  function ApplicationLatency(captureServer: U64, renderClient: U64, offset: int): U64
  {
    Min(Max(renderClient + offset - captureServer, 0), U64_MAX)
  }

  /** Sample by sample, b exceeds a by at most `error`. */
  ghost predicate AtMostAbove(a: seq<U64>, b: seq<U64>, error: nat)
  {
    |a| == |b| && forall i :: 0 <= i < |a| ==> b[i] <= a[i] + error
  }

  lemma {:induction false} CountShift(a: seq<U64>, b: seq<U64>, error: nat, x: int)
    requires AtMostAbove(a, b, error)
    ensures Count(a, x) <= Count(b, x + error)
  {
    if a != [] {
      CountShift(a[1..], b[1..], error, x);
    }
  }

  /** Samples that rise by at most `error` each raise no percentile by more than that. */
  lemma PercentileRisesAtMost(a: seq<U64>, b: seq<U64>, error: nat, percent: nat)
    requires AtMostAbove(a, b, error) && 1 <= percent <= 100
    ensures Percentile(Sorted(b), percent) <= Percentile(Sorted(a), percent) + error
  {
    if a != [] {
      var r := Rank(|a|, percent);
      RankIsCeiling(|a|, percent);
      SortedAscends(a);
      SortedAscends(b);
      SortedCounts(a, 0);
      SortedCounts(b, 0);
      var v: int := Sorted(a)[r];
      SortedCounts(a, v);
      SortedCounts(b, v + error);
      PositionByCount(Sorted(a), r, v);
      CountShift(a, b, error, v);
      PositionByCount(Sorted(b), r, v + error);
    }
  }

  /** Sample errors of at most `error` move no percentile by more than `error`. */
  lemma PercentileIsStable(a: seq<U64>, b: seq<U64>, error: nat, percent: nat)
    requires AtMostAbove(a, b, error) && AtMostAbove(b, a, error) && 1 <= percent <= 100
    ensures Abs(Percentile(Sorted(a), percent) - Percentile(Sorted(b), percent)) <= error
  {
    PercentileRisesAtMost(a, b, error, percent);
    PercentileRisesAtMost(b, a, error, percent);
  }

  /** One measured frame, by two readings of the client clock. */
  datatype Measured = Measured(captured: U64, rendered: U64)

  /** The time it truly took; none if the readings are the wrong way round. */
  function Elapsed(f: Measured): U64
  {
    if f.captured <= f.rendered then f.rendered - f.captured else 0
  }

  function AllElapsed(frames: seq<Measured>): seq<U64>
  {
    seq(|frames|, i requires 0 <= i < |frames| => Elapsed(frames[i]))
  }

  /** The server, whose clock is `skew` ahead, can stamp the captures. */
  ghost predicate Stamped(frames: seq<Measured>, skew: int)
  {
    forall i :: 0 <= i < |frames| ==> 0 <= frames[i].captured + skew < U64_LIMIT
  }

  /** With the true skew for an offset, the stamps yield the true time. */
  lemma TrueSkewGivesElapsed(f: Measured, skew: int)
    requires 0 <= f.captured + skew < U64_LIMIT
    ensures ApplicationLatency(f.captured + skew, f.rendered, skew) == Elapsed(f)
  {
  }

  /** With any other offset they are off by no more than the offset is, and on its side. */
  lemma OffsetErrorCarriesOver(f: Measured, skew: int, offset: int)
    requires 0 <= f.captured + skew < U64_LIMIT
    ensures var measured := ApplicationLatency(f.captured + skew, f.rendered, offset);
      (offset >= skew ==> Elapsed(f) <= measured <= Elapsed(f) + (offset - skew)) &&
      (offset <= skew ==> measured <= Elapsed(f) <= measured + (skew - offset))
  {
  }

  /** What is computed from the server's stamps and the estimated offset. */
  function Latencies(frames: seq<Measured>, skew: int, offset: int): seq<U64>
    requires Stamped(frames, skew)
  {
    seq(|frames|, i requires 0 <= i < |frames| =>
      ApplicationLatency(frames[i].captured + skew, frames[i].rendered, offset))
  }

  /** The conservative P95 computed with `offset` is no less than the nearest-rank P95
      of the times that the frames truly took. */
  ghost predicate CoversP95(frames: seq<Measured>, skew: int, offset: int)
    requires Stamped(frames, skew)
  {
    forall v :: IsNearestRank(AllElapsed(frames), 95, v) ==>
      Stats(Latencies(frames, skew, offset)).conservativeP95 >= v
  }

  lemma OffsetCovers(frames: seq<Measured>, skew: int, offset: int)
    requires Stamped(frames, skew) && skew <= offset + CONSERVATIVE_P95_MARGIN_US
    ensures CoversP95(frames, skew, offset)
  {
    var measured, truth := Latencies(frames, skew, offset), AllElapsed(frames);
    forall i | 0 <= i < |frames| ensures truth[i] <= measured[i] + CONSERVATIVE_P95_MARGIN_US {
      OffsetErrorCarriesOver(frames[i], skew, offset);
    }
    PercentileRisesAtMost(measured, truth, CONSERVATIVE_P95_MARGIN_US, 95);
    forall v | IsNearestRank(truth, 95, v) ensures Stats(measured).conservativeP95 >= v {
      PercentileIsNearestRank(truth, 95);
      NearestRankIsUnique(truth, 95, v, Percentile(Sorted(truth), 95));
    }
  }

  /** One frame, captured at the beginning of time and rendered at its end. */
  lemma LongestFrameIsMissed(skew: U64, offset: U64)
    requires skew > offset + CONSERVATIVE_P95_MARGIN_US
    ensures !CoversP95([Measured(0, U64_MAX)], skew, offset)
  {
    var frames := [Measured(0, U64_MAX)];
    var measured := ApplicationLatency(skew, U64_MAX, offset);
    assert Latencies(frames, skew, offset) == [measured] && AllElapsed(frames) == [U64_MAX];
    assert Sorted([measured]) == [measured] && Sorted([U64_MAX]) == [U64_MAX];
    PercentileIsNearestRank([U64_MAX], 95);
  }

  /** With constant clock skew and any accepted calibration sample, the conservative
      P95 is at least the P95 of the true times, for whatever frames are measured: if
      and only if the skew exceeds the i64 range by no more than the margin. */
  lemma ConservativeP95IsSound(s: NtpSample, skew: int, received: int)
    requires Exchange(s, skew, received) && Calibrate(s).Ok?
    ensures (forall frames :: Stamped(frames, skew) ==> CoversP95(frames, skew, Calibrate(s).value.offset)) <==>
      skew <= I64_MAX + 25_000
  {
    var offset := Calibrate(s).value.offset;
    if skew <= I64_MAX + CONSERVATIVE_P95_MARGIN_US {
      forall frames | Stamped(frames, skew) ensures CoversP95(frames, skew, offset) {
        OffsetCovers(frames, skew, offset);
      }
    } else {
      LongestFrameIsMissed(skew, offset);
      assert Stamped([Measured(0, U64_MAX)], skew);
    }
  }
}
