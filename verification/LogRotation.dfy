/** Log retention: an age pass and a size pass over the directory's log entries,
    with file removal as an oracle that may fail on any file in either pass. */
module LogRotation {
  import opened Machine

  datatype LogEntry = LogEntry(path: string, createdAt: nat, size: U64)

  datatype Phase = AgeLimit | SizeLimit

  /** Whether removing a file succeeds. */
  type Removal = (Phase, LogEntry) -> bool

  datatype Limits = Limits(now: nat, maxAge: nat, maxBytes: U64)

  datatype Report = Report(examined: nat, removed: nat, retainedBytes: U64)

  // ------------------------------------------------------------ order

  predicate TextLe(a: string, b: string)
  {
    a == [] || (b != [] && (a[0] < b[0] || (a[0] == b[0] && TextLe(a[1..], b[1..]))))
  }

  /** `compare_log_entries`: by creation time, then by path text. */
  predicate Before(a: LogEntry, b: LogEntry)
  {
    a.createdAt < b.createdAt || (a.createdAt == b.createdAt && TextLe(a.path, b.path))
  }

  lemma {:induction false} TextIsTotal(a: string, b: string)
    ensures TextLe(a, b) || TextLe(b, a)
    ensures TextLe(a, b) && TextLe(b, a) ==> a == b
  {
    if a != [] && b != [] && a[0] == b[0] {
      TextIsTotal(a[1..], b[1..]);
      assert a == [a[0]] + a[1..] && b == [b[0]] + b[1..];
    }
  }

  lemma {:induction false} TextIsTransitive(a: string, b: string, c: string)
    requires TextLe(a, b) && TextLe(b, c)
    ensures TextLe(a, c)
  {
    if a != [] && a[0] == b[0] == c[0] {
      TextIsTransitive(a[1..], b[1..], c[1..]);
    }
  }

  /** The comparator is a total order on the pairs of creation time and path. */
  lemma BeforeIsTotal(a: LogEntry, b: LogEntry)
    ensures Before(a, b) || Before(b, a)
    ensures Before(a, b) && Before(b, a) ==> a.createdAt == b.createdAt && a.path == b.path
  {
    TextIsTotal(a.path, b.path);
  }

  lemma BeforeIsTransitive(a: LogEntry, b: LogEntry, c: LogEntry)
    requires Before(a, b) && Before(b, c)
    ensures Before(a, c)
  {
    if a.createdAt == b.createdAt == c.createdAt {
      TextIsTransitive(a.path, b.path, c.path);
    }
  }

  function InsertEntry(e: LogEntry, s: seq<LogEntry>): seq<LogEntry>
  {
    if s == [] || Before(e, s[0]) then [e] + s else [s[0]] + InsertEntry(e, s[1..])
  }

  /** `sort_by(compare_log_entries)`, specified by insertion. */
  function SortEntries(s: seq<LogEntry>): seq<LogEntry>
  {
    if s == [] then [] else InsertEntry(s[0], SortEntries(s[1..]))
  }

  ghost predicate OldestFirst(s: seq<LogEntry>)
  {
    forall i, k :: 0 <= i < k < |s| ==> Before(s[i], s[k])
  }

  lemma {:induction false} InsertKeepsEntries(e: LogEntry, s: seq<LogEntry>)
    ensures multiset(InsertEntry(e, s)) == multiset{e} + multiset(s)
  {
    if s != [] && !Before(e, s[0]) {
      InsertKeepsEntries(e, s[1..]);
      assert s == [s[0]] + s[1..];
    }
  }

  lemma OldestInFront(first: LogEntry, rest: seq<LogEntry>)
    requires OldestFirst(rest) && (rest == [] || Before(first, rest[0]))
    ensures OldestFirst([first] + rest)
  {
    forall k | 0 <= k < |rest| ensures Before(first, rest[k]) {
      if k > 0 {
        BeforeIsTransitive(first, rest[0], rest[k]);
      }
    }
  }

  lemma {:induction false} InsertSorts(e: LogEntry, s: seq<LogEntry>)
    requires OldestFirst(s)
    ensures OldestFirst(InsertEntry(e, s))
  {
    if s == [] || Before(e, s[0]) {
      OldestInFront(e, s);
    } else {
      BeforeIsTotal(e, s[0]);
      InsertSorts(e, s[1..]);
      OldestInFront(s[0], InsertEntry(e, s[1..]));
    }
  }

  lemma {:induction false} SortSorts(s: seq<LogEntry>)
    ensures OldestFirst(SortEntries(s)) && multiset(SortEntries(s)) == multiset(s)
  {
    if s != [] {
      SortSorts(s[1..]);
      InsertSorts(s[0], SortEntries(s[1..]));
      InsertKeepsEntries(s[0], SortEntries(s[1..]));
      assert s == [s[0]] + s[1..];
    }
  }

  // ------------------------------------------------------------ the two passes

  function Age(e: LogEntry, limits: Limits): nat { SatSub(limits.now, e.createdAt) }

  /** The saturating byte total that the code keeps. */
  function SatTotal(s: seq<LogEntry>, start: U64): U64
  {
    if s == [] then start else SatTotal(s[1..], SatAdd64(start, s[0].size))
  }

  /** The true byte total. */
  function Total(s: seq<LogEntry>): nat
  {
    if s == [] then 0 else s[0].size + Total(s[1..])
  }

  function AgePass(s: seq<LogEntry>, limits: Limits, removal: Removal): seq<LogEntry>
  {
    if s == [] then []
    else if Age(s[0], limits) > limits.maxAge && removal(AgeLimit, s[0]) then AgePass(s[1..], limits, removal)
    else [s[0]] + AgePass(s[1..], limits, removal)
  }

  function SizePass(s: seq<LogEntry>, retained: U64, limits: Limits, removal: Removal): seq<LogEntry>
  {
    if s == [] then []
    else if retained > limits.maxBytes && removal(SizeLimit, s[0]) then
      SizePass(s[1..], SatSub(retained, s[0].size), limits, removal)
    else [s[0]] + SizePass(s[1..], retained, limits, removal)
  }

  /** The files left in the directory. */
  function Survivors(entries: seq<LogEntry>, limits: Limits, removal: Removal): seq<LogEntry>
  {
    var young := AgePass(SortEntries(entries), limits, removal);
    SizePass(young, SatTotal(young, 0), limits, removal)
  }

  lemma AgePassStep(done: seq<LogEntry>, s: seq<LogEntry>, i: nat, limits: Limits, removal: Removal)
    requires i < |s|
    ensures var e := s[i];
      done + AgePass(s[i..], limits, removal) ==
      (if Age(e, limits) > limits.maxAge && removal(AgeLimit, e) then done else done + [e])
        + AgePass(s[i + 1..], limits, removal)
  {
    assert s[i..][1..] == s[i + 1..];
  }

  lemma SizePassStep(done: seq<LogEntry>, s: seq<LogEntry>, i: nat, retained: U64, limits: Limits, removal: Removal)
    requires i < |s|
    ensures var e, removed := s[i], retained > limits.maxBytes && removal(SizeLimit, s[i]);
      done + SizePass(s[i..], retained, limits, removal) ==
      (if removed then done else done + [e])
        + SizePass(s[i + 1..], if removed then SatSub(retained, e.size) else retained, limits, removal)
  {
    assert s[i..][1..] == s[i + 1..];
  }

  method EnforceAge(sorted: seq<LogEntry>, limits: Limits, removal: Removal)
    returns (examined: nat, removed: nat, retained: seq<LogEntry>)
    ensures examined == |sorted| == removed + |retained|
    ensures retained == AgePass(sorted, limits, removal)
  {
    examined, removed, retained := 0, 0, [];
    for i := 0 to |sorted|
      invariant examined == i == removed + |retained|
      invariant retained + AgePass(sorted[i..], limits, removal) == AgePass(sorted, limits, removal)
    {
      AgePassStep(retained, sorted, i, limits, removal);
      examined := examined + 1;
      if Age(sorted[i], limits) > limits.maxAge && removal(AgeLimit, sorted[i]) {
        removed := removed + 1;
      } else {
        retained := retained + [sorted[i]];
      }
    }
  }

  method EnforceSize(entries: seq<LogEntry>, limits: Limits, removal: Removal)
    returns (removed: nat, survivors: seq<LogEntry>)
    ensures removed + |survivors| == |entries|
    ensures survivors == SizePass(entries, SatTotal(entries, 0), limits, removal)
  {
    var retainedBytes: U64 := SatTotal(entries, 0);
    removed, survivors := 0, [];
    for i := 0 to |entries|
      invariant removed + |survivors| == i
      invariant survivors + SizePass(entries[i..], retainedBytes, limits, removal)
        == SizePass(entries, SatTotal(entries, 0), limits, removal)
    {
      SizePassStep(survivors, entries, i, retainedBytes, limits, removal);
      if retainedBytes > limits.maxBytes && removal(SizeLimit, entries[i]) {
        removed := removed + 1;
        retainedBytes := SatSub(retainedBytes, entries[i].size);
      } else {
        survivors := survivors + [entries[i]];
      }
    }
  }

  /** Every entry is examined once and either removed once or left in place. */
  method RotateLogs(entries: seq<LogEntry>, limits: Limits, removal: Removal)
    returns (report: Report, survivors: seq<LogEntry>)
    ensures survivors == Survivors(entries, limits, removal)
    ensures report.examined == |entries| == report.removed + |survivors|
    ensures report.retainedBytes == SatTotal(survivors, 0)
  {
    SortSorts(entries);
    assert |SortEntries(entries)| == |multiset(SortEntries(entries))| == |entries|;
    var examined, aged, young := EnforceAge(SortEntries(entries), limits, removal);
    var trimmed;
    trimmed, survivors := EnforceSize(young, limits, removal);
    report := Report(examined, aged + trimmed, SatTotal(survivors, 0));
  }

  // ------------------------------------------------------------ accounting

  lemma {:induction false} SatTotalIsTotal(s: seq<LogEntry>, start: U64)
    ensures SatTotal(s, start) == Min(start + Total(s), U64_MAX)
  {
    if s != [] {
      SatTotalIsTotal(s[1..], SatAdd64(start, s[0].size));
    }
  }

  lemma {:induction false} PassesShrink(s: seq<LogEntry>, retained: U64, limits: Limits, removal: Removal)
    ensures Total(AgePass(s, limits, removal)) <= Total(s)
    ensures Total(SizePass(s, retained, limits, removal)) <= Total(s)
  {
    if s != [] {
      PassesShrink(s[1..], retained, limits, removal);
      PassesShrink(s[1..], SatSub(retained, s[0].size), limits, removal);
    }
  }

  lemma {:induction false} InsertTotal(e: LogEntry, s: seq<LogEntry>)
    ensures Total(InsertEntry(e, s)) == e.size + Total(s)
  {
    if s != [] && !Before(e, s[0]) {
      InsertTotal(e, s[1..]);
    }
  }

  lemma {:induction false} SortTotal(s: seq<LogEntry>)
    ensures Total(SortEntries(s)) == Total(s)
  {
    if s != [] {
      SortTotal(s[1..]);
      InsertTotal(s[0], SortEntries(s[1..]));
    }
  }

  /** For every directory below 2^64 bytes and every pattern of removal failures,
      the reported bytes are exactly what the surviving files hold. */
  lemma ReportedBytesAreExact(entries: seq<LogEntry>, limits: Limits, removal: Removal)
    requires Total(entries) < U64_LIMIT
    ensures SatTotal(Survivors(entries, limits, removal), 0) == Total(Survivors(entries, limits, removal))
  {
    var sorted := SortEntries(entries);
    SortTotal(entries);
    PassesShrink(sorted, 0, limits, removal);
    var young := AgePass(sorted, limits, removal);
    PassesShrink(young, SatTotal(young, 0), limits, removal);
    SatTotalIsTotal(Survivors(entries, limits, removal), 0);
  }

  // ------------------------------------------------------------ what is kept

  ghost predicate Within(s: seq<LogEntry>, limits: Limits)
  {
    (forall e :: e in s ==> Age(e, limits) <= limits.maxAge) && Total(s) <= limits.maxBytes
  }

  /** The longest suffix within both limits. */
  ghost function NewestWithin(s: seq<LogEntry>, limits: Limits): seq<LogEntry>
  {
    if s == [] || Within(s, limits) then s else NewestWithin(s[1..], limits)
  }

  lemma {:induction false} NewestWithinIsLongest(s: seq<LogEntry>, limits: Limits)
    ensures exists k ::
      0 <= k <= |s| && NewestWithin(s, limits) == s[k..] && Within(s[k..], limits) &&
      forall j :: 0 <= j < k ==> !Within(s[j..], limits)
  {
    if s == [] || Within(s, limits) {
      assert s[0..] == s;
    } else {
      NewestWithinIsLongest(s[1..], limits);
      var k :| 0 <= k <= |s| - 1 && NewestWithin(s, limits) == s[1..][k..] && Within(s[1..][k..], limits) &&
        forall j :: 0 <= j < k ==> !Within(s[1..][j..], limits);
      assert s[1..][k..] == s[k + 1..];
      forall j | 0 <= j < k + 1 ensures !Within(s[j..], limits) {
        if j == 0 {
          assert s[0..] == s;
        } else {
          assert s[j..] == s[1..][j - 1..];
        }
      }
    }
  }

  ghost predicate AllSucceed(removal: Removal)
  {
    forall p, e :: removal(p, e)
  }

  lemma {:induction false} YoungAreKept(s: seq<LogEntry>, limits: Limits, removal: Removal)
    requires forall e :: e in s ==> Age(e, limits) <= limits.maxAge
    ensures AgePass(s, limits, removal) == s
  {
    if s != [] {
      YoungAreKept(s[1..], limits, removal);
      assert s == [s[0]] + s[1..];
    }
  }

  lemma {:induction false} SmallAreKept(s: seq<LogEntry>, retained: U64, limits: Limits, removal: Removal)
    requires retained <= limits.maxBytes
    ensures SizePass(s, retained, limits, removal) == s
  {
    if s != [] {
      SmallAreKept(s[1..], retained, limits, removal);
    }
  }

  lemma {:induction false} SizePassTrims(s: seq<LogEntry>, limits: Limits, removal: Removal)
    requires AllSucceed(removal) && Total(s) < U64_LIMIT
    requires forall e :: e in s ==> Age(e, limits) <= limits.maxAge
    ensures SizePass(s, Total(s), limits, removal) == NewestWithin(s, limits)
  {
    if Total(s) <= limits.maxBytes {
      SmallAreKept(s, Total(s), limits, removal);
    } else if s != [] {
      assert Total(s[1..]) == SatSub(Total(s), s[0].size);
      SizePassTrims(s[1..], limits, removal);
    }
  }

  lemma {:induction false} PassesTrim(s: seq<LogEntry>, limits: Limits, removal: Removal)
    requires AllSucceed(removal) && Total(s) < U64_LIMIT && OldestFirst(s)
    ensures var young := AgePass(s, limits, removal);
      SizePass(young, SatTotal(young, 0), limits, removal) == NewestWithin(s, limits)
  {
    if s != [] && Age(s[0], limits) > limits.maxAge {
      PassesTrim(s[1..], limits, removal);
      assert s[0] in s;
    } else {
      forall e | e in s ensures Age(e, limits) <= limits.maxAge {
        var k :| 0 <= k < |s| && s[k] == e;
        assert k > 0 ==> Before(s[0], s[k]);
      }
      YoungAreKept(s, limits, removal);
      SatTotalIsTotal(s, 0);
      SizePassTrims(s, limits, removal);
    }
  }

  lemma {:induction false} NewestWithinIsWithin(s: seq<LogEntry>, limits: Limits)
    ensures Within(NewestWithin(s, limits), limits)
  {
    if s != [] && !Within(s, limits) {
      NewestWithinIsWithin(s[1..], limits);
    }
  }

  lemma SurvivorsWhenRemovalsSucceed(entries: seq<LogEntry>, limits: Limits, removal: Removal)
    requires AllSucceed(removal) && Total(entries) < U64_LIMIT
    ensures Survivors(entries, limits, removal) == NewestWithin(SortEntries(entries), limits)
  {
    SortSorts(entries);
    SortTotal(entries);
    PassesTrim(SortEntries(entries), limits, removal);
  }

  /** When removals succeed, what survives is the longest newest run of the sorted
      entries that satisfies both the age and the size limit. */
  lemma SurvivorsAreNewestWithin(entries: seq<LogEntry>, limits: Limits, removal: Removal)
    requires AllSucceed(removal) && Total(entries) < U64_LIMIT
    ensures exists k ::
      var sorted := SortEntries(entries);
      0 <= k <= |sorted| && Survivors(entries, limits, removal) == sorted[k..] && Within(sorted[k..], limits) &&
      forall j :: 0 <= j < k ==> !Within(sorted[j..], limits)
  {
    SurvivorsWhenRemovalsSucceed(entries, limits, removal);
    NewestWithinIsLongest(SortEntries(entries), limits);
  }

  lemma {:induction false} TotalInsert(s: seq<LogEntry>, k: nat, e: LogEntry)
    requires k <= |s|
    ensures Total(InsertAt(s, k, e)) == Total(s) + e.size
    decreases k
  {
    if k > 0 {
      TotalInsert(s[1..], k - 1, e);
      assert InsertAt(s, k, e)[1..] == InsertAt(s[1..], k - 1, e);
    } else {
      assert InsertAt(s, 0, e)[1..] == s;
    }
  }

  lemma Extract(b: seq<LogEntry>, x: LogEntry) returns (rest: seq<LogEntry>, k: nat)
    requires x in b
    ensures k <= |rest| && b == InsertAt(rest, k, x)
  {
    k :| 0 <= k < |b| && b[k] == x;
    rest := b[..k] + b[k + 1..];
  }

  lemma CancelOne(m: multiset<LogEntry>, n: multiset<LogEntry>, x: LogEntry)
    requires m + multiset{x} == n + multiset{x}
    ensures m == n
  {
    assert m == m + multiset{x} - multiset{x};
    assert n == n + multiset{x} - multiset{x};
  }

  /** The total does not depend on the order in which the directory lists its files. */
  lemma {:induction false} TotalOfListing(a: seq<LogEntry>, b: seq<LogEntry>)
    requires multiset(a) == multiset(b)
    ensures Total(a) == Total(b)
  {
    if a == [] {
      assert |multiset(b)| == 0;
    } else {
      assert a[0] in multiset(a);
      var rest, k := Extract(b, a[0]);
      assert a == [a[0]] + a[1..];
      CancelOne(multiset(a[1..]), multiset(rest), a[0]);
      TotalOfListing(a[1..], rest);
      TotalInsert(rest, k, a[0]);
    }
  }

  lemma WithinLosesNothing(s: seq<LogEntry>, limits: Limits, removal: Removal)
    requires Within(s, limits)
    ensures var young := AgePass(s, limits, removal);
      SizePass(young, SatTotal(young, 0), limits, removal) == s
  {
    YoungAreKept(s, limits, removal);
    SatTotalIsTotal(s, 0);
    SmallAreKept(s, SatTotal(s, 0), limits, removal);
  }

  lemma WithinInAnyOrder(s: seq<LogEntry>, t: seq<LogEntry>, limits: Limits)
    requires Within(s, limits) && multiset(t) == multiset(s)
    ensures Within(t, limits)
  {
    TotalOfListing(t, s);
    forall e | e in t ensures e in s {
      assert e in multiset(t);
    }
  }

  /** A second rotation at the same instant removes nothing, in whatever order the
      directory lists the survivors and whether or not removals would succeed. */
  lemma SecondPassRemovesNothing(entries: seq<LogEntry>, limits: Limits, removal: Removal,
                                 again: seq<LogEntry>, later: Removal)
    requires AllSucceed(removal) && Total(entries) < U64_LIMIT
    requires multiset(again) == multiset(Survivors(entries, limits, removal))
    ensures Survivors(again, limits, later) == SortEntries(again)
  {
    SurvivorsWhenRemovalsSucceed(entries, limits, removal);
    NewestWithinIsWithin(SortEntries(entries), limits);
    SortSorts(again);
    WithinInAnyOrder(Survivors(entries, limits, removal), SortEntries(again), limits);
    WithinLosesNothing(SortEntries(again), limits, later);
  }

  /** No two different entries share a path, as in a directory. */
  ghost predicate PathsIdentify(entries: seq<LogEntry>)
  {
    forall e, f :: e in entries && f in entries && e.path == f.path ==> e == f
  }

  lemma FrontsAgree(s: seq<LogEntry>, t: seq<LogEntry>)
    requires OldestFirst(s) && OldestFirst(t) && multiset(s) == multiset(t) && PathsIdentify(s) && s != []
    ensures t != [] && s[0] == t[0]
  {
    assert s[0] in multiset(t) && |multiset(s)| == |multiset(t)|;
    assert t[0] in multiset(s);
    var i :| 0 <= i < |s| && s[i] == t[0];
    var k :| 0 <= k < |t| && t[k] == s[0];
    BeforeIsTotal(s[0], t[0]);
    assert i > 0 ==> Before(s[0], s[i]);
    assert k > 0 ==> Before(t[0], t[k]);
  }

  lemma {:induction false} OneSortedOrder(s: seq<LogEntry>, t: seq<LogEntry>)
    requires OldestFirst(s) && OldestFirst(t) && multiset(s) == multiset(t) && PathsIdentify(s)
    ensures s == t
  {
    if s == [] {
      assert |multiset(t)| == 0;
    } else {
      FrontsAgree(s, t);
      assert s == [s[0]] + s[1..] && t == [t[0]] + t[1..];
      assert multiset(s) == multiset(s[1..]) + multiset{s[0]} && multiset(t) == multiset(t[1..]) + multiset{s[0]};
      CancelOne(multiset(s[1..]), multiset(t[1..]), s[0]);
      OneSortedOrder(s[1..], t[1..]);
    }
  }

  /** Which files survive, and in which order they are tried, does not depend on the
      order in which the directory lists them. */
  lemma ListingOrderIsIrrelevant(entries: seq<LogEntry>, listing: seq<LogEntry>, limits: Limits, removal: Removal)
    requires multiset(entries) == multiset(listing) && PathsIdentify(entries)
    ensures SortEntries(entries) == SortEntries(listing)
    ensures Survivors(entries, limits, removal) == Survivors(listing, limits, removal)
  {
    SortSorts(entries);
    SortSorts(listing);
    var s := SortEntries(entries);
    forall e | e in s ensures e in entries {
      assert e in multiset(s);
    }
    OneSortedOrder(s, SortEntries(listing));
  }

  // ------------------------------------------------------------ when removals fail

  /** Whether the age pass removes an entry. */
  predicate AgedOut(e: LogEntry, limits: Limits, removal: Removal)
  {
    limits.now - e.createdAt > limits.maxAge && removal(AgeLimit, e)
  }

  /** The entries that may stay, in order. */
  function Staying(s: seq<LogEntry>, goes: LogEntry -> bool): seq<LogEntry>
  {
    if s == [] then [] else (if goes(s[0]) then [] else [s[0]]) + Staying(s[1..], goes)
  }

  /** The age pass removes exactly the entries that are too old and can be removed. */
  lemma {:induction false} AgePassIsExact(s: seq<LogEntry>, limits: Limits, removal: Removal)
    ensures AgePass(s, limits, removal) == Staying(s, e => AgedOut(e, limits, removal))
  {
    if s != [] {
      AgePassIsExact(s[1..], limits, removal);
    }
  }

  /** What is left when the size pass has tried the first k entries. */
  function Tried(s: seq<LogEntry>, k: nat, removal: Removal): seq<LogEntry>
    requires k <= |s|
  {
    Staying(s[..k], e => removal(SizeLimit, e)) + s[k..]
  }

  /** The pass over s, with `kept` bytes left from earlier entries, ends after k tries:
      before each of them the files left exceed the limit, and afterwards they do not,
      unless all were tried. */
  ghost predicate EnoughTries(s: seq<LogEntry>, kept: nat, k: nat, limits: Limits, removal: Removal)
  {
    k <= |s| && kept + Total(s) < U64_LIMIT &&
    SizePass(s, kept + Total(s), limits, removal) == Tried(s, k, removal) &&
    (forall i :: 0 <= i < k ==> kept + Total(Tried(s, i, removal)) > limits.maxBytes) &&
    (kept + Total(Tried(s, k, removal)) <= limits.maxBytes || k == |s|)
  }

  lemma TriedLater(s: seq<LogEntry>, i: nat, removal: Removal)
    requires 0 < i <= |s|
    ensures Tried(s, i, removal) == (if removal(SizeLimit, s[0]) then [] else [s[0]]) + Tried(s[1..], i - 1, removal)
    ensures Total(Tried(s, i, removal)) ==
      (if removal(SizeLimit, s[0]) then 0 else s[0].size) + Total(Tried(s[1..], i - 1, removal))
  {
    assert s[..i][1..] == s[1..][..i - 1] && s[i..] == s[1..][i - 1..] && s[..i][0] == s[0];
    var later := Tried(s[1..], i - 1, removal);
    if removal(SizeLimit, s[0]) {
      assert Tried(s, i, removal) == later;
    } else {
      assert Tried(s, i, removal) == [s[0]] + later;
      assert Tried(s, i, removal)[1..] == later;
    }
  }

  lemma SizePassGoesOn(s: seq<LogEntry>, kept: nat, limits: Limits, removal: Removal)
    requires s != [] && limits.maxBytes < kept + Total(s) < U64_LIMIT
    ensures var removed := removal(SizeLimit, s[0]);
      var kept' := kept + if removed then 0 else s[0].size;
      kept' + Total(s[1..]) < U64_LIMIT &&
      SizePass(s, kept + Total(s), limits, removal) ==
        (if removed then [] else [s[0]]) + SizePass(s[1..], kept' + Total(s[1..]), limits, removal)
  {
  }

  lemma MoreTries(s: seq<LogEntry>, kept: nat, k: nat, limits: Limits, removal: Removal)
    requires s != [] && kept + Total(s) > limits.maxBytes && k < |s|
    requires var kept' := kept + if removal(SizeLimit, s[0]) then 0 else s[0].size;
      forall i :: 0 <= i < k ==> kept' + Total(Tried(s[1..], i, removal)) > limits.maxBytes
    ensures forall i :: 0 <= i < k + 1 ==> kept + Total(Tried(s, i, removal)) > limits.maxBytes
  {
    forall i | 0 <= i < k + 1 ensures kept + Total(Tried(s, i, removal)) > limits.maxBytes {
      if i == 0 {
        assert Tried(s, 0, removal) == s;
      } else {
        TriedLater(s, i, removal);
      }
    }
  }

  lemma NoTries(s: seq<LogEntry>, kept: nat, limits: Limits, removal: Removal)
    requires kept + Total(s) < U64_LIMIT && (s == [] || kept + Total(s) <= limits.maxBytes)
    ensures EnoughTries(s, kept, 0, limits, removal)
  {
    assert Tried(s, 0, removal) == s by {
      assert s[..0] == [] && s[0..] == s;
    }
    hide Tried;
    if s != [] {
      SmallAreKept(s, kept + Total(s), limits, removal);
      hide SizePass;
    }
  }

  lemma OneMoreTry(s: seq<LogEntry>, kept: nat, k: nat, limits: Limits, removal: Removal)
    requires s != [] && limits.maxBytes < kept + Total(s) < U64_LIMIT
    requires EnoughTries(s[1..], kept + if removal(SizeLimit, s[0]) then 0 else s[0].size, k, limits, removal)
    ensures EnoughTries(s, kept, k + 1, limits, removal)
  {
    hide Tried, SizePass, Total;
    SizePassGoesOn(s, kept, limits, removal);
    MoreTries(s, kept, k, limits, removal);
    TriedLater(s, k + 1, removal);
  }

  /** The size pass tries the oldest entries, just as many as it takes. This holds for
      every pattern of removal failures. */
  lemma {:induction false} SizePassIsExact(s: seq<LogEntry>, kept: nat, limits: Limits, removal: Removal)
    returns (k: nat)
    requires kept + Total(s) < U64_LIMIT
    ensures EnoughTries(s, kept, k, limits, removal)
  {
    k := 0;
    if s == [] || kept + Total(s) <= limits.maxBytes {
      NoTries(s, kept, limits, removal);
    } else {
      SizePassGoesOn(s, kept, limits, removal);
      k := SizePassIsExact(s[1..], kept + if removal(SizeLimit, s[0]) then 0 else s[0].size, limits, removal);
      OneMoreTry(s, kept, k, limits, removal);
      k := k + 1;
      hide EnoughTries;
    }
  }

  /** Both passes together: what survives a rotation, for every pattern of failures. */
  lemma SurvivorsAreExact(entries: seq<LogEntry>, limits: Limits, removal: Removal) returns (k: nat)
    requires Total(entries) < U64_LIMIT
    ensures var young := Staying(SortEntries(entries), e => AgedOut(e, limits, removal));
      EnoughTries(young, 0, k, limits, removal) && Survivors(entries, limits, removal) == Tried(young, k, removal)
  {
    SortTotal(entries);
    PassesShrink(SortEntries(entries), 0, limits, removal);
    AgePassIsExact(SortEntries(entries), limits, removal);
    var young := AgePass(SortEntries(entries), limits, removal);
    SatTotalIsTotal(young, 0);
    k := SizePassIsExact(young, 0, limits, removal);
  }
}
