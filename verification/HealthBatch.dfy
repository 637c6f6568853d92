/** What the health-check backfill must write, as batch definitions over one key's checks:
    run-length encoded status segments, grouped rollups and window statistics. */
module HealthBatch {
  import opened Sequences
  import opened Grouping
  import opened HealthStatistics
  import Text

  const ROLLUP_RESOLUTION := 300

  datatype Mode = S3 | Http

  datatype Key = Key(endpoint: int, mode: Mode)

  /** A row of `endpoint_health_checks`. */
  datatype Check = Check(
    id: int, endpoint: int, mode: Option<string>, checkedAt: Timestamp, status: Option<string>,
    latency: Option<int>, http: Option<int>, error: Option<string>)

  /** A row after normalisation. */
  datatype Sample = Sample(
    key: Key, at: Timestamp, status: string, latency: Option<int>, http: Option<int>, error: Option<string>)

  function CoerceMode(raw: Option<string>): Mode {
    if raw.Some? && Text.Lower(Text.Strip(raw.value)) == "s3" then S3 else Http
  }

  function NormalStatus(raw: Option<string>): (s: string)
    ensures s != ""
  {
    var text := if raw.Some? && raw.value != "" then raw.value else "unknown";
    var s := Text.Lower(Text.Strip(text));
    if s == "" then "unknown" else s
  }

  function Normalize(c: Check): Sample {
    Sample(Key(c.endpoint, CoerceMode(c.mode)), c.checkedAt, NormalStatus(c.status), c.latency, c.http, c.error)
  }

  function KeyOf(x: Sample): Key { x.key }
  function StatusOf(x: Sample): string { x.status }
  function BucketOf(x: Sample): Timestamp { BucketStart(x.at, ROLLUP_RESOLUTION) }

  /** One key's part of the log. */
  function SubLog(k: Key, log: seq<Sample>): seq<Sample> {
    Select(KeyOf, k, log)
  }

  predicate Timed(x: Sample) {
    x.latency.Some? && x.status != "down"
  }

  function Latencies(s: seq<Sample>): seq<int> {
    if s == [] then []
    else if Timed(Last(s)) then Latencies(Front(s)) + [Last(s).latency.value]
    else Latencies(Front(s))
  }

  lemma {:induction false} LatenciesSnoc(s: seq<Sample>, x: Sample)
    ensures Latencies(s + [x]) == if Timed(x) then Latencies(s) + [x.latency.value] else Latencies(s)
  {
    assert Front(s + [x]) == s;
  }

  lemma {:induction false} LatenciesConcat(s: seq<Sample>, t: seq<Sample>)
    ensures Latencies(s + t) == Latencies(s) + Latencies(t)
  {
    if t == [] {
      assert s + t == s;
    } else {
      LatenciesConcat(s, Front(t));
      FrontLast(t);
      assert s + t == (s + Front(t)) + [Last(t)];
      LatenciesSnoc(s + Front(t), Last(t));
    }
  }

  function MinOpt(s: seq<int>): Option<int> { if s == [] then None else Some(Min(s)) }
  function MaxOpt(s: seq<int>): Option<int> { if s == [] then None else Some(Max(s)) }
  function AverageOpt(s: seq<int>): Option<int> { if s == [] then None else Some(Average(s)) }

  function Count(status: string, s: seq<Sample>): (n: nat)
    ensures n <= |s|
  {
    if s == [] then 0 else Count(status, Front(s)) + (if Last(s).status == status then 1 else 0)
  }

  lemma {:induction false} CountSnoc(status: string, s: seq<Sample>, x: Sample)
    ensures Count(status, s + [x]) == Count(status, s) + (if x.status == status then 1 else 0)
  {
    assert Front(s + [x]) == s;
  }

  lemma {:induction false} CountTwo(a: string, b: string, s: seq<Sample>)
    requires a != b
    ensures Count(a, s) + Count(b, s) <= |s|
  {
    if s != [] {
      CountTwo(a, b, Front(s));
    }
  }

  lemma {:induction false} CountThree(s: seq<Sample>)
    ensures Count("up", s) + Count("degraded", s) + Count("down", s) <= |s|
  {
    if s != [] {
      CountThree(Front(s));
    }
  }

  // ----- status segments: run-length encoding -----

  datatype SegmentRow = SegmentRow(
    key: Key, status: string, startedAt: Timestamp, endedAt: Option<Timestamp>, checks: nat,
    minLatency: Option<int>, avgLatency: Option<int>, maxLatency: Option<int>, samples: nat)

  function SegmentKey(r: SegmentRow): Key { r.key }

  /** The segment of a run: it ends where the next run starts. */
  function SegmentOf(k: Key, first: Sample, run: seq<Sample>, next: Option<Sample>): SegmentRow {
    var l := Latencies(run);
    SegmentRow(k, first.status, first.at, if next.Some? then Some(next.value.at) else None, |run|,
               MinOpt(l), AverageOpt(l), MaxOpt(l), |l|)
  }

  /** All segments of a key: one per run of equal status, the last one open. */
  function Segments(k: Key, s: seq<Sample>): seq<SegmentRow> {
    Emitted(SegmentOf, k, Runs(StatusOf, s))
  }

  // ----- rollups: group by bucket -----

  datatype RollupRow = RollupRow(
    key: Key, bucketStart: Timestamp, up: nat, degraded: nat, down: nat, unknown: nat,
    minLatency: Option<int>, avgLatency: Option<int>, maxLatency: Option<int>, p95: Option<int>, samples: nat)

  function RollupKey(r: RollupRow): Key { r.key }

  function RollupOf(k: Key, first: Sample, group: seq<Sample>, next: Option<Sample>): RollupRow {
    var l := Latencies(group);
    CountThree(group);
    var up, degraded, down := Count("up", group), Count("degraded", group), Count("down", group);
    RollupRow(k, BucketOf(first), up, degraded, down, |group| - up - degraded - down,
              MinOpt(l), AverageOpt(l), MaxOpt(l), Percentile(l, 95, 100), |l|)
  }

  /** All rollups of a key: one per run of rows in the same bucket. */
  function Rollups(k: Key, s: seq<Sample>): seq<RollupRow> {
    Emitted(RollupOf, k, Runs(BucketOf, s))
  }

  // ----- latest row: statistics over the last 24 hours -----

  datatype LatestRow = LatestRow(
    key: Key, checkedAt: Timestamp, status: string, latency: Option<int>, http: Option<int>, error: Option<string>,
    minLatency: Option<int>, avgLatency: Option<int>, maxLatency: Option<int>, samples: nat,
    availability: Option<int>)

  /** The rows at or after `cutoff`, in order. */
  function Since(cutoff: Timestamp, s: seq<Sample>): seq<Sample> {
    if s == [] then []
    else if Last(s).at >= cutoff then Since(cutoff, Front(s)) + [Last(s)]
    else Since(cutoff, Front(s))
  }

  function LatestKey(r: LatestRow): Key { r.key }

  /** The 24-hour window ending at the last row. */
  function Window(s: seq<Sample>): seq<Sample>
    requires s != []
  {
    Since(Last(s).at - MICROS_PER_DAY, s)
  }

  function LatestOver(x: Sample, window: seq<Sample>): LatestRow {
    var l := Latencies(window);
    var known := |window| - Count("unknown", window);
    CountTwo("up", "unknown", window);
    LatestRow(x.key, x.at, x.status, x.latency, x.http, x.error,
              MinOpt(l), AverageOpt(l), MaxOpt(l), |l|, Availability(Count("up", window), known))
  }

  function Latest(s: seq<Sample>): LatestRow
    requires s != []
  {
    LatestOver(Last(s), Window(s))
  }

  predicate TimeOrdered(s: seq<Sample>) {
    forall i, j :: 0 <= i < j < |s| ==> s[i].at <= s[j].at
  }

  // ----- the deque -----

  /** Pop stale rows from the left end only, as the backfill's deque does. */
  function DropStale(cutoff: Timestamp, s: seq<Sample>): seq<Sample> {
    if s != [] && s[0].at < cutoff then DropStale(cutoff, s[1..]) else s
  }

  /** The deque's content after the rows `s`. */
  function Deque(s: seq<Sample>): seq<Sample> {
    if s == [] then []
    else DropStale(Last(s).at - MICROS_PER_DAY, Deque(Front(s)) + [Last(s)])
  }

  lemma {:induction false} SinceConcat(cutoff: Timestamp, s: seq<Sample>, t: seq<Sample>)
    ensures Since(cutoff, s + t) == Since(cutoff, s) + Since(cutoff, t)
  {
    if t == [] {
      assert s + t == s;
    } else {
      SinceConcat(cutoff, s, Front(t));
      assert s + t == (s + Front(t)) + [Last(t)];
      assert Front((s + Front(t)) + [Last(t)]) == s + Front(t);
    }
  }

  lemma {:induction false} SinceNarrows(c: Timestamp, d: Timestamp, s: seq<Sample>)
    requires c <= d
    ensures Since(d, Since(c, s)) == Since(d, s)
  {
    if s != [] {
      SinceNarrows(c, d, Front(s));
      if Last(s).at >= c {
        SinceConcat(d, Since(c, Front(s)), [Last(s)]);
        SinceConcat(d, Front(s), [Last(s)]);
        FrontLast(s);
      }
    }
  }

  lemma {:induction false} SinceKeepsAll(c: Timestamp, s: seq<Sample>)
    requires forall i :: 0 <= i < |s| ==> s[i].at >= c
    ensures Since(c, s) == s
  {
    if s != [] {
      FrontLast(s);
      SinceKeepsAll(c, Front(s));
      assert s[|s| - 1].at >= c;
    }
  }

  /** On time-ordered rows, popping from the left is filtering. */
  lemma {:induction false} DropStaleFilters(c: Timestamp, s: seq<Sample>)
    requires TimeOrdered(s)
    ensures DropStale(c, s) == Since(c, s)
  {
    if s != [] && s[0].at < c {
      DropStaleFilters(c, s[1..]);
      SinceConcat(c, [s[0]], s[1..]);
      assert [s[0]] + s[1..] == s;
    } else {
      SinceKeepsAll(c, s);
    }
  }

  lemma OrderedSnoc(s: seq<Sample>, x: Sample)
    requires TimeOrdered(s) && forall y :: y in s ==> y.at <= x.at
    ensures TimeOrdered(s + [x])
  {
    assert forall i :: 0 <= i < |s| ==> s[i] in s;
  }

  lemma {:induction false} SinceOrdered(c: Timestamp, s: seq<Sample>)
    requires TimeOrdered(s)
    ensures TimeOrdered(Since(c, s))
    ensures forall x :: x in Since(c, s) ==> x in s
  {
    if s != [] {
      SinceOrdered(c, Front(s));
      FrontLast(s);
      assert forall y :: y in Front(s) ==> y.at <= s[|s| - 1].at;
      OrderedSnoc(Since(c, Front(s)), Last(s));
    }
  }

  lemma {:induction false} DequeSnoc(s: seq<Sample>, x: Sample)
    ensures Deque(s + [x]) == DropStale(x.at - MICROS_PER_DAY, Deque(s) + [x])
  {
    assert Front(s + [x]) == s;
  }

  lemma OrderedFront(s: seq<Sample>, x: Sample)
    requires TimeOrdered(s + [x])
    ensures TimeOrdered(s) && forall y :: y in s ==> y.at <= x.at
  {
    var t := s + [x];
    assert forall i :: 0 <= i < |s| ==> t[i] == s[i] && t[i].at <= t[|s|].at;
  }

  /** Popping from a window that ended at an earlier row leaves the window that ends at `x`. */
  lemma WindowSlides(s: seq<Sample>, c: Timestamp, x: Sample)
    requires TimeOrdered(s + [x]) && c <= x.at - MICROS_PER_DAY
    ensures DropStale(x.at - MICROS_PER_DAY, Since(c, s) + [x]) == Since(x.at - MICROS_PER_DAY, s + [x])
  {
    var d := x.at - MICROS_PER_DAY;
    assert TimeOrdered(Since(c, s) + [x]) by {
      OrderedFront(s, x);
      SinceOrdered(c, s);
      OrderedSnoc(Since(c, s), x);
    }
    DropStaleFilters(d, Since(c, s) + [x]);
    SinceConcat(d, Since(c, s), [x]);
    SinceNarrows(c, d, s);
    SinceConcat(d, s, [x]);
  }

  lemma {:induction false} DequeSlides(p: seq<Sample>, x: Sample)
    requires TimeOrdered(p + [x]) && (p != [] ==> Deque(p) == Window(p))
    ensures Deque(p + [x]) == Since(x.at - MICROS_PER_DAY, p + [x])
  {
    DequeSnoc(p, x);
    OrderedFront(p, x);
    var c := if p == [] then x.at - MICROS_PER_DAY else Last(p).at - MICROS_PER_DAY;
    assert p != [] ==> Last(p) in p;
    WindowSlides(p, c, x);
  }

  /** Sliding window: after every row of a time-ordered log the deque holds exactly the rows of the last 24 hours. */
  lemma {:induction false} DequeIsWindow(s: seq<Sample>)
    requires s != [] && TimeOrdered(s)
    ensures Deque(s) == Window(s)
  {
    FrontLast(s);
    if |s| > 1 {
      OrderedFront(Front(s), Last(s));
      DequeIsWindow(Front(s));
    }
    DequeSlides(Front(s), Last(s));
  }
}
