/** The figures of the rebuilt rows, read off the checks themselves: counts by status, the ascending list of latencies,
    the five-minute grid and the window of 24 hours. */
module HealthFigures {
  import opened Sequences
  import opened Grouping
  import opened HealthStatistics
  import opened HealthBatch
  import opened HealthProperties
  import Text

  // ----- counting -----

  /** Which checks have this status. */
  function WithStatus(status: string, g: seq<Sample>): set<nat> { set i: nat | i < |g| && g[i].status == status }

  /** Which checks contribute this latency: those that measured it and are not down. */
  function WithLatency(x: int, g: seq<Sample>): set<nat> {
    set i: nat | i < |g| && g[i].status != "down" && g[i].latency == Some(x)
  }

  lemma {:induction false} CountIsSize(status: string, g: seq<Sample>)
    ensures Count(status, g) == |WithStatus(status, g)|
  {
    if g != [] {
      CountIsSize(status, Front(g));
      var n := |g| - 1;
      assert WithStatus(status, g) == WithStatus(status, Front(g)) + (if g[n].status == status then {n} else {});
    }
  }

  /** The list has every latency as often as a check contributes it. */
  ghost predicate AreLatencies(l: seq<int>, g: seq<Sample>) {
    forall x :: multiset(l)[x] == |WithLatency(x, g)|
  }

  lemma WithLatencySnoc(x: int, g: seq<Sample>)
    requires g != []
    ensures |WithLatency(x, g)| == |WithLatency(x, Front(g))| +
            if Last(g).status != "down" && Last(g).latency == Some(x) then 1 else 0
  {
    var n := |g| - 1;
    assert WithLatency(x, g) == WithLatency(x, Front(g)) +
           (if g[n].status != "down" && g[n].latency == Some(x) then {n} else {});
  }

  lemma {:induction false} LatenciesAre(g: seq<Sample>)
    ensures AreLatencies(Latencies(g), g)
  {
    if g != [] {
      LatenciesAre(Front(g));
      forall x ensures multiset(Latencies(g))[x] == |WithLatency(x, g)| {
        WithLatencySnoc(x, g);
      }
    }
  }

  lemma {:induction false} SumSnoc(s: seq<int>, x: int)
    ensures Sum(s + [x]) == Sum(s) + x
  {
    assert Front(s + [x]) == s;
  }

  lemma {:induction false} SumInsert(x: int, s: seq<int>)
    requires IsSorted(s)
    ensures Sum(Insert(x, s)) == Sum(s) + x
  {
    if s == [] || Last(s) <= x {
      SumSnoc(s, x);
    } else {
      SumInsert(x, Front(s));
      SumSnoc(Insert(x, Front(s)), Last(s));
    }
  }

  lemma {:induction false} SumSorted(s: seq<int>)
    ensures Sum(Sorted(s)) == Sum(s)
  {
    if s != [] {
      SumSorted(Front(s));
      SumInsert(Last(s), Sorted(Front(s)));
    }
  }

  // ----- what a row says about its checks -----

  /** Minimum, rounded average, maximum and number of the latencies of `g`, whose ascending list is `l`. */
  ghost predicate Figures(g: seq<Sample>, l: seq<int>, min: Option<int>, avg: Option<int>, max: Option<int>,
      samples: nat)
  {
    && IsSorted(l) && AreLatencies(l, g) && samples == |l|
    && (l == [] ==> min == None == avg == max)
    && (l != [] ==> min == Some(l[0]) && max == Some(l[|l| - 1]) && avg.Some? && IsRounded(avg.value, Sum(l), |l|))
  }

  /** The 95th percentile of an ascending list: none, the only value, or the rounded height of the line through the
      values at 95/100 of the way, on whichever segment that lies. */
  ghost predicate IsP95(l: seq<int>, p95: Option<int>) {
    && (p95 == None <==> l == []) && (|l| == 1 ==> p95 == Some(l[0]))
    && forall i: nat :: OnSegment(|l|, 95, 100, i) ==>
         p95.Some? && IsRounded(p95.value, LineHeight(l, 95, 100, i), 100)
  }

  lemma {:induction false} SortedEnds(s: seq<int>)
    requires s != []
    ensures Sorted(s) != [] && Sorted(s)[0] == Min(s) && Sorted(s)[|s| - 1] == Max(s)
  {
    SortedMembers(s);
    EndsAreExtremes(s, Sorted(s), Min(s), Max(s));
  }

  lemma EndsAreExtremes(s: seq<int>, l: seq<int>, min: int, max: int)
    requires |l| == |s| > 0 && (forall x :: x in s <==> x in l) && IsSorted(l)
    requires min in s && max in s && forall x :: x in s ==> min <= x <= max
    ensures l[0] == min && l[|s| - 1] == max
  {
    assert l[0] in l && l[|s| - 1] in l;
    var i :| 0 <= i < |l| && l[i] == min;
    var j :| 0 <= j < |l| && l[j] == max;
  }

  lemma {:induction false} SortedFigures(g: seq<Sample>)
    ensures var s := Latencies(g); Figures(g, Sorted(s), MinOpt(s), AverageOpt(s), MaxOpt(s), |s|)
  {
    var s := Latencies(g);
    LatenciesAre(g);
    SumSorted(s);
    if s != [] {
      SortedEnds(s);
    }
  }

  lemma {:induction false} SortedP95(s: seq<int>)
    ensures IsP95(Sorted(s), Percentile(s, 95, 100))
  {
    var l := Sorted(s);
    forall i: nat | OnSegment(|l|, 95, 100, i)
      ensures Percentile(s, 95, 100).Some? && IsRounded(Percentile(s, 95, 100).value, LineHeight(l, 95, 100, i), 100)
    {
      PercentileIsInterpolation(s, l, 95, 100, i);
    }
    if |l| == 1 {
      PercentileAtRank(s, l, 95, 100, 0);
    }
  }

  /** Buckets start every five minutes, and a check belongs to the one that it falls into. */
  lemma FiveMinutes(x: Sample)
    ensures BucketOf(x) % 300_000_000 == 0 && BucketOf(x) <= x.at < BucketOf(x) + 300_000_000
  {
    BucketStartNear(x.at, ROLLUP_RESOLUTION);
    BucketStartForm(x.at, ROLLUP_RESOLUTION);
    var minute := FloorTo(Minute(x.at), 5);
    assert StepMinutes(ROLLUP_RESOLUTION) == 5;
    assert Hour(x.at) * MICROS_PER_HOUR + minute * MICROS_PER_MINUTE ==
           (Hour(x.at) * 12 + Minute(x.at) / 5) * 300_000_000;
  }

  /** A rollup row that summarises the checks `g`. */
  ghost predicate RollupMeans(r: RollupRow, g: seq<Sample>) {
    && r.up == |WithStatus("up", g)| && r.degraded == |WithStatus("degraded", g)|
    && r.down == |WithStatus("down", g)| && r.up + r.degraded + r.down + r.unknown == |g|
    && exists l :: Figures(g, l, r.minLatency, r.avgLatency, r.maxLatency, r.samples) && IsP95(l, r.p95)
  }

  lemma RollupOfMeans(k: Key, first: Sample, g: seq<Sample>, next: Option<Sample>)
    ensures RollupMeans(RollupOf(k, first, g, next), g)
  {
    var r := RollupOf(k, first, g, next);
    CountIsSize("up", g);
    CountIsSize("degraded", g);
    CountIsSize("down", g);
    SortedFigures(g);
    SortedP95(Latencies(g));
    assert Figures(g, Sorted(Latencies(g)), r.minLatency, r.avgLatency, r.maxLatency, r.samples);
  }

  /** On time-ordered checks of a key every rollup row stands for the checks of its five minutes, all of them, and says
      of them what it should. */
  lemma {:induction false} RollupFigures(k: Key, s: seq<Sample>, i: nat)
    requires TimeOrdered(s) && i < |Rollups(k, s)|
    ensures var r := Rollups(k, s)[i];
            var g := Select(BucketOf, r.bucketStart, s);
            && r.key == k && r.bucketStart % 300_000_000 == 0
            && (forall x :: x in g <==> x in s && r.bucketStart <= x.at < r.bucketStart + 300_000_000)
            && RollupMeans(r, g)
  {
    var r := Rollups(k, s)[i];
    var g := Select(BucketOf, r.bucketStart, s);
    RollupsAreGroups(k, s, i);
    RollupOfMeans(k, g[0], g, None);
    FiveMinutes(g[0]);
    forall x ensures x in g <==> x in s && r.bucketStart <= x.at < r.bucketStart + 300_000_000 {
      FiveMinutes(x);
      if x in s && BucketOf(x) == r.bucketStart {
        SelectComplete(BucketOf, r.bucketStart, s, x);
      }
      if x in g {
        var j :| 0 <= j < |g| && g[j] == x;
      }
      SameBucket(BucketOf(x), r.bucketStart, x.at);
    }
  }

  lemma SameBucket(a: int, b: int, t: int)
    requires a % 300_000_000 == 0 && b % 300_000_000 == 0 && a <= t < a + 300_000_000
    ensures a == b <==> b <= t < b + 300_000_000
  {}

  /** A segment row counts its run of checks and carries their status and latencies. */
  lemma {:induction false} SegmentFigures(k: Key, s: seq<Sample>, i: nat)
    requires i < |Segments(k, s)|
    ensures var r, run := Segments(k, s)[i], Runs(StatusOf, s)[i];
            && r.key == k && r.checks == |run| && |WithStatus(r.status, run)| == |run|
            && exists l :: Figures(run, l, r.minLatency, r.avgLatency, r.maxLatency, r.samples)
  {
    var runs := Runs(StatusOf, s);
    var r, run := Segments(k, s)[i], runs[i];
    RunsDecompose(StatusOf, s);
    EmittedAt(SegmentOf, k, runs, i);
    SortedFigures(run);
    assert Figures(run, Sorted(Latencies(run)), r.minLatency, r.avgLatency, r.maxLatency, r.samples);
    assert Uniform(StatusOf, run);
    CountUniform(r.status, run);
    CountIsSize(r.status, run);
  }

  lemma {:induction false} CountUniform(status: string, g: seq<Sample>)
    requires forall j :: 0 <= j < |g| ==> g[j].status == status
    ensures Count(status, g) == |g|
  {
    if g != [] {
      CountUniform(status, Front(g));
    }
  }

  /** The checks of the last 24 hours. */
  lemma {:induction false} SinceMembers(cutoff: Timestamp, s: seq<Sample>)
    ensures forall x :: x in Since(cutoff, s) <==> x in s && x.at >= cutoff
  {
    if s != [] {
      SinceMembers(cutoff, Front(s));
      FrontLast(s);
    }
  }

  /** Availability in percent of the checks whose status is known. */
  ghost predicate IsAvailability(w: seq<Sample>, availability: Option<int>) {
    var known := |w| - |WithStatus("unknown", w)|;
    && (availability == None <==> known == 0)
    && (known > 0 ==> IsRounded(availability.value, 100 * |WithStatus("up", w)|, known))
  }

  /** The latest row repeats the last check and summarises the 24 hours before it. */
  lemma LatestFigures(s: seq<Sample>)
    requires s != []
    ensures var r, x, w := Latest(s), Last(s), Window(s);
            && r.key == x.key && r.checkedAt == x.at && r.status == x.status && r.latency == x.latency
            && r.http == x.http && r.error == x.error
            && (forall y :: y in w <==> y in s && y.at + 86_400_000_000 >= x.at)
            && IsAvailability(w, r.availability)
            && exists l :: Figures(w, l, r.minLatency, r.avgLatency, r.maxLatency, r.samples)
  {
    var r, x, w := Latest(s), Last(s), Window(s);
    SinceMembers(x.at - MICROS_PER_DAY, s);
    WindowAvailability(x, w);
    WindowFigures(x, w);
  }

  lemma WindowAvailability(x: Sample, w: seq<Sample>)
    ensures IsAvailability(w, LatestOver(x, w).availability)
  {
    CountIsSize("up", w);
    CountIsSize("unknown", w);
    CountTwo("up", "unknown", w);
  }

  lemma WindowFigures(x: Sample, w: seq<Sample>)
    ensures var r := LatestOver(x, w); exists l :: Figures(w, l, r.minLatency, r.avgLatency, r.maxLatency, r.samples)
  {
    var r := LatestOver(x, w);
    SortedFigures(w);
    assert Figures(w, Sorted(Latencies(w)), r.minLatency, r.avgLatency, r.maxLatency, r.samples);
  }

  // ----- from raw rows to checks -----

  /** What normalisation makes of a row: the endpoint, S3 or HTTP mode, the folded status or "unknown", and the measured
      values as they are. */
  lemma NormalizeMeans(c: Check)
    ensures var x := Normalize(c);
            && x.key.endpoint == c.endpoint && x.at == c.checkedAt && x.latency == c.latency && x.http == c.http
            && x.error == c.error
            && (x.key.mode == S3 <==> c.mode.Some? && Text.Lower(Text.Strip(c.mode.value)) == "s3")
            && (c.mode.Some? ==> Text.IsFolded(c.mode.value, Text.Lower(Text.Strip(c.mode.value))))
            && (if c.status.None? || Text.IsBlank(c.status.value) then x.status == "unknown"
                else Text.IsFolded(c.status.value, x.status))
  {
    if c.mode.Some? {
      Text.FoldIsFolded(c.mode.value);
    }
    if c.status.Some? {
      Text.FoldIsFolded(c.status.value);
      var _, _ := Text.StripCuts(c.status.value);
      assert Text.Strip("unknown") == "unknown" by { Text.StripOfTrimmed("unknown"); }
      UnknownFolds();
    } else {
      UnknownFolds();
    }
  }

  lemma UnknownFolds()
    ensures Text.Lower(Text.Strip("unknown")) == "unknown"
  {
    Text.StripOfTrimmed("unknown");
    Text.LowerOfLower("unknown");
  }
}
