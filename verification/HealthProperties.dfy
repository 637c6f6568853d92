/** What the rebuilt health tables mean: conservation across the three tables, the shape of the
    segments, one rollup per bucket, and when the SQL order guarantees it. */
module HealthProperties {
  import opened Sequences
  import opened Grouping
  import opened HealthStatistics
  import opened HealthBatch
  import opened HealthBackfill
  import Text

  // ----- segments -----

  /** Segments tile the key's history: neighbours differ in status and meet in time, only the last is open. */
  lemma SegmentsTile(k: Key, s: seq<Sample>, i: nat)
    requires i < |Segments(k, s)|
    ensures i > 0 ==> Segments(k, s)[i - 1].status != Segments(k, s)[i].status
    ensures i > 0 ==> Segments(k, s)[i - 1].endedAt == Some(Segments(k, s)[i].startedAt)
    ensures Segments(k, s)[i].endedAt == None <==> i == |Segments(k, s)| - 1
    ensures i == 0 ==> Segments(k, s)[i].startedAt == s[0].at
    ensures i == |Segments(k, s)| - 1 ==> Segments(k, s)[i].status == Last(s).status
  {
    var runs := Runs(StatusOf, s);
    RunsDecompose(StatusOf, s);
    EmittedAt(SegmentOf, k, runs, i);
    if i > 0 {
      EmittedAt(SegmentOf, k, runs, i - 1);
      assert StatusOf(runs[i - 1][0]) != StatusOf(runs[i][0]);
    } else {
      FirstOfFlatten(runs);
    }
    assert Uniform(StatusOf, Last(runs));
    assert StatusOf(Last(Last(runs))) == StatusOf(Last(runs)[0]);
  }

  lemma {:induction false} FirstOfFlatten<A>(runs: seq<seq<A>>)
    requires runs != [] && forall i :: 0 <= i < |runs| ==> runs[i] != []
    ensures Flatten(runs) != [] && Flatten(runs)[0] == runs[0][0]
  {
    if |runs| > 1 {
      FirstOfFlatten(Front(runs));
    }
  }

  // ----- conservation -----

  function RollupCount(r: RollupRow): nat { r.up + r.degraded + r.down + r.unknown }

  /** Rows emitted for consecutive runs: the first is for the first run, whatever follows. */
  ghost predicate RowsForRuns<R>(size: R -> nat, samples: R -> nat, rows: seq<R>, runs: seq<seq<Sample>>) {
    |rows| == |runs| &&
    forall i :: 0 <= i < |rows| ==> size(rows[i]) == |runs[i]| && samples(rows[i]) == |Latencies(runs[i])|
  }

  function Total<R>(f: R -> nat, rows: seq<R>): nat {
    if rows == [] then 0 else Total(f, Front(rows)) + f(Last(rows))
  }

  lemma {:induction false} TotalsAreConserved<R>(size: R -> nat, samples: R -> nat, rows: seq<R>,
      runs: seq<seq<Sample>>)
    requires RowsForRuns(size, samples, rows, runs)
    ensures Total(size, rows) == |Flatten(runs)|
    ensures Total(samples, rows) == |Latencies(Flatten(runs))|
  {
    if rows != [] {
      TotalsAreConserved(size, samples, Front(rows), Front(runs));
      LatenciesConcat(Flatten(Front(runs)), Last(runs));
    }
  }

  function SegmentChecks(r: SegmentRow): nat { r.checks }
  function SegmentSamples(r: SegmentRow): nat { r.samples }
  function RollupSamples(r: RollupRow): nat { r.samples }

  /** Conservation: segments and rollups of a key count the same checks and the same latency samples, namely its own. */
  lemma {:induction false} Conservation(k: Key, s: seq<Sample>)
    ensures Total(SegmentChecks, Segments(k, s)) == |s| == Total(RollupCount, Rollups(k, s))
    ensures Total(SegmentSamples, Segments(k, s)) == |Latencies(s)| == Total(RollupSamples, Rollups(k, s))
  {
    SegmentsForRuns(k, s);
    RollupsForRuns(k, s);
    RunsDecompose(StatusOf, s);
    RunsDecompose(BucketOf, s);
    TotalsAreConserved(SegmentChecks, SegmentSamples, Segments(k, s), Runs(StatusOf, s));
    TotalsAreConserved(RollupCount, RollupSamples, Rollups(k, s), Runs(BucketOf, s));
  }

  lemma {:induction false} SegmentsForRuns(k: Key, s: seq<Sample>)
    ensures RowsForRuns(SegmentChecks, SegmentSamples, Segments(k, s), Runs(StatusOf, s))
  {
    var rows, runs := Segments(k, s), Runs(StatusOf, s);
    forall i | 0 <= i < |rows|
      ensures SegmentChecks(rows[i]) == |runs[i]| && SegmentSamples(rows[i]) == |Latencies(runs[i])|
    {
      EmittedAt(SegmentOf, k, runs, i);
    }
  }

  lemma {:induction false} RollupsForRuns(k: Key, s: seq<Sample>)
    ensures RowsForRuns(RollupCount, RollupSamples, Rollups(k, s), Runs(BucketOf, s))
  {
    var rows, runs := Rollups(k, s), Runs(BucketOf, s);
    forall i | 0 <= i < |rows|
      ensures RollupCount(rows[i]) == |runs[i]| && RollupSamples(rows[i]) == |Latencies(runs[i])|
    {
      EmittedAt(RollupOf, k, runs, i);
    }
  }

  // ----- one rollup per bucket -----

  lemma TimeOrderedBuckets(s: seq<Sample>)
    requires TimeOrdered(s)
    ensures forall i, j :: 0 <= i < j < |s| ==> BucketOf(s[i]) <= BucketOf(s[j])
    ensures Contiguous(BucketOf, s)
  {
    forall i, j | 0 <= i < j < |s|
      ensures BucketOf(s[i]) <= BucketOf(s[j])
    {
      BucketStartMonotone(s[i].at, s[j].at, ROLLUP_RESOLUTION);
    }
  }

  /** On time-ordered checks the rollups are a group-by: every rollup summarises all checks of its bucket. */
  lemma {:induction false} RollupsAreGroups(k: Key, s: seq<Sample>, i: nat)
    requires TimeOrdered(s) && i < |Rollups(k, s)|
    ensures var r := Rollups(k, s)[i];
            var group := Select(BucketOf, r.bucketStart, s);
            group != [] && r == RollupOf(k, group[0], group, None)
  {
    TimeOrderedBuckets(s);
    RunIsGroup(BucketOf, s, i);
    RollupOfRun(k, s, i);
  }

  lemma {:induction false} RollupOfRun(k: Key, s: seq<Sample>, i: nat)
    requires i < |Rollups(k, s)|
    ensures var run := Runs(BucketOf, s)[i]; Rollups(k, s)[i] == RollupOf(k, run[0], run, None)
    ensures Rollups(k, s)[i].bucketStart == BucketOf(Runs(BucketOf, s)[i][0])
  {
    EmittedAt(RollupOf, k, Runs(BucketOf, s), i);
  }

  /** Every check's bucket has a rollup. */
  lemma RollupsCover(k: Key, s: seq<Sample>, j: nat) returns (i: nat)
    requires j < |s|
    ensures i < |Rollups(k, s)| && Rollups(k, s)[i].bucketStart == BucketOf(s[j])
  {
    i := RunCovers(BucketOf, s, j);
    EmittedAt(RollupOf, k, Runs(BucketOf, s), i);
  }

  ghost predicate DistinctBuckets(rows: seq<RollupRow>) {
    forall i, j :: 0 <= i < j < |rows| ==> rows[i].bucketStart != rows[j].bucketStart
  }

  /** A key's rollups have distinct buckets exactly when its checks of one bucket stand together. */
  lemma DistinctBucketsIffContiguous(k: Key, s: seq<Sample>)
    ensures DistinctBuckets(Rollups(k, s)) <==> Contiguous(BucketOf, s)
  {
    var runs := Runs(BucketOf, s);
    DistinctIffContiguous(BucketOf, s);
    forall i | 0 <= i < |runs|
      ensures Rollups(k, s)[i].bucketStart == BucketOf(runs[i][0])
    {
      EmittedAt(RollupOf, k, runs, i);
    }
  }

  /** The unique constraint of `endpoint_health_rollups`. */
  ghost predicate UniqueRollups(table: seq<RollupRow>) {
    forall i, j :: 0 <= i < j < |table| && table[i].key == table[j].key ==> table[i].bucketStart != table[j].bucketStart
  }

  lemma {:induction false} SelectBoth<A, B>(f: A -> B, v: B, s: seq<A>, i: nat, j: nat) returns (p: nat, q: nat)
    requires i < j < |s| && f(s[i]) == v == f(s[j])
    ensures p < q < |Select(f, v, s)| && Select(f, v, s)[p] == s[i] && Select(f, v, s)[q] == s[j]
  {
    if j < |s| - 1 {
      p, q := SelectBoth(f, v, Front(s), i, j);
    } else {
      SelectComplete(f, v, Front(s), Front(s)[i]);
      p :| 0 <= p < |Select(f, v, Front(s))| && Select(f, v, Front(s))[p] == s[i];
      q := |Select(f, v, s)| - 1;
    }
  }

  ghost predicate KeyDistinct(k: Key, table: seq<RollupRow>) {
    DistinctBuckets(Select(RollupKey, k, table))
  }

  /** The checks of `k` that share a bucket stand together in the log. */
  ghost predicate KeyContiguous(k: Key, log: seq<Sample>) {
    Contiguous(BucketOf, SubLog(k, log))
  }

  lemma UniqueIffDistinct(table: seq<RollupRow>)
    ensures UniqueRollups(table) <==> forall k :: KeyDistinct(k, table)
  {
    if forall k :: KeyDistinct(k, table) {
      forall i, j | 0 <= i < j < |table| && table[i].key == table[j].key
        ensures table[i].bucketStart != table[j].bucketStart
      {
        var p, q := SelectBoth(RollupKey, table[i].key, table, i, j);
        assert KeyDistinct(table[i].key, table);
      }
    }
    if UniqueRollups(table) {
      forall k ensures KeyDistinct(k, table) {
        forall p, q | 0 <= p < q < |Select(RollupKey, k, table)|
          ensures Select(RollupKey, k, table)[p].bucketStart != Select(RollupKey, k, table)[q].bucketStart
        {
          var i, j := SelectOrder(RollupKey, k, table, p, q);
        }
      }
    }
  }

  /** The rebuilt rollup table meets its unique constraint exactly when, for every key, checks of one
      bucket stand together in the log. */
  lemma UniqueRollupsIffContiguous(log: seq<Sample>, table: seq<RollupRow>)
    requires forall k :: RollupsDone(k, log, table)
    ensures UniqueRollups(table) <==> forall k :: KeyContiguous(k, log)
  {
    UniqueIffDistinct(table);
    forall k
      ensures KeyDistinct(k, table) <==> KeyContiguous(k, log)
    {
      assert RollupsDone(k, log, table);
      DistinctBucketsIffContiguous(k, SubLog(k, log));
    }
    assert (forall k :: KeyDistinct(k, table)) <==> forall k :: KeyContiguous(k, log);
  }

  // ----- the order of the query -----

  /** How the database compares raw modes: whether one sorts strictly before another. */
  type Collation = (Option<string>, Option<string>) -> bool

  /** A collation orders its classes of equal spellings; one that ignores case has `S3` and `s3` in one class. */
  ghost predicate IsCollation(less: Collation) {
    && (forall a, b :: less(a, b) ==> !less(b, a))
    && (forall a, b, c :: less(a, b) ==> less(a, c) || less(c, b))
  }

  /** `ORDER BY storage_endpoint_id, check_mode, checked_at, id`. */
  predicate Precedes(less: Collation, a: Check, b: Check) {
    if a.endpoint != b.endpoint then a.endpoint < b.endpoint
    else if less(a.mode, b.mode) || less(b.mode, a.mode) then less(a.mode, b.mode)
    else if a.checkedAt != b.checkedAt then a.checkedAt < b.checkedAt
    else a.id < b.id
  }

  ghost predicate QueryOrdered(less: Collation, rows: seq<Check>) {
    forall i, j :: 0 <= i < j < |rows| ==> Precedes(less, rows[i], rows[j])
  }

  /** Within an endpoint, the collation takes the raw spellings of a coerced mode for equal. */
  ghost predicate OneSpelling(less: Collation, rows: seq<Check>) {
    forall i, j :: 0 <= i < |rows| && 0 <= j < |rows| && Normalize(rows[i]).key == Normalize(rows[j]).key ==>
      !less(rows[i].mode, rows[j].mode)
  }

  /** That is so when a coerced mode has one raw spelling per endpoint, whatever the collation. */
  lemma EqualSpellings(less: Collation, rows: seq<Check>)
    requires IsCollation(less)
    requires forall i, j :: 0 <= i < |rows| && 0 <= j < |rows| && Normalize(rows[i]).key == Normalize(rows[j]).key ==>
               rows[i].mode == rows[j].mode
    ensures OneSpelling(less, rows)
  {}

  lemma QueryOrderIsTimeOrder(less: Collation, rows: seq<Check>, k: Key)
    requires QueryOrdered(less, rows) && OneSpelling(less, rows)
    ensures TimeOrdered(SubLog(k, Map(Normalize, rows)))
  {
    var log := Map(Normalize, rows);
    forall i, j | 0 <= i < j < |SubLog(k, log)|
      ensures SubLog(k, log)[i].at <= SubLog(k, log)[j].at
    {
      var p, q := SelectOrder(KeyOf, k, log, i, j);
      assert log[p] == Normalize(rows[p]) && log[q] == Normalize(rows[q]);
      assert Precedes(less, rows[p], rows[q]);
    }
  }

  lemma UniqueWhenOneSpelling(less: Collation, rows: seq<Check>, table: seq<RollupRow>)
    requires QueryOrdered(less, rows) && OneSpelling(less, rows)
    requires forall k :: RollupsDone(k, Map(Normalize, rows), table)
    ensures UniqueRollups(table)
  {
    var log := Map(Normalize, rows);
    forall k ensures KeyContiguous(k, log) {
      QueryOrderIsTimeOrder(less, rows, k);
      TimeOrderedBuckets(SubLog(k, log));
    }
    UniqueRollupsIffContiguous(log, table);
  }

  /** The refinement, at full strength: for query-ordered checks with one spelling per mode, as the collation sees it,
      the tables are exactly the run-length encoding, the group-by and the 24-hour statistics, and rollups are
      unique. */
  lemma TablesAreExact(
    less: Collation, rows: seq<Check>, rollups: seq<RollupRow>, latest: seq<LatestRow>)
    requires QueryOrdered(less, rows) && OneSpelling(less, rows)
    requires forall k :: RollupsDone(k, Map(Normalize, rows), rollups)
    requires forall k :: LatestDone(k, Map(Normalize, rows), latest)
    ensures UniqueRollups(rollups)
    ensures forall k :: var s := SubLog(k, Map(Normalize, rows));
                        Select(LatestKey, k, latest) == if s == [] then [] else [Latest(s)]
  {
    var log := Map(Normalize, rows);
    UniqueWhenOneSpelling(less, rows, rollups);
    forall k ensures var s := SubLog(k, log); Select(LatestKey, k, latest) == if s == [] then [] else [Latest(s)] {
      assert LatestDone(k, log, latest);
      QueryOrderIsTimeOrder(less, rows, k);
      if SubLog(k, log) != [] {
        DequeIsWindow(SubLog(k, log));
      }
    }
  }

  function CheckAt(id: int, mode: string, minute: int): Check {
    Check(id, 1, Some(mode), minute * MICROS_PER_MINUTE, Some("up"), None, None, None)
  }

  /** Three checks of one endpoint; `a` and `b` are two spellings of one mode. */
  function TwoSpellings(a: string, b: string): seq<Check> {
    [CheckAt(1, a, 0), CheckAt(2, a, 10), CheckAt(3, b, 0)]
  }

  /** Told apart, the two spellings are the query's first key, ahead of the time. */
  lemma TwoSpellingsOrder(less: Collation, a: string, b: string)
    requires IsCollation(less) && less(Some(a), Some(b))
    ensures QueryOrdered(less, TwoSpellings(a, b))
  {
    assert !less(Some(a), Some(a));
  }

  lemma BucketsOfMinutes()
    ensures BucketStart(0, 300) == 0 && BucketStart(10 * MICROS_PER_MINUTE, 300) == 10 * MICROS_PER_MINUTE
  {}

  lemma NotContiguous(s: seq<Sample>)
    requires |s| == 3 && s[0].at == 0 && s[1].at == 10 * MICROS_PER_MINUTE && s[2].at == 0
    ensures !Contiguous(BucketOf, s)
  {
    BucketsOfMinutes();
    assert BucketOf(s[0]) == BucketOf(s[2]) && BucketOf(s[1]) != BucketOf(s[0]);
  }

  /** The rollup table that the backfill writes for these rows, in some order of the keys. */
  ghost predicate Rebuilt(rows: seq<Check>, table: seq<RollupRow>) {
    forall k :: RollupsDone(k, Map(Normalize, rows), table)
  }

  /** Two spellings of one mode break it: under every collation that tells them apart there are checks that come, in the
      query's order, with a bucket's checks apart, so that their rollups violate the unique constraint. */
  lemma TwoSpellingsBreakUniqueness(less: Collation, a: string, b: string) returns (rows: seq<Check>)
    requires IsCollation(less) && CoerceMode(Some(a)) == CoerceMode(Some(b)) && less(Some(a), Some(b))
    ensures QueryOrdered(less, rows) && Stored(rows)
    ensures (exists table :: Rebuilt(rows, table)) && forall table :: Rebuilt(rows, table) ==> !UniqueRollups(table)
  {
    rows := TwoSpellings(a, b);
    TwoSpellingsOrder(less, a, b);
    TwoSpellingsApart(rows, a, b);
  }

  lemma TwoSpellingsApart(rows: seq<Check>, a: string, b: string)
    requires rows == TwoSpellings(a, b) && CoerceMode(Some(a)) == CoerceMode(Some(b))
    ensures (exists table :: Rebuilt(rows, table)) && forall table :: Rebuilt(rows, table) ==> !UniqueRollups(table)
  {
    var k, log := Key(1, CoerceMode(Some(a))), Map(Normalize, rows);
    TwoSpellingsLog(a, b);
    ApartUnderOneKey(k, log);
    forall table: seq<RollupRow> | Rebuilt(rows, table) ensures !UniqueRollups(table) {
      UniqueRollupsIffContiguous(log, table);
    }
    OneKeyRebuilt(k, log);
    assert Rebuilt(rows, Rollups(k, log));
  }

  lemma TwoSpellingsLog(a: string, b: string)
    requires CoerceMode(Some(a)) == CoerceMode(Some(b))
    ensures var log := Map(Normalize, TwoSpellings(a, b));
            && |log| == 3 && log[0].at == 0 && log[1].at == 10 * MICROS_PER_MINUTE && log[2].at == 0
            && forall i :: 0 <= i < |log| ==> KeyOf(log[i]) == Key(1, CoerceMode(Some(a)))
  {}

  /** The mode column is NOT NULL. */
  ghost predicate Stored(rows: seq<Check>) { forall i :: 0 <= i < |rows| ==> rows[i].mode.Some? }

  lemma ApartUnderOneKey(k: Key, log: seq<Sample>)
    requires |log| == 3 && log[0].at == 0 && log[1].at == 10 * MICROS_PER_MINUTE && log[2].at == 0
    requires forall i :: 0 <= i < |log| ==> KeyOf(log[i]) == k
    ensures !KeyContiguous(k, log)
  {
    SelectAll(KeyOf, k, log);
    NotContiguous(log);
  }

  /** A log of one key is rebuilt by that key's rollups. */
  lemma OneKeyRebuilt(k: Key, log: seq<Sample>)
    requires forall i :: 0 <= i < |log| ==> KeyOf(log[i]) == k
    ensures forall other :: RollupsDone(other, log, Rollups(k, log))
  {
    var table := Rollups(k, log);
    forall i | 0 <= i < |table| ensures RollupKey(table[i]) == k {
      EmittedAt(RollupOf, k, Runs(BucketOf, log), i);
    }
    forall other ensures RollupsDone(other, log, table) {
      if other == k {
        SelectAll(KeyOf, k, log);
        SelectAll(RollupKey, k, table);
      } else {
        SelectNone(KeyOf, other, log);
        SelectNone(RollupKey, other, table);
      }
    }
  }

  /** Exactly when the migration can be relied on: every log gives unique rollups if and only if the collation takes all
      spellings of a coerced mode for equal. */
  lemma UniqueForEveryLogIff(less: Collation)
    requires IsCollation(less)
    ensures (forall rows, table :: Stored(rows) && QueryOrdered(less, rows) && Rebuilt(rows, table) ==>
               UniqueRollups(table)) <==>
            (forall a, b :: CoerceMode(Some(a)) == CoerceMode(Some(b)) ==> !less(Some(a), Some(b)))
  {
    if forall a, b :: CoerceMode(Some(a)) == CoerceMode(Some(b)) ==> !less(Some(a), Some(b)) {
      forall rows, table | Stored(rows) && QueryOrdered(less, rows) && Rebuilt(rows, table)
        ensures UniqueRollups(table)
      {
        TiesAreOneSpelling(less, rows);
        UniqueWhenOneSpelling(less, rows, table);
      }
    } else {
      var a, b :| CoerceMode(Some(a)) == CoerceMode(Some(b)) && less(Some(a), Some(b));
      var rows := TwoSpellingsBreakUniqueness(less, a, b);
      var table :| Rebuilt(rows, table);
      assert !UniqueRollups(table);
    }
  }

  lemma TiesAreOneSpelling(less: Collation, rows: seq<Check>)
    requires Stored(rows)
    requires forall a, b :: CoerceMode(Some(a)) == CoerceMode(Some(b)) ==> !less(Some(a), Some(b))
    ensures OneSpelling(less, rows)
  {
    forall i, j | 0 <= i < |rows| && 0 <= j < |rows| && Normalize(rows[i]).key == Normalize(rows[j]).key
      ensures !less(rows[i].mode, rows[j].mode)
    {
      assert CoerceMode(Some(rows[i].mode.value)) == CoerceMode(Some(rows[j].mode.value));
    }
  }

  /** For instance `S3` and `s3`, under a collation that minds the case. */
  lemma BothSpellingsCoerce()
    ensures CoerceMode(Some("S3")) == S3 == CoerceMode(Some("s3"))
  {
    assert Text.Strip("S3") == "S3" && Text.Strip("s3") == "s3";
    assert Text.Lower("S3") == "s3" && Text.Lower("s3") == "s3";
  }

  lemma {:induction false} SelectAll<A, B>(f: A -> B, v: B, s: seq<A>)
    requires forall i :: 0 <= i < |s| ==> f(s[i]) == v
    ensures Select(f, v, s) == s
  {
    if s != [] {
      SelectAll(f, v, Front(s));
      FrontLast(s);
    }
  }

  lemma {:induction false} SelectNone<A, B>(f: A -> B, v: B, s: seq<A>)
    requires forall i :: 0 <= i < |s| ==> f(s[i]) != v
    ensures Select(f, v, s) == []
  {
    if s != [] {
      SelectNone(f, v, Front(s));
      FrontLast(s);
    }
  }

  // ----- statistics stay in range -----

  ghost predicate InRange(low: Option<int>, value: Option<int>, high: Option<int>) {
    low.Some? == value.Some? == high.Some? && (value.Some? ==> low.value <= value.value <= high.value)
  }

  /** Averages and percentiles lie between the minimum and the maximum written beside them. */
  lemma StatisticsInRange(k: Key, s: seq<Sample>, first: Sample, next: Option<Sample>, x: Sample)
    ensures var r := SegmentOf(k, first, s, next); InRange(r.minLatency, r.avgLatency, r.maxLatency)
    ensures var r := RollupOf(k, first, s, next);
            InRange(r.minLatency, r.avgLatency, r.maxLatency) && InRange(r.minLatency, r.p95, r.maxLatency)
    ensures var r := LatestOver(x, s);
            InRange(r.minLatency, r.avgLatency, r.maxLatency) &&
              (r.availability.Some? ==> 0 <= r.availability.value <= 100)
  {
    var l := Latencies(s);
    if l != [] {
      PercentileBetween(l, 95, 100);
    }
  }
}
