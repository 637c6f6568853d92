/** The one-pass backfill of the health-check tables: per-key accumulators and write buffers
    kept in step with the batch definitions. */
module HealthBackfill {
  import opened Sequences
  import opened Grouping
  import opened HealthStatistics
  import opened HealthBatch

  const CHUNK := 1000
  const BUFFER_LIMIT := 5000

  /** A table written through a row buffer. */
  class BufferedTable<T> {
    var table: seq<T>
    var rows: seq<T>

    constructor (existing: seq<T>)
      ensures table == existing && rows == []
    {
      table, rows := existing, [];
    }

    /** What the table holds once the buffer is flushed. */
    ghost function Contents(): seq<T>
      reads this
    {
      table + rows
    }

    method DeleteAll()
      modifies this`table
      ensures table == []
    {
      table := [];
    }

    /** `_flush_buffer`: insert the buffer in chunks, then clear it. */
    method Flush()
      modifies this
      ensures Contents() == old(Contents()) && rows == []
    {
      var index := 0;
      while index < |rows|
        invariant 0 <= index
        invariant rows == old(rows)
        invariant table == old(table) + rows[..if index < |rows| then index else |rows|]
      {
        var end := if index + CHUNK < |rows| then index + CHUNK else |rows|;
        assert rows[..end] == rows[..index] + rows[index..end];
        table := table + rows[index..end];
        index := index + CHUNK;
      }
      rows := [];
    }

    method Append(row: T)
      modifies this
      ensures Contents() == old(Contents()) + [row]
      ensures old(|rows|) < BUFFER_LIMIT ==> |rows| < BUFFER_LIMIT
    {
      rows := rows + [row];
      if |rows| >= BUFFER_LIMIT {
        Flush();
      }
    }
  }

  /** The open segment of a key. */
  datatype SegmentState = SegmentState(
    status: string, startedAt: Timestamp, checks: nat, minLatency: Option<int>, maxLatency: Option<int>,
    total: int, samples: nat)

  /** The open bucket of a key. */
  datatype BucketState = BucketState(
    bucketStart: Timestamp, up: nat, degraded: nat, down: nat, unknown: nat, latencies: seq<int>)

  /** What a segment accumulator stands for: the run it has seen. */
  function SegmentStateOf(first: Sample, run: seq<Sample>): SegmentState {
    var l := Latencies(run);
    SegmentState(first.status, first.at, |run|, MinOpt(l), MaxOpt(l), Sum(l), |l|)
  }

  function BucketStateOf(first: Sample, run: seq<Sample>): BucketState {
    CountThree(run);
    var up, degraded, down := Count("up", run), Count("degraded", run), Count("down", run);
    BucketState(BucketOf(first), up, degraded, down, |run| - up - degraded - down, Latencies(run))
  }

  function NewSegment(x: Sample): SegmentState {
    var l := if Timed(x) then x.latency else None;
    SegmentState(x.status, x.at, 1, l, l, if l.Some? then l.value else 0, if l.Some? then 1 else 0)
  }

  function ExtendSegment(g: SegmentState, x: Sample): SegmentState {
    if !Timed(x) then g.(checks := g.checks + 1)
    else
      var l := x.latency.value;
      g.(checks := g.checks + 1, total := g.total + l, samples := g.samples + 1,
         minLatency := if g.minLatency.None? || l < g.minLatency.value then Some(l) else g.minLatency,
         maxLatency := if g.maxLatency.None? || l > g.maxLatency.value then Some(l) else g.maxLatency)
  }

  function EmptyBucket(start: Timestamp): BucketState {
    BucketState(start, 0, 0, 0, 0, [])
  }

  function CountInBucket(b: BucketState, x: Sample): BucketState {
    var c := if x.status == "up" then b.(up := b.up + 1)
             else if x.status == "degraded" then b.(degraded := b.degraded + 1)
             else if x.status == "down" then b.(down := b.down + 1)
             else b.(unknown := b.unknown + 1);
    if Timed(x) then c.(latencies := c.latencies + [x.latency.value]) else c
  }

  lemma NewSegmentIsRun(x: Sample)
    ensures NewSegment(x) == SegmentStateOf(x, [x])
  {
    LatenciesSnoc([], x);
    assert [] + [x] == [x];
    if Timed(x) {
      var l := [x.latency.value];
      assert Latencies([x]) == l;
      assert Sum(l) == l[0];
      assert MinOpt(l) == x.latency;
      assert MaxOpt(l) == x.latency;
    }
  }

  lemma ExtendSegmentIsRun(first: Sample, run: seq<Sample>, x: Sample)
    ensures ExtendSegment(SegmentStateOf(first, run), x) == SegmentStateOf(first, run + [x])
  {
    LatenciesSnoc(run, x);
    var l := Latencies(run);
    if Timed(x) {
      assert Front(l + [x.latency.value]) == l;
    }
  }

  lemma CountInBucketIsRun(first: Sample, run: seq<Sample>, x: Sample)
    ensures CountInBucket(BucketStateOf(first, run), x) == BucketStateOf(first, run + [x])
  {
    LatenciesSnoc(run, x);
    CountSnoc("up", run, x);
    CountSnoc("degraded", run, x);
    CountSnoc("down", run, x);
  }

  lemma EmptyBucketIsRun(x: Sample)
    ensures CountInBucket(EmptyBucket(BucketOf(x)), x) == BucketStateOf(x, [x])
  {
    assert EmptyBucket(BucketOf(x)) == BucketStateOf(x, []);
    CountInBucketIsRun(x, [], x);
    assert [] + [x] == [x];
  }

  /** The row a segment accumulator is written as. */
  function SegmentRowOf(k: Key, g: SegmentState, end: Option<Timestamp>): SegmentRow {
    SegmentRow(k, g.status, g.startedAt, end, g.checks, g.minLatency,
               if g.samples > 0 then Some(RoundHalfEven(g.total, g.samples)) else None, g.maxLatency, g.samples)
  }

  function RollupRowOf(k: Key, b: BucketState): RollupRow {
    var l := b.latencies;
    RollupRow(k, b.bucketStart, b.up, b.degraded, b.down, b.unknown,
              MinOpt(l), AverageOpt(l), MaxOpt(l), Percentile(l, 95, 100), |l|)
  }

  lemma SegmentRowIsSegment(k: Key, first: Sample, run: seq<Sample>, next: Option<Sample>)
    ensures SegmentRowOf(k, SegmentStateOf(first, run), if next.Some? then Some(next.value.at) else None)
         == SegmentOf(k, first, run, next)
  {}

  lemma RollupRowIsRollup(k: Key, first: Sample, run: seq<Sample>, next: Option<Sample>)
    ensures RollupRowOf(k, BucketStateOf(first, run)) == RollupOf(k, first, run, next)
  {}

  ghost predicate SegmentsTrack(k: Key, log: seq<Sample>, open: map<Key, SegmentState>, written: seq<SegmentRow>) {
    Tracks(KeyOf, StatusOf, SegmentStateOf, SegmentOf, SegmentKey, k, log, open, written)
  }

  ghost predicate RollupsTrack(k: Key, log: seq<Sample>, open: map<Key, BucketState>, written: seq<RollupRow>) {
    Tracks(KeyOf, BucketOf, BucketStateOf, RollupOf, RollupKey, k, log, open, written)
  }

  /** The key's segment after one more row, and the rows it closes. */
  function NextSegment(open: map<Key, SegmentState>, x: Sample): (SegmentState, seq<SegmentRow>) {
    if x.key !in open then (NewSegment(x), [])
    else if open[x.key].status == x.status then (ExtendSegment(open[x.key], x), [])
    else (NewSegment(x), [SegmentRowOf(x.key, open[x.key], Some(x.at))])
  }

  function NextBucket(open: map<Key, BucketState>, x: Sample): (BucketState, seq<RollupRow>) {
    if x.key in open && open[x.key].bucketStart == BucketOf(x) then (CountInBucket(open[x.key], x), [])
    else (CountInBucket(EmptyBucket(BucketOf(x)), x),
          if x.key in open then [RollupRowOf(x.key, open[x.key])] else [])
  }

  lemma OwnSegmentTracks(x: Sample, log: seq<Sample>, open: map<Key, SegmentState>, written: seq<SegmentRow>)
    requires SegmentsTrack(x.key, log, open, written)
    ensures var (g, closed) := NextSegment(open, x);
            SegmentsTrack(x.key, log + [x], open[x.key := g], written + closed)
  {
    var runs := Runs(StatusOf, SubLog(x.key, log));
    NewSegmentIsRun(x);
    if x.key !in open {
      TracksOpen(KeyOf, StatusOf, SegmentStateOf, SegmentOf, SegmentKey, x.key, log, open, written, x, []);
    } else if open[x.key].status == x.status {
      var run := Last(runs);
      ExtendSegmentIsRun(run[0], run, x);
      TracksGrow(KeyOf, StatusOf, SegmentStateOf, SegmentOf, SegmentKey, x.key, log, open, written, x, run);
      assert written + [] == written;
    } else {
      var run := Last(runs);
      SegmentRowIsSegment(x.key, run[0], run, Some(x));
      TracksOpen(KeyOf, StatusOf, SegmentStateOf, SegmentOf, SegmentKey, x.key, log, open, written, x,
                 [SegmentOf(x.key, run[0], run, Some(x))]);
    }
  }

  lemma OwnBucketTracks(x: Sample, log: seq<Sample>, open: map<Key, BucketState>, written: seq<RollupRow>)
    requires RollupsTrack(x.key, log, open, written)
    ensures var (b, closed) := NextBucket(open, x);
            RollupsTrack(x.key, log + [x], open[x.key := b], written + closed)
  {
    var runs := Runs(BucketOf, SubLog(x.key, log));
    EmptyBucketIsRun(x);
    if x.key !in open {
      TracksOpen(KeyOf, BucketOf, BucketStateOf, RollupOf, RollupKey, x.key, log, open, written, x, []);
    } else if open[x.key].bucketStart == BucketOf(x) {
      var run := Last(runs);
      CountInBucketIsRun(run[0], run, x);
      TracksGrow(KeyOf, BucketOf, BucketStateOf, RollupOf, RollupKey, x.key, log, open, written, x, run);
      assert written + [] == written;
    } else {
      var run := Last(runs);
      RollupRowIsRollup(x.key, run[0], run, Some(x));
      TracksOpen(KeyOf, BucketOf, BucketStateOf, RollupOf, RollupKey, x.key, log, open, written, x,
                 [RollupOf(x.key, run[0], run, Some(x))]);
    }
  }

  lemma SegmentsTrackStep(k: Key, x: Sample, log: seq<Sample>, open: map<Key, SegmentState>, written: seq<SegmentRow>)
    requires SegmentsTrack(k, log, open, written)
    ensures var (g, closed) := NextSegment(open, x);
            SegmentsTrack(k, log + [x], open[x.key := g], written + closed)
  {
    if k == x.key {
      OwnSegmentTracks(x, log, open, written);
    } else {
      var (g, closed) := NextSegment(open, x);
      TracksOther(KeyOf, StatusOf, SegmentStateOf, SegmentOf, SegmentKey, k, log, open, written, x, g, closed);
    }
  }

  lemma RollupsTrackStep(k: Key, x: Sample, log: seq<Sample>, open: map<Key, BucketState>, written: seq<RollupRow>)
    requires RollupsTrack(k, log, open, written)
    ensures var (b, closed) := NextBucket(open, x);
            RollupsTrack(k, log + [x], open[x.key := b], written + closed)
  {
    if k == x.key {
      OwnBucketTracks(x, log, open, written);
    } else {
      var (b, closed) := NextBucket(open, x);
      TracksOther(KeyOf, BucketOf, BucketStateOf, RollupOf, RollupKey, k, log, open, written, x, b, closed);
    }
  }

  lemma AllSegmentsTrackStep(
    x: Sample, log: seq<Sample>, open: map<Key, SegmentState>, written: seq<SegmentRow>,
    open': map<Key, SegmentState>, written': seq<SegmentRow>)
    requires forall k :: SegmentsTrack(k, log, open, written)
    requires open' == open[x.key := NextSegment(open, x).0] && written' == written + NextSegment(open, x).1
    ensures forall k :: SegmentsTrack(k, log + [x], open', written')
  {
    forall k ensures SegmentsTrack(k, log + [x], open', written') {
      SegmentsTrackStep(k, x, log, open, written);
    }
  }

  lemma AllRollupsTrackStep(
    x: Sample, log: seq<Sample>, open: map<Key, BucketState>, written: seq<RollupRow>,
    open': map<Key, BucketState>, written': seq<RollupRow>)
    requires forall k :: RollupsTrack(k, log, open, written)
    requires open' == open[x.key := NextBucket(open, x).0] && written' == written + NextBucket(open, x).1
    ensures forall k :: RollupsTrack(k, log + [x], open', written')
  {
    forall k ensures RollupsTrack(k, log + [x], open', written') {
      RollupsTrackStep(k, x, log, open, written);
    }
  }

  /** `k` has one latest row if it was ever checked, computed over its deque, and none otherwise. */
  ghost predicate LatestDone(k: Key, log: seq<Sample>, written: seq<LatestRow>) {
    var s := SubLog(k, log);
    Select(LatestKey, k, written) == if s == [] then [] else [LatestOver(Last(s), Deque(s))]
  }

  /** Every segment of `k`, the open one included, is written. */
  ghost predicate SegmentsDone(k: Key, log: seq<Sample>, written: seq<SegmentRow>) {
    Select(SegmentKey, k, written) == Segments(k, SubLog(k, log))
  }

  ghost predicate RollupsDone(k: Key, log: seq<Sample>, written: seq<RollupRow>) {
    Select(RollupKey, k, written) == Rollups(k, SubLog(k, log))
  }

  /** Flushing the open segment of `k` completes `k` and leaves other keys alone. */
  lemma SegmentsFlush(k: Key, other: Key, log: seq<Sample>, open: map<Key, SegmentState>, written: seq<SegmentRow>)
    requires k in open
    ensures SegmentsTrack(k, log, open, written) ==>
              SegmentsDone(k, log, written + [SegmentRowOf(k, open[k], None)])
    ensures other != k && SegmentsTrack(other, log, open, written) ==>
              SegmentsTrack(other, log, open - {k}, written + [SegmentRowOf(k, open[k], None)])
    ensures other != k && SegmentsDone(other, log, written) ==>
              SegmentsDone(other, log, written + [SegmentRowOf(k, open[k], None)])
  {
    SelectSnoc(SegmentKey, k, written, SegmentRowOf(k, open[k], None));
    SelectSnoc(SegmentKey, other, written, SegmentRowOf(k, open[k], None));
    if SegmentsTrack(k, log, open, written) {
      var run := Last(Runs(StatusOf, SubLog(k, log)));
      SegmentRowIsSegment(k, run[0], run, None);
    }
  }

  /** Open keys are tracked and the others are complete. */
  ghost predicate SegmentsPartlyDone(log: seq<Sample>, open: map<Key, SegmentState>, written: seq<SegmentRow>) {
    && (forall k :: k in open ==> SegmentsTrack(k, log, open, written))
    && (forall k :: k !in open ==> SegmentsDone(k, log, written))
  }

  ghost predicate RollupsPartlyDone(log: seq<Sample>, open: map<Key, BucketState>, written: seq<RollupRow>) {
    && (forall k :: k in open ==> RollupsTrack(k, log, open, written))
    && (forall k :: k !in open ==> RollupsDone(k, log, written))
  }

  lemma SegmentsFlushStep(key: Key, log: seq<Sample>, open: map<Key, SegmentState>, written: seq<SegmentRow>)
    requires key in open && SegmentsPartlyDone(log, open, written)
    ensures SegmentsPartlyDone(log, open - {key}, written + [SegmentRowOf(key, open[key], None)])
  {
    forall k
      ensures k in open - {key} ==> SegmentsTrack(k, log, open - {key}, written + [SegmentRowOf(key, open[key], None)])
      ensures k !in open - {key} ==> SegmentsDone(k, log, written + [SegmentRowOf(key, open[key], None)])
    {
      SegmentsFlush(key, k, log, open, written);
    }
  }

  lemma RollupsFlushStep(key: Key, log: seq<Sample>, open: map<Key, BucketState>, written: seq<RollupRow>)
    requires key in open && RollupsPartlyDone(log, open, written)
    ensures RollupsPartlyDone(log, open - {key}, written + [RollupRowOf(key, open[key])])
  {
    forall k
      ensures k in open - {key} ==> RollupsTrack(k, log, open - {key}, written + [RollupRowOf(key, open[key])])
      ensures k !in open - {key} ==> RollupsDone(k, log, written + [RollupRowOf(key, open[key])])
    {
      RollupsFlush(key, k, log, open, written);
    }
  }

  lemma RollupsFlush(k: Key, other: Key, log: seq<Sample>, open: map<Key, BucketState>, written: seq<RollupRow>)
    requires k in open
    ensures RollupsTrack(k, log, open, written) ==>
              RollupsDone(k, log, written + [RollupRowOf(k, open[k])])
    ensures other != k && RollupsTrack(other, log, open, written) ==>
              RollupsTrack(other, log, open - {k}, written + [RollupRowOf(k, open[k])])
    ensures other != k && RollupsDone(other, log, written) ==>
              RollupsDone(other, log, written + [RollupRowOf(k, open[k])])
  {
    SelectSnoc(RollupKey, k, written, RollupRowOf(k, open[k]));
    SelectSnoc(RollupKey, other, written, RollupRowOf(k, open[k]));
    if RollupsTrack(k, log, open, written) {
      var run := Last(Runs(BucketOf, SubLog(k, log)));
      RollupRowIsRollup(k, run[0], run, None);
    }
  }

  lemma TrackedOrDone(
    log: seq<Sample>, open: map<Key, SegmentState>, written: seq<SegmentRow>,
    open': map<Key, BucketState>, written': seq<RollupRow>)
    requires forall k :: SegmentsTrack(k, log, open, written)
    requires forall k :: RollupsTrack(k, log, open', written')
    ensures SegmentsPartlyDone(log, open, written) && RollupsPartlyDone(log, open', written')
  {
    forall k | k !in open ensures SegmentsDone(k, log, written) {
      assert SegmentsTrack(k, log, open, written);
    }
    forall k | k !in open' ensures RollupsDone(k, log, written') {
      assert RollupsTrack(k, log, open', written');
    }
  }

  /** The latest rows of the keys outside `pending` are queued. */
  ghost predicate LatestQueued(k: Key, latest: map<Key, LatestRow>, pending: set<Key>, rows: seq<LatestRow>) {
    Select(LatestKey, k, rows) == if k in latest && k !in pending then [latest[k]] else []
  }

  lemma LatestQueueStep(key: Key, latest: map<Key, LatestRow>, pending: set<Key>, rows: seq<LatestRow>)
    requires key in pending && key in latest && latest[key].key == key
    requires forall k :: LatestQueued(k, latest, pending, rows)
    ensures forall k :: LatestQueued(k, latest, pending - {key}, rows + [latest[key]])
  {
    forall k ensures LatestQueued(k, latest, pending - {key}, rows + [latest[key]]) {
      assert LatestQueued(k, latest, pending, rows);
      SelectSnoc(LatestKey, k, rows, latest[key]);
    }
  }

  class Backfill {
    const latest: BufferedTable<LatestRow>
    const segments: BufferedTable<SegmentRow>
    const rollups: BufferedTable<RollupRow>
    var recentByKey: map<Key, seq<Sample>>
    var segmentByKey: map<Key, SegmentState>
    var bucketByKey: map<Key, BucketState>
    var latestByKey: map<Key, LatestRow>

    constructor (latest: BufferedTable<LatestRow>, segments: BufferedTable<SegmentRow>,
        rollups: BufferedTable<RollupRow>)
      ensures this.latest == latest && this.segments == segments && this.rollups == rollups
    {
      this.latest, this.segments, this.rollups := latest, segments, rollups;
      recentByKey, segmentByKey, bucketByKey, latestByKey := map[], map[], map[], map[];
    }

    /** The deque and the latest row of `k` reflect `log`. */
    ghost predicate WindowAgrees(k: Key, log: seq<Sample>)
      reads this`recentByKey, this`latestByKey
    {
      var s := SubLog(k, log);
      && (k in recentByKey <==> s != [])
      && (k in latestByKey <==> s != [])
      && (s != [] ==> recentByKey[k] == Deque(s) && latestByKey[k] == LatestOver(Last(s), Deque(s)))
    }

    /** Slide the key's deque over the new row and recompute its latest row. */
    method UpdateWindow(x: Sample, ghost log: seq<Sample>)
      requires forall k :: WindowAgrees(k, log)
      modifies this`recentByKey, this`latestByKey
      ensures forall k :: WindowAgrees(k, log + [x])
    {
      ghost var s := SubLog(x.key, log);
      assert WindowAgrees(x.key, log);
      var recent := (if x.key in recentByKey then recentByKey[x.key] else []) + [x];
      var cutoff := x.at - MICROS_PER_DAY;
      ghost var all := recent;
      while recent != [] && recent[0].at < cutoff
        invariant DropStale(cutoff, recent) == DropStale(cutoff, all)
        decreases |recent|
      {
        recent := recent[1..];
      }
      assert recent == Deque(s + [x]) by {
        assert Front(s + [x]) == s;
      }
      recentByKey := recentByKey[x.key := recent];
      latestByKey := latestByKey[x.key := LatestOver(x, recent)];
      forall k ensures WindowAgrees(k, log + [x]) {
        assert old(WindowAgrees(k, log));
        SelectSnoc(KeyOf, k, log, x);
      }
    }

    /** `flush_segment`: pop the open segment and append its row. */
    method FlushSegment(key: Key, end: Option<Timestamp>)
      modifies this`segmentByKey, segments
      ensures segmentByKey == old(segmentByKey) - {key}
      ensures segments.Contents() == old(segments.Contents()) +
                if key in old(segmentByKey) then [SegmentRowOf(key, old(segmentByKey[key]), end)] else []
    {
      if key !in segmentByKey {
        return;
      }
      var g := segmentByKey[key];
      segmentByKey := segmentByKey - {key};
      segments.Append(SegmentRowOf(key, g, end));
    }

    /** Extend, open or close-and-reopen the key's segment. */
    method UpdateSegment(x: Sample)
      modifies this`segmentByKey, segments
      ensures segmentByKey == old(segmentByKey)[x.key := NextSegment(old(segmentByKey), x).0]
      ensures segments.Contents() == old(segments.Contents()) + NextSegment(old(segmentByKey), x).1
    {
      if x.key !in segmentByKey {
        segmentByKey := segmentByKey[x.key := NewSegment(x)];
      } else if segmentByKey[x.key].status == x.status {
        segmentByKey := segmentByKey[x.key := ExtendSegment(segmentByKey[x.key], x)];
      } else {
        FlushSegment(x.key, Some(x.at));
        segmentByKey := segmentByKey[x.key := NewSegment(x)];
      }
    }

    /** `flush_bucket`: pop the open bucket and append its rollup. */
    method FlushBucket(key: Key)
      modifies this`bucketByKey, rollups
      ensures bucketByKey == old(bucketByKey) - {key}
      ensures rollups.Contents() == old(rollups.Contents()) +
                if key in old(bucketByKey) then [RollupRowOf(key, old(bucketByKey[key]))] else []
    {
      if key !in bucketByKey {
        return;
      }
      var b := bucketByKey[key];
      bucketByKey := bucketByKey - {key};
      rollups.Append(RollupRowOf(key, b));
    }

    /** Count the row in the key's bucket, closing the previous bucket when it changes. */
    method UpdateBucket(x: Sample)
      modifies this`bucketByKey, rollups
      ensures bucketByKey == old(bucketByKey)[x.key := NextBucket(old(bucketByKey), x).0]
      ensures rollups.Contents() == old(rollups.Contents()) + NextBucket(old(bucketByKey), x).1
    {
      var start := BucketStart(x.at, ROLLUP_RESOLUTION);
      if x.key !in bucketByKey || bucketByKey[x.key].bucketStart != start {
        if x.key in bucketByKey {
          FlushBucket(x.key);
        }
        bucketByKey := bucketByKey[x.key := EmptyBucket(start)];
      }
      bucketByKey := bucketByKey[x.key := CountInBucket(bucketByKey[x.key], x)];
    }

    /** Flush every segment that is still open, in any order of keys. */
    method FlushAllSegments(ghost log: seq<Sample>)
      requires SegmentsPartlyDone(log, segmentByKey, segments.Contents())
      modifies this`segmentByKey, segments
      ensures segmentByKey.Keys == {} && SegmentsPartlyDone(log, segmentByKey, segments.Contents())
    {
      var keys := segmentByKey.Keys;
      while keys != {}
        invariant keys == segmentByKey.Keys
        invariant SegmentsPartlyDone(log, segmentByKey, segments.Contents())
        decreases keys
      {
        var key :| key in keys;
        SegmentsFlushStep(key, log, segmentByKey, segments.Contents());
        FlushSegment(key, None);
        keys := keys - {key};
      }
    }

    method FlushAllBuckets(ghost log: seq<Sample>)
      requires RollupsPartlyDone(log, bucketByKey, rollups.Contents())
      modifies this`bucketByKey, rollups
      ensures bucketByKey.Keys == {} && RollupsPartlyDone(log, bucketByKey, rollups.Contents())
    {
      var keys := bucketByKey.Keys;
      while keys != {}
        invariant keys == bucketByKey.Keys
        invariant RollupsPartlyDone(log, bucketByKey, rollups.Contents())
        decreases keys
      {
        var key :| key in keys;
        RollupsFlushStep(key, log, bucketByKey, rollups.Contents());
        FlushBucket(key);
        keys := keys - {key};
      }
    }

    /** Queue the latest row of every key. */
    method QueueLatest(ghost log: seq<Sample>)
      requires latest.Contents() == []
      requires forall k :: WindowAgrees(k, log)
      modifies latest
      ensures forall k :: LatestDone(k, log, latest.Contents())
    {
      var keys := latestByKey.Keys;
      while keys != {}
        invariant keys <= latestByKey.Keys
        invariant latest.table == []
        invariant forall k :: LatestQueued(k, latestByKey, keys, latest.rows)
        decreases |keys|
      {
        var key :| key in keys;
        assert WindowAgrees(key, log);
        LatestQueueStep(key, latestByKey, keys, latest.rows);
        latest.rows := latest.rows + [latestByKey[key]];
        keys := keys - {key};
      }
      assert latest.Contents() == latest.rows;
      forall k ensures LatestDone(k, log, latest.Contents()) {
        assert WindowAgrees(k, log) && LatestQueued(k, latestByKey, keys, latest.rows);
      }
    }

    /** What holds between two rows of the pass. */
    ghost predicate Agrees(log: seq<Sample>)
      reads this, segments, rollups
    {
      && (forall k :: WindowAgrees(k, log))
      && (forall k :: SegmentsTrack(k, log, segmentByKey, segments.Contents()))
      && (forall k :: RollupsTrack(k, log, bucketByKey, rollups.Contents()))
    }

    /** One row of the pass. */
    method Process(row: Check, ghost log: seq<Sample>)
      requires Agrees(log)
      modifies this, segments, rollups
      ensures Agrees(log + [Normalize(row)])
    {
      var x := Normalize(row);
      ghost var open, written := segmentByKey, segments.Contents();
      ghost var open', written' := bucketByKey, rollups.Contents();
      UpdateWindow(x, log);
      UpdateSegment(x);
      UpdateBucket(x);
      AllSegmentsTrackStep(x, log, open, written, segmentByKey, segments.Contents());
      AllRollupsTrackStep(x, log, open', written', bucketByKey, rollups.Contents());
    }

    method Pass(rows: seq<Check>) returns (ghost log: seq<Sample>)
      requires Agrees([])
      modifies this, segments, rollups
      ensures log == Map(Normalize, rows) && Agrees(log)
    {
      log := [];
      for i := 0 to |rows|
        invariant log == Map(Normalize, rows[..i])
        invariant Agrees(log)
      {
        Process(rows[i], log);
        log := log + [Normalize(rows[i])];
      }
      assert rows[..|rows|] == rows;
    }

    /** Flush what is still open and queue the latest rows. */
    method Finish(ghost log: seq<Sample>)
      requires Agrees(log) && latest.Contents() == []
      modifies this, latest, segments, rollups
      ensures forall k :: SegmentsDone(k, log, segments.Contents())
      ensures forall k :: RollupsDone(k, log, rollups.Contents())
      ensures forall k :: LatestDone(k, log, latest.Contents())
    {
      TrackedOrDone(log, segmentByKey, segments.Contents(), bucketByKey, rollups.Contents());
      QueueLatest(log);
      FlushAllSegments(log);
      FlushAllBuckets(log);
    }

    /** `upgrade`: rebuild the three tables in one pass over the checks. */
    method Upgrade(rows: seq<Check>)
      requires latest.rows == [] && segments.rows == [] && rollups.rows == []
      modifies this, latest, segments, rollups
      ensures latest.rows == [] && segments.rows == [] && rollups.rows == []
      ensures forall k :: SegmentsDone(k, Map(Normalize, rows), segments.table)
      ensures forall k :: RollupsDone(k, Map(Normalize, rows), rollups.table)
      ensures forall k :: LatestDone(k, Map(Normalize, rows), latest.table)
    {
      latest.DeleteAll();
      segments.DeleteAll();
      rollups.DeleteAll();
      recentByKey, segmentByKey, bucketByKey, latestByKey := map[], map[], map[], map[];
      assert segments.Contents() == [] && rollups.Contents() == [];
      ghost var log := Pass(rows);
      Finish(log);
      latest.Flush();
      segments.Flush();
      rollups.Flush();
      assert latest.table == latest.Contents() && segments.table == segments.Contents() &&
             rollups.table == rollups.Contents();
    }
  }
}
