/** The arithmetic of the health-check backfill: bucket floors, rounded averages and the
    interpolated percentile, over exact rationals. */
module HealthStatistics {
  import opened Sequences
  import opened Arithmetic

  const MICROS_PER_SECOND := 1_000_000
  const MICROS_PER_MINUTE := 60 * MICROS_PER_SECOND
  const MICROS_PER_HOUR := 60 * MICROS_PER_MINUTE
  const MICROS_PER_DAY := 24 * MICROS_PER_HOUR

  /** A naive UTC timestamp, in microseconds from some midnight. */
  type Timestamp = int

  /** `_bucket_start`: drop seconds, then floor the minute field to a multiple of the resolution's minutes. */
  function BucketStart(t: Timestamp, resolution: int): Timestamp {
    var hour := t / MICROS_PER_HOUR;
    var minute := (t % MICROS_PER_HOUR) / MICROS_PER_MINUTE;
    if resolution <= 60 then hour * MICROS_PER_HOUR + minute * MICROS_PER_MINUTE
    else
      var minutes := resolution / 60;
      hour * MICROS_PER_HOUR + (minute / minutes) * minutes * MICROS_PER_MINUTE
  }

  function FloorTo(m: nat, step: nat): (r: nat)
    requires step > 0
    ensures r <= m < r + step
  {
    DivSandwich(m, step);
    m / step * step
  }

  lemma FloorToMonotone(m: nat, n: nat, step: nat)
    requires step > 0 && m <= n
    ensures FloorTo(m, step) <= FloorTo(n, step)
  {
    if FloorTo(n, step) < FloorTo(m, step) {
      MultiplesApart(n / step, m / step, step);
    }
  }

  lemma MultiplesApart(a: nat, b: nat, step: nat)
    requires a * step < b * step
    ensures a * step + step <= b * step
  {
    if b <= a {
      MulMonotone(b, a, step);
    } else {
      MulMonotone(a + 1, b, step);
    }
  }

  lemma FloorToIdempotent(m: nat, step: nat)
    requires step > 0
    ensures FloorTo(FloorTo(m, step), step) == FloorTo(m, step)
  {
    DivUnique(m / step * step, step, m / step);
  }

  function Hour(t: Timestamp): int { t / MICROS_PER_HOUR }

  function Minute(t: Timestamp): (m: nat)
    ensures m < 60
    ensures Hour(t) * MICROS_PER_HOUR + m * MICROS_PER_MINUTE <= t
    ensures t < Hour(t) * MICROS_PER_HOUR + m * MICROS_PER_MINUTE + MICROS_PER_MINUTE
  {
    (t % MICROS_PER_HOUR) / MICROS_PER_MINUTE
  }

  /** The step, in minutes, that a resolution floors to. */
  function StepMinutes(resolution: int): (m: nat)
    ensures m > 0
    ensures m * 60 <= if resolution <= 60 then 60 else resolution
  {
    if resolution <= 60 then 1 else resolution / 60
  }

  lemma BucketStartForm(t: Timestamp, resolution: int)
    ensures BucketStart(t, resolution)
         == Hour(t) * MICROS_PER_HOUR + FloorTo(Minute(t), StepMinutes(resolution)) * MICROS_PER_MINUTE
  {}

  /** The bucket never starts after its timestamp, and less than max(60 s, resolution) before it. */
  lemma BucketStartNear(t: Timestamp, resolution: int)
    ensures BucketStart(t, resolution) <= t
    ensures t - BucketStart(t, resolution) < (if resolution <= 60 then 60 else resolution) * MICROS_PER_SECOND
  {
    BucketStartForm(t, resolution);
  }

  lemma BucketStartFields(t: Timestamp, resolution: int)
    ensures Hour(BucketStart(t, resolution)) == Hour(t)
    ensures Minute(BucketStart(t, resolution)) == FloorTo(Minute(t), StepMinutes(resolution))
  {
    BucketStartForm(t, resolution);
  }

  lemma BucketStartIdempotent(t: Timestamp, resolution: int)
    ensures BucketStart(BucketStart(t, resolution), resolution) == BucketStart(t, resolution)
  {
    BucketStartForm(t, resolution);
    BucketStartFields(t, resolution);
    BucketStartForm(BucketStart(t, resolution), resolution);
    FloorToIdempotent(Minute(t), StepMinutes(resolution));
  }

  lemma BucketStartMonotone(t: Timestamp, u: Timestamp, resolution: int)
    requires t <= u
    ensures BucketStart(t, resolution) <= BucketStart(u, resolution)
  {
    BucketStartForm(t, resolution);
    BucketStartForm(u, resolution);
    if Hour(t) == Hour(u) {
      FloorToMonotone(Minute(t), Minute(u), StepMinutes(resolution));
    }
  }

  /** Python's `round` of the exact quotient: nearest, ties to even. */
  function RoundHalfEven(num: int, den: nat): int
    requires den > 0
  {
    var q := num / den;
    var r := num % den;
    if 2 * r < den || (2 * r == den && q % 2 == 0) then q else q + 1
  }

  lemma RoundNearest(num: int, den: nat)
    requires den > 0
    ensures -(den as int) <= 2 * (RoundHalfEven(num, den) * den - num) <= den
  {
    var q := num / den;
    assert num == q * den + num % den;
    assert (q + 1) * den == q * den + den;
  }

  /** `r` is the quotient rounded to the nearest integer, and to the even one of two that are equally near. */
  ghost predicate IsRounded(r: int, num: int, den: nat) {
    && -(den as int) <= 2 * (r * den - num) <= den
    && (2 * (r * den - num) == den || 2 * (num - r * den) == den ==> r % 2 == 0)
  }

  lemma RoundIsRounded(num: int, den: nat)
    requires den > 0
    ensures IsRounded(RoundHalfEven(num, den), num, den)
  {
    RoundNearest(num, den);
    var q := num / den;
    assert num == q * den + num % den;
    assert (q + 1) * den == q * den + den;
  }

  /** A larger quotient never rounds to a smaller integer. */
  lemma RoundMonotone(a: int, b: int, den: nat)
    requires den > 0 && a <= b
    ensures RoundHalfEven(a, den) <= RoundHalfEven(b, den)
  {
    var p, q := a / den, b / den;
    assert a == p * den + a % den && b == q * den + b % den;
    if q < p {
      MulGap(q, p, den);
    } else if p < q {
      MulGap(p, q, den);
    }
  }

  /** Rounding a quotient that lies between two integers stays between them. */
  lemma RoundBetween(num: int, den: nat, lo: int, hi: int)
    requires den > 0 && lo * den <= num <= hi * den
    ensures lo <= RoundHalfEven(num, den) <= hi
  {
    RoundNearest(num, den);
    var r := RoundHalfEven(num, den);
    if r < lo {
      MulGap(r, lo, den);
    }
    if hi < r {
      MulGap(hi, r, den);
    }
  }

  function Sum(s: seq<int>): int {
    if s == [] then 0 else Sum(Front(s)) + Last(s)
  }

  function Min(s: seq<int>): (m: int)
    requires s != []
    ensures m in s && forall x :: x in s ==> m <= x
  {
    FrontLast(s);
    if |s| == 1 then s[0]
    else if Last(s) < Min(Front(s)) then Last(s) else Min(Front(s))
  }

  function Max(s: seq<int>): (m: int)
    requires s != []
    ensures m in s && forall x :: x in s ==> x <= m
  {
    FrontLast(s);
    if |s| == 1 then s[0]
    else if Max(Front(s)) < Last(s) then Last(s) else Max(Front(s))
  }

  lemma {:induction false} SumBounds(s: seq<int>, lo: int, hi: int)
    requires forall i :: 0 <= i < |s| ==> lo <= s[i] <= hi
    ensures lo * |s| <= Sum(s) <= hi * |s|
  {
    if s != [] {
      FrontLast(s);
      SumBounds(Front(s), lo, hi);
      MulStepRight(lo, |Front(s)|);
      MulStepRight(hi, |Front(s)|);
    }
  }

  function Average(s: seq<int>): (r: int)
    requires s != []
    ensures Min(s) <= r <= Max(s) && IsRounded(r, Sum(s), |s|)
  {
    RoundIsRounded(Sum(s), |s|);
    assert forall i :: 0 <= i < |s| ==> s[i] in s;
    SumBounds(s, Min(s), Max(s));
    RoundBetween(Sum(s), |s|, Min(s), Max(s));
    RoundHalfEven(Sum(s), |s|)
  }

  predicate IsSorted(s: seq<int>) {
    forall i, j :: 0 <= i < j < |s| ==> s[i] <= s[j]
  }

  function Insert(x: int, s: seq<int>): (r: seq<int>)
    requires IsSorted(s)
    ensures IsSorted(r) && multiset(r) == multiset(s) + multiset{x}
    ensures |r| == |s| + 1 && forall y :: y in r <==> y == x || y in s
  {
    if s == [] || Last(s) <= x then SortedSnoc(s, x); s + [x]
    else
      var r := Insert(x, Front(s));
      FrontLast(s);
      assert forall y :: y in r ==> y <= Last(s);
      SortedSnoc(r, Last(s));
      r + [Last(s)]
  }

  lemma SortedSnoc(s: seq<int>, x: int)
    requires IsSorted(s) && (s == [] || Last(s) <= x || forall y :: y in s ==> y <= x)
    ensures IsSorted(s + [x]) && multiset(s + [x]) == multiset(s) + multiset{x}
    ensures forall y :: y in s + [x] <==> y == x || y in s
  {
    assert forall i :: 0 <= i < |s| ==> s[i] in s;
  }

  function Sorted(s: seq<int>): (r: seq<int>)
    ensures IsSorted(r) && multiset(r) == multiset(s) && |r| == |s|
  {
    if s == [] then []
    else
      FrontLast(s);
      Insert(Last(s), Sorted(Front(s)))
  }

  /** The ranks around `(n-1)*num/den` in a sorted sample of `n` values. */
  function LowRank(n: nat, num: nat, den: nat): (low: nat)
    requires 0 < n && 0 < den && num <= den
    ensures low < n
  {
    RankInRange(n - 1, num, den);
    (n - 1) * num / den
  }

  function HighRank(n: nat, num: nat, den: nat): (high: nat)
    requires 0 < n && 0 < den && num <= den
    ensures LowRank(n, num, den) <= high < n
    ensures high <= LowRank(n, num, den) + 1
  {
    if LowRank(n, num, den) + 1 < n - 1 then LowRank(n, num, den) + 1 else n - 1
  }

  /** `_percentile` for the fraction `num/den`: interpolate between the two ranks around (n-1)*num/den. */
  function Percentile(values: seq<int>, num: nat, den: nat): (r: Option<int>)
    requires 0 < den && num <= den
    ensures r == None <==> values == []
  {
    if values == [] then None else Some(PercentileOfSorted(Sorted(values), num, den))
  }

  function PercentileOfSorted(s: seq<int>, num: nat, den: nat): int
    requires 0 < den && num <= den && s != []
  {
    if |s| == 1 then s[0]
    else
      var k := (|s| - 1) * num;
      var low := LowRank(|s|, num, den);
      var high := HighRank(|s|, num, den);
      if low == high then s[low]
      else Interpolate(s[low], s[high], high * den - k, k - low * den, den)
  }

  function Interpolate(a: int, b: int, wa: int, wb: int, den: nat): int
    requires den > 0
  {
    RoundHalfEven(a * wa + b * wb, den)
  }

  lemma RankInRange(n: nat, num: nat, den: nat)
    requires 0 < den && num <= den
    ensures 0 <= n * num / den <= n
    ensures n * num / den * den <= n * num < n * num / den * den + den
  {
    DivSandwich(n * num, den);
    MulMonotone(num, den, n);
    DivAtMost(n * num, n, den);
  }

  lemma DivAtMost(a: nat, b: nat, den: nat)
    requires 0 < den && a <= b * den
    ensures a / den <= b
  {
    DivSandwich(a, den);
    if b < a / den {
      MulGap(b, a / den, den);
    }
  }

  lemma {:induction false} SortedMembers(values: seq<int>)
    ensures forall x :: x in Sorted(values) <==> x in values
  {
    forall x ensures x in Sorted(values) <==> x in values {
      assert x in Sorted(values) <==> x in multiset(Sorted(values));
      assert x in values <==> x in multiset(values);
    }
  }

  /** A rounded convex combination, with weights adding up to `den`, lies between its ends. */
  lemma InterpolateBetween(a: int, b: int, wa: nat, wb: nat, den: nat)
    requires den > 0 && a <= b && wa + wb == den
    ensures a <= Interpolate(a, b, wa, wb, den) <= b
  {
    MulMonotone(a, b, wa);
    MulMonotone(a, b, wb);
    assert a * den == a * wa + a * wb && b * den == b * wa + b * wb;
    RoundBetween(a * wa + b * wb, den, a, b);
  }

  /** The percentile lies between two adjacent order statistics. */
  lemma PercentileBetweenRanks(s: seq<int>, num: nat, den: nat)
    requires 0 < den && num <= den && s != [] && IsSorted(s)
    ensures s[LowRank(|s|, num, den)] <= PercentileOfSorted(s, num, den) <= s[HighRank(|s|, num, den)]
  {
    var low, high := LowRank(|s|, num, den), HighRank(|s|, num, den);
    if |s| > 1 && low != high {
      var k := (|s| - 1) * num;
      RankWeights(|s|, num, den);
      InterpolateBetween(s[low], s[high], high * den - k, k - low * den, den);
    }
  }

  lemma RankWeights(n: nat, num: nat, den: nat)
    requires 1 < n && 0 < den && num <= den
    requires LowRank(n, num, den) != HighRank(n, num, den)
    ensures var low, high, k := LowRank(n, num, den), HighRank(n, num, den), (n - 1) * num;
            high * den - k >= 0 && k - low * den >= 0 && high * den - k + (k - low * den) == den
  {
    var low := LowRank(n, num, den);
    RankInRange(n - 1, num, den);
    assert (low + 1) * den == low * den + den;
  }

  /** The percentile lies between the sample's minimum and maximum. */
  lemma {:induction false} PercentileBetween(values: seq<int>, num: nat, den: nat)
    requires 0 < den && num <= den && values != []
    ensures Min(values) <= Percentile(values, num, den).value <= Max(values)
  {
    SortedMembers(values);
    PercentileBetweenRanks(Sorted(values), num, den);
    assert Sorted(values)[LowRank(|values|, num, den)] in values;
    assert Sorted(values)[HighRank(|values|, num, den)] in values;
  }

  // ----- what the percentile is -----

  /** `den` times the height, at `num/den` of the way from the first to the last value, of the polyline through the
      sorted values; `i` is a rank before that place. */
  function LineHeight(s: seq<int>, num: nat, den: nat, i: nat): int
    requires i + 1 < |s|
  {
    var k := (|s| - 1) * num;
    ((i + 1) * den - k) * s[i] + (k - i * den) * s[i + 1]
  }

  /** The place lies on the segment from rank `i` to the next one. */
  predicate OnSegment(n: nat, num: nat, den: nat, i: nat) {
    i + 1 < n && i * den <= (n - 1) * num <= (i + 1) * den
  }

  lemma SegmentOfRank(n: nat, num: nat, den: nat, i: nat)
    requires 1 < n && 0 < den && num <= den && OnSegment(n, num, den, i)
    ensures LowRank(n, num, den) == i || (LowRank(n, num, den) == i + 1 && (n - 1) * num == (i + 1) * den)
  {
    var k, low := (n - 1) * num, LowRank(n, num, den);
    RankInRange(n - 1, num, den);
    if low < i {
      MulGap(low, i, den);
    } else if i + 1 < low {
      MulGap(i + 1, low, den);
    } else if low == i + 1 {
      assert low * den <= k;
    }
  }

  /** At a rank the percentile is the value of that rank. */
  lemma SortedAtRank(s: seq<int>, num: nat, den: nat, i: nat)
    requires 0 < den && num <= den && s != [] && i < |s| && (|s| - 1) * num == i * den
    ensures PercentileOfSorted(s, num, den) == s[i]
  {
    if |s| > 1 {
      var k := (|s| - 1) * num;
      RankInRange(|s| - 1, num, den);
      DivUnique(k, den, i);
      if i + 1 < |s| {
        assert (i + 1) * den - k == den;
        WholeRounds(s[i], den);
        assert s[i] * den + s[i + 1] * 0 == s[i] * den;
      }
    }
  }

  lemma WholeRounds(a: int, den: nat)
    requires den > 0
    ensures RoundHalfEven(a * den, den) == a
  {
    RoundBetween(a * den, den, a, a);
  }

  /** Where the place lies strictly before the last rank, the percentile is taken between its rank and the next. */
  lemma SortedBeforeLast(s: seq<int>, num: nat, den: nat, i: nat)
    requires 0 < den && num <= den && |s| > 1 && i + 1 < |s| && LowRank(|s|, num, den) == i
    ensures PercentileOfSorted(s, num, den) == RoundHalfEven(LineHeight(s, num, den, i), den)
  {
    var k := (|s| - 1) * num;
    var wa, wb := (i + 1) * den - k, k - i * den;
    assert PercentileOfSorted(s, num, den) == Interpolate(s[i], s[i + 1], wa, wb, den);
    SameProducts(s[i], s[i + 1], wa, wb);
  }

  lemma SameProducts(a: int, b: int, wa: int, wb: int)
    ensures a * wa + b * wb == wa * a + wb * b
  {}

  lemma HeightAtEnd(s: seq<int>, num: nat, den: nat, i: nat)
    requires i + 1 < |s| && (|s| - 1) * num == (i + 1) * den
    ensures LineHeight(s, num, den, i) == s[i + 1] * den
  {
    MulStep(i, den);
    var wa, wb := (i + 1) * den - (|s| - 1) * num, (|s| - 1) * num - i * den;
    assert wa == 0 && wb == den;
    assert wa * s[i] == 0;
  }

  /** The percentile is the rounded height of the polyline, on whichever segment the place lies. */
  lemma SortedOnSegment(s: seq<int>, num: nat, den: nat, i: nat)
    requires 0 < den && num <= den && OnSegment(|s|, num, den, i)
    ensures PercentileOfSorted(s, num, den) == RoundHalfEven(LineHeight(s, num, den, i), den)
  {
    SegmentOfRank(|s|, num, den, i);
    if LowRank(|s|, num, den) == i {
      SortedBeforeLast(s, num, den, i);
    } else {
      SortedAtRank(s, num, den, i + 1);
      HeightAtEnd(s, num, den, i);
      WholeRounds(s[i + 1], den);
    }
  }

  lemma SegmentExists(n: nat, num: nat, den: nat) returns (i: nat)
    requires 1 < n && 0 < den && num <= den
    ensures OnSegment(n, num, den, i)
  {
    var low := LowRank(n, num, den);
    RankInRange(n - 1, num, den);
    MulStep(low, den);
    i := if low == n - 1 then n - 2 else low;
    MulStep(i, den);
    MulMonotone(num, den, n - 1);
  }

  lemma SortedIsRounded(s: seq<int>, num: nat, den: nat, i: nat, height: int)
    requires 0 < den && num <= den && OnSegment(|s|, num, den, i) && height == LineHeight(s, num, den, i)
    ensures IsRounded(PercentileOfSorted(s, num, den), height, den)
  {
    SortedOnSegment(s, num, den, i);
    RoundIsRounded(height, den);
  }

  lemma FrontBag(s: seq<int>)
    requires s != []
    ensures Last(s) in multiset(s) && multiset(Front(s)) == multiset(s) - multiset{Last(s)}
  {
    FrontLast(s);
    assert multiset(Front(s) + [Last(s)]) == multiset(Front(s)) + multiset{Last(s)};
  }

  lemma SameLast(a: seq<int>, b: seq<int>)
    requires IsSorted(a) && IsSorted(b) && multiset(a) == multiset(b) && a != []
    ensures b != [] && Last(a) == Last(b) && multiset(Front(a)) == multiset(Front(b))
  {
    SameSize(a, b);
    FrontBag(a);
    FrontBag(b);
    LastIsGreatest(a, Last(b));
    LastIsGreatest(b, Last(a));
  }

  /** Sorted lists of the same values are equal. */
  lemma {:induction false} SortedIsUnique(a: seq<int>, b: seq<int>)
    requires IsSorted(a) && IsSorted(b) && multiset(a) == multiset(b)
    ensures a == b
  {
    SameSize(a, b);
    if a != [] {
      SameLast(a, b);
      SortedIsUnique(Front(a), Front(b));
      FrontLast(a);
      FrontLast(b);
    }
  }

  lemma SameSize(a: seq<int>, b: seq<int>)
    requires multiset(a) == multiset(b)
    ensures |a| == |b|
  {
    assert |multiset(a)| == |a| && |multiset(b)| == |b|;
  }

  lemma LastIsGreatest(s: seq<int>, x: int)
    requires IsSorted(s) && x in multiset(s)
    ensures s != [] && x <= Last(s)
  {
    assert x in s;
    var i :| 0 <= i < |s| && s[i] == x;
  }

  lemma PercentileSorts(values: seq<int>, s: seq<int>, num: nat, den: nat)
    requires 0 < den && num <= den && values != [] && IsSorted(s) && multiset(s) == multiset(values)
    ensures s != [] && Percentile(values, num, den) == Some(PercentileOfSorted(s, num, den))
  {
    SortedIsUnique(s, Sorted(values));
  }

  /** The percentile of any values is the rounded height of the polyline through them in ascending order. */
  lemma PercentileIsInterpolation(values: seq<int>, s: seq<int>, num: nat, den: nat, i: nat)
    requires 0 < den && num <= den && IsSorted(s) && multiset(s) == multiset(values) && OnSegment(|s|, num, den, i)
    ensures Percentile(values, num, den).Some?
    ensures IsRounded(Percentile(values, num, den).value, LineHeight(s, num, den, i), den)
  {
    SameSize(s, values);
    PercentileSorts(values, s, num, den);
    SortedIsRounded(s, num, den, i, LineHeight(s, num, den, i));
  }

  /** Where the fraction hits a rank exactly, the percentile is the value of that rank in ascending order. */
  lemma PercentileAtRank(values: seq<int>, s: seq<int>, num: nat, den: nat, i: nat)
    requires 0 < den && num <= den && IsSorted(s) && multiset(s) == multiset(values)
    requires i < |s| && (|s| - 1) * num == i * den
    ensures Percentile(values, num, den) == Some(s[i])
  {
    SameSize(s, values);
    PercentileSorts(values, s, num, den);
    SortedAtRank(s, num, den, i);
  }

  lemma LineRises(s: seq<int>, num: nat, num': nat, den: nat, i: nat)
    requires IsSorted(s) && i + 1 < |s| && num <= num'
    ensures LineHeight(s, num, den, i) <= LineHeight(s, num', den, i)
  {
    var k, k' := (|s| - 1) * num, (|s| - 1) * num';
    var a, b := s[i], s[i + 1];
    MulMonotone(num, num', |s| - 1);
    assert ((i + 1) * den - k) * a + (k - i * den) * b == ((i + 1) * den) * a - (i * den) * b + k * (b - a);
    assert ((i + 1) * den - k') * a + (k' - i * den) * b == ((i + 1) * den) * a - (i * den) * b + k' * (b - a);
    assert k * (b - a) <= k' * (b - a) by {
      MulMonotone(k, k', b - a);
    }
  }

  lemma LineBelowEnd(s: seq<int>, num: nat, den: nat, i: nat)
    requires IsSorted(s) && OnSegment(|s|, num, den, i)
    ensures s[i] * den <= LineHeight(s, num, den, i) <= s[i + 1] * den
  {
    var k := (|s| - 1) * num;
    var wa, wb := (i + 1) * den - k, k - i * den;
    MulStep(i, den);
    MulMonotone(s[i], s[i + 1], wa);
    MulMonotone(s[i], s[i + 1], wb);
    assert s[i] * den == s[i] * wa + s[i] * wb && s[i + 1] * den == s[i + 1] * wa + s[i + 1] * wb;
    assert wa * s[i] == s[i] * wa && wb * s[i + 1] == s[i + 1] * wb;
  }

  /** The percentile never falls when the fraction rises. */
  lemma PercentileMonotone(values: seq<int>, num: nat, num': nat, den: nat)
    requires 0 < den && num <= num' <= den && values != []
    ensures Percentile(values, num, den).value <= Percentile(values, num', den).value
  {
    var s := Sorted(values);
    if |s| > 1 {
      var i := SegmentExists(|s|, num, den);
      var j := SegmentExists(|s|, num', den);
      SortedOnSegment(s, num, den, i);
      SortedOnSegment(s, num', den, j);
      LineMonotone(s, num, num', den, i, j);
      RoundMonotone(LineHeight(s, num, den, i), LineHeight(s, num', den, j), den);
    }
  }

  lemma LineMonotone(s: seq<int>, num: nat, num': nat, den: nat, i: nat, j: nat)
    requires IsSorted(s) && 0 < den && num <= num' && OnSegment(|s|, num, den, i) && OnSegment(|s|, num', den, j)
    ensures LineHeight(s, num, den, i) <= LineHeight(s, num', den, j)
  {
    LineBelowEnd(s, num, den, i);
    LineBelowEnd(s, num', den, j);
    if i == j {
      LineRises(s, num, num', den, i);
    } else if i < j {
      MulMonotone(s[i + 1], s[j], den);
    } else {
      BackwardsIsEqual(|s|, num, num', den, i, j);
      assert LineHeight(s, num, den, i) == s[i] * den;
      assert LineHeight(s, num', den, j) == s[j + 1] * den;
    }
  }

  /** A later place lies on an earlier segment only where the two segments meet. */
  lemma BackwardsIsEqual(n: nat, num: nat, num': nat, den: nat, i: nat, j: nat)
    requires 0 < den && num <= num' && OnSegment(n, num, den, i) && OnSegment(n, num', den, j) && j < i
    ensures j + 1 == i && (n - 1) * num == i * den == (n - 1) * num'
  {
    MulMonotone(num, num', n - 1);
    if j + 1 < i {
      MulGap(j + 1, i, den);
    }
  }

  /** For example two values: the percentile divides the distance between them in the ratio of the fraction. */
  lemma PercentileOfTwo(a: int, b: int, num: nat, den: nat)
    requires 0 < den && num <= den && a <= b
    ensures IsRounded(Percentile([a, b], num, den).value, (den - num) * a + num * b, den)
  {
    PercentileIsInterpolation([a, b], [a, b], num, den, 0);
    assert LineHeight([a, b], num, den, 0) == (den - num) * a + num * b;
  }

  /** Availability in percent: the rounded share of `up` among the known checks. */
  function Availability(up: nat, known: nat): (r: Option<int>)
    requires up <= known
    ensures r == None <==> known == 0
    ensures r.Some? ==> 0 <= r.value <= 100 && IsRounded(r.value, 100 * up, known)
  {
    if known == 0 then None
    else
      RoundBetween(100 * up, known, 0, 100);
      RoundIsRounded(100 * up, known);
      Some(RoundHalfEven(100 * up, known))
  }
}
