/**
 Views of precomputed features "as of" a time. Features are computed over every
 bar of a replay, the future included, and sliced; the slice must be what the
 bars up to that time alone would have given.
 */
module Features {
  import opened Types
  import opened Sorting
  import opened Frames
  import opened Aggregation
  import opened Resampling
  import opened Indicators

  /** Number of rows before the limit, found from the back of a sorted frame. */
  function SearchLeft<V>(f: seq<Stamped<V>>, limit: int): (n: nat)
    ensures n <= |f|
  {
    if f == [] then 0
    else if f[|f| - 1].ts < limit then |f|
    else SearchLeft(f[..|f| - 1], limit)
  }

  function Before<V>(f: seq<Stamped<V>>, limit: int): seq<Stamped<V>> {
    f[..SearchLeft(f, limit)]
  }

  /** Up to a minute the bar at the time itself is visible; above, only buckets before the current one. */
  function Limit(tf: int, asOf: int): int
    requires tf > 0
  {
    if tf <= MINUTE then asOf + 1 else Bucket(asOf, tf)
  }

  function SliceAsOf<V>(f: seq<Stamped<V>>, tf: int, asOf: Option<int>): seq<Stamped<V>>
    requires tf > 0
  {
    if asOf.None? then f else Before(f, Limit(tf, asOf.value))
  }

  /** The latest visible row, found by position without slicing. */
  function LatestBar<V>(f: seq<Stamped<V>>, tf: int, asOf: Option<int>): Option<Stamped<V>>
    requires tf > 0
  {
    if f == [] then None
    else if asOf.None? then Some(f[|f| - 1])
    else
      var pos := SearchLeft(f, Limit(tf, asOf.value)) - 1;
      if pos < 0 then None else Some(f[pos])
  }

  /** Candles of a timeframe made from one-minute source rows. */
  function TimeframeBars(source: Candles, tf: int): Candles
    requires tf > 0
  {
    if tf == MINUTE then source else Resample(source, tf, 0)
  }

  // ---------------------------------------------------------------- searching

  lemma {:induction false} SearchSplits<V>(f: seq<Stamped<V>>, limit: int)
    requires NonDecreasing(f)
    ensures var n := SearchLeft(f, limit);
            && (forall i :: 0 <= i < n ==> f[i].ts < limit)
            && (forall i :: n <= i < |f| ==> f[i].ts >= limit)
  {
    if f != [] && f[|f| - 1].ts >= limit {
      SearchSplits(f[..|f| - 1], limit);
    }
  }

  lemma SearchIs<V>(f: seq<Stamped<V>>, limit: int, n: nat)
    requires n <= |f|
    requires forall i :: 0 <= i < n ==> f[i].ts < limit
    requires forall i :: n <= i < |f| ==> f[i].ts >= limit
    ensures SearchLeft(f, limit) == n
  {
    if f != [] && n < |f| {
      SearchIs(f[..|f| - 1], limit, n);
    }
  }

  lemma IncreasingIsNonDecreasing<V>(f: seq<Stamped<V>>)
    requires Increasing(f)
    ensures NonDecreasing(f)
  {
  }

  lemma BeforeTwice<V>(f: seq<Stamped<V>>, first: int, second: int)
    requires NonDecreasing(f) && first <= second
    ensures Before(Before(f, second), first) == Before(f, first)
  {
    hide SearchLeft;
    SearchSplits(f, first);
    SearchSplits(f, second);
    var n, m := SearchLeft(f, first), SearchLeft(f, second);
    assert m < |f| ==> f[m].ts >= second;
    assert n <= m;
    SearchIs(f[..m], first, n);
  }

  /** The latest visible row is the last of the slice. */
  lemma LatestIsLast<V>(f: seq<Stamped<V>>, tf: int, asOf: Option<int>)
    requires tf > 0
    ensures var seen := SliceAsOf(f, tf, asOf);
            LatestBar(f, tf, asOf) == if seen == [] then None else Some(seen[|seen| - 1])
  {
    hide Limit;
  }

  /** Every visible row of a resampled frame lies in a bucket that is over. */
  lemma OnlyFinishedBuckets(f: Candles, tf: int, asOf: int, i: nat)
    requires tf > MINUTE && NonDecreasing(f) && i < |SliceAsOf(f, tf, Some(asOf))| && f[i].ts % tf == 0
    ensures f[i].ts + tf <= asOf
  {
    SearchSplits(f, Bucket(asOf, tf));
    BucketAligned(asOf, tf);
    BucketIs(f[i].ts, tf, Bucket(asOf, tf));
    hide Bucket;
    AlignedApart(f[i].ts, Bucket(asOf, tf), tf);
  }

  /**
   A view is a first part of the frame: up to a minute the rows no later than
   the time, above it those before the start of the bucket the time is in, and
   without a time all of them.
   */
  lemma ViewShows<V>(f: seq<Stamped<V>>, tf: int, asOf: int, start: int, i: nat)
    requires tf > 0 && NonDecreasing(f) && i < |f|
    requires start % tf == 0 && start <= asOf < start + tf
    ensures var view := SliceAsOf(f, tf, Some(asOf));
            && view <= f
            && (i < |view| <==> if tf <= 60 then f[i].ts <= asOf else f[i].ts < start)
    ensures SliceAsOf(f, tf, None) == f
  {
    SearchSplits(f, Limit(tf, asOf));
    BucketIs(asOf, tf, start);
    hide SearchLeft, Bucket;
  }

  lemma AlignedApart(a: int, b: int, tf: int)
    requires tf > 0 && a % tf == 0 && b % tf == 0 && a < b
    ensures a + tf <= b
  {
    DivMod(a, tf);
    DivMod(b, tf);
    if a / tf >= b / tf {
      AtMost(b / tf, a / tf, tf);
    } else {
      AtMost(a / tf + 1, b / tf, tf);
    }
  }

  lemma AtMost(m: int, n: int, d: int)
    requires m <= n && d > 0
    ensures m * d <= n * d
  {
  }

  // ---------------------------------------------------------------- indicators see only the slice

  lemma StableSlice<V(!new)>(f: Candles -> Series<V>, bars: Candles, limit: int)
    requires PrefixStable(f) && NonDecreasing(bars)
    ensures Before(f(bars), limit) == f(Before(bars, limit))
  {
    hide SearchLeft;
    var n := SearchLeft(bars, limit);
    SearchSplits(bars, limit);
    SearchIs(f(bars), limit, n);
    assert f(bars[..n]) == f(bars)[..n];
  }

  // ---------------------------------------------------------------- resampling and slicing commute

  lemma {:induction false} InBucketBefore(bars: Candles, tf: int, b: int, limit: int)
    requires tf > 0 && b % tf == 0 && limit % tf == 0 && NonDecreasing(bars)
    ensures InBucket(Before(bars, limit), tf, b) == if b < limit then InBucket(bars, tf, b) else []
  {
    hide Bucket;
    if bars != [] {
      var init, x := bars[..|bars| - 1], bars[|bars| - 1];
      BucketIs(x.ts, tf, b);
      if b < limit { AlignedApart(b, limit, tf); }
      if x.ts >= limit {
        InBucketBefore(init, tf, b, limit);
        assert Before(bars, limit) == Before(init, limit);
      } else {
        assert Before(bars, limit) == bars;
        if b >= limit { NoneFrom(bars, tf, b, limit); }
      }
    }
  }

  lemma {:induction false} NoneFrom(bars: Candles, tf: int, b: int, limit: int)
    requires tf > 0 && b % tf == 0 && b >= limit
    requires forall i :: 0 <= i < |bars| ==> bars[i].ts < limit
    ensures InBucket(bars, tf, b) == []
  {
    hide Bucket;
    if bars != [] {
      NoneFrom(bars[..|bars| - 1], tf, b, limit);
      BucketIs(bars[|bars| - 1].ts, tf, b);
    }
  }

  function Restricted<V>(m: map<int, V>, limit: int): map<int, V> {
    map t | t in m && t < limit :: m[t]
  }

  lemma {:induction false} BeforeSays<V>(f: seq<Stamped<V>>, limit: int)
    requires Increasing(f)
    ensures Increasing(Before(f, limit)) && MapOf(Before(f, limit)) == Restricted(MapOf(f), limit)
  {
    hide MapOf;
    if f == [] {
      EmptySays<V>();
    } else {
      var init, x := f[..|f| - 1], f[|f| - 1];
      if x.ts >= limit {
        BeforeSays(init, limit);
        assert Before(f, limit) == Before(init, limit);
        assert f == init + [x];
        MapSnoc(init, x);
      } else {
        assert Before(f, limit) == f;
        AllIn(f, limit);
      }
    }
  }

  lemma AllIn<V>(f: seq<Stamped<V>>, limit: int)
    requires Increasing(f) && (f != [] ==> f[|f| - 1].ts < limit)
    ensures Restricted(MapOf(f), limit) == MapOf(f)
  {
    forall t | t in MapOf(f) ensures t < limit {
      MapKeys(f, t);
    }
  }

  /** What the batch aggregate says. */
  lemma DirectSays(bars: Candles, tf: int)
    requires tf > 0
    ensures Increasing(Direct(bars, tf))
    ensures forall b :: b in MapOf(Direct(bars, tf)) <==> b in BucketsOf(bars, tf)
    ensures forall b :: b in BucketsOf(bars, tf) ==>
              InBucket(bars, tf, b) != [] && MapOf(Direct(bars, tf))[b] == Aggregate(InBucket(bars, tf, b))
  {
    hide Bucket, BucketsOf, Aggregate, InBucket, MapOf;
    var f := Direct(bars, tf);
    DirectShape(bars, tf);
    forall b ensures b in MapOf(f) <==> b in BucketsOf(bars, tf) {
      MapKeys(f, b);
    }
    forall b | b in BucketsOf(bars, tf)
      ensures InBucket(bars, tf, b) != [] && MapOf(f)[b] == Aggregate(InBucket(bars, tf, b))
    {
      BucketNonEmpty(bars, tf, b);
      EachSays(bars, tf, Sorted(BucketsOf(bars, tf)), b);
    }
  }

  lemma EachSays(bars: Candles, tf: int, buckets: seq<int>, b: int)
    requires tf > 0 && (forall x :: x in buckets ==> x in BucketsOf(bars, tf))
    requires b in buckets
    ensures var f := AggregateEach(bars, tf, buckets);
            b in MapOf(f) && InBucket(bars, tf, b) != [] && MapOf(f)[b] == Aggregate(InBucket(bars, tf, b))
  {
    hide BucketsOf, Aggregate, InBucket;
    var init, last := buckets[..|buckets| - 1], buckets[|buckets| - 1];
    BucketNonEmpty(bars, tf, b);
    assert last in buckets;
    MapSnoc(AggregateEach(bars, tf, init), AggregateAt(bars, tf, last));
    if b != last {
      assert b in init;
      EachSays(bars, tf, init, b);
    }
  }

  predicate Full(bars: Candles, tf: int, b: int)
    requires tf > 0
  {
    |InBucket(bars, tf, b)| == Expected(tf)
  }

  function OnlyFull(m: map<int, Ohlcv>, bars: Candles, tf: int): map<int, Ohlcv>
    requires tf > 0
  {
    map t | t in m && Full(bars, tf, t) :: m[t]
  }

  lemma OnlyFullPut(m: map<int, Ohlcv>, c: Stamped<Ohlcv>, bars: Candles, tf: int)
    requires tf > 0 && c.ts !in m
    ensures OnlyFull(m[c.ts := c.value], bars, tf)
         == if Full(bars, tf, c.ts) then OnlyFull(m, bars, tf)[c.ts := c.value] else OnlyFull(m, bars, tf)
  {
    hide Full;
  }

  lemma FullCountSnoc(init: Candles, c: Stamped<Ohlcv>, bars: Candles, tf: int)
    requires tf > 0
    ensures FullCount(init + [c], bars, tf)
         == if Full(bars, tf, c.ts) then FullCount(init, bars, tf) + [c] else FullCount(init, bars, tf)
  {
    assert (init + [c])[..|init|] == init;
  }

  lemma {:induction false} FullCountShape(candles: Candles, bars: Candles, tf: int)
    requires tf > 0 && Increasing(candles)
    ensures var f := FullCount(candles, bars, tf);
            && Increasing(f)
            && (f != [] ==> candles != [] && f[|f| - 1].ts <= candles[|candles| - 1].ts)
  {
    if candles != [] {
      hide Full, Increasing, FullCount, MapOf;
      var init, c := candles[..|candles| - 1], candles[|candles| - 1];
      assert candles == init + [c];
      FullCountSnoc(init, c, bars, tf);
      InitIncreasing(candles);
      FullCountShape(init, bars, tf);
      LastOfIncreasing(init, c);
      IncreasingSnoc(FullCount(init, bars, tf), c);
    }
  }

  lemma {:induction false} FullCountSays(candles: Candles, bars: Candles, tf: int)
    requires tf > 0 && Increasing(candles)
    ensures MapOf(FullCount(candles, bars, tf)) == OnlyFull(MapOf(candles), bars, tf)
  {
    if candles == [] {
      EmptySays<Ohlcv>();
      NoneFull(bars, tf);
    } else {
      hide MapOf, Full, Increasing, OnlyFull, FullCount;
      var init, c := candles[..|candles| - 1], candles[|candles| - 1];
      assert candles == init + [c];
      FullCountSnoc(init, c, bars, tf);
      InitIncreasing(candles);
      FullCountSays(init, bars, tf);
      LastOfIncreasing(init, c);
      MapSnoc(init, c);
      MapSnoc(FullCount(init, bars, tf), c);
      OnlyFullPut(MapOf(init), c, bars, tf);
    }
  }

  lemma NoneFull(bars: Candles, tf: int)
    requires tf > 0
    ensures OnlyFull(map[], bars, tf) == map[]
  {
  }

  /** What an intraday resample says: the complete buckets, each with its aggregate. */
  ghost predicate SaysComplete(m: map<int, Ohlcv>, bars: Candles, tf: int)
    requires tf > 0
  {
    && (forall b :: b in m <==> b in BucketsOf(bars, tf) && |InBucket(bars, tf, b)| == Expected(tf))
    && (forall b :: b in m ==> InBucket(bars, tf, b) != [] && m[b] == Aggregate(InBucket(bars, tf, b)))
  }

  lemma ResampleSays(bars: Candles, tf: int)
    requires 0 < tf < DAY
    ensures Increasing(Resample(bars, tf, 0)) && SaysComplete(MapOf(Resample(bars, tf, 0)), bars, tf)
  {
    hide Bucket, BucketsOf, Aggregate, InBucket, MapOf, Direct, FullCount, Expected, Increasing;
    DirectSays(bars, tf);
    FullCountShape(Direct(bars, tf), bars, tf);
    FullCountSays(Direct(bars, tf), bars, tf);
  }

  /** Resampling the rows before the start of a bucket is resampling everything and cutting there. */
  lemma ResampleBefore(bars: Candles, tf: int, limit: int)
    requires 0 < tf < DAY && limit % tf == 0 && Increasing(bars)
    ensures Resample(Before(bars, limit), tf, 0) == Before(Resample(bars, tf, 0), limit)
  {
    hide Bucket, BucketsOf, Aggregate, InBucket, MapOf, Resample, Before, Expected, Increasing;
    var x, y := Resample(Before(bars, limit), tf, 0), Before(Resample(bars, tf, 0), limit);
    ResampleSays(Before(bars, limit), tf);
    ResampleSays(bars, tf);
    BeforeSays(Resample(bars, tf, 0), limit);
    BucketsAligned(bars, tf);
    BucketsAligned(Before(bars, limit), tf);
    IncreasingIsNonDecreasing(bars);
    forall b | b % tf == 0
      ensures b in MapOf(x) <==> b in MapOf(y)
      ensures b in MapOf(x) ==> MapOf(x)[b] == MapOf(y)[b]
    {
      InBucketBefore(bars, tf, b, limit);
      BucketNonEmpty(bars, tf, b);
      BucketNonEmpty(Before(bars, limit), tf, b);
    }
    assert MapOf(x) == MapOf(y);
    FrameUnique(x, y);
  }

  // ---------------------------------------------------------------- preloading leaks nothing

  /**
   One-minute features computed over a whole replay and sliced at a time are
   the features of the bars up to that time.
   */
  lemma NoLeakMinute<V(!new)>(f: Candles -> Series<V>, all: Candles, asOf: int)
    requires PrefixStable(f) && Increasing(all)
    ensures SliceAsOf(f(TimeframeBars(all, MINUTE)), MINUTE, Some(asOf)) == f(Before(all, asOf + 1))
    ensures var past := Before(all, asOf + 1);
            SliceAsOf(f(TimeframeBars(past, MINUTE)), MINUTE, Some(asOf)) == f(past)
  {
    hide PrefixStable, Increasing, Before;
    IncreasingIsNonDecreasing(all);
    StableSlice(f, all, asOf + 1);
    BeforeTwice(all, asOf + 1, asOf + 1);
    BeforeSays(all, asOf + 1);
    IncreasingIsNonDecreasing(Before(all, asOf + 1));
    StableSlice(f, Before(all, asOf + 1), asOf + 1);
  }

  /**
   Features of a resampled intraday timeframe depend only on the rows before
   the current bucket: whatever rows from there on are known, delivered or
   not, the view is the one computed from those rows alone.
   */
  lemma NoLeakIntraday<V(!new)>(f: Candles -> Series<V>, all: Candles, tf: int, asOf: int, known: int)
    requires PrefixStable(f) && Increasing(all) && MINUTE < tf < DAY && Bucket(asOf, tf) <= known
    ensures var view := f(Resample(Before(all, Bucket(asOf, tf)), tf, 0));
            && SliceAsOf(f(TimeframeBars(all, tf)), tf, Some(asOf)) == view
            && SliceAsOf(f(TimeframeBars(Before(all, known), tf)), tf, Some(asOf)) == view
  {
    hide PrefixStable, Increasing, Before, Bucket, Resample;
    var start := Bucket(asOf, tf);
    BucketAligned(asOf, tf);
    IncreasingIsNonDecreasing(all);
    ViewOfResampled(f, all, tf, start);
    BeforeSays(all, known);
    ViewOfResampled(f, Before(all, known), tf, start);
    BeforeTwice(all, start, known);
  }

  lemma ViewOfResampled<V(!new)>(f: Candles -> Series<V>, bars: Candles, tf: int, start: int)
    requires PrefixStable(f) && Increasing(bars) && MINUTE < tf < DAY && start % tf == 0
    ensures Before(f(Resample(bars, tf, 0)), start) == f(Resample(Before(bars, start), tf, 0))
  {
    hide PrefixStable, Before, Bucket, Resample;
    ResampleBefore(bars, tf, start);
    ResampleSays(bars, tf);
    IncreasingIsNonDecreasing(Resample(bars, tf, 0));
    StableSlice(f, Resample(bars, tf, 0), start);
  }

  /**
   Of an instrument whose bar at the current time has not been delivered yet,
   the one-minute view already shows that bar: it equals the view of what was
   delivered exactly when there is no such bar.
   */
  lemma MinuteViewSeesOwnTime(all: Candles, asOf: int)
    requires Increasing(all)
    ensures SliceAsOf(all, MINUTE, Some(asOf)) == Before(all, asOf) <==> !Occurs(all, asOf)
  {
    hide SearchLeft;
    IncreasingIsNonDecreasing(all);
    SearchSplits(all, asOf);
    SearchSplits(all, asOf + 1);
    var n, m := SearchLeft(all, asOf), SearchLeft(all, asOf + 1);
    if Occurs(all, asOf) {
      var i :| 0 <= i < |all| && all[i].ts == asOf;
      assert n <= i < m;
      assert |Before(all, asOf + 1)| == m && |Before(all, asOf)| == n;
    } else {
      SearchIs(all, asOf + 1, n);
    }
  }

  /** A bar at the current time, not delivered yet, is in the view. */
  lemma UndeliveredBarShows(bar: Ohlcv, asOf: int)
    ensures var all := [Stamped(asOf, bar)];
            SliceAsOf(all, MINUTE, Some(asOf)) == all && Before(all, asOf) == []
  {
    var all := [Stamped(asOf, bar)];
    hide SearchLeft;
    SearchIs(all, asOf, 0);
    SearchIs(all, asOf + 1, 1);
  }

  // ---------------------------------------------------------------- daily bars

  /** There is a row at or after the time. */
  predicate ReachesTo(bars: Candles, time: int) { bars != [] && bars[|bars| - 1].ts >= time }

  lemma DirectBefore(bars: Candles, tf: int, limit: int)
    requires tf > 0 && limit % tf == 0 && Increasing(bars)
    ensures Direct(Before(bars, limit), tf) == Before(Direct(bars, tf), limit)
  {
    hide Bucket, BucketsOf, Aggregate, InBucket, MapOf, Direct, Before, Increasing;
    var x, y := Direct(Before(bars, limit), tf), Before(Direct(bars, tf), limit);
    DirectSays(Before(bars, limit), tf);
    DirectSays(bars, tf);
    BeforeSays(Direct(bars, tf), limit);
    BucketsAligned(bars, tf);
    BucketsAligned(Before(bars, limit), tf);
    IncreasingIsNonDecreasing(bars);
    forall b | b % tf == 0
      ensures b in MapOf(x) <==> b in MapOf(y)
      ensures b in MapOf(x) ==> MapOf(x)[b] == MapOf(y)[b]
    {
      InBucketBefore(bars, tf, b, limit);
      BucketNonEmpty(bars, tf, b);
      BucketNonEmpty(Before(bars, limit), tf, b);
    }
    assert MapOf(x) == MapOf(y);
    FrameUnique(x, y);
  }

  /** The last daily candle starts on the day of the last row. */
  lemma LastCandle(bars: Candles)
    requires Increasing(bars) && bars != []
    ensures var candles := Direct(bars, DAY);
            candles != [] && candles[|candles| - 1].ts == Bucket(bars[|bars| - 1].ts, DAY)
  {
    hide Bucket, BucketsOf, Direct, Increasing;
    var candles, top := Direct(bars, DAY), Bucket(bars[|bars| - 1].ts, DAY);
    DirectShape(bars, DAY);
    LastBucketIn(bars, DAY);
    LatestBucket(bars);
    assert Occurs(candles, top);
    var i :| 0 <= i < |candles| && candles[i].ts == top;
    OccursAt(candles, |candles| - 1);
    IncreasingAt(candles, i);
  }

  lemma IncreasingAt(f: Candles, i: nat)
    requires Increasing(f) && i < |f|
    ensures f[i].ts <= f[|f| - 1].ts
  {
  }

  lemma LatestBucket(bars: Candles)
    requires Increasing(bars) && bars != []
    ensures forall b :: b in BucketsOf(bars, DAY) ==> b <= Bucket(bars[|bars| - 1].ts, DAY)
  {
    hide Bucket;
    forall i | 0 <= i < |bars| ensures Bucket(bars[i].ts, DAY) <= Bucket(bars[|bars| - 1].ts, DAY) {
      IncreasingAt(bars, i);
      BucketMonotone(bars[i].ts, bars[|bars| - 1].ts, DAY);
    }
    BucketsBounded(bars, DAY, Bucket(bars[|bars| - 1].ts, DAY));
  }

  lemma BucketMonotone(a: int, b: int, tf: int)
    requires tf > 0 && a <= b
    ensures Bucket(a, tf) <= Bucket(b, tf)
  {
    BucketAligned(a, tf);
    BucketAligned(b, tf);
    hide Bucket;
    if Bucket(b, tf) < Bucket(a, tf) {
      AlignedApart(Bucket(b, tf), Bucket(a, tf), tf);
    }
  }

  function WithoutLast<V>(f: seq<V>): seq<V> { if f == [] then [] else f[..|f| - 1] }

  /** A daily view shows the days before; the latest of them only once a later day has a row. */
  lemma DailyView(bars: Candles, day: int)
    requires Increasing(bars) && day % DAY == 0
    ensures var days := Direct(Before(bars, day), DAY);
            Before(Resample(bars, DAY, 0), day) == if ReachesTo(bars, day) then days else WithoutLast(days)
  {
    hide Bucket, Direct, Increasing, SearchLeft;
    IncreasingIsNonDecreasing(bars);
    DirectShape(bars, DAY);
    DirectBefore(bars, DAY, day);
    var candles := Direct(bars, DAY);
    IncreasingIsNonDecreasing(candles);
    if bars == [] {
      NothingDirect(DAY);
    } else {
      LastCandle(bars);
      BucketIs(bars[|bars| - 1].ts, DAY, day);
      var last := bars[|bars| - 1].ts;
      DayOrder(last, day);
      if ReachesTo(bars, day) {
        DropLate(candles, day);
      } else {
        AllBefore(bars, day);
        AllBefore(candles, day);
        AllBefore(WithoutLast(candles), day);
      }
    }
  }

  lemma DayOrder(ts: int, day: int)
    requires day % DAY == 0
    ensures Bucket(ts, DAY) >= day <==> ts >= day
  {
    BucketAligned(ts, DAY);
    hide Bucket;
    if Bucket(ts, DAY) < day { AlignedApart(Bucket(ts, DAY), day, DAY); }
  }

  lemma DropLate<V>(f: seq<Stamped<V>>, limit: int)
    requires f != [] && f[|f| - 1].ts >= limit
    ensures Before(f[..|f| - 1], limit) == Before(f, limit)
  {
  }

  lemma AllBefore<V>(f: seq<Stamped<V>>, limit: int)
    requires NonDecreasing(f) && (f != [] ==> f[|f| - 1].ts < limit)
    ensures Before(f, limit) == f
  {
  }

  /**
   With daily bars the future can show: the view over the whole replay equals
   the view over the bars up to now exactly when today already has a bar, or
   nothing follows, or nothing came before today.
   */
  lemma DailyLeak(all: Candles, asOf: int)
    requires Increasing(all)
    ensures var today := Bucket(asOf, DAY);
            var past := Before(all, asOf + 1);
            SliceAsOf(TimeframeBars(all, DAY), DAY, Some(asOf)) == SliceAsOf(TimeframeBars(past, DAY), DAY, Some(asOf))
            <==> ReachesTo(past, today) || !ReachesTo(all, asOf + 1) || Before(all, today) == []
  {
    hide Bucket, Direct, Resample, Increasing, Before;
    var today, past := Bucket(asOf, DAY), Before(all, asOf + 1);
    BucketAligned(asOf, DAY);
    IncreasingIsNonDecreasing(all);
    BeforeSays(all, asOf + 1);
    BeforeTwice(all, today, asOf + 1);
    DailyView(all, today);
    DailyView(past, today);
    DaysShow(Before(all, today));
    PastReaches(all, asOf, today);
  }

  /** With no bar today yet, a bar of tomorrow is what makes yesterday's candle show. */
  lemma TomorrowShowsYesterday(bar: Ohlcv)
    ensures var all, asOf := [Stamped(0, bar), Stamped(2 * DAY, bar)], DAY;
            var past := Before(all, asOf + 1);
            && SliceAsOf(TimeframeBars(all, DAY), DAY, Some(asOf)) != []
            && SliceAsOf(TimeframeBars(past, DAY), DAY, Some(asOf)) == []
  {
    var all, asOf := [Stamped(0, bar), Stamped(2 * DAY, bar)], DAY;
    var past := Before(all, asOf + 1);
    assert Bucket(asOf, DAY) == DAY;
    SearchTwo(all, asOf);
    SearchTwo(all, asOf + 1);
    assert past == [all[0]] && Before(past, DAY) == past by {
      AllBefore(past, DAY);
    }
    hide Bucket, Direct, Resample, Before;
    DailyView(all, DAY);
    DailyView(past, DAY);
    LastCandle(past);
    OneCandle(past);
  }

  lemma SearchTwo(all: Candles, limit: int)
    requires |all| == 2 && all[0].ts < limit <= all[1].ts
    ensures Before(all, limit) == [all[0]]
  {
    SearchSplits(all, limit);
  }

  lemma OneCandle(bars: Candles)
    requires |bars| == 1
    ensures |Direct(bars, DAY)| <= 1
  {
    DirectShape(bars, DAY);
    hide Direct, Bucket;
    assert |Direct(bars, DAY)| > 1 ==> Direct(bars, DAY)[0].ts < Direct(bars, DAY)[1].ts;
    assert bars[..0] == [];
    assert BucketsOf(bars, DAY) == {Bucket(bars[0].ts, DAY)};
    forall i | 0 <= i < |Direct(bars, DAY)| ensures Direct(bars, DAY)[i].ts == Bucket(bars[0].ts, DAY) {
      assert Occurs(Direct(bars, DAY), Direct(bars, DAY)[i].ts);
    }
  }

  lemma DaysShow(bars: Candles)
    ensures Direct(bars, DAY) == WithoutLast(Direct(bars, DAY)) <==> bars == []
  {
    DirectShape(bars, DAY);
    hide Bucket, Direct;
    if bars != [] {
      LastBucketIn(bars, DAY);
      assert Occurs(Direct(bars, DAY), Bucket(bars[|bars| - 1].ts, DAY));
    } else {
      NothingDirect(DAY);
    }
  }

  lemma PastReaches(all: Candles, asOf: int, today: int)
    requires NonDecreasing(all) && today <= asOf
    ensures ReachesTo(all, today) <==> ReachesTo(Before(all, asOf + 1), today) || ReachesTo(all, asOf + 1)
  {
    hide SearchLeft;
    SearchSplits(all, asOf + 1);
    var n := SearchLeft(all, asOf + 1);
    if n == |all| {
      assert all[..n] == all;
    } else {
      assert all[n].ts >= asOf + 1 && all[|all| - 1].ts >= all[n].ts;
    }
  }
}
