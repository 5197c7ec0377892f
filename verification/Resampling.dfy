/**
 Resampling one-minute bars to a coarser timeframe: only complete intraday
 buckets are kept, and building minutes first changes nothing.
 */
module Resampling {
  import opened Types
  import opened Sorting
  import opened Frames
  import opened Aggregation

  function Expected(tf: int): int {
    if tf / MINUTE >= 1 then tf / MINUTE else 1
  }

  /** The candles whose bucket holds exactly the expected number of minute rows. */
  function FullCount(candles: Candles, bars: Candles, tf: int): Candles
    requires tf > 0
  {
    if candles == [] then []
    else
      var earlier, c := FullCount(candles[..|candles| - 1], bars, tf), candles[|candles| - 1];
      if |InBucket(bars, tf, c.ts)| == Expected(tf) then earlier + [c] else earlier
  }

  function Latest<V>(f: seq<V>, count: int): seq<V> {
    if count > 0 && |f| > count then f[|f| - count..] else f
  }

  /** Intraday buckets must be full; of daily and longer ones the latest is dropped as unfinished. */
  function Resample(bars: Candles, tf: int, lookback: int): Candles
    requires tf > 0
  {
    var candles := Direct(bars, tf);
    var finished :=
      if tf < DAY then FullCount(candles, bars, tf)
      else if candles == [] then []
      else candles[..|candles| - 1];
    Latest(finished, lookback)
  }

  /** A lookback keeps the latest candles, that many if there are so many, and all without one. */
  lemma LookbackIs(bars: Candles, tf: int, lookback: int)
    requires tf > 0
    ensures var all, seen := Resample(bars, tf, 0), Resample(bars, tf, lookback);
            && |seen| <= |all| && seen == all[|all| - |seen|..]
            && |seen| == (if 0 < lookback < |all| then lookback else |all|)
  {
    hide Direct, FullCount;
  }

  /** A bucket is complete with as many rows as the timeframe has whole minutes, and with one below a minute. */
  lemma CompleteMeans(bars: Candles, tf: int, b: int)
    requires tf > 0
    ensures var n := |InBucket(bars, tf, b)|;
            n == Expected(tf) <==> if tf < 60 then n == 1 else 60 * n <= tf < 60 * (n + 1)
  {
    DivMod(tf, MINUTE);
    hide InBucket, Bucket;
  }

  // ---------------------------------------------------------------- buckets as intervals

  lemma BucketIs(ts: int, tf: int, b: int)
    requires tf > 0 && b % tf == 0
    ensures Bucket(ts, tf) == b <==> b <= ts < b + tf
  {
    DivMod(ts, tf);
    DivMod(b, tf);
    if b <= ts < b + tf {
      QuotientUnique(ts / tf, ts % tf, b / tf, ts - b, tf);
    }
  }

  lemma BucketAligned(ts: int, tf: int)
    requires tf > 0
    ensures Bucket(ts, tf) % tf == 0 && Bucket(ts, tf) <= ts < Bucket(ts, tf) + tf
  {
    DivMod(ts, tf);
    MultipleMod(ts / tf, tf);
  }

  lemma MultipleOfMinute(b: int, tf: int)
    requires tf > 0 && tf % MINUTE == 0 && b % tf == 0
    ensures b % MINUTE == 0
  {
    var k, n := b / tf, tf / MINUTE;
    assert b == k * tf && tf == n * MINUTE;
    assert b == (k * n) * MINUTE;
  }

  /** A minute lies in the same coarse bucket as everything inside it. */
  lemma MinuteInBucket(ts: int, tf: int)
    requires tf > 0 && tf % MINUTE == 0
    ensures Bucket(Bucket(ts, MINUTE), tf) == Bucket(ts, tf)
  {
    var b, m := Bucket(ts, tf), Bucket(ts, MINUTE);
    BucketAligned(ts, tf);
    BucketAligned(ts, MINUTE);
    MultipleOfMinute(b, tf);
    hide Bucket;
    assert b <= m < b + tf;
    BucketIs(m, tf, b);
  }

  // ---------------------------------------------------------------- a full bucket has every minute

  lemma {:induction false} AtLeastIndex(s: seq<int>, i: nat)
    requires StrictlyIncreasing(s) && i < |s| && s[0] >= 0
    ensures s[i] >= i
  {
    if i > 0 {
      AtLeastIndex(s, i - 1);
    }
  }

  lemma {:induction false} AtMostIndex(s: seq<int>, k: int, i: nat)
    requires StrictlyIncreasing(s) && i < |s| && s[|s| - 1] < k
    ensures s[i] <= k - (|s| - i)
    decreases |s| - i
  {
    if i < |s| - 1 {
      AtMostIndex(s, k, i + 1);
    }
  }

  /** Strictly increasing numbers below k are k many exactly when they are all of them. */
  lemma Pigeonhole(s: seq<int>, k: nat)
    requires StrictlyIncreasing(s) && forall i :: 0 <= i < |s| ==> 0 <= s[i] < k
    ensures |s| == k <==> forall j :: 0 <= j < k ==> j in s
  {
    if |s| == k {
      forall j | 0 <= j < k ensures j in s {
        AtLeastIndex(s, j);
        AtMostIndex(s, k, j);
        assert s[j] == j;
      }
    }
    if forall j :: 0 <= j < k ==> j in s {
      var all := seq(k, j => j);
      forall x ensures x in s <==> x in all {
        if 0 <= x < k { assert all[x] == x; }
      }
      SortedUnique(s, all);
    }
  }

  function MinuteNumbers(s: seq<int>, b: int): seq<int> {
    if s == [] then [] else MinuteNumbers(s[..|s| - 1], b) + [(s[|s| - 1] - b) / MINUTE]
  }

  lemma MinuteNumber(ts: int, b: int, k: nat)
    requires b % MINUTE == 0 && ts % MINUTE == 0 && b <= ts < b + k * MINUTE
    ensures 0 <= (ts - b) / MINUTE < k && ts == b + (ts - b) / MINUTE * MINUTE
  {
  }

  lemma {:induction false} MinuteNumbersShape(s: seq<int>, b: int, k: nat)
    requires StrictlyIncreasing(s) && b % MINUTE == 0
    requires forall i :: 0 <= i < |s| ==> b <= s[i] < b + k * MINUTE && s[i] % MINUTE == 0
    ensures var n := MinuteNumbers(s, b);
            |n| == |s| && forall i :: 0 <= i < |s| ==> 0 <= n[i] < k && s[i] == b + n[i] * MINUTE
  {
    if s != [] {
      MinuteNumbersShape(s[..|s| - 1], b, k);
      MinuteNumber(s[|s| - 1], b, k);
    }
  }

  /** Minute number j after time b. */
  function MinuteAfter(b: int, j: int): int { b + j * MINUTE }

  lemma SameNumber(x: int, y: int, b: int)
    ensures b + x * MINUTE == b + y * MINUTE <==> x == y
    ensures b + x * MINUTE < b + y * MINUTE <==> x < y
  {
  }

  lemma NumbersAre(s: seq<int>, n: seq<int>, b: int, j: int)
    requires |n| == |s| && forall i :: 0 <= i < |s| ==> s[i] == b + n[i] * MINUTE
    ensures j in n <==> MinuteAfter(b, j) in s
  {
    var ts := b + j * MINUTE;
    if i :| 0 <= i < |s| && s[i] == ts {
      SameNumber(n[i], j, b);
    }
    if i :| 0 <= i < |n| && n[i] == j {
      assert s[i] == ts;
    }
  }

  lemma NumbersIncrease(s: seq<int>, n: seq<int>, b: int)
    requires |n| == |s| && forall i :: 0 <= i < |s| ==> s[i] == b + n[i] * MINUTE
    requires StrictlyIncreasing(s)
    ensures StrictlyIncreasing(n)
  {
    forall i, j | 0 <= i < j < |n| ensures n[i] < n[j] {
      SameNumber(n[i], n[j], b);
    }
  }

  /** The same for minute timestamps within k minutes of a whole minute. */
  lemma PigeonholeMinutes(s: seq<int>, b: int, k: nat)
    requires StrictlyIncreasing(s) && b % MINUTE == 0
    requires forall i :: 0 <= i < |s| ==> b <= s[i] < b + k * MINUTE && s[i] % MINUTE == 0
    ensures |s| == k <==> forall j :: 0 <= j < k ==> MinuteAfter(b, j) in s
  {
    hide MinuteNumbers, StrictlyIncreasing;
    var n := MinuteNumbers(s, b);
    MinuteNumbersShape(s, b, k);
    NumbersIncrease(s, n, b);
    Pigeonhole(n, k);
    forall j ensures j in n <==> MinuteAfter(b, j) in s {
      NumbersAre(s, n, b, j);
    }
  }

  /** Timestamps of the rows in a bucket. */
  function TimesIn(bars: Candles, tf: int, b: int): seq<int>
    requires tf > 0
  {
    if bars == [] then []
    else
      var earlier, e := TimesIn(bars[..|bars| - 1], tf, b), bars[|bars| - 1];
      if Bucket(e.ts, tf) == b then earlier + [e.ts] else earlier
  }

  predicate OnMinutes(bars: Candles) {
    forall i :: 0 <= i < |bars| ==> bars[i].ts % MINUTE == 0
  }

  lemma {:induction false} TimesInShape(bars: Candles, tf: int, b: int)
    requires tf > 0 && b % tf == 0 && Increasing(bars) && OnMinutes(bars)
    ensures var s := TimesIn(bars, tf, b);
            && |s| == |InBucket(bars, tf, b)|
            && StrictlyIncreasing(s)
            && (forall i :: 0 <= i < |s| ==> b <= s[i] < b + tf && s[i] % MINUTE == 0)
            && (forall i :: 0 <= i < |s| ==> s[i] <= bars[|bars| - 1].ts)
  {
    hide Bucket;
    if bars != [] {
      TimesInShape(bars[..|bars| - 1], tf, b);
      BucketIs(bars[|bars| - 1].ts, tf, b);
    }
  }

  lemma {:induction false} TimesInAre(bars: Candles, tf: int, b: int, ts: int)
    requires tf > 0 && b % tf == 0
    ensures ts in TimesIn(bars, tf, b) <==> Occurs(bars, ts) && b <= ts < b + tf
  {
    hide Bucket, Occurs;
    if bars != [] {
      TimesInAre(bars[..|bars| - 1], tf, b, ts);
      BucketIs(bars[|bars| - 1].ts, tf, b);
      OccursSnoc(bars);
    } else {
      NothingOccurs<Ohlcv>(ts);
    }
  }

  lemma NothingOccurs<V>(ts: int)
    ensures !Occurs<V>([], ts)
  {
  }

  lemma OccursSnoc<V>(f: seq<Stamped<V>>)
    requires f != []
    ensures forall ts :: Occurs(f, ts) <==> Occurs(f[..|f| - 1], ts) || ts == f[|f| - 1].ts
  {
    var init := f[..|f| - 1];
    forall ts ensures Occurs(f, ts) <==> Occurs(init, ts) || ts == f[|f| - 1].ts {
      if Occurs(init, ts) {
        var n :| 0 <= n < |init| && init[n].ts == ts;
        assert f[n].ts == ts;
      }
      if n :| 0 <= n < |f| && f[n].ts == ts {
        assert n < |init| ==> init[n].ts == ts;
      }
    }
  }

  /** The completeness test by count says that no minute of the bucket is missing. */
  lemma FullMeansEveryMinute(bars: Candles, tf: int, b: int)
    requires tf > 0 && tf % MINUTE == 0 && b % tf == 0 && Increasing(bars) && OnMinutes(bars)
    ensures |InBucket(bars, tf, b)| == Expected(tf) <==> forall j :: 0 <= j < tf / MINUTE ==> Occurs(bars, MinuteAfter(b, j))
  {
    hide Bucket, Occurs, TimesIn, InBucket, Increasing, OnMinutes;
    var s, k := TimesIn(bars, tf, b), tf / MINUTE;
    TimesInShape(bars, tf, b);
    MultipleOfMinute(b, tf);
    assert tf == k * MINUTE && k >= 1;
    PigeonholeMinutes(s, b, k);
    forall j | 0 <= j < k ensures MinuteAfter(b, j) in s <==> Occurs(bars, MinuteAfter(b, j)) {
      TimesInAre(bars, tf, b, MinuteAfter(b, j));
    }
  }

  // ---------------------------------------------------------------- minutes first, or directly

  lemma InBucketSnoc(bars: Candles, e: Stamped<Ohlcv>, tf: int, b: int)
    requires tf > 0
    ensures InBucket(bars + [e], tf, b)
         == if Bucket(e.ts, tf) == b then InBucket(bars, tf, b) + [e.value] else InBucket(bars, tf, b)
  {
    assert (bars + [e])[..|bars|] == bars;
  }

  /** Every coarse aggregate of minute candles is the aggregate of the source bars. */
  lemma {:induction false} MinutesFirst(bars: Candles, tf: int, b: int)
    requires tf > 0 && tf % MINUTE == 0 && BucketsInOrder(bars, MINUTE)
    ensures var x, y := InBucket(Direct(bars, MINUTE), tf, b), InBucket(bars, tf, b);
            (x == [] <==> y == []) && (x != [] ==> Aggregate(x) == Aggregate(y))
  {
    hide Bucket, Direct, InBucket, Aggregate, Accumulated, BucketsOf;
    if bars == [] {
      NothingDirect(MINUTE);
    } else {
      var init, e := bars[..|bars| - 1], bars[|bars| - 1];
      assert bars == init + [e];
      InitInOrder(init, e, MINUTE);
      MinutesFirst(init, tf, b);
      DirectSnoc(init, e, MINUTE);
      MinuteInBucket(e.ts, tf);
      InBucketSnoc(init, e, tf, b);
      AggregateSnoc(InBucket(init, tf, b), e.value);
      var minutes, m := Direct(init, MINUTE), Bucket(e.ts, MINUTE);
      if m in BucketsOf(init, MINUTE) {
        ExtendedMinute(minutes, e, m, tf, b);
      } else {
        InBucketSnoc(minutes, Stamped(m, e.value), tf, b);
        AggregateSnoc(InBucket(minutes, tf, b), e.value);
      }
    }
  }

  /** Extending the last minute extends the aggregate of its coarse bucket by the same bar. */
  lemma ExtendedMinute(minutes: Candles, e: Stamped<Ohlcv>, m: int, tf: int, b: int)
    requires tf > 0 && minutes != [] && minutes[|minutes| - 1].ts == m
    ensures var last := minutes[|minutes| - 1];
            var x := InBucket(minutes, tf, b);
            var y := InBucket(minutes[..|minutes| - 1] + [Stamped(m, Accumulated(last.value, e.value))], tf, b);
            if Bucket(m, tf) == b then x != [] && y != [] && Aggregate(y) == Accumulated(Aggregate(x), e.value) else y == x
  {
    hide Bucket, InBucket, Aggregate, Accumulated;
    var init, last := minutes[..|minutes| - 1], minutes[|minutes| - 1];
    assert minutes == init + [last];
    InBucketSnoc(init, last, tf, b);
    InBucketSnoc(init, Stamped(m, Accumulated(last.value, e.value)), tf, b);
    var earlier := InBucket(init, tf, b);
    AggregateSnoc(earlier, last.value);
    AggregateSnoc(earlier, Accumulated(last.value, e.value));
    if earlier != [] {
      AccumulatedTwice(Aggregate(earlier), last.value, e.value);
    }
  }

  lemma {:induction false} EachSame(x: Candles, y: Candles, tf: int, buckets: seq<int>)
    requires tf > 0
    requires forall b :: b in buckets ==> b in BucketsOf(x, tf) && b in BucketsOf(y, tf) && AggregateAt(x, tf, b) == AggregateAt(y, tf, b)
    ensures AggregateEach(x, tf, buckets) == AggregateEach(y, tf, buckets)
  {
    hide AggregateAt, BucketsOf;
    if buckets != [] {
      assert buckets[|buckets| - 1] in buckets;
      EachSame(x, y, tf, buckets[..|buckets| - 1]);
    }
  }

  lemma MinutesFirstDirect(bars: Candles, tf: int)
    requires tf > 0 && tf % MINUTE == 0 && BucketsInOrder(bars, MINUTE)
    ensures Direct(Direct(bars, MINUTE), tf) == Direct(bars, tf)
  {
    hide Bucket, InBucket, Aggregate;
    var minutes := Direct(bars, MINUTE);
    forall b ensures b in BucketsOf(minutes, tf) <==> b in BucketsOf(bars, tf) {
      MinutesFirst(bars, tf, b);
      BucketNonEmpty(minutes, tf, b);
      BucketNonEmpty(bars, tf, b);
    }
    assert BucketsOf(minutes, tf) == BucketsOf(bars, tf);
    forall b | b in BucketsOf(bars, tf) ensures AggregateAt(minutes, tf, b) == AggregateAt(bars, tf, b) {
      MinutesFirst(bars, tf, b);
      BucketNonEmpty(bars, tf, b);
    }
    EachSame(minutes, bars, tf, Sorted(BucketsOf(bars, tf)));
  }

  lemma {:induction false} EachStamps(bars: Candles, tf: int, buckets: seq<int>)
    requires tf > 0 && forall b :: b in buckets ==> b in BucketsOf(bars, tf)
    ensures var f := AggregateEach(bars, tf, buckets);
            |f| == |buckets| && forall i :: 0 <= i < |f| ==> f[i].ts == buckets[i]
  {
    hide BucketsOf;
    if buckets != [] {
      EachStamps(bars, tf, buckets[..|buckets| - 1]);
    }
  }

  /** Batch candles come in order, at the starts of the occupied buckets. */
  lemma DirectShape(bars: Candles, tf: int)
    requires tf > 0
    ensures Increasing(Direct(bars, tf))
    ensures forall ts :: Occurs(Direct(bars, tf), ts) <==> ts in BucketsOf(bars, tf)
  {
    hide Bucket, BucketsOf;
    var buckets := Sorted(BucketsOf(bars, tf));
    EachStamps(bars, tf, buckets);
    var f := Direct(bars, tf);
    forall ts ensures Occurs(f, ts) <==> ts in BucketsOf(bars, tf) {
      if ts in BucketsOf(bars, tf) {
        assert ts in buckets;
        var i :| 0 <= i < |buckets| && buckets[i] == ts;
        assert f[i].ts == ts;
      }
      if i :| 0 <= i < |f| && f[i].ts == ts {
        assert buckets[i] in buckets;
      }
    }
  }

  lemma {:induction false} BucketsAligned(bars: Candles, tf: int)
    requires tf > 0
    ensures forall b :: b in BucketsOf(bars, tf) ==> b % tf == 0
  {
    if bars != [] {
      BucketsAligned(bars[..|bars| - 1], tf);
      BucketAligned(bars[|bars| - 1].ts, tf);
      hide Bucket;
    }
  }

  /** No minute of the bucket is without a source bar. */
  predicate EveryMinute(bars: Candles, tf: int, b: int) {
    forall j | 0 <= j < tf / MINUTE :: MinuteAfter(b, j) in BucketsOf(bars, MINUTE)
  }

  function WhereEveryMinute(candles: Candles, bars: Candles, tf: int): Candles {
    if candles == [] then []
    else
      var earlier, c := WhereEveryMinute(candles[..|candles| - 1], bars, tf), candles[|candles| - 1];
      if EveryMinute(bars, tf, c.ts) then earlier + [c] else earlier
  }

  lemma {:induction false} CountIsEveryMinute(candles: Candles, bars: Candles, tf: int)
    requires tf > 0 && tf % MINUTE == 0 && forall i :: 0 <= i < |candles| ==> candles[i].ts % tf == 0
    ensures FullCount(candles, Direct(bars, MINUTE), tf) == WhereEveryMinute(candles, bars, tf)
  {
    hide Bucket, BucketsOf, Direct, Expected, InBucket, EveryMinute;
    if candles != [] {
      CountIsEveryMinute(candles[..|candles| - 1], bars, tf);
      OneCountIsEveryMinute(bars, tf, candles[|candles| - 1].ts);
    }
  }

  lemma OneCountIsEveryMinute(bars: Candles, tf: int, b: int)
    requires tf > 0 && tf % MINUTE == 0 && b % tf == 0
    ensures |InBucket(Direct(bars, MINUTE), tf, b)| == Expected(tf) <==> EveryMinute(bars, tf, b)
  {
    hide Bucket, BucketsOf, Direct, Expected, InBucket, Occurs;
    var minutes := Direct(bars, MINUTE);
    DirectShape(bars, MINUTE);
    BucketsAligned(bars, MINUTE);
    assert OnMinutes(minutes) by {
      forall i | 0 <= i < |minutes| ensures minutes[i].ts % MINUTE == 0 {
        OccursAt(minutes, i);
      }
    }
    FullMeansEveryMinute(minutes, tf, b);
  }

  lemma OccursAt<V>(f: seq<Stamped<V>>, i: nat)
    requires i < |f|
    ensures Occurs(f, f[i].ts)
  {
  }

  /**
   Building minutes from time-ordered source bars and resampling them keeps
   exactly the buckets in which no minute is missing, each aggregated as if
   straight from the source bars.
   */
  lemma TwoStagesAreOne(bars: Candles, tf: int)
    requires 0 < tf < DAY && tf % MINUTE == 0 && BucketsInOrder(bars, MINUTE)
    ensures Resample(Direct(bars, MINUTE), tf, 0) == WhereEveryMinute(Direct(bars, tf), bars, tf)
  {
    hide Bucket, BucketsOf, Direct, FullCount, EveryMinute, Occurs, WhereEveryMinute;
    MinutesFirstDirect(bars, tf);
    DirectShape(bars, tf);
    BucketsAligned(bars, tf);
    var candles := Direct(bars, tf);
    forall i | 0 <= i < |candles| ensures candles[i].ts % tf == 0 {
      OccursAt(candles, i);
    }
    CountIsEveryMinute(candles, bars, tf);
  }

  /** The same for what the live builder emits, its last minute flushed. */
  lemma BuilderThenResampler(bars: Candles, tf: int)
    requires 0 < tf < DAY && tf % MINUTE == 0 && BucketsInOrder(bars, MINUTE)
    ensures var (b, out) := FedAll(bars, MINUTE);
            Resample(out + Flushed(b), tf, 0) == WhereEveryMinute(Direct(bars, tf), bars, tf)
  {
    hide Resample, WhereEveryMinute, FedAll, Direct, BucketsInOrder;
    BuilderIsDirect(bars, MINUTE);
    TwoStagesAreOne(bars, tf);
  }
}
