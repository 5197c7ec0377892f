/**
 Fast-event gating: a strategy with a coarser evaluation timeframe is asked for
 entries only when a new bar of that timeframe has been completed, which is
 worked out from the latest one-minute timestamp without resampling.
 */
module EvaluationGate {
  import opened Types
  import opened Frames
  import opened Aggregation
  import opened Resampling
  import opened Features

  /** Start of the latest completed bucket, counted within the UTC day it starts in. */
  function CompletedStart(latest: int, tf: int): int
    requires tf > 0
  {
    var candidate := latest - tf;
    var anchor := Bucket(candidate, DAY);
    anchor + (candidate - anchor) / tf * tf
  }

  lemma CompletedBounds(latest: int, tf: int)
    requires tf > 0
    ensures var s, anchor := CompletedStart(latest, tf), Bucket(latest - tf, DAY);
            anchor <= s <= latest - tf < s + tf && latest - tf < anchor + DAY
  {
    BucketAligned(latest - tf, DAY);
    var elapsed := latest - tf - Bucket(latest - tf, DAY);
    hide Bucket;
    DivMod(elapsed, tf);
    if elapsed / tf < 0 {
      AtLeastOne(-(elapsed / tf), tf);
    }
    NotNegative(elapsed / tf, tf);
  }

  lemma NotNegative(q: int, d: int)
    requires d > 0
    ensures q >= 0 ==> q * d >= 0
    ensures -q * d == -(q * d)
  {
  }

  lemma MultipleOf(m: int, b: int, d: int)
    requires d > 0 && m > 0 && m % d == 0 && b % m == 0
    ensures b % d == 0
  {
    var k, n := b / m, m / d;
    assert b == k * m && m == n * d;
    assert b == (k * n) * d;
    MultipleMod(k * n, d);
  }

  /** For a timeframe that divides a day, it is the bucket before the one the latest bar is in. */
  lemma PreviousBucket(latest: int, tf: int)
    requires tf > 0 && DAY % tf == 0
    ensures CompletedStart(latest, tf) == Bucket(latest, tf) - tf
  {
    var anchor, elapsed := Bucket(latest - tf, DAY), latest - tf - Bucket(latest - tf, DAY);
    BucketAligned(latest - tf, DAY);
    MultipleOf(DAY, anchor, tf);
    BucketAligned(elapsed, tf);
    BucketAligned(latest, tf);
    var s, b := CompletedStart(latest, tf), Bucket(latest, tf);
    CompletedBounds(latest, tf);
    hide Bucket;
    SumAligned(anchor, elapsed / tf, tf);
    SumAligned(s, 1, tf);
    SameSlot(s + tf, b, latest, tf);
  }

  lemma SumAligned(a: int, q: int, tf: int)
    requires tf > 0 && a % tf == 0
    ensures (a + q * tf) % tf == 0
  {
    DivMod(a, tf);
    assert a + q * tf == (a / tf + q) * tf;
    MultipleMod(a / tf + q, tf);
  }

  lemma SameSlot(a: int, b: int, ts: int, tf: int)
    requires tf > 0 && a % tf == 0 && b % tf == 0 && a <= ts < a + tf && b <= ts < b + tf
    ensures a == b
  {
    hide Bucket;
    BucketIs(ts, tf, a);
    BucketIs(ts, tf, b);
  }

  /** A day and one bar after the epoch the completed bucket is the day's start, aligned or not. */
  lemma DayStart(tf: int)
    requires tf > 0
    ensures CompletedStart(DAY + tf, tf) == DAY
  {
    assert Bucket(DAY, DAY) == DAY;
  }

  lemma OnlyIfDividing(tf: int)
    requires tf > 0 && CompletedStart(DAY + tf, tf) == Bucket(DAY + tf, tf) - tf
    ensures DAY % tf == 0
  {
    DayStart(tf);
    BucketAligned(DAY + tf, tf);
    hide Bucket, CompletedStart;
    SumAligned(DAY + tf, -1, tf);
    assert DAY + tf + -1 * tf == DAY;
  }

  /** And only for such timeframes. */
  lemma PreviousBucketIff(tf: int)
    requires tf > 0
    ensures (forall latest :: CompletedStart(latest, tf) == Bucket(latest, tf) - tf) <==> DAY % tf == 0
  {
    hide Bucket, CompletedStart;
    if DAY % tf == 0 {
      forall latest ensures CompletedStart(latest, tf) == Bucket(latest, tf) - tf {
        PreviousBucket(latest, tf);
      }
    }
    if CompletedStart(DAY + tf, tf) == Bucket(DAY + tf, tf) - tf {
      OnlyIfDividing(tf);
    }
  }

  lemma CompletedMonotone(a: int, b: int, tf: int)
    requires tf > 0 && a <= b
    ensures CompletedStart(a, tf) <= CompletedStart(b, tf)
  {
    var x, y := Bucket(a - tf, DAY), Bucket(b - tf, DAY);
    CompletedBounds(a, tf);
    CompletedBounds(b, tf);
    if x == y {
      Quotients(a - tf - x, b - tf - x, tf);
    } else {
      BucketMonotone(a - tf, b - tf, DAY);
      BucketAligned(a - tf, DAY);
      BucketAligned(b - tf, DAY);
      hide Bucket;
      AlignedApart(x, y, DAY);
    }
  }

  lemma Quotients(a: int, b: int, d: int)
    requires d > 0 && a <= b
    ensures a / d * d <= b / d * d
  {
    BucketMonotone(a, b, d);
  }

  // ---------------------------------------------------------------- the gate

  /** Whether to ask, and the bucket remembered for next time. */
  function Ask(last: Option<int>, latest: Option<int>, tf: int): (bool, Option<int>)
    requires tf > 0
  {
    if tf <= MINUTE then (true, last)
    else if latest.None? then (false, last)
    else
      var start := CompletedStart(latest.value, tf);
      if last == Some(start) then (false, last) else (true, Some(start))
  }

  /** Remembered bucket and answers after a run of latest timestamps. */
  function Asked(times: seq<int>, tf: int): (Option<int>, seq<bool>)
    requires tf > 0
  {
    if times == [] then (None, [])
    else
      var (last, answers) := Asked(times[..|times| - 1], tf);
      var (ask, last') := Ask(last, Some(times[|times| - 1]), tf);
      (last', answers + [ask])
  }

  predicate NonDecreasingTimes(times: seq<int>) {
    forall i, j :: 0 <= i <= j < |times| ==> times[i] <= times[j]
  }

  /** The first time a bucket is the latest completed one. */
  predicate FirstOfBucket(times: seq<int>, tf: int, n: int)
    requires tf > 0 && 0 <= n < |times|
  {
    forall k :: 0 <= k < n ==> CompletedStart(times[k], tf) != CompletedStart(times[n], tf)
  }

  /** As time goes on, the gate opens exactly once for every completed bucket, at its first sight. */
  lemma {:induction false} OncePerBucket(times: seq<int>, tf: int)
    requires tf > MINUTE && NonDecreasingTimes(times)
    ensures var (last, answers) := Asked(times, tf);
            && |answers| == |times|
            && last == (if times == [] then None else Some(CompletedStart(times[|times| - 1], tf)))
            && forall n :: 0 <= n < |times| ==> (answers[n] <==> FirstOfBucket(times, tf, n))
  {
    hide CompletedStart;
    if times != [] {
      var init, t := times[..|times| - 1], times[|times| - 1];
      OncePerBucket(init, tf);
      forall n | 0 <= n < |init| ensures FirstOfBucket(init, tf, n) <==> FirstOfBucket(times, tf, n) {
        forall k | 0 <= k < |init| ensures init[k] == times[k] {
        }
        PrefixFirst(init, t, tf, n);
        assert times == init + [t];
      }
      LatestDecides(times, tf);
    }
  }

  /** Up to a minute the gate is always open and remembers nothing; above, it stays shut until a bar has come. */
  lemma {:induction false} SmallAlwaysAsk(times: seq<int>, tf: int)
    requires tf > 0
    ensures tf <= 60 ==>
              var (last, answers) := Asked(times, tf);
              last == None && |answers| == |times| && forall n :: 0 <= n < |times| ==> answers[n]
    ensures forall last :: Ask(last, None, tf) == (tf <= 60, last)
  {
    if times != [] && tf <= 60 {
      SmallAlwaysAsk(times[..|times| - 1], tf);
    }
  }

  lemma PrefixFirst(init: seq<int>, t: int, tf: int, n: nat)
    requires tf > 0 && n < |init|
    ensures FirstOfBucket(init, tf, n) <==> FirstOfBucket(init + [t], tf, n)
  {
    hide CompletedStart;
    var all := init + [t];
    assert forall k :: 0 <= k <= n ==> all[k] == init[k];
    if FirstOfBucket(all, tf, n) {
      forall k | 0 <= k < n ensures CompletedStart(init[k], tf) != CompletedStart(init[n], tf) {
        assert CompletedStart(all[k], tf) != CompletedStart(all[n], tf);
      }
    }
  }

  /** In time order only the previous timestamp can share the bucket. */
  lemma LatestDecides(times: seq<int>, tf: int)
    requires tf > 0 && NonDecreasingTimes(times) && times != []
    ensures var n := |times| - 1;
            FirstOfBucket(times, tf, n) <==> n == 0 || CompletedStart(times[n - 1], tf) != CompletedStart(times[n], tf)
  {
    var n := |times| - 1;
    forall k | 0 <= k < n
      ensures CompletedStart(times[k], tf) <= CompletedStart(times[n - 1], tf) <= CompletedStart(times[n], tf)
    {
      CompletedMonotone(times[k], times[n - 1], tf);
      CompletedMonotone(times[n - 1], times[n], tf);
    }
    hide CompletedStart;
  }

  // ---------------------------------------------------------------- the bar the views call latest

  /**
   The completed bucket is the latest bar of the as-of view exactly when no
   minute of it is missing.
   */
  lemma GateAndView(bars: Candles, tf: int, asOf: int)
    requires MINUTE < tf < DAY && DAY % tf == 0 && tf % MINUTE == 0 && Increasing(bars) && OnMinutes(bars)
    ensures var latest := LatestBar(TimeframeBars(bars, tf), tf, Some(asOf));
            var start := CompletedStart(asOf, tf);
            latest.Some? && latest.value.ts == start
            <==> forall j :: 0 <= j < tf / MINUTE ==> Occurs(bars, MinuteAfter(start, j))
  {
    hide CompletedStart, LatestBar, Resample, Bucket, InBucket, MapOf, OnMinutes, Occurs, MinuteAfter, Expected;
    var view, start := Resample(bars, tf, 0), CompletedStart(asOf, tf);
    PreviousBucket(asOf, tf);
    BucketAligned(asOf, tf);
    SumAligned(Bucket(asOf, tf), -1, tf);
    assert Bucket(asOf, tf) + -1 * tf == start;
    FullMeansEveryMinute(bars, tf, start);
    ResampleSays(bars, tf);
    BucketsAligned(bars, tf);
    BucketNonEmpty(bars, tf, start);
    ExpectedPositive(tf);
    assert start in MapOf(view) <==> |InBucket(bars, tf, start)| == Expected(tf);
    LatestIsLast(view, tf, Some(asOf));
    LastBefore(view, tf, Bucket(asOf, tf));
  }

  lemma ExpectedPositive(tf: int)
    ensures Expected(tf) > 0
  {
  }

  /** Of aligned rows the last one before a bucket is at most one bucket earlier. */
  lemma LastBefore(f: Candles, tf: int, limit: int)
    requires tf > 0 && limit % tf == 0 && Increasing(f) && forall t :: t in MapOf(f) ==> t % tf == 0
    ensures var seen := Before(f, limit);
            seen != [] && seen[|seen| - 1].ts == limit - tf <==> limit - tf in MapOf(f)
  {
    hide MapOf, SearchLeft;
    var seen, start := Before(f, limit), limit - tf;
    BeforeSays(f, limit);
    if start in MapOf(f) {
      assert start in MapOf(seen);
      MapKeys(seen, start);
      var i :| 0 <= i < |seen| && seen[i].ts == start;
      var last := seen[|seen| - 1].ts;
      MapAt(seen, |seen| - 1);
      assert last in MapOf(f) && last < limit;
      SumAligned(limit, -1, tf);
      assert limit + -1 * tf == start;
      NoRoom(start, last, tf);
    } else if seen != [] {
      MapAt(seen, |seen| - 1);
      assert seen[|seen| - 1].ts in MapOf(f);
    }
  }

  lemma NoRoom(a: int, b: int, tf: int)
    requires tf > 0 && a % tf == 0 && b % tf == 0 && a <= b < a + tf
    ensures a == b
  {
    if a < b {
      AlignedApart(a, b, tf);
    }
  }

  // ---------------------------------------------------------------- in place

  class Gate {
    const fastEvents: bool
    const timeframes: map<StrategyId, int>
    var lastEvaluationBars: map<StrategyId, int>

    constructor (fastEvents: bool, timeframes: map<StrategyId, int>)
      ensures lastEvaluationBars == map[] && this.timeframes == timeframes && this.fastEvents == fastEvents
    {
      this.fastEvents, this.timeframes := fastEvents, timeframes;
      lastEvaluationBars := map[];
    }

    function Last(s: StrategyId): Option<int>
      reads this
    {
      if s in lastEvaluationBars then Some(lastEvaluationBars[s]) else None
    }

    /** The latest timestamp of the strategy's instrument is absent twice over when it has no manager. */
    method ShouldGenerateEntry(s: StrategyId, latest: Option<Option<int>>) returns (ask: bool)
      requires forall k :: k in timeframes ==> timeframes[k] > 0
      modifies this
      ensures !fastEvents || s !in timeframes || latest.None? ==> ask && lastEvaluationBars == old(lastEvaluationBars)
      ensures fastEvents && s in timeframes && latest.Some? ==> (ask, Last(s)) == Ask(old(Last(s)), latest.value, timeframes[s])
      ensures forall k :: k != s ==> Last(k) == old(Last(k))
    {
      hide CompletedStart;
      if !fastEvents || s !in timeframes || timeframes[s] <= MINUTE || latest.None? {
        return true;
      }
      if latest.value.None? {
        return false;
      }
      var start := CompletedStart(latest.value.value, timeframes[s]);
      if s in lastEvaluationBars && start == lastEvaluationBars[s] {
        return false;
      }
      lastEvaluationBars := lastEvaluationBars[s := start];
      return true;
    }
  }
}
