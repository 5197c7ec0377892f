/**
 Aggregating bars: incrementally, as the live builder does, and in batch with a
 completeness rule, as the resampler does. Time is integer UTC seconds, and
 intraday timeframes divide a day, so that buckets start at multiples of the
 timeframe.
 */
module Aggregation {
  import opened Types
  import opened Sums
  import opened Sorting
  import opened Frames

  datatype Ohlcv = Ohlcv(open: real, high: real, low: real, close: real, volume: real)

  type Candles = seq<Stamped<Ohlcv>>

  const MINUTE: int := 60
  const DAY: int := 86400

  function Bucket(ts: int, tf: int): int
    requires tf > 0
  {
    ts / tf * tf
  }

  function Higher(a: real, b: real): real { if a >= b then a else b }

  function Lower(a: real, b: real): real { if a <= b then a else b }

  // ---------------------------------------------------------------- what an aggregate is

  function MaxHigh(bars: seq<Ohlcv>): real
    requires bars != []
  {
    if |bars| == 1 then bars[0].high else Higher(MaxHigh(bars[..|bars| - 1]), bars[|bars| - 1].high)
  }

  function MinLow(bars: seq<Ohlcv>): real
    requires bars != []
  {
    if |bars| == 1 then bars[0].low else Lower(MinLow(bars[..|bars| - 1]), bars[|bars| - 1].low)
  }

  function Volume(bars: seq<Ohlcv>): real {
    if bars == [] then 0.0 else Volume(bars[..|bars| - 1]) + bars[|bars| - 1].volume
  }

  /** First open, highest high, lowest low, last close, total volume. */
  function Aggregate(bars: seq<Ohlcv>): Ohlcv
    requires bars != []
  {
    Ohlcv(bars[0].open, MaxHigh(bars), MinLow(bars), bars[|bars| - 1].close, Volume(bars))
  }

  /** One more bar on an aggregate under construction. */
  function Accumulated(acc: Ohlcv, bar: Ohlcv): Ohlcv {
    Ohlcv(acc.open, Higher(acc.high, bar.high), Lower(acc.low, bar.low), bar.close, acc.volume + bar.volume)
  }

  lemma AggregateSnoc(bars: seq<Ohlcv>, bar: Ohlcv)
    ensures Aggregate(bars + [bar]) == if bars == [] then Aggregate([bar]) else Accumulated(Aggregate(bars), bar)
    ensures Aggregate([bar]) == bar
  {
    assert (bars + [bar])[..|bars|] == bars;
    assert [bar][..|[bar]| - 1] == [];
    assert Volume([bar]) == Volume([]) + bar.volume;
  }

  /** The highest and the lowest price, the first and the last, and all that was traded. */
  lemma {:induction false} AggregateSays(bars: seq<Ohlcv>)
    requires bars != []
    ensures var a := Aggregate(bars);
            && a.open == bars[0].open && a.close == bars[|bars| - 1].close
            && (forall k :: 0 <= k < |bars| ==> a.low <= bars[k].low && bars[k].high <= a.high)
            && (exists k :: 0 <= k < |bars| && bars[k].low == a.low)
            && (exists k :: 0 <= k < |bars| && bars[k].high == a.high)
            && a.volume == Total(bars, VolumeOf())
  {
    if |bars| == 1 {
      TotalOne(bars[0], VolumeOf());
      assert bars == [bars[0]] && bars[..|bars| - 1] == [];
      assert Volume(bars) == Volume([]) + bars[0].volume;
    } else {
      var init := bars[..|bars| - 1];
      AggregateSays(init);
      var a, b := Aggregate(init), Aggregate(bars);
      var l :| 0 <= l < |init| && init[l].low == a.low;
      var h :| 0 <= h < |init| && init[h].high == a.high;
      assert bars[l] == init[l] && bars[h] == init[h];
      assert bars[|bars| - 1].low == b.low || bars[l].low == b.low;
      assert bars[|bars| - 1].high == b.high || bars[h].high == b.high;
      assert forall k :: 0 <= k < |init| ==> init[k] == bars[k];
    }
  }

  function VolumeOf(): Ohlcv -> real {
    (bar: Ohlcv) => bar.volume
  }

  lemma AccumulatedTwice(a: Ohlcv, b: Ohlcv, c: Ohlcv)
    ensures Accumulated(Accumulated(a, b), c) == Accumulated(a, Accumulated(b, c))
  {
  }

  // ---------------------------------------------------------------- batch

  function BucketsOf(bars: Candles, tf: int): set<int>
    requires tf > 0
  {
    if bars == [] then {} else BucketsOf(bars[..|bars| - 1], tf) + {Bucket(bars[|bars| - 1].ts, tf)}
  }

  /** The bars of one bucket, in their order. */
  function InBucket(bars: Candles, tf: int, b: int): seq<Ohlcv>
    requires tf > 0
  {
    if bars == [] then []
    else
      var earlier, e := InBucket(bars[..|bars| - 1], tf, b), bars[|bars| - 1];
      if Bucket(e.ts, tf) == b then earlier + [e.value] else earlier
  }

  lemma {:induction false} BucketNonEmpty(bars: Candles, tf: int, b: int)
    requires tf > 0
    ensures b in BucketsOf(bars, tf) <==> InBucket(bars, tf, b) != []
  {
    hide Bucket;
    if bars != [] {
      BucketNonEmpty(bars[..|bars| - 1], tf, b);
    }
  }

  function AggregateAt(bars: Candles, tf: int, b: int): Stamped<Ohlcv>
    requires tf > 0 && b in BucketsOf(bars, tf)
  {
    BucketNonEmpty(bars, tf, b);
    Stamped(b, Aggregate(InBucket(bars, tf, b)))
  }

  function AggregateEach(bars: Candles, tf: int, buckets: seq<int>): Candles
    requires tf > 0 && forall b :: b in buckets ==> b in BucketsOf(bars, tf)
  {
    if buckets == [] then []
    else
      assert buckets[|buckets| - 1] in buckets;
      AggregateEach(bars, tf, buckets[..|buckets| - 1]) + [AggregateAt(bars, tf, buckets[|buckets| - 1])]
  }

  /** One candle for every occupied bucket, in order. */
  function Direct(bars: Candles, tf: int): Candles
    requires tf > 0
  {
    AggregateEach(bars, tf, Sorted(BucketsOf(bars, tf)))
  }

  // ---------------------------------------------------------------- incremental

  datatype Builder = Builder(barOpen: Option<int>, acc: Ohlcv)

  function Fed(b: Builder, e: Stamped<Ohlcv>, tf: int): (Builder, Option<Stamped<Ohlcv>>)
    requires tf > 0
  {
    var bucket := Bucket(e.ts, tf);
    if b.barOpen.None? then (Builder(Some(bucket), e.value), None)
    else if b.barOpen.value == bucket then (Builder(b.barOpen, Accumulated(b.acc, e.value)), None)
    else (Builder(Some(bucket), e.value), Some(Stamped(b.barOpen.value, b.acc)))
  }

  function Flushed(b: Builder): Candles {
    if b.barOpen.None? then [] else [Stamped(b.barOpen.value, b.acc)]
  }

  const NoBar := Ohlcv(0.0, 0.0, 0.0, 0.0, 0.0)

  /** The builder after a run of source bars, and what it emitted on the way. */
  function FedAll(bars: Candles, tf: int): (Builder, Candles)
    requires tf > 0
  {
    if bars == [] then (Builder(None, NoBar), [])
    else
      var (b, out) := FedAll(bars[..|bars| - 1], tf);
      var (b', made) := Fed(b, bars[|bars| - 1], tf);
      (b', if made.Some? then out + [made.value] else out)
  }

  predicate BucketsInOrder(bars: Candles, tf: int)
    requires tf > 0
  {
    forall i, j :: 0 <= i < j < |bars| ==> Bucket(bars[i].ts, tf) <= Bucket(bars[j].ts, tf)
  }

  // ---------------------------------------------------------------- the two agree

  lemma {:induction false} BucketsBounded(bars: Candles, tf: int, top: int)
    requires tf > 0 && forall i :: 0 <= i < |bars| ==> Bucket(bars[i].ts, tf) <= top
    ensures forall b :: b in BucketsOf(bars, tf) ==> b <= top
  {
    hide Bucket;
    if bars != [] {
      BucketsBounded(bars[..|bars| - 1], tf, top);
    }
  }

  lemma {:induction false} EachUntouched(bars: Candles, e: Stamped<Ohlcv>, tf: int, buckets: seq<int>)
    requires tf > 0 && forall b :: b in buckets ==> b in BucketsOf(bars, tf) && b != Bucket(e.ts, tf)
    ensures forall b :: b in buckets ==> b in BucketsOf(bars + [e], tf)
    ensures AggregateEach(bars + [e], tf, buckets) == AggregateEach(bars, tf, buckets)
  {
    hide Bucket;
    assert (bars + [e])[..|bars|] == bars;
    if buckets != [] {
      assert buckets[|buckets| - 1] in buckets;
      EachUntouched(bars, e, tf, buckets[..|buckets| - 1]);
    }
  }

  /** In time order, one more bar extends the last candle or starts a new one. */
  lemma DirectSnoc(bars: Candles, e: Stamped<Ohlcv>, tf: int)
    requires tf > 0 && BucketsInOrder(bars + [e], tf)
    ensures var bucket, candles := Bucket(e.ts, tf), Direct(bars, tf);
            if bucket in BucketsOf(bars, tf) then
              && candles != []
              && candles[|candles| - 1].ts == bucket
              && Direct(bars + [e], tf) == candles[..|candles| - 1] + [Stamped(bucket, Accumulated(candles[|candles| - 1].value, e.value))]
            else Direct(bars + [e], tf) == candles + [Stamped(bucket, e.value)]
  {
    hide Bucket, Accumulated, Aggregate, InBucket, AggregateAt, AggregateEach, Sorted;
    var bucket := Bucket(e.ts, tf);
    var all := bars + [e];
    assert all[..|bars|] == bars;
    BoundedByLast(bars, e, tf);
    var others := BucketsOf(bars, tf) - {bucket};
    assert BucketsOf(all, tf) == others + {bucket};
    hide BucketsInOrder, BucketsOf;
    SortedSnoc(others, bucket);
    EachUntouched(bars, e, tf, Sorted(others));
    SnocEach(all, tf, Sorted(others), bucket);
    SnocAt(bars, e, tf);
    if bucket in BucketsOf(bars, tf) {
      assert BucketsOf(bars, tf) == others + {bucket};
      SnocEach(bars, tf, Sorted(others), bucket);
    } else {
      assert others == BucketsOf(bars, tf);
    }
  }

  /** One more bar in its own bucket. */
  lemma SnocAt(bars: Candles, e: Stamped<Ohlcv>, tf: int)
    requires tf > 0
    ensures var bucket := Bucket(e.ts, tf);
            && bucket in BucketsOf(bars + [e], tf)
            && AggregateAt(bars + [e], tf, bucket)
               == Stamped(bucket, if bucket in BucketsOf(bars, tf) then Accumulated(AggregateAt(bars, tf, bucket).value, e.value) else e.value)
            && (bucket in BucketsOf(bars, tf) ==> AggregateAt(bars, tf, bucket).ts == bucket)
  {
    hide Bucket, Accumulated, Aggregate;
    var bucket := Bucket(e.ts, tf);
    assert (bars + [e])[..|bars|] == bars;
    AggregateSnoc(InBucket(bars, tf, bucket), e.value);
    BucketNonEmpty(bars, tf, bucket);
  }

  lemma BoundedByLast(bars: Candles, e: Stamped<Ohlcv>, tf: int)
    requires tf > 0 && BucketsInOrder(bars + [e], tf)
    ensures forall b :: b in BucketsOf(bars, tf) ==> b <= Bucket(e.ts, tf)
  {
    hide Bucket;
    var all := bars + [e];
    forall i | 0 <= i < |bars| ensures Bucket(bars[i].ts, tf) <= Bucket(e.ts, tf) {
      assert all[i] == bars[i] && all[|bars|] == e;
    }
    BucketsBounded(bars, tf, Bucket(e.ts, tf));
  }

  lemma SnocEach(bars: Candles, tf: int, buckets: seq<int>, b: int)
    requires tf > 0 && b in BucketsOf(bars, tf) && forall x :: x in buckets ==> x in BucketsOf(bars, tf)
    ensures AggregateEach(bars, tf, buckets + [b]) == AggregateEach(bars, tf, buckets) + [AggregateAt(bars, tf, b)]
  {
    hide Bucket;
    assert (buckets + [b])[..|buckets|] == buckets;
  }

  /**
   For source bars in time order, what the builder has emitted plus what a
   flush would add is the batch aggregate of everything it was fed.
   */
  lemma {:induction false} BuilderIsDirect(bars: Candles, tf: int)
    requires tf > 0 && BucketsInOrder(bars, tf)
    ensures var (b, out) := FedAll(bars, tf);
            && out + Flushed(b) == Direct(bars, tf)
            && (b.barOpen.None? <==> bars == [])
            && (bars != [] ==> b.barOpen == Some(Bucket(bars[|bars| - 1].ts, tf)))
  {
    hide Bucket, Accumulated, Direct, BucketsOf;
    if bars == [] {
      NothingDirect(tf);
    } else {
      var init, e := bars[..|bars| - 1], bars[|bars| - 1];
      assert bars == init + [e];
      InitInOrder(init, e, tf);
      BuilderIsDirect(init, tf);
      DirectSnoc(init, e, tf);
      if init != [] {
        SeenBefore(init, e, tf);
      } else {
        NothingDirect(tf);
      }
    }
  }

  lemma NothingDirect(tf: int)
    requires tf > 0
    ensures Direct([], tf) == [] && BucketsOf([], tf) == {}
  {
  }

  lemma InitInOrder(init: Candles, e: Stamped<Ohlcv>, tf: int)
    requires tf > 0 && BucketsInOrder(init + [e], tf)
    ensures BucketsInOrder(init, tf)
  {
    hide Bucket;
    assert forall i :: 0 <= i < |init| ==> (init + [e])[i] == init[i];
  }

  lemma LastBucketIn(bars: Candles, tf: int)
    requires tf > 0 && bars != []
    ensures Bucket(bars[|bars| - 1].ts, tf) in BucketsOf(bars, tf)
  {
    hide Bucket;
  }

  /** In time order a bucket was seen before only if it is the latest one. */
  lemma SeenBefore(bars: Candles, e: Stamped<Ohlcv>, tf: int)
    requires tf > 0 && bars != [] && BucketsInOrder(bars + [e], tf)
    ensures Bucket(e.ts, tf) in BucketsOf(bars, tf) <==> Bucket(e.ts, tf) == Bucket(bars[|bars| - 1].ts, tf)
  {
    hide Bucket;
    var all, top := bars + [e], Bucket(bars[|bars| - 1].ts, tf);
    forall i | 0 <= i < |bars| ensures Bucket(bars[i].ts, tf) <= top {
      assert all[i] == bars[i] && all[|bars| - 1] == bars[|bars| - 1];
    }
    assert all[|bars| - 1] == bars[|bars| - 1] && all[|bars|] == e;
    BucketsBounded(bars, tf, top);
    LastBucketIn(bars, tf);
  }
}
