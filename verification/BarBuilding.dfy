/** The live bar builder: fields updated source bar by source bar. */
module BarBuilding {
  import opened Types
  import opened Frames
  import opened Aggregation

  class BarBuilder {
    const targetTf: int
    var barOpen: Option<int>
    var open: real
    var high: real
    var low: real
    var close: real
    var volume: real

    predicate Valid()
      reads this
    {
      targetTf > 0
    }

    function State(): Builder
      reads this
    {
      Builder(barOpen, Ohlcv(open, high, low, close, volume))
    }

    /** The source timeframe must be finer than the target. */
    constructor (sourceTf: int, targetTf: int)
      requires 0 < sourceTf < targetTf
      ensures Valid() && this.targetTf == targetTf
      ensures State() == Builder(None, NoBar)
    {
      this.targetTf := targetTf;
      barOpen := None;
      open, high, low, close, volume := 0.0, 0.0, 0.0, 0.0, 0.0;
    }

    /** Returns the finished bar when the source bar opens a new bucket. */
    method OnBar(ts: int, bar: Ohlcv) returns (completed: Option<Stamped<Ohlcv>>)
      requires Valid()
      modifies this
      ensures Valid()
      ensures (State(), completed) == Fed(old(State()), Stamped(ts, bar), targetTf)
    {
      var targetOpen := FloorToTarget(ts);
      completed := None;
      if barOpen == None {
        StartNew(targetOpen, bar);
      } else if targetOpen == barOpen.value {
        high := Higher(high, bar.high);
        low := Lower(low, bar.low);
        close := bar.close;
        volume := volume + bar.volume;
      } else {
        completed := Some(Stamped(barOpen.value, Ohlcv(open, high, low, close, volume)));
        StartNew(targetOpen, bar);
      }
    }

    /** Gives up the unfinished bar, if there is one. */
    method Flush() returns (unfinished: Option<Stamped<Ohlcv>>)
      requires Valid()
      modifies this
      ensures Valid() && barOpen == None
      ensures Flushed(old(State())) == if unfinished.Some? then [unfinished.value] else []
    {
      if barOpen == None {
        return None;
      }
      unfinished := Some(Stamped(barOpen.value, Ohlcv(open, high, low, close, volume)));
      barOpen := None;
    }

    function FloorToTarget(ts: int): (floored: int)
      requires Valid()
      reads this
      ensures floored % targetTf == 0 && floored <= ts < floored + targetTf
    {
      DivMod(ts, targetTf);
      MultipleMod(ts / targetTf, targetTf);
      ts / targetTf * targetTf
    }

    method StartNew(targetOpen: int, bar: Ohlcv)
      modifies this
      ensures State() == Builder(Some(targetOpen), bar)
    {
      barOpen := Some(targetOpen);
      open, high, low, close, volume := bar.open, bar.high, bar.low, bar.close, bar.volume;
    }
  }

  /** A whole stream through one builder, flushed at its end, is the batch aggregate. */
  method BuildStream(bars: Candles, sourceTf: int, targetTf: int) returns (built: Candles)
    requires 0 < sourceTf < targetTf && BucketsInOrder(bars, targetTf)
    ensures built == Direct(bars, targetTf)
  {
    hide Fed, Direct, Bucket, BucketsInOrder;
    var builder := new BarBuilder(sourceTf, targetTf);
    built := [];
    var i := 0;
    while i < |bars|
      invariant 0 <= i <= |bars|
      invariant builder.Valid() && builder.targetTf == targetTf && fresh(builder)
      invariant (builder.State(), built) == FedAll(bars[..i], targetTf)
    {
      assert bars[..i + 1][..i] == bars[..i];
      var completed := builder.OnBar(bars[i].ts, bars[i].value);
      if completed.Some? {
        built := built + [completed.value];
      }
      i := i + 1;
    }
    assert bars[..i] == bars;
    BuilderIsDirect(bars, targetTf);
    var last := builder.Flush();
    if last.Some? {
      built := built + [last.value];
    }
  }
}
