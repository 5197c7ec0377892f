/** What the indicators are worth: each value by the rows it is made of and the value before it. */
module IndicatorLaws {
  import opened Types
  import opened Sums
  import opened Frames
  import opened Aggregation
  import opened Indicators

  /** A value computed row by row comes from the rows and values before it and its own row. */
  lemma RunningAt<V>(bars: Candles, step: (Candles, Series<V>, Candle) -> V, i: nat)
    requires i < |bars|
    ensures Running(bars, step)[i] == Stamped(bars[i].ts, step(bars[..i], Running(bars, step)[..i], bars[i]))
  {
    RunningPrefix(bars, step, i);
    RunningPrefix(bars, step, i + 1);
    assert bars[..i + 1][..i] == bars[..i];
  }

  /** So many parts in n of the way from a value to another. */
  predicate PartOfTheWay(after: real, before: real, x: real, parts: real, n: real) {
    n * (after - before) == parts * (x - before)
  }

  lemma PartWay(alpha: real, parts: real, n: real, before: real, x: real)
    requires n > 0.0 && alpha == parts / n
    ensures PartOfTheWay(Weighted(alpha, before, x), before, x, parts, n)
  {
    assert n * alpha == parts;
    assert Weighted(alpha, before, x) - before == alpha * (x - before);
    assert n * (alpha * (x - before)) == (n * alpha) * (x - before);
  }

  // ---------------------------------------------------------------- moving averages

  /** The average starts at the first close and then goes two parts in (period + 1) of the way to each close. */
  lemma EmaTells(bars: Candles, period: nat, i: nat)
    requires i < |bars|
    ensures var out := Ema(period)(bars);
            if i == 0 then out[i].value == bars[i].value.close
            else PartOfTheWay(out[i].value, out[i - 1].value, bars[i].value.close, 2.0, (period + 1) as real)
  {
    EmaAt(bars, period, i);
    if i > 0 {
      PartWay(2.0 / (period as real + 1.0), 2.0, (period + 1) as real, Ema(period)(bars)[i - 1].value, bars[i].value.close);
    }
    hide Ema, Weighted, PartOfTheWay;
  }

  lemma EmaAt(bars: Candles, period: nat, i: nat)
    requires i < |bars|
    ensures |Ema(period)(bars)| == |bars|
    ensures Ema(period)(bars)[i].value
         == if i == 0 then bars[i].value.close
            else Weighted(2.0 / (period as real + 1.0), Ema(period)(bars)[i - 1].value, bars[i].value.close)
  {
    RunningAt(bars, EmaStep(period), i);
    hide Running;
  }

  /** So it stays between the lowest and the highest close. */
  lemma {:induction false} EmaBetween(bars: Candles, period: nat, lo: real, hi: real, i: nat)
    requires period > 0 && i < |bars|
    requires forall k :: 0 <= k <= i ==> lo <= bars[k].value.close <= hi
    ensures lo <= Ema(period)(bars)[i].value <= hi
  {
    EmaTells(bars, period, i);
    if i > 0 {
      EmaBetween(bars, period, lo, hi, i - 1);
      hide Ema;
      Between(2.0, (period + 1) as real, Ema(period)(bars)[i - 1].value, bars[i].value.close, Ema(period)(bars)[i].value, lo, hi);
    }
  }

  lemma Between(parts: real, n: real, before: real, x: real, after: real, lo: real, hi: real)
    requires 0.0 < parts <= n && PartOfTheWay(after, before, x, parts, n)
    requires lo <= before <= hi && lo <= x <= hi
    ensures lo <= after <= hi
  {
    assert n * after == (n - parts) * before + parts * x;
    Product(n - parts, before - lo);
    Product(n - parts, hi - before);
    Product(parts, x - lo);
    Product(parts, hi - x);
    assert n * (after - lo) == (n - parts) * (before - lo) + parts * (x - lo);
    assert n * (hi - after) == (n - parts) * (hi - before) + parts * (hi - x);
    Sign(n, after - lo);
    Sign(n, hi - after);
  }

  lemma Sign(n: real, x: real)
    requires n > 0.0
    ensures n * x >= 0.0 ==> x >= 0.0
    ensures n * x > 0.0 ==> x > 0.0
  {
  }

  function CloseOf(): Candle -> real {
    (x: Candle) => x.value.close
  }

  lemma {:induction false} ClosesAre(bars: Candles)
    ensures Closes(bars) == Total(bars, CloseOf())
  {
    if bars != [] {
      ClosesAre(bars[..|bars| - 1]);
    }
  }

  /** The rows up to and including one, and the last of them. */
  function Upto(bars: Candles, i: nat): Candles
    requires i < |bars|
  {
    bars[..i + 1]
  }

  function Last(bars: Candles, period: nat): Candles
    requires period <= |bars|
  {
    bars[|bars| - period..]
  }

  /** The plain average of the last so many closes, undefined before there are that many. */
  lemma SmaTells(bars: Candles, period: nat, i: nat)
    requires i < |bars|
    ensures var mean := Sma(period)(bars)[i].value;
            if period == 0 || i + 1 < period then mean == None
            else mean.Some? && period as real * mean.value == Total(Last(Upto(bars, i), period), CloseOf())
  {
    hide Running, SmaStep, Closes, Total;
    RunningAt(bars, SmaStep(period), i);
    assert bars[..i] + [bars[i]] == Upto(bars, i);
    MeanOf(bars[..i], Sma(period)(bars)[..i], bars[i], period);
  }

  lemma MeanOf(past: Candles, out: Series<Option<real>>, x: Candle, period: nat)
    ensures var seen, mean := past + [x], SmaStep(period)(past, out, x);
            if period == 0 || |seen| < period then mean == None
            else mean.Some? && period as real * mean.value == Total(Last(seen, period), CloseOf())
  {
    var seen := past + [x];
    if 0 < period <= |seen| {
      ClosesAre(Last(seen, period));
      Parts(Closes(Last(seen, period)), period as real);
    }
    hide Closes, Total;
  }

  lemma Parts(total: real, n: real)
    requires n > 0.0
    ensures n * (total / n) == total
  {
  }

  // ---------------------------------------------------------------- relative strength

  /** How far the close rose from one row to the next, and how far it fell. */
  function Rise(bars: Candles, i: nat): real
    requires 0 < i < |bars|
  {
    if bars[i].value.close > bars[i - 1].value.close then bars[i].value.close - bars[i - 1].value.close else 0.0
  }

  function Fall(bars: Candles, i: nat): real
    requires 0 < i < |bars|
  {
    if bars[i].value.close < bars[i - 1].value.close then bars[i - 1].value.close - bars[i].value.close else 0.0
  }

  lemma FirstUndefined(bars: Candles, period: nat)
    requires bars != []
    ensures |Rsi(period)(bars)| == |bars| && Rsi(period)(bars)[0].value.Undefined?
  {
    RunningAt(bars, RsiStep(period), 0);
    hide Running;
  }

  lemma StrengthAt(bars: Candles, period: nat, i: nat)
    requires 0 < i < |bars| && period > 0
    ensures var now, before := Rsi(period)(bars)[i].value, Rsi(period)(bars)[i - 1].value;
            && now.Strength? && now.index == StrengthIndex(now.gain, now.loss)
            && now.gain == (if before.Undefined? then Rise(bars, i) else Weighted(1.0 / period as real, before.gain, Rise(bars, i)))
            && now.loss == (if before.Undefined? then Fall(bars, i) else Weighted(1.0 / period as real, before.loss, Fall(bars, i)))
  {
    hide Running, StrengthIndex, RsiStep, Weighted;
    RunningAt(bars, RsiStep(period), i);
    var out := Rsi(period)(bars);
    StrengthOf(period, bars[..i], out[..i], bars[i]);
    assert out[..i][i - 1] == out[i - 1] && bars[..i][i - 1] == bars[i - 1];
  }

  lemma StrengthOf(period: nat, past: Candles, out: Series<Strength>, x: Candle)
    requires past != [] && out != [] && period > 0
    ensures var now, before, was := RsiStep(period)(past, out, x), out[|out| - 1].value, past[|past| - 1].value.close;
            var up := if x.value.close > was then x.value.close - was else 0.0;
            var down := if x.value.close < was then was - x.value.close else 0.0;
            && now.Strength? && now.index == StrengthIndex(now.gain, now.loss)
            && now.gain == (if before.Undefined? then up else Weighted(1.0 / period as real, before.gain, up))
            && now.loss == (if before.Undefined? then down else Weighted(1.0 / period as real, before.loss, down))
  {
    hide StrengthIndex;
  }

  /** Rises and falls of the close are smoothed by one part in period, from the first of them on. */
  lemma RsiTells(bars: Candles, period: nat, i: nat)
    requires 0 < i < |bars| && period > 0
    ensures Rsi(period)(bars)[0].value.Undefined?
    ensures var now, before := Rsi(period)(bars)[i].value, Rsi(period)(bars)[i - 1].value;
            && now.Strength?
            && (before.Undefined? ==> now.gain == Rise(bars, i) && now.loss == Fall(bars, i))
            && (before.Strength? ==>
                  && PartOfTheWay(now.gain, before.gain, Rise(bars, i), 1.0, period as real)
                  && PartOfTheWay(now.loss, before.loss, Fall(bars, i), 1.0, period as real))
            && now.index == StrengthIndex(now.gain, now.loss)
  {
    FirstUndefined(bars, period);
    StrengthAt(bars, period, i);
    hide Rsi, StrengthIndex, Rise, Fall, Weighted, PartOfTheWay;
    var before := Rsi(period)(bars)[i - 1].value;
    if before.Strength? {
      PartWay(1.0 / period as real, 1.0, period as real, before.gain, Rise(bars, i));
      PartWay(1.0 / period as real, 1.0, period as real, before.loss, Fall(bars, i));
    }
  }

  /** The index is the share of the gains, in per cent, and undefined when there were no losses. */
  lemma IndexIsShare(gain: NonNegative, loss: NonNegative)
    ensures StrengthIndex(gain, loss).None? <==> loss == 0.0
    ensures StrengthIndex(gain, loss).Some? ==>
              var index := StrengthIndex(gain, loss).value;
              index * (gain + loss) == 100.0 * gain && 0.0 <= index < 100.0
  {
    if loss > 0.0 {
      var ratio := gain / loss;
      assert ratio * loss == gain && ratio >= 0.0;
      var part := 100.0 / (1.0 + ratio);
      assert part * (1.0 + ratio) == 100.0;
      var index := 100.0 - part;
      assert (gain + loss) == loss * (1.0 + ratio);
      assert part * (gain + loss) == 100.0 * loss by {
        assert part * (loss * (1.0 + ratio)) == (part * (1.0 + ratio)) * loss;
      }
      assert index * (gain + loss) == 100.0 * (gain + loss) - part * (gain + loss);
      Sign(gain + loss, index);
      assert part > 0.0;
    }
  }

  // ---------------------------------------------------------------- spread

  function SquareFrom(mean: real): Candle -> real {
    (x: Candle) => (x.value.close - mean) * (x.value.close - mean)
  }

  lemma {:induction false} SquaresAre(bars: Candles, mean: real)
    ensures SquaredSpread(bars, mean) == Total(bars, SquareFrom(mean))
  {
    if bars != [] {
      SquaresAre(bars[..|bars| - 1], mean);
    }
  }

  /** The deviation is the root of the squared distances from the mean over one less than their number. */
  lemma DeviationTells(bars: Candles, period: nat, root: Root, i: nat)
    requires i < |bars|
    ensures var spread, mean := StdDev(period, root)(bars)[i].value, Sma(period)(bars)[i].value;
            if period < 2 || i + 1 < period then spread == None
            else mean.Some? && spread == Some(root(Total(Last(Upto(bars, i), period), SquareFrom(mean.value)) / (period - 1) as real))
  {
    RunningAt(bars, StdDevStep(period, root), i);
    RunningAt(bars, SmaStep(period), i);
    assert bars[..i] + [bars[i]] == Upto(bars, i);
    if period >= 2 && i + 1 >= period {
      SquaresAre(Last(Upto(bars, i), period), Sma(period)(bars)[i].value.value);
    }
    hide Running, Closes, SquaredSpread, Total;
  }

  /** Bands lie around the plain average, so many deviations away on either side. */
  lemma BandsTell(bars: Candles, period: nat, width: real, root: Root, i: nat)
    requires i < |bars|
    ensures var bands, spread := BollingerBands(period, width, root)(bars)[i].value, StdDev(period, root)(bars)[i].value;
            && bands.middle == Sma(period)(bars)[i].value
            && (spread.Some? ==> bands.upper.Some? && bands.lower.Some? && bands.middle.Some?
                                 && bands.upper.value - bands.middle.value == width * spread.value
                                 && bands.middle.value - bands.lower.value == width * spread.value)
            && (spread.None? ==> bands.upper == None && bands.lower == None)
  {
    hide Running, SmaStep, Deviation, BandsStep;
    RunningAt(bars, BandsStep(period, width, root), i);
    RunningAt(bars, SmaStep(period), i);
    RunningAt(bars, StdDevStep(period, root), i);
    BandsOf(period, width, root, bars[..i], BollingerBands(period, width, root)(bars)[..i], bars[i]);
    AnyOutputs(period, bars[..i], Sma(period)(bars)[..i], bars[i]);
  }

  /** A plain average does not look at the averages before it. */
  lemma AnyOutputs(period: nat, past: Candles, out: Series<Option<real>>, x: Candle)
    ensures SmaStep(period)(past, out, x) == SmaStep(period)(past, [], x)
  {
    hide Closes;
  }

  lemma BandsOf(period: nat, width: real, root: Root, past: Candles, out: Series<Bands>, x: Candle)
    ensures var bands, mean, spread := BandsStep(period, width, root)(past, out, x), SmaStep(period)(past, [], x), Deviation(past + [x], period, root);
            && bands.middle == mean
            && (spread.Some? ==> bands.upper.Some? && bands.lower.Some? && bands.middle.Some?
                                 && bands.upper.value - bands.middle.value == width * spread.value
                                 && bands.middle.value - bands.lower.value == width * spread.value)
            && (spread.None? ==> bands.upper == None && bands.lower == None)
  {
    hide Closes, SquaredSpread;
  }

  // ---------------------------------------------------------------- oscillators

  lemma ConvergenceAt(bars: Candles, fast: nat, slow: nat, signal: nat, i: nat)
    requires i < |bars|
    ensures |Macd(fast, slow, signal)(bars)| == |bars|
    ensures var now, close := Macd(fast, slow, signal)(bars)[i].value, bars[i].value.close;
            if i == 0 then now == Convergence(close, close, 0.0, 0.0, 0.0)
            else
              var before := Macd(fast, slow, signal)(bars)[i - 1].value;
              && now.fast == Weighted(2.0 / (fast as real + 1.0), before.fast, close)
              && now.slow == Weighted(2.0 / (slow as real + 1.0), before.slow, close)
              && now.line == now.fast - now.slow && now.histogram == now.line - now.signal
              && now.signal == Weighted(2.0 / (signal as real + 1.0), before.signal, now.line)
  {
    RunningAt(bars, MacdStep(fast, slow, signal), i);
    hide Running, Weighted;
  }

  /** The two averages of the convergence are the moving averages; its signal smooths their difference from nothing. */
  lemma {:induction false} MacdTells(bars: Candles, fast: nat, slow: nat, signal: nat, i: nat)
    requires i < |bars|
    ensures var now := Macd(fast, slow, signal)(bars)[i].value;
            && now.fast == Ema(fast)(bars)[i].value && now.slow == Ema(slow)(bars)[i].value
            && now.line == now.fast - now.slow && now.histogram == now.line - now.signal
            && (if i == 0 then now.signal == 0.0
                else PartOfTheWay(now.signal, Macd(fast, slow, signal)(bars)[i - 1].value.signal, now.line, 2.0, (signal + 1) as real))
  {
    ConvergenceAt(bars, fast, slow, signal, i);
    EmaAt(bars, fast, i);
    EmaAt(bars, slow, i);
    hide Macd, Ema, Weighted, PartOfTheWay;
    if i > 0 {
      MacdTells(bars, fast, slow, signal, i - 1);
      var before, now := Macd(fast, slow, signal)(bars)[i - 1].value, Macd(fast, slow, signal)(bars)[i].value;
      PartWay(2.0 / (signal as real + 1.0), 2.0, (signal + 1) as real, before.signal, now.line);
    }
  }

  lemma {:induction false} Extremes(bars: Candles)
    requires bars != []
    ensures forall k :: 0 <= k < |bars| ==> LowestLow(bars) <= bars[k].value.low && bars[k].value.high <= HighestHigh(bars)
    ensures exists k :: 0 <= k < |bars| && bars[k].value.low == LowestLow(bars)
    ensures exists k :: 0 <= k < |bars| && bars[k].value.high == HighestHigh(bars)
  {
    if |bars| > 1 {
      var n := |bars| - 1;
      var init := bars[..n];
      Extremes(init);
      assert forall k :: 0 <= k < n ==> init[k] == bars[k];
      var l :| 0 <= l < n && init[l].value.low == LowestLow(init);
      var h :| 0 <= h < n && init[h].value.high == HighestHigh(init);
      assert bars[l].value.low == LowestLow(bars) || bars[n].value.low == LowestLow(bars);
      assert bars[h].value.high == HighestHigh(bars) || bars[n].value.high == HighestHigh(bars);
    } else {
      assert bars[0].value.low == LowestLow(bars) && bars[0].value.high == HighestHigh(bars);
    }
  }

  /** Where the close lies between the lowest low and the highest high of the last so many rows, in per cent. */
  lemma FastTells(seen: Candles, period: nat, lo: real, hi: real)
    requires 0 < period <= |seen|
    requires var window := Last(seen, period);
             && (forall k :: 0 <= k < period ==> lo <= window[k].value.low && window[k].value.high <= hi)
             && (exists k :: 0 <= k < period && window[k].value.low == lo)
             && (exists k :: 0 <= k < period && window[k].value.high == hi)
    requires hi >= lo
    ensures var k, close := FastK(seen, period), seen[|seen| - 1].value.close;
            && k.Some? && k.value * (hi - lo + 0.000000000001) == 100.0 * (close - lo)
            && (lo <= close <= hi ==> 0.0 <= k.value < 100.0)
  {
    Extremes(Last(seen, period));
    hide LowestLow, HighestHigh;
    var close, k := seen[|seen| - 1].value.close, FastK(seen, period).value;
    Percent(k, close - lo, hi - lo + TINY);
  }

  lemma Percent(k: real, part: real, whole: real)
    requires whole > 0.0 && k == 100.0 * part / whole
    ensures k * whole == 100.0 * part
    ensures 0.0 <= part < whole ==> 0.0 <= k < 100.0
    ensures 0.0 <= part <= whole ==> 0.0 <= k <= 100.0
  {
    assert k * whole == 100.0 * part;
    Sign(whole, k);
    assert whole * (100.0 - k) == 100.0 * (whole - part);
    Sign(whole, 100.0 - k);
  }

  predicate AllThere(values: seq<Option<real>>) { forall k :: 0 <= k < |values| ==> values[k].Some? }

  function ValueOf(): Option<real> -> real {
    (v: Option<real>) => v.GetOr(0.0)
  }

  lemma {:induction false} TotalsAre(values: seq<Option<real>>)
    ensures TotalOf(values) == if AllThere(values) then Some(Total(values, ValueOf())) else None
  {
    if values != [] {
      var init := values[..|values| - 1];
      TotalsAre(init);
      assert AllThere(values) <==> AllThere(init) && values[|values| - 1].Some? by {
        assert forall k :: 0 <= k < |init| ==> init[k] == values[k];
      }
    }
  }

  /** The smoothed lines are plain averages of the last values, undefined while one of them is missing. */
  lemma MeanTells(values: seq<Option<real>>, period: nat)
    ensures var mean := MeanOfLast(values, period);
            if period == 0 || |values| < period || !AllThere(values[|values| - period..]) then mean == None
            else mean.Some? && period as real * mean.value == Total(values[|values| - period..], ValueOf())
  {
    if 0 < period <= |values| {
      TotalsAre(values[|values| - period..]);
    }
    hide TotalOf, Total, AllThere;
  }

  lemma StochTells(bars: Candles, fastK: nat, slowK: nat, slowD: nat, i: nat)
    requires i < |bars|
    ensures var out := Stoch(fastK, slowK, slowD)(bars);
            && out[i].value.fastK == FastK(Upto(bars, i), fastK)
            && out[i].value.slowK == MeanOfLast(seq(i + 1, k requires 0 <= k < i + 1 => out[k].value.fastK), slowK)
            && out[i].value.slowD == MeanOfLast(seq(i + 1, k requires 0 <= k < i + 1 => out[k].value.slowK), slowD)
  {
    RunningAt(bars, StochStep(fastK, slowK, slowD), i);
    var out := Stoch(fastK, slowK, slowD)(bars);
    var past := out[..i];
    assert bars[..i] + [bars[i]] == Upto(bars, i);
    assert seq(|past|, k requires 0 <= k < |past| => past[k].value.fastK) + [out[i].value.fastK]
        == seq(i + 1, k requires 0 <= k < i + 1 => out[k].value.fastK);
    assert seq(|past|, k requires 0 <= k < |past| => past[k].value.slowK) + [out[i].value.slowK]
        == seq(i + 1, k requires 0 <= k < i + 1 => out[k].value.slowK);
    hide Running, FastK, MeanOfLast;
  }

  // ---------------------------------------------------------------- ranges and trend

  /** The furthest of the row's own range and of its high and low from the close before. */
  lemma RangeTells(past: Candles, x: Candle)
    ensures var range, own := TrueRange(past, x), x.value.high - x.value.low;
            if past == [] then range == own
            else
              var close := past[|past| - 1].value.close;
              && range >= own && range >= x.value.high - close && range >= close - x.value.high
              && range >= x.value.low - close && range >= close - x.value.low
              && range in {own, x.value.high - close, close - x.value.high, x.value.low - close, close - x.value.low}
  {
  }

  lemma AtrAt(bars: Candles, period: nat, i: nat)
    requires i < |bars| && period > 0
    ensures |Atr(period)(bars)| == |bars| && Atr(period)(bars)[i].value.Some?
    ensures i > 0 ==> Atr(period)(bars)[i - 1].value.Some?
    ensures Atr(period)(bars)[i].value.value
         == if i == 0 then TrueRange(bars[..i], bars[i])
            else Weighted(1.0 / period as real, Atr(period)(bars)[i - 1].value.value, TrueRange(bars[..i], bars[i]))
  {
    RunningAt(bars, AtrStep(period), i);
    if i > 0 { RunningAt(bars, AtrStep(period), i - 1); }
    hide Running, TrueRange, Weighted;
  }

  /** The average range goes one part in period of the way to each row's range. */
  lemma AtrTells(bars: Candles, period: nat, i: nat)
    requires i < |bars| && period > 0
    ensures var out, range := Atr(period)(bars), TrueRange(bars[..i], bars[i]);
            && out[i].value.Some?
            && (if i == 0 then out[i].value.value == range
                else out[i - 1].value.Some?
                     && PartOfTheWay(out[i].value.value, out[i - 1].value.value, range, 1.0, period as real))
  {
    AtrAt(bars, period, i);
    hide Atr, TrueRange, Weighted, PartOfTheWay;
    if i > 0 {
      PartWay(1.0 / period as real, 1.0, period as real, Atr(period)(bars)[i - 1].value.value, TrueRange(bars[..i], bars[i]));
    }
  }

  /** Only the larger of the moves up and down counts, the downward one on a tie, and neither when it shrinks. */
  lemma MovesTell(past: Candles, x: Candle)
    ensures var (up, down) := Moves(past, x);
            if past == [] then up == 0.0 && down == 0.0
            else
              var u, d := x.value.high - past[|past| - 1].value.high, past[|past| - 1].value.low - x.value.low;
              && up == (if u > 0.0 && u > d then u else 0.0)
              && down == (if d > 0.0 && d >= u then d else 0.0)
  {
  }

  /** The directional index is the imbalance of two moves against their range, between nothing and a hundred. */
  lemma DirectionTells(range: real, up: real, down: real)
    requires range >= 0.0 && up >= 0.0 && down >= 0.0
    ensures var index := DirectionalIndex(range, up, down);
            var plus, minus := 100.0 * up / (range + 0.000000000001), 100.0 * down / (range + 0.000000000001);
            && index.Some? && 0.0 <= index.value <= 100.0
            && index.value * (plus + minus + 0.000000000001) == 100.0 * (if plus > minus then plus - minus else minus - plus)
  {
    var plus, minus := 100.0 * up / (range + TINY), 100.0 * down / (range + TINY);
    assert plus >= 0.0 && minus >= 0.0;
    var gap, sum := AbsReal(plus - minus), plus + minus + TINY;
    assert 0.0 <= gap <= sum;
    Percent(100.0 * gap / sum, gap, sum);
  }

  lemma TrendAt(bars: Candles, period: nat, i: nat)
    requires i < |bars| && period > 0
    ensures |Adx(period)(bars)| == |bars|
    ensures var now, range, moves := Adx(period)(bars)[i].value, TrueRange(bars[..i], bars[i]), Moves(bars[..i], bars[i]);
            var index, alpha := DirectionalIndex(now.range, now.up, now.down), 1.0 / period as real;
            if i == 0 then now == Trend(range, moves.0, moves.1, index)
            else
              var before := Adx(period)(bars)[i - 1].value;
              && now.range == Weighted(alpha, before.range, range)
              && now.up == Weighted(alpha, before.up, moves.0) && now.down == Weighted(alpha, before.down, moves.1)
              && now.index == if before.index.None? || index.None? then None
                              else Some(Weighted(alpha, before.index.value, index.value))
  {
    RunningAt(bars, AdxStep(period), i);
    hide Running, TrueRange, Moves, DirectionalIndex, Weighted;
  }

  /** Range and moves are smoothed by one part in period, and so is the index while it is defined. */
  lemma AdxTells(bars: Candles, period: nat, i: nat)
    requires i < |bars| && period > 0
    ensures var out := Adx(period)(bars);
            var now, range, moves := out[i].value, TrueRange(bars[..i], bars[i]), Moves(bars[..i], bars[i]);
            var index := DirectionalIndex(now.range, now.up, now.down);
            if i == 0 then now == Trend(range, moves.0, moves.1, index)
            else
              var before, n := out[i - 1].value, period as real;
              && PartOfTheWay(now.range, before.range, range, 1.0, n)
              && PartOfTheWay(now.up, before.up, moves.0, 1.0, n) && PartOfTheWay(now.down, before.down, moves.1, 1.0, n)
              && (if before.index.None? || index.None? then now.index == None
                  else now.index.Some? && PartOfTheWay(now.index.value, before.index.value, index.value, 1.0, n))
  {
    TrendAt(bars, period, i);
    hide Adx, TrueRange, Moves, DirectionalIndex, Weighted, PartOfTheWay;
    if i > 0 {
      var alpha, n, moves := 1.0 / period as real, period as real, Moves(bars[..i], bars[i]);
      var before, now := Adx(period)(bars)[i - 1].value, Adx(period)(bars)[i].value;
      PartWay(alpha, 1.0, n, before.range, TrueRange(bars[..i], bars[i]));
      PartWay(alpha, 1.0, n, before.up, moves.0);
      PartWay(alpha, 1.0, n, before.down, moves.1);
      var index := DirectionalIndex(now.range, now.up, now.down);
      if before.index.Some? && index.Some? { PartWay(alpha, 1.0, n, before.index.value, index.value); }
    }
  }

  // ---------------------------------------------------------------- sessions

  function FlowOn(day: int): Candle -> real {
    (x: Candle) => if DayOf(x.ts) == day then (x.value.high + x.value.low + x.value.close) * x.value.volume else 0.0
  }

  function VolumeOn(day: int): Candle -> real {
    (x: Candle) => if DayOf(x.ts) == day then x.value.volume else 0.0
  }

  lemma {:induction false} FlowIs(bars: Candles, day: int)
    ensures 3.0 * DayFlow(bars, day).0 == Total(bars, FlowOn(day)) && DayFlow(bars, day).1 == Total(bars, VolumeOn(day))
  {
    hide DayOf;
    if bars != [] {
      FlowIs(bars[..|bars| - 1], day);
      var x := bars[|bars| - 1].value;
      Third(x.high + x.low + x.close, x.volume);
    }
  }

  lemma Third(a: real, b: real)
    ensures 3.0 * (a / 3.0 * b) == a * b
  {
    assert 3.0 * (a / 3.0) == a;
  }

  /** The day's typical prices so far, weighted by volume, undefined while nothing traded. */
  lemma VwapTells(bars: Candles, i: nat)
    requires i < |bars|
    ensures var day, v := DayOf(bars[i].ts), SessionVwap()(bars)[i].value;
            && (v.None? <==> Total(Upto(bars, i), VolumeOn(day)) == 0.0)
            && (v.Some? ==> 3.0 * v.value * Total(Upto(bars, i), VolumeOn(day)) == Total(Upto(bars, i), FlowOn(day)))
  {
    RunningAt(bars, VwapStep(), i);
    assert bars[..i] + [bars[i]] == Upto(bars, i);
    FlowIs(Upto(bars, i), DayOf(bars[i].ts));
    hide Running, DayFlow, DayOf, Total;
  }

  /** A row's session open is the open of the first row of its day. */
  lemma OpenTells(bars: Candles, i: nat, k: nat)
    requires k <= i < |bars| && DayOf(bars[k].ts) == DayOf(bars[i].ts)
    requires forall j :: 0 <= j < k ==> DayOf(bars[j].ts) != DayOf(bars[i].ts)
    ensures SessionOpen(bars)[i] == Stamped(bars[i].ts, Some(bars[k].value.open))
  {
    hide DayOf;
    FirstOf(bars, DayOf(bars[i].ts), k);
    hide FirstOpen;
  }

  lemma {:induction false} FirstOf(bars: Candles, day: int, k: nat)
    requires k < |bars| && DayOf(bars[k].ts) == day && forall j :: 0 <= j < k ==> DayOf(bars[j].ts) != day
    ensures FirstOpen(bars, day) == Some(bars[k].value.open)
  {
    hide DayOf;
    if k > 0 {
      FirstOf(bars[1..], day, k - 1);
    }
  }

  /** A Heikin-Ashi bar closes at the mean of its row, opens at the middle of the bar before, and holds both within its extremes. */
  lemma HeikinAshiTells(bars: Candles, i: nat)
    requires i < |bars|
    ensures var out, x := HeikinAshi(bars), bars[i].value;
            var now := out[i].value;
            && 4.0 * now.close == x.open + x.high + x.low + x.close
            && 2.0 * now.open == (if i == 0 then x.open + x.close else out[i - 1].value.open + out[i - 1].value.close)
            && now.high >= x.high && now.high >= now.open && now.high >= now.close && now.high in {x.high, now.open, now.close}
            && now.low <= x.low && now.low <= now.open && now.low <= now.close && now.low in {x.low, now.open, now.close}
  {
    HeikinAshiAt(bars, i);
    hide Running;
  }
}
