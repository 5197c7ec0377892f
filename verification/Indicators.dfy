/**
 Indicators over candles. What the feature views rely on is that an indicator
 is prefix-stable: the value at a row does not depend on later rows.
 */
module Indicators {
  import opened Types
  import opened Frames
  import opened Aggregation

  type Series<V> = seq<Stamped<V>>

  type Candle = Stamped<Ohlcv>

  /** One output per row, at the row's time. */
  ghost predicate SameIndex<V(!new)>(f: Candles -> Series<V>) {
    forall x: Candles :: |f(x)| == |x| && forall i :: 0 <= i < |x| ==> f(x)[i].ts == x[i].ts
  }

  /** Outputs are unchanged by rows that follow. */
  ghost predicate PrefixStable<V(!new)>(f: Candles -> Series<V>) {
    && SameIndex(f)
    && forall x: Candles, n: nat :: n <= |x| ==> f(x[..n]) == f(x)[..n]
  }

  /** A series computed row by row: earlier rows, outputs so far, the row. */
  function Running<V>(bars: Candles, step: (Candles, Series<V>, Candle) -> V): (out: Series<V>)
    ensures |out| == |bars|
  {
    if bars == [] then []
    else
      var init, x := bars[..|bars| - 1], bars[|bars| - 1];
      var earlier := Running(init, step);
      earlier + [Stamped(x.ts, step(init, earlier, x))]
  }

  lemma {:induction false} RunningPrefix<V>(bars: Candles, step: (Candles, Series<V>, Candle) -> V, n: nat)
    requires n <= |bars|
    ensures Running(bars[..n], step) == Running(bars, step)[..n]
    ensures forall i :: 0 <= i < |bars| ==> Running(bars, step)[i].ts == bars[i].ts
  {
    if bars != [] {
      var init := bars[..|bars| - 1];
      if n < |bars| {
        RunningPrefix(init, step, n);
        assert init[..n] == bars[..n];
      } else {
        RunningPrefix(init, step, |init|);
        assert bars[..n] == bars;
      }
    }
  }

  /** Whatever is computed row by row is prefix-stable. */
  lemma RunningIsStable<V(!new)>(f: Candles -> Series<V>, step: (Candles, Series<V>, Candle) -> V)
    requires forall x: Candles :: f(x) == Running(x, step)
    ensures PrefixStable(f)
  {
    forall x: Candles ensures |f(x)| == |x| && forall i :: 0 <= i < |x| ==> f(x)[i].ts == x[i].ts {
      RunningPrefix(x, step, |x|);
    }
    forall x: Candles, n: nat | n <= |x| ensures f(x[..n]) == f(x)[..n] {
      RunningPrefix(x, step, n);
    }
  }

  // ---------------------------------------------------------------- moving averages

  /** Smoothing 2 / (period + 1), started at the first close. */
  function EmaStep(period: nat): (Candles, Series<real>, Candle) -> real {
    (past: Candles, out: Series<real>, x: Candle) =>
      if out == [] then x.value.close
      else
        var alpha := 2.0 / (period as real + 1.0);
        alpha * x.value.close + (1.0 - alpha) * out[|out| - 1].value
  }

  function Ema(period: nat): Candles -> Series<real> {
    (bars: Candles) => Running(bars, EmaStep(period))
  }

  function Closes(bars: Candles): real {
    if bars == [] then 0.0 else Closes(bars[..|bars| - 1]) + bars[|bars| - 1].value.close
  }

  /** Mean of the last period closes, undefined until there are that many. */
  function SmaStep(period: nat): (Candles, Series<Option<real>>, Candle) -> Option<real> {
    (past: Candles, out: Series<Option<real>>, x: Candle) =>
      var seen := past + [x];
      if period == 0 || |seen| < period then None else Some(Closes(seen[|seen| - period..]) / period as real)
  }

  function Sma(period: nat): Candles -> Series<Option<real>> {
    (bars: Candles) => Running(bars, SmaStep(period))
  }

  // ---------------------------------------------------------------- relative strength

  type NonNegative = x: real | x >= 0.0

  /** Smoothed gains and losses, undefined at the first row, and the index itself. */
  datatype Strength = Undefined | Strength(gain: NonNegative, loss: NonNegative, index: Option<real>)

  function Smoothed(period: nat, before: NonNegative, x: NonNegative): NonNegative
    requires period > 0
  {
    var alpha := 1.0 / period as real;
    SmoothedSign(period, before, x);
    alpha * x + (1.0 - alpha) * before
  }

  lemma SmoothedSign(period: nat, before: NonNegative, x: NonNegative)
    requires period > 0
    ensures var alpha := 1.0 / period as real;
            alpha * x + (1.0 - alpha) * before >= 0.0
  {
    var alpha := 1.0 / period as real;
    assert 0.0 <= alpha <= 1.0;
    Product(alpha, x);
    Product(1.0 - alpha, before);
  }

  lemma Product(a: real, b: real)
    requires a >= 0.0 && b >= 0.0
    ensures a * b >= 0.0
  {
  }

  /** Undefined when there were no losses to divide by. */
  function StrengthIndex(gain: NonNegative, loss: NonNegative): Option<real> {
    if loss == 0.0 then None else Some(100.0 - 100.0 / (1.0 + gain / loss))
  }

  function RsiStep(period: nat): (Candles, Series<Strength>, Candle) -> Strength {
    (past: Candles, out: Series<Strength>, x: Candle) =>
      if past == [] || out == [] || period == 0 then Undefined
      else
        var delta := x.value.close - past[|past| - 1].value.close;
        var up: NonNegative, down: NonNegative := Higher(delta, 0.0), Higher(-delta, 0.0);
        var before := out[|out| - 1].value;
        var gain := if before.Undefined? then up else Smoothed(period, before.gain, up);
        var loss := if before.Undefined? then down else Smoothed(period, before.loss, down);
        Strength(gain, loss, StrengthIndex(gain, loss))
  }

  function Rsi(period: nat): Candles -> Series<Strength> {
    (bars: Candles) => Running(bars, RsiStep(period))
  }

  // ---------------------------------------------------------------- spread

  function SquaredSpread(bars: Candles, mean: real): real {
    if bars == [] then 0.0
    else
      var d := bars[|bars| - 1].value.close - mean;
      SquaredSpread(bars[..|bars| - 1], mean) + d * d
  }

  /** Square roots are not computed here: any function may stand for them. */
  type Root = real -> real

  /** Sample deviation of the last period closes, undefined below two. */
  function Deviation(seen: Candles, period: nat, root: Root): Option<real> {
    if period < 2 || |seen| < period then None
    else
      var window := seen[|seen| - period..];
      Some(root(SquaredSpread(window, Closes(window) / period as real) / (period - 1) as real))
  }

  function StdDevStep(period: nat, root: Root): (Candles, Series<Option<real>>, Candle) -> Option<real> {
    (past: Candles, out: Series<Option<real>>, x: Candle) => Deviation(past + [x], period, root)
  }

  function StdDev(period: nat, root: Root): Candles -> Series<Option<real>> {
    (bars: Candles) => Running(bars, StdDevStep(period, root))
  }

  datatype Bands = Bands(upper: Option<real>, middle: Option<real>, lower: Option<real>)

  function BandsStep(period: nat, width: real, root: Root): (Candles, Series<Bands>, Candle) -> Bands {
    (past: Candles, out: Series<Bands>, x: Candle) =>
      var middle, spread := SmaStep(period)(past, [], x), Deviation(past + [x], period, root);
      if middle.None? || spread.None? then Bands(None, middle, None)
      else Bands(Some(middle.value + width * spread.value), middle, Some(middle.value - width * spread.value))
  }

  function BollingerBands(period: nat, width: real, root: Root): Candles -> Series<Bands> {
    (bars: Candles) => Running(bars, BandsStep(period, width, root))
  }

  // ---------------------------------------------------------------- oscillators

  function Weighted(alpha: real, before: real, x: real): real { alpha * x + (1.0 - alpha) * before }

  /** The two averages, their difference, its smoothing, and the difference of those. */
  datatype Convergence = Convergence(fast: real, slow: real, line: real, signal: real, histogram: real)

  function Converging(fast: real, slow: real, signal: real): Convergence {
    Convergence(fast, slow, fast - slow, signal, fast - slow - signal)
  }

  function MacdStep(fast: nat, slow: nat, signal: nat): (Candles, Series<Convergence>, Candle) -> Convergence {
    (past: Candles, out: Series<Convergence>, x: Candle) =>
      if out == [] then Converging(x.value.close, x.value.close, 0.0)
      else
        var before := out[|out| - 1].value;
        var quick := Weighted(2.0 / (fast as real + 1.0), before.fast, x.value.close);
        var steady := Weighted(2.0 / (slow as real + 1.0), before.slow, x.value.close);
        Converging(quick, steady, Weighted(2.0 / (signal as real + 1.0), before.signal, quick - steady))
  }

  function Macd(fast: nat, slow: nat, signal: nat): Candles -> Series<Convergence> {
    (bars: Candles) => Running(bars, MacdStep(fast, slow, signal))
  }

  const TINY: real := 0.000000000001

  /** Undefined when there is nothing to divide by. */
  function Quotient(a: real, b: real): Option<real> {
    if b == 0.0 then None else Some(a / b)
  }

  function LowestLow(bars: Candles): real
    requires bars != []
  {
    if |bars| == 1 then bars[0].value.low else Lower(LowestLow(bars[..|bars| - 1]), bars[|bars| - 1].value.low)
  }

  function HighestHigh(bars: Candles): real
    requires bars != []
  {
    if |bars| == 1 then bars[0].value.high else Higher(HighestHigh(bars[..|bars| - 1]), bars[|bars| - 1].value.high)
  }

  /** Mean of the last period values, undefined while one of them is missing. */
  function MeanOfLast(values: seq<Option<real>>, period: nat): Option<real> {
    if period == 0 || |values| < period then None
    else
      var total := TotalOf(values[|values| - period..]);
      if total.None? then None else Some(total.value / period as real)
  }

  function TotalOf(values: seq<Option<real>>): Option<real> {
    if values == [] then Some(0.0)
    else
      var earlier, v := TotalOf(values[..|values| - 1]), values[|values| - 1];
      if earlier.None? || v.None? then None else Some(earlier.value + v.value)
  }

  datatype Stochastic = Stochastic(fastK: Option<real>, slowK: Option<real>, slowD: Option<real>)

  function FastK(seen: Candles, period: nat): Option<real> {
    if period == 0 || |seen| < period then None
    else
      var window := seen[|seen| - period..];
      Quotient(100.0 * (seen[|seen| - 1].value.close - LowestLow(window)), HighestHigh(window) - LowestLow(window) + TINY)
  }

  function StochStep(fastK: nat, slowK: nat, slowD: nat): (Candles, Series<Stochastic>, Candle) -> Stochastic {
    (past: Candles, out: Series<Stochastic>, x: Candle) =>
      var fast := FastK(past + [x], fastK);
      var slow := MeanOfLast(seq(|out|, i requires 0 <= i < |out| => out[i].value.fastK) + [fast], slowK);
      Stochastic(fast, slow, MeanOfLast(seq(|out|, i requires 0 <= i < |out| => out[i].value.slowK) + [slow], slowD))
  }

  function Stoch(fastK: nat, slowK: nat, slowD: nat): Candles -> Series<Stochastic> {
    (bars: Candles) => Running(bars, StochStep(fastK, slowK, slowD))
  }

  // ---------------------------------------------------------------- ranges and trend

  function TrueRange(past: Candles, x: Candle): real {
    var own := x.value.high - x.value.low;
    if past == [] then own
    else
      var close := past[|past| - 1].value.close;
      Higher(own, Higher(AbsReal(x.value.high - close), AbsReal(x.value.low - close)))
  }

  function AtrStep(period: nat): (Candles, Series<Option<real>>, Candle) -> Option<real> {
    (past: Candles, out: Series<Option<real>>, x: Candle) =>
      if period == 0 then None
      else if out == [] || out[|out| - 1].value.None? then Some(TrueRange(past, x))
      else Some(Weighted(1.0 / period as real, out[|out| - 1].value.value, TrueRange(past, x)))
  }

  function Atr(period: nat): Candles -> Series<Option<real>> {
    (bars: Candles) => Running(bars, AtrStep(period))
  }

  /** Smoothed true range and moves up and down, and the index while it is defined. */
  datatype Trend = Trend(range: real, up: real, down: real, index: Option<real>)

  /** The larger of the two moves counts, the downward one on a tie. */
  function Moves(past: Candles, x: Candle): (real, real) {
    if past == [] then (0.0, 0.0)
    else
      var before := past[|past| - 1].value;
      var up, down := Higher(x.value.high - before.high, 0.0), Higher(before.low - x.value.low, 0.0);
      (if up > down then up else 0.0, if down >= up then down else 0.0)
  }

  function DirectionalIndex(range: real, up: real, down: real): Option<real> {
    var plus, minus := Quotient(100.0 * up, range + TINY), Quotient(100.0 * down, range + TINY);
    if plus.None? || minus.None? then None
    else Quotient(100.0 * AbsReal(plus.value - minus.value), plus.value + minus.value + TINY)
  }

  function AdxStep(period: nat): (Candles, Series<Trend>, Candle) -> Trend {
    (past: Candles, out: Series<Trend>, x: Candle) =>
      var range, (up, down) := TrueRange(past, x), Moves(past, x);
      if period == 0 then Trend(range, up, down, None)
      else if out == [] then Trend(range, up, down, DirectionalIndex(range, up, down))
      else
        var alpha, before := 1.0 / period as real, out[|out| - 1].value;
        var r, u, d := Weighted(alpha, before.range, range), Weighted(alpha, before.up, up), Weighted(alpha, before.down, down);
        var dx := DirectionalIndex(r, u, d);
        Trend(r, u, d, if before.index.None? || dx.None? then None else Some(Weighted(alpha, before.index.value, dx.value)))
  }

  function Adx(period: nat): Candles -> Series<Trend> {
    (bars: Candles) => Running(bars, AdxStep(period))
  }

  // ---------------------------------------------------------------- sessions

  function DayOf(ts: int): int { Bucket(ts, DAY) }

  /** The open of the first row of a day. */
  function FirstOpen(bars: Candles, day: int): Option<real> {
    if bars == [] then None
    else if DayOf(bars[0].ts) == day then Some(bars[0].value.open)
    else FirstOpen(bars[1..], day)
  }

  /** Every row carries the first open of its day, looked up in the whole frame. */
  function SessionOpen(bars: Candles): Series<Option<real>> {
    seq(|bars|, i requires 0 <= i < |bars| => Stamped(bars[i].ts, FirstOpen(bars, DayOf(bars[i].ts))))
  }

  lemma {:induction false} FirstOpenPrefix(bars: Candles, n: nat, i: nat)
    requires i < n <= |bars|
    ensures FirstOpen(bars[..n], DayOf(bars[i].ts)) == FirstOpen(bars, DayOf(bars[i].ts))
  {
    hide DayOf;
    if i > 0 && DayOf(bars[0].ts) != DayOf(bars[i].ts) {
      FirstOpenPrefix(bars[1..], n - 1, i - 1);
      assert bars[1..][..n - 1] == bars[..n][1..];
    }
  }

  /** Although it looks at the whole frame, the session open never depends on later rows. */
  lemma SessionOpenIsStable()
    ensures PrefixStable(SessionOpen)
  {
    hide DayOf, FirstOpen;
    forall x: Candles, n: nat | n <= |x| ensures SessionOpen(x[..n]) == SessionOpen(x)[..n] {
      forall i | 0 <= i < n ensures SessionOpen(x[..n])[i] == SessionOpen(x)[i] {
        FirstOpenPrefix(x, n, i);
      }
    }
  }

  /** Typical price times volume, and volume, of a day's rows. */
  function DayFlow(bars: Candles, day: int): (real, real) {
    if bars == [] then (0.0, 0.0)
    else
      var flow, x := DayFlow(bars[..|bars| - 1], day), bars[|bars| - 1];
      if DayOf(x.ts) != day then flow
      else (flow.0 + (x.value.high + x.value.low + x.value.close) / 3.0 * x.value.volume, flow.1 + x.value.volume)
  }

  function VwapStep(): (Candles, Series<Option<real>>, Candle) -> Option<real> {
    (past: Candles, out: Series<Option<real>>, x: Candle) =>
      var flow := DayFlow(past + [x], DayOf(x.ts));
      if flow.1 == 0.0 then None else Some(flow.0 / flow.1)
  }

  function SessionVwap(): Candles -> Series<Option<real>> {
    (bars: Candles) => Running(bars, VwapStep())
  }

  // ---------------------------------------------------------------- Heikin-Ashi

  datatype Ohlc = Ohlc(open: real, high: real, low: real, close: real)

  function AverageClose(bar: Ohlcv): real { (bar.open + bar.high + bar.low + bar.close) / 4.0 }

  function HeikinAshiBar(open: real, x: Ohlcv): Ohlc {
    var close := AverageClose(x);
    Ohlc(open, Higher(x.high, Higher(open, close)), Lower(x.low, Lower(open, close)), close)
  }

  function HeikinAshiStep(past: Candles, out: Series<Ohlc>, x: Candle): Ohlc {
    var open :=
      if out == [] then (x.value.open + x.value.close) / 2.0
      else (out[|out| - 1].value.open + out[|out| - 1].value.close) / 2.0;
    HeikinAshiBar(open, x.value)
  }

  function HeikinAshi(bars: Candles): Series<Ohlc> { Running(bars, HeikinAshiStep) }

  /** The opens are filled into an array front to back. */
  method HeikinAshiBars(bars: Candles) returns (out: Series<Ohlc>)
    ensures out == HeikinAshi(bars)
  {
    var opens := new real[|bars|](_ => 0.0);
    for i := 0 to |bars|
      invariant forall k :: 0 <= k < i ==> opens[k] == HeikinAshi(bars)[k].value.open
    {
      HeikinAshiAt(bars, i);
      if i == 0 {
        opens[i] := (bars[i].value.open + bars[i].value.close) / 2.0;
      } else {
        opens[i] := (opens[i - 1] + AverageClose(bars[i - 1].value)) / 2.0;
      }
    }
    out := [];
    for i := 0 to |bars|
      invariant forall k :: 0 <= k < |bars| ==> opens[k] == HeikinAshi(bars)[k].value.open
      invariant out == HeikinAshi(bars)[..i]
    {
      HeikinAshiAt(bars, i);
      assert opens[i] == HeikinAshi(bars)[i].value.open;
      assert HeikinAshi(bars)[..i + 1] == HeikinAshi(bars)[..i] + [HeikinAshi(bars)[i]];
      out := out + [Stamped(bars[i].ts, HeikinAshiBar(opens[i], bars[i].value))];
    }
  }

  lemma HeikinAshiAt(bars: Candles, i: nat)
    requires i < |bars|
    ensures HeikinAshi(bars)[i] == Stamped(bars[i].ts, HeikinAshiStep(bars[..i], HeikinAshi(bars)[..i], bars[i]))
    ensures i > 0 ==> HeikinAshi(bars)[i - 1].value.close == AverageClose(bars[i - 1].value)
  {
    RunningPrefix(bars, HeikinAshiStep, i);
    RunningPrefix(bars, HeikinAshiStep, i + 1);
    assert bars[..i + 1][..i] == bars[..i];
    if i > 0 {
      RunningPrefix(bars, HeikinAshiStep, i - 1);
      assert bars[..i][..i - 1] == bars[..i - 1];
    }
  }

  /** The indicators above that look back only. */
  lemma IndicatorsAreStable(period: nat, second: nat, third: nat, width: real, root: Root)
    ensures PrefixStable(Ema(period)) && PrefixStable(Sma(period)) && PrefixStable(Rsi(period))
    ensures PrefixStable(SessionVwap()) && PrefixStable(HeikinAshi) && PrefixStable(SessionOpen)
    ensures PrefixStable(StdDev(period, root)) && PrefixStable(BollingerBands(period, width, root))
    ensures PrefixStable(Macd(period, second, third)) && PrefixStable(Stoch(period, second, third))
    ensures PrefixStable(Atr(period)) && PrefixStable(Adx(period))
  {
    hide PrefixStable, Running, EmaStep, SmaStep, RsiStep, VwapStep, HeikinAshiStep, StdDevStep, BandsStep, MacdStep, StochStep,
      AtrStep, AdxStep;
    RunningIsStable(StdDev(period, root), StdDevStep(period, root));
    RunningIsStable(BollingerBands(period, width, root), BandsStep(period, width, root));
    RunningIsStable(Macd(period, second, third), MacdStep(period, second, third));
    RunningIsStable(Stoch(period, second, third), StochStep(period, second, third));
    RunningIsStable(Atr(period), AtrStep(period));
    RunningIsStable(Adx(period), AdxStep(period));
    RunningIsStable(Ema(period), EmaStep(period));
    RunningIsStable(Sma(period), SmaStep(period));
    RunningIsStable(Rsi(period), RsiStep(period));
    RunningIsStable(SessionVwap(), VwapStep());
    RunningIsStable(HeikinAshi, HeikinAshiStep);
    SessionOpenIsStable();
  }

  /** The daily aggregate is not: a later row of the day changes it. */
  lemma DailyLooksAhead()
    ensures exists x: Candles :: |x| == 2 && Direct(x[..1], DAY) != [] && Direct(x, DAY) != []
                              && Direct(x, DAY)[0].ts <= x[0].ts && Direct(x[..1], DAY)[0] != Direct(x, DAY)[0]
  {
    var a, b := Stamped(0, Ohlcv(1.0, 1.0, 1.0, 1.0, 1.0)), Stamped(60, Ohlcv(2.0, 2.0, 2.0, 2.0, 2.0));
    var x := [a, b];
    assert x[..1] == [a] && [] + [a] == [a] && [a] + [b] == x;
    NothingDirect(DAY);
    assert Bucket(0, DAY) == 0 && Bucket(60, DAY) == 0;
    DirectSnoc([], a, DAY);
    assert BucketsOf([a], DAY) == BucketsOf([], DAY) + {0};
    DirectSnoc([a], b, DAY);
  }
}
