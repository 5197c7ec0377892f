/** Building the account series in place, and the headline figures drawn from it. */
module ReportSeries {
  import opened Types
  import opened Sums
  import opened Sorting
  import opened ReportLots
  import opened OpenLots
  import opened ReportAccount

  datatype AccountSeries = AccountSeries(points: seq<EquityPoint>, run: Running, openLots: seq<Lot>)

  /** What the equity point of a timestamp must say about the account at that moment. */
  ghost predicate PointFor(p: EquityPoint, t: int, run: Running) {
    && p.timestamp == t
    && p.cash == run.cash
    && p.equity == Equity(run)
    && p.grossExposure == Sum(run.positions.Keys, ExposureOf(run.positions, run.prices))
  }

  ghost predicate SeriesFor(points: seq<EquityPoint>, initial: real, bars: seq<Bar>, fills: seq<FillEvent>, times: seq<int>) {
    && |points| <= |times|
    && forall k :: 0 <= k < |points| ==>
         PointFor(points[k], times[k], AccountAfter(initial, bars, fills, times[..k + 1]).run)
  }

  function Group<T>(groups: map<int, seq<T>>, t: int): seq<T> {
    if t in groups then groups[t] else []
  }

  method GroupBars(bars: seq<Bar>) returns (groups: map<int, seq<Bar>>)
    ensures groups.Keys == BarTimes(bars)
    ensures forall t :: Group(groups, t) == BarsAt(bars, t)
  {
    groups := map[];
    for n := 0 to |bars|
      invariant groups.Keys == BarTimes(bars[..n])
      invariant forall t :: Group(groups, t) == BarsAt(bars[..n], t)
    {
      var t := bars[n].timestamp;
      assert bars[..n + 1][..n] == bars[..n];
      groups := groups[t := Group(groups, t) + [bars[n]]];
    }
    assert bars[..|bars|] == bars;
  }

  method GroupFills(fills: seq<FillEvent>) returns (groups: map<int, seq<FillEvent>>)
    ensures groups.Keys == FillTimes(fills)
    ensures forall t :: Group(groups, t) == FillsAt(fills, t)
  {
    groups := map[];
    for n := 0 to |fills|
      invariant groups.Keys == FillTimes(fills[..n])
      invariant forall t :: Group(groups, t) == FillsAt(fills[..n], t)
    {
      var t := fills[n].timestamp;
      assert fills[..n + 1][..n] == fills[..n];
      groups := groups[t := Group(groups, t) + [fills[n]]];
    }
    assert fills[..|fills|] == fills;
  }

  method MarkBars(prices: map<Instrument, real>, bars: seq<Bar>) returns (marked: map<Instrument, real>)
    ensures marked == MarkedBars(prices, bars)
  {
    marked := prices;
    for n := 0 to |bars|
      invariant marked == MarkedBars(prices, bars[..n])
    {
      assert bars[..n + 1][..n] == bars[..n];
      marked := marked[bars[n].instrument := bars[n].close];
    }
    assert bars[..|bars|] == bars;
  }

  /** Books one timestamp's fills into cash, positions and the lot book. */
  method BookFills(book: LotList, run: Running, fills: seq<FillEvent>) returns (after: Running)
    requires book.Valid() && WellShaped(book.Contents())
    modifies book, book.lots
    ensures book.Valid() && WellShaped(book.Contents())
    ensures forall j :: 0 <= j < |book.lots| ==> book.lots[j] in old(book.lots) || fresh(book.lots[j])
    ensures Account(after, book.Contents()) == BookedAll(Account(run, old(book.Contents())), fills)
  {
    hide Value, Profit, ReturnOn, AveragePrice, ApplyFillToLots, WellShaped;
    after := run;
    ghost var start := Account(run, book.Contents());
    for n := 0 to |fills|
      invariant book.Valid() && WellShaped(book.Contents())
      invariant forall j :: 0 <= j < |book.lots| ==> book.lots[j] in old(book.lots) || fresh(book.lots[j])
      invariant Account(after, book.Contents()) == BookedAll(start, fills[..n])
    {
      assert fills[..n + 1][..n] == fills[..n];
      var fill := fills[n];
      if Signed(fill) == 0 {
        after := after.(warnings := after.warnings + 1);
      } else {
        var closed, unmatchedClose := book.ApplyFill(fill);
        after := Settled(after, fill, closed, unmatchedClose, |book.lots|);
      }
    }
    assert fills[..|fills|] == fills;
  }

  /** Sums marked value and gross exposure over the open positions. */
  method MarkPositions(run: Running) returns (worth: real, gross: real)
    ensures worth == Sum(run.positions.Keys, WorthOf(run.positions, run.prices))
    ensures gross == Sum(run.positions.Keys, ExposureOf(run.positions, run.prices))
  {
    hide Value;
    worth, gross := 0.0, 0.0;
    var rest := run.positions.Keys;
    while rest != {}
      invariant rest <= run.positions.Keys
      invariant worth == Sum(run.positions.Keys, WorthOf(run.positions, run.prices))
                       - Sum(rest, WorthOf(run.positions, run.prices))
      invariant gross == Sum(run.positions.Keys, ExposureOf(run.positions, run.prices))
                       - Sum(rest, ExposureOf(run.positions, run.prices))
      decreases |rest|
    {
      var i :| i in rest;
      var price := if i in run.prices then run.prices[i] else 0.0;
      SumExtract(rest, WorthOf(run.positions, run.prices), i);
      SumExtract(rest, ExposureOf(run.positions, run.prices), i);
      gross := gross + Value(Abs(run.positions[i]) as real, price, i.multiplier);
      worth := worth + Value(run.positions[i] as real, price, i.multiplier);
      rest := rest - {i};
    }
  }

  /**
   The account series. `now` stamps the single point of a run without bars or
   fills. Fills come sorted by timestamp and sequence.
   */
  method BuildAccountSeries(fills: seq<FillEvent>, bars: seq<Bar>, initial: real, now: int) returns (series: AccountSeries)
    ensures var times := Timestamps(bars, fills);
            && Account(series.run, series.openLots) == AccountAfter(initial, bars, fills, times)
            && if times == [] then series.points == [EquityPoint(now, initial, initial, 0.0)]
               else |series.points| == |times| && SeriesFor(series.points, initial, bars, fills, times)
  {
    hide *;
    var barGroups := GroupBars(bars);
    var fillGroups := GroupFills(fills);
    var times := Sorted(barGroups.Keys + fillGroups.Keys);
    var run := Opening(initial).run;
    var book := new LotList();
    var points: seq<EquityPoint> := [];
    StartOfSeries(initial, bars, fills, times);
    assert book.Contents() == [] && times[..0] == [];
    for n := 0 to |times|
      invariant fresh(book) && forall j :: 0 <= j < |book.lots| ==> fresh(book.lots[j])
      invariant book.Valid() && WellShaped(book.Contents())
      invariant Account(run, book.Contents()) == AccountAfter(initial, bars, fills, times[..n])
      invariant |points| == n && SeriesFor(points, initial, bars, fills, times)
    {
      var t := times[n];
      OneMoreTimestamp(initial, bars, fills, times, n);
      var point;
      run, point := OneTimestamp(book, run, t, Group(barGroups, t), Group(fillGroups, t));
      SeriesGrows(points, point, initial, bars, fills, times);
      points := points + [point];
    }
    assert times[..|times|] == times;
    if times == [] {
      points := [EquityPoint(now, initial, initial, 0.0)];
    }
    series := AccountSeries(points, run, book.Contents());
  }

  lemma StartOfSeries(initial: real, bars: seq<Bar>, fills: seq<FillEvent>, times: seq<int>)
    ensures AccountAfter(initial, bars, fills, []) == Account(Opening(initial).run, [])
    ensures Timestamps(bars, fills) == Sorted(BarTimes(bars) + FillTimes(fills))
    ensures WellShaped([])
    ensures SeriesFor([], initial, bars, fills, times)
  {
  }

  lemma SeriesGrows(points: seq<EquityPoint>, p: EquityPoint, initial: real, bars: seq<Bar>, fills: seq<FillEvent>, times: seq<int>)
    requires SeriesFor(points, initial, bars, fills, times) && |points| < |times|
    requires PointFor(p, times[|points|], AccountAfter(initial, bars, fills, times[..|points| + 1]).run)
    ensures SeriesFor(points + [p], initial, bars, fills, times)
  {
    hide PointFor, AccountAfter;
  }

  /** Marks a timestamp's bars, books its fills and takes its equity point. */
  method OneTimestamp(book: LotList, before: Running, t: int, bars: seq<Bar>, fills: seq<FillEvent>)
    returns (run: Running, point: EquityPoint)
    requires book.Valid() && WellShaped(book.Contents())
    modifies book, book.lots
    ensures book.Valid() && WellShaped(book.Contents())
    ensures forall j :: 0 <= j < |book.lots| ==> book.lots[j] in old(book.lots) || fresh(book.lots[j])
    ensures Account(run, book.Contents()) == AfterTimestamp(Account(before, old(book.Contents())), bars, fills)
    ensures PointFor(point, t, run)
  {
    hide BookedAll, MarkedBars, WellShaped, Value, Sum;
    var marked := MarkBars(before.prices, bars);
    run := BookFills(book, before.(prices := marked), fills);
    var worth, gross := MarkPositions(run);
    point := EquityPoint(t, run.cash + worth, run.cash, gross);
  }

  lemma OneMoreTimestamp(initial: real, bars: seq<Bar>, fills: seq<FillEvent>, times: seq<int>, n: nat)
    requires n < |times|
    ensures AccountAfter(initial, bars, fills, times[..n + 1])
         == AfterTimestamp(AccountAfter(initial, bars, fills, times[..n]), BarsAt(bars, times[n]), FillsAt(fills, times[n]))
  {
    hide BookedAll, MarkedBars;
    assert times[..n + 1][..n] == times[..n];
  }

  /** The identity at every point of every series. */
  lemma EveryPointBalances(fills: seq<FillEvent>, bars: seq<Bar>, initial: real, points: seq<EquityPoint>, times: seq<int>, k: nat)
    requires SeriesFor(points, initial, bars, fills, times) && k < |points|
    ensures var a := AccountAfter(initial, bars, fills, times[..k + 1]);
            points[k].equity == initial + Total(a.run.closed, PnlOf(Everything)) + Total(a.lots, OpenProfit(a.run.prices))
  {
    AlwaysConsistent(initial, bars, fills, times[..k + 1]);
    AccountingIdentity(initial, AccountAfter(initial, bars, fills, times[..k + 1]));
  }

  // ---------------------------------------------------------------- headline figures

  datatype Metrics = Metrics(finalEquity: real, netPnl: real, grossProfit: real, grossLoss: real)

  function GainOf(): ClosedTrade -> real {
    (t: ClosedTrade) => if t.pnl > 0.0 then t.pnl else 0.0
  }

  function LossOf(): ClosedTrade -> real {
    (t: ClosedTrade) => if t.pnl < 0.0 then t.pnl else 0.0
  }

  method ComputeMetrics(series: AccountSeries, initial: real) returns (m: Metrics)
    ensures m.finalEquity == if series.points == [] then initial else series.points[|series.points| - 1].equity
    ensures m.netPnl == m.finalEquity - initial
    ensures m.grossProfit == Total(series.run.closed, GainOf())
    ensures m.grossLoss == Total(series.run.closed, LossOf())
  {
    var finalEquity := if series.points == [] then initial else series.points[|series.points| - 1].equity;
    var closed := series.run.closed;
    var profit, loss := 0.0, 0.0;
    for n := 0 to |closed|
      invariant profit == Total(closed[..n], GainOf()) && loss == Total(closed[..n], LossOf())
    {
      assert closed[..n + 1][..n] == closed[..n];
      if closed[n].pnl > 0.0 {
        profit := profit + closed[n].pnl;
      } else if closed[n].pnl < 0.0 {
        loss := loss + closed[n].pnl;
      }
    }
    assert closed[..|closed|] == closed;
    m := Metrics(finalEquity, finalEquity - initial, profit, loss);
  }

  /** Net P&L is gross profit plus gross loss plus the open profit of the lots still held. */
  method ReportedPnl(fills: seq<FillEvent>, bars: seq<Bar>, initial: real, now: int) returns (series: AccountSeries, m: Metrics)
    ensures m.netPnl == m.grossProfit + m.grossLoss + Total(series.openLots, OpenProfit(series.run.prices))
    ensures series.openLots == [] ==> m.netPnl == m.grossProfit + m.grossLoss
  {
    hide *;
    series := BuildAccountSeries(fills, bars, initial, now);
    m := ComputeMetrics(series, initial);
    SeriesBalances(fills, bars, initial, now, series);
    SplitPnl(series.run.closed);
    TotalNone(OpenProfit(series.run.prices));
  }

  lemma SplitPnl(closed: seq<ClosedTrade>)
    ensures Total(closed, PnlOf(Everything)) == Total(closed, GainOf()) + Total(closed, LossOf())
  {
    TotalSplit(closed, PnlOf(Everything), GainOf(), LossOf());
  }

  lemma SeriesBalances(fills: seq<FillEvent>, bars: seq<Bar>, initial: real, now: int, series: AccountSeries)
    requires var times := Timestamps(bars, fills);
             && Account(series.run, series.openLots) == AccountAfter(initial, bars, fills, times)
             && if times == [] then series.points == [EquityPoint(now, initial, initial, 0.0)]
                else |series.points| == |times| && SeriesFor(series.points, initial, bars, fills, times)
    ensures |series.points| > 0
    ensures series.points[|series.points| - 1].equity
         == initial + Total(series.run.closed, PnlOf(Everything)) + Total(series.openLots, OpenProfit(series.run.prices))
  {
    hide Value, Profit, Total, SeriesFor, BookedAll, MarkedBars, OpenProfit;
    var times := Timestamps(bars, fills);
    if times == [] {
      TotalNone(PnlOf(Everything));
      TotalNone(OpenProfit(series.run.prices));
    } else {
      LastPointBalances(fills, bars, initial, series, times);
    }
  }

  lemma LastPointBalances(fills: seq<FillEvent>, bars: seq<Bar>, initial: real, series: AccountSeries, times: seq<int>)
    requires times != [] && |series.points| == |times| && SeriesFor(series.points, initial, bars, fills, times)
    requires Account(series.run, series.openLots) == AccountAfter(initial, bars, fills, times)
    ensures series.points[|times| - 1].equity
         == initial + Total(series.run.closed, PnlOf(Everything)) + Total(series.openLots, OpenProfit(series.run.prices))
  {
    EveryPointBalances(fills, bars, initial, series.points, times, |times| - 1);
    assert times[..|times| - 1 + 1] == times;
  }
}
