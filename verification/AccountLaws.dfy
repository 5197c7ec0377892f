/**
 What the report's account shows of the fills and bars it was built from: cash,
 marks, closed trades, warnings, exposure, and the moments it has points for.
 */
module AccountLaws {
  import opened Types
  import opened Sums
  import opened Sorting
  import opened ReportLots
  import opened ReportAccount

  // ---------------------------------------------------------------- the moments

  lemma {:induction false} BarTimesAre(bars: seq<Bar>, t: int)
    ensures t in BarTimes(bars) <==> exists k :: 0 <= k < |bars| && bars[k].timestamp == t
  {
    if bars != [] {
      var n := |bars| - 1;
      BarTimesAre(bars[..n], t);
      if k :| 0 <= k < n && bars[..n][k].timestamp == t { assert bars[k].timestamp == t; }
      if k :| 0 <= k < |bars| && bars[k].timestamp == t { assert k < n ==> bars[..n][k].timestamp == t; }
    }
  }

  lemma {:induction false} FillTimesAre(fills: seq<FillEvent>, t: int)
    ensures t in FillTimes(fills) <==> exists k :: 0 <= k < |fills| && fills[k].timestamp == t
  {
    if fills != [] {
      var n := |fills| - 1;
      FillTimesAre(fills[..n], t);
      if k :| 0 <= k < n && fills[..n][k].timestamp == t { assert fills[k].timestamp == t; }
      if k :| 0 <= k < |fills| && fills[k].timestamp == t { assert k < n ==> fills[..n][k].timestamp == t; }
    }
  }

  /** One moment for every time of a bar or a fill, in order. */
  lemma MomentsAre(bars: seq<Bar>, fills: seq<FillEvent>, t: int)
    ensures t in Timestamps(bars, fills)
       <==> (exists k :: 0 <= k < |bars| && bars[k].timestamp == t) || (exists k :: 0 <= k < |fills| && fills[k].timestamp == t)
    ensures forall i, j :: 0 <= i < j < |Timestamps(bars, fills)| ==> Timestamps(bars, fills)[i] < Timestamps(bars, fills)[j]
  {
    BarTimesAre(bars, t);
    FillTimesAre(fills, t);
    var times := Timestamps(bars, fills);
    forall i, j | 0 <= i < j < |times| ensures times[i] < times[j] { }
  }

  /** What a moment books and marks, in the order it came. */
  lemma {:induction false} AtMoment(bars: seq<Bar>, bar: Bar, fills: seq<FillEvent>, fill: FillEvent, t: int)
    ensures BarsAt([], t) == [] && FillsAt([], t) == []
    ensures BarsAt(bars + [bar], t) == if bar.timestamp == t then BarsAt(bars, t) + [bar] else BarsAt(bars, t)
    ensures FillsAt(fills + [fill], t) == if fill.timestamp == t then FillsAt(fills, t) + [fill] else FillsAt(fills, t)
  {
    assert (bars + [bar])[..|bars|] == bars && (fills + [fill])[..|fills|] == fills;
  }

  // ---------------------------------------------------------------- cash

  /** Money a fill brings in: what is bought is paid for. */
  function CashIn(): FillEvent -> real {
    (fill: FillEvent) =>
      if (fill.side == Long) == (fill.quantity >= 0) then -(fill.quantity as real * fill.price * fill.instrument.multiplier)
      else fill.quantity as real * fill.price * fill.instrument.multiplier
  }

  lemma CashOfOne(fill: FillEvent)
    ensures CashIn()(fill) == -Value(Signed(fill) as real, fill.price, fill.instrument.multiplier)
  {
    ValueNegate(fill.quantity as real, fill.price, fill.instrument.multiplier);
  }

  lemma {:induction false} BookedCash(a: Account, fills: seq<FillEvent>)
    ensures BookedAll(a, fills).run.cash == a.run.cash + Total(fills, CashIn())
  {
    hide ApplyFillToLots, CashIn, Value;
    if fills != [] {
      var fill := fills[|fills| - 1];
      BookedCash(a, fills[..|fills| - 1]);
      CashOfOne(fill);
      ValueZero(fill.price, fill.instrument.multiplier);
    }
  }

  ghost function CashBy(fills: seq<FillEvent>): int -> real {
    t => Total(FillsAt(fills, t), CashIn())
  }

  lemma {:induction false} AccountCash(initial: real, bars: seq<Bar>, fills: seq<FillEvent>, times: seq<int>)
    requires StrictlyIncreasing(times)
    ensures AccountAfter(initial, bars, fills, times).run.cash == initial + Sum(Moments(times), CashBy(fills))
  {
    hide BookedAll, MarkedBars, FillsAt, CashIn, Sum;
    if times == [] {
      SumNone(Moments(times), CashBy(fills));
    } else {
      var init, t := times[..|times| - 1], times[|times| - 1];
      AccountCash(initial, bars, fills, init);
      var before := AccountAfter(initial, bars, fills, init);
      BookedCash(before.(run := before.run.(prices := MarkedBars(before.run.prices, BarsAt(bars, t)))), FillsAt(fills, t));
      assert Moments(times) - {t} == Moments(init);
      SumExtract(Moments(times), CashBy(fills), t);
    }
  }

  lemma {:induction false} CashTotal(fills: seq<FillEvent>, times: set<int>)
    requires FillTimes(fills) <= times
    ensures Sum(times, CashBy(fills)) == Total(fills, CashIn())
  {
    hide CashIn, Sum;
    if fills == [] {
      SumNone({}, CashBy(fills));
      TotalNone(CashIn());
      SumWiden({}, times, CashBy(fills));
    } else {
      var init, fill := fills[..|fills| - 1], fills[|fills| - 1];
      CashTotal(init, times);
      TotalConcat(FillsAt(init, fill.timestamp), [fill], CashIn());
      TotalOne(fill, CashIn());
      forall t | t in times && t != fill.timestamp ensures CashBy(fills)(t) == CashBy(init)(t) {
        assert FillsAt(fills, t) == FillsAt(init, t);
      }
      SumPoint(times, CashBy(fills), CashBy(init), fill.timestamp);
    }
  }

  /** At the end of the series, cash is the initial equity and the money every fill brought in or took. */
  lemma SeriesCash(initial: real, bars: seq<Bar>, fills: seq<FillEvent>)
    ensures AccountAfter(initial, bars, fills, Timestamps(bars, fills)).run.cash == initial + Total(fills, CashIn())
  {
    hide AccountAfter, Total, Sum;
    var times := Timestamps(bars, fills);
    AccountCash(initial, bars, fills, times);
    CashTotal(fills, Moments(times));
  }

  // ---------------------------------------------------------------- marks

  /** The last of a list of bars that is of an instrument. */
  predicate IsLastBar(bars: seq<Bar>, k: int, i: Instrument) {
    0 <= k < |bars| && bars[k].instrument == i && forall j :: k < j < |bars| ==> bars[j].instrument != i
  }

  ghost predicate HasBar(bars: seq<Bar>, i: Instrument) { exists k :: IsLastBar(bars, k, i) }

  lemma LastBarSnoc(init: seq<Bar>, bar: Bar, i: Instrument, k: int)
    ensures IsLastBar(init + [bar], k, i) <==> if bar.instrument == i then k == |init| else IsLastBar(init, k, i)
    ensures 0 <= k < |init| ==> (init + [bar])[k] == init[k]
  {
    var bars := init + [bar];
    assert bars[|init|] == bar && forall j :: 0 <= j < |init| ==> bars[j] == init[j];
  }

  /** Marking sets every instrument with a bar to the close of its last one and leaves the others. */
  lemma {:induction false} MarksAre(prices: map<Instrument, real>, bars: seq<Bar>, i: Instrument)
    ensures var marked := MarkedBars(prices, bars);
            && (forall k :: IsLastBar(bars, k, i) ==> i in marked && marked[i] == bars[k].close)
            && (!HasBar(bars, i) ==> (i in marked <==> i in prices) && (i in prices ==> marked[i] == prices[i]))
  {
    if bars != [] {
      var init, bar := bars[..|bars| - 1], bars[|bars| - 1];
      MarksAre(prices, init, i);
      assert bars == init + [bar];
      forall k
        ensures IsLastBar(bars, k, i) <==> if bar.instrument == i then k == |init| else IsLastBar(init, k, i)
        ensures IsLastBar(init, k, i) ==> 0 <= k < |init| && bars[k] == init[k]
      {
        LastBarSnoc(init, bar, i, k);
      }
      assert bar.instrument == i ==> IsLastBar(bars, |init|, i);
      hide IsLastBar;
    }
  }

  /** The first fill of an instrument that trades anything. */
  predicate IsFirstFill(fills: seq<FillEvent>, k: int, i: Instrument) {
    && 0 <= k < |fills| && fills[k].instrument == i && fills[k].quantity != 0
    && forall j :: 0 <= j < k ==> fills[j].instrument != i || fills[j].quantity == 0
  }

  ghost predicate HasFill(fills: seq<FillEvent>, i: Instrument) { exists k :: IsFirstFill(fills, k, i) }

  /** Booking marks an instrument that has no price yet at its first fill, and no other. */
  lemma {:induction false} BookedMarks(a: Account, fills: seq<FillEvent>, i: Instrument)
    ensures var before, after := a.run.prices, BookedAll(a, fills).run.prices;
            && (i in before ==> i in after && after[i] == before[i])
            && (i !in before ==>
                  && (forall k :: IsFirstFill(fills, k, i) ==> i in after && after[i] == fills[k].price)
                  && (!HasFill(fills, i) ==> i !in after))
  {
    hide ApplyFillToLots, Value;
    if fills != [] {
      var n := |fills| - 1;
      var init := fills[..n];
      BookedMarks(a, init, i);
      assert forall j :: 0 <= j < n ==> init[j] == fills[j];
      if HasFill(init, i) {
        var k :| IsFirstFill(init, k, i);
        assert IsFirstFill(fills, k, i);
        forall j | IsFirstFill(fills, j, i) ensures j == k { }
      } else {
        forall k | IsFirstFill(fills, k, i) ensures k == n {
          assert k < n ==> IsFirstFill(init, k, i);
        }
        if fills[n].instrument == i && fills[n].quantity != 0 {
          NoneBefore(init, i);
          assert IsFirstFill(fills, n, i);
        }
      }
    }
  }

  lemma {:induction false} NoneBefore(fills: seq<FillEvent>, i: Instrument)
    requires !HasFill(fills, i)
    ensures forall j :: 0 <= j < |fills| ==> fills[j].instrument != i || fills[j].quantity == 0
  {
    if fills != [] {
      var n := |fills| - 1;
      assert forall j :: 0 <= j < n ==> fills[..n][j] == fills[j];
      if k :| IsFirstFill(fills[..n], k, i) {
        assert IsFirstFill(fills, k, i);
      }
      NoneBefore(fills[..n], i);
      if fills[n].instrument == i && fills[n].quantity != 0 {
        assert IsFirstFill(fills, n, i);
      }
    }
  }

  // ---------------------------------------------------------------- marks over the series

  /** The latest mark of an instrument by some moments: its last bar at the latest of them that has one. */
  ghost predicate LatestClose(bars: seq<Bar>, times: seq<int>, i: Instrument, price: real) {
    exists n, k :: LatestAt(bars, times, i, n, k) && BarsAt(bars, times[n])[k].close == price
  }

  ghost predicate LatestAt(bars: seq<Bar>, times: seq<int>, i: Instrument, n: int, k: int) {
    && 0 <= n < |times| && IsLastBar(BarsAt(bars, times[n]), k, i)
    && forall m :: n < m < |times| ==> !HasBar(BarsAt(bars, times[m]), i)
  }

  /** The first moment at which an instrument trades gives its price. */
  ghost predicate FirstPrice(fills: seq<FillEvent>, times: seq<int>, i: Instrument, price: real) {
    exists n, k :: FirstAt(fills, times, i, n, k) && FillsAt(fills, times[n])[k].price == price
  }

  ghost predicate FirstAt(fills: seq<FillEvent>, times: seq<int>, i: Instrument, n: int, k: int) {
    && 0 <= n < |times| && IsFirstFill(FillsAt(fills, times[n]), k, i)
    && forall m :: 0 <= m < n ==> !HasFill(FillsAt(fills, times[m]), i)
  }

  ghost predicate NoBar(bars: seq<Bar>, times: seq<int>, i: Instrument) {
    forall n :: 0 <= n < |times| ==> !HasBar(BarsAt(bars, times[n]), i)
  }

  ghost predicate NoFill(fills: seq<FillEvent>, times: seq<int>, i: Instrument) {
    forall n :: 0 <= n < |times| ==> !HasFill(FillsAt(fills, times[n]), i)
  }

  /** What the mark of an instrument has to be after some moments. */
  ghost predicate MarkedRight(bars: seq<Bar>, fills: seq<FillEvent>, times: seq<int>, i: Instrument, mark: Option<real>) {
    if !NoBar(bars, times, i) then mark.Some? && LatestClose(bars, times, i, mark.value)
    else if !NoFill(fills, times, i) then mark.Some? && FirstPrice(fills, times, i, mark.value)
    else mark.None?
  }

  function MarkOf(prices: map<Instrument, real>, i: Instrument): Option<real> {
    if i in prices then Some(prices[i]) else None
  }

  lemma LaterBar(bars: seq<Bar>, fills: seq<FillEvent>, times: seq<int>, i: Instrument, k: int)
    requires times != [] && IsLastBar(BarsAt(bars, times[|times| - 1]), k, i)
    ensures MarkedRight(bars, fills, times, i, Some(BarsAt(bars, times[|times| - 1])[k].close))
  {
    hide BarsAt, FillsAt;
    var n := |times| - 1;
    assert HasBar(BarsAt(bars, times[n]), i);
    hide IsLastBar, HasBar;
    assert LatestAt(bars, times, i, n, k);
  }

  /** Without a bar at the last moment, a mark there was stays right. */
  lemma NoLaterBar(bars: seq<Bar>, fills: seq<FillEvent>, times: seq<int>, i: Instrument, mark: Option<real>)
    requires times != [] && MarkedRight(bars, fills, times[..|times| - 1], i, mark) && mark.Some?
    requires !HasBar(BarsAt(bars, times[|times| - 1]), i)
    ensures MarkedRight(bars, fills, times, i, mark)
  {
    hide BarsAt, FillsAt, HasBar, HasFill;
    var last := |times| - 1;
    var init := times[..last];
    assert forall m :: 0 <= m < last ==> init[m] == times[m];
    if !NoBar(bars, init, i) {
      var n, k :| LatestAt(bars, init, i, n, k) && BarsAt(bars, init[n])[k].close == mark.value;
      var b :| 0 <= b < last && HasBar(BarsAt(bars, init[b]), i);
      assert HasBar(BarsAt(bars, times[b]), i);
      assert LatestAt(bars, times, i, n, k);
    } else {
      assert NoBar(bars, times, i);
      var n, k :| FirstAt(fills, init, i, n, k) && FillsAt(fills, init[n])[k].price == mark.value;
      var b :| 0 <= b < last && HasFill(FillsAt(fills, init[b]), i);
      assert HasFill(FillsAt(fills, times[b]), i);
      assert FirstAt(fills, times, i, n, k);
    }
  }

  /** The first mark of an instrument without bars comes from a fill. */
  lemma FirstMark(bars: seq<Bar>, fills: seq<FillEvent>, times: seq<int>, i: Instrument, mark: Option<real>)
    requires times != [] && MarkedRight(bars, fills, times[..|times| - 1], i, None)
    requires !HasBar(BarsAt(bars, times[|times| - 1]), i)
    requires var now := FillsAt(fills, times[|times| - 1]);
             if HasFill(now, i) then exists k :: IsFirstFill(now, k, i) && mark == Some(now[k].price) else mark == None
    ensures MarkedRight(bars, fills, times, i, mark)
  {
    hide BarsAt, FillsAt, HasBar, HasFill;
    var last := |times| - 1;
    var init, now := times[..last], FillsAt(fills, times[last]);
    assert forall m :: 0 <= m < last ==> init[m] == times[m];
    assert NoBar(bars, init, i) && NoFill(fills, init, i);
    assert NoBar(bars, times, i);
    if HasFill(now, i) {
      var k :| IsFirstFill(now, k, i) && mark == Some(now[k].price);
      assert FirstAt(fills, times, i, last, k);
    }
  }

  /**
   After any moments, an instrument that had a bar is marked at the close of its
   last bar of the latest moment with one; an instrument without a bar is marked
   at its first fill, if it has any; and no other has a mark.
   */
  lemma {:induction false} SeriesMarks(initial: real, bars: seq<Bar>, fills: seq<FillEvent>, times: seq<int>, i: Instrument)
    ensures MarkedRight(bars, fills, times, i, MarkOf(AccountAfter(initial, bars, fills, times).run.prices, i))
  {
    if times == [] {
      hide BarsAt, FillsAt;
    } else {
      hide BarsAt, FillsAt, MarkedBars, BookedAll, IsLastBar, IsFirstFill, MarkedRight;
      var n := |times| - 1;
      var t := times[n];
      SeriesMarks(initial, bars, fills, times[..n], i);
      var before := AccountAfter(initial, bars, fills, times[..n]);
      var marked := before.(run := before.run.(prices := MarkedBars(before.run.prices, BarsAt(bars, t))));
      MarksAre(before.run.prices, BarsAt(bars, t), i);
      BookedMarks(marked, FillsAt(fills, t), i);
      if HasBar(BarsAt(bars, t), i) {
        var k :| IsLastBar(BarsAt(bars, t), k, i);
        LaterBar(bars, fills, times, i, k);
      } else if i in before.run.prices {
        NoLaterBar(bars, fills, times, i, Some(before.run.prices[i]));
      } else {
        FirstMark(bars, fills, times, i, MarkOf(AccountAfter(initial, bars, fills, times).run.prices, i));
      }
    }
  }

  // ---------------------------------------------------------------- closed trades, warnings, the most lots

  /** A fill is warned about when it trades nothing, or was meant to close and leaves a rest. */
  function WarnedOf(a: Account, fills: seq<FillEvent>): nat {
    if fills == [] then 0
    else
      var before, fill := BookedAll(a, fills[..|fills| - 1]), fills[|fills| - 1];
      WarnedOf(a, fills[..|fills| - 1])
      + if fill.quantity == 0 || ApplyFillToLots(before.lots, fill).unmatchedClose then 1 else 0
  }

  lemma {:induction false} BookedWarns(a: Account, fills: seq<FillEvent>)
    ensures BookedAll(a, fills).run.warnings == a.run.warnings + WarnedOf(a, fills)
  {
    hide ApplyFillToLots, Value;
    if fills != [] {
      BookedWarns(a, fills[..|fills| - 1]);
    }
  }

  /** Closed trades are only added, and behind those there were. */
  lemma {:induction false} ClosedAdded(a: Account, fills: seq<FillEvent>, more: seq<FillEvent>)
    ensures BookedAll(a, fills).run.closed <= BookedAll(a, fills + more).run.closed
  {
    hide ApplyFillToLots, Value;
    if more == [] {
      assert fills + more == fills;
    } else {
      ClosedAdded(a, fills, more[..|more| - 1]);
      assert (fills + more)[..|fills + more| - 1] == fills + more[..|more| - 1];
    }
  }

  lemma OneBooked(a: Account, fill: FillEvent)
    requires |a.lots| <= a.run.maxOpenLots
    ensures var after := Booked(a, fill);
            && |after.lots| <= after.run.maxOpenLots
            && a.run.maxOpenLots <= after.run.maxOpenLots
            && (after.run.maxOpenLots == a.run.maxOpenLots || after.run.maxOpenLots == |after.lots|)
  {
    hide ApplyFillToLots, Value;
  }

  lemma UpTo(a: Account, fills: seq<FillEvent>, n: nat)
    requires 0 < n <= |fills|
    ensures BookedAll(a, fills[..n]) == Booked(BookedAll(a, fills[..n - 1]), fills[n - 1])
  {
    assert fills[..n][..n - 1] == fills[..n - 1];
    hide Booked;
  }

  /** The most lots ever open: never fewer than after any fill, and reached after one or at the start. */
  lemma {:induction false} MostLots(a: Account, fills: seq<FillEvent>, n: nat)
    requires |a.lots| <= a.run.maxOpenLots && n <= |fills|
    ensures var most := BookedAll(a, fills[..n]).run.maxOpenLots;
            && (forall m :: 0 <= m <= n ==> |BookedAll(a, fills[..m]).lots| <= most)
            && (most == a.run.maxOpenLots || exists m :: 0 < m <= n && |BookedAll(a, fills[..m]).lots| == most)
            && most >= a.run.maxOpenLots
  {
    if n == 0 {
      assert fills[..0] == [];
    } else {
      hide BookedAll, Booked;
      MostLots(a, fills, n - 1);
      UpTo(a, fills, n);
      var before, after := BookedAll(a, fills[..n - 1]), BookedAll(a, fills[..n]);
      OneBooked(before, fills[n - 1]);
      var most := after.run.maxOpenLots;
      forall m | 0 <= m <= n ensures |BookedAll(a, fills[..m]).lots| <= most {
        if m < n { assert |BookedAll(a, fills[..m]).lots| <= before.run.maxOpenLots; }
      }
      if most != a.run.maxOpenLots && most == before.run.maxOpenLots {
        var m :| 0 < m <= n - 1 && |BookedAll(a, fills[..m]).lots| == most;
        assert |BookedAll(a, fills[..m]).lots| == most;
      }
    }
  }

  // ---------------------------------------------------------------- exposure

  function LongIn(run: Running): set<Instrument> { set i | i in run.positions && run.positions[i] > 0 }

  function ShortIn(run: Running): set<Instrument> { set i | i in run.positions && run.positions[i] <= 0 }

  /** Gross exposure is what the long positions are worth less what the short ones are. */
  lemma ExposureIs(run: Running)
    ensures Sum(run.positions.Keys, ExposureOf(run.positions, run.prices))
         == Sum(LongIn(run), WorthOf(run.positions, run.prices)) - Sum(ShortIn(run), WorthOf(run.positions, run.prices))
  {
    var exposure, worth := ExposureOf(run.positions, run.prices), WorthOf(run.positions, run.prices);
    forall i ensures exposure(i) == if Held(run.positions, i) > 0 then worth(i) else -worth(i) {
      OneExposed(run.positions, run.prices, i);
    }
    hide Sum, ExposureOf, WorthOf;
    assert LongIn(run) + ShortIn(run) == run.positions.Keys;
    SumApart(LongIn(run), ShortIn(run), exposure);
    SumSame(LongIn(run), exposure, worth);
    SumNegated(ShortIn(run), exposure, worth);
  }

  lemma OneExposed(positions: map<Instrument, int>, prices: map<Instrument, real>, i: Instrument)
    ensures ExposureOf(positions, prices)(i)
         == if Held(positions, i) > 0 then WorthOf(positions, prices)(i) else -WorthOf(positions, prices)(i)
  {
    ValueNegate(Held(positions, i) as real, PriceOf(prices, i), i.multiplier);
    hide Value;
  }
}
