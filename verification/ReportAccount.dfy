/** The report's account series: cash, positions, marks and lots, one equity point per timestamp. */
module ReportAccount {
  import opened Types
  import opened Sums
  import opened Sorting
  import opened ReportLots
  import opened OpenLots

  /** What the report carries from one fill to the next, besides the lot book. */
  datatype Running = Running(
    cash: real,
    prices: map<Instrument, real>,
    positions: map<Instrument, int>,
    closed: seq<ClosedTrade>,
    warnings: nat,
    maxOpenLots: nat)

  datatype Account = Account(run: Running, lots: seq<Lot>)

  datatype EquityPoint = EquityPoint(timestamp: int, equity: real, cash: real, grossExposure: real)

  function Opening(initial: real): Account {
    Account(Running(initial, map[], map[], [], 0, 0), [])
  }

  // ---------------------------------------------------------------- one timestamp, on values

  function MarkedBars(prices: map<Instrument, real>, bars: seq<Bar>): map<Instrument, real> {
    if bars == [] then prices
    else
      var bar := bars[|bars| - 1];
      MarkedBars(prices, bars[..|bars| - 1])[bar.instrument := bar.close]
  }

  function Booked(a: Account, fill: FillEvent): Account {
    var quantity := Signed(fill);
    if quantity == 0 then a.(run := a.run.(warnings := a.run.warnings + 1))
    else
      var r := ApplyFillToLots(a.lots, fill);
      Account(Settled(a.run, fill, r.closed, r.unmatchedClose, |r.lots|), r.lots)
  }

  function Settled(run: Running, fill: FillEvent, closed: seq<ClosedTrade>, unmatchedClose: bool, openLots: nat): Running {
    var i := fill.instrument;
    Running(
      run.cash - Value(Signed(fill) as real, fill.price, i.multiplier),
      if i in run.prices then run.prices else run.prices[i := fill.price],
      Adjusted(run.positions, i, Signed(fill)),
      run.closed + closed,
      run.warnings + (if unmatchedClose then 1 else 0),
      if openLots > run.maxOpenLots then openLots else run.maxOpenLots)
  }

  function BookedAll(a: Account, fills: seq<FillEvent>): Account {
    if fills == [] then a
    else Booked(BookedAll(a, fills[..|fills| - 1]), fills[|fills| - 1])
  }

  function BarsAt(bars: seq<Bar>, t: int): seq<Bar> {
    if bars == [] then []
    else
      var bar := bars[|bars| - 1];
      BarsAt(bars[..|bars| - 1], t) + (if bar.timestamp == t then [bar] else [])
  }

  function FillsAt(fills: seq<FillEvent>, t: int): seq<FillEvent> {
    if fills == [] then []
    else
      var fill := fills[|fills| - 1];
      FillsAt(fills[..|fills| - 1], t) + (if fill.timestamp == t then [fill] else [])
  }

  /** All bars of a timestamp are marked before any of its fills is booked. */
  function AfterTimestamp(a: Account, bars: seq<Bar>, fills: seq<FillEvent>): Account {
    BookedAll(a.(run := a.run.(prices := MarkedBars(a.run.prices, bars))), fills)
  }

  function AccountAfter(initial: real, bars: seq<Bar>, fills: seq<FillEvent>, times: seq<int>): Account {
    if times == [] then Opening(initial)
    else
      var t := times[|times| - 1];
      AfterTimestamp(AccountAfter(initial, bars, fills, times[..|times| - 1]), BarsAt(bars, t), FillsAt(fills, t))
  }

  function BarTimes(bars: seq<Bar>): set<int> {
    if bars == [] then {} else BarTimes(bars[..|bars| - 1]) + {bars[|bars| - 1].timestamp}
  }

  function FillTimes(fills: seq<FillEvent>): set<int> {
    if fills == [] then {} else FillTimes(fills[..|fills| - 1]) + {fills[|fills| - 1].timestamp}
  }

  function Timestamps(bars: seq<Bar>, fills: seq<FillEvent>): seq<int> {
    Sorted(BarTimes(bars) + FillTimes(fills))
  }

  // ---------------------------------------------------------------- equity

  function PriceOf(prices: map<Instrument, real>, i: Instrument): real {
    if i in prices then prices[i] else 0.0
  }

  function WorthOf(positions: map<Instrument, int>, prices: map<Instrument, real>): Instrument -> real {
    i => Value(Held(positions, i) as real, PriceOf(prices, i), i.multiplier)
  }

  function ExposureOf(positions: map<Instrument, int>, prices: map<Instrument, real>): Instrument -> real {
    i => Value(Abs(Held(positions, i)) as real, PriceOf(prices, i), i.multiplier)
  }

  ghost function Equity(run: Running): real {
    run.cash + Sum(run.positions.Keys, WorthOf(run.positions, run.prices))
  }

  /** Open profit of a lot at the latest mark. */
  function OpenProfit(prices: map<Instrument, real>): Lot -> real {
    (lot: Lot) => Profit(lot.quantity as real, lot.entryPrice, PriceOf(prices, lot.instrument), lot.instrument.multiplier)
  }

  function WorthOfLot(prices: map<Instrument, real>): Lot -> real {
    (lot: Lot) => Value(lot.quantity as real, PriceOf(prices, lot.instrument), lot.instrument.multiplier)
  }

  // ---------------------------------------------------------------- the accounting identity

  /** Cash, dictionary positions and lots describe the same account. */
  ghost predicate Consistent(initial: real, a: Account) {
    && a.run.cash == initial + Total(a.run.closed, PnlOf(Everything)) - Total(a.lots, CostOf(Everything))
    && (forall i :: Held(a.run.positions, i) as real == Total(a.lots, QuantityOf(OneInstrument(i))))
    && (forall i :: i in a.run.positions ==> a.run.positions[i] != 0 && i in a.run.prices)
    && WellShaped(a.lots)
  }

  lemma OpeningConsistent(initial: real)
    ensures Consistent(initial, Opening(initial))
  {
  }

  lemma BookedConsistent(initial: real, a: Account, fill: FillEvent)
    requires Consistent(initial, a)
    ensures Consistent(initial, Booked(a, fill))
  {
    hide Value, Total, ApplyFillToLots, WellShaped, CostOf, QuantityOf, PnlOf;
    if Signed(fill) != 0 {
      var r := ApplyFillToLots(a.lots, fill);
      FillConserves(a.lots, fill, Everything);
      FillKeepsShape(a.lots, fill);
      TotalConcat(a.run.closed, r.closed, PnlOf(Everything));
      forall i
        ensures Held(Booked(a, fill).run.positions, i) as real == Total(r.lots, QuantityOf(OneInstrument(i)))
      {
        FillConserves(a.lots, fill, OneInstrument(i));
      }
    }
  }

  lemma {:induction false} BookedAllConsistent(initial: real, a: Account, fills: seq<FillEvent>)
    requires Consistent(initial, a)
    ensures Consistent(initial, BookedAll(a, fills))
  {
    hide Consistent, Booked;
    if fills != [] {
      BookedAllConsistent(initial, a, fills[..|fills| - 1]);
      BookedConsistent(initial, BookedAll(a, fills[..|fills| - 1]), fills[|fills| - 1]);
    }
  }

  lemma {:induction false} MarkedBarsKeepKeys(prices: map<Instrument, real>, bars: seq<Bar>)
    ensures prices.Keys <= MarkedBars(prices, bars).Keys
  {
    if bars != [] {
      MarkedBarsKeepKeys(prices, bars[..|bars| - 1]);
    }
  }

  lemma {:induction false} AlwaysConsistent(initial: real, bars: seq<Bar>, fills: seq<FillEvent>, times: seq<int>)
    ensures Consistent(initial, AccountAfter(initial, bars, fills, times))
  {
    hide BookedAll, WellShaped, Total, MarkedBars;
    if times == [] {
      OpeningConsistent(initial);
    } else {
      var before := AccountAfter(initial, bars, fills, times[..|times| - 1]);
      var t := times[|times| - 1];
      AlwaysConsistent(initial, bars, fills, times[..|times| - 1]);
      MarkedBarsKeepKeys(before.run.prices, BarsAt(bars, t));
      BookedAllConsistent(initial,
        before.(run := before.run.(prices := MarkedBars(before.run.prices, BarsAt(bars, t)))), FillsAt(fills, t));
    }
  }

  function LotWorthOn(lots: seq<Lot>, prices: map<Instrument, real>): Instrument -> real
  {
    i => Value(NetLots(lots, i) as real, PriceOf(prices, i), i.multiplier)
  }

  function NetLots(lots: seq<Lot>, i: Instrument): int {
    if lots == [] then 0
    else
      var lot := lots[|lots| - 1];
      NetLots(lots[..|lots| - 1], i) + (if lot.instrument == i then lot.quantity else 0)
  }

  lemma {:induction false} NetLotsTotal(lots: seq<Lot>, i: Instrument)
    ensures NetLots(lots, i) as real == Total(lots, QuantityOf(OneInstrument(i)))
  {
    if lots != [] {
      NetLotsTotal(lots[..|lots| - 1], i);
    }
  }

  /** Marking lots one by one comes to the same as marking the net position of each instrument. */
  lemma {:induction false} Regroup(lots: seq<Lot>, prices: map<Instrument, real>, keys: set<Instrument>)
    requires forall k :: 0 <= k < |lots| ==> lots[k].instrument in keys
    ensures Sum(keys, LotWorthOn(lots, prices)) == Total(lots, WorthOfLot(prices))
  {
    if lots == [] {
      forall i | i in keys ensures LotWorthOn(lots, prices)(i) == 0.0 {
        ValueZero(PriceOf(prices, i), i.multiplier);
      }
      SumWiden({}, keys, LotWorthOn(lots, prices));
    } else {
      var init, lot := lots[..|lots| - 1], lots[|lots| - 1];
      Regroup(init, prices, keys);
      ValueAdd(NetLots(init, lot.instrument) as real, lot.quantity as real,
               PriceOf(prices, lot.instrument), lot.instrument.multiplier);
      hide Value, Sum;
      SumPoint(keys, LotWorthOn(lots, prices), LotWorthOn(init, prices), lot.instrument);
    }
  }

  lemma PositionsAreLots(a: Account, initial: real)
    requires Consistent(initial, a)
    ensures Sum(a.run.positions.Keys, WorthOf(a.run.positions, a.run.prices))
         == Total(a.lots, WorthOfLot(a.run.prices))
  {
    var keys := a.run.positions.Keys;
    var wide := keys + set lot | lot in a.lots :: lot.instrument;
    var f, g := WorthOf(a.run.positions, a.run.prices), LotWorthOn(a.lots, a.run.prices);
    forall i ensures f(i) == g(i) {
      NetLotsTotal(a.lots, i);
    }
    forall i | i !in keys ensures f(i) == 0.0 {
      ValueZero(PriceOf(a.run.prices, i), i.multiplier);
    }
    hide Value, Sum, Total;
    SumSame(wide, f, g);
    SumWiden(keys, wide, f);
    Regroup(a.lots, a.run.prices, wide);
  }

  /**
   Equity is the initial equity, plus the P&L of every closed trade, plus the
   open profit of every lot at its latest mark.
   */
  lemma AccountingIdentity(initial: real, a: Account)
    requires Consistent(initial, a)
    ensures Equity(a.run)
         == initial + Total(a.run.closed, PnlOf(Everything)) + Total(a.lots, OpenProfit(a.run.prices))
  {
    PositionsAreLots(a, initial);
    forall k | 0 <= k < |a.lots|
      ensures WorthOfLot(a.run.prices)(a.lots[k]) == OpenProfit(a.run.prices)(a.lots[k]) + CostOf(Everything)(a.lots[k])
    {
      var lot := a.lots[k];
      ProfitSplit(lot.quantity as real, lot.entryPrice, PriceOf(a.run.prices, lot.instrument), lot.instrument.multiplier);
    }
    hide Value, Profit, Total, Sum, WellShaped;
    TotalSplit(a.lots, WorthOfLot(a.run.prices), OpenProfit(a.run.prices), CostOf(Everything));
  }

  // ---------------------------------------------------------------- lots alone

  /** The part of the account that does not depend on marks. */
  datatype LotBook = LotBook(lots: seq<Lot>, closed: seq<ClosedTrade>)

  function BookLot(b: LotBook, fill: FillEvent): LotBook {
    if Signed(fill) == 0 then b
    else
      var r := ApplyFillToLots(b.lots, fill);
      LotBook(r.lots, b.closed + r.closed)
  }

  function BookLots(b: LotBook, fills: seq<FillEvent>): LotBook {
    if fills == [] then b else BookLot(BookLots(b, fills[..|fills| - 1]), fills[|fills| - 1])
  }

  lemma {:induction false} BookedLots(a: Account, fills: seq<FillEvent>)
    ensures LotBook(BookedAll(a, fills).lots, BookedAll(a, fills).run.closed)
         == BookLots(LotBook(a.lots, a.run.closed), fills)
  {
    hide ApplyFillToLots, Value, Signed;
    if fills != [] {
      BookedLots(a, fills[..|fills| - 1]);
    }
  }

  lemma {:induction false} BookLotsConcat(b: LotBook, x: seq<FillEvent>, y: seq<FillEvent>)
    ensures BookLots(b, x + y) == BookLots(BookLots(b, x), y)
  {
    hide BookLot;
    if y == [] {
      assert x + y == x;
    } else {
      BookLotsConcat(b, x, y[..|y| - 1]);
      assert (x + y)[..|x + y| - 1] == x + y[..|y| - 1];
    }
  }

  // ---------------------------------------------------------------- grouping by timestamp loses nothing

  /** Signed quantity a fill moves within a scope. */
  ghost function MovedIn(scope: Scope): FillEvent -> real {
    (fill: FillEvent) => SignedWithin(scope, fill, Signed(fill))
  }

  ghost function MovedAt(fills: seq<FillEvent>, scope: Scope): int -> real {
    t => Total(FillsAt(fills, t), MovedIn(scope))
  }

  function Moments(times: seq<int>): set<int> {
    set t | t in times
  }

  lemma {:induction false} BookedTotal(a: Account, fills: seq<FillEvent>, scope: Scope)
    ensures Total(BookedAll(a, fills).lots, QuantityOf(scope)) == Total(a.lots, QuantityOf(scope)) + Total(fills, MovedIn(scope))
  {
    hide Value, ApplyFillToLots, QuantityOf, Settled;
    if fills != [] {
      var init, fill := fills[..|fills| - 1], fills[|fills| - 1];
      BookedTotal(a, init, scope);
      FillConserves(BookedAll(a, init).lots, fill, scope);
    }
  }

  /** The lots after some timestamps hold what was filled at them. */
  lemma {:induction false} AccountTotal(initial: real, bars: seq<Bar>, fills: seq<FillEvent>, times: seq<int>, scope: Scope)
    requires StrictlyIncreasing(times)
    ensures Total(AccountAfter(initial, bars, fills, times).lots, QuantityOf(scope))
         == Sum(Moments(times), MovedAt(fills, scope))
  {
    hide BookedAll, MarkedBars, FillsAt, QuantityOf, MovedIn, Sum;
    if times == [] {
      TotalNone(QuantityOf(scope));
      SumNone(Moments(times), MovedAt(fills, scope));
    } else {
      var init, t := times[..|times| - 1], times[|times| - 1];
      AccountTotal(initial, bars, fills, init, scope);
      var before := AccountAfter(initial, bars, fills, init);
      BookedTotal(before.(run := before.run.(prices := MarkedBars(before.run.prices, BarsAt(bars, t)))), FillsAt(fills, t), scope);
      assert Moments(times) - {t} == Moments(init);
      SumExtract(Moments(times), MovedAt(fills, scope), t);
    }
  }

  lemma SumNone(keys: set<int>, f: int -> real)
    requires keys == {}
    ensures Sum(keys, f) == 0.0
  {
  }

  /** Summing timestamp by timestamp is summing. */
  lemma {:induction false} MovedTotal(fills: seq<FillEvent>, times: set<int>, scope: Scope)
    requires FillTimes(fills) <= times
    ensures Sum(times, MovedAt(fills, scope)) == Total(fills, MovedIn(scope))
  {
    hide MovedIn, Sum;
    if fills == [] {
      SumNone({}, MovedAt(fills, scope));
      TotalNone(MovedIn(scope));
      SumWiden({}, times, MovedAt(fills, scope));
    } else {
      var init, fill := fills[..|fills| - 1], fills[|fills| - 1];
      MovedTotal(init, times, scope);
      TotalConcat(FillsAt(init, fill.timestamp), [fill], MovedIn(scope));
      TotalOne(fill, MovedIn(scope));
      forall t | t in times && t != fill.timestamp ensures MovedAt(fills, scope)(t) == MovedAt(init, scope)(t) {
        assert FillsAt(fills, t) == FillsAt(init, t);
      }
      SumPoint(times, MovedAt(fills, scope), MovedAt(init, scope), fill.timestamp);
    }
  }

  /**
   At the end of the series the lots of any scope, and the dictionary position
   of any instrument, hold exactly what the fills moved, in whatever order and
   at whatever timestamps they came, and whatever bars came between.
   */
  lemma SeriesHoldsAllFills(initial: real, bars: seq<Bar>, fills: seq<FillEvent>, scope: Scope, i: Instrument)
    ensures var a := AccountAfter(initial, bars, fills, Timestamps(bars, fills));
            && Total(a.lots, QuantityOf(scope)) == Total(fills, MovedIn(scope))
            && Held(a.run.positions, i) as real == Total(fills, MovedIn(OneInstrument(i)))
  {
    hide AccountAfter, Total, Sum, MovedAt, MovedIn, QuantityOf, WellShaped;
    var times := Timestamps(bars, fills);
    var moments := Moments(times);
    AccountTotal(initial, bars, fills, times, scope);
    MovedTotal(fills, moments, scope);
    AccountTotal(initial, bars, fills, times, OneInstrument(i));
    MovedTotal(fills, moments, OneInstrument(i));
    AlwaysConsistent(initial, bars, fills, times);
  }
}
