/**
 The portfolio costs positions at average cost, the report by individual lots.
 Neither shares code with the other; this module compares their results on
 the same stream of fills.
 */
module Costing {
  import opened Types
  import opened Sums
  import opened ReportLots
  import opened ReportAccount
  import opened Portfolio
  import Sizing

  function OwnedOf(e: FillEvent): OwnedFill {
    OwnedFill(Fill("", e.instrument, e.side, e.quantity, e.price, e.timestamp), Some(e.strategyId), e.tradeId)
  }

  function OwnedFills(fills: seq<FillEvent>): (owned: seq<OwnedFill>)
    ensures |owned| == |fills|
  {
    if fills == [] then [] else OwnedFills(fills[..|fills| - 1]) + [OwnedOf(fills[|fills| - 1])]
  }

  lemma ValueScales(q: real, p: real, m: real)
    ensures Value(q, p, m) == Value(q, p, 1.0) * m
  {
  }

  predicate InGroup(e: FillEvent, s: StrategyId, i: Instrument) {
    e.strategyId == s && e.instrument == i
  }

  /** Cash of one fill, before the multiplier, if it belongs to the group. */
  function CashOfOne(e: FillEvent, s: StrategyId, i: Instrument): real {
    if InGroup(e, s, i) then -Value(Signed(e) as real, e.price, 1.0) else 0.0
  }

  lemma LastFill(fills: seq<FillEvent>, s: StrategyId, i: Instrument)
    requires fills != [] && fills[|fills| - 1].quantity >= 0
    ensures var init, e := fills[..|fills| - 1], fills[|fills| - 1];
            && NetOf(OwnedFills(fills), Strategy(s, i))
               == NetOf(OwnedFills(init), Strategy(s, i)) + (if InGroup(e, s, i) then Signed(e) else 0)
            && CashOf(OwnedFills(fills), Strategy(s, i))
               == CashOf(OwnedFills(init), Strategy(s, i)) + CashOfOne(e, s, i)
  {
    hide Value;
    assert OwnedFills(fills)[..|fills| - 1] == OwnedFills(fills[..|fills| - 1]);
  }

  lemma OneFillBalances(b: LotBook, e: FillEvent, s: StrategyId, i: Instrument)
    requires WellShaped(b.lots)
    ensures var r, group := BookLot(b, e), OneGroup(s, i);
            && Total(r.lots, QuantityOf(group))
               == Total(b.lots, QuantityOf(group)) + (if InGroup(e, s, i) then Signed(e) else 0) as real
            && (Total(r.closed, PnlOf(group)) - Total(r.lots, CostOf(group)))
               == (Total(b.closed, PnlOf(group)) - Total(b.lots, CostOf(group))) + CashOfOne(e, s, i) * i.multiplier
            && WellShaped(r.lots)
  {
    ValueScales(Signed(e) as real, e.price, i.multiplier);
    ValueZero(e.price, 1.0);
    hide Value, Total, ApplyFillToLots, WellShaped, QuantityOf, CostOf, PnlOf, Signed;
    if Signed(e) != 0 {
      FillConserves(b.lots, e, OneGroup(s, i));
      FillKeepsShape(b.lots, e);
      TotalConcat(b.closed, ApplyFillToLots(b.lots, e).closed, PnlOf(OneGroup(s, i)));
    }
  }

  ghost predicate Sized(fills: seq<FillEvent>) {
    forall k :: 0 <= k < |fills| ==> fills[k].quantity >= 0
  }

  /** The report's lots of a group hold what was traded; profit less cost is its cash. */
  lemma {:induction false} LotsBalance(fills: seq<FillEvent>, s: StrategyId, i: Instrument)
    requires Sized(fills)
    ensures var b, group := BookLots(LotBook([], []), fills), OneGroup(s, i);
            && Total(b.lots, QuantityOf(group)) == NetOf(OwnedFills(fills), Strategy(s, i)) as real
            && Total(b.closed, PnlOf(group)) - Total(b.lots, CostOf(group))
               == CashOf(OwnedFills(fills), Strategy(s, i)) * i.multiplier
            && WellShaped(b.lots)
  {
    hide Total, NetOf, CashOf, BookLot, WellShaped, QuantityOf, CostOf, PnlOf, CashOfOne, Signed;
    if fills == [] {
      NothingTraded(s, i);
    } else {
      var init, e := fills[..|fills| - 1], fills[|fills| - 1];
      LotsBalance(init, s, i);
      LastFill(fills, s, i);
      OneFillBalances(BookLots(LotBook([], []), init), e, s, i);
      Scaled(CashOf(OwnedFills(init), Strategy(s, i)), CashOfOne(e, s, i), i.multiplier);
    }
  }

  lemma Scaled(a: real, b: real, m: real)
    ensures (a + b) * m == a * m + b * m && (a - b) * m == a * m - b * m
  {
  }

  lemma NothingTraded(s: StrategyId, i: Instrument)
    ensures Total([], QuantityOf(OneGroup(s, i))) == 0.0
    ensures Total([], CostOf(OneGroup(s, i))) == 0.0
    ensures Total([], PnlOf(OneGroup(s, i))) == 0.0
    ensures WellShaped([])
    ensures NetOf([], Strategy(s, i)) == 0 && CashOf([], Strategy(s, i)) == 0.0
    ensures 0.0 * i.multiplier == 0.0
  {
  }

  /** Two ways of costing one stream of trades, both less the money still tied up. */
  predicate SameProfit(lotPnl: real, lotCost: real, realised: real, basis: real, m: real) {
    lotPnl - lotCost == (realised - basis) * m
  }

  /**
   Realised P&L less what is tied up is the same by lots as at average cost.
   Once the strategy is flat in the instrument nothing is tied up on either
   side, so the two realised figures are equal, whatever was merged, split or
   flipped on the way.
   */
  lemma TwoCostingsMeet(fills: seq<FillEvent>, s: StrategyId, i: Instrument)
    requires Sized(fills)
    ensures var b, group := BookLots(LotBook([], []), fills), OneGroup(s, i);
            var owned, slice := OwnedFills(fills), Strategy(s, i);
            var held := Entry(AfterFills(owned), slice);
            && SameProfit(Total(b.closed, PnlOf(group)), Total(b.lots, CostOf(group)),
                          RealisedOver(owned, slice), Basis(held), i.multiplier)
            && (QuantityHeld(held) == 0 ==> Total(b.lots, CostOf(group)) == 0.0 && Basis(held) == 0.0)
  {
    hide *;
    var b, group := BookLots(LotBook([], []), fills), OneGroup(s, i);
    var owned, slice := OwnedFills(fills), Strategy(s, i);
    var held := Entry(AfterFills(owned), slice);
    LotsBalance(fills, s, i);
    RealisedBalances(owned, slice);
    EntriesAreNets(owned, slice);
    Meet(Total(b.closed, PnlOf(group)), Total(b.lots, CostOf(group)),
         RealisedOver(owned, slice), Basis(held), CashOf(owned, slice), i.multiplier);
    if QuantityHeld(held) == 0 {
      FlatGroupIsEmpty(b.lots, s, i);
      FlatBasis(held);
    }
  }

  lemma Meet(pnl: real, cost: real, realised: real, basis: real, cash: real, m: real)
    requires pnl - cost == cash * m && realised - basis == cash
    ensures SameProfit(pnl, cost, realised, basis, m)
  {
  }

  lemma FlatBasis(p: Option<Position>)
    requires QuantityHeld(p) == 0
    ensures Basis(p) == 0.0
  {
    FlatConserves(p, 0.0);
  }

  /** The same for the trades and lots of the series the report actually builds, at the end of any run. */
  lemma ReportMeetsPortfolio(initial: real, events: seq<Sizing.Event>, s: StrategyId, i: Instrument)
    requires Sizing.InOrder(events) && Sizing.Sized(events)
    ensures var a := AccountAfter(initial, Sizing.BarsOf(events), Sizing.FillsOf(events), Sizing.Times(events));
            var owned := OwnedFills(Sizing.FillsOf(events));
            QuantityHeld(Entry(AfterFills(owned), Strategy(s, i))) == 0 ==>
              Total(a.run.closed, PnlOf(OneGroup(s, i))) == RealisedOver(owned, Strategy(s, i)) * i.multiplier
  {
    hide AccountAfter, Sizing.BarsOf, Sizing.FillsOf, Sizing.Times, BookLots, Total, AfterFills, RealisedOver, Basis,
         SameProfit, Consistent;
    Sizing.SizingIsReport(initial, events, []);
    assert events + [] == events;
    Sizing.FillsOfQuantities(events);
    var owned := OwnedFills(Sizing.FillsOf(events));
    TwoCostingsMeet(Sizing.FillsOf(events), s, i);
    var b := BookLots(LotBook([], []), Sizing.FillsOf(events));
    if QuantityHeld(Entry(AfterFills(owned), Strategy(s, i))) == 0 {
      NothingTiedUp(Total(b.closed, PnlOf(OneGroup(s, i))), RealisedOver(owned, Strategy(s, i)), i.multiplier);
    }
  }

  lemma NothingTiedUp(pnl: real, realised: real, m: real)
    requires SameProfit(pnl, 0.0, realised, 0.0, m)
    ensures pnl == realised * m
  {
  }
}
