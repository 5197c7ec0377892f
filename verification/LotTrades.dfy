/**
 The lot book trade by trade: which lot a closed trade came from, what it says
 of entry and exit, what the rest of a fill opens or adds to, and what all that
 leaves under each trade id.
 */
module LotTrades {
  import opened Types
  import opened Sums
  import opened ReportLots
  import opened ReportAccount

  /** One trade of a strategy in an instrument; fills without a trade id are one, too. */
  datatype Trade = Trade(s: StrategyId, i: Instrument, id: Option<TradeId>)

  predicate LotIn(t: Trade, lot: Lot) { lot.strategyId == t.s && lot.instrument == t.i && lot.tradeId == t.id }

  predicate ClosedIn(t: Trade, c: ClosedTrade) { c.strategyId == t.s && c.instrument == t.i && c.tradeId == t.id }

  predicate FillIn(t: Trade, fill: FillEvent) { fill.strategyId == t.s && fill.instrument == t.i && fill.tradeId == t.id }

  /** Shares and money a lot, a closed trade or a fill stands for: signed quantity, and that at its entry price. */
  function LotShares(t: Trade): Lot -> real {
    (lot: Lot) => if LotIn(t, lot) then lot.quantity as real else 0.0
  }

  function LotMoney(t: Trade): Lot -> real {
    (lot: Lot) => if LotIn(t, lot) then lot.quantity as real * lot.entryPrice else 0.0
  }

  /** Shares a closed trade took out of its lot: up from a long one, down from a short one. */
  function Out(c: ClosedTrade): int { if c.side == Long then c.quantity else -(c.quantity as int) }

  function OutShares(t: Trade): ClosedTrade -> real {
    (c: ClosedTrade) => if ClosedIn(t, c) then Out(c) as real else 0.0
  }

  function OutMoney(t: Trade): ClosedTrade -> real {
    (c: ClosedTrade) => if ClosedIn(t, c) then Out(c) as real * c.entryPrice else 0.0
  }

  function AnyOut(): ClosedTrade -> real {
    (c: ClosedTrade) => Out(c) as real
  }

  /** Bought counts up and sold counts down, whatever the sign the quantity is written with. */
  function Size(fill: FillEvent): int {
    if (fill.side == Long) == (fill.quantity >= 0) then fill.quantity else -fill.quantity
  }

  function FillShares(t: Trade): FillEvent -> real {
    (fill: FillEvent) => if FillIn(t, fill) then Size(fill) as real else 0.0
  }

  function FillMoney(t: Trade): FillEvent -> real {
    (fill: FillEvent) => FillShares(t)(fill) * fill.price
  }

  // ---------------------------------------------------------------- what a closed trade says

  /** A closed trade of a fill, out of a lot: entry from the lot, exit from the fill. */
  predicate ComesFrom(c: ClosedTrade, lot: Lot, fill: FillEvent) {
    && c.strategyId == lot.strategyId == fill.strategyId && c.instrument == lot.instrument == fill.instrument
    && c.tradeId == lot.tradeId && c.entryTime == lot.entryTime && c.entryPrice == lot.entryPrice
    && c.exitTime == fill.timestamp && c.exitPrice == fill.price
    && (c.side == Long <==> lot.quantity > 0) && (c.side == Long <==> fill.side == Short)
    && 0 < c.quantity <= Abs(lot.quantity)
    && Earns(c)
  }

  /** What a closed trade earned, in money and against what was put in. */
  predicate Earns(c: ClosedTrade) {
    && c.pnl == (c.exitPrice - c.entryPrice) * Out(c) as real * c.instrument.multiplier
    && c.returnPct == ReturnRate(c.pnl, Out(c) as real * c.entryPrice * c.instrument.multiplier)
  }

  /** Profit over what was put in, nothing when that is next to nothing. */
  function ReturnRate(pnl: real, cost: real): real {
    var size := if cost < 0.0 then -cost else cost;
    if size > EPSILON then pnl / size else 0.0
  }

  ghost predicate FromSome(c: ClosedTrade, lots: seq<Lot>, fill: FillEvent) {
    exists j :: 0 <= j < |lots| && ComesFrom(c, lots[j], fill)
  }

  ghost predicate AllFrom(closed: seq<ClosedTrade>, lots: seq<Lot>, fill: FillEvent) {
    forall k :: 0 <= k < |closed| ==> FromSome(closed[k], lots, fill)
  }

  /** A lot that is left of another: the same but for a quantity no larger. */
  predicate LeftOf(left: Lot, lot: Lot) {
    && left == lot.(quantity := left.quantity)
    && (left.quantity > 0 <==> lot.quantity > 0) && (left.quantity < 0 <==> lot.quantity < 0)
    && Abs(left.quantity) <= Abs(lot.quantity)
  }

  ghost predicate LeftOfSome(left: Lot, lots: seq<Lot>) {
    exists j :: 0 <= j < |lots| && LeftOf(left, lots[j])
  }

  lemma TradeTells(lot: Lot, fill: FillEvent, remaining: int)
    requires Closable(lot, fill, remaining) && (remaining > 0 <==> fill.side == Long)
    ensures ComesFrom(CloseTrade(lot, fill, ClosingQuantity(lot, remaining)), lot, fill)
  {
    var c := ClosingQuantity(lot, remaining);
    assert (c as real) * lot.entryPrice * lot.instrument.multiplier == Value(c as real, lot.entryPrice, lot.instrument.multiplier);
  }

  lemma ReducedLeft(lots: seq<Lot>, i: nat, remaining: int)
    requires i < |lots| && OppositeSigns(lots[i].quantity, remaining)
    ensures forall k :: 0 <= k < |Reduced(lots, i, ClosingQuantity(lots[i], remaining))| ==>
              LeftOfSome(Reduced(lots, i, ClosingQuantity(lots[i], remaining))[k], lots)
  {
    var after := Reduced(lots, i, ClosingQuantity(lots[i], remaining));
    forall k | 0 <= k < |after| ensures LeftOfSome(after[k], lots) {
      var j := if |after| < |lots| && k >= i then k + 1 else k;
      assert LeftOf(after[k], lots[j]);
    }
  }

  lemma StillFrom(c: ClosedTrade, left: Lot, lots: seq<Lot>, fill: FillEvent)
    requires ComesFrom(c, left, fill) && LeftOfSome(left, lots)
    ensures FromSome(c, lots, fill)
  {
    hide Earns;
    var j :| 0 <= j < |lots| && LeftOf(left, lots[j]);
    assert ComesFrom(c, lots[j], fill);
  }

  lemma StillLeft(left: Lot, middle: seq<Lot>, lots: seq<Lot>)
    requires LeftOfSome(left, middle) && forall k :: 0 <= k < |middle| ==> LeftOfSome(middle[k], lots)
    ensures LeftOfSome(left, lots)
  {
    var k :| 0 <= k < |middle| && LeftOf(left, middle[k]);
    var j :| 0 <= j < |lots| && LeftOf(middle[k], lots[j]);
    assert LeftOf(left, lots[j]);
  }

  lemma {:induction false} ClosingTells(lots: seq<Lot>, fill: FillEvent, remaining: int)
    requires remaining == 0 || (remaining > 0 <==> fill.side == Long)
    ensures var r := CloseOut(lots, fill, remaining);
            && AllFrom(r.closed, lots, fill)
            && (forall k :: 0 <= k < |r.lots| ==> LeftOfSome(r.lots[k], lots))
    decreases |lots| + (if remaining == 0 then 0 else 1)
  {
    hide CloseOut, CloseTrade, Reduced, ComesFrom, LeftOf;
    OneRound(lots, fill, remaining);
    var choice := SelectClosingLot(lots, fill, remaining);
    if remaining != 0 && choice.Some? {
      var lot := lots[choice.value];
      var c := ClosingQuantity(lot, remaining);
      var middle := Reduced(lots, choice.value, c);
      RoundShrinks(lots, choice.value, remaining);
      ReducedLeft(lots, choice.value, remaining);
      TradeTells(lot, fill, remaining);
      ClosingTells(middle, fill, remaining + c);
      var rest := CloseOut(middle, fill, remaining + c);
      forall k | 0 <= k < |rest.closed| ensures FromSome(rest.closed[k], lots, fill) {
        assert FromSome(rest.closed[k], middle, fill);
        var j :| 0 <= j < |middle| && ComesFrom(rest.closed[k], middle[j], fill);
        StillFrom(rest.closed[k], middle[j], lots, fill);
      }
      forall k | 0 <= k < |rest.lots| ensures LeftOfSome(rest.lots[k], lots) {
        StillLeft(rest.lots[k], middle, lots);
      }
      assert FromSome(CloseTrade(lot, fill, c), lots, fill);
    } else {
      forall k | 0 <= k < |lots| ensures LeftOfSome(lots[k], lots) {
        LeftOfItself(lots[k]);
      }
    }
  }

  lemma LeftOfItself(lot: Lot)
    ensures LeftOf(lot, lot)
  {
  }

  /** Every trade a fill closes came out of a lot held before it, entered as that lot and left as the fill. */
  lemma ClosedTradesTell(lots: seq<Lot>, fill: FillEvent, k: nat)
    requires k < |ApplyFillToLots(lots, fill).closed|
    ensures FromSome(ApplyFillToLots(lots, fill).closed[k], lots, fill)
  {
    hide CloseOut, AddOpenLot, FromSome, LeftOfSome;
    ClosingTells(lots, fill, Signed(fill));
    assert ApplyFillToLots(lots, fill).closed == CloseOut(lots, fill, Signed(fill)).closed;
  }

  // ---------------------------------------------------------------- what the rest opens

  /** A lot the rest may be added to: the fill's own trade, held in its direction. */
  predicate Takes(lot: Lot, fill: FillEvent, rest: int) {
    && fill.tradeId.Some? && LotIn(Trade(fill.strategyId, fill.instrument, fill.tradeId), lot)
    && ((lot.quantity > 0 && rest > 0) || (lot.quantity < 0 && rest < 0))
  }

  /** A lot grown by shares at a price: it costs what both cost, dates from the earlier and keeps its place in the order. */
  predicate Grown(grown: Lot, lot: Lot, rest: int, price: real, time: int) {
    && grown.strategyId == lot.strategyId && grown.instrument == lot.instrument && grown.tradeId == lot.tradeId
    && grown.quantity == lot.quantity + rest
    && grown.quantity as real * grown.entryPrice == lot.quantity as real * lot.entryPrice + rest as real * price
    && grown.entryTime == (if time < lot.entryTime then time else lot.entryTime)
    && grown.entrySequence == lot.entrySequence
  }

  /** The first lot that takes the rest grows by it; without one a lot is opened that says all the fill says. */
  lemma RestOpens(lots: seq<Lot>, fill: FillEvent, rest: int)
    requires rest != 0
    ensures var after := AddOpenLot(lots, fill, rest);
            || (exists j :: 0 <= j < |lots| && Takes(lots[j], fill, rest) && (forall k :: 0 <= k < j ==> !Takes(lots[k], fill, rest))
                            && |after| == |lots| && Grown(after[j], lots[j], rest, fill.price, fill.timestamp)
                            && after == lots[j := after[j]])
            || ((forall k :: 0 <= k < |lots| ==> !Takes(lots[k], fill, rest))
                && after == lots + [Lot(fill.strategyId, fill.instrument, fill.tradeId, rest, fill.price, fill.timestamp, fill.sequence)])
  {
    var r := FirstMergeable(lots, fill, rest);
    assert forall k :: 0 <= k < |lots| ==> (Takes(lots[k], fill, rest) <==> Mergeable(lots[k], fill, rest));
    if r.Some? {
      GrownByMerging(lots[r.value], fill, rest);
      hide Merged, Takes, Mergeable, Grown;
      assert Takes(lots[r.value], fill, rest);
    }
  }

  lemma GrownByMerging(lot: Lot, fill: FillEvent, rest: int)
    requires Mergeable(lot, fill, rest)
    ensures Grown(Merged(lot, fill, rest), lot, rest, fill.price, fill.timestamp)
  {
    var a, b := Abs(lot.quantity) as real, Abs(rest) as real;
    var average := AveragePrice(lot.entryPrice, a, fill.price, b);
    assert average * (a + b) == lot.entryPrice * a + fill.price * b;
    var merged := Merged(lot, fill, rest);
    if rest > 0 {
      assert merged.quantity as real == a + b;
    } else {
      assert merged.quantity as real == -(a + b);
      assert (-(a + b)) * average == -(average * (a + b));
      assert lot.quantity as real * lot.entryPrice == -(lot.entryPrice * a);
      assert rest as real * fill.price == -(fill.price * b);
    }
  }

  // ---------------------------------------------------------------- fill by fill, under each trade

  lemma {:induction false} ClosingByTrade(lots: seq<Lot>, fill: FillEvent, remaining: int, t: Trade)
    requires remaining == 0 || (remaining > 0 <==> fill.side == Long)
    ensures var r := CloseOut(lots, fill, remaining);
            && Total(r.lots, LotShares(t)) == Total(lots, LotShares(t)) - Total(r.closed, OutShares(t))
            && Total(r.lots, LotMoney(t)) == Total(lots, LotMoney(t)) - Total(r.closed, OutMoney(t))
            && r.remaining as real == remaining as real + Total(r.closed, AnyOut())
    decreases |lots| + (if remaining == 0 then 0 else 1)
  {
    hide CloseOut, CloseTrade, Reduced, Total, LotShares, LotMoney, OutShares, OutMoney, AnyOut, ComesFrom;
    OneRound(lots, fill, remaining);
    var choice := SelectClosingLot(lots, fill, remaining);
    TotalNone(OutShares(t));
    TotalNone(OutMoney(t));
    TotalNone(AnyOut());
    if remaining != 0 && choice.Some? {
      var lot := lots[choice.value];
      var c := ClosingQuantity(lot, remaining);
      var made, middle := CloseTrade(lot, fill, c), Reduced(lots, choice.value, c);
      RoundShrinks(lots, choice.value, remaining);
      ClosingByTrade(middle, fill, remaining + c, t);
      ReducedByTrade(lots, choice.value, fill, remaining, t);
      var rest := CloseOut(middle, fill, remaining + c);
      OneClosed(made, rest.closed, OutShares(t));
      OneClosed(made, rest.closed, OutMoney(t));
      OneClosed(made, rest.closed, AnyOut());
    }
  }

  lemma OneClosed(made: ClosedTrade, rest: seq<ClosedTrade>, weight: ClosedTrade -> real)
    ensures Total([made] + rest, weight) == weight(made) + Total(rest, weight)
  {
    TotalConcat([made], rest, weight);
    TotalOne(made, weight);
  }

  lemma ReducedWeight(lots: seq<Lot>, i: nat, c: int, weight: Lot -> real)
    requires i < |lots|
    requires weight(lots[i].(quantity := 0)) == 0.0
    ensures Total(Reduced(lots, i, c), weight)
         == Total(lots, weight) - weight(lots[i]) + weight(lots[i].(quantity := lots[i].quantity - c))
  {
    hide Total;
    TotalAt(lots, i, lots[i].(quantity := lots[i].quantity - c), weight);
  }

  lemma OutOf(lot: Lot, fill: FillEvent, c: int, t: Trade)
    requires SameGroup(lot, fill) && (c > 0 <==> lot.quantity > 0)
    ensures var made, left := CloseTrade(lot, fill, c), lot.(quantity := lot.quantity - c);
            && Out(made) == c
            && LotShares(t)(left) == LotShares(t)(lot) - OutShares(t)(made)
            && LotMoney(t)(left) == LotMoney(t)(lot) - OutMoney(t)(made)
  {
    hide Profit, Value, ReturnOn;
    Distributes((lot.quantity - c) as real, c as real, lot.entryPrice);
    assert lot.quantity as real == (lot.quantity - c) as real + c as real;
  }

  lemma ReducedByTrade(lots: seq<Lot>, i: nat, fill: FillEvent, remaining: int, t: Trade)
    requires i < |lots| && Closable(lots[i], fill, remaining)
    ensures var c := ClosingQuantity(lots[i], remaining);
            var made, after := CloseTrade(lots[i], fill, c), Reduced(lots, i, c);
            && Total(after, LotShares(t)) == Total(lots, LotShares(t)) - OutShares(t)(made)
            && Total(after, LotMoney(t)) == Total(lots, LotMoney(t)) - OutMoney(t)(made)
            && AnyOut()(made) == c as real
  {
    var c := ClosingQuantity(lots[i], remaining);
    OutOf(lots[i], fill, c, t);
    hide Total, CloseTrade, Reduced, OutShares, OutMoney;
    ReducedWeight(lots, i, c, LotShares(t));
    ReducedWeight(lots, i, c, LotMoney(t));
  }

  lemma GrownByTrade(lot: Lot, grown: Lot, fill: FillEvent, rest: int, t: Trade)
    requires Takes(lot, fill, rest) && Grown(grown, lot, rest, fill.price, fill.timestamp)
    ensures LotShares(t)(grown) == LotShares(t)(lot) + (if FillIn(t, fill) then rest as real else 0.0)
    ensures LotMoney(t)(grown) == LotMoney(t)(lot) + (if FillIn(t, fill) then rest as real * fill.price else 0.0)
  {
  }

  lemma RestByTrade(lots: seq<Lot>, fill: FillEvent, rest: int, t: Trade)
    requires rest != 0
    ensures var after := AddOpenLot(lots, fill, rest);
            && Total(after, LotShares(t)) == Total(lots, LotShares(t)) + (if FillIn(t, fill) then rest as real else 0.0)
            && Total(after, LotMoney(t)) == Total(lots, LotMoney(t)) + (if FillIn(t, fill) then rest as real * fill.price else 0.0)
  {
    hide Total, AddOpenLot;
    RestOpens(lots, fill, rest);
    var after := AddOpenLot(lots, fill, rest);
    if |after| == |lots| {
      var j :| 0 <= j < |lots| && Takes(lots[j], fill, rest) && Grown(after[j], lots[j], rest, fill.price, fill.timestamp)
               && after == lots[j := after[j]];
      GrownByTrade(lots[j], after[j], fill, rest, t);
      hide LotShares, LotMoney, Takes, Grown;
      TotalAt(lots, j, after[j], LotShares(t));
      TotalAt(lots, j, after[j], LotMoney(t));
    } else {
      var lot := after[|lots|];
      TotalConcat(lots, [lot], LotShares(t));
      TotalConcat(lots, [lot], LotMoney(t));
      TotalOne(lot, LotShares(t));
      TotalOne(lot, LotMoney(t));
    }
  }

  /**
   Under each trade a fill takes out what it closes there; what is left of it,
   the fill less all it closes, comes in under its own trade, at its price. A
   fill meant to close that leaves a rest is reported as unmatched.
   */
  lemma FillByTrade(lots: seq<Lot>, fill: FillEvent, t: Trade)
    ensures var r := ApplyFillToLots(lots, fill);
            var size := Size(fill) as real;
            var rest := size + Total(r.closed, AnyOut());
            && Total(r.lots, LotShares(t)) == Total(lots, LotShares(t)) - Total(r.closed, OutShares(t)) + (if FillIn(t, fill) then rest else 0.0)
            && Total(r.lots, LotMoney(t))
               == Total(lots, LotMoney(t)) - Total(r.closed, OutMoney(t)) + (if FillIn(t, fill) then rest * fill.price else 0.0)
            && (r.unmatchedClose <==> rest != 0.0 && fill.role in {"close", "protective_stop"})
  {
    hide Total, LotShares, LotMoney, OutShares, OutMoney, AnyOut, CloseOut, AddOpenLot;
    ClosingByTrade(lots, fill, Signed(fill), t);
    var r := CloseOut(lots, fill, Signed(fill));
    if r.remaining != 0 {
      RestByTrade(r.lots, fill, r.remaining, t);
    }
  }

  // ---------------------------------------------------------------- whole runs

  function BooksAfter(fills: seq<FillEvent>): LotBook { BookLots(LotBook([], []), fills) }

  /** No fill closes a lot of another trade than its own. */
  ghost predicate KeepsToItsTrade(fills: seq<FillEvent>) {
    forall n: nat :: n < |fills| ==> ClosesOwn(BooksAfter(fills[..n]).lots, fills[n])
  }

  ghost predicate ClosesOwn(lots: seq<Lot>, fill: FillEvent) {
    forall k :: 0 <= k < |ApplyFillToLots(lots, fill).closed| ==> ApplyFillToLots(lots, fill).closed[k].tradeId == fill.tradeId
  }

  /**
   Then the lots and closed trades of each trade hold exactly its own fills:
   the lots the net of their shares, and lots and closed trades together the
   money they moved at entry and exit.
   */
  lemma {:induction false} TradesHoldTheirFills(fills: seq<FillEvent>, t: Trade)
    requires KeepsToItsTrade(fills)
    ensures var b := BooksAfter(fills);
            && Total(b.lots, LotShares(t)) == Total(fills, FillShares(t))
            && Total(b.closed, ExitLessEntry(t)) - Total(b.lots, LotMoney(t)) == -Total(fills, FillMoney(t))
  {
    hide Total, LotShares, LotMoney, FillShares, FillMoney, ExitLessEntry, BookLot, ClosesOwn;
    if fills == [] {
      TotalNone(LotShares(t));
      TotalNone(LotMoney(t));
      TotalNone(FillShares(t));
      TotalNone(FillMoney(t));
      TotalNone(ExitLessEntry(t));
    } else {
      var init, fill := fills[..|fills| - 1], fills[|fills| - 1];
      forall n: nat | n < |init| ensures ClosesOwn(BooksAfter(init[..n]).lots, init[n]) {
        assert init[..n] == fills[..n];
        assert ClosesOwn(BooksAfter(fills[..n]).lots, fills[n]);
      }
      TradesHoldTheirFills(init, t);
      assert ClosesOwn(BooksAfter(fills[..|init|]).lots, fills[|init|]);
      OneMoreFill(BooksAfter(init), fill, t);
      assert fills == init + [fill];
      TotalConcat(init, [fill], FillShares(t));
      TotalConcat(init, [fill], FillMoney(t));
      TotalOne(fill, FillShares(t));
      TotalOne(fill, FillMoney(t));
    }
  }

  lemma OneMoreFill(b: LotBook, fill: FillEvent, t: Trade)
    requires ClosesOwn(b.lots, fill)
    ensures var c := BookLot(b, fill);
            && Total(c.lots, LotShares(t)) == Total(b.lots, LotShares(t)) + FillShares(t)(fill)
            && Total(c.closed, ExitLessEntry(t)) - Total(c.lots, LotMoney(t))
               == Total(b.closed, ExitLessEntry(t)) - Total(b.lots, LotMoney(t)) - FillMoney(t)(fill)
  {
    if Signed(fill) == 0 {
      NoShares(fill, t);
    } else {
      hide Total, LotShares, LotMoney, FillShares, FillMoney, ExitLessEntry, ApplyFillToLots, ClosesOwn;
      OwnFill(b.lots, fill, t);
      TotalConcat(b.closed, ApplyFillToLots(b.lots, fill).closed, ExitLessEntry(t));
    }
  }

  /** What the shares closed fetched at exit less what they cost at entry. */
  function ExitLessEntry(t: Trade): ClosedTrade -> real {
    (c: ClosedTrade) => if ClosedIn(t, c) then Out(c) as real * c.exitPrice - Out(c) as real * c.entryPrice else 0.0
  }

  predicate OwnOut(c: ClosedTrade, fill: FillEvent) {
    c.strategyId == fill.strategyId && c.instrument == fill.instrument && c.tradeId == fill.tradeId && c.exitPrice == fill.price
  }

  lemma OneOwnOut(c: ClosedTrade, fill: FillEvent, t: Trade)
    requires OwnOut(c, fill)
    ensures OutShares(t)(c) == if FillIn(t, fill) then AnyOut()(c) else 0.0
    ensures ExitLessEntry(t)(c) == (if FillIn(t, fill) then AnyOut()(c) * fill.price else 0.0) - OutMoney(t)(c)
  {
  }

  lemma {:induction false} OwnOuts(closed: seq<ClosedTrade>, fill: FillEvent, t: Trade)
    requires forall k :: 0 <= k < |closed| ==> OwnOut(closed[k], fill)
    ensures Total(closed, OutShares(t)) == (if FillIn(t, fill) then Total(closed, AnyOut()) else 0.0)
    ensures Total(closed, ExitLessEntry(t))
         == (if FillIn(t, fill) then Total(closed, AnyOut()) * fill.price else 0.0) - Total(closed, OutMoney(t))
  {
    hide OutShares, OutMoney, AnyOut, ExitLessEntry, OwnOut;
    if closed != [] {
      var init, c := closed[..|closed| - 1], closed[|closed| - 1];
      OwnOuts(init, fill, t);
      OneOwnOut(c, fill, t);
      Distributes(Total(init, AnyOut()), AnyOut()(c), fill.price);
    }
  }

  lemma Distributes(a: real, b: real, price: real)
    ensures (a + b) * price == a * price + b * price
  {
  }

  /** A fill that closes only its own trade adds itself to that trade and to no other. */
  lemma OwnFill(lots: seq<Lot>, fill: FillEvent, t: Trade)
    requires ClosesOwn(lots, fill)
    ensures var r := ApplyFillToLots(lots, fill);
            && Total(r.lots, LotShares(t)) == Total(lots, LotShares(t)) + FillShares(t)(fill)
            && Total(r.closed, ExitLessEntry(t)) - Total(r.lots, LotMoney(t)) == -Total(lots, LotMoney(t)) - FillMoney(t)(fill)
  {
    var r := ApplyFillToLots(lots, fill);
    hide Total, ApplyFillToLots, LotShares, LotMoney, OutShares, OutMoney, AnyOut, ExitLessEntry;
    forall k | 0 <= k < |r.closed| ensures OwnOut(r.closed[k], fill) {
      ClosedTradesTell(lots, fill, k);
    }
    FillByTrade(lots, fill, t);
    OwnOuts(r.closed, fill, t);
    Distributes(Size(fill) as real, Total(r.closed, AnyOut()), fill.price);
  }

  lemma NoShares(fill: FillEvent, t: Trade)
    requires fill.quantity == 0
    ensures FillShares(t)(fill) == 0.0 && FillMoney(t)(fill) == 0.0
  {
  }
}
