/**
 The report's lot book: how one fill closes, merges into, or opens lots.
 Quantities are whole shares, so every "within epsilon of zero" test on a
 quantity is an exact test.
 */
module ReportLots {
  import opened Types
  import opened Sums

  const EPSILON: real := 0.000000001

  datatype FillEvent = FillEvent(
    sequence: nat,
    timestamp: int,
    strategyId: StrategyId,
    role: string,
    tradeId: Option<TradeId>,
    instrument: Instrument,
    side: Side,
    quantity: int,
    price: real)

  datatype Lot = Lot(
    strategyId: StrategyId,
    instrument: Instrument,
    tradeId: Option<TradeId>,
    quantity: int,
    entryPrice: real,
    entryTime: int,
    entrySequence: nat)

  datatype ClosedTrade = ClosedTrade(
    strategyId: StrategyId,
    instrument: Instrument,
    tradeId: Option<TradeId>,
    side: Side,
    quantity: nat,
    entryTime: int,
    exitTime: int,
    entryPrice: real,
    exitPrice: real,
    pnl: real,
    returnPct: real)

  /** The report signs by the name of the side and takes the size's magnitude. */
  function Signed(fill: FillEvent): int {
    var size: int := Abs(fill.quantity);
    if fill.side.Long? then size else -size
  }

  // ---------------------------------------------------------------- choosing a lot to close

  predicate SameGroup(lot: Lot, fill: FillEvent) {
    lot.strategyId == fill.strategyId && lot.instrument == fill.instrument
  }

  predicate OppositeSigns(a: int, b: int) {
    a < 0 < b || b < 0 < a
  }

  predicate Closable(lot: Lot, fill: FillEvent, remaining: int) {
    SameGroup(lot, fill) && OppositeSigns(lot.quantity, remaining)
  }

  /** A candidate; with `exact`, one that also carries the fill's trade id. */
  predicate Eligible(lot: Lot, fill: FillEvent, remaining: int, exact: bool) {
    Closable(lot, fill, remaining) && (exact ==> lot.tradeId == fill.tradeId)
  }

  /** The eligible lot with the lowest entry sequence; the first such lot in the list on a tie. */
  function LowestSequence(lots: seq<Lot>, fill: FillEvent, remaining: int, exact: bool): (r: Option<nat>)
    ensures r.None? ==> forall j :: 0 <= j < |lots| ==> !Eligible(lots[j], fill, remaining, exact)
    ensures r.Some? ==> r.value < |lots| && Eligible(lots[r.value], fill, remaining, exact)
    ensures r.Some? ==>
      forall j :: 0 <= j < |lots| && Eligible(lots[j], fill, remaining, exact) ==>
        && lots[r.value].entrySequence <= lots[j].entrySequence
        && (j < r.value ==> lots[r.value].entrySequence < lots[j].entrySequence)
  {
    if lots == [] then None
    else
      var n := |lots| - 1;
      var best := LowestSequence(lots[..n], fill, remaining, exact);
      if !Eligible(lots[n], fill, remaining, exact) then best
      else if best.Some? && lots[best.value].entrySequence <= lots[n].entrySequence then best
      else Some(n)
  }

  /** Lots of the fill's own trade id come first; otherwise first in, first out. */
  function SelectClosingLot(lots: seq<Lot>, fill: FillEvent, remaining: int): (r: Option<nat>)
    ensures r.None? <==> forall j :: 0 <= j < |lots| ==> !Closable(lots[j], fill, remaining)
    ensures r.Some? ==> r.value < |lots| && Closable(lots[r.value], fill, remaining)
    ensures r.Some? && fill.tradeId.Some? && lots[r.value].tradeId != fill.tradeId
            ==> forall j :: 0 <= j < |lots| ==> !Eligible(lots[j], fill, remaining, true)
    ensures r.Some? ==>
      forall j :: 0 <= j < |lots| && Eligible(lots[j], fill, remaining, fill.tradeId.Some? && lots[r.value].tradeId == fill.tradeId) ==>
        && lots[r.value].entrySequence <= lots[j].entrySequence
        && (j < r.value ==> lots[r.value].entrySequence < lots[j].entrySequence)
  {
    var exact := if fill.tradeId.Some? then LowestSequence(lots, fill, remaining, true) else None;
    if exact.Some? then exact else
    var any := LowestSequence(lots, fill, remaining, false);
    assert any.None? ==> forall j :: 0 <= j < |lots| && Closable(lots[j], fill, remaining)
                                     ==> Eligible(lots[j], fill, remaining, false);
    any
  }

  // ---------------------------------------------------------------- one fill, on values

  function ClosingQuantity(lot: Lot, remaining: int): (c: int)
    requires OppositeSigns(lot.quantity, remaining)
    ensures c != 0 && (c > 0 <==> lot.quantity > 0)
    ensures Abs(lot.quantity - c) == Abs(lot.quantity) - Abs(c)
    ensures Abs(remaining + c) == Abs(remaining) - Abs(c)
    ensures lot.quantity == c || remaining + c == 0
  {
    var size := Min(Abs(remaining), Abs(lot.quantity));
    if lot.quantity > 0 then size else -size
  }

  function CloseTrade(lot: Lot, fill: FillEvent, c: int): ClosedTrade {
    var pnl := Profit(c as real, lot.entryPrice, fill.price, lot.instrument.multiplier);
    ClosedTrade(
      lot.strategyId, lot.instrument, lot.tradeId,
      if lot.quantity > 0 then Long else Short,
      Abs(c), lot.entryTime, fill.timestamp, lot.entryPrice, fill.price,
      pnl, ReturnOn(pnl, Value(c as real, lot.entryPrice, lot.instrument.multiplier)))
  }

  function ReturnOn(pnl: real, cost: real): real {
    var notional := AbsReal(cost);
    if notional > EPSILON then pnl / notional else 0.0
  }

  function Reduced(lots: seq<Lot>, i: nat, c: int): seq<Lot>
    requires i < |lots|
  {
    if lots[i].quantity == c then lots[..i] + lots[i + 1..]
    else lots[i := lots[i].(quantity := lots[i].quantity - c)]
  }

  datatype Closing = Closing(lots: seq<Lot>, closed: seq<ClosedTrade>, remaining: int)

  function CloseOut(lots: seq<Lot>, fill: FillEvent, remaining: int): Closing
    decreases |lots| + (if remaining == 0 then 0 else 1)
  {
    var choice := SelectClosingLot(lots, fill, remaining);
    if remaining == 0 || choice.None? then Closing(lots, [], remaining)
    else
      var c := ClosingQuantity(lots[choice.value], remaining);
      var rest := CloseOut(Reduced(lots, choice.value, c), fill, remaining + c);
      rest.(closed := [CloseTrade(lots[choice.value], fill, c)] + rest.closed)
  }

  /** An open lot the rest of the fill may be added to: same trade id, same direction. */
  predicate Mergeable(lot: Lot, fill: FillEvent, quantity: int) {
    && fill.tradeId.Some?
    && SameGroup(lot, fill)
    && lot.tradeId == fill.tradeId
    && ((lot.quantity > 0 && quantity > 0) || (lot.quantity < 0 && quantity < 0))
  }

  function FirstMergeable(lots: seq<Lot>, fill: FillEvent, quantity: int): (r: Option<nat>)
    ensures r.None? ==> forall j :: 0 <= j < |lots| ==> !Mergeable(lots[j], fill, quantity)
    ensures r.Some? ==> r.value < |lots| && Mergeable(lots[r.value], fill, quantity)
    ensures r.Some? ==> forall j :: 0 <= j < r.value ==> !Mergeable(lots[j], fill, quantity)
  {
    if lots == [] then None
    else
      var n := |lots| - 1;
      var earlier := FirstMergeable(lots[..n], fill, quantity);
      if earlier.Some? then earlier
      else if Mergeable(lots[n], fill, quantity) then Some(n)
      else None
  }

  function Merged(lot: Lot, fill: FillEvent, quantity: int): Lot
    requires Mergeable(lot, fill, quantity)
  {
    var oldAbs, newAbs := Abs(lot.quantity) as real, Abs(quantity) as real;
    lot.(entryPrice := AveragePrice(lot.entryPrice, oldAbs, fill.price, newAbs),
         quantity := lot.quantity + quantity,
         entryTime := Min(lot.entryTime, fill.timestamp))
  }

  function NewLot(fill: FillEvent, quantity: int): Lot {
    Lot(fill.strategyId, fill.instrument, fill.tradeId, quantity, fill.price, fill.timestamp, fill.sequence)
  }

  function AddOpenLot(lots: seq<Lot>, fill: FillEvent, quantity: int): seq<Lot> {
    var i := FirstMergeable(lots, fill, quantity);
    if i.Some? then lots[i.value := Merged(lots[i.value], fill, quantity)]
    else lots + [NewLot(fill, quantity)]
  }

  datatype Applied = Applied(lots: seq<Lot>, closed: seq<ClosedTrade>, unmatchedClose: bool)

  function ApplyFillToLots(lots: seq<Lot>, fill: FillEvent): Applied {
    var r := CloseOut(lots, fill, Signed(fill));
    if r.remaining == 0 then Applied(r.lots, r.closed, false)
    else Applied(AddOpenLot(r.lots, fill, r.remaining), r.closed,
                 fill.role == "close" || fill.role == "protective_stop")
  }

  // ---------------------------------------------------------------- measures

  /** Which lots and trades a sum looks at. */
  datatype Scope = Everything | OneInstrument(i: Instrument) | OneGroup(s: StrategyId, i: Instrument)

  predicate Within(scope: Scope, strategyId: StrategyId, instrument: Instrument) {
    match scope
    case Everything => true
    case OneInstrument(i) => instrument == i
    case OneGroup(s, i) => strategyId == s && instrument == i
  }

  function QuantityOf(scope: Scope): Lot -> real {
    (lot: Lot) => if Within(scope, lot.strategyId, lot.instrument) then lot.quantity as real else 0.0
  }

  /** What a lot cost: signed quantity at entry price, times the multiplier. */
  function CostOf(scope: Scope): Lot -> real {
    (lot: Lot) =>
      if Within(scope, lot.strategyId, lot.instrument)
      then Value(lot.quantity as real, lot.entryPrice, lot.instrument.multiplier)
      else 0.0
  }

  function PnlOf(scope: Scope): ClosedTrade -> real {
    (t: ClosedTrade) => if Within(scope, t.strategyId, t.instrument) then t.pnl else 0.0
  }

  /** What `quantity` shares are worth at the fill's price, if the fill lies within the scope. */
  function ValueWithin(scope: Scope, fill: FillEvent, quantity: int): real {
    if Within(scope, fill.strategyId, fill.instrument)
    then Value(quantity as real, fill.price, fill.instrument.multiplier)
    else 0.0
  }

  function SignedWithin(scope: Scope, fill: FillEvent, quantity: int): real {
    if Within(scope, fill.strategyId, fill.instrument) then quantity as real else 0.0
  }

  // ---------------------------------------------------------------- conservation

  /** Splitting off `c` shares splits a lot's quantity and cost. */
  lemma SplitLot(lot: Lot, c: int, scope: Scope)
    ensures QuantityOf(scope)(lot.(quantity := lot.quantity - c))
         == QuantityOf(scope)(lot) - QuantityOf(scope)(lot.(quantity := c))
    ensures CostOf(scope)(lot.(quantity := lot.quantity - c))
         == CostOf(scope)(lot) - CostOf(scope)(lot.(quantity := c))
  {
    ValueAdd((lot.quantity - c) as real, c as real, lot.entryPrice, lot.instrument.multiplier);
    hide Value, Profit, ReturnOn, AveragePrice;
    assert (lot.quantity - c) as real + c as real == lot.quantity as real;
  }

  lemma ReducedTotals(lots: seq<Lot>, i: nat, c: int, scope: Scope)
    requires i < |lots|
    ensures Total(Reduced(lots, i, c), QuantityOf(scope))
         == Total(lots, QuantityOf(scope)) - QuantityOf(scope)(lots[i].(quantity := c))
    ensures Total(Reduced(lots, i, c), CostOf(scope))
         == Total(lots, CostOf(scope)) - CostOf(scope)(lots[i].(quantity := c))
  {
    hide Value, Profit, ReturnOn, AveragePrice, Total, QuantityOf, CostOf;
    var left := lots[i].(quantity := lots[i].quantity - c);
    SplitLot(lots[i], c, scope);
    TotalAt(lots, i, left, QuantityOf(scope));
    TotalAt(lots, i, left, CostOf(scope));
    if lots[i].quantity == c {
      assert lots[i].(quantity := c) == lots[i];
    }
  }

  /** The cost of the shares closed and the profit on them add up to what they fetch. */
  lemma CostAndProfit(lot: Lot, fill: FillEvent, c: int, scope: Scope)
    requires SameGroup(lot, fill)
    ensures QuantityOf(scope)(lot.(quantity := c)) == SignedWithin(scope, fill, c)
    ensures CostOf(scope)(lot.(quantity := c)) + PnlOf(scope)(CloseTrade(lot, fill, c)) == ValueWithin(scope, fill, c)
  {
    ProfitSplit(c as real, lot.entryPrice, fill.price, fill.instrument.multiplier);
    hide Value, Profit, ReturnOn, AveragePrice;
  }

  lemma WithinAdds(scope: Scope, fill: FillEvent, a: int, b: int)
    ensures SignedWithin(scope, fill, a + b) == SignedWithin(scope, fill, a) + SignedWithin(scope, fill, b)
    ensures ValueWithin(scope, fill, a + b) == ValueWithin(scope, fill, a) + ValueWithin(scope, fill, b)
    ensures ValueWithin(scope, fill, 0) == 0.0
  {
    ValueAdd(a as real, b as real, fill.price, fill.instrument.multiplier);
    ValueZero(fill.price, fill.instrument.multiplier);
    hide Value, Profit, ReturnOn, AveragePrice;
    assert (a + b) as real == a as real + b as real;
  }

  ghost function After(made: seq<ClosedTrade>, rest: Closing): Closing {
    rest.(closed := made + rest.closed)
  }

  /** Unfolds one round of closing. */
  lemma OneRound(lots: seq<Lot>, fill: FillEvent, remaining: int)
    ensures
      var choice := SelectClosingLot(lots, fill, remaining);
      if remaining == 0 || choice.None? then
        CloseOut(lots, fill, remaining) == Closing(lots, [], remaining)
      else
        var c := ClosingQuantity(lots[choice.value], remaining);
        CloseOut(lots, fill, remaining)
        == After([CloseTrade(lots[choice.value], fill, c)],
                 CloseOut(Reduced(lots, choice.value, c), fill, remaining + c))
  {
    hide SelectClosingLot, ClosingQuantity, Reduced, CloseTrade;
  }

  /** Every round drops a lot or uses up the fill. */
  lemma RoundShrinks(lots: seq<Lot>, i: nat, remaining: int)
    requires i < |lots| && OppositeSigns(lots[i].quantity, remaining)
    ensures var c := ClosingQuantity(lots[i], remaining);
            |Reduced(lots, i, c)| < |lots| || (|Reduced(lots, i, c)| == |lots| && remaining + c == 0)
  {
  }

  /** Closing turns cost into realised P&L: together they change by the cash received. */
  lemma {:induction false} CloseOutConserves(lots: seq<Lot>, fill: FillEvent, remaining: int, scope: Scope)
    ensures var r := CloseOut(lots, fill, remaining);
            && Total(r.lots, QuantityOf(scope)) - Total(lots, QuantityOf(scope))
               == SignedWithin(scope, fill, remaining) - SignedWithin(scope, fill, r.remaining)
            && Total(r.closed, PnlOf(scope)) - (Total(r.lots, CostOf(scope)) - Total(lots, CostOf(scope)))
               == ValueWithin(scope, fill, r.remaining) - ValueWithin(scope, fill, remaining)
    decreases |lots| + (if remaining == 0 then 0 else 1)
  {
    hide Total, QuantityOf, CostOf, PnlOf, SignedWithin, ValueWithin, CloseOut, CloseTrade, Reduced, ClosingQuantity;
    TotalNone<ClosedTrade>(PnlOf(scope));
    OneRound(lots, fill, remaining);
    var choice := SelectClosingLot(lots, fill, remaining);
    if remaining != 0 && choice.Some? {
      var lot := lots[choice.value];
      var c := ClosingQuantity(lot, remaining);
      var trade, after := CloseTrade(lot, fill, c), Reduced(lots, choice.value, c);
      RoundShrinks(lots, choice.value, remaining);
      CloseOutConserves(after, fill, remaining + c, scope);
      ReducedTotals(lots, choice.value, c, scope);
      CostAndProfit(lot, fill, c, scope);
      WithinAdds(scope, fill, remaining, c);
      TotalConcat([trade], CloseOut(after, fill, remaining + c).closed, PnlOf(scope));
      TotalOne(trade, PnlOf(scope));
    }
  }

  /** Merging averages the entry price so that the merged lot costs what its parts cost. */
  lemma MergeKeepsCost(lot: Lot, fill: FillEvent, quantity: int)
    requires Mergeable(lot, fill, quantity)
    ensures var merged := Merged(lot, fill, quantity);
            && Value(merged.quantity as real, merged.entryPrice, fill.instrument.multiplier)
               == Value(lot.quantity as real, lot.entryPrice, fill.instrument.multiplier)
                + Value(quantity as real, fill.price, fill.instrument.multiplier)
  {
    WeightedAverage(lot.entryPrice, Abs(lot.quantity) as real, fill.price, Abs(quantity) as real,
                    fill.instrument.multiplier);
    if quantity < 0 {
      var price := Merged(lot, fill, quantity).entryPrice;
      ValueNegate(Abs(lot.quantity) as real, lot.entryPrice, fill.instrument.multiplier);
      ValueNegate(Abs(quantity) as real, fill.price, fill.instrument.multiplier);
      ValueNegate(Abs(lot.quantity) as real + Abs(quantity) as real, price, fill.instrument.multiplier);
      hide Value, Profit, ReturnOn, AveragePrice;
    }
  }

  lemma AddOpenLotConserves(lots: seq<Lot>, fill: FillEvent, quantity: int, scope: Scope)
    ensures var after := AddOpenLot(lots, fill, quantity);
            && Total(after, QuantityOf(scope)) == Total(lots, QuantityOf(scope)) + SignedWithin(scope, fill, quantity)
            && Total(after, CostOf(scope)) == Total(lots, CostOf(scope)) + ValueWithin(scope, fill, quantity)
  {
    hide Value, Profit, ReturnOn, AveragePrice, Total;
    var i := FirstMergeable(lots, fill, quantity);
    if i.Some? {
      var merged := Merged(lots[i.value], fill, quantity);
      MergeKeepsCost(lots[i.value], fill, quantity);
      TotalAt(lots, i.value, merged, QuantityOf(scope));
      TotalAt(lots, i.value, merged, CostOf(scope));
    } else {
      var lot := NewLot(fill, quantity);
      TotalConcat(lots, [lot], QuantityOf(scope));
      TotalConcat(lots, [lot], CostOf(scope));
      TotalOne(lot, QuantityOf(scope));
      TotalOne(lot, CostOf(scope));
    }
  }

  /**
   One fill, whatever it closes, flips, merges or opens: in every scope the lot
   quantity moves by the signed fill, and realised P&L less open cost moves by
   the cash the fill paid or received.
   */
  lemma FillConserves(lots: seq<Lot>, fill: FillEvent, scope: Scope)
    ensures var r := ApplyFillToLots(lots, fill);
            && Total(r.lots, QuantityOf(scope)) == Total(lots, QuantityOf(scope)) + SignedWithin(scope, fill, Signed(fill))
            && Total(r.closed, PnlOf(scope)) - (Total(r.lots, CostOf(scope)) - Total(lots, CostOf(scope)))
               == -ValueWithin(scope, fill, Signed(fill))
  {
    var r := CloseOut(lots, fill, Signed(fill));
    CloseOutConserves(lots, fill, Signed(fill), scope);
    if r.remaining != 0 {
      AddOpenLotConserves(r.lots, fill, r.remaining, scope);
    }
    WithinAdds(scope, fill, 0, 0);
    hide Value, Profit, ReturnOn, AveragePrice, Total;
  }

  // ---------------------------------------------------------------- shape of the lot book

  predicate SameBook(a: Lot, b: Lot) {
    a.strategyId == b.strategyId && a.instrument == b.instrument
  }

  /**
   No flat lots; no long lot beside a short one in a group; at most one lot per
   trade id in a group.
   */
  ghost predicate WellShaped(lots: seq<Lot>) {
    && (forall i :: 0 <= i < |lots| ==> lots[i].quantity != 0)
    && (forall i, j :: 0 <= i < j < |lots| && SameBook(lots[i], lots[j]) ==> (lots[i].quantity > 0 <==> lots[j].quantity > 0))
    && (forall i, j :: 0 <= i < j < |lots| && SameBook(lots[i], lots[j]) ==>
          lots[i].tradeId.None? || lots[i].tradeId != lots[j].tradeId)
  }

  lemma ReducedWellShaped(lots: seq<Lot>, i: nat, remaining: int)
    requires WellShaped(lots) && i < |lots| && OppositeSigns(lots[i].quantity, remaining)
    ensures WellShaped(Reduced(lots, i, ClosingQuantity(lots[i], remaining)))
  {
    hide Value, Profit, ReturnOn, AveragePrice;
    var c := ClosingQuantity(lots[i], remaining);
    var after := Reduced(lots, i, c);
    if lots[i].quantity == c {
      forall j, k | 0 <= j < k < |after| && SameBook(after[j], after[k])
        ensures (after[j].quantity > 0 <==> after[k].quantity > 0)
             && (after[j].tradeId.None? || after[j].tradeId != after[k].tradeId)
      {
        var j', k' := if j < i then j else j + 1, if k < i then k else k + 1;
        assert after[j] == lots[j'] && after[k] == lots[k'];
      }
    }
  }

  /** Closing keeps the shape, and stops only when done or when nothing opposes the rest. */
  lemma {:induction false} CloseOutShape(lots: seq<Lot>, fill: FillEvent, remaining: int)
    requires WellShaped(lots)
    ensures var r := CloseOut(lots, fill, remaining);
            && WellShaped(r.lots)
            && (r.remaining == 0 || (remaining != 0 && (r.remaining > 0 <==> remaining > 0)))
            && (r.remaining != 0 ==> forall j :: 0 <= j < |r.lots| ==> !Closable(r.lots[j], fill, r.remaining))
    decreases |lots| + (if remaining == 0 then 0 else 1)
  {
    hide CloseOut, CloseTrade, Reduced, WellShaped;
    OneRound(lots, fill, remaining);
    var choice := SelectClosingLot(lots, fill, remaining);
    if remaining != 0 && choice.Some? {
      var c := ClosingQuantity(lots[choice.value], remaining);
      RoundShrinks(lots, choice.value, remaining);
      ReducedWellShaped(lots, choice.value, remaining);
      CloseOutShape(Reduced(lots, choice.value, c), fill, remaining + c);
    }
  }

  lemma AddOpenLotShape(lots: seq<Lot>, fill: FillEvent, quantity: int)
    requires WellShaped(lots) && quantity != 0
    requires forall j :: 0 <= j < |lots| ==> !Closable(lots[j], fill, quantity)
    ensures WellShaped(AddOpenLot(lots, fill, quantity))
  {
    hide Value, Profit, ReturnOn, AveragePrice;
    forall j | 0 <= j < |lots| && SameGroup(lots[j], fill)
      ensures lots[j].quantity > 0 <==> quantity > 0
    {
      assert !OppositeSigns(lots[j].quantity, quantity);
    }
  }

  lemma FillKeepsShape(lots: seq<Lot>, fill: FillEvent)
    requires WellShaped(lots)
    ensures WellShaped(ApplyFillToLots(lots, fill).lots)
  {
    hide Value, Profit, ReturnOn, AveragePrice;
    CloseOutShape(lots, fill, Signed(fill));
    var r := CloseOut(lots, fill, Signed(fill));
    if r.remaining != 0 {
      AddOpenLotShape(r.lots, fill, r.remaining);
    }
  }

  /** A well-shaped group whose quantities sum to zero holds no lots at all. */
  lemma FlatGroupIsEmpty(lots: seq<Lot>, s: StrategyId, i: Instrument)
    requires WellShaped(lots)
    requires Total(lots, QuantityOf(OneGroup(s, i))) == 0.0
    ensures forall k :: 0 <= k < |lots| ==> !Within(OneGroup(s, i), lots[k].strategyId, lots[k].instrument)
    ensures Total(lots, CostOf(OneGroup(s, i))) == 0.0
  {
    hide Value, Total, QuantityOf;
    if k :| 0 <= k < |lots| && Within(OneGroup(s, i), lots[k].strategyId, lots[k].instrument) {
      OneSignedTotal(lots, s, i, lots[k].quantity > 0, k);
    }
    TotalZero(lots, CostOf(OneGroup(s, i)));
  }

  lemma {:induction false} OneSignedTotal(lots: seq<Lot>, s: StrategyId, i: Instrument, long: bool, k0: nat)
    requires forall k :: 0 <= k < |lots| && Within(OneGroup(s, i), lots[k].strategyId, lots[k].instrument) ==>
               lots[k].quantity != 0 && (lots[k].quantity > 0 <==> long)
    ensures var q := Total(lots, QuantityOf(OneGroup(s, i)));
            && (if long then q >= 0.0 else q <= 0.0)
            && (k0 < |lots| && Within(OneGroup(s, i), lots[k0].strategyId, lots[k0].instrument) ==> q != 0.0)
  {
    if lots != [] {
      OneSignedTotal(lots[..|lots| - 1], s, i, long, k0);
    }
  }

  // ---------------------------------------------------------------- order of closing

  /** A lot of the fill's own trade that a fill in this direction would close. */
  predicate OwnOpposing(lot: Lot, fill: FillEvent, buying: bool) {
    && SameGroup(lot, fill)
    && lot.tradeId == fill.tradeId
    && (if buying then lot.quantity < 0 else lot.quantity > 0)
  }

  ghost predicate NoneOpposing(lots: seq<Lot>, fill: FillEvent, buying: bool) {
    forall j :: 0 <= j < |lots| ==> !OwnOpposing(lots[j], fill, buying)
  }

  lemma ReducedOpposesNone(lots: seq<Lot>, i: nat, fill: FillEvent, remaining: int)
    requires i < |lots| && Closable(lots[i], fill, remaining)
    requires NoneOpposing(lots, fill, remaining > 0)
    ensures NoneOpposing(Reduced(lots, i, ClosingQuantity(lots[i], remaining)), fill, remaining > 0)
  {
    hide Value, Profit, ReturnOn, AveragePrice;
  }

  lemma {:induction false} CloseOutOpposesNone(lots: seq<Lot>, fill: FillEvent, remaining: int, buying: bool)
    requires NoneOpposing(lots, fill, buying)
    requires remaining == 0 || (remaining > 0 <==> buying)
    ensures NoneOpposing(CloseOut(lots, fill, remaining).lots, fill, buying)
    decreases |lots| + (if remaining == 0 then 0 else 1)
  {
    hide NoneOpposing, CloseOut, CloseTrade, Reduced;
    OneRound(lots, fill, remaining);
    var choice := SelectClosingLot(lots, fill, remaining);
    if remaining != 0 && choice.Some? {
      var c := ClosingQuantity(lots[choice.value], remaining);
      RoundShrinks(lots, choice.value, remaining);
      ReducedOpposesNone(lots, choice.value, fill, remaining);
      CloseOutOpposesNone(Reduced(lots, choice.value, c), fill, remaining + c, buying);
    }
  }

  /** A lot of another trade is closed only once every opposing lot of the fill's own trade is gone. */
  lemma {:induction false} OwnTradeClosesFirst(lots: seq<Lot>, fill: FillEvent, remaining: int, buying: bool)
    requires fill.tradeId.Some?
    requires remaining == 0 || (remaining > 0 <==> buying)
    ensures var r := CloseOut(lots, fill, remaining);
            (forall k :: 0 <= k < |r.closed| ==> r.closed[k].tradeId == fill.tradeId)
            || NoneOpposing(r.lots, fill, buying)
    decreases |lots| + (if remaining == 0 then 0 else 1)
  {
    hide Value, Profit, ReturnOn, AveragePrice, NoneOpposing, CloseOut, Reduced;
    OneRound(lots, fill, remaining);
    var choice := SelectClosingLot(lots, fill, remaining);
    if remaining != 0 && choice.Some? {
      var lot := lots[choice.value];
      var c := ClosingQuantity(lot, remaining);
      if lot.tradeId != fill.tradeId {
        NoExactMatch(lots, fill, remaining);
        assert buying == (remaining > 0);
        CloseOutOpposesNone(lots, fill, remaining, buying);
      } else {
        RoundShrinks(lots, choice.value, remaining);
        OwnTradeClosesFirst(Reduced(lots, choice.value, c), fill, remaining + c, buying);
      }
    }
  }

  lemma NoExactMatch(lots: seq<Lot>, fill: FillEvent, remaining: int)
    requires fill.tradeId.Some? && SelectClosingLot(lots, fill, remaining).Some?
    requires lots[SelectClosingLot(lots, fill, remaining).value].tradeId != fill.tradeId
    ensures NoneOpposing(lots, fill, remaining > 0)
  {
    hide Value, Profit, ReturnOn, AveragePrice;
    forall j | 0 <= j < |lots|
      ensures !OwnOpposing(lots[j], fill, remaining > 0)
    {
      assert !Eligible(lots[j], fill, remaining, true);
    }
  }
}
