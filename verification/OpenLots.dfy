/** The report's mutable list of open lots, edited in place one fill at a time. */
module OpenLots {
  import opened Types
  import opened ReportLots

  lemma NoneEmpty(lots: seq<Lot>)
    requires WellShaped(lots)
    ensures forall j :: 0 <= j < |lots| ==> lots[j].quantity != 0
  {
  }

  class OpenLot {
    const strategyId: StrategyId
    const instrument: Instrument
    const tradeId: Option<TradeId>
    const entrySequence: nat
    var quantity: int
    var entryPrice: real
    var entryTime: int

    constructor (lot: Lot)
      ensures View() == lot
    {
      strategyId, instrument, tradeId, entrySequence := lot.strategyId, lot.instrument, lot.tradeId, lot.entrySequence;
      quantity, entryPrice, entryTime := lot.quantity, lot.entryPrice, lot.entryTime;
    }

    function View(): Lot
      reads this
    {
      Lot(strategyId, instrument, tradeId, quantity, entryPrice, entryTime, entrySequence)
    }
  }

  lemma AfterBoth(first: seq<ClosedTrade>, second: seq<ClosedTrade>, rest: Closing)
    ensures After(first, After(second, rest)) == After(first + second, rest)
    ensures After([], rest) == rest
  {
    assert first + (second + rest.closed) == first + second + rest.closed;
    assert [] + rest.closed == rest.closed;
  }

  lemma NextShape(lots: seq<Lot>, fill: FillEvent, remaining: int)
    requires WellShaped(lots) && remaining != 0 && SelectClosingLot(lots, fill, remaining).Some?
    ensures var i := SelectClosingLot(lots, fill, remaining).value;
            WellShaped(Reduced(lots, i, ClosingQuantity(lots[i], remaining)))
  {
    ReducedWellShaped(lots, SelectClosingLot(lots, fill, remaining).value, remaining);
  }

  class LotList {
    var lots: seq<OpenLot>

    constructor ()
      ensures Valid() && Contents() == []
      ensures lots == []
    {
      lots := [];
    }

    /** The list holds no object twice. */
    ghost predicate Valid()
      reads this
    {
      forall i, j :: 0 <= i < j < |lots| ==> lots[i] != lots[j]
    }

    function Contents(): (s: seq<Lot>)
      reads this, lots
      ensures |s| == |lots|
      ensures forall i :: 0 <= i < |s| ==> s[i] == lots[i].View()
    {
      seq(|lots|, i requires 0 <= i < |lots| reads this, lots => lots[i].View())
    }

    /** List removal by value: the first lot that compares equal goes. */
    method Remove(lot: OpenLot) returns (ghost k: nat)
      requires Valid() && lot in lots
      modifies this
      ensures Valid()
      ensures k < |old(lots)| && old(lots)[k].View() == lot.View()
      ensures forall j :: 0 <= j < k ==> old(lots)[j].View() != lot.View()
      ensures lots == old(lots)[..k] + old(lots)[k + 1..]
    {
      var i := 0;
      while lots[i].View() != lot.View()
        invariant 0 <= i < |lots| && lot in lots[i..]
        invariant forall j :: 0 <= j < i ==> lots[j].View() != lot.View()
        decreases |lots| - i
      {
        i := i + 1;
      }
      k := i;
      lots := lots[..i] + lots[i + 1..];
    }

    /** Takes `c` shares off one lot and drops the lot when nothing is left. */
    method Reduce(i: nat, c: int)
      requires Valid() && i < |lots|
      requires WellShaped(Contents())
      modifies this, lots[i]
      ensures Valid()
      ensures forall j :: 0 <= j < |lots| ==> lots[j] in old(lots)
      ensures Contents() == Reduced(old(Contents()), i, c)
    {
      hide Value, Profit, ReturnOn, AveragePrice, WellShaped;
      var lot := lots[i];
      ghost var before := Contents();
      NoneEmpty(before);
      lot.quantity := lot.quantity - c;
      ghost var after := before[i := before[i].(quantity := before[i].quantity - c)];
      assert Contents() == after;
      if lot.quantity == 0 {
        ghost var all := lots;
        ghost var k := Remove(lot);
        assert forall j :: 0 <= j < |all| ==> all[j].View() == after[j];
        assert k == i;
        forall j | 0 <= j < |lots| ensures Contents()[j] == if j < i then after[j] else after[j + 1] {
          assert lots[j] == if j < i then all[j] else all[j + 1];
        }
        assert Contents() == after[..i] + after[i + 1..];
      }
    }

    /** Closes against the next lot in order, if there is one; returns what the fill has left. */
    method CloseNext(fill: FillEvent, remaining: int) returns (made: seq<ClosedTrade>, left: int)
      requires Valid() && WellShaped(Contents())
      modifies this, lots
      ensures Valid() && WellShaped(Contents())
      ensures forall j :: 0 <= j < |lots| ==> lots[j] in old(lots)
      ensures CloseOut(old(Contents()), fill, remaining) == After(made, CloseOut(Contents(), fill, left))
      ensures if made == [] then CloseOut(Contents(), fill, left) == Closing(Contents(), [], left)
              else |lots| < |old(lots)| || (|lots| == |old(lots)| && remaining != 0 && left == 0)
    {
      hide Value, Profit, ReturnOn, AveragePrice, SelectClosingLot, Eligible, WellShaped, Reduced, CloseTrade, CloseOut;
      OneRound(Contents(), fill, remaining);
      AfterBoth([], [], CloseOut(Contents(), fill, remaining));
      made, left := [], remaining;
      var choice := SelectClosingLot(Contents(), fill, remaining);
      if remaining != 0 && choice.Some? {
        var lot := lots[choice.value].View();
        var c := ClosingQuantity(lot, remaining);
        assert lot == Contents()[choice.value];
        NextShape(Contents(), fill, remaining);
        RoundShrinks(Contents(), choice.value, remaining);
        Reduce(choice.value, c);
        made, left := [CloseTrade(lot, fill, c)], remaining + c;
      }
    }

    /** Closes opposing lots until the fill is used up or none is left. */
    method CloseMatching(fill: FillEvent) returns (closed: seq<ClosedTrade>, remaining: int)
      requires Valid() && WellShaped(Contents())
      modifies this, lots
      ensures Valid() && WellShaped(Contents())
      ensures Closing(Contents(), closed, remaining) == CloseOut(old(Contents()), fill, Signed(fill))
      ensures forall j :: 0 <= j < |lots| ==> lots[j] in old(lots)
    {
      hide Value, Profit, ReturnOn, AveragePrice, SelectClosingLot, Eligible, WellShaped, Reduced, CloseTrade;
      remaining := Signed(fill);
      closed := [];
      ghost var goal := CloseOut(Contents(), fill, remaining);
      AfterBoth([], [], goal);
      while true
        invariant Valid() && WellShaped(Contents())
        invariant forall j :: 0 <= j < |lots| ==> lots[j] in old(lots)
        invariant goal == After(closed, CloseOut(Contents(), fill, remaining))
        decreases |lots| + (if remaining == 0 then 0 else 1)
      {
        var made, left := CloseNext(fill, remaining);
        AfterBoth(closed, made, CloseOut(Contents(), fill, left));
        closed, remaining := closed + made, left;
        if made == [] {
          break;
        }
      }
    }

    method ApplyFill(fill: FillEvent) returns (closed: seq<ClosedTrade>, unmatchedClose: bool)
      requires Valid() && WellShaped(Contents())
      modifies this, lots
      ensures Valid() && WellShaped(Contents())
      ensures Applied(Contents(), closed, unmatchedClose) == ApplyFillToLots(old(Contents()), fill)
      ensures forall j :: 0 <= j < |lots| ==> lots[j] in old(lots) || fresh(lots[j])
    {
      hide Value, Profit, ReturnOn, AveragePrice;
      FillKeepsShape(Contents(), fill);
      var remaining: int;
      closed, remaining := CloseMatching(fill);
      unmatchedClose := false;
      if remaining != 0 {
        unmatchedClose := fill.role == "close" || fill.role == "protective_stop";
        Open(fill, remaining);
      }
    }

    /** Adds the rest of a fill to a lot of the same trade, or as a lot of its own. */
    method Open(fill: FillEvent, quantity: int)
      requires Valid()
      modifies this, lots
      ensures Valid()
      ensures Contents() == AddOpenLot(old(Contents()), fill, quantity)
      ensures forall j :: 0 <= j < |lots| ==> lots[j] in old(lots) || fresh(lots[j])
    {
      hide Value, Profit, ReturnOn, AveragePrice;
      for i := 0 to |lots|
        invariant Contents() == old(Contents()) && lots == old(lots)
        invariant forall j :: 0 <= j < i ==> !Mergeable(lots[j].View(), fill, quantity)
      {
        var lot := lots[i];
        if Mergeable(lot.View(), fill, quantity) {
          ghost var merged := Merged(lot.View(), fill, quantity);
          var oldAbs, newAbs := Abs(lot.quantity) as real, Abs(quantity) as real;
          lot.entryPrice := AveragePrice(lot.entryPrice, oldAbs, fill.price, newAbs);
          lot.quantity := lot.quantity + quantity;
          lot.entryTime := Min(lot.entryTime, fill.timestamp);
          assert lot.View() == merged;
          assert Contents() == old(Contents())[i := merged];
          return;
        }
      }
      var lot := new OpenLot(NewLot(fill, quantity));
      lots := lots + [lot];
    }
  }
}
