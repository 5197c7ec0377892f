/**
 Orders that leave a position: whatever the order manager sends to close or
 protect one brings it to zero when it fills, and a fill does happen.
 */
module Exits {
  import opened Types
  import opened OrderIndex
  import opened PaperBroker
  import opened BrokerLaws
  import opened Replay

  /** An order for all of an open position, in the opposite direction. */
  predicate Flattens(order: OrderRequest, i: Instrument, quantity: int) {
    && order.instrument == i
    && order.quantity > 0
    && (if order.side == Long then quantity + order.quantity == 0 else quantity - order.quantity == 0)
  }

  /** A close is a market order for all of the position, under its own key. */
  lemma CloseFlattens(key: PositionKey, quantity: int, closeKey: OrderId)
    requires quantity != 0
    ensures var order := CloseOrder(key, quantity, closeKey);
            && Flattens(order, key.1, quantity)
            && order.orderType == Market && order.strategyId == key.0 && order.idempotencyKey == closeKey
  {
  }

  /** A stop update asks for a stop for all of the position, at the price. */
  lemma StopFlattens(key: PositionKey, quantity: int, price: real, newKey: OrderId)
    requires quantity != 0
    ensures var order := StopRequest(key, quantity, price, newKey);
            && Flattens(order, key.1, quantity)
            && order.orderType == Stop && order.stopPrice == Some(price) && order.strategyId == key.0 && order.idempotencyKey == newKey
  {
  }

  /** The stop after an entry's fill is for what was filled. */
  lemma EntryStopFlattens(fill: Fill, owner: StrategyId, plan: StopPlan)
    requires fill.quantity > 0
    ensures var order := StopOrder(fill, owner, plan);
            && Flattens(order, fill.instrument, if fill.side == Long then fill.quantity else -fill.quantity)
            && order.orderType == Stop && order.stopPrice == Some(plan.price) && order.strategyId == owner
            && order.idempotencyKey == plan.stopKey
  {
  }

  lemma OneMoreOrder(b: BrokerState, p: PendingOrder, bar: Bar, i: Instrument)
    ensures Held(AfterBar(b.(pending := b.pending + [p]), bar).positions, i)
         == Held(AfterBar(b, bar).positions, i) + NetOfFills(AfterBar(Waiting([p]), bar).fillQueue, i)
  {
    hide AfterBar, Held, NetOfFills;
    var t := b.(pending := b.pending + [p]);
    BarAdds(b, bar, i);
    BarAdds(t, bar, i);
    EachByItself(b.pending, [p], bar);
    NetConcat(AfterBar(Waiting(b.pending), bar).fillQueue, AfterBar(Waiting([p]), bar).fillQueue, i);
  }

  /** On the next bar of its instrument a close takes its quantity off the position, whatever else that bar fills. */
  lemma ClosingTakesOff(b: BrokerState, key: PositionKey, quantity: int, closeKey: OrderId, generated: OrderId, bar: Bar)
    requires quantity != 0 && bar.instrument == key.1 && (b.lastSeen.Some? ==> b.lastSeen.value < bar.timestamp)
    ensures Held(AfterBar(AfterSubmit(b, CloseOrder(key, quantity, closeKey), generated), bar).positions, key.1)
         == Held(AfterBar(b, bar).positions, key.1) - quantity
  {
    var order := CloseOrder(key, quantity, closeKey);
    var p := PendingOrder(order, BrokerId(order, generated), b.lastSeen);
    OthersFillAtOpen(p, bar);
    NetCounts(AfterBar(Waiting([p]), bar).fillQueue[0], key.1);
    hide AfterBar, NetOfFills, BrokerId, Held;
    OneMoreOrder(b, p, bar, key.1);
    OnlyQueues(b, order, generated, bar, key.1);
  }

  /** Of a submission only the waiting order matters to positions. */
  lemma OnlyQueues(b: BrokerState, order: OrderRequest, generated: OrderId, bar: Bar, i: Instrument)
    ensures Held(AfterBar(AfterSubmit(b, order, generated), bar).positions, i)
         == Held(AfterBar(b.(pending := b.pending + [PendingOrder(order, BrokerId(order, generated), b.lastSeen)]), bar).positions, i)
  {
    hide FillsFor, StillPending, Completed, Bought, BrokerId, Held;
  }

  /** A stop does so on the first bar that reaches it, and on none before. */
  lemma StoppingTakesOff(b: BrokerState, key: PositionKey, quantity: int, price: real, newKey: OrderId, generated: OrderId, bar: Bar)
    requires quantity != 0 && bar.instrument == key.1 && (b.lastSeen.Some? ==> b.lastSeen.value < bar.timestamp)
    ensures var reached := if quantity > 0 then bar.low <= price else bar.high >= price;
            Held(AfterBar(AfterSubmit(b, StopRequest(key, quantity, price, newKey), generated), bar).positions, key.1)
            == Held(AfterBar(b, bar).positions, key.1) - (if reached then quantity else 0)
  {
    var order := StopRequest(key, quantity, price, newKey);
    var p := PendingOrder(order, BrokerId(order, generated), b.lastSeen);
    var made := AfterBar(Waiting([p]), bar).fillQueue;
    StopFiresWhenReached(p, price, bar);
    if made != [] { NetCounts(made[0], key.1); } else { assert NetOfFills(made, key.1) == 0; }
    hide AfterBar, NetOfFills, BrokerId, Held;
    OneMoreOrder(b, p, bar, key.1);
    OnlyQueues(b, order, generated, bar, key.1);
  }
}
