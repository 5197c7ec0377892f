/**
 What the actions of a replay do to broker and order manager together: what is
 sent, what is exchanged, what is cancelled, and what everybody is told.
 */
module ReplayLaws {
  import opened Types
  import opened Sorting
  import opened OrderIndex
  import opened OrderEffects
  import opened OrderGuarantees
  import opened PaperBroker
  import opened BrokerLaws
  import opened Portfolio
  import opened Ownership
  import opened ReportLots
  import opened Replay
  import opened ReplayIds
  import opened Exits
  import opened Resting
  import S = Sizing
  import C = Costing

  // ---------------------------------------------------------------- closes

  /** A close is pending for its position and waits at the broker for all of it, and none of the position's stops does. */
  ghost predicate Closing(s: System, t: System, key: PositionKey, quantity: int, id: OrderId) {
    && key in t.index.pendingCloses && t.index.pendingCloses[key] == id
    && (exists p :: p in t.broker.pending && p.brokerId == id && p.order.orderType == Market && Flattens(p.order, key.1, quantity))
    && (forall p :: p in t.broker.pending ==> p.brokerId !in StopsOf(s.index, key))
    && StopsOf(t.index, key) == {}
  }

  /** A close request for an open position without a pending close is sent in full and takes the position's stops; any other does nothing. */
  lemma CloseIsSent(s: System, key: PositionKey, quantity: int, closeKey: OrderId, generated: OrderId)
    requires Indexed(s.index)
    requires BrokerId(CloseOrder(key, quantity, closeKey), generated) !in StopsOf(s.index, key)
    ensures var t := PlaceClose(s, key, quantity, closeKey, generated);
            if quantity == 0 || key in s.index.pendingCloses then t == s
            else Closing(s, t, key, quantity, BrokerId(CloseOrder(key, quantity, closeKey), generated))
  {
    if quantity != 0 && key !in s.index.pendingCloses {
      var id := BrokerId(CloseOrder(key, quantity, closeKey), generated);
      CloseTakesStops(s.index, key, closeKey, id);
      NoStopsLeft(s.index, key, closeKey, id);
      ClosedAtBroker(s.broker, key, quantity, closeKey, generated, StopsOf(s.index, key));
      hide RequestClose, Indexed, AfterSubmit, AfterCancel, BrokerId, Flattens, StopsOf, CloseOrder;
    }
  }

  lemma ClosedAtBroker(b: BrokerState, key: PositionKey, quantity: int, closeKey: OrderId, generated: OrderId, gone: set<OrderId>)
    requires quantity != 0 && BrokerId(CloseOrder(key, quantity, closeKey), generated) !in gone
    ensures var order := CloseOrder(key, quantity, closeKey);
            var id, t := BrokerId(order, generated), AfterCancel(AfterSubmit(b, order, generated), gone);
            && (exists p :: p in t.pending && p.brokerId == id && p.order.orderType == Market && Flattens(p.order, key.1, quantity))
            && (forall p :: p in t.pending ==> p.brokerId !in gone)
  {
    var order := CloseOrder(key, quantity, closeKey);
    var id, sent := BrokerId(order, generated), AfterSubmit(b, order, generated);
    SentKeeps(b, order, generated, id);
    CloseFlattens(key, quantity, closeKey);
    hide AfterSubmit, AfterCancel, BrokerId, Flattens, CloseOrder;
    CancelTakes(sent, gone, []);
    var p :| p in sent.pending && p.brokerId == id && p.order == order;
    assert p in AfterCancel(sent, gone).pending;
  }

  lemma NoStopsLeft(x: Index, key: PositionKey, closeKey: string, id: OrderId)
    requires Indexed(x) && key !in x.pendingCloses
    ensures StopsOf(RequestClose(x, key, closeKey, None, Taken(id), {}), key) == {}
  {
    SubmitCloseIs(x, key, closeKey, None, Taken(id), {});
    StopsAreIndexed(x);
    var z := Submit(x, Tag(key.0, Close, key.2, None), None, Taken(id));
    CancelledStops(AddClose(z, key, id), x, key, {});
    hide Submit, SubmitClose, CancelStops;
  }

  // ---------------------------------------------------------------- stops

  /** A stop is listed under its position and waits at the broker as listed. */
  ghost predicate Protected(t: System, key: PositionKey, id: OrderId, order: OrderRequest) {
    id in StopsOf(t.index, key) && id in t.index.stopRequests && t.index.stopRequests[id] == order && Waits(t.broker, id, order)
  }

  /** A stop asked for a position without one is sent, for all of it, at the price. */
  lemma StopIsSent(s: System, key: PositionKey, quantity: int, price: real, newKey: OrderId, generated: OrderId)
    requires Indexed(s.index) && key !in s.index.stopOrders
    ensures var t, order := PlaceStop(s, key, quantity, price, newKey, generated), ProtectiveOrder(key, quantity, price, newKey);
            if quantity == 0 || price <= 0.0 then t == s
            else exists id :: Protected(t, key, id, order)
  {
    if quantity != 0 && price > 0.0 {
      var order := StopRequest(key, quantity, price, newKey);
      assert order == ProtectiveOrder(key, quantity, price, newKey);
      var id := BrokerId(order, generated);
      IsRegistered(s.index);
      StopLeaves(s.index, key, order, None, Taken(id));
      SentKeeps(s.broker, order, generated, id);
      hide Indexed, Registered, SubmitStop, AfterSubmit, BrokerId, Waits;
      assert Protected(PlaceStop(s, key, quantity, price, newKey, generated), key, id, order);
    }
  }

  /**
   With stops listed, the first of them by id is exchanged, at the broker and in
   the list, for one of all of the position at the new price, if that is tighter
   and the stop still waits; otherwise nothing happens.
   */
  lemma StopIsTightened(s: System, key: PositionKey, quantity: int, price: real, newKey: OrderId, generated: OrderId, id: OrderId)
    requires Indexed(s.index) && id in StopsOf(s.index, key) && (forall j :: j in StopsOf(s.index, key) ==> StringLe(id, j))
    ensures id in s.index.stopRequests
    ensures var t, was := PlaceStop(s, key, quantity, price, newKey, generated), s.index.stopRequests[id];
            var order := ProtectiveOrder(key, quantity, price, was.idempotencyKey);
            if quantity == 0 || price <= 0.0
               || (was.stopPrice.Some? && if quantity > 0 then price <= was.stopPrice.value else price >= was.stopPrice.value)
               || (forall p :: p in s.broker.pending ==> p.brokerId != id)
            then t == s
            else t.index == s.index.(stopRequests := s.index.stopRequests[id := order]) && Waits(t.broker, id, order)
  {
    ActiveIsFirst(s.index, key, id);
    var order := StopRequest(key, quantity, price, s.index.stopRequests[id].idempotencyKey);
    hide Indexed, ActiveStop, StopsOf;
    ModifyTells(s.broker, id, order);
    Present(s.broker.pending, id);
    if AfterModify(s.broker, id, order).Some? {
      ModifyKeeps(s.broker, id, order, id);
    }
    hide AfterModify, Waits, IsFirst;
  }

  lemma Present(pending: seq<PendingOrder>, id: OrderId)
    ensures (forall k :: 0 <= k < |pending| ==> pending[k].brokerId != id) <==> forall p :: p in pending ==> p.brokerId != id
  {
  }

  // ---------------------------------------------------------------- what is cancelled

  /** At the end of a session the stops of session-only strategies no longer wait, and everything else does. */
  lemma SessionCancels(s: System, sessionOnly: set<StrategyId>, p: PendingOrder)
    requires Indexed(s.index)
    ensures var b := EndSession(s, sessionOnly).broker;
            && (p in b.pending <==>
                  && p in s.broker.pending
                  && !(p.brokerId in s.index.stopKeys && s.index.stopKeys[p.brokerId].0 in sessionOnly))
            && b == s.broker.(pending := b.pending)
  {
    var gone := SessionStops(s.index, sessionOnly);
    CancelTakes(s.broker, gone, []);
    assert forall id :: id in s.index.stopKeys ==> Holds(s.index, id, s.index.stopKeys[id], ProtectiveStop);
    hide AfterCancel, CancelSessionStops, StopsIndexed, ClosesIndexed;
  }

  /**
   Handling a fill takes it off the queue. A close's fill takes the position's
   stops off the broker's list, a stop's fill the position's pending close, and
   any other fill nothing.
   */
  lemma FillCancels(s: System, identity: Identity, p: PendingOrder)
    requires Registered(s.index) && s.broker.fillQueue != []
    ensures var fill, b := s.broker.fillQueue[0], Drain(s, identity, None).broker;
            var id := fill.orderId;
            && b == s.broker.(pending := b.pending, fillQueue := s.broker.fillQueue[1..])
            && (p in b.pending <==>
                  && p in s.broker.pending
                  && !(id in s.index.role && s.index.role[id] == Close && p.brokerId in StopsOf(s.index, PositionOf(s.index, fill)))
                  && !(id in s.index.role && s.index.role[id] == ProtectiveStop
                       && PositionOf(s.index, fill) in s.index.pendingCloses
                       && p.brokerId == s.index.pendingCloses[PositionOf(s.index, fill)]))
  {
    var fill := s.broker.fillQueue[0];
    DrainedBroker(s, identity, None);
    var gone := CancelledBy(s.index, fill);
    CancelTakes(s.broker.(fillQueue := s.broker.fillQueue[1..]), gone, []);
    assert fill.orderId in s.index.role ==> fill.orderId in s.index.owner && fill.orderId in s.index.tradeId;
    hide Drain, AfterCancel, StopsOf, Registered;
  }

  // ---------------------------------------------------------------- who is told what

  /** A bar reaches the sizing account and the broker. */
  lemma BarIsTold(s: System, bar: Bar)
    ensures var t := BarArrives(s, bar);
            && t.broker == AfterBar(s.broker, bar)
            && bar.instrument in t.sizing.prices && t.sizing.prices[bar.instrument] == bar.close
            && (forall i :: i != bar.instrument ==>
                  (i in t.sizing.prices <==> i in s.sizing.prices) && (i in s.sizing.prices ==> t.sizing.prices[i] == s.sizing.prices[i]))
            && t == s.(broker := t.broker, sizing := s.sizing.(prices := t.sizing.prices))
  {
    hide AfterBar;
  }

  /** A fill reaches the books with the owner and trade id its order was registered under, and the accounts with its place in the stream. */
  lemma FillIsTold(s: System, identity: Identity, plan: Option<StopPlan>)
    requires s.broker.fillQueue != []
    ensures var fill, t := s.broker.fillQueue[0], Drain(s, identity, plan);
            var owner := if fill.orderId in s.index.owner then Some(s.index.owner[fill.orderId]) else None;
            var tradeId := if fill.orderId in s.index.tradeId then s.index.tradeId[fill.orderId] else None;
            && t.drained == s.drained + [OwnedFill(fill, owner, tradeId)]
            && t.books == AfterFill(s.books, OwnedFill(fill, owner, tradeId))
            && t.sizing == S.SizeFill(s.sizing, FillEvent(
                 |s.drained|, fill.timestamp, if owner.Some? then owner.value else "<unknown>", "", tradeId,
                 fill.instrument, fill.side, fill.quantity, fill.price))
            && t.broker.positions == s.broker.positions
  {
    DrainHoldings(s, identity, plan);
    hide Drain, AfterFill, AfterLedgerFill, S.SizeFill;
  }

  /** To the accounts a fill is an event of its owner and trade, at its own time and with its place in the stream. */
  lemma EventTells(f: OwnedFill, sequence: nat)
    ensures EventOf(f, sequence)
         == FillEvent(sequence, f.fill.timestamp, if f.strategyId.Some? then f.strategyId.value else "<unknown>", "", f.tradeId,
                      f.fill.instrument, f.fill.side, f.fill.quantity, f.fill.price)
  {
  }

  /** And the portfolio gets back from the event what it was given: the comparison of the two costings is of the same fills. */
  lemma EventComesBack(f: OwnedFill, sequence: nat)
    requires f.strategyId.Some?
    ensures C.OwnedOf(EventOf(f, sequence)) == f.(fill := f.fill.(orderId := ""))
  {
  }
}
