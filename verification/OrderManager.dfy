/**
 The order manager itself. Each call to the broker is an argument telling how
 the broker answers; every method is one atomic step, as it is when orders
 are drained inline.
 */
module OrderManagement {
  import opened Types
  import opened Sorting
  import opened OrderIndex

  datatype Outcome = Dropped | Failed | Done(status: OrderStatus)

  class OrderManager {
    var orderOwner: map<OrderId, StrategyId>
    var orderRole: map<OrderId, Role>
    var orderTradeId: map<OrderId, Option<TradeId>>
    var orderProtectiveStopPct: map<OrderId, Option<real>>
    var pendingCloses: map<PositionKey, OrderId>
    var closeKeysByOrderId: map<OrderId, PositionKey>
    var protectiveStopOrders: map<PositionKey, set<OrderId>>
    var protectiveStopKeysByOrderId: map<OrderId, PositionKey>
    var protectiveStopRequests: map<OrderId, OrderRequest>

    constructor ()
      ensures State() == EmptyIndex
    {
      orderOwner, orderRole, orderTradeId, orderProtectiveStopPct := map[], map[], map[], map[];
      pendingCloses, closeKeysByOrderId := map[], map[];
      protectiveStopOrders, protectiveStopKeysByOrderId, protectiveStopRequests := map[], map[], map[];
    }

    function State(): Index
      reads this
    {
      Index(orderOwner, orderRole, orderTradeId, orderProtectiveStopPct, pendingCloses, closeKeysByOrderId,
            protectiveStopOrders, protectiveStopKeysByOrderId, protectiveStopRequests)
    }

    ghost predicate Valid()
      reads this
    {
      Indexed(State())
    }

    // ------------------------------------------------------------ tracking

    method RegisterOrder(id: OrderId, tag: Tag)
      modifies this
      ensures State() == Register(old(State()), id, tag)
    {
      orderOwner := orderOwner[id := tag.strategyId];
      orderRole := orderRole[id := tag.role];
      orderTradeId := orderTradeId[id := tag.tradeId];
      if tag.stopPct.Some? || tag.role.Entry? {
        orderProtectiveStopPct := orderProtectiveStopPct[id := tag.stopPct];
      }
    }

    method ClearOrderTracking(id: OrderId)
      modifies this
      ensures State() == ClearTracking(old(State()), id)
    {
      orderOwner := orderOwner - {id};
      orderRole := orderRole - {id};
      orderTradeId := orderTradeId - {id};
      orderProtectiveStopPct := orderProtectiveStopPct - {id};
    }

    method MoveOrderTracking(src: OrderId, dst: OrderId)
      modifies this
      ensures State() == MoveTracking(old(State()), src, dst)
    {
      if src == dst {
        return;
      }
      var pct := if src in orderProtectiveStopPct then orderProtectiveStopPct[src] else None;
      var wasEntry := src in orderRole && orderRole[src].Entry?;
      if src in orderOwner {
        var owner := orderOwner[src];
        orderOwner := (orderOwner - {src})[dst := owner];
      }
      if src in orderRole {
        var role := orderRole[src];
        orderRole := (orderRole - {src})[dst := role];
      }
      var tradeId := if src in orderTradeId then orderTradeId[src] else None;
      orderTradeId := (orderTradeId - {src})[dst := tradeId];
      orderProtectiveStopPct := orderProtectiveStopPct - {src};
      if pct.Some? || wasEntry {
        orderProtectiveStopPct := orderProtectiveStopPct[dst := pct];
      }
    }

    method CompleteOrderRegistration(reserved: Option<OrderId>, id: OrderId, tag: Tag)
      modifies this
      ensures State() == CompleteRegistration(old(State()), reserved, id, tag)
    {
      hide MoveTracking, Register;
      if reserved.Some? {
        MoveOrderTracking(reserved.value, id);
      }
      if reserved.None? || id !in orderOwner {
        RegisterOrder(id, tag);
      }
    }

    // ------------------------------------------------------------ clearing closes and stops

    method ClearPendingCloseOf(id: OrderId)
      modifies this
      ensures State() == ClearPendingClose(old(State()), id)
    {
      if id in closeKeysByOrderId {
        var key := closeKeysByOrderId[id];
        closeKeysByOrderId := closeKeysByOrderId - {id};
        if key in pendingCloses && pendingCloses[key] == id {
          pendingCloses := pendingCloses - {key};
        }
      }
    }

    method ClearProtectiveStop(id: OrderId)
      modifies this
      ensures State() == ClearStop(old(State()), id)
    {
      protectiveStopRequests := protectiveStopRequests - {id};
      if id !in protectiveStopKeysByOrderId {
        return;
      }
      var key := protectiveStopKeysByOrderId[id];
      protectiveStopKeysByOrderId := protectiveStopKeysByOrderId - {id};
      if key !in protectiveStopOrders {
        return;
      }
      var left := protectiveStopOrders[key] - {id};
      protectiveStopOrders := if left == {} then protectiveStopOrders - {key} else protectiveStopOrders[key := left];
    }

    method TrackProtectiveStopOrder(status: OrderStatus, key: PositionKey, order: OrderRequest)
      modifies this
      ensures State() == TrackStop(old(State()), status, key, order)
    {
      var id := status.orderId;
      orderOwner := orderOwner[id := key.0];
      orderRole := orderRole[id := ProtectiveStop];
      orderTradeId := orderTradeId[id := key.2];
      if !Unaccepted(status) && !status.status.Filled? {
        var ids := if key in protectiveStopOrders then protectiveStopOrders[key] else {};
        protectiveStopOrders := protectiveStopOrders[key := ids + {id}];
        protectiveStopKeysByOrderId := protectiveStopKeysByOrderId[id := key];
        protectiveStopRequests := protectiveStopRequests[id := order];
      }
    }

    /** Asks the broker to cancel the listed stops in sorted order and forgets those it could. */
    method CancelEach(ids: set<OrderId>, failing: set<OrderId>)
      modifies this
      ensures State() == ClearEach(old(State()), ids, failing)
    {
      hide ClearStop;
      var rest := ids;
      while rest != {}
        invariant ClearEach(State(), rest, failing) == ClearEach(old(State()), ids, failing)
        decreases |rest|
      {
        var id := Lowest(rest);
        if id !in failing {
          ClearProtectiveStop(id);
        }
        rest := rest - {id};
      }
    }

    method CancelProtectiveStopsForPosition(key: PositionKey, failing: set<OrderId>)
      modifies this
      ensures State() == CancelStops(old(State()), key, failing)
    {
      CancelEach(if key in protectiveStopOrders then protectiveStopOrders[key] else {}, failing);
    }

    method CancelPendingCloseForPosition(key: PositionKey, failing: set<OrderId>)
      modifies this
      ensures State() == CancelClose(old(State()), key, failing)
    {
      if key !in pendingCloses || pendingCloses[key] in failing {
        return;
      }
      ClearPendingCloseOf(pendingCloses[key]);
    }

    /** Regular-session stops are cancelled when the session ends. */
    method CancelSessionProtectiveStops(sessionOnly: set<StrategyId>, failing: set<OrderId>)
      modifies this
      ensures State() == CancelSessionStops(old(State()), sessionOnly, failing)
      ensures old(Valid()) ==> Valid()
    {
      ghost var x := State();
      var ids := set id | id in protectiveStopKeysByOrderId && id in orderOwner && orderOwner[id] in sessionOnly;
      CancelEach(ids, failing);
      if Indexed(x) {
        StepKeeps(x, SessionEnded(sessionOnly, failing));
      }
    }

    // ------------------------------------------------------------ submitting

    /** The tail of signal and intent processing: everything after an order has passed its checks. */
    method SubmitOrder(tag: Tag, reserved: Option<OrderId>, answer: Answer) returns (outcome: Outcome)
      modifies this
      ensures State() == Submit(old(State()), tag, reserved, answer)
      ensures outcome == if answer.Raised? then Failed else Done(answer.status)
      ensures old(Valid()) && AllIdle(old(State()), reserved, answer) ==> Valid()
    {
      hide Register, ClearTracking, CompleteRegistration, Indexed;
      ghost var x := State();
      if Indexed(x) && AllIdle(x, reserved, answer) {
        SubmitKeeps(x, tag, reserved, answer);
      }
      if reserved.Some? {
        RegisterOrder(reserved.value, tag);
      }
      if answer.Raised? {
        if reserved.Some? {
          ClearOrderTracking(reserved.value);
        }
        return Failed;
      }
      CompleteOrderRegistration(reserved, answer.status.orderId, tag);
      if Unaccepted(answer.status) {
        ClearOrderTracking(answer.status.orderId);
      }
      outcome := Done(answer.status);
    }

    /** Closes a position at market unless it is flat, already being closed, or not permitted. */
    method RequestPositionClose(strategyId: StrategyId, position: Position, closeKey: string, permitted: bool,
                                reserved: Option<OrderId>, answer: Answer, failing: set<OrderId>) returns (outcome: Outcome)
      modifies this
      ensures var key := (strategyId, position.instrument, position.tradeId);
              State() == if position.quantity == 0 || !permitted then old(State())
                         else RequestClose(old(State()), key, closeKey, reserved, answer, failing)
      ensures outcome.Dropped? <==>
                position.quantity == 0 || !permitted || (strategyId, position.instrument, position.tradeId) in old(pendingCloses)
      ensures old(Valid()) && AllIdle(old(State()), reserved, answer) ==> Valid()
    {
      hide Register, ClearTracking, CompleteRegistration, Indexed, ClearEach, Submit;
      var key := (strategyId, position.instrument, position.tradeId);
      ghost var x := State();
      if Indexed(x) && AllIdle(x, reserved, answer) {
        RequestCloseKeeps(x, key, closeKey, reserved, answer, failing);
      }
      if position.quantity == 0 || key in pendingCloses || !permitted {
        return Dropped;
      }
      outcome := CloseReserved(key, closeKey, reserved, answer, failing);
    }

    method CloseReserved(key: PositionKey, closeKey: string, reserved: Option<OrderId>, answer: Answer, failing: set<OrderId>)
      returns (outcome: Outcome)
      requires key !in pendingCloses
      modifies this
      ensures State() == SubmitClose(old(State()), key, closeKey, reserved, answer, failing)
      ensures !outcome.Dropped?
    {
      hide Indexed, ClearEach, Submit;
      var submitting := if reserved.Some? then reserved.value else "submitting:" + closeKey;
      pendingCloses := pendingCloses[key := submitting];
      outcome := SubmitOrder(Tag(key.0, Close, key.2, None), reserved, answer);
      if answer.Raised? || Unaccepted(answer.status) {
        if key in pendingCloses && pendingCloses[key] == submitting {
          pendingCloses := pendingCloses - {key};
        }
      } else {
        pendingCloses := pendingCloses[key := answer.status.orderId];
        closeKeysByOrderId := closeKeysByOrderId[answer.status.orderId := key];
        CancelProtectiveStopsForPosition(key, failing);
      }
    }

    method SubmitStopOrder(key: PositionKey, order: OrderRequest, reserved: Option<OrderId>, answer: Answer)
      modifies this
      ensures State() == SubmitStop(old(State()), key, order, reserved, answer)
    {
      hide Register, ClearTracking, CompleteRegistration, TrackStop;
      var tag := Tag(key.0, ProtectiveStop, key.2, None);
      if reserved.Some? {
        RegisterOrder(reserved.value, tag);
      }
      if answer.Raised? {
        if reserved.Some? {
          ClearOrderTracking(reserved.value);
        }
        return;
      }
      CompleteOrderRegistration(reserved, answer.status.orderId, tag);
      TrackProtectiveStopOrder(answer.status, key, order);
      if Unaccepted(answer.status) {
        ClearOrderTracking(answer.status.orderId);
      }
    }

    /** Submits a stop for an open lot, or tightens the one it has. `permitted` stands for the declared, live, validated case. */
    method EnsureProtectiveStop(strategyId: StrategyId, position: Position, price: real, permitted: bool, u: StopUpdate)
      modifies this
      ensures var key := (strategyId, position.instrument, position.tradeId);
              State() == if !permitted || position.quantity == 0 || price <= 0.0 then old(State())
                         else EnsureStop(old(State()), key, position.quantity, price, u)
      ensures old(Valid()) && AllIdle(old(State()), u.reserved, u.submitted) ==> Valid()
    {
      hide SubmitStop, ClearStop, Indexed;
      var key := (strategyId, position.instrument, position.tradeId);
      ghost var x := State();
      if Indexed(x) && AllIdle(x, u.reserved, u.submitted) {
        EnsureStopKeeps(x, key, position.quantity, price, u);
      }
      if !permitted || position.quantity == 0 || price <= 0.0 {
        return;
      }
      var active := ActiveStop(State(), key);
      if active.None? {
        SubmitStopOrder(key, StopRequest(key, position.quantity, price, u.newKey), u.reserved, u.submitted);
        return;
      }
      var current := protectiveStopRequests[active.value];
      if current.stopPrice.Some? && !Improves(ExitSide(position.quantity), price, current.stopPrice.value) {
        return;
      }
      if u.modified.Raised? {
        return;
      }
      if Unaccepted(u.modified.status) {
        ClearProtectiveStop(active.value);
      } else {
        protectiveStopRequests := protectiveStopRequests[
          active.value := StopRequest(key, position.quantity, price, current.idempotencyKey)];
      }
    }

    // ------------------------------------------------------------ fills and updates

    /** The index part of handling a fill; `stop` is the protective stop an entry fill asks for. */
    method HandleFillOf(fill: Fill, failing: set<OrderId>, stop: Option<StopAttempt>)
      modifies this
      ensures State() == HandleFill(old(State()), fill, failing, stop)
      ensures old(Valid()) && (stop.Some? ==> AllIdle(old(State()), stop.value.reserved, stop.value.answer)) ==> Valid()
    {
      hide ClearPendingClose, ClearStop, SubmitStop, CancelStops, CancelClose, Indexed;
      ghost var x := State();
      if Indexed(x) && (stop.Some? ==> AllIdle(x, stop.value.reserved, stop.value.answer)) {
        HandleFillKeeps(x, fill, failing, stop);
      }
      var id := fill.orderId;
      if id !in orderRole {
        return;
      }
      OwnersKept(x, id);
      var tradeId := if id in orderTradeId then orderTradeId[id] else None;
      match orderRole[id] {
        case Close =>
          ClearPendingCloseOf(id);
          if id in orderOwner {
            CancelProtectiveStopsForPosition((orderOwner[id], fill.instrument, tradeId), failing);
          }
        case ProtectiveStop =>
          ClearProtectiveStop(id);
          if id in orderOwner {
            CancelPendingCloseForPosition((orderOwner[id], fill.instrument, tradeId), failing);
          }
        case Entry =>
          if id in orderOwner && stop.Some? {
            SubmitStopOrder((orderOwner[id], fill.instrument, tradeId), stop.value.order, stop.value.reserved, stop.value.answer);
          }
        case OtherRole(_) =>
      }
    }

    method HandleOrderUpdate(status: OrderStatus)
      modifies this
      ensures State() == HandleUpdate(old(State()), status)
      ensures old(Valid()) ==> Valid()
    {
      hide ClearPendingClose, ClearStop, ClearTracking, Indexed;
      ghost var x := State();
      if Indexed(x) {
        HandleUpdateKeeps(x, status);
      }
      var id := status.orderId;
      if Unaccepted(status) {
        if id in orderRole && orderRole[id].Close? {
          ClearPendingCloseOf(id);
        } else if id in orderRole && orderRole[id].ProtectiveStop? {
          ClearProtectiveStop(id);
        }
        ClearOrderTracking(id);
      }
    }

    /** Every id the reconciliation check should recognise. */
    method TrackedIds() returns (ids: set<OrderId>)
      ensures ids == TrackedOpenOrderIds(State())
      ensures Valid() ==> ids == orderOwner.Keys
    {
      ids := orderOwner.Keys + pendingCloses.Values + protectiveStopKeysByOrderId.Keys;
      if Indexed(State()) {
        TrackedAreOwned(State());
      }
    }
  }

  lemma OwnersKept(x: Index, id: OrderId)
    ensures ClearPendingClose(x, id).owner == x.owner && ClearPendingClose(x, id).tradeId == x.tradeId
    ensures ClearStop(x, id).owner == x.owner && ClearStop(x, id).tradeId == x.tradeId
  {
  }

  lemma TrackedAreOwned(x: Index)
    requires Indexed(x)
    ensures TrackedOpenOrderIds(x) == x.owner.Keys
  {
    forall id | id in x.pendingCloses.Values ensures id in x.owner {
      var k :| k in x.pendingCloses && x.pendingCloses[k] == id;
    }
  }
}
