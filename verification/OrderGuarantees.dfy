/** What the order manager's index is for: closes and stops disarm each other, and stops only tighten. */
module OrderGuarantees {
  import opened Types
  import opened OrderIndex
  import opened Sorting

  // ---------------------------------------------------------------- disarming

  /**
   A close fill that carries its order's instrument leaves its position with no
   stop but those whose cancel failed, and touches no other position.
   */
  lemma CloseFillDisarms(x: Index, fill: Fill, key: PositionKey, failing: set<OrderId>, stop: Option<StopAttempt>)
    requires Indexed(x) && Holds(x, fill.orderId, key, Close) && fill.instrument == key.1
    ensures var y := HandleFill(x, fill, failing, stop);
            && StopsOf(y, key) == StopsOf(x, key) * failing
            && (forall k :: k != key ==> StopsOf(y, k) == StopsOf(x, k))
            && fill.orderId !in y.closeKeys
            && (forall k :: k in y.pendingCloses <==> k in x.pendingCloses && x.pendingCloses[k] != fill.orderId)
  {
    hide StopsIndexed, ClosesIndexed, Owned, Registered, WithoutStops, ClearPendingClose, ClearEach;
    ClearPendingCloseKeeps(x, fill.orderId);
    var z := ClearPendingClose(x, fill.orderId);
    OnlyCloses(x, fill.orderId);
    WithoutStopsKeeps(z, StopsOf(z, key) - failing);
    CancelTouchesOne(z, key, failing);
  }

  lemma OnlyCloses(x: Index, id: OrderId)
    ensures var y := ClearPendingClose(x, id);
            y.stopOrders == x.stopOrders && y.stopKeys == x.stopKeys && y.stopRequests == x.stopRequests
            && y.owner == x.owner && y.role == x.role && y.tradeId == x.tradeId
  {
  }

  lemma CancelTouchesOne(x: Index, key: PositionKey, failing: set<OrderId>)
    requires Indexed(x)
    ensures StopsOf(CancelStops(x, key, failing), key) == StopsOf(x, key) * failing
    ensures forall k :: k != key ==> StopsOf(CancelStops(x, key, failing), k) == StopsOf(x, k)
    ensures CancelStops(x, key, failing).pendingCloses == x.pendingCloses
    ensures CancelStops(x, key, failing).closeKeys == x.closeKeys
  {
    hide ClosesIndexed, Owned, Registered;
    var ids := StopsOf(x, key) - failing;
    WithoutStopsKeeps(x, ids);
    ClearEachIs(x, StopsOf(x, key), failing);
    forall k | k != key ensures StopsOf(x, k) - ids == StopsOf(x, k) {
      assert forall id :: id in StopsOf(x, k) ==> id in x.stopKeys && x.stopKeys[id] == k;
      assert forall id :: id in StopsOf(x, key) ==> x.stopKeys[id] == key;
    }
  }

  /**
   A protective-stop fill leaves its position without a pending close, unless
   cancelling that close failed; every other pending close stays.
   */
  lemma StopFillDisarms(x: Index, fill: Fill, key: PositionKey, failing: set<OrderId>, stop: Option<StopAttempt>)
    requires Indexed(x) && Holds(x, fill.orderId, key, ProtectiveStop) && fill.instrument == key.1
    ensures var y := HandleFill(x, fill, failing, stop);
            && fill.orderId !in y.stopKeys
            && (key in y.pendingCloses <==> key in x.pendingCloses && x.pendingCloses[key] in failing)
            && (forall k :: k != key ==> (k in y.pendingCloses <==> k in x.pendingCloses))
  {
    hide StopsIndexed, Registered, WithoutStops, ClearPendingClose, ClearStop;
    ClearStopIsWithout(x, fill.orderId);
    WithoutStopsKeeps(x, {fill.orderId});
    var z := ClearStop(x, fill.orderId);
    OnlyStops(x, {fill.orderId});
    if key in z.pendingCloses {
      ClearPendingCloseKeeps(z, z.pendingCloses[key]);
      OnlyCloses(z, z.pendingCloses[key]);
    }
  }

  lemma OnlyStops(x: Index, ids: set<OrderId>)
    ensures var y := WithoutStops(x, ids);
            && y.pendingCloses == x.pendingCloses && y.closeKeys == x.closeKeys
            && y.owner == x.owner && y.role == x.role && y.tradeId == x.tradeId
            && y.stopKeys == x.stopKeys - ids
  {
  }

  // ---------------------------------------------------------------- tightening

  /**
   Updating a position's stop exchanges at most that position's active stop,
   for one of the position's size that protects more; every other stop request
   stays as it was. The new request is strictly tighter than the old one.
   */
  lemma StopsOnlyTighten(x: Index, key: PositionKey, quantity: int, price: real, u: StopUpdate, id: OrderId)
    requires Indexed(x) && AllIdle(x, u.reserved, u.submitted)
    requires id in x.stopRequests
    ensures var y := EnsureStop(x, key, quantity, price, u);
            id in y.stopRequests && y.stopRequests[id] != x.stopRequests[id] ==>
              && x.stopKeys[id] == key
              && y.stopRequests[id].stopPrice == Some(price)
              && y.stopRequests[id].quantity == Abs(quantity)
              && (x.stopRequests[id].stopPrice.Some? ==>
                    if quantity > 0 then price > x.stopRequests[id].stopPrice.value
                    else price < x.stopRequests[id].stopPrice.value)
    ensures var y := EnsureStop(x, key, quantity, price, u);
            id !in y.stopRequests ==>
              x.stopKeys[id] == key && u.modified.Answered? && Unaccepted(u.modified.status)
  {
    hide ClosesIndexed, Owned, Registered, SubmitStop, ClearStop;
    var active := ActiveStop(x, key);
    if active.None? {
      NewStopChangesNone(x, key, StopRequest(key, quantity, price, u.newKey), u.reserved, u.submitted, id);
    } else {
      ClearStopIsWithout(x, active.value);
      assert active.value in StopsOf(x, key);
    }
  }

  /** The stop order of a position: it sells what is held long and buys what is held short, at the price. */
  function ProtectiveOrder(key: PositionKey, quantity: int, price: real, idempotencyKey: OrderId): OrderRequest {
    OrderRequest(key.1, if quantity > 0 then Short else Long, if quantity > 0 then quantity else -quantity,
                 Stop, None, Some(price), key.0, idempotencyKey, None)
  }

  /** Filled in full it brings the position to zero. */
  lemma ProtectiveOrderFlattens(key: PositionKey, quantity: int, price: real, idempotencyKey: OrderId)
    ensures var order := ProtectiveOrder(key, quantity, price, idempotencyKey);
            quantity + SignedQuantity(order.side, order.quantity) == 0 && order.quantity >= 0
  {
  }

  /** A position without a stop has one submitted, for its whole size, against it. */
  lemma FirstStop(x: Index, key: PositionKey, quantity: int, price: real, u: StopUpdate)
    requires Indexed(x) && key !in x.stopOrders
    ensures EnsureStop(x, key, quantity, price, u)
         == SubmitStop(x, key, ProtectiveOrder(key, quantity, price, u.newKey), u.reserved, u.submitted)
  {
    hide SubmitStop;
  }

  /**
   With stops listed, the first of them by id is looked at. A price that does
   not rise, for a long position, or does not fall, for a short one, changes
   nothing; otherwise an accepted modify replaces that stop's order and nothing
   else, one turned down takes the stop away, and an exception changes nothing.
   */
  lemma StopUpdateLeaves(x: Index, key: PositionKey, quantity: int, price: real, u: StopUpdate, id: OrderId)
    requires Indexed(x) && id in StopsOf(x, key) && (forall j :: j in StopsOf(x, key) ==> StringLe(id, j))
    ensures id in x.stopRequests
    ensures var y, was := EnsureStop(x, key, quantity, price, u), x.stopRequests[id];
            if was.stopPrice.Some? && (if quantity > 0 then price <= was.stopPrice.value else price >= was.stopPrice.value) then y == x
            else match u.modified
                 case Raised => y == x
                 case Answered(status) =>
                   if status.status == Cancelled || status.status == Rejected then
                     && y.stopKeys == x.stopKeys - {id} && y.stopRequests == x.stopRequests - {id}
                     && (forall k :: StopsOf(y, k) == StopsOf(x, k) - {id})
                     && y.pendingCloses == x.pendingCloses && y.owner == x.owner && y.role == x.role && y.tradeId == x.tradeId
                   else
                     y == x.(stopRequests := x.stopRequests[id := ProtectiveOrder(key, quantity, price, was.idempotencyKey)])
  {
    ActiveIsFirst(x, key, id);
    ClearStopIsWithout(x, id);
    StopsLess(x, id);
    hide StopsIndexed, ClosesIndexed, Owned, Registered, ActiveStop, ClearStop, SubmitStop;
  }

  lemma StopsLess(x: Index, id: OrderId)
    ensures forall k :: StopsOf(WithoutStops(x, {id}), k) == StopsOf(x, k) - {id}
  {
  }

  lemma ActiveIsFirst(x: Index, key: PositionKey, id: OrderId)
    requires Indexed(x) && id in StopsOf(x, key) && (forall j :: j in StopsOf(x, key) ==> StringLe(id, j))
    ensures id in x.stopRequests && ActiveStop(x, key) == Some(id)
  {
    assert forall j :: j in StopsOf(x, key) ==> j in x.stopKeys && j in x.stopRequests;
    var known := StopsOf(x, key) * x.stopRequests.Keys;
    assert known == StopsOf(x, key);
    LowestUnique(known, id, Lowest(known));
  }

  lemma NewStopChangesNone(x: Index, key: PositionKey, order: OrderRequest, reserved: Option<OrderId>, answer: Answer, id: OrderId)
    requires Indexed(x) && AllIdle(x, reserved, answer) && id in x.stopRequests
    ensures var y := SubmitStop(x, key, order, reserved, answer);
            id in y.stopRequests && y.stopRequests[id] == x.stopRequests[id]
  {
    assert id in x.stopKeys;
    hide Indexed, CompleteRegistration, Register, ClearTracking, StopsOf;
    if answer.Answered? {
      var tag := Tag(key.0, ProtectiveStop, key.2, None);
      var w := if reserved.Some? then Register(x, reserved.value, tag) else x;
      var z := CompleteRegistration(w, reserved, answer.status.orderId, tag);
      assert z.stopRequests == x.stopRequests;
      assert TrackStop(z, answer.status, key, order).stopRequests
          in {x.stopRequests, x.stopRequests[answer.status.orderId := order]};
    }
  }
}
