/**
 What each operation of the order manager leaves behind, id by id and position
 by position: who owns an order, which close is pending, which stops are listed
 and at what price, and that nothing else moves.
 */
module OrderEffects {
  import opened Types
  import opened OrderIndex
  import opened OrderReuse

  predicate TurnedDown(status: OrderStatus) { status.status == Cancelled || status.status == Rejected }

  /** Registered for a strategy, a role and a trade. */
  predicate Knows(y: Index, id: OrderId, s: StrategyId, role: Role, t: Option<TradeId>) {
    && id in y.owner && y.owner[id] == s
    && id in y.role && y.role[id] == role
    && id in y.tradeId && y.tradeId[id] == t
  }

  predicate Unknown(y: Index, id: OrderId) {
    id !in y.owner && id !in y.role && id !in y.tradeId && id !in y.stopPct
  }

  /** What is registered under an id is the same. */
  predicate SameTag(x: Index, y: Index, id: OrderId) {
    && (id in y.owner <==> id in x.owner) && (id in y.owner ==> y.owner[id] == x.owner[id])
    && (id in y.role <==> id in x.role) && (id in y.role ==> y.role[id] == x.role[id])
    && (id in y.tradeId <==> id in x.tradeId) && (id in y.tradeId ==> y.tradeId[id] == x.tradeId[id])
  }

  predicate SamePct(x: Index, y: Index, id: OrderId) {
    (id in y.stopPct <==> id in x.stopPct) && (id in y.stopPct ==> y.stopPct[id] == x.stopPct[id])
  }

  predicate SameCloses(x: Index, y: Index) { y.pendingCloses == x.pendingCloses && y.closeKeys == x.closeKeys }

  predicate SameStops(x: Index, y: Index) {
    y.stopOrders == x.stopOrders && y.stopKeys == x.stopKeys && y.stopRequests == x.stopRequests
  }

  /** Some stops are no longer listed; the others are, with the orders they had. */
  predicate StopsTaken(x: Index, y: Index, ids: set<OrderId>) {
    y.stopKeys == x.stopKeys - ids && y.stopRequests == x.stopRequests - ids
  }

  predicate SameTags(x: Index, y: Index) {
    y.owner == x.owner && y.role == x.role && y.tradeId == x.tradeId && y.stopPct == x.stopPct
  }

  // ---------------------------------------------------------------- submissions

  /**
   An order that is taken is known under the id it was answered with, and the
   reserved id is forgotten if it is another; one that is turned down is
   forgotten under both; after an exception the reserved id is.
   */
  lemma SubmissionLeaves(x: Index, tag: Tag, reserved: Option<OrderId>, answer: Answer)
    requires Registered(x)
    ensures var y := Submit(x, tag, reserved, answer);
            && SameCloses(x, y) && SameStops(x, y)
            && (answer.Answered? && !TurnedDown(answer.status) ==>
                  Knows(y, answer.status.orderId, tag.strategyId, tag.role, tag.tradeId))
            && (answer.Answered? && TurnedDown(answer.status) ==> Unknown(y, answer.status.orderId))
            && (reserved.Some? && (answer.Raised? || answer.status.orderId != reserved.value) ==> Unknown(y, reserved.value))
            && (forall id :: Some(id) != reserved && (answer.Answered? ==> id != answer.status.orderId) ==> SameTag(x, y, id))
  {
    SubmitIs(x, tag, reserved, answer);
    var y := Submit(x, tag, reserved, answer);
    hide Submit;
    assert Registered(y);
  }

  /** An entry's stop distance goes with it to the id it ends up under; no other id's changes. */
  lemma SubmissionKeepsPct(x: Index, tag: Tag, reserved: Option<OrderId>, status: OrderStatus)
    requires Registered(x) && !TurnedDown(status) && tag.role == Entry
    ensures var y := Submit(x, tag, reserved, Answered(status));
            && status.orderId in y.stopPct && y.stopPct[status.orderId] == tag.stopPct
            && (forall id :: Some(id) != reserved && id != status.orderId ==> SamePct(x, y, id))
  {
    hide MoveTracking, Registered;
    StaysPut(if reserved.Some? then Register(x, reserved.value, tag) else x, status.orderId);
    if reserved.Some? && reserved.value != status.orderId {
      MovedPct(x, reserved.value, status.orderId, tag);
      hide Register;
    }
  }

  lemma StaysPut(x: Index, id: OrderId)
    ensures MoveTracking(x, id, id) == x
  {
  }

  lemma MovedPct(x: Index, r: OrderId, id: OrderId, tag: Tag)
    requires Registered(x) && r != id && tag.role == Entry
    ensures var y := MoveTracking(Register(x, r, tag), r, id);
            y.stopPct == (x.stopPct - {r})[id := tag.stopPct] && id in y.owner
  {
    MovedTag(x, r, id, tag);
    hide MoveTracking;
    assert x.stopPct[r := tag.stopPct] - {r} == x.stopPct - {r};
  }

  /** A stop that comes to rest is listed under its position with its order; none else moves. */
  lemma StopLeaves(x: Index, key: PositionKey, order: OrderRequest, reserved: Option<OrderId>, answer: Answer)
    requires Registered(x)
    ensures var y := SubmitStop(x, key, order, reserved, answer);
            && SameCloses(x, y)
            && (if answer.Answered? && !TurnedDown(answer.status) && answer.status.status != Filled then
                  var id := answer.status.orderId;
                  && (forall k :: StopsOf(y, k) == if k == key then StopsOf(x, k) + {id} else StopsOf(x, k))
                  && (forall j :: j in y.stopKeys <==> j == id || j in x.stopKeys)
                  && (forall j :: j in y.stopKeys ==> y.stopKeys[j] == if j == id then key else x.stopKeys[j])
                  && (forall j :: j in y.stopRequests <==> j == id || j in x.stopRequests)
                  && (forall j :: j in y.stopRequests ==> y.stopRequests[j] == if j == id then order else x.stopRequests[j])
                else SameStops(x, y))
  {
    SubmitStopIs(x, key, order, reserved, answer);
    var z := Submit(x, StopTag(key), reserved, answer);
    hide Submit, SubmitStop;
    assert SameLists(x, z);
  }

  /** Its registration is that of any submission. */
  lemma StopIsKnown(x: Index, key: PositionKey, order: OrderRequest, reserved: Option<OrderId>, answer: Answer)
    requires Registered(x)
    ensures var y := SubmitStop(x, key, order, reserved, answer);
            && (answer.Answered? && !TurnedDown(answer.status) ==> Knows(y, answer.status.orderId, key.0, ProtectiveStop, key.2))
            && (answer.Answered? && TurnedDown(answer.status) ==> Unknown(y, answer.status.orderId))
            && (reserved.Some? && (answer.Raised? || answer.status.orderId != reserved.value) ==> Unknown(y, reserved.value))
            && (forall id :: Some(id) != reserved && (answer.Answered? ==> id != answer.status.orderId) ==> SameTag(x, y, id))
  {
    SubmitStopIs(x, key, order, reserved, answer);
    SubmissionLeaves(x, StopTag(key), reserved, answer);
    hide Submit, SubmitStop;
  }

  // ---------------------------------------------------------------- closes

  /**
   A close request for a position that has one pending changes nothing.
   Otherwise an accepted close becomes the position's pending one and only the
   stops whose cancel fails stay; one that is not accepted changes no list.
   */
  lemma CloseLeaves(x: Index, key: PositionKey, closeKey: string, reserved: Option<OrderId>, answer: Answer, failing: set<OrderId>)
    requires Indexed(x) && AllIdle(x, reserved, answer)
    ensures var y := RequestClose(x, key, closeKey, reserved, answer, failing);
            if key in x.pendingCloses then y == x
            else if answer.Answered? && !TurnedDown(answer.status) then
              var id := answer.status.orderId;
              && y.pendingCloses == x.pendingCloses[key := id] && y.closeKeys == x.closeKeys[id := key]
              && Knows(y, id, key.0, Close, key.2)
              && (forall k :: StopsOf(y, k) == if k == key then StopsOf(x, k) * failing else StopsOf(x, k))
              && StopsTaken(x, y, StopsOf(x, key) - failing)
            else SameCloses(x, y) && SameStops(x, y)
  {
    if key !in x.pendingCloses {
      SubmitCloseIs(x, key, closeKey, reserved, answer, failing);
      var z := Submit(x, CloseTag(key), reserved, answer);
      SubmissionLeaves(x, CloseTag(key), reserved, answer);
      if answer.Answered? && !TurnedDown(answer.status) {
        StopsAreIndexed(x);
        CancelledStops(AddClose(z, key, answer.status.orderId), x, key, failing);
      }
      hide Submit, SubmitClose, CancelStops;
    }
  }

  lemma CancelledStops(z: Index, x: Index, key: PositionKey, failing: set<OrderId>)
    requires SameStops(x, z) && StopsIndexed(x.stopOrders, x.stopKeys, x.stopRequests)
    ensures var y := CancelStops(z, key, failing);
            && SameCloses(z, y) && SameTags(z, y)
            && (forall k :: StopsOf(y, k) == if k == key then StopsOf(x, k) * failing else StopsOf(x, k))
            && StopsTaken(x, y, StopsOf(x, key) - failing)
  {
    ClearEachIs(z, StopsOf(z, key), failing);
    StopsWithout(x, StopsOf(x, key) - failing);
    var y, ids := WithoutStops(z, StopsOf(x, key) - failing), StopsOf(x, key) - failing;
    hide ClearEach, WithoutStops;
    forall k ensures StopsOf(x, k) - ids == if k == key then StopsOf(x, k) * failing else StopsOf(x, k) {
      assert forall id :: id in StopsOf(x, k) ==> id in x.stopKeys && x.stopKeys[id] == k;
      assert forall id :: id in StopsOf(x, key) ==> x.stopKeys[id] == key;
    }
    WithoutSame(x, z, ids);
  }

  lemma StopsWithout(x: Index, ids: set<OrderId>)
    ensures forall k :: StopsOf(WithoutStops(x, ids), k) == StopsOf(x, k) - ids
  {
  }

  lemma WithoutSame(x: Index, z: Index, ids: set<OrderId>)
    requires SameStops(x, z)
    ensures WithoutStops(z, ids).stopOrders == WithoutStops(x, ids).stopOrders
    ensures StopsTaken(x, WithoutStops(z, ids), ids)
    ensures SameCloses(z, WithoutStops(z, ids)) && SameTags(z, WithoutStops(z, ids))
  {
  }

  // ---------------------------------------------------------------- status updates

  /** The id is in no dictionary, and no position has it as its close or among its stops. */
  predicate Forgets(y: Index, id: OrderId) {
    && Unknown(y, id)
    && id !in y.closeKeys && id !in y.stopKeys && id !in y.stopRequests
    && (forall k :: k in y.pendingCloses ==> y.pendingCloses[k] != id)
    && (forall k :: k in y.stopOrders ==> id !in y.stopOrders[k])
  }

  /** Nothing but the id is touched. */
  ghost predicate OnlyForgets(x: Index, y: Index, id: OrderId) {
    && (forall j :: j != id ==> SameTag(x, y, j) && SamePct(x, y, j))
    && y.closeKeys == x.closeKeys - {id} && y.stopKeys == x.stopKeys - {id} && y.stopRequests == x.stopRequests - {id}
    && (forall k :: k in y.pendingCloses <==> k in x.pendingCloses && x.pendingCloses[k] != id)
    && (forall k :: k in y.pendingCloses ==> y.pendingCloses[k] == x.pendingCloses[k])
    && (forall k :: StopsOf(y, k) == StopsOf(x, k) - {id})
  }

  /**
   A cancelled or rejected order is forgotten altogether, whatever it was for,
   and nothing else is touched; any other status changes nothing.
   */
  lemma UpdateLeaves(x: Index, status: OrderStatus)
    requires Indexed(x)
    ensures var y := HandleUpdate(x, status);
            if TurnedDown(status) then Forgets(y, status.orderId) && OnlyForgets(x, y, status.orderId) else y == x
  {
    if TurnedDown(status) {
      var id := status.orderId;
      if id in x.closeKeys { CloseForgotten(x, id); }
      else if id in x.stopKeys { StopForgotten(x, id); }
      else { IdleForgotten(x, id); }
    }
  }

  lemma TrackingGone(w: Index, id: OrderId)
    ensures var y := ClearTracking(w, id);
            && Unknown(y, id) && (forall j :: j != id ==> SameTag(w, y, j) && SamePct(w, y, j))
            && SameCloses(w, y) && SameStops(w, y)
  {
  }

  /** No list names an id whose entries are gone. */
  lemma NowhereListed(x: Index, id: OrderId)
    requires Indexed(x) && id !in x.stopKeys
    ensures id !in x.stopRequests && forall k :: id !in StopsOf(x, k)
  {
    hide ClosesIndexed, Owned, Registered;
  }

  lemma CloseIsNoStop(x: Index, id: OrderId)
    requires Indexed(x) && id in x.closeKeys
    ensures id !in x.stopKeys && id in x.role && x.role[id] == Close
  {
    hide StopsIndexed, ClosesIndexed, Registered;
  }

  lemma CloseForgotten(x: Index, id: OrderId)
    requires Indexed(x) && id in x.closeKeys
    ensures var y := ClearTracking(ClearPendingClose(x, id), id);
            && id in x.role && x.role[id] == Close
            && Forgets(y, id) && OnlyForgets(x, y, id)
  {
    hide ClearPendingClose, ClearTracking, Indexed, StopsOf;
    CloseIsNoStop(x, id);
    NowhereListed(x, id);
    CloseGone(x, id);
    TrackingGone(ClearPendingClose(x, id), id);
    assert x.stopKeys - {id} == x.stopKeys && x.stopRequests - {id} == x.stopRequests;
    var w := ClearPendingClose(x, id);
    Listless(x, ClearTracking(w, id), id);
    forall j | j != id ensures SameTag(x, ClearTracking(w, id), j) && SamePct(x, ClearTracking(w, id), j) {
      assert SameTag(w, ClearTracking(w, id), j) && SamePct(w, ClearTracking(w, id), j);
    }
  }

  /** A list without the id is the list less the id. */
  lemma Listless(x: Index, y: Index, id: OrderId)
    requires SameStops(x, y) && forall k :: id !in StopsOf(x, k)
    ensures (forall k :: StopsOf(y, k) == StopsOf(x, k) - {id}) && (forall k :: k in y.stopOrders ==> id !in y.stopOrders[k])
  {
    assert forall k :: k in x.stopOrders ==> x.stopOrders[k] == StopsOf(x, k);
  }

  lemma StopForgotten(x: Index, id: OrderId)
    requires Indexed(x) && id in x.stopKeys
    ensures var y := ClearTracking(ClearStop(x, id), id);
            && id in x.role && x.role[id] == ProtectiveStop
            && Forgets(y, id) && OnlyForgets(x, y, id)
  {
    assert id !in x.closeKeys;
    assert x.closeKeys - {id} == x.closeKeys;
    ClearStopIsWithout(x, id);
    StopsWithout(x, {id});
    hide ClearStop;
  }

  lemma IdleForgotten(x: Index, id: OrderId)
    requires Indexed(x) && id !in x.closeKeys && id !in x.stopKeys
    ensures var w := if id in x.role && x.role[id].Close? then ClearPendingClose(x, id)
                     else if id in x.role && x.role[id].ProtectiveStop? then ClearStop(x, id)
                     else x;
            var y := ClearTracking(w, id);
            && Forgets(y, id) && OnlyForgets(x, y, id)
  {
    NowhereListed(x, id);
    NothingToClear(x, id);
    assert forall k :: k in x.pendingCloses ==> x.pendingCloses[k] in x.closeKeys;
    hide ClearStop, ClearPendingClose, ClearTracking, Indexed;
    TrackingGone(x, id);
    assert x.closeKeys - {id} == x.closeKeys && x.stopKeys - {id} == x.stopKeys && x.stopRequests - {id} == x.stopRequests;
    assert forall k :: StopsOf(x, k) - {id} == StopsOf(x, k);
  }

  lemma NothingToClear(x: Index, id: OrderId)
    requires id !in x.closeKeys && id !in x.stopKeys && id !in x.stopRequests
    ensures ClearPendingClose(x, id) == x && ClearStop(x, id) == x
  {
    assert x.stopKeys - {id} == x.stopKeys && x.stopRequests - {id} == x.stopRequests;
  }

  /** So once its pending close is cancelled or rejected, a position can be closed again. */
  lemma CloseCanFollow(x: Index, status: OrderStatus, key: PositionKey, closeKey: string, again: OrderStatus)
    requires Indexed(x) && TurnedDown(status) && key in x.pendingCloses && x.pendingCloses[key] == status.orderId
    requires !TurnedDown(again) && again.orderId !in x.closeKeys && again.orderId !in x.stopKeys
    ensures var y := RequestClose(HandleUpdate(x, status), key, closeKey, None, Answered(again), {});
            key in y.pendingCloses && y.pendingCloses[key] == again.orderId
  {
    UpdateLeaves(x, status);
    HandleUpdateKeeps(x, status);
    var w := HandleUpdate(x, status);
    hide HandleUpdate, RequestClose, Indexed;
    CloseLeaves(w, key, closeKey, None, Answered(again), {});
  }

  // ---------------------------------------------------------------- fills

  /** The position an order was for, by its registration and the fill's instrument. */
  function PositionOf(x: Index, fill: Fill): PositionKey
    requires fill.orderId in x.owner && fill.orderId in x.tradeId
  {
    (x.owner[fill.orderId], fill.instrument, x.tradeId[fill.orderId])
  }

  /** A fill of an unknown order, of one of another role, or of an entry without a stop changes nothing. */
  lemma IdleFillLeaves(x: Index, fill: Fill, failing: set<OrderId>, stop: Option<StopAttempt>)
    requires fill.orderId !in x.role || x.role[fill.orderId].OtherRole? || (x.role[fill.orderId] == Entry && stop == None)
    ensures HandleFill(x, fill, failing, stop) == x
  {
    hide SubmitStop, ClearEach, ClearStop, ClearPendingClose;
  }

  /** An entry's fill submits the stop declared for it, for the entry's own position. */
  lemma EntryFillLeaves(x: Index, fill: Fill, failing: set<OrderId>, stop: StopAttempt)
    requires Registered(x) && fill.orderId in x.role && x.role[fill.orderId] == Entry
    ensures HandleFill(x, fill, failing, Some(stop)) == SubmitStop(x, PositionOf(x, fill), stop.order, stop.reserved, stop.answer)
  {
    hide SubmitStop;
  }

  /** A close's fill ends that close, and leaves its position the stops whose cancel failed. */
  lemma CloseFillLeaves(x: Index, fill: Fill, failing: set<OrderId>, stop: Option<StopAttempt>)
    requires Indexed(x) && fill.orderId in x.role && x.role[fill.orderId] == Close
    ensures var y, key := HandleFill(x, fill, failing, stop), PositionOf(x, fill);
            && y.closeKeys == x.closeKeys - {fill.orderId}
            && (forall k :: k in y.pendingCloses <==> k in x.pendingCloses && x.pendingCloses[k] != fill.orderId)
            && (forall k :: k in y.pendingCloses ==> y.pendingCloses[k] == x.pendingCloses[k])
            && (forall k :: StopsOf(y, k) == if k == key then StopsOf(x, k) * failing else StopsOf(x, k))
            && StopsTaken(x, y, StopsOf(x, key) - failing)
            && SameTags(x, y)
  {
    StopsAreIndexed(x);
    CloseGone(x, fill.orderId);
    CancelledStops(ClearPendingClose(x, fill.orderId), x, PositionOf(x, fill), failing);
    hide ClearPendingClose, ClearEach, CancelStops;
  }

  lemma CloseGone(x: Index, id: OrderId)
    requires Indexed(x)
    ensures var y := ClearPendingClose(x, id);
            && SameStops(x, y) && SameTags(x, y)
            && y.closeKeys == x.closeKeys - {id}
            && (forall k :: k in y.pendingCloses <==> k in x.pendingCloses && x.pendingCloses[k] != id)
            && (forall k :: k in y.pendingCloses ==> y.pendingCloses[k] == x.pendingCloses[k])
  {
    if id !in x.closeKeys { assert x.closeKeys - {id} == x.closeKeys; }
  }

  /** A stop's fill ends that stop, and the position's pending close unless cancelling it failed. */
  lemma StopFillLeaves(x: Index, fill: Fill, failing: set<OrderId>, stop: Option<StopAttempt>)
    requires Indexed(x) && fill.orderId in x.role && x.role[fill.orderId] == ProtectiveStop
    ensures var y, key := HandleFill(x, fill, failing, stop), PositionOf(x, fill);
            && y.stopKeys == x.stopKeys - {fill.orderId} && y.stopRequests == x.stopRequests - {fill.orderId}
            && (forall k :: StopsOf(y, k) == StopsOf(x, k) - {fill.orderId})
            && (forall k :: k in y.pendingCloses <==>
                  k in x.pendingCloses && (k != key || x.pendingCloses[k] in failing))
            && (forall k :: k in y.pendingCloses ==> y.pendingCloses[k] == x.pendingCloses[k])
            && SameTags(x, y)
  {
    var id, key := fill.orderId, PositionOf(x, fill);
    StopGone(x, id);
    CloseDropped(ClearStop(x, id), key, failing);
    hide Indexed, ClearStop, CancelClose, StopsOf;
  }

  lemma StopGone(x: Index, id: OrderId)
    requires Indexed(x) && id in x.role && x.role[id] == ProtectiveStop
    ensures var z := ClearStop(x, id);
            && Indexed(z) && SameCloses(x, z) && SameTags(x, z)
            && z.stopKeys == x.stopKeys - {id} && z.stopRequests == x.stopRequests - {id}
            && (forall k :: StopsOf(z, k) == StopsOf(x, k) - {id})
  {
    StopsAreIndexed(x);
    ClearStopIsWithout(x, id);
    WithoutStopsKeeps(x, {id});
    StopsWithout(x, {id});
    hide ClearStop, StopsIndexed, StopsOf;
  }

  /** Cancelling a position's close drops it, unless that fails, and no other. */
  lemma CloseDropped(z: Index, key: PositionKey, failing: set<OrderId>)
    requires Indexed(z)
    ensures var y := CancelClose(z, key, failing);
            && SameStops(z, y) && SameTags(z, y)
            && (forall k :: k in y.pendingCloses <==> k in z.pendingCloses && (k != key || z.pendingCloses[k] in failing))
            && (forall k :: k in y.pendingCloses ==> y.pendingCloses[k] == z.pendingCloses[k])
  {
    if key in z.pendingCloses && z.pendingCloses[key] !in failing {
      CloseGone(z, z.pendingCloses[key]);
      PendingApart(z, key);
    }
    hide Indexed, ClearPendingClose;
  }

  lemma PendingApart(z: Index, key: PositionKey)
    requires Indexed(z) && key in z.pendingCloses
    ensures forall k :: k in z.pendingCloses && z.pendingCloses[k] == z.pendingCloses[key] ==> k == key
  {
    hide StopsIndexed, Owned, Registered;
  }

  // ---------------------------------------------------------------- the end of a session

  /** Of the strategies that keep their stops for the session only, the stops go whose cancel does not fail; all else stays. */
  lemma SessionLeaves(x: Index, sessionOnly: set<StrategyId>, failing: set<OrderId>)
    requires Indexed(x)
    ensures var y := CancelSessionStops(x, sessionOnly, failing);
            && SameCloses(x, y) && SameTags(x, y)
            && (forall id :: id in y.stopKeys <==> id in x.stopKeys && (x.owner[id] !in sessionOnly || id in failing))
            && (forall id :: id in y.stopKeys ==> y.stopKeys[id] == x.stopKeys[id] && id in y.stopRequests
                                                   && y.stopRequests[id] == x.stopRequests[id])
            && (forall k, id :: id in StopsOf(y, k) <==> id in StopsOf(x, k) && id in y.stopKeys)
  {
    StopsAreIndexed(x);
    var ids := SessionStops(x, sessionOnly);
    ClearEachIs(x, ids, failing);
    StopsWithout(x, ids - failing);
    hide ClearEach;
  }
}
