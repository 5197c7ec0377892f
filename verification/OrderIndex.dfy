/**
 The order manager's cross-linked dictionaries, on values: what each submit,
 rejection, fill, status update, modify and cancel does to them, and what all
 of them keep. The broker is arbitrary: its answers are arguments.
 */
module OrderIndex {
  import opened Types
  import opened Sorting

  datatype Role = Entry | Close | ProtectiveStop | OtherRole(name: string)

  type PositionKey = (StrategyId, Instrument, Option<TradeId>)

  datatype Index = Index(
    owner: map<OrderId, StrategyId>,
    role: map<OrderId, Role>,
    tradeId: map<OrderId, Option<TradeId>>,
    stopPct: map<OrderId, Option<real>>,
    pendingCloses: map<PositionKey, OrderId>,
    closeKeys: map<OrderId, PositionKey>,
    stopOrders: map<PositionKey, set<OrderId>>,
    stopKeys: map<OrderId, PositionKey>,
    stopRequests: map<OrderId, OrderRequest>)

  const EmptyIndex := Index(map[], map[], map[], map[], map[], map[], map[], map[], map[])

  /** What became of a call that submits or modifies an order. */
  datatype Answer = Raised | Answered(status: OrderStatus)

  predicate Unaccepted(status: OrderStatus) {
    status.status.Cancelled? || status.status.Rejected?
  }

  /** Whose order it is and what it is for. */
  datatype Tag = Tag(strategyId: StrategyId, role: Role, tradeId: Option<TradeId>, stopPct: Option<real>)

  /** Two states that list the same pending closes and stops. */
  predicate SameLists(x: Index, y: Index) {
    && x.pendingCloses == y.pendingCloses && x.closeKeys == y.closeKeys
    && x.stopOrders == y.stopOrders && x.stopKeys == y.stopKeys && x.stopRequests == y.stopRequests
  }

  /** A state that differs in having fewer live stops. */
  predicate OnlyStopsCleared(x: Index, y: Index) {
    && y.stopKeys.Keys <= x.stopKeys.Keys
    && y.pendingCloses == x.pendingCloses && y.closeKeys == x.closeKeys
    && y.owner == x.owner && y.role == x.role && y.tradeId == x.tradeId && y.stopPct == x.stopPct
  }

  // ---------------------------------------------------------------- single edits

  function Register(x: Index, id: OrderId, tag: Tag): (y: Index)
    ensures SameLists(x, y)
  {
    x.(owner := x.owner[id := tag.strategyId],
       role := x.role[id := tag.role],
       tradeId := x.tradeId[id := tag.tradeId],
       stopPct := if tag.stopPct.Some? || tag.role.Entry? then x.stopPct[id := tag.stopPct] else x.stopPct)
  }

  function ClearTracking(x: Index, id: OrderId): (y: Index)
    ensures SameLists(x, y)
  {
    x.(owner := x.owner - {id}, role := x.role - {id}, tradeId := x.tradeId - {id}, stopPct := x.stopPct - {id})
  }

  function Carried<V>(m: map<OrderId, V>, src: OrderId, dst: OrderId): map<OrderId, V> {
    if src in m then (m - {src})[dst := m[src]] else m
  }

  /** Carries the tracking of a reserved id over to the id the broker answered with. */
  function MoveTracking(x: Index, src: OrderId, dst: OrderId): (y: Index)
    ensures SameLists(x, y)
  {
    if src == dst then x
    else
      var pct := if src in x.stopPct then x.stopPct[src] else None;
      x.(owner := Carried(x.owner, src, dst),
         role := Carried(x.role, src, dst),
         tradeId := (x.tradeId - {src})[dst := if src in x.tradeId then x.tradeId[src] else None],
         stopPct := if pct.Some? || (src in x.role && x.role[src].Entry?)
                    then (x.stopPct - {src})[dst := pct] else x.stopPct - {src})
  }

  function CompleteRegistration(x: Index, reserved: Option<OrderId>, id: OrderId, tag: Tag): (y: Index)
    ensures SameLists(x, y)
  {
    var w := if reserved.Some? then MoveTracking(x, reserved.value, id) else x;
    if reserved.None? || id !in w.owner then Register(w, id, tag) else w
  }

  function StopsOf(x: Index, key: PositionKey): set<OrderId> {
    if key in x.stopOrders then x.stopOrders[key] else {}
  }

  function AddStop(x: Index, key: PositionKey, id: OrderId, order: OrderRequest): Index {
    x.(stopOrders := x.stopOrders[key := StopsOf(x, key) + {id}],
       stopKeys := x.stopKeys[id := key],
       stopRequests := x.stopRequests[id := order])
  }

  function TrackStop(x: Index, status: OrderStatus, key: PositionKey, order: OrderRequest): Index {
    var y := Register(x, status.orderId, Tag(key.0, ProtectiveStop, key.2, None));
    if Unaccepted(status) || status.status.Filled? then y else AddStop(y, key, status.orderId, order)
  }

  /** A position's set without a stop, and no position with an empty set. */
  function Unlisted(orders: map<PositionKey, set<OrderId>>, key: PositionKey, id: OrderId): map<PositionKey, set<OrderId>> {
    if key !in orders then orders
    else if orders[key] - {id} == {} then orders - {key}
    else orders[key := orders[key] - {id}]
  }

  function ClearStop(x: Index, id: OrderId): (y: Index)
    ensures OnlyStopsCleared(x, y)
  {
    x.(stopRequests := x.stopRequests - {id},
       stopKeys := x.stopKeys - {id},
       stopOrders := if id in x.stopKeys then Unlisted(x.stopOrders, x.stopKeys[id], id) else x.stopOrders)
  }

  function ClearPendingClose(x: Index, id: OrderId): (y: Index)
    ensures y.closeKeys.Keys <= x.closeKeys.Keys && y.stopKeys == x.stopKeys
  {
    if id !in x.closeKeys then x
    else
      var key := x.closeKeys[id];
      var w := x.(closeKeys := x.closeKeys - {id});
      if key in w.pendingCloses && w.pendingCloses[key] == id then w.(pendingCloses := w.pendingCloses - {key}) else w
  }

  function ClearReservation(x: Index, key: PositionKey, id: OrderId): Index {
    if key in x.pendingCloses && x.pendingCloses[key] == id then x.(pendingCloses := x.pendingCloses - {key}) else x
  }

  // ---------------------------------------------------------------- cancels

  /** The index with a set of stop orders gone. */
  function WithoutStops(x: Index, ids: set<OrderId>): (y: Index)
    ensures y.stopKeys.Keys <= x.stopKeys.Keys && y.closeKeys == x.closeKeys
  {
    x.(stopRequests := x.stopRequests - ids,
       stopKeys := x.stopKeys - ids,
       stopOrders := map k | k in x.stopOrders && x.stopOrders[k] - ids != {} :: x.stopOrders[k] - ids)
  }

  /** Goes through stop orders in sorted order, clearing each one whose cancel does not fail. */
  function ClearEach(x: Index, ids: set<OrderId>, failing: set<OrderId>): (y: Index)
    ensures OnlyStopsCleared(x, y)
    decreases |ids|
  {
    if ids == {} then x
    else
      var id := Lowest(ids);
      ClearEach(if id in failing then x else ClearStop(x, id), ids - {id}, failing)
  }

  /** Cancels a position's stops at the broker; those whose cancel fails stay tracked. */
  function CancelStops(x: Index, key: PositionKey, failing: set<OrderId>): Index {
    ClearEach(x, StopsOf(x, key), failing)
  }

  function CancelClose(x: Index, key: PositionKey, failing: set<OrderId>): Index {
    if key !in x.pendingCloses || x.pendingCloses[key] in failing then x
    else ClearPendingClose(x, x.pendingCloses[key])
  }

  /** The tracked stops of strategies that declare their stops session-only. */
  function SessionStops(x: Index, sessionOnly: set<StrategyId>): set<OrderId> {
    set id | id in x.stopKeys && id in x.owner && x.owner[id] in sessionOnly
  }

  function CancelSessionStops(x: Index, sessionOnly: set<StrategyId>, failing: set<OrderId>): Index {
    ClearEach(x, SessionStops(x, sessionOnly), failing)
  }

  // ---------------------------------------------------------------- submissions

  /** Entries, and intents of any role: reserve, submit, register, and forget again when turned down. */
  function Submit(x: Index, tag: Tag, reserved: Option<OrderId>, answer: Answer): (y: Index)
    ensures SameLists(x, y)
  {
    var w := if reserved.Some? then Register(x, reserved.value, tag) else x;
    match answer
    case Raised => if reserved.Some? then ClearTracking(w, reserved.value) else w
    case Answered(status) =>
      var z := CompleteRegistration(w, reserved, status.orderId, tag);
      if Unaccepted(status) then ClearTracking(z, status.orderId) else z
  }

  function SubmitStop(x: Index, key: PositionKey, order: OrderRequest, reserved: Option<OrderId>, answer: Answer): Index {
    var tag := Tag(key.0, ProtectiveStop, key.2, None);
    var y := if reserved.Some? then Register(x, reserved.value, tag) else x;
    match answer
    case Raised => if reserved.Some? then ClearTracking(y, reserved.value) else y
    case Answered(status) =>
      var z := TrackStop(CompleteRegistration(y, reserved, status.orderId, tag), status, key, order);
      if Unaccepted(status) then ClearTracking(z, status.orderId) else z
  }

  /**
   A close that passed validation, for a position without a pending close: the
   position is reserved while the order is being submitted, and the reservation
   is taken back or replaced by the order's id.
   */
  function SubmitClose(x: Index, key: PositionKey, closeKey: string, reserved: Option<OrderId>, answer: Answer,
                       failing: set<OrderId>): Index
  {
    var submitting := if reserved.Some? then reserved.value else "submitting:" + closeKey;
    var reservedState := x.(pendingCloses := x.pendingCloses[key := submitting]);
    var y := Submit(reservedState, Tag(key.0, Close, key.2, None), reserved, answer);
    if answer.Raised? || Unaccepted(answer.status) then ClearReservation(y, key, submitting)
    else CancelStops(AddClose(y, key, answer.status.orderId), key, failing)
  }

  function AddClose(x: Index, key: PositionKey, id: OrderId): Index {
    x.(pendingCloses := x.pendingCloses[key := id], closeKeys := x.closeKeys[id := key])
  }

  /** Nothing is submitted while a close of the same position is pending. */
  function RequestClose(x: Index, key: PositionKey, closeKey: string, reserved: Option<OrderId>, answer: Answer,
                        failing: set<OrderId>): Index
  {
    if key in x.pendingCloses then x else SubmitClose(x, key, closeKey, reserved, answer, failing)
  }

  // ---------------------------------------------------------------- stops that follow a position

  /** The lowest id among a position's stops whose request is known. */
  function ActiveStop(x: Index, key: PositionKey): (r: Option<OrderId>)
    ensures r.Some? ==> r.value in StopsOf(x, key) && r.value in x.stopRequests
  {
    var known := StopsOf(x, key) * x.stopRequests.Keys;
    if known == {} then None else Some(Lowest(known))
  }

  predicate Improves(exit: Side, requested: real, current: real) {
    if exit.Short? then requested > current else requested < current
  }

  function ExitSide(quantity: int): Side {
    if quantity > 0 then Short else Long
  }

  function StopRequest(key: PositionKey, quantity: int, price: real, idempotencyKey: OrderId): OrderRequest {
    OrderRequest(key.1, ExitSide(quantity), Abs(quantity), Stop, None, Some(price), key.0, idempotencyKey, None)
  }

  /** The two calls an update of a stop may make, and how the broker answers. */
  datatype StopUpdate = StopUpdate(newKey: OrderId, reserved: Option<OrderId>, modified: Answer, submitted: Answer)

  /** Tightens the active stop of a position, or submits one when there is none. */
  function EnsureStop(x: Index, key: PositionKey, quantity: int, price: real, u: StopUpdate): Index {
    var active := ActiveStop(x, key);
    if active.None? then SubmitStop(x, key, StopRequest(key, quantity, price, u.newKey), u.reserved, u.submitted)
    else
      var id, current := active.value, x.stopRequests[active.value];
      if current.stopPrice.Some? && !Improves(ExitSide(quantity), price, current.stopPrice.value) then x
      else
        match u.modified
        case Raised => x
        case Answered(status) =>
          if Unaccepted(status) then ClearStop(x, id)
          else x.(stopRequests := x.stopRequests[id := StopRequest(key, quantity, price, current.idempotencyKey)])
  }

  // ---------------------------------------------------------------- fills and status updates

  /** A protective stop to submit for an entry fill, when the strategy declares one. */
  datatype StopAttempt = StopAttempt(order: OrderRequest, reserved: Option<OrderId>, answer: Answer)

  function HandleFill(x: Index, fill: Fill, failing: set<OrderId>, stop: Option<StopAttempt>): Index {
    var id := fill.orderId;
    if id !in x.role then x
    else
      var tradeId := if id in x.tradeId then x.tradeId[id] else None;
      match x.role[id]
      case Close =>
        var y := ClearPendingClose(x, id);
        if id in x.owner then CancelStops(y, (x.owner[id], fill.instrument, tradeId), failing) else y
      case ProtectiveStop =>
        var y := ClearStop(x, id);
        if id in x.owner then CancelClose(y, (x.owner[id], fill.instrument, tradeId), failing) else y
      case Entry =>
        if id in x.owner && stop.Some?
        then SubmitStop(x, (x.owner[id], fill.instrument, tradeId), stop.value.order, stop.value.reserved, stop.value.answer)
        else x
      case OtherRole(_) => x
  }

  function HandleUpdate(x: Index, status: OrderStatus): Index {
    var id := status.orderId;
    if !Unaccepted(status) then x
    else
      var y := if id in x.role && x.role[id].Close? then ClearPendingClose(x, id)
               else if id in x.role && x.role[id].ProtectiveStop? then ClearStop(x, id)
               else x;
      ClearTracking(y, id)
  }

  function TrackedOpenOrderIds(x: Index): set<OrderId> {
    x.owner.Keys + x.pendingCloses.Values + x.stopKeys.Keys
  }

  // ---------------------------------------------------------------- the invariant

  ghost predicate StopsIndexed(orders: map<PositionKey, set<OrderId>>, keys: map<OrderId, PositionKey>,
                               requests: map<OrderId, OrderRequest>)
  {
    && (forall id :: id in keys ==> keys[id] in orders && id in orders[keys[id]])
    && (forall k, id :: k in orders && id in orders[k] ==> id in keys && keys[id] == k)
    && (forall k :: k in orders ==> orders[k] != {})
    && requests.Keys == keys.Keys
  }

  ghost predicate ClosesIndexed(pending: map<PositionKey, OrderId>, keys: map<OrderId, PositionKey>) {
    && (forall k :: k in pending ==> pending[k] in keys && keys[pending[k]] == k)
    && (forall id :: id in keys ==> keys[id] in pending && pending[keys[id]] == id)
  }

  ghost predicate Registered(x: Index) {
    x.owner.Keys == x.role.Keys == x.tradeId.Keys && x.stopPct.Keys <= x.owner.Keys
  }

  /** An order registered for a position under a role. */
  predicate Holds(x: Index, id: OrderId, key: PositionKey, role: Role) {
    id in x.owner && id in x.role && id in x.tradeId && x.owner[id] == key.0 && x.role[id] == role && x.tradeId[id] == key.2
  }

  ghost predicate Owned(x: Index) {
    && (forall id :: id in x.stopKeys ==> Holds(x, id, x.stopKeys[id], ProtectiveStop))
    && (forall id :: id in x.closeKeys ==> Holds(x, id, x.closeKeys[id], Close))
  }

  /**
   A stop is listed under a position exactly when its inverse entry names that
   position; no position lists an empty set; a pending close and its inverse
   agree; owner, role and trade id share one domain; and every tracked stop or
   close is registered to the position's strategy and trade.
   */
  ghost predicate Indexed(x: Index) {
    && StopsIndexed(x.stopOrders, x.stopKeys, x.stopRequests)
    && ClosesIndexed(x.pendingCloses, x.closeKeys)
    && Registered(x)
    && Owned(x)
  }

  /** An id no live stop or close is using. */
  predicate Idle(x: Index, id: OrderId) {
    id !in x.stopKeys && id !in x.closeKeys
  }

  predicate AllIdle(x: Index, reserved: Option<OrderId>, answer: Answer) {
    (reserved.Some? ==> Idle(x, reserved.value)) && (answer.Answered? ==> Idle(x, answer.status.orderId))
  }

  // ---------------------------------------------------------------- edits keep the invariant

  lemma RegisterKeeps(x: Index, id: OrderId, tag: Tag)
    requires Indexed(x) && Idle(x, id)
    ensures Indexed(Register(x, id, tag))
  {
    hide StopsIndexed, ClosesIndexed;
  }

  lemma ClearTrackingKeeps(x: Index, id: OrderId)
    requires Indexed(x) && Idle(x, id)
    ensures Indexed(ClearTracking(x, id))
  {
    hide StopsIndexed, ClosesIndexed;
  }

  lemma MoveIsRegister(x: Index, src: OrderId, dst: OrderId)
    requires Registered(x) && src in x.owner && src != dst
    ensures MoveTracking(x, src, dst)
         == Register(ClearTracking(x, src), dst,
                     Tag(x.owner[src], x.role[src], x.tradeId[src], if src in x.stopPct then x.stopPct[src] else None))
  {
  }

  lemma MoveTrackingKeeps(x: Index, src: OrderId, dst: OrderId)
    requires Indexed(x) && Idle(x, src) && Idle(x, dst) && src in x.owner
    ensures Indexed(MoveTracking(x, src, dst))
    ensures Idle(MoveTracking(x, src, dst), dst)
  {
    hide StopsIndexed, ClosesIndexed, Owned;
    if src != dst {
      MoveIsRegister(x, src, dst);
      ClearTrackingKeeps(x, src);
      RegisterKeeps(ClearTracking(x, src), dst,
                    Tag(x.owner[src], x.role[src], x.tradeId[src], if src in x.stopPct then x.stopPct[src] else None));
    }
  }

  lemma CompleteRegistrationKeeps(x: Index, reserved: Option<OrderId>, id: OrderId, tag: Tag)
    requires Indexed(x) && Idle(x, id) && (reserved.Some? ==> Idle(x, reserved.value) && reserved.value in x.owner)
    ensures Indexed(CompleteRegistration(x, reserved, id, tag))
    ensures Idle(CompleteRegistration(x, reserved, id, tag), id)
  {
    hide Indexed, MoveTracking;
    var y := x;
    if reserved.Some? {
      MoveTrackingKeeps(x, reserved.value, id);
      y := MoveTracking(x, reserved.value, id);
    }
    if reserved.None? || id !in y.owner {
      RegisterKeeps(y, id, tag);
    }
  }

  lemma StopAdded(orders: map<PositionKey, set<OrderId>>, keys: map<OrderId, PositionKey>,
                  requests: map<OrderId, OrderRequest>, key: PositionKey, id: OrderId, order: OrderRequest)
    requires StopsIndexed(orders, keys, requests) && id !in keys
    ensures StopsIndexed(orders[key := (if key in orders then orders[key] else {}) + {id}], keys[id := key], requests[id := order])
  {
  }

  lemma AddStopKeeps(x: Index, key: PositionKey, id: OrderId, order: OrderRequest)
    requires Indexed(x) && Idle(x, id) && Holds(x, id, key, ProtectiveStop)
    ensures Indexed(AddStop(x, key, id, order))
  {
    StopAdded(x.stopOrders, x.stopKeys, x.stopRequests, key, id, order);
    hide StopsIndexed, ClosesIndexed;
  }

  lemma TrackStopKeeps(x: Index, status: OrderStatus, key: PositionKey, order: OrderRequest)
    requires Indexed(x) && Idle(x, status.orderId)
    ensures Indexed(TrackStop(x, status, key, order))
  {
    hide Indexed, AddStop;
    RegisterKeeps(x, status.orderId, Tag(key.0, ProtectiveStop, key.2, None));
    if !Unaccepted(status) && !status.status.Filled? {
      AddStopKeeps(Register(x, status.orderId, Tag(key.0, ProtectiveStop, key.2, None)), key, status.orderId, order);
    }
  }

  lemma StopsRemoved(orders: map<PositionKey, set<OrderId>>, keys: map<OrderId, PositionKey>,
                     requests: map<OrderId, OrderRequest>, ids: set<OrderId>)
    requires StopsIndexed(orders, keys, requests)
    ensures StopsIndexed(map k | k in orders && orders[k] - ids != {} :: orders[k] - ids, keys - ids, requests - ids)
  {
    var after := map k | k in orders && orders[k] - ids != {} :: orders[k] - ids;
    forall id | id in keys - ids ensures keys[id] in after && id in after[keys[id]] {
      assert id in orders[keys[id]] - ids;
    }
  }

  lemma WithoutStopsKeeps(x: Index, ids: set<OrderId>)
    requires Indexed(x)
    ensures Indexed(WithoutStops(x, ids))
    ensures forall k :: StopsOf(WithoutStops(x, ids), k) == StopsOf(x, k) - ids
  {
    StopsRemoved(x.stopOrders, x.stopKeys, x.stopRequests, ids);
    hide StopsIndexed, ClosesIndexed;
  }

  lemma StopMapWithout(m: map<PositionKey, set<OrderId>>, key: PositionKey, id: OrderId)
    requires key in m
    requires forall k :: k in m ==> m[k] != {} && (k != key ==> id !in m[k])
    ensures (map k | k in m && m[k] - {id} != {} :: m[k] - {id})
         == if m[key] - {id} == {} then m - {key} else m[key := m[key] - {id}]
  {
    forall k | k in m && k != key ensures m[k] - {id} == m[k] {
    }
  }

  lemma StopMapUntouched(m: map<PositionKey, set<OrderId>>, id: OrderId)
    requires forall k :: k in m ==> m[k] != {} && id !in m[k]
    ensures (map k | k in m && m[k] - {id} != {} :: m[k] - {id}) == m
  {
    forall k | k in m ensures m[k] - {id} == m[k] {
    }
  }

  /** On an indexed state, clearing one stop by its inverse entry takes it out of every dictionary. */
  lemma ClearStopIsWithout(x: Index, id: OrderId)
    requires StopsIndexed(x.stopOrders, x.stopKeys, x.stopRequests)
    ensures ClearStop(x, id) == WithoutStops(x, {id})
  {
    if id in x.stopKeys {
      StopMapWithout(x.stopOrders, x.stopKeys[id], id);
    } else {
      StopMapUntouched(x.stopOrders, id);
      assert x.stopKeys - {id} == x.stopKeys;
    }
    hide StopsIndexed;
  }

  lemma StopMapBoth(m: map<PositionKey, set<OrderId>>, a: set<OrderId>, b: set<OrderId>)
    ensures var n := map k | k in m && m[k] - a != {} :: m[k] - a;
            (map k | k in n && n[k] - b != {} :: n[k] - b) == map k | k in m && m[k] - (a + b) != {} :: m[k] - (a + b)
  {
    forall k | k in m ensures m[k] - a - b == m[k] - (a + b) {
    }
  }

  lemma WithoutBoth(x: Index, a: set<OrderId>, b: set<OrderId>)
    ensures WithoutStops(WithoutStops(x, a), b) == WithoutStops(x, a + b)
  {
    StopMapBoth(x.stopOrders, a, b);
    assert x.stopKeys - a - b == x.stopKeys - (a + b);
    assert x.stopRequests - a - b == x.stopRequests - (a + b);
  }

  /** On an indexed state, clearing stops one after another removes exactly those whose cancel went through. */
  lemma {:induction false} ClearEachIs(x: Index, ids: set<OrderId>, failing: set<OrderId>)
    requires StopsIndexed(x.stopOrders, x.stopKeys, x.stopRequests)
    ensures ClearEach(x, ids, failing) == WithoutStops(x, ids - failing)
    decreases |ids|
  {
    hide StopsIndexed, ClearStop, WithoutStops;
    if ids == {} {
      WithoutNone(x);
      assert ids - failing == {};
    } else {
      var id := Lowest(ids);
      if id in failing {
        assert ids - failing == ids - {id} - failing;
        ClearEachIs(x, ids - {id}, failing);
      } else {
        ClearStopIsWithout(x, id);
        StopsRemoved(x.stopOrders, x.stopKeys, x.stopRequests, {id});
        WithoutIs(x, {id});
        ClearEachIs(ClearStop(x, id), ids - {id}, failing);
        WithoutBoth(x, {id}, ids - {id} - failing);
        assert {id} + (ids - {id} - failing) == ids - failing;
      }
    }
  }

  lemma WithoutIs(x: Index, ids: set<OrderId>)
    ensures WithoutStops(x, ids).stopOrders == map k | k in x.stopOrders && x.stopOrders[k] - ids != {} :: x.stopOrders[k] - ids
    ensures WithoutStops(x, ids).stopKeys == x.stopKeys - ids && WithoutStops(x, ids).stopRequests == x.stopRequests - ids
  {
  }

  lemma WithoutNone(x: Index)
    requires StopsIndexed(x.stopOrders, x.stopKeys, x.stopRequests)
    ensures WithoutStops(x, {}) == x
  {
    forall k | k in x.stopOrders ensures x.stopOrders[k] - {} == x.stopOrders[k] {
    }
    assert x.stopKeys - {} == x.stopKeys && x.stopRequests - {} == x.stopRequests;
  }

  lemma ClearPendingCloseKeeps(x: Index, id: OrderId)
    requires Indexed(x)
    ensures Indexed(ClearPendingClose(x, id))
    ensures id !in ClearPendingClose(x, id).closeKeys
    ensures forall k :: k in ClearPendingClose(x, id).pendingCloses <==> k in x.pendingCloses && x.pendingCloses[k] != id
  {
    if id in x.closeKeys {
      CloseRemoved(x.pendingCloses, x.closeKeys, id);
    } else {
      NoSuchClose(x.pendingCloses, x.closeKeys, id);
    }
    hide StopsIndexed, ClosesIndexed;
  }

  lemma NoSuchClose(pending: map<PositionKey, OrderId>, keys: map<OrderId, PositionKey>, id: OrderId)
    requires ClosesIndexed(pending, keys) && id !in keys
    ensures forall k :: k in pending ==> pending[k] != id
  {
  }

  lemma CloseRemoved(pending: map<PositionKey, OrderId>, keys: map<OrderId, PositionKey>, id: OrderId)
    requires ClosesIndexed(pending, keys) && id in keys
    ensures ClosesIndexed(pending - {keys[id]}, keys - {id})
    ensures pending[keys[id]] == id
    ensures forall k :: k in pending - {keys[id]} <==> k in pending && pending[k] != id
  {
  }

  // ---------------------------------------------------------------- operations keep the invariant

  lemma SubmitKeeps(x: Index, tag: Tag, reserved: Option<OrderId>, answer: Answer)
    requires Indexed(x) && AllIdle(x, reserved, answer)
    ensures Indexed(Submit(x, tag, reserved, answer))
    ensures answer.Answered? ==> Idle(Submit(x, tag, reserved, answer), answer.status.orderId)
  {
    hide Indexed, MoveTracking;
    var y := x;
    if reserved.Some? {
      RegisterKeeps(x, reserved.value, tag);
      y := Register(x, reserved.value, tag);
    }
    match answer
    case Raised =>
      if reserved.Some? { ClearTrackingKeeps(y, reserved.value); }
    case Answered(status) =>
      CompleteRegistrationKeeps(y, reserved, status.orderId, tag);
      if Unaccepted(status) {
        ClearTrackingKeeps(CompleteRegistration(y, reserved, status.orderId, tag), status.orderId);
      }
  }

  lemma SubmitStopKeeps(x: Index, key: PositionKey, order: OrderRequest, reserved: Option<OrderId>, answer: Answer)
    requires Indexed(x) && AllIdle(x, reserved, answer)
    ensures Indexed(SubmitStop(x, key, order, reserved, answer))
  {
    hide Indexed, MoveTracking;
    var tag := Tag(key.0, ProtectiveStop, key.2, None);
    var y := x;
    if reserved.Some? {
      RegisterKeeps(x, reserved.value, tag);
      y := Register(x, reserved.value, tag);
    }
    match answer
    case Raised =>
      if reserved.Some? { ClearTrackingKeeps(y, reserved.value); }
    case Answered(status) =>
      CompleteRegistrationKeeps(y, reserved, status.orderId, tag);
      var z := CompleteRegistration(y, reserved, status.orderId, tag);
      TrackStopKeeps(z, status, key, order);
      if Unaccepted(status) {
        ClearTrackingKeeps(TrackStop(z, status, key, order), status.orderId);
      }
  }

  /** Submission does not look at the pending closes. */
  lemma SubmitCommutes(x: Index, pending: map<PositionKey, OrderId>, tag: Tag, reserved: Option<OrderId>, answer: Answer)
    ensures Submit(x.(pendingCloses := pending), tag, reserved, answer)
         == Submit(x, tag, reserved, answer).(pendingCloses := pending)
  {
    var x' := x.(pendingCloses := pending);
    var y := if reserved.Some? then Register(x, reserved.value, tag) else x;
    var y' := if reserved.Some? then Register(x', reserved.value, tag) else x';
    assert y' == y.(pendingCloses := pending);
    if answer.Answered? {
      CompletionCommutes(y, pending, reserved, answer.status.orderId, tag);
      hide CompleteRegistration, Register;
    }
  }

  lemma MoveCommutes(x: Index, pending: map<PositionKey, OrderId>, src: OrderId, dst: OrderId)
    ensures MoveTracking(x.(pendingCloses := pending), src, dst) == MoveTracking(x, src, dst).(pendingCloses := pending)
  {
  }

  lemma RegisterCommutes(x: Index, pending: map<PositionKey, OrderId>, id: OrderId, tag: Tag)
    ensures Register(x.(pendingCloses := pending), id, tag) == Register(x, id, tag).(pendingCloses := pending)
  {
  }

  lemma CompletionCommutes(x: Index, pending: map<PositionKey, OrderId>, reserved: Option<OrderId>, id: OrderId, tag: Tag)
    ensures CompleteRegistration(x.(pendingCloses := pending), reserved, id, tag)
         == CompleteRegistration(x, reserved, id, tag).(pendingCloses := pending)
  {
    hide MoveTracking, Register;
    if reserved.Some? {
      MoveCommutes(x, pending, reserved.value, id);
      RegisterCommutes(MoveTracking(x, reserved.value, id), pending, id, tag);
    } else {
      RegisterCommutes(x, pending, id, tag);
    }
  }

  /** The reservation a close makes while it is being submitted leaves no trace. */
  lemma SubmitCloseIs(x: Index, key: PositionKey, closeKey: string, reserved: Option<OrderId>, answer: Answer, failing: set<OrderId>)
    requires key !in x.pendingCloses
    ensures var y := Submit(x, Tag(key.0, Close, key.2, None), reserved, answer);
            SubmitClose(x, key, closeKey, reserved, answer, failing)
            == if answer.Raised? || Unaccepted(answer.status) then y
               else CancelStops(AddClose(y, key, answer.status.orderId), key, failing)
  {
    var submitting := if reserved.Some? then reserved.value else "submitting:" + closeKey;
    SubmitCommutes(x, x.pendingCloses[key := submitting], Tag(key.0, Close, key.2, None), reserved, answer);
    hide Submit, CancelStops;
    assert x.pendingCloses[key := submitting] - {key} == x.pendingCloses;
    if answer.Answered? {
      assert x.pendingCloses[key := submitting][key := answer.status.orderId] == x.pendingCloses[key := answer.status.orderId];
    }
  }

  /** A submission that is not turned down leaves its id registered under its tag. */
  lemma SubmitRegisters(x: Index, tag: Tag, reserved: Option<OrderId>, status: OrderStatus, key: PositionKey)
    requires !Unaccepted(status) && Registered(x) && key.0 == tag.strategyId && key.2 == tag.tradeId
    ensures Holds(Submit(x, tag, reserved, Answered(status)), status.orderId, key, tag.role)
  {
    if reserved.Some? {
      var y := Register(x, reserved.value, tag);
      if reserved.value != status.orderId {
        MoveIsRegister(y, reserved.value, status.orderId);
        hide MoveTracking, ClearTracking;
      }
    }
  }

  lemma AddCloseKeeps(x: Index, key: PositionKey, id: OrderId)
    requires Indexed(x) && Idle(x, id) && key !in x.pendingCloses && Holds(x, id, key, Close)
    ensures Indexed(AddClose(x, key, id))
  {
    hide StopsIndexed;
  }

  lemma RequestCloseKeeps(x: Index, key: PositionKey, closeKey: string, reserved: Option<OrderId>, answer: Answer, failing: set<OrderId>)
    requires Indexed(x) && AllIdle(x, reserved, answer)
    ensures Indexed(RequestClose(x, key, closeKey, reserved, answer, failing))
  {
    if key !in x.pendingCloses {
      var tag := Tag(key.0, Close, key.2, None);
      SubmitCloseIs(x, key, closeKey, reserved, answer, failing);
      SubmitKeeps(x, tag, reserved, answer);
      if answer.Answered? && !Unaccepted(answer.status) {
        SubmitRegisters(x, tag, reserved, answer.status, key);
        hide Submit, SubmitClose, Indexed, WithoutStops, StopsIndexed;
        AddCloseKeeps(Submit(x, tag, reserved, answer), key, answer.status.orderId);
        var y := AddClose(Submit(x, tag, reserved, answer), key, answer.status.orderId);
        WithoutStopsKeeps(y, StopsOf(y, key) - failing);
        StopsAreIndexed(y);
        ClearEachIs(y, StopsOf(y, key), failing);
      }
    }
  }

  lemma StopsAreIndexed(x: Index)
    requires Indexed(x)
    ensures StopsIndexed(x.stopOrders, x.stopKeys, x.stopRequests)
  {
  }

  lemma NewRequestKeeps(x: Index, id: OrderId, order: OrderRequest)
    requires Indexed(x) && id in x.stopRequests
    ensures Indexed(x.(stopRequests := x.stopRequests[id := order]))
  {
    hide ClosesIndexed;
    assert x.stopRequests[id := order].Keys == x.stopRequests.Keys;
  }

  lemma EnsureStopKeeps(x: Index, key: PositionKey, quantity: int, price: real, u: StopUpdate)
    requires Indexed(x) && AllIdle(x, u.reserved, u.submitted)
    ensures Indexed(EnsureStop(x, key, quantity, price, u))
  {
    hide Indexed, SubmitStop, ClearStop, WithoutStops, StopsIndexed;
    var active := ActiveStop(x, key);
    if active.None? {
      SubmitStopKeeps(x, key, StopRequest(key, quantity, price, u.newKey), u.reserved, u.submitted);
    } else {
      StopsAreIndexed(x);
      ClearStopIsWithout(x, active.value);
      WithoutStopsKeeps(x, {active.value});
      NewRequestKeeps(x, active.value, StopRequest(key, quantity, price, x.stopRequests[active.value].idempotencyKey));
    }
  }

  lemma HandleFillKeeps(x: Index, fill: Fill, failing: set<OrderId>, stop: Option<StopAttempt>)
    requires Indexed(x) && (stop.Some? ==> AllIdle(x, stop.value.reserved, stop.value.answer))
    ensures Indexed(HandleFill(x, fill, failing, stop))
  {
    hide Indexed, WithoutStops, ClearPendingClose, ClearStop, SubmitStop, StopsIndexed;
    var id := fill.orderId;
    if id in x.role {
      var tradeId := if id in x.tradeId then x.tradeId[id] else None;
      var key := (if id in x.owner then x.owner[id] else "", fill.instrument, tradeId);
      match x.role[id]
      case Close =>
        ClearPendingCloseKeeps(x, id);
        var y := ClearPendingClose(x, id);
        WithoutStopsKeeps(y, StopsOf(y, key) - failing);
        StopsAreIndexed(y);
        ClearEachIs(y, StopsOf(y, key), failing);
      case ProtectiveStop =>
        StopsAreIndexed(x);
        ClearStopIsWithout(x, id);
        WithoutStopsKeeps(x, {id});
        var y := ClearStop(x, id);
        if key in y.pendingCloses { ClearPendingCloseKeeps(y, y.pendingCloses[key]); }
      case Entry =>
        if stop.Some? { SubmitStopKeeps(x, key, stop.value.order, stop.value.reserved, stop.value.answer); }
      case OtherRole(_) =>
    }
  }

  /** A rejected or cancelled order is idle once its close or stop entry is gone, whatever its id. */
  lemma HandleUpdateKeeps(x: Index, status: OrderStatus)
    requires Indexed(x)
    ensures Indexed(HandleUpdate(x, status))
  {
    var id := status.orderId;
    if Unaccepted(status) {
      ClearPendingCloseKeeps(x, id);
      ClearStopIsWithout(x, id);
      WithoutStopsKeeps(x, {id});
      assert id in x.closeKeys ==> id in x.role && x.role[id] == Close;
      assert id in x.stopKeys ==> id in x.role && x.role[id] == ProtectiveStop;
      var y := if id in x.role && x.role[id].Close? then ClearPendingClose(x, id)
               else if id in x.role && x.role[id].ProtectiveStop? then ClearStop(x, id)
               else x;
      assert Idle(y, id);
      hide Indexed, ClearStop, WithoutStops, ClearPendingClose;
      ClearTrackingKeeps(y, id);
    }
  }

  // ---------------------------------------------------------------- whole runs

  datatype Operation =
    | Submission(tag: Tag, reserved: Option<OrderId>, answer: Answer)
    | CloseRequest(key: PositionKey, closeKey: string, reserved: Option<OrderId>, answer: Answer, failing: set<OrderId>)
    | StopRequested(key: PositionKey, quantity: int, price: real, update: StopUpdate)
    | FillReceived(fill: Fill, failing: set<OrderId>, stop: Option<StopAttempt>)
    | UpdateReceived(status: OrderStatus)
    | SessionEnded(sessionOnly: set<StrategyId>, failing: set<OrderId>)

  function Step(x: Index, op: Operation): Index {
    match op
    case Submission(tag, reserved, answer) => Submit(x, tag, reserved, answer)
    case CloseRequest(key, closeKey, reserved, answer, failing) => RequestClose(x, key, closeKey, reserved, answer, failing)
    case StopRequested(key, quantity, price, update) => EnsureStop(x, key, quantity, price, update)
    case FillReceived(fill, failing, stop) => HandleFill(x, fill, failing, stop)
    case UpdateReceived(status) => HandleUpdate(x, status)
    case SessionEnded(sessionOnly, failing) => CancelSessionStops(x, sessionOnly, failing)
  }

  function Run(ops: seq<Operation>): Index {
    if ops == [] then EmptyIndex else Step(Run(ops[..|ops| - 1]), ops[|ops| - 1])
  }

  function Ids(reserved: Option<OrderId>, answer: Answer): set<OrderId> {
    (if reserved.Some? then {reserved.value} else {}) + (if answer.Answered? then {answer.status.orderId} else {})
  }

  /** The order ids the broker hands out during an operation. */
  function HandedOut(op: Operation): set<OrderId> {
    match op
    case Submission(_, reserved, answer) => Ids(reserved, answer)
    case CloseRequest(_, _, reserved, answer, _) => Ids(reserved, answer)
    case StopRequested(_, _, _, update) => Ids(update.reserved, update.submitted)
    case FillReceived(_, _, stop) => if stop.Some? then Ids(stop.value.reserved, stop.value.answer) else {}
    case UpdateReceived(_) => {}
    case SessionEnded(_, _) => {}
  }

  function HandedOutBy(ops: seq<Operation>): set<OrderId> {
    if ops == [] then {} else HandedOutBy(ops[..|ops| - 1]) + HandedOut(ops[|ops| - 1])
  }

  ghost predicate NeverReuses(ops: seq<Operation>) {
    forall n :: 0 <= n < |ops| ==> HandedOutBy(ops[..n]) !! HandedOut(ops[n])
  }

  function Live(x: Index): set<OrderId> {
    x.stopKeys.Keys + x.closeKeys.Keys
  }

  lemma StepKeeps(x: Index, op: Operation)
    requires Indexed(x) && Live(x) !! HandedOut(op)
    ensures Indexed(Step(x, op))
  {
    hide Indexed;
    match op
    case Submission(tag, reserved, answer) => SubmitKeeps(x, tag, reserved, answer);
    case CloseRequest(key, closeKey, reserved, answer, failing) => RequestCloseKeeps(x, key, closeKey, reserved, answer, failing);
    case StopRequested(key, quantity, price, update) => EnsureStopKeeps(x, key, quantity, price, update);
    case FillReceived(fill, failing, stop) => HandleFillKeeps(x, fill, failing, stop);
    case UpdateReceived(status) => HandleUpdateKeeps(x, status);
    case SessionEnded(sessionOnly, failing) =>
      WithoutStopsKeeps(x, SessionStops(x, sessionOnly) - failing);
      StopsAreIndexed(x);
      ClearEachIs(x, SessionStops(x, sessionOnly), failing);
  }

  lemma SubmitStopLive(x: Index, key: PositionKey, order: OrderRequest, reserved: Option<OrderId>, answer: Answer)
    ensures Live(SubmitStop(x, key, order, reserved, answer)) <= Live(x) + Ids(reserved, answer)
  {
    hide CompleteRegistration, Register, ClearTracking;
  }

  lemma RequestCloseLive(x: Index, key: PositionKey, closeKey: string, reserved: Option<OrderId>, answer: Answer, failing: set<OrderId>)
    ensures Live(RequestClose(x, key, closeKey, reserved, answer, failing)) <= Live(x) + Ids(reserved, answer)
  {
    hide Submit, WithoutStops;
  }

  lemma EnsureStopLive(x: Index, key: PositionKey, quantity: int, price: real, u: StopUpdate)
    ensures Live(EnsureStop(x, key, quantity, price, u)) <= Live(x) + Ids(u.reserved, u.submitted)
  {
    hide SubmitStop, ClearStop, ActiveStop, StopRequest, Improves, Ids;
    var active := ActiveStop(x, key);
    if active.None? {
      SubmitStopLive(x, key, StopRequest(key, quantity, price, u.newKey), u.reserved, u.submitted);
    } else {
      assert Live(ClearStop(x, active.value)) <= Live(x);
    }
  }

  lemma HandleFillLive(x: Index, fill: Fill, failing: set<OrderId>, stop: Option<StopAttempt>)
    ensures Live(HandleFill(x, fill, failing, stop)) <= Live(x) + HandedOut(FillReceived(fill, failing, stop))
  {
    hide SubmitStop, ClearStop, ClearPendingClose, WithoutStops;
    if fill.orderId in x.role && fill.orderId in x.owner && stop.Some? {
      var tradeId := if fill.orderId in x.tradeId then x.tradeId[fill.orderId] else None;
      SubmitStopLive(x, (x.owner[fill.orderId], fill.instrument, tradeId), stop.value.order, stop.value.reserved, stop.value.answer);
    }
  }

  /** Only ids handed out in an operation become live in it. */
  lemma StepLive(x: Index, op: Operation)
    ensures Live(Step(x, op)) <= Live(x) + HandedOut(op)
  {
    hide Submit, RequestClose, EnsureStop, HandleFill, WithoutStops, ClearStop, ClearPendingClose, ClearTracking;
    match op
    case Submission(tag, reserved, answer) =>
    case CloseRequest(key, closeKey, reserved, answer, failing) => RequestCloseLive(x, key, closeKey, reserved, answer, failing);
    case StopRequested(key, quantity, price, update) => EnsureStopLive(x, key, quantity, price, update);
    case FillReceived(fill, failing, stop) => HandleFillLive(x, fill, failing, stop);
    case UpdateReceived(status) =>
    case SessionEnded(sessionOnly, failing) =>
  }

  /** With a broker that never hands out an id twice, every reachable state is indexed. */
  lemma {:induction false} RunsIndexed(ops: seq<Operation>)
    requires NeverReuses(ops)
    ensures Indexed(Run(ops))
    ensures Live(Run(ops)) <= HandedOutBy(ops)
  {
    hide Indexed, Step, HandedOut, Live;
    if ops == [] {
      EmptyIndexed();
    } else {
      var init, op := ops[..|ops| - 1], ops[|ops| - 1];
      forall n | 0 <= n < |init| ensures HandedOutBy(init[..n]) !! HandedOut(init[n]) {
        assert init[..n] == ops[..n];
      }
      assert HandedOutBy(ops[..|ops| - 1]) !! HandedOut(ops[|ops| - 1]);
      RunsIndexed(init);
      StepKeeps(Run(init), op);
      StepLive(Run(init), op);
    }
  }

  lemma EmptyIndexed()
    ensures Indexed(EmptyIndex) && Live(EmptyIndex) == {}
  {
  }
}
