/**
 Order ids that a broker hands out more than once. For every operation: exactly
 which ids, reserved or answered, leave the order index intact.
 */
module OrderReuse {
  import opened Types
  import opened OrderIndex
  import opened Sorting

  function Reserved(reserved: Option<OrderId>): set<OrderId> {
    if reserved.Some? then {reserved.value} else {}
  }

  /** Ids whose tracking a submission ends up dropping. */
  function Forgotten(reserved: Option<OrderId>, answer: Answer): set<OrderId> {
    match answer
    case Raised => Reserved(reserved)
    case Answered(status) =>
      if Unaccepted(status) then Reserved(reserved) + {status.orderId} else Reserved(reserved) - {status.orderId}
  }

  predicate Accepted(answer: Answer) { answer.Answered? && !Unaccepted(answer.status) }

  predicate NoneLive(x: Index, ids: set<OrderId>) { ids !! Live(x) }

  /** What the id already stands for, if it is live, is what the tag says. */
  predicate Fits(x: Index, id: OrderId, tag: Tag) {
    && (id in x.stopKeys ==>
          tag.role.ProtectiveStop? && tag.strategyId == x.stopKeys[id].0 && tag.tradeId == x.stopKeys[id].2)
    && (id in x.closeKeys ==>
          tag.role.Close? && tag.strategyId == x.closeKeys[id].0 && tag.tradeId == x.closeKeys[id].2)
  }

  // ---------------------------------------------------------------- submissions

  /** A state that differs from another in what it has registered: some ids gone, at most one set. */
  ghost predicate Retracked(x: Index, y: Index, gone: set<OrderId>, set': Option<(OrderId, Tag)>) {
    && SameLists(x, y)
    && Registered(y)
    && y.owner == (if set'.Some? then (x.owner - gone)[set'.value.0 := set'.value.1.strategyId] else x.owner - gone)
    && y.role == (if set'.Some? then (x.role - gone)[set'.value.0 := set'.value.1.role] else x.role - gone)
    && y.tradeId == (if set'.Some? then (x.tradeId - gone)[set'.value.0 := set'.value.1.tradeId] else x.tradeId - gone)
  }

  lemma RegisterThenMove(x: Index, r: OrderId, id: OrderId, tag: Tag)
    requires Registered(x) && r != id
    ensures Retracked(x, MoveTracking(Register(x, r, tag), r, id), {r}, Some((id, tag)))
  {
    var w := Register(x, r, tag);
    RegisterCleared(x, r, tag);
    MovedTag(x, r, id, tag);
    hide MoveTracking, ClearTracking, Register, Retracked;
    var pct := if r in w.stopPct then w.stopPct[r] else None;
    RegisteredOn(x, ClearTracking(w, r), {r}, id, tag, pct);
  }

  lemma MovedTag(x: Index, r: OrderId, id: OrderId, tag: Tag)
    requires Registered(x) && r != id
    ensures var w := Register(x, r, tag);
            MoveTracking(w, r, id)
            == Register(ClearTracking(w, r), id, tag.(stopPct := if r in w.stopPct then w.stopPct[r] else None))
  {
    MoveIsRegister(Register(x, r, tag), r, id);
    hide MoveTracking, ClearTracking;
  }

  lemma RegisteredOn(x: Index, c: Index, gone: set<OrderId>, id: OrderId, tag: Tag, pct: Option<real>)
    requires Retracked(x, c, gone, None)
    ensures Retracked(x, Register(c, id, tag.(stopPct := pct)), gone, Some((id, tag)))
  {
  }

  lemma RegisterCleared(x: Index, r: OrderId, tag: Tag)
    requires Registered(x)
    ensures Retracked(x, ClearTracking(Register(x, r, tag), r), {r}, None)
  {
    assert x.owner[r := tag.strategyId] - {r} == x.owner - {r};
    assert x.role[r := tag.role] - {r} == x.role - {r};
    assert x.tradeId[r := tag.tradeId] - {r} == x.tradeId - {r};
  }

  lemma ClearedAfter(x: Index, y: Index, gone: set<OrderId>, id: OrderId, tag: Tag)
    requires Retracked(x, y, gone, Some((id, tag)))
    ensures Retracked(x, ClearTracking(y, id), gone + {id}, None)
  {
    assert (x.owner - gone)[id := tag.strategyId] - {id} == x.owner - (gone + {id});
    assert (x.role - gone)[id := tag.role] - {id} == x.role - (gone + {id});
    assert (x.tradeId - gone)[id := tag.tradeId] - {id} == x.tradeId - (gone + {id});
  }

  lemma CompletionIs(x: Index, tag: Tag, reserved: Option<OrderId>, id: OrderId)
    requires Registered(x)
    ensures var w := if reserved.Some? then Register(x, reserved.value, tag) else x;
            Retracked(x, CompleteRegistration(w, reserved, id, tag), Reserved(reserved) - {id}, Some((id, tag)))
  {
    if reserved.Some? && reserved.value != id {
      RegisterThenMove(x, reserved.value, id, tag);
      hide MoveTracking;
      assert Reserved(reserved) - {id} == {reserved.value};
    } else {
      assert Reserved(reserved) - {id} == {};
      assert x.owner - {} == x.owner && x.role - {} == x.role && x.tradeId - {} == x.tradeId;
    }
  }

  function Outcome(tag: Tag, answer: Answer): Option<(OrderId, Tag)> {
    if Accepted(answer) then Some((answer.status.orderId, tag)) else None
  }

  /** A submission drops the forgotten ids and registers an accepted one. */
  lemma SubmitIs(x: Index, tag: Tag, reserved: Option<OrderId>, answer: Answer)
    requires Registered(x)
    ensures Retracked(x, Submit(x, tag, reserved, answer), Forgotten(reserved, answer), Outcome(tag, answer))
  {
    match answer
    case Raised =>
      assert x.owner - {} == x.owner && x.role - {} == x.role && x.tradeId - {} == x.tradeId;
      if reserved.Some? { RegisterCleared(x, reserved.value, tag); }
    case Answered(status) =>
      CompletionIs(x, tag, reserved, status.orderId);
      var w := if reserved.Some? then Register(x, reserved.value, tag) else x;
      var z := CompleteRegistration(w, reserved, status.orderId, tag);
      hide CompleteRegistration, Register;
      if Unaccepted(status) {
        ClearedAfter(x, z, Reserved(reserved) - {status.orderId}, status.orderId, tag);
        assert Reserved(reserved) - {status.orderId} + {status.orderId} == Reserved(reserved) + {status.orderId};
      }
  }

  lemma HoldsElsewhere(x: Index, y: Index, gone: set<OrderId>, set': Option<(OrderId, Tag)>, id: OrderId, key: PositionKey, role: Role)
    requires Retracked(x, y, gone, set') && (set'.Some? ==> set'.value.0 !in gone)
    ensures Holds(y, id, key, role)
         == if set'.Some? && id == set'.value.0
            then set'.value.1.strategyId == key.0 && set'.value.1.role == role && set'.value.1.tradeId == key.2
            else id !in gone && Holds(x, id, key, role)
  {
  }

  lemma LiveHeld(y: Index, id: OrderId)
    requires Indexed(y)
    ensures id in y.stopKeys ==> Holds(y, id, y.stopKeys[id], ProtectiveStop)
    ensures id in y.closeKeys ==> Holds(y, id, y.closeKeys[id], Close)
  {
  }

  lemma RetrackedIff(x: Index, y: Index, gone: set<OrderId>, set': Option<(OrderId, Tag)>)
    requires Indexed(x) && Retracked(x, y, gone, set') && (set'.Some? ==> set'.value.0 !in gone)
    ensures Indexed(y) <==> NoneLive(x, gone) && (set'.Some? ==> Fits(x, set'.value.0, set'.value.1))
  {
    forall id, key, role
      ensures Holds(y, id, key, role)
           == if set'.Some? && id == set'.value.0
              then set'.value.1.strategyId == key.0 && set'.value.1.role == role && set'.value.1.tradeId == key.2
              else id !in gone && Holds(x, id, key, role)
    {
      HoldsElsewhere(x, y, gone, set', id, key, role);
    }
    hide StopsIndexed, ClosesIndexed, Holds;
    if Indexed(y) {
      forall id | id in gone ensures id !in Live(x) {
        LiveHeld(y, id);
      }
      if set'.Some? {
        LiveHeld(y, set'.value.0);
      }
    } else if NoneLive(x, gone) {
      assert forall id :: id in x.stopKeys ==> id in Live(x);
      assert forall id :: id in x.closeKeys ==> id in Live(x);
    }
  }

  /**
   A submission of any kind keeps the index exactly when the ids it forgets are
   not live and the id it is answered with, if live, already stands for it.
   */
  lemma SubmitIdReuse(x: Index, tag: Tag, reserved: Option<OrderId>, answer: Answer)
    requires Indexed(x)
    ensures Indexed(Submit(x, tag, reserved, answer))
            <==> NoneLive(x, Forgotten(reserved, answer)) && (Accepted(answer) ==> Fits(x, answer.status.orderId, tag))
  {
    hide Indexed, Submit, Retracked, NoneLive, Fits;
    IndexedParts(x);
    SubmitIs(x, tag, reserved, answer);
    RetrackedIff(x, Submit(x, tag, reserved, answer), Forgotten(reserved, answer), Outcome(tag, answer));
  }

  lemma IndexedParts(x: Index)
    requires Indexed(x)
    ensures Registered(x) && StopsIndexed(x.stopOrders, x.stopKeys, x.stopRequests) && ClosesIndexed(x.pendingCloses, x.closeKeys)
  {
  }

  // ---------------------------------------------------------------- stops

  function StopTag(key: PositionKey): Tag { Tag(key.0, ProtectiveStop, key.2, None) }

  predicate Resting(answer: Answer) { Accepted(answer) && !answer.status.status.Filled? }

  /** Registering a stop's id again under the same tag changes nothing. */
  lemma RegisteredTwice(x: Index, z: Index, gone: set<OrderId>, id: OrderId, key: PositionKey)
    requires Retracked(x, z, gone, Some((id, StopTag(key))))
    ensures Register(z, id, StopTag(key)) == z
  {
    assert z.owner[id := key.0] == z.owner && z.role[id := ProtectiveStop] == z.role && z.tradeId[id := key.2] == z.tradeId;
  }

  /** A stop submission is a submission, and lists the stop if it rests at the broker. */
  lemma SubmitStopIs(x: Index, key: PositionKey, order: OrderRequest, reserved: Option<OrderId>, answer: Answer)
    requires Registered(x)
    ensures SubmitStop(x, key, order, reserved, answer)
         == if Resting(answer) then AddStop(Submit(x, StopTag(key), reserved, answer), key, answer.status.orderId, order)
            else Submit(x, StopTag(key), reserved, answer)
  {
    if answer.Answered? {
      var id, tag := answer.status.orderId, StopTag(key);
      CompletionIs(x, tag, reserved, id);
      var w := if reserved.Some? then Register(x, reserved.value, tag) else x;
      RegisteredTwice(x, CompleteRegistration(w, reserved, id, tag), Reserved(reserved) - {id}, id, key);
      hide CompleteRegistration, AddStop;
    }
  }

  /** Listing a stop id, live or not, under a position. */
  lemma AddStopIff(x: Index, y: Index, gone: set<OrderId>, key: PositionKey, id: OrderId, order: OrderRequest)
    requires Indexed(x) && Retracked(x, y, gone, Some((id, StopTag(key)))) && id !in gone
    ensures Indexed(AddStop(y, key, id, order))
            <==> NoneLive(x, gone) && id !in x.closeKeys && (id in x.stopKeys ==> x.stopKeys[id] == key)
  {
    if NoneLive(x, gone) && id !in x.closeKeys && (id in x.stopKeys ==> x.stopKeys[id] == key) {
      RetrackedIff(x, y, gone, Some((id, StopTag(key))));
      AddedIndexed(y, key, id, order);
    }
    if Indexed(AddStop(y, key, id, order)) {
      AddedOnly(x, y, gone, key, id, order);
    }
  }

  lemma AddedIndexed(y: Index, key: PositionKey, id: OrderId, order: OrderRequest)
    requires Indexed(y) && Holds(y, id, key, ProtectiveStop)
    requires id !in y.closeKeys && (id in y.stopKeys ==> y.stopKeys[id] == key)
    ensures Indexed(AddStop(y, key, id, order))
  {
    if id in y.stopKeys {
      assert y.stopOrders[key] + {id} == y.stopOrders[key];
      assert y.stopOrders[key := y.stopOrders[key]] == y.stopOrders;
      assert y.stopKeys[id := key] == y.stopKeys;
      assert AddStop(y, key, id, order) == y.(stopRequests := y.stopRequests[id := order]);
      NewRequestKeeps(y, id, order);
    } else {
      AddStopKeeps(y, key, id, order);
    }
  }

  lemma AddedOnly(x: Index, y: Index, gone: set<OrderId>, key: PositionKey, id: OrderId, order: OrderRequest)
    requires Indexed(x) && Retracked(x, y, gone, Some((id, StopTag(key)))) && id !in gone
    requires Indexed(AddStop(y, key, id, order))
    ensures NoneLive(x, gone) && id !in x.closeKeys && (id in x.stopKeys ==> x.stopKeys[id] == key)
  {
    var z := AddStop(y, key, id, order);
    forall j | j in gone ensures j !in Live(x) {
      LiveHeld(z, j);
    }
    LiveHeld(z, id);
    if id in x.stopKeys && x.stopKeys[id] != key {
      ListedTwice(x, key, id, StopsOf(x, key) + {id}, x.stopRequests[id := order]);
    }
  }

  lemma Listed(orders: map<PositionKey, set<OrderId>>, keys: map<OrderId, PositionKey>,
               requests: map<OrderId, OrderRequest>, k: PositionKey, id: OrderId)
    requires StopsIndexed(orders, keys, requests) && k in orders && id in orders[k]
    ensures id in keys && keys[id] == k
  {
  }

  /** A stop cannot be listed under two positions. */
  lemma ListedTwice(x: Index, key: PositionKey, id: OrderId, ids: set<OrderId>, requests: map<OrderId, OrderRequest>)
    requires StopsIndexed(x.stopOrders, x.stopKeys, x.stopRequests) && id in x.stopKeys && x.stopKeys[id] != key
    ensures !StopsIndexed(x.stopOrders[key := ids], x.stopKeys[id := key], requests)
  {
    var was, orders, keys := x.stopKeys[id], x.stopOrders[key := ids], x.stopKeys[id := key];
    assert id in x.stopOrders[was] && orders[was] == x.stopOrders[was];
    assert was in orders && id in orders[was] && keys[id] == key;
    if StopsIndexed(orders, keys, requests) {
      Listed(orders, keys, requests, was, id);
      assert false;
    }
  }

  /**
   A stop submission keeps the index exactly when the ids it forgets are not
   live and its own id is no live close and, if the stop rests, no live stop of
   another position; if it fills at once, no live stop of another trade.
   */
  lemma StopIdReuse(x: Index, key: PositionKey, order: OrderRequest, reserved: Option<OrderId>, answer: Answer)
    requires Indexed(x)
    ensures Indexed(SubmitStop(x, key, order, reserved, answer)) <==> StopHarmless(x, key, reserved, answer)
  {
    hide Indexed, Submit, SubmitStop, Retracked, NoneLive, AddStop;
    IndexedParts(x);
    SubmitStopIs(x, key, order, reserved, answer);
    if Resting(answer) {
      SubmitIs(x, StopTag(key), reserved, answer);
      AddStopIff(x, Submit(x, StopTag(key), reserved, answer), Forgotten(reserved, answer), key, answer.status.orderId, order);
    } else {
      SubmitIdReuse(x, StopTag(key), reserved, answer);
    }
  }

  predicate SubmitHarmless(x: Index, tag: Tag, reserved: Option<OrderId>, answer: Answer) {
    NoneLive(x, Forgotten(reserved, answer)) && (Accepted(answer) ==> Fits(x, answer.status.orderId, tag))
  }

  predicate StopHarmless(x: Index, key: PositionKey, reserved: Option<OrderId>, answer: Answer) {
    && NoneLive(x, Forgotten(reserved, answer))
    && (Accepted(answer) ==>
          var id := answer.status.orderId;
          if Resting(answer) then id !in x.closeKeys && (id in x.stopKeys ==> x.stopKeys[id] == key)
          else Fits(x, id, StopTag(key)))
  }

  // ---------------------------------------------------------------- closes

  function CloseTag(key: PositionKey): Tag { Tag(key.0, Close, key.2, None) }

  /** No live close, and no live stop but one of the position that the close manages to cancel. */
  predicate Freed(x: Index, key: PositionKey, failing: set<OrderId>, id: OrderId) {
    id !in x.closeKeys && (id in x.stopKeys ==> x.stopKeys[id] == key && id !in failing)
  }

  predicate CloseHarmless(x: Index, key: PositionKey, reserved: Option<OrderId>, answer: Answer, failing: set<OrderId>) {
    key in x.pendingCloses
    || if Accepted(answer) then forall id :: id in Ids(reserved, answer) ==> Freed(x, key, failing, id)
       else NoneLive(x, Forgotten(reserved, answer))
  }

  /** Cancelling the position's stops and listing the close, in either order. */
  lemma CancelledFirst(x: Index, y: Index, gone: set<OrderId>, key: PositionKey, id: OrderId, failing: set<OrderId>)
    requires Indexed(x) && Retracked(x, y, gone, Some((id, CloseTag(key))))
    ensures var ids := StopsOf(x, key) - failing;
            && CancelStops(AddClose(y, key, id), key, failing) == AddClose(WithoutStops(y, ids), key, id)
            && Retracked(WithoutStops(x, ids), WithoutStops(y, ids), gone, Some((id, CloseTag(key))))
  {
    IndexedParts(x);
    var w := AddClose(y, key, id);
    ClearEachIs(w, StopsOf(w, key), failing);
    hide ClearEach, Indexed;
  }

  lemma CloseAddedIff(x: Index, y: Index, gone: set<OrderId>, key: PositionKey, id: OrderId, failing: set<OrderId>)
    requires Indexed(x) && Retracked(x, y, gone, Some((id, CloseTag(key)))) && id !in gone && key !in x.pendingCloses
    ensures Indexed(CancelStops(AddClose(y, key, id), key, failing))
            <==> forall j :: j in gone + {id} ==> Freed(x, key, failing, j)
  {
    var ids := StopsOf(x, key) - failing;
    CancelledFirst(x, y, gone, key, id, failing);
    WithoutStopsKeeps(x, ids);
    var x', y' := WithoutStops(x, ids), WithoutStops(y, ids);
    forall j ensures Idle(x', j) <==> Freed(x, key, failing, j) {
      StillListed(x, key, failing, j);
    }
    hide *;
    AddedCloseIff(x', y', gone, key, id);
  }

  /** Listing a close for a position without one, when its id may be live. */
  lemma AddedCloseIff(x: Index, y: Index, gone: set<OrderId>, key: PositionKey, id: OrderId)
    requires Indexed(x) && Retracked(x, y, gone, Some((id, CloseTag(key)))) && id !in gone && key !in x.pendingCloses
    ensures Indexed(AddClose(y, key, id)) <==> forall j :: j in gone + {id} ==> Idle(x, j)
  {
    hide Indexed, StopsIndexed, ClosesIndexed;
    if forall j :: j in gone + {id} ==> Idle(x, j) {
      assert Idle(x, id) && Idle(y, id);
      assert NoneLive(x, gone) by {
        forall j | j in gone ensures j !in Live(x) { assert Idle(x, j); }
      }
      RetrackedIff(x, y, gone, Some((id, CloseTag(key))));
      assert Indexed(y) && Holds(y, id, key, Close);
      AddCloseKeeps(y, key, id);
    }
    if Indexed(AddClose(y, key, id)) {
      CloseAddedOnly(x, y, gone, key, id);
    }
  }

  lemma StillListed(x: Index, key: PositionKey, failing: set<OrderId>, j: OrderId)
    requires Indexed(x)
    ensures Idle(WithoutStops(x, StopsOf(x, key) - failing), j) <==> Freed(x, key, failing, j)
  {
    hide ClosesIndexed, Owned, Registered;
    assert j in StopsOf(x, key) <==> j in x.stopKeys && x.stopKeys[j] == key;
  }

  /** An order cannot be the pending close of two positions. */
  lemma ClosedTwice(pending: map<PositionKey, OrderId>, keys: map<OrderId, PositionKey>, key: PositionKey, id: OrderId)
    requires ClosesIndexed(pending, keys) && id in keys && key !in pending
    ensures !ClosesIndexed(pending[key := id], keys[id := key])
  {
    var was := keys[id];
    assert was in pending[key := id] && pending[key := id][was] == id && was != key;
  }

  lemma CloseAddedOnly(x: Index, y: Index, gone: set<OrderId>, key: PositionKey, id: OrderId)
    requires Indexed(x) && Retracked(x, y, gone, Some((id, CloseTag(key)))) && id !in gone && key !in x.pendingCloses
    requires Indexed(AddClose(y, key, id))
    ensures forall j :: j in gone + {id} ==> Idle(x, j)
  {
    var z := AddClose(y, key, id);
    if id in x.closeKeys {
      ClosedTwice(x.pendingCloses, x.closeKeys, key, id);
    }
    forall j | j in gone + {id} ensures Idle(x, j) {
      LiveHeld(z, j);
    }
  }

  /** A close request keeps the index exactly when nothing is submitted, or its ids are free once its stops are cancelled. */
  lemma CloseIdReuse(x: Index, key: PositionKey, closeKey: string, reserved: Option<OrderId>, answer: Answer, failing: set<OrderId>)
    requires Indexed(x)
    ensures Indexed(RequestClose(x, key, closeKey, reserved, answer, failing)) <==> CloseHarmless(x, key, reserved, answer, failing)
  {
    hide Indexed, Submit, SubmitClose, Retracked, NoneLive, AddClose, CancelStops, Freed;
    if key !in x.pendingCloses {
      IndexedParts(x);
      SubmitCloseIs(x, key, closeKey, reserved, answer, failing);
      var y := Submit(x, CloseTag(key), reserved, answer);
      if Accepted(answer) {
        SubmitIs(x, CloseTag(key), reserved, answer);
        CloseAddedIff(x, y, Forgotten(reserved, answer), key, answer.status.orderId, failing);
        assert Forgotten(reserved, answer) + {answer.status.orderId} == Ids(reserved, answer);
      } else {
        SubmitIdReuse(x, CloseTag(key), reserved, answer);
      }
    }
  }

  // ---------------------------------------------------------------- every operation

  /** An update with a stop already listed submits nothing, and a modify's answer names no id. */
  predicate UpdateHarmless(x: Index, key: PositionKey, u: StopUpdate) {
    ActiveStop(x, key).None? ==> StopHarmless(x, key, u.reserved, u.submitted)
  }

  lemma StopUpdateIdReuse(x: Index, key: PositionKey, quantity: int, price: real, u: StopUpdate)
    requires Indexed(x)
    ensures Indexed(EnsureStop(x, key, quantity, price, u)) <==> UpdateHarmless(x, key, u)
  {
    hide Indexed, SubmitStop, ClearStop, WithoutStops, StopsIndexed, StopHarmless, Improves;
    var active := ActiveStop(x, key);
    if active.None? {
      StopIdReuse(x, key, StopRequest(key, quantity, price, u.newKey), u.reserved, u.submitted);
    } else {
      StopsAreIndexed(x);
      ClearStopIsWithout(x, active.value);
      WithoutStopsKeeps(x, {active.value});
      NewRequestKeeps(x, active.value, StopRequest(key, quantity, price, x.stopRequests[active.value].idempotencyKey));
    }
  }

  /** The position a fill is attributed to. */
  function FilledKey(x: Index, fill: Fill): PositionKey {
    (if fill.orderId in x.owner then x.owner[fill.orderId] else "", fill.instrument,
     if fill.orderId in x.tradeId then x.tradeId[fill.orderId] else None)
  }

  predicate Enters(x: Index, fill: Fill) {
    fill.orderId in x.role && x.role[fill.orderId].Entry? && fill.orderId in x.owner
  }

  predicate FillHarmless(x: Index, fill: Fill, stop: Option<StopAttempt>) {
    Enters(x, fill) && stop.Some? ==> StopHarmless(x, FilledKey(x, fill), stop.value.reserved, stop.value.answer)
  }

  lemma FillIdReuse(x: Index, fill: Fill, failing: set<OrderId>, stop: Option<StopAttempt>)
    requires Indexed(x)
    ensures Indexed(HandleFill(x, fill, failing, stop)) <==> FillHarmless(x, fill, stop)
  {
    hide Indexed, WithoutStops, ClearPendingClose, ClearStop, SubmitStop, StopsIndexed, StopHarmless, CancelStops, CancelClose;
    if Enters(x, fill) && stop.Some? {
      StopIdReuse(x, FilledKey(x, fill), stop.value.order, stop.value.reserved, stop.value.answer);
    } else {
      HandleFillKeeps(x, fill, failing, None);
    }
  }

  /** What an operation may be answered with, in a given state. */
  predicate Harmless(x: Index, op: Operation) {
    match op
    case Submission(tag, reserved, answer) => SubmitHarmless(x, tag, reserved, answer)
    case CloseRequest(key, _, reserved, answer, failing) => CloseHarmless(x, key, reserved, answer, failing)
    case StopRequested(key, _, _, update) => UpdateHarmless(x, key, update)
    case FillReceived(fill, _, stop) => FillHarmless(x, fill, stop)
    case UpdateReceived(_) => true
    case SessionEnded(_, _) => true
  }

  /** Every operation keeps the index exactly when its ids are harmless in the state it meets. */
  lemma StepKeepsIff(x: Index, op: Operation)
    requires Indexed(x)
    ensures Indexed(Step(x, op)) <==> Harmless(x, op)
  {
    hide Indexed, SubmitHarmless, CloseHarmless, UpdateHarmless, FillHarmless, Submit, RequestClose, EnsureStop, HandleFill, HandleUpdate, CancelSessionStops;
    match op
    case Submission(tag, reserved, answer) =>
      SubmitIdReuse(x, tag, reserved, answer);
      SubmitHarmlessIs(x, tag, reserved, answer);
    case CloseRequest(key, closeKey, reserved, answer, failing) => CloseIdReuse(x, key, closeKey, reserved, answer, failing);
    case StopRequested(key, quantity, price, update) => StopUpdateIdReuse(x, key, quantity, price, update);
    case FillReceived(fill, failing, stop) => FillIdReuse(x, fill, failing, stop);
    case UpdateReceived(status) => HandleUpdateKeeps(x, status);
    case SessionEnded(sessionOnly, failing) => StepKeeps(x, op);
  }

  lemma SubmitHarmlessIs(x: Index, tag: Tag, reserved: Option<OrderId>, answer: Answer)
    ensures SubmitHarmless(x, tag, reserved, answer)
            <==> NoneLive(x, Forgotten(reserved, answer)) && (Accepted(answer) ==> Fits(x, answer.status.orderId, tag))
  {
  }

  // ---------------------------------------------------------------- every run

  ghost predicate AlwaysIndexed(ops: seq<Operation>) {
    forall n: nat :: n <= |ops| ==> Indexed(Run(ops[..n]))
  }

  ghost predicate AlwaysHarmless(ops: seq<Operation>) {
    forall n: nat :: n < |ops| ==> Harmless(Run(ops[..n]), ops[n])
  }

  /** A run keeps the index throughout exactly when every operation's ids are harmless where they come in. */
  lemma {:induction false} RunsIndexedIff(ops: seq<Operation>)
    ensures AlwaysIndexed(ops) <==> AlwaysHarmless(ops)
  {
    hide Indexed, Harmless, Step;
    if ops == [] {
      EmptyIndexed();
    } else {
      var init, op := ops[..|ops| - 1], ops[|ops| - 1];
      RunsIndexedIff(init);
      assert ops[..|ops|] == ops;
      forall n: nat | n <= |init| ensures init[..n] == ops[..n] {
      }
      OneMoreOperation(ops);
      if Indexed(Run(init)) {
        StepKeepsIff(Run(init), op);
      }
    }
  }

  lemma OneMoreOperation(ops: seq<Operation>)
    requires ops != []
    ensures var init := ops[..|ops| - 1];
            && (AlwaysIndexed(ops) <==> AlwaysIndexed(init) && Indexed(Run(ops)))
            && (AlwaysHarmless(ops) <==> AlwaysHarmless(init) && Harmless(Run(init), ops[|ops| - 1]))
            && (AlwaysIndexed(init) ==> Indexed(Run(init)))
  {
    hide Indexed, Harmless, Run;
    var init := ops[..|ops| - 1];
    assert ops[..|ops|] == ops && init[..|init|] == init;
    assert forall n: nat :: n <= |init| ==> init[..n] == ops[..n];
    if AlwaysIndexed(ops) {
      forall n: nat | n <= |init| ensures Indexed(Run(init[..n])) {
        assert Indexed(Run(ops[..n]));
      }
      assert Indexed(Run(ops[..|ops|]));
    }
    if AlwaysIndexed(init) && Indexed(Run(ops)) {
      forall n: nat | n <= |ops| ensures Indexed(Run(ops[..n])) {
        assert n <= |init| ==> Indexed(Run(init[..n]));
      }
    }
    if AlwaysHarmless(ops) {
      forall n: nat | n < |init| ensures Harmless(Run(init[..n]), init[n]) {
        assert Harmless(Run(ops[..n]), ops[n]);
      }
      assert Harmless(Run(ops[..|init|]), ops[|init|]);
    }
    if AlwaysHarmless(init) && Harmless(Run(init), ops[|ops| - 1]) {
      forall n: nat | n < |ops| ensures Harmless(Run(ops[..n]), ops[n]) {
        assert n < |init| ==> Harmless(Run(init[..n]), init[n]);
      }
    }
    assert AlwaysIndexed(init) ==> Indexed(Run(init[..|init|]));
  }

  // ---------------------------------------------------------------- ids that always stand for the same

  /** The position and role an order id is used for, whenever it is used. */
  datatype Meaning = Meaning(key: PositionKey, role: Role)

  type Meanings = OrderId -> Meaning

  predicate Plain(reserved: Option<OrderId>, answer: Answer) { reserved.None? && Accepted(answer) }

  /** Nothing is reserved or turned down, and the id answered is used for what it means. */
  predicate AsMeant(means: Meanings, x: Index, op: Operation) {
    match op
    case Submission(tag, reserved, answer) =>
      Plain(reserved, answer)
      && var m := means(answer.status.orderId);
         m.role == tag.role && m.key.0 == tag.strategyId && m.key.2 == tag.tradeId
    case CloseRequest(key, _, reserved, answer, _) =>
      key !in x.pendingCloses ==> Plain(reserved, answer) && means(answer.status.orderId) == Meaning(key, Close)
    case StopRequested(key, _, _, u) =>
      ActiveStop(x, key).None? ==> Plain(u.reserved, u.submitted) && means(u.submitted.status.orderId) == Meaning(key, ProtectiveStop)
    case FillReceived(fill, _, stop) =>
      Enters(x, fill) && stop.Some? ==>
        Plain(stop.value.reserved, stop.value.answer)
        && means(stop.value.answer.status.orderId) == Meaning(FilledKey(x, fill), ProtectiveStop)
    case UpdateReceived(_) => true
    case SessionEnded(_, _) => true
  }

  /** Live ids are in use for what they mean. */
  predicate Meaningful(means: Meanings, x: Index) {
    && (forall id :: id in x.stopKeys ==> means(id) == Meaning(x.stopKeys[id], ProtectiveStop))
    && (forall id :: id in x.closeKeys ==> means(id) == Meaning(x.closeKeys[id], Close))
  }

  lemma MeantIsHarmless(means: Meanings, x: Index, op: Operation)
    requires Indexed(x) && Meaningful(means, x) && AsMeant(means, x, op)
    ensures Harmless(x, op)
  {
    assert Registered(x);
    match op
    case Submission(tag, reserved, answer) =>
    case CloseRequest(key, _, reserved, answer, failing) =>
      if key !in x.pendingCloses { FreshCloseFreed(means, x, key, answer.status.orderId, failing); }
    case StopRequested(key, _, _, u) =>
    case FillReceived(fill, _, stop) =>
    case UpdateReceived(_) =>
    case SessionEnded(_, _) =>
  }

  lemma FreshCloseFreed(means: Meanings, x: Index, key: PositionKey, id: OrderId, failing: set<OrderId>)
    requires Indexed(x) && Meaningful(means, x) && key !in x.pendingCloses && means(id) == Meaning(key, Close)
    ensures Freed(x, key, failing, id)
  {
  }

  /** Which links an operation may add. */
  lemma StepLinks(x: Index, op: Operation)
    ensures var y := Step(x, op);
            && (forall id :: id in y.stopKeys ==>
                  (id in x.stopKeys && y.stopKeys[id] == x.stopKeys[id]) || NewStop(x, op, id, y.stopKeys[id]))
            && (forall id :: id in y.closeKeys ==>
                  (id in x.closeKeys && y.closeKeys[id] == x.closeKeys[id]) || NewClose(x, op, id, y.closeKeys[id]))
  {
    hide Submit, WithoutStops, Register, ClearTracking, CompleteRegistration, Improves, ActiveStop;
    match op
    case Submission(_, _, _) =>
    case CloseRequest(key, closeKey, reserved, answer, failing) => CloseLinks(x, key, closeKey, reserved, answer, failing);
    case StopRequested(key, quantity, price, u) => UpdateLinks(x, key, quantity, price, u);
    case FillReceived(fill, failing, stop) => FillLinks(x, fill, failing, stop);
    case UpdateReceived(status) =>
      StopClearedFewer(x, status.orderId);
      CloseClearedFewer(x, status.orderId);
    case SessionEnded(sessionOnly, failing) => ClearEachFewer(x, SessionStops(x, sessionOnly), failing);
  }

  predicate NewStop(x: Index, op: Operation, id: OrderId, key: PositionKey) {
    match op
    case StopRequested(k, _, _, u) =>
      key == k && ActiveStop(x, k).None? && u.submitted.Answered? && id == u.submitted.status.orderId
    case FillReceived(fill, _, stop) =>
      Enters(x, fill) && key == FilledKey(x, fill) && stop.Some? && stop.value.answer.Answered? && id == stop.value.answer.status.orderId
    case _ => false
  }

  predicate NewClose(x: Index, op: Operation, id: OrderId, key: PositionKey) {
    op.CloseRequest? && key == op.key && key !in x.pendingCloses && op.answer.Answered? && id == op.answer.status.orderId
  }

  /** No link of a state is new or changed in another. */
  predicate Fewer(x: Index, y: Index) {
    && (forall id :: id in y.stopKeys ==> id in x.stopKeys && y.stopKeys[id] == x.stopKeys[id])
    && (forall id :: id in y.closeKeys ==> id in x.closeKeys && y.closeKeys[id] == x.closeKeys[id])
  }

  lemma StopClearedFewer(x: Index, id: OrderId)
    ensures Fewer(x, ClearStop(x, id))
  {
  }

  lemma CloseClearedFewer(x: Index, id: OrderId)
    ensures Fewer(x, ClearPendingClose(x, id))
  {
  }

  lemma FewerTwice(x: Index, y: Index, z: Index)
    requires Fewer(x, y) && Fewer(y, z)
    ensures Fewer(x, z)
  {
  }

  lemma {:induction false} ClearEachFewer(x: Index, ids: set<OrderId>, failing: set<OrderId>)
    ensures Fewer(x, ClearEach(x, ids, failing))
    decreases |ids|
  {
    hide ClearStop;
    if ids != {} {
      var id := Lowest(ids);
      StopClearedFewer(x, id);
      ClearEachFewer(if id in failing then x else ClearStop(x, id), ids - {id}, failing);
    }
  }

  lemma CloseLinks(x: Index, key: PositionKey, closeKey: string, reserved: Option<OrderId>, answer: Answer, failing: set<OrderId>)
    ensures var y := RequestClose(x, key, closeKey, reserved, answer, failing);
            && (forall id :: id in y.stopKeys ==> id in x.stopKeys && y.stopKeys[id] == x.stopKeys[id])
            && (forall id :: id in y.closeKeys ==>
                  (id in x.closeKeys && y.closeKeys[id] == x.closeKeys[id])
                  || (y.closeKeys[id] == key && key !in x.pendingCloses && answer.Answered? && id == answer.status.orderId))
  {
    hide Submit, ClearEach;
    if key !in x.pendingCloses {
      SubmitCloseIs(x, key, closeKey, reserved, answer, failing);
      hide SubmitClose;
      if Accepted(answer) {
        var w := AddClose(Submit(x, CloseTag(key), reserved, answer), key, answer.status.orderId);
        ClearEachFewer(w, StopsOf(w, key), failing);
      }
    }
  }

  lemma StopLinks(x: Index, key: PositionKey, order: OrderRequest, reserved: Option<OrderId>, answer: Answer)
    ensures var y := SubmitStop(x, key, order, reserved, answer);
            && (forall id :: id in y.closeKeys ==> id in x.closeKeys && y.closeKeys[id] == x.closeKeys[id])
            && (forall id :: id in y.stopKeys ==>
                  (id in x.stopKeys && y.stopKeys[id] == x.stopKeys[id])
                  || (y.stopKeys[id] == key && answer.Answered? && id == answer.status.orderId))
  {
    hide CompleteRegistration, Register, ClearTracking;
  }

  lemma UpdateLinks(x: Index, key: PositionKey, quantity: int, price: real, u: StopUpdate)
    ensures var y := EnsureStop(x, key, quantity, price, u);
            && (forall id :: id in y.closeKeys ==> id in x.closeKeys && y.closeKeys[id] == x.closeKeys[id])
            && (forall id :: id in y.stopKeys ==>
                  (id in x.stopKeys && y.stopKeys[id] == x.stopKeys[id])
                  || (y.stopKeys[id] == key && ActiveStop(x, key).None?
                      && u.submitted.Answered? && id == u.submitted.status.orderId))
  {
    hide SubmitStop, ClearStop, Improves;
    var active := ActiveStop(x, key);
    if active.None? {
      StopLinks(x, key, StopRequest(key, quantity, price, u.newKey), u.reserved, u.submitted);
    } else {
      StopClearedFewer(x, active.value);
    }
  }

  /** A fill that enters nothing only clears links. */
  lemma OtherFillFewer(x: Index, fill: Fill, failing: set<OrderId>, stop: Option<StopAttempt>)
    requires !(Enters(x, fill) && stop.Some?)
    ensures Fewer(x, HandleFill(x, fill, failing, stop))
  {
    hide SubmitStop, ClearStop, ClearPendingClose, ClearEach, Fewer;
    NothingFewer(x);
    var key, id := FilledKey(x, fill), fill.orderId;
    var y, z := ClearPendingClose(x, id), ClearStop(x, id);
    CloseClearedFewer(x, id);
    StopClearedFewer(x, id);
    ClearEachFewer(y, StopsOf(y, key), failing);
    FewerTwice(x, y, CancelStops(y, key, failing));
    if key in z.pendingCloses {
      CloseClearedFewer(z, z.pendingCloses[key]);
      FewerTwice(x, z, ClearPendingClose(z, z.pendingCloses[key]));
    }
  }

  lemma NothingFewer(x: Index)
    ensures Fewer(x, x)
  {
  }

  lemma FillLinks(x: Index, fill: Fill, failing: set<OrderId>, stop: Option<StopAttempt>)
    ensures var y, op := HandleFill(x, fill, failing, stop), FillReceived(fill, failing, stop);
            && (forall id :: id in y.closeKeys ==> id in x.closeKeys && y.closeKeys[id] == x.closeKeys[id])
            && (forall id :: id in y.stopKeys ==>
                  (id in x.stopKeys && y.stopKeys[id] == x.stopKeys[id]) || NewStop(x, op, id, y.stopKeys[id]))
  {
    if Enters(x, fill) && stop.Some? {
      StopLinks(x, FilledKey(x, fill), stop.value.order, stop.value.reserved, stop.value.answer);
      hide SubmitStop;
    } else {
      OtherFillFewer(x, fill, failing, stop);
      hide HandleFill;
    }
  }

  lemma MeaningKept(means: Meanings, x: Index, op: Operation)
    requires Meaningful(means, x) && AsMeant(means, x, op)
    ensures Meaningful(means, Step(x, op))
  {
    StepLinks(x, op);
    hide Step;
  }

  /** Every order is registered under what its id means. */
  predicate TagsMeant(means: Meanings, x: Index) {
    forall id :: id in x.owner ==>
      && id in x.role && id in x.tradeId
      && means(id) == Meaning((x.owner[id], means(id).key.1, x.tradeId[id]), x.role[id])
  }

  lemma RetrackedMeant(means: Meanings, x: Index, y: Index, id: OrderId, tag: Tag)
    requires TagsMeant(means, x) && Retracked(x, y, {}, Some((id, tag)))
    requires means(id) == Meaning((tag.strategyId, means(id).key.1, tag.tradeId), tag.role)
    ensures TagsMeant(means, y)
  {
  }

  lemma TagsKept(means: Meanings, x: Index, op: Operation)
    requires Registered(x) && TagsMeant(means, x) && AsMeant(means, x, op)
    ensures TagsMeant(means, Step(x, op))
  {
    hide Submit, SubmitStop, RequestClose, ClearEach, Improves, ActiveStop, Retracked, ClearPendingClose, ClearStop, TagsMeant;
    match op
    case Submission(tag, reserved, answer) =>
      SubmitIs(x, tag, reserved, answer);
      assert Forgotten(reserved, answer) == {};
      RetrackedMeant(means, x, Submit(x, tag, reserved, answer), answer.status.orderId, tag);
    case CloseRequest(key, closeKey, reserved, answer, failing) => CloseTagsKept(means, x, key, closeKey, reserved, answer, failing);
    case StopRequested(key, quantity, price, u) =>
      if ActiveStop(x, key).None? {
        StopTagsKept(means, x, key, StopRequest(key, quantity, price, u.newKey), u.submitted);
      } else {
        SameTags(means, x, EnsureStop(x, key, quantity, price, u));
      }
    case FillReceived(fill, failing, stop) =>
      if Enters(x, fill) && stop.Some? {
        StopTagsKept(means, x, FilledKey(x, fill), stop.value.order, stop.value.answer);
      } else {
        OtherFillTags(x, fill, failing, stop);
        SameTags(means, x, HandleFill(x, fill, failing, stop));
      }
    case UpdateReceived(status) => UpdateTags(means, x, status);
    case SessionEnded(sessionOnly, failing) => SameTags(means, x, CancelSessionStops(x, sessionOnly, failing));
  }

  predicate TagsEqual(x: Index, y: Index) { y.owner == x.owner && y.role == x.role && y.tradeId == x.tradeId }

  lemma SameTags(means: Meanings, x: Index, y: Index)
    requires TagsMeant(means, x) && TagsEqual(x, y)
    ensures TagsMeant(means, y)
  {
  }

  lemma CloseClearedTags(x: Index, id: OrderId)
    ensures TagsEqual(x, ClearPendingClose(x, id))
  {
  }

  lemma StopsClearedTags(x: Index, ids: set<OrderId>, failing: set<OrderId>, id: OrderId)
    ensures TagsEqual(x, ClearEach(x, ids, failing)) && TagsEqual(x, ClearStop(x, id))
  {
    hide ClearEach, ClearStop;
  }

  lemma OtherFillTags(x: Index, fill: Fill, failing: set<OrderId>, stop: Option<StopAttempt>)
    requires !(Enters(x, fill) && stop.Some?)
    ensures TagsEqual(x, HandleFill(x, fill, failing, stop))
  {
    hide SubmitStop, ClearStop, ClearEach, ClearPendingClose, StopsOf;
    var key, id := FilledKey(x, fill), fill.orderId;
    var y, z := ClearPendingClose(x, id), ClearStop(x, id);
    CloseClearedTags(x, id);
    StopsClearedTags(y, StopsOf(y, key), failing, id);
    StopsClearedTags(x, {}, failing, id);
    if key in z.pendingCloses { CloseClearedTags(z, z.pendingCloses[key]); }
  }

  lemma UpdateTags(means: Meanings, x: Index, status: OrderStatus)
    requires TagsMeant(means, x)
    ensures TagsMeant(means, HandleUpdate(x, status))
  {
    hide ClearStop;
    var y := ClearPendingClose(x, status.orderId);
    assert TagsEqual(x, y);
  }

  lemma StopTagsKept(means: Meanings, x: Index, key: PositionKey, order: OrderRequest, answer: Answer)
    requires Registered(x) && TagsMeant(means, x) && Accepted(answer)
    requires means(answer.status.orderId) == Meaning(key, ProtectiveStop)
    ensures TagsMeant(means, SubmitStop(x, key, order, None, answer))
  {
    hide Submit, SubmitStop, Retracked, TagsMeant;
    SubmitStopIs(x, key, order, None, answer);
    SubmitIs(x, StopTag(key), None, answer);
    var y := Submit(x, StopTag(key), None, answer);
    assert Forgotten(None, answer) == {};
    RetrackedMeant(means, x, y, answer.status.orderId, StopTag(key));
    SameTags(means, y, SubmitStop(x, key, order, None, answer));
  }

  lemma CloseTagsKept(means: Meanings, x: Index, key: PositionKey, closeKey: string, reserved: Option<OrderId>, answer: Answer, failing: set<OrderId>)
    requires Registered(x) && TagsMeant(means, x) && AsMeant(means, x, CloseRequest(key, closeKey, reserved, answer, failing))
    ensures TagsMeant(means, RequestClose(x, key, closeKey, reserved, answer, failing))
  {
    hide Submit, SubmitClose, Retracked, TagsMeant, ClearEach;
    if key !in x.pendingCloses {
      SubmitCloseIs(x, key, closeKey, reserved, answer, failing);
      SubmitIs(x, CloseTag(key), reserved, answer);
      var y := Submit(x, CloseTag(key), reserved, answer);
      assert Forgotten(reserved, answer) == {};
      RetrackedMeant(means, x, y, answer.status.orderId, CloseTag(key));
      SameTags(means, y, RequestClose(x, key, closeKey, reserved, answer, failing));
    }
  }

  ghost predicate AlwaysAsMeant(means: Meanings, ops: seq<Operation>) {
    forall n: nat :: n < |ops| ==> AsMeant(means, Run(ops[..n]), ops[n])
  }

  /** Ids may be handed out again and again, as long as each is always used for the same position and role. */
  lemma {:induction false} MeantIdsIndexed(means: Meanings, ops: seq<Operation>)
    requires AlwaysAsMeant(means, ops)
    ensures Indexed(Run(ops)) && Meaningful(means, Run(ops))
  {
    hide Indexed, Meaningful, AsMeant, Step;
    if ops == [] {
      EmptyIndexed();
      NothingMeant(means);
    } else {
      var init, op := ops[..|ops| - 1], ops[|ops| - 1];
      forall n: nat | n < |init| ensures AsMeant(means, Run(init[..n]), init[n]) {
        assert init[..n] == ops[..n];
      }
      assert AsMeant(means, Run(ops[..|init|]), ops[|init|]);
      MeantIdsIndexed(means, init);
      MeantIsHarmless(means, Run(init), op);
      StepKeepsIff(Run(init), op);
      MeaningKept(means, Run(init), op);
    }
  }

  lemma NothingMeant(means: Meanings)
    ensures Meaningful(means, EmptyIndex)
  {
  }
}
