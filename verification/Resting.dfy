/**
 What the order manager lists and what the broker has: in a replay every listed
 stop is waiting at the broker as the order that was asked for, and every
 pending close as a close of its position, or it has filled and its fill is
 still to be handled.
 */
module Resting {
  import opened Types
  import opened OrderIndex
  import opened OrderReuse
  import opened OrderEffects
  import opened OrderGuarantees
  import opened PaperBroker
  import opened BrokerLaws
  import opened Ownership
  import opened Replay
  import opened ReplayIds
  import opened Portfolio
  import S = Sizing
  import opened OrderNames

  ghost predicate HasFilled(b: BrokerState, id: OrderId) {
    exists f :: f in b.fillQueue && f.orderId == id
  }

  ghost predicate Waits(b: BrokerState, id: OrderId, order: OrderRequest) {
    exists p :: p in b.pending && p.brokerId == id && p.order == order
  }

  /** A market order of the position's strategy in its instrument. */
  predicate Closes(order: OrderRequest, key: PositionKey) {
    order.orderType == Market && order.instrument == key.1 && order.strategyId == key.0
  }

  ghost predicate WaitsToClose(b: BrokerState, id: OrderId, key: PositionKey) {
    exists p :: p in b.pending && p.brokerId == id && Closes(p.order, key)
  }

  ghost predicate StopRests(b: BrokerState, id: OrderId, order: OrderRequest) { Waits(b, id, order) || HasFilled(b, id) }

  ghost predicate CloseRests(b: BrokerState, id: OrderId, key: PositionKey) { WaitsToClose(b, id, key) || HasFilled(b, id) }

  ghost predicate StopsRest(s: System) {
    forall id :: id in s.index.stopRequests ==> StopRests(s.broker, id, s.index.stopRequests[id])
  }

  ghost predicate ClosesRest(s: System) {
    forall key :: key in s.index.pendingCloses ==> CloseRests(s.broker, s.index.pendingCloses[key], key)
  }

  ghost predicate AllRest(s: System) { StopsRest(s) && ClosesRest(s) }

  // ---------------------------------------------------------------- what the broker keeps

  /** Waiting orders of an id, and queued fills of it, are still there. */
  ghost predicate Keeps(b: BrokerState, b': BrokerState, id: OrderId) {
    && (forall p :: p in b.pending && p.brokerId == id ==> p in b'.pending || HasFilled(b', id))
    && (forall f :: f in b.fillQueue && f.orderId == id ==> f in b'.fillQueue)
  }

  lemma RestsOn(b: BrokerState, b': BrokerState, id: OrderId, order: OrderRequest, key: PositionKey)
    requires Keeps(b, b', id)
    ensures StopRests(b, id, order) ==> StopRests(b', id, order)
    ensures CloseRests(b, id, key) ==> CloseRests(b', id, key)
  {
  }

  lemma SentKeeps(b: BrokerState, order: OrderRequest, generated: OrderId, id: OrderId)
    ensures Keeps(b, AfterSubmit(b, order, generated), id)
    ensures Waits(AfterSubmit(b, order, generated), BrokerId(order, generated), order)
  {
    var t := AfterSubmit(b, order, generated);
    assert t.pending[|b.pending|] in t.pending;
    hide BrokerId, HasFilled;
  }

  lemma CancelKeeps(b: BrokerState, ids: set<OrderId>, id: OrderId)
    requires id !in ids
    ensures Keeps(b, AfterCancel(b, ids), id)
  {
    CancelTakes(b, ids, []);
    hide AfterCancel, HasFilled;
  }

  lemma BarKeeps(b: BrokerState, bar: Bar, id: OrderId)
    ensures Keeps(b, AfterBar(b, bar), id)
  {
    forall p | p in b.pending && p.brokerId == id ensures p in AfterBar(b, bar).pending || HasFilled(AfterBar(b, bar), id) {
      Resolved(b.pending, p, bar);
      hide FillsFor, StillPending, Due;
      if Due(bar, p) {
        assert Execution(bar, p) in AfterBar(b, bar).fillQueue;
      }
    }
  }

  lemma PopKeeps(b: BrokerState, id: OrderId)
    requires b.fillQueue != [] && b.fillQueue[0].orderId != id
    ensures Keeps(b, b.(fillQueue := b.fillQueue[1..]), id)
  {
    hide HasFilled;
  }

  lemma ModifyKeeps(b: BrokerState, changed: OrderId, order: OrderRequest, id: OrderId)
    requires AfterModify(b, changed, order).Some?
    ensures id != changed ==> Keeps(b, AfterModify(b, changed, order).value, id)
    ensures Waits(AfterModify(b, changed, order).value, changed, order)
  {
    ModifyTells(b, changed, order);
    var t := AfterModify(b, changed, order).value;
    hide AfterModify, HasFilled;
    var k :| 0 <= k < |b.pending| && IsFirst(b.pending, changed, k)
             && t.pending == b.pending[k := PendingOrder(order, changed, b.pending[k].submittedAfter)];
    assert t.pending[k] in t.pending;
    forall p | p in b.pending && p.brokerId != changed ensures p in t.pending {
      var j :| 0 <= j < |b.pending| && b.pending[j] == p;
      assert t.pending[j] == p;
    }
  }

  // ---------------------------------------------------------------- one action

  lemma AllKept(s: System, t: System)
    requires AllRest(s)
    requires forall id :: id in t.index.stopRequests ==>
               id in s.index.stopRequests && t.index.stopRequests[id] == s.index.stopRequests[id] && Keeps(s.broker, t.broker, id)
    requires forall k :: k in t.index.pendingCloses ==>
               k in s.index.pendingCloses && t.index.pendingCloses[k] == s.index.pendingCloses[k]
               && Keeps(s.broker, t.broker, t.index.pendingCloses[k])
    ensures AllRest(t)
  {
    hide Keeps, StopRests, CloseRests;
    forall id | id in t.index.stopRequests ensures StopRests(t.broker, id, t.index.stopRequests[id]) {
      RestsOn(s.broker, t.broker, id, t.index.stopRequests[id], ("", t.index.stopRequests[id].instrument, None));
    }
    forall k | k in t.index.pendingCloses ensures CloseRests(t.broker, t.index.pendingCloses[k], k) {
      RestsOn(s.broker, t.broker, t.index.pendingCloses[k], CloseOrder(k, 1, ""), k);
    }
  }

  lemma PlaceRests(s: System, order: OrderRequest, tag: Tag, generated: OrderId)
    requires AllRest(s) && Registered(s.index)
    ensures AllRest(Place(s, order, tag, generated))
  {
    hide AllRest, Keeps, Submit, Registered, BrokerId;
    if order.quantity > 0 {
      SubmissionLeaves(s.index, tag, None, Taken(BrokerId(order, generated)));
      forall id ensures Keeps(s.broker, AfterSubmit(s.broker, order, generated), id) {
        SentKeeps(s.broker, order, generated, id);
      }
      hide AfterSubmit;
      AllKept(s, Place(s, order, tag, generated));
    }
  }

  /** The order of a close that is sent is not under the id of a stop it cancels, unless that id has filled. */
  ghost predicate Apart(s: System, action: Action) {
    action.ClosePlaced? && action.quantity != 0 && action.key !in s.index.pendingCloses ==>
      var id := BrokerId(CloseOrder(action.key, action.quantity, action.closeKey), action.generated);
      id !in StopsOf(s.index, action.key) || HasFilled(s.broker, id)
  }

  lemma CloseTakesStops(x: Index, key: PositionKey, closeKey: string, id: OrderId)
    requires Indexed(x) && key !in x.pendingCloses
    ensures var y := RequestClose(x, key, closeKey, None, Taken(id), {});
            y.pendingCloses == x.pendingCloses[key := id] && y.stopRequests == x.stopRequests - StopsOf(x, key)
  {
    hide Submit, SubmitClose, CancelStops, ClosesIndexed, Owned;
    SubmitCloseIs(x, key, closeKey, None, Taken(id), {});
    SubmissionLeaves(x, CloseTag(key), None, Taken(id));
    StopsAreIndexed(x);
    hide Indexed, StopsIndexed, Registered, Knows, Unknown, SameTag, StopsOf;
    var z := AddClose(Submit(x, CloseTag(key), None, Taken(id)), key, id);
    CancelledStops(z, x, key, {});
  }

  /** Cancelling takes every waiting order of an id. */
  lemma CancelledIsGone(b: BrokerState, ids: set<OrderId>, id: OrderId, key: PositionKey)
    requires id in ids
    ensures !WaitsToClose(AfterCancel(b, ids), id, key)
    ensures AfterCancel(b, ids).fillQueue == b.fillQueue
  {
    CancelTakes(b, ids, []);
    hide AfterCancel, Closes;
  }

  /** After a close is sent all is at rest exactly when its id is not that of a stop it cancels, or has filled. */
  lemma ClosePlacedRestsIff(s: System, key: PositionKey, quantity: int, closeKey: OrderId, generated: OrderId)
    requires AllRest(s) && Indexed(s.index)
    ensures AllRest(PlaceClose(s, key, quantity, closeKey, generated)) <==> Apart(s, ClosePlaced(key, quantity, closeKey, generated))
  {
    hide Keeps, RequestClose, Indexed, BrokerId, StopsRest, ClosesRest;
    if quantity != 0 && key !in s.index.pendingCloses {
      var order := CloseOrder(key, quantity, closeKey);
      var id := BrokerId(order, generated);
      var t := PlaceClose(s, key, quantity, closeKey, generated);
      CloseTakesStops(s.index, key, closeKey, id);
      StopsListed(s.index, key);
      var sent, gone := AfterSubmit(s.broker, order, generated), StopsOf(s.index, key);
      hide StopsOf;
      forall j | j !in gone ensures Keeps(s.broker, t.broker, j) {
        SentKeeps(s.broker, order, generated, j);
        CancelKeeps(sent, gone, j);
        KeepsOn(s.broker, sent, t.broker, j);
      }
      if id !in gone {
        SentKeeps(s.broker, order, generated, id);
        CancelKeeps(sent, gone, id);
        SentCloseWaits(sent, t.broker, id, order, key);
      } else {
        CancelledIsGone(sent, gone, id, key);
        assert CloseRests(t.broker, id, key) <==> HasFilled(s.broker, id);
      }
      hide AfterSubmit, AfterCancel, PlaceClose;
      if CloseRests(t.broker, id, key) {
        CloseListed(s, t, key, id, gone);
      } else {
        CloseAstray(t, key, id);
      }
    }
  }

  lemma CloseAstray(t: System, key: PositionKey, id: OrderId)
    requires key in t.index.pendingCloses && t.index.pendingCloses[key] == id && !CloseRests(t.broker, id, key)
    ensures !AllRest(t)
  {
    hide CloseRests, StopsRest;
  }

  lemma StopsListed(x: Index, key: PositionKey)
    requires Indexed(x)
    ensures forall j :: j in StopsOf(x, key) ==> j in x.stopKeys && j in x.stopRequests && j !in x.closeKeys
    ensures forall k :: k in x.pendingCloses ==> x.pendingCloses[k] in x.closeKeys && x.pendingCloses[k] !in x.stopKeys
    ensures x.stopRequests.Keys == x.stopKeys.Keys
  {
  }

  lemma KeepsOn(b: BrokerState, b': BrokerState, b'': BrokerState, id: OrderId)
    requires Keeps(b, b', id) && Keeps(b', b'', id)
    ensures Keeps(b, b'', id)
  {
  }

  lemma SentCloseWaits(b: BrokerState, b': BrokerState, id: OrderId, order: OrderRequest, key: PositionKey)
    requires Waits(b, id, order) && Keeps(b, b', id) && Closes(order, key)
    ensures CloseRests(b', id, key)
  {
    hide Closes;
    assert WaitsToClose(b, id, key);
    RestsOn(b, b', id, order, key);
  }

  lemma CloseListed(s: System, t: System, key: PositionKey, id: OrderId, gone: set<OrderId>)
    requires AllRest(s) && CloseRests(t.broker, id, key)
    requires t.index.stopRequests == s.index.stopRequests - gone
    requires t.index.pendingCloses == s.index.pendingCloses[key := id]
    requires forall j :: j !in gone ==> Keeps(s.broker, t.broker, j)
    requires forall k :: k in s.index.pendingCloses ==> s.index.pendingCloses[k] !in gone
    ensures AllRest(t)
  {
    hide Keeps, StopRests, CloseRests;
    forall j | j in t.index.stopRequests ensures StopRests(t.broker, j, t.index.stopRequests[j]) {
      RestsOn(s.broker, t.broker, j, t.index.stopRequests[j], key);
    }
    forall k | k in t.index.pendingCloses ensures CloseRests(t.broker, t.index.pendingCloses[k], k) {
      if k != key { RestsOn(s.broker, t.broker, t.index.pendingCloses[k], CloseOrder(k, 1, ""), k); }
    }
  }

  // ---------------------------------------------------------------- stops

  /** A stop that is sent is listed as it waits. */
  lemma StopListed(s: System, t: System, order: OrderRequest, id: OrderId)
    requires AllRest(s) && StopRests(t.broker, id, order)
    requires forall j :: j in t.index.stopRequests <==> j == id || j in s.index.stopRequests
    requires forall j :: j in t.index.stopRequests ==> t.index.stopRequests[j] == if j == id then order else s.index.stopRequests[j]
    requires t.index.pendingCloses == s.index.pendingCloses
    requires forall j :: j in s.index.stopRequests && j != id ==> Keeps(s.broker, t.broker, j)
    requires forall k :: k in s.index.pendingCloses ==> Keeps(s.broker, t.broker, s.index.pendingCloses[k])
    ensures AllRest(t)
  {
    hide Keeps, StopRests, CloseRests;
    forall j | j in t.index.stopRequests ensures StopRests(t.broker, j, t.index.stopRequests[j]) {
      if j != id { RestsOn(s.broker, t.broker, j, t.index.stopRequests[j], ("", order.instrument, None)); }
    }
    forall k | k in t.index.pendingCloses ensures CloseRests(t.broker, t.index.pendingCloses[k], k) {
      RestsOn(s.broker, t.broker, t.index.pendingCloses[k], order, k);
    }
  }

  lemma StopPlacedRests(s: System, key: PositionKey, quantity: int, price: real, newKey: OrderId, generated: OrderId)
    requires AllRest(s) && Indexed(s.index)
    ensures AllRest(PlaceStop(s, key, quantity, price, newKey, generated))
  {
    hide AllRest, Keeps, Indexed, BrokerId, SubmitStop, ClearStop, Improves, Registered;
    var t := PlaceStop(s, key, quantity, price, newKey, generated);
    if t != s {
      var active := ActiveStop(s.index, key);
      StopsListed(s.index, key);
      if active.None? {
        hide ActiveStop;
        var order := StopRequest(key, quantity, price, newKey);
        IsRegistered(s.index);
        StopLeaves(s.index, key, order, None, Taken(BrokerId(order, generated)));
        forall j ensures Keeps(s.broker, t.broker, j) { SentKeeps(s.broker, order, generated, j); }
        SentKeeps(s.broker, order, generated, BrokerId(order, generated));
        hide AfterSubmit, PlaceStop, EnsureStop;
        StopListed(s, t, order, BrokerId(order, generated));
      } else {
        var order := StopRequest(key, quantity, price, s.index.stopRequests[active.value].idempotencyKey);
        assert active.value in s.index.stopKeys;
        hide ActiveStop;
        forall j ensures j != active.value ==> Keeps(s.broker, t.broker, j) { ModifyKeeps(s.broker, active.value, order, j); }
        ModifyKeeps(s.broker, active.value, order, active.value);
        hide AfterModify;
        StopListed(s, t, order, active.value);
      }
    }
  }

  lemma IsRegistered(x: Index)
    requires Indexed(x)
    ensures Registered(x)
  {
  }

  // ---------------------------------------------------------------- bars, status updates, the end of a session

  lemma BarRests(s: System, bar: Bar)
    requires AllRest(s)
    ensures AllRest(BarArrives(s, bar))
  {
    hide AllRest, Keeps, AfterBar;
    forall id ensures Keeps(s.broker, AfterBar(s.broker, bar), id) { BarKeeps(s.broker, bar, id); }
    AllKept(s, BarArrives(s, bar));
  }

  lemma UpdateRests(s: System)
    requires AllRest(s) && Known(s)
    ensures AllRest(DrainUpdate(s))
  {
    hide Keeps, StopRests, CloseRests;
    if s.broker.updateQueue != [] {
      var t, u := DrainUpdate(s), s.broker.updateQueue[0];
      assert u in s.broker.updateQueue;
      assert t.index == s.index;
      forall id ensures Keeps(s.broker, t.broker, id) { OnlyUpdates(s.broker, id); }
      hide StopsRest, ClosesRest;
      AllKept(s, t);
    }
  }

  lemma OnlyUpdates(b: BrokerState, id: OrderId)
    requires b.updateQueue != []
    ensures Keeps(b, b.(updateQueue := b.updateQueue[1..]), id)
  {
    hide HasFilled;
  }

  lemma SessionRests(s: System, sessionOnly: set<StrategyId>)
    requires AllRest(s) && Indexed(s.index)
    ensures AllRest(EndSession(s, sessionOnly))
  {
    hide AllRest, Keeps;
    var t, gone := EndSession(s, sessionOnly), SessionStops(s.index, sessionOnly);
    SessionLeaves(s.index, sessionOnly, {});
    forall id | id !in gone ensures Keeps(s.broker, t.broker, id) { CancelKeeps(s.broker, gone, id); }
    StopsKnown(s.index);
    SessionIndexed(s.index, sessionOnly);
    StopsKnown(t.index);
    hide CancelSessionStops, AfterCancel, Indexed;
    AllKept(s, t);
  }

  lemma StopsKnown(x: Index)
    requires Indexed(x)
    ensures x.stopRequests.Keys == x.stopKeys.Keys
    ensures forall id :: id in x.stopKeys ==> id in x.owner
    ensures forall k :: k in x.pendingCloses ==> x.pendingCloses[k] !in x.stopKeys
  {
  }

  lemma SessionIndexed(x: Index, sessionOnly: set<StrategyId>)
    requires Indexed(x)
    ensures Indexed(CancelSessionStops(x, sessionOnly, {}))
  {
    StepKeeps(x, SessionEnded(sessionOnly, {}));
    hide CancelSessionStops, Indexed;
  }

  // ---------------------------------------------------------------- drained fills

  /** The system with only its broker's queue and cancels moved on. */
  function Popped(s: System, cancelled: set<OrderId>): System
    requires s.broker.fillQueue != []
  {
    s.(broker := AfterCancel(s.broker.(fillQueue := s.broker.fillQueue[1..]), cancelled))
  }

  lemma PoppedKeeps(s: System, cancelled: set<OrderId>, id: OrderId)
    requires s.broker.fillQueue != [] && s.broker.fillQueue[0].orderId != id && id !in cancelled
    ensures Keeps(s.broker, Popped(s, cancelled).broker, id)
  {
    var popped := s.broker.(fillQueue := s.broker.fillQueue[1..]);
    PopKeeps(s.broker, id);
    CancelKeeps(popped, cancelled, id);
    hide Keeps, AfterCancel;
    KeepsOn(s.broker, popped, AfterCancel(popped, cancelled), id);
  }

  /** What handling the fill leaves listed is neither the fill's own order nor cancelled. */
  lemma DrainedListsKept(s: System, t: System, cancelled: set<OrderId>)
    requires s.broker.fillQueue != [] && AllRest(s) && t.broker == Popped(s, cancelled).broker
    requires forall id :: id in t.index.stopRequests ==>
               id in s.index.stopRequests && t.index.stopRequests[id] == s.index.stopRequests[id]
               && id != s.broker.fillQueue[0].orderId && id !in cancelled
    requires forall k :: k in t.index.pendingCloses ==>
               k in s.index.pendingCloses && t.index.pendingCloses[k] == s.index.pendingCloses[k]
               && t.index.pendingCloses[k] != s.broker.fillQueue[0].orderId && t.index.pendingCloses[k] !in cancelled
    ensures AllRest(t)
  {
    hide AllRest, Keeps, Popped;
    forall id | id != s.broker.fillQueue[0].orderId && id !in cancelled ensures Keeps(s.broker, t.broker, id) {
      PoppedKeeps(s, cancelled, id);
    }
    AllKept(s, t);
  }

  lemma ListedRoles(x: Index, id: OrderId)
    requires Indexed(x)
    ensures id in x.stopKeys ==> id in x.role && x.role[id] == ProtectiveStop
    ensures id in x.closeKeys ==> id in x.role && x.role[id] == Close
    ensures x.stopRequests.Keys == x.stopKeys.Keys
    ensures forall k :: k in x.pendingCloses ==> x.pendingCloses[k] in x.closeKeys
    ensures forall k, l :: k in x.pendingCloses && l in x.pendingCloses && x.pendingCloses[k] == x.pendingCloses[l] ==> k == l
    ensures id in x.role <==> id in x.owner && id in x.tradeId
    ensures forall k :: id in StopsOf(x, k) ==> id in x.stopKeys
  {
  }

  /** A drained fill whose handling submits no stop. */
  lemma HandledRests(s: System, t: System)
    requires AllRest(s) && Indexed(s.index) && s.broker.fillQueue != []
    requires t.index == HandleFill(s.index, s.broker.fillQueue[0], {}, None)
    requires t.broker == Popped(s, CancelledBy(s.index, s.broker.fillQueue[0])).broker
    ensures AllRest(t)
  {
    hide AllRest, Popped, HandleFill, Indexed, StopsOf;
    var x, fill := s.index, s.broker.fillQueue[0];
    var gone := CancelledBy(x, fill);
    forall id
      ensures id in x.stopKeys ==> id in x.role && x.role[id] == ProtectiveStop
      ensures id in x.closeKeys ==> id in x.role && x.role[id] == Close
    {
      ListedRoles(x, id);
    }
    ListedRoles(x, fill.orderId);
    StopsAllListed(x);
    if fill.orderId in x.role && x.role[fill.orderId] == Close {
      CloseFillLeaves(x, fill, {}, None);
      assert gone == StopsOf(x, PositionOf(x, fill));
    } else if fill.orderId in x.role && x.role[fill.orderId] == ProtectiveStop {
      StopFillLeaves(x, fill, {}, None);
      assert gone == if PositionOf(x, fill) in x.pendingCloses then {x.pendingCloses[PositionOf(x, fill)]} else {};
    } else {
      IdleFillLeaves(x, fill, {}, None);
      assert gone == {};
    }
    DrainedListsKept(s, t, gone);
  }

  lemma StopsAllListed(x: Index)
    requires Indexed(x)
    ensures forall k, id :: id in StopsOf(x, k) ==> id in x.stopKeys
  {
  }

  lemma DrainedBroker(s: System, identity: Identity, plan: Option<StopPlan>)
    requires s.broker.fillQueue != []
    ensures var attempt := Attempt(s, plan);
            && (attempt.None? ==>
                  Drain(s, identity, plan).broker == Popped(s, CancelledBy(s.index, s.broker.fillQueue[0])).broker)
            && (attempt.Some? ==>
                  && Enters(s.index, s.broker.fillQueue[0]) && CancelledBy(s.index, s.broker.fillQueue[0]) == {}
                  && attempt.value == StopAttempt(attempt.value.order, None, Taken(BrokerId(attempt.value.order, plan.value.generated)))
                  && Drain(s, identity, plan).broker
                     == AfterSubmit(Popped(s, {}).broker, attempt.value.order, plan.value.generated))
  {
    hide HandleFill, AfterFill, AfterLedgerFill, S.SizeFill, BrokerId, AfterSubmit, AfterCancel, StopsOf;
  }

  lemma DrainRests(s: System, identity: Identity, plan: Option<StopPlan>)
    requires AllRest(s) && Indexed(s.index) && s.broker.fillQueue != []
    ensures AllRest(Drain(s, identity, plan))
  {
    hide AllRest, Keeps, Popped, HandleFill, Indexed, Drain, BrokerId, CancelledBy, AfterSubmit, SubmitStop;
    var fill := s.broker.fillQueue[0];
    var t := Drain(s, identity, plan);
    DrainIsOperation(s, identity, plan);
    DrainedBroker(s, identity, plan);
    var attempt := Attempt(s, plan);
    if attempt.None? {
      HandledRests(s, t);
    } else {
      var order, generated := attempt.value.order, plan.value.generated;
      var id := BrokerId(order, generated);
      ListedRoles(s.index, fill.orderId);
      IdleFillLeaves(s.index, fill, {}, None);
      var middle := Popped(s, {});
      assert middle.index == s.index by { PoppedIndex(s); }
      HandledRests(s, middle);
      IsRegistered(s.index);
      EntryFillLeaves(s.index, fill, {}, attempt.value);
      StopLeaves(s.index, PositionOf(s.index, fill), order, None, Taken(id));
      forall j ensures Keeps(middle.broker, t.broker, j) { SentKeeps(middle.broker, order, generated, j); }
      SentKeeps(middle.broker, order, generated, id);
      StopListed(middle, t, order, id);
    }
  }

  lemma PoppedIndex(s: System)
    requires s.broker.fillQueue != []
    ensures Popped(s, {}).index == s.index
  {
  }

  // ---------------------------------------------------------------- every replay

  lemma ActRestsIff(s: System, identity: Identity, action: Action)
    requires AllRest(s) && Indexed(s.index) && Known(s)
    ensures AllRest(Act(s, identity, action)) <==> Apart(s, action)
  {
    hide AllRest, Indexed, Known, Place, PlaceClose, PlaceStop, BarArrives, Drain, DrainUpdate, EndSession;
    match action
    case Placed(order, tag, generated) => IsRegistered(s.index); PlaceRests(s, order, tag, generated);
    case ClosePlaced(key, quantity, closeKey, generated) => ClosePlacedRestsIff(s, key, quantity, closeKey, generated);
    case StopPlaced(key, quantity, price, newKey, generated) => StopPlacedRests(s, key, quantity, price, newKey, generated);
    case BarSeen(bar) => BarRests(s, bar);
    case FillDrained(plan) =>
      if s.broker.fillQueue != [] { DrainRests(s, identity, plan); } else { NothingToDrain(s, identity, plan); }
    case UpdateDrained => UpdateRests(s);
    case SessionOver(sessionOnly) => SessionRests(s, sessionOnly);
  }

  ghost predicate AllApart(initial: real, identity: Identity, actions: seq<Action>) {
    forall n: nat :: n < |actions| ==> Apart(RunOf(initial, identity, actions[..n]), actions[n])
  }

  ghost predicate AlwaysRest(initial: real, identity: Identity, actions: seq<Action>) {
    forall n: nat :: n <= |actions| ==> AllRest(RunOf(initial, identity, actions[..n]))
  }

  lemma StartRests(initial: real)
    ensures AllRest(Start(initial))
  {
  }

  lemma RestPrefixes(initial: real, identity: Identity, actions: seq<Action>)
    requires actions != []
    ensures var init := actions[..|actions| - 1];
            && (AlwaysRest(initial, identity, actions)
                <==> AlwaysRest(initial, identity, init) && AllRest(RunOf(initial, identity, actions)))
            && (AllApart(initial, identity, actions)
                <==> AllApart(initial, identity, init) && Apart(RunOf(initial, identity, init), actions[|actions| - 1]))
            && (AlwaysRest(initial, identity, init) ==> AllRest(RunOf(initial, identity, init)))
  {
    hide AllRest, Apart, RunOf;
    var init := actions[..|actions| - 1];
    assert actions[..|actions|] == actions && init[..|init|] == init;
    assert forall n: nat :: n <= |init| ==> init[..n] == actions[..n];
    if AlwaysRest(initial, identity, actions) {
      forall n: nat | n <= |init| ensures AllRest(RunOf(initial, identity, init[..n])) {
        assert AllRest(RunOf(initial, identity, actions[..n]));
      }
      assert AllRest(RunOf(initial, identity, actions[..|actions|]));
    }
    if AlwaysRest(initial, identity, init) && AllRest(RunOf(initial, identity, actions)) {
      forall n: nat | n <= |actions| ensures AllRest(RunOf(initial, identity, actions[..n])) {
        assert n <= |init| ==> AllRest(RunOf(initial, identity, init[..n]));
      }
    }
    if AllApart(initial, identity, actions) {
      forall n: nat | n < |init| ensures Apart(RunOf(initial, identity, init[..n]), init[n]) {
        assert Apart(RunOf(initial, identity, actions[..n]), actions[n]);
      }
      assert Apart(RunOf(initial, identity, actions[..|init|]), actions[|init|]);
    }
    if AllApart(initial, identity, init) && Apart(RunOf(initial, identity, init), actions[|actions| - 1]) {
      forall n: nat | n < |actions| ensures Apart(RunOf(initial, identity, actions[..n]), actions[n]) {
        assert n < |init| ==> Apart(RunOf(initial, identity, init[..n]), init[n]);
      }
    }
    assert AlwaysRest(initial, identity, init) ==> AllRest(RunOf(initial, identity, init[..|init|]));
  }

  /**
   In a replay that keeps its order index, at every moment every listed stop
   waits at the broker as it was asked for and every pending close as a close of
   its position, unless it has filled and the fill is still queued, exactly when
   no close is sent under the id of a stop it cancels.
   */
  lemma {:induction false} ListedOrdersRestIff(initial: real, identity: Identity, actions: seq<Action>)
    requires IndexedThroughout(initial, identity, actions)
    ensures AlwaysRest(initial, identity, actions) <==> AllApart(initial, identity, actions)
  {
    hide AllRest, Indexed, Known, Act, Apart;
    if actions == [] {
      StartRests(initial);
    } else {
      var init, last := actions[..|actions| - 1], actions[|actions| - 1];
      PrefixesOf(initial, identity, actions);
      RestPrefixes(initial, identity, actions);
      ListedOrdersRestIff(initial, identity, init);
      hide AlwaysRest, AllApart, IndexedThroughout, AllHarmless, ActionHarmless;
      if AlwaysRest(initial, identity, init) {
        BooksAlwaysAgree(initial, identity, init);
        ActRestsIff(RunOf(initial, identity, init), identity, last);
      }
    }
  }

  // ---------------------------------------------------------------- with derived keys

  lemma DerivedApart(named: Naming, family: Family, s: System, action: Action)
    requires Coherent(named, family) && Sound(named, family, s) && Derived(named, family, s, action)
    ensures Apart(s, action)
  {
    hide KeyText, IsKey, Means, Telling, Closed, TagsMeant, Keyed, Stands, BrokerId, HasFilled;
    if action.ClosePlaced? {
      var key, closeKey := action.key, action.closeKey;
      var reason :| var n := OrderName(key.0, key.1, key.2, CloseFor(reason));
                    family(n) && closeKey == KeyText(named, n);
      DerivedId(named, family, CloseOrder(key, action.quantity, closeKey), action.generated, OrderName(key.0, key.1, key.2, CloseFor(reason)));
      StopsListed(s.index, key);
      hide Indexed;
    }
  }

  /** With derived keys out of a family that tells position and role, what is listed is always at rest. */
  lemma {:induction false} DerivedOrdersRest(named: Naming, family: Family, initial: real, identity: Identity, actions: seq<Action>)
    requires Coherent(named, family) && AllDerived(named, family, initial, identity, actions)
    ensures AllRest(RunOf(initial, identity, actions))
  {
    hide AllRest, Act, Derived, Coherent, Sound, Known, Apart;
    if actions == [] {
      StartRests(initial);
    } else {
      var init, last := actions[..|actions| - 1], actions[|actions| - 1];
      forall n: nat | n < |init| ensures Derived(named, family, RunOf(initial, identity, init[..n]), init[n]) {
        assert init[..n] == actions[..n];
      }
      assert Derived(named, family, RunOf(initial, identity, actions[..|init|]), actions[|init|]);
      DerivedOrdersRest(named, family, initial, identity, init);
      DerivedIdsIndexed(named, family, initial, identity, init);
      BooksAlwaysAgree(initial, identity, init);
      DerivedApart(named, family, RunOf(initial, identity, init), last);
      ActRestsIff(RunOf(initial, identity, init), identity, last);
    }
  }

  // ---------------------------------------------------------------- what is asked for is sent

  /** An order of some size waits at the broker and is known under its id; any other is not sent. */
  lemma PlacedWaits(s: System, order: OrderRequest, tag: Tag, generated: OrderId)
    requires Registered(s.index)
    ensures var t := Place(s, order, tag, generated);
            if order.quantity > 0 then
              exists id :: Waits(t.broker, id, order) && Knows(t.index, id, tag.strategyId, tag.role, tag.tradeId)
                           && (order.clientOrderId == None ==> id == if order.idempotencyKey != "" then order.idempotencyKey else generated)
            else t == s
  {
    if order.quantity > 0 {
      var id := BrokerId(order, generated);
      SubmittedWaits(s.broker, order, generated);
      SentKeeps(s.broker, order, generated, id);
      SubmissionLeaves(s.index, tag, None, Taken(id));
      hide Submit, Registered, AfterSubmit, BrokerId;
      assert Waits(Place(s, order, tag, generated).broker, id, order);
    }
  }

  /** A stop is listed under a position and waits, for what an entry filled and against it. */
  ghost predicate Protects(t: System, key: PositionKey, id: OrderId, fill: Fill, plan: StopPlan) {
    && id in StopsOf(t.index, key) && id in t.index.stopRequests
    && Waits(t.broker, id, t.index.stopRequests[id])
    && var order := t.index.stopRequests[id];
       && order.instrument == fill.instrument && order.quantity == fill.quantity && order.side != fill.side
       && order.orderType == Stop && order.stopPrice == Some(plan.price) && order.idempotencyKey == plan.stopKey
  }

  lemma AttemptIs(s: System, plan: StopPlan)
    requires Registered(s.index) && s.broker.fillQueue != []
    requires var id := s.broker.fillQueue[0].orderId; id in s.index.role && s.index.role[id] == Entry
    ensures var fill := s.broker.fillQueue[0];
            var order := StopOrder(fill, s.index.owner[fill.orderId], plan);
            Attempt(s, Some(plan)) == Some(StopAttempt(order, None, Taken(BrokerId(order, plan.generated))))
  {
    hide BrokerId, StopOrder;
  }

  /** Handling an entry's fill sends the stop declared for it and lists it under the entry's position. */
  lemma FilledEntryIsProtected(s: System, identity: Identity, plan: StopPlan)
    requires Registered(s.index) && s.broker.fillQueue != []
    requires var id := s.broker.fillQueue[0].orderId; id in s.index.role && s.index.role[id] == Entry
    ensures var fill := s.broker.fillQueue[0];
            exists id :: Protects(Drain(s, identity, Some(plan)), PositionOf(s.index, fill), id, fill, plan)
  {
    var fill := s.broker.fillQueue[0];
    var key, t := PositionOf(s.index, fill), Drain(s, identity, Some(plan));
    var order := StopOrder(fill, s.index.owner[fill.orderId], plan);
    var id := BrokerId(order, plan.generated);
    AttemptIs(s, plan);
    hide Attempt, Drain, HandleFill, SubmitStop, AfterSubmit, Popped, BrokerId;
    DrainIsOperation(s, identity, Some(plan));
    DrainedBroker(s, identity, Some(plan));
    EntryFillLeaves(s.index, fill, {}, StopAttempt(order, None, Taken(id)));
    StopLeaves(s.index, key, order, None, Taken(id));
    SentKeeps(Popped(s, {}).broker, order, plan.generated, id);
    hide Registered, StopsOf;
    assert Protects(t, key, id, fill, plan);
  }

  // ---------------------------------------------------------------- so stops fire

  predicate Reaches(bar: Bar, order: OrderRequest, price: real) {
    bar.instrument == order.instrument && (if order.side == Long then bar.high >= price else bar.low <= price)
  }

  /**
   A listed stop that has not filled fills at its price on the first later bar
   that reaches it, for its own quantity, however many bars come before.
   */
  lemma ListedStopFires(s: System, id: OrderId, price: real, bars: seq<Bar>, bar: Bar)
    requires AllRest(s) && id in s.index.stopRequests && !HasFilled(s.broker, id)
    requires var order := s.index.stopRequests[id];
             && order.orderType == Stop && order.stopPrice == Some(price)
             && (forall k :: 0 <= k < |bars| ==> !Reaches(bars[k], order, price))
             && Reaches(bar, order, price)
             && (forall p :: p in s.broker.pending && p.submittedAfter.Some? ==> p.submittedAfter.value < bar.timestamp)
    ensures var order := s.index.stopRequests[id];
            Fill(id, order.instrument, order.side, order.quantity, price, bar.timestamp)
            in AfterBar(AfterBars(s.broker, bars), bar).fillQueue
  {
    var order := s.index.stopRequests[id];
    assert StopRests(s.broker, id, order);
    var p :| p in s.broker.pending && p.brokerId == id && p.order == order;
    hide AllRest, AfterBars, AfterBar;
    FirstDueBarFills(s.broker, bars, bar, p);
  }

  // ---------------------------------------------------------------- a close under a stop's id

  /** A stop for a long position and a close of it, both under one id. */
  function StopThenClose(key: PositionKey): seq<Action> {
    [StopPlaced(key, 5, 95.0, "x", ""), ClosePlaced(key, 5, "x", "")]
  }

  lemma OnlyStop(key: PositionKey, order: OrderRequest)
    ensures var x := SubmitStop(EmptyIndex, key, order, None, Taken("x"));
            Indexed(x) && x.pendingCloses == map[] && StopsOf(x, key) == {"x"}
  {
    EmptyIndexed();
    IsRegistered(EmptyIndex);
    hide Indexed, Registered, SubmitStop;
    StopLeaves(EmptyIndex, key, order, None, Taken("x"));
    SubmitStopKeeps(EmptyIndex, key, order, None, Taken("x"));
  }

  lemma StopAlone(s: System, key: PositionKey)
    requires s.index == EmptyIndex && s.broker == EmptyBroker
    ensures var t, order := PlaceStop(s, key, 5, 95.0, "x", ""), StopRequest(key, 5, 95.0, "x");
            && Indexed(t.index) && t.index.pendingCloses == map[] && StopsOf(t.index, key) == {"x"}
            && t.broker.pending == [PendingOrder(order, "x", None)] && t.broker.fillQueue == []
  {
    assert ActiveStop(EmptyIndex, key) == None;
    OnlyStop(key, StopRequest(key, 5, 95.0, "x"));
    hide Indexed, SubmitStop, ActiveStop, StopsOf;
  }

  lemma CloseAlone(s: System, key: PositionKey, p: PendingOrder)
    requires Indexed(s.index) && s.index.pendingCloses == map[] && StopsOf(s.index, key) == {"x"}
    requires s.broker.pending == [p] && p.brokerId == "x"
    ensures var t := PlaceClose(s, key, 5, "x", "");
            && t.index.pendingCloses == map[key := "x"]
            && t.broker.pending == [] && t.broker.fillQueue == s.broker.fillQueue
  {
    CloseTakesStops(s.index, key, "x", "x");
    var order := CloseOrder(key, 5, "x");
    assert BrokerId(order, "") == "x";
    var sent := AfterSubmit(s.broker, order, "");
    CancelTakes(sent, {"x"}, []);
    assert sent.pending[0] == p && sent.pending[1].brokerId == "x";
    hide RequestClose, Indexed, StopsOf, AfterCancel;
    EmptyWhenNoneIn(AfterCancel(sent, {"x"}).pending);
  }

  lemma EmptyWhenNoneIn(pending: seq<PendingOrder>)
    ensures (forall p :: p !in pending) ==> pending == []
  {
    if pending != [] { assert pending[0] in pending; }
  }

  /** The close is listed as pending, and nothing waits at the broker. */
  lemma CloseUnderStopsId(initial: real, identity: Identity, key: PositionKey)
    ensures var s := RunOf(initial, identity, StopThenClose(key));
            s.index.pendingCloses == map[key := "x"] && s.broker.pending == [] && s.broker.fillQueue == []
  {
    var actions := StopThenClose(key);
    TwoActions(initial, identity, actions);
    hide RunOf, Place, PlaceStop, PlaceClose, BarArrives, Drain, DrainUpdate, EndSession;
    var s := PlaceStop(Start(initial), key, 5, 95.0, "x", "");
    StopAlone(Start(initial), key);
    hide Indexed, StopsOf;
    CloseAlone(s, key, s.broker.pending[0]);
  }

  lemma TwoActions(initial: real, identity: Identity, actions: seq<Action>)
    requires |actions| == 2
    ensures RunOf(initial, identity, actions) == Act(Act(Start(initial), identity, actions[0]), identity, actions[1])
  {
    hide Act;
    assert actions[..1] == [actions[0]] && actions[..1][..0] == [];
    assert RunOf(initial, identity, actions[..1]) == Act(RunOf(initial, identity, []), identity, actions[0]);
  }
}
