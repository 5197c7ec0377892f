/**
 A replay run put together: the paper broker, the order manager's index, the
 portfolio, the ownership ledger and the sizing account, all fed by one stream
 of fills. Strategies are arbitrary: any order, close or stop may be asked for
 at any time, and fills may be drained one by one in between.
 */
module Replay {
  import opened Types
  import opened Sums
  import opened OrderIndex
  import opened PaperBroker
  import opened Portfolio
  import opened Ownership
  import opened ReportLots
  import opened ReportAccount
  import S = Sizing
  import C = Costing

  datatype System = System(
    broker: BrokerState,
    index: Index,
    books: Books,
    ledger: Records,
    sizing: S.SizingAccount,
    drained: seq<OwnedFill>)

  function Start(initial: real): System {
    System(EmptyBroker, EmptyIndex, EmptyBooks, map[], S.Start(initial), [])
  }

  function Taken(id: OrderId): Answer {
    Answered(OrderStatus(id, Pending))
  }

  // ---------------------------------------------------------------- what may happen

  /** An entry or an intent of any role. */
  function Place(s: System, order: OrderRequest, tag: Tag, generated: OrderId): System {
    if order.quantity <= 0 then s
    else s.(broker := AfterSubmit(s.broker, order, generated),
            index := Submit(s.index, tag, None, Taken(BrokerId(order, generated))))
  }

  function CloseOrder(key: PositionKey, quantity: int, closeKey: OrderId): OrderRequest {
    OrderRequest(key.1, ExitSide(quantity), Abs(quantity), Market, None, None, key.0, closeKey, None)
  }

  function PlaceClose(s: System, key: PositionKey, quantity: int, closeKey: OrderId, generated: OrderId): System {
    if quantity == 0 || key in s.index.pendingCloses then s
    else
      var order := CloseOrder(key, quantity, closeKey);
      s.(broker := AfterCancel(AfterSubmit(s.broker, order, generated), StopsOf(s.index, key)),
         index := RequestClose(s.index, key, closeKey, None, Taken(BrokerId(order, generated)), {}))
  }

  function PlaceStop(s: System, key: PositionKey, quantity: int, price: real, newKey: OrderId, generated: OrderId): System {
    if quantity == 0 || price <= 0.0 then s
    else
      var active := ActiveStop(s.index, key);
      if active.None? then
        var order := StopRequest(key, quantity, price, newKey);
        var u := StopUpdate(newKey, None, Raised, Taken(BrokerId(order, generated)));
        s.(broker := AfterSubmit(s.broker, order, generated), index := EnsureStop(s.index, key, quantity, price, u))
      else
        var current := s.index.stopRequests[active.value];
        if current.stopPrice.Some? && !Improves(ExitSide(quantity), price, current.stopPrice.value) then s
        else
          var after := AfterModify(s.broker, active.value, StopRequest(key, quantity, price, current.idempotencyKey));
          if after.None? then s
          else s.(broker := after.value,
                  index := EnsureStop(s.index, key, quantity, price, StopUpdate(newKey, None, Taken(active.value), Raised)))
  }

  function BarArrives(s: System, bar: Bar): System {
    s.(sizing := S.SizeBar(s.sizing, bar), broker := AfterBar(s.broker, bar))
  }

  function OwnedBy(x: Index, fill: Fill): OwnedFill {
    OwnedFill(fill, Find(x.owner, fill.orderId), if fill.orderId in x.tradeId then x.tradeId[fill.orderId] else None)
  }

  /** The orders handling this fill cancels at the broker. */
  function CancelledBy(x: Index, fill: Fill): set<OrderId> {
    var f := OwnedBy(x, fill);
    if fill.orderId !in x.role || f.strategyId.None? then {}
    else
      var key := (f.strategyId.value, fill.instrument, f.tradeId);
      match x.role[fill.orderId]
      case Close => StopsOf(x, key)
      case ProtectiveStop => if key in x.pendingCloses then {x.pendingCloses[key]} else {}
      case _ => {}
  }

  /** A stop to submit for an entry fill, when the strategy declares one. */
  datatype StopPlan = StopPlan(price: real, stopKey: OrderId, generated: OrderId)

  function StopOrder(fill: Fill, owner: StrategyId, plan: StopPlan): OrderRequest {
    OrderRequest(fill.instrument, if fill.side.Long? then Short else Long, fill.quantity, Stop, None, Some(plan.price),
                 owner, plan.stopKey, None)
  }

  predicate IsEntry(x: Index, fill: Fill) {
    fill.orderId in x.role && x.role[fill.orderId].Entry?
  }

  function EventOf(f: OwnedFill, sequence: nat): FillEvent {
    FillEvent(sequence, f.fill.timestamp, f.strategyId.GetOr("<unknown>"), "", f.tradeId, f.fill.instrument, f.fill.side,
              f.fill.quantity, f.fill.price)
  }

  /** Takes the next fill off the broker's queue and fans it out. */
  function Drain(s: System, identity: Identity, plan: Option<StopPlan>): System {
    if s.broker.fillQueue == [] then s
    else
      var fill := s.broker.fillQueue[0];
      var f := OwnedBy(s.index, fill);
      var popped := AfterCancel(s.broker.(fillQueue := s.broker.fillQueue[1..]), CancelledBy(s.index, fill));
      var stops := plan.Some? && f.strategyId.Some? && IsEntry(s.index, fill);
      var order := if stops then Some(StopOrder(fill, f.strategyId.value, plan.value)) else None;
      System(
        if order.Some? then AfterSubmit(popped, order.value, plan.value.generated) else popped,
        HandleFill(s.index, fill, {},
          if order.Some? then Some(StopAttempt(order.value, None, Taken(BrokerId(order.value, plan.value.generated)))) else None),
        AfterFill(s.books, f),
        AfterLedgerFill(s.ledger, identity, f, IsEntry(s.index, fill)),
        S.SizeFill(s.sizing, EventOf(f, |s.drained|)),
        s.drained + [f])
  }

  function DrainUpdate(s: System): System {
    if s.broker.updateQueue == [] then s
    else s.(broker := s.broker.(updateQueue := s.broker.updateQueue[1..]),
            index := HandleUpdate(s.index, s.broker.updateQueue[0]))
  }

  function EndSession(s: System, sessionOnly: set<StrategyId>): System {
    s.(broker := AfterCancel(s.broker, SessionStops(s.index, sessionOnly)),
       index := CancelSessionStops(s.index, sessionOnly, {}))
  }

  datatype Action =
    | Placed(order: OrderRequest, tag: Tag, generated: OrderId)
    | ClosePlaced(key: PositionKey, quantity: int, closeKey: OrderId, generated: OrderId)
    | StopPlaced(key: PositionKey, quantity: int, price: real, newKey: OrderId, generated: OrderId)
    | BarSeen(bar: Bar)
    | FillDrained(plan: Option<StopPlan>)
    | UpdateDrained
    | SessionOver(sessionOnly: set<StrategyId>)

  function Act(s: System, identity: Identity, action: Action): System {
    match action
    case Placed(order, tag, generated) => Place(s, order, tag, generated)
    case ClosePlaced(key, quantity, closeKey, generated) => PlaceClose(s, key, quantity, closeKey, generated)
    case StopPlaced(key, quantity, price, newKey, generated) => PlaceStop(s, key, quantity, price, newKey, generated)
    case BarSeen(bar) => BarArrives(s, bar)
    case FillDrained(plan) => Drain(s, identity, plan)
    case UpdateDrained => DrainUpdate(s)
    case SessionOver(sessionOnly) => EndSession(s, sessionOnly)
  }

  function RunOf(initial: real, identity: Identity, actions: seq<Action>): System {
    if actions == [] then Start(initial)
    else Act(RunOf(initial, identity, actions[..|actions| - 1]), identity, actions[|actions| - 1])
  }

  // ---------------------------------------------------------------- every order is known

  /** Pending orders and queued fills belong to registered orders of positive size; the broker turns nothing down. */
  ghost predicate Known(s: System) {
    && (forall p :: p in s.broker.pending ==> p.brokerId in s.index.owner && p.order.quantity > 0)
    && (forall f :: f in s.broker.fillQueue ==> f.orderId in s.index.owner && f.quantity > 0)
    && (forall u :: u in s.broker.updateQueue ==> !Unaccepted(u))
  }

  lemma {:induction false} FillsComeFromPending(pending: seq<PendingOrder>, bar: Bar)
    ensures forall f :: f in FillsFor(pending, bar) ==> exists p :: p in pending && p.brokerId == f.orderId && p.order.quantity == f.quantity && p.order.instrument == f.instrument
    ensures forall p :: p in StillPending(pending, bar) ==> p in pending
    ensures forall u :: u in Completed(FillsFor(pending, bar)) ==> !Unaccepted(u)
  {
    if pending != [] {
      var init, p := pending[..|pending| - 1], pending[|pending| - 1];
      FillsComeFromPending(init, bar);
      assert p in pending;
      forall f | f in FillsFor(init, bar)
        ensures exists q :: q in pending && q.brokerId == f.orderId && q.order.quantity == f.quantity && q.order.instrument == f.instrument
      {
        var q :| q in init && q.brokerId == f.orderId && q.order.quantity == f.quantity && q.order.instrument == f.instrument;
        assert q in pending;
      }
      if FillsOn(p, bar) {
        var fills := FillsFor(pending, bar);
        assert fills[..|fills| - 1] == FillsFor(init, bar);
      }
    }
  }

  lemma {:induction false} WithoutSubset(pending: seq<PendingOrder>, ids: set<OrderId>)
    ensures forall p :: p in Without(pending, ids) ==> p in pending
  {
    if pending != [] {
      WithoutSubset(pending[..|pending| - 1], ids);
    }
  }

  lemma {:induction false} ExchangedMembers(pending: seq<PendingOrder>, id: OrderId, order: OrderRequest)
    requires Exchanged(pending, id, order).Some?
    ensures forall p :: p in Exchanged(pending, id, order).value ==>
              p in pending || (p.order == order && p.brokerId == id && exists q :: q in pending && q.brokerId == p.brokerId)
  {
    if pending[0].brokerId == id {
      assert pending[0] in pending;
    } else {
      ExchangedMembers(pending[1..], id, order);
      forall p | p in Exchanged(pending[1..], id, order).value
        ensures p in pending || (p.order == order && p.brokerId == id && exists q :: q in pending && q.brokerId == p.brokerId)
      {
        if p !in pending[1..] {
          var q :| q in pending[1..] && q.brokerId == p.brokerId;
          assert q in pending;
        }
      }
    }
  }

  /** With a broker that takes every order, no owner entry is ever dropped. */
  lemma OwnersGrow(x: Index, tag: Tag, id: OrderId)
    ensures Submit(x, tag, None, Taken(id)).owner == x.owner[id := tag.strategyId]
  {
  }

  lemma StopOwnersGrow(x: Index, key: PositionKey, order: OrderRequest, id: OrderId)
    ensures SubmitStop(x, key, order, None, Taken(id)).owner == x.owner[id := key.0]
  {
  }

  lemma CloseOwnersGrow(x: Index, key: PositionKey, closeKey: string, id: OrderId)
    requires key !in x.pendingCloses
    ensures RequestClose(x, key, closeKey, None, Taken(id), {}).owner == x.owner[id := key.0]
  {
    SubmitCloseIs(x, key, closeKey, None, Taken(id), {});
    OwnersGrow(x, Tag(key.0, Close, key.2, None), id);
    hide Submit, SubmitClose;
  }

  lemma FillOwnersGrow(x: Index, fill: Fill, stop: Option<StopAttempt>)
    requires stop.Some? ==> stop.value.reserved.None? && stop.value.answer.Answered? && stop.value.answer.status.status == Pending
    ensures x.owner.Keys <= HandleFill(x, fill, {}, stop).owner.Keys
    ensures stop.Some? && IsEntry(x, fill) && fill.orderId in x.owner ==>
              stop.value.answer.status.orderId in HandleFill(x, fill, {}, stop).owner
  {
    hide ClearPendingClose, WithoutStops, ClearStop, SubmitStop;
    CancelsKeepOwners(x, fill.orderId);
    if stop.Some? && IsEntry(x, fill) && fill.orderId in x.owner {
      var tradeId := if fill.orderId in x.tradeId then x.tradeId[fill.orderId] else None;
      StopOwnersGrow(x, (x.owner[fill.orderId], fill.instrument, tradeId), stop.value.order, stop.value.answer.status.orderId);
      assert stop.value.answer == Taken(stop.value.answer.status.orderId);
    }
  }

  lemma CancelsKeepOwners(x: Index, id: OrderId)
    ensures forall y, i :: ClearPendingClose(y, i).owner == y.owner
    ensures forall y, i :: ClearStop(y, i).owner == y.owner
  {
  }

  lemma PlaceKnown(s: System, order: OrderRequest, tag: Tag, generated: OrderId)
    requires Known(s)
    ensures Known(Place(s, order, tag, generated))
  {
    hide Submit, BrokerId;
    OwnersGrow(s.index, tag, BrokerId(order, generated));
  }

  lemma PlaceCloseKnown(s: System, key: PositionKey, quantity: int, closeKey: OrderId, generated: OrderId)
    requires Known(s)
    ensures Known(PlaceClose(s, key, quantity, closeKey, generated))
  {
    hide RequestClose, BrokerId;
    if quantity != 0 && key !in s.index.pendingCloses {
      var order := CloseOrder(key, quantity, closeKey);
      CloseOwnersGrow(s.index, key, closeKey, BrokerId(order, generated));
      WithoutSubset(AfterSubmit(s.broker, order, generated).pending, StopsOf(s.index, key));
    }
  }

  lemma PlaceStopKnown(s: System, key: PositionKey, quantity: int, price: real, newKey: OrderId, generated: OrderId)
    requires Known(s)
    ensures Known(PlaceStop(s, key, quantity, price, newKey, generated))
  {
    hide SubmitStop, BrokerId, ActiveStop, Improves, ClearStop, Exchanged;
    if quantity != 0 && price > 0.0 {
      var active := ActiveStop(s.index, key);
      if active.None? {
        var order := StopRequest(key, quantity, price, newKey);
        StopOwnersGrow(s.index, key, order, BrokerId(order, generated));
      } else {
        var order := StopRequest(key, quantity, price, s.index.stopRequests[active.value].idempotencyKey);
        if Exchanged(s.broker.pending, active.value, order).Some? {
          ExchangedMembers(s.broker.pending, active.value, order);
        }
      }
    }
  }

  lemma BarKnown(s: System, bar: Bar)
    requires Known(s)
    ensures Known(BarArrives(s, bar))
  {
    hide FillsFor, StillPending, Completed, Bought;
    FillsComeFromPending(s.broker.pending, bar);
  }

  lemma DrainKnown(s: System, identity: Identity, plan: Option<StopPlan>)
    requires Known(s)
    ensures Known(Drain(s, identity, plan))
  {
    hide HandleFill, AfterFill, AfterLedgerFill, S.SizeFill, BrokerId, CancelledBy;
    if s.broker.fillQueue != [] {
      var fill := s.broker.fillQueue[0];
      assert fill in s.broker.fillQueue;
      var f := OwnedBy(s.index, fill);
      var stops := plan.Some? && f.strategyId.Some? && IsEntry(s.index, fill);
      WithoutSubset(s.broker.pending, CancelledBy(s.index, fill));
      if stops {
        var order := StopOrder(fill, f.strategyId.value, plan.value);
        FillOwnersGrow(s.index, fill, Some(StopAttempt(order, None, Taken(BrokerId(order, plan.value.generated)))));
      } else {
        FillOwnersGrow(s.index, fill, None);
      }
    }
  }

  lemma ActKnown(s: System, identity: Identity, action: Action)
    requires Known(s)
    ensures Known(Act(s, identity, action))
  {
    hide Known, Place, PlaceClose, PlaceStop, BarArrives, Drain;
    match action
    case Placed(order, tag, generated) => PlaceKnown(s, order, tag, generated);
    case ClosePlaced(key, quantity, closeKey, generated) => PlaceCloseKnown(s, key, quantity, closeKey, generated);
    case StopPlaced(key, quantity, price, newKey, generated) => PlaceStopKnown(s, key, quantity, price, newKey, generated);
    case BarSeen(bar) => BarKnown(s, bar);
    case FillDrained(plan) => DrainKnown(s, identity, plan);
    case UpdateDrained => UpdateKnown(s);
    case SessionOver(sessionOnly) => SessionKnown(s, sessionOnly);
  }

  lemma UpdateKnown(s: System)
    requires Known(s)
    ensures Known(DrainUpdate(s))
  {
    if s.broker.updateQueue != [] {
      assert s.broker.updateQueue[0] in s.broker.updateQueue;
    }
  }

  lemma SessionKnown(s: System, sessionOnly: set<StrategyId>)
    requires Known(s)
    ensures Known(EndSession(s, sessionOnly))
  {
    hide SessionStops;
    WithoutSubset(s.broker.pending, SessionStops(s.index, sessionOnly));
    CancelsKeepOwners(s.index, "");
  }

  // ---------------------------------------------------------------- every book agrees

  /** What the broker holds is what was drained plus what is still queued; every other book is what was drained. */
  ghost predicate Agreeing(s: System, identity: Identity) {
    && s.books == AfterFills(s.drained)
    && (forall i :: Held(s.broker.positions, i) == NetOf(s.drained, Broker(i)) + NetOfFills(s.broker.fillQueue, i))
    && (forall i :: Held(s.sizing.positions, i) == NetOf(s.drained, Broker(i)))
    && (forall key :: Recorded(s.ledger, key) == NetOn(s.drained, identity, key))
    && (forall f :: f in s.drained ==> f.strategyId.Some? && f.fill.quantity > 0)
  }

  /** Two states with the same books, holdings and queued fills. */
  predicate SameHoldings(s: System, t: System) {
    && t.books == s.books && t.drained == s.drained && t.ledger == s.ledger && t.sizing.positions == s.sizing.positions
    && t.broker.positions == s.broker.positions && t.broker.fillQueue == s.broker.fillQueue
  }

  lemma QuietActions(s: System, identity: Identity, action: Action)
    requires !action.BarSeen? && !action.FillDrained?
    ensures SameHoldings(s, Act(s, identity, action))
  {
    hide Submit, RequestClose, EnsureStop, HandleUpdate, WithoutStops, Without, Exchanged, ActiveStop, Improves, BrokerId;
  }

  lemma BarAgrees(s: System, identity: Identity, bar: Bar)
    requires Agreeing(s, identity)
    ensures Agreeing(BarArrives(s, bar), identity)
  {
    hide AfterFills, NetOf, NetOn, FillsFor, StillPending, Bought, NetOfFills, Recorded;
    var fills := FillsFor(s.broker.pending, bar);
    forall i ensures Held(Bought(s.broker.positions, fills), i)
                  == NetOf(s.drained, Broker(i)) + NetOfFills(s.broker.fillQueue + fills, i)
    {
      BoughtNet(s.broker.positions, fills, i);
      NetConcat(s.broker.fillQueue, fills, i);
    }
  }

  lemma NextFill(drained: seq<OwnedFill>, f: OwnedFill, identity: Identity)
    ensures AfterFills(drained + [f]) == AfterFill(AfterFills(drained), f)
    ensures forall i :: NetOf(drained + [f], Broker(i))
                     == NetOf(drained, Broker(i)) + (if f.fill.instrument == i then SignedOf(f.fill) else 0)
    ensures forall key :: NetOn(drained + [f], identity, key)
                       == NetOn(drained, identity, key) + (if LandsOn(f, identity, key) then SignedOf(f.fill) else 0)
  {
    hide AfterFill, SignedOf, LandsOn;
    assert (drained + [f])[..|drained|] == drained;
  }

  lemma FirstFill(queue: seq<Fill>, i: Instrument)
    requires queue != []
    ensures NetOfFills(queue, i)
         == (if queue[0].instrument == i then SignedOf(queue[0]) else 0) + NetOfFills(queue[1..], i)
  {
    assert queue == [queue[0]] + queue[1..];
    NetConcat([queue[0]], queue[1..], i);
    assert [queue[0]][..0] == [];
  }

  lemma SizedStep(sizing: S.SizingAccount, f: OwnedFill, sequence: nat, i: Instrument)
    ensures Held(S.SizeFill(sizing, EventOf(f, sequence)).positions, i)
         == Held(sizing.positions, i) + (if f.fill.instrument == i then SignedOf(f.fill) else 0)
  {
    hide Value;
  }

  lemma DrainHoldings(s: System, identity: Identity, plan: Option<StopPlan>)
    requires s.broker.fillQueue != []
    ensures var t, f := Drain(s, identity, plan), OwnedBy(s.index, s.broker.fillQueue[0]);
            && t.books == AfterFill(s.books, f)
            && t.drained == s.drained + [f]
            && t.ledger == AfterLedgerFill(s.ledger, identity, f, IsEntry(s.index, f.fill))
            && t.sizing == S.SizeFill(s.sizing, EventOf(f, |s.drained|))
            && t.broker.positions == s.broker.positions
            && t.broker.fillQueue == s.broker.fillQueue[1..]
  {
    hide HandleFill, AfterFill, AfterLedgerFill, S.SizeFill, Without, CancelledBy, BrokerId;
  }

  lemma DrainAgrees(s: System, identity: Identity, plan: Option<StopPlan>)
    requires Agreeing(s, identity) && Known(s) && s.broker.fillQueue != []
    ensures Agreeing(Drain(s, identity, plan), identity)
  {
    hide Drain, AfterFills, AfterFill, AfterLedgerFill, S.SizeFill, NetOf, NetOn, NetOfFills, Recorded, SignedOf, LandsOn;
    var fill := s.broker.fillQueue[0];
    var f := OwnedBy(s.index, fill);
    assert fill in s.broker.fillQueue;
    DrainHoldings(s, identity, plan);
    NextFill(s.drained, f, identity);
    var t := Drain(s, identity, plan);
    forall i ensures Held(t.broker.positions, i) == NetOf(t.drained, Broker(i)) + NetOfFills(t.broker.fillQueue, i) {
      FirstFill(s.broker.fillQueue, i);
    }
    forall i ensures Held(t.sizing.positions, i) == NetOf(t.drained, Broker(i)) {
      SizedStep(s.sizing, f, |s.drained|, i);
    }
    forall key ensures Recorded(t.ledger, key) == NetOn(t.drained, identity, key) {
      LedgerStep(s.ledger, identity, f, IsEntry(s.index, f.fill), key);
    }
  }

  lemma StartAgrees(initial: real, identity: Identity)
    ensures Known(Start(initial)) && Agreeing(Start(initial), identity)
  {
  }

  /** Whatever strategies ask for and however draining interleaves, all books stay in agreement. */
  lemma {:induction false} BooksAlwaysAgree(initial: real, identity: Identity, actions: seq<Action>)
    ensures Known(RunOf(initial, identity, actions)) && Agreeing(RunOf(initial, identity, actions), identity)
  {
    hide Known, Agreeing, Act;
    if actions == [] {
      StartAgrees(initial, identity);
    } else {
      var s, action := RunOf(initial, identity, actions[..|actions| - 1]), actions[|actions| - 1];
      BooksAlwaysAgree(initial, identity, actions[..|actions| - 1]);
      ActKnown(s, identity, action);
      ActAgrees(s, identity, action);
    }
  }

  lemma ActAgrees(s: System, identity: Identity, action: Action)
    requires Known(s) && Agreeing(s, identity)
    ensures Agreeing(Act(s, identity, action), identity)
  {
    hide Known, BarArrives, Drain, Place, PlaceClose, PlaceStop, DrainUpdate, EndSession;
    if action.BarSeen? {
      BarAgrees(s, identity, action.bar);
    } else if action.FillDrained? {
      if s.broker.fillQueue != [] { DrainAgrees(s, identity, action.plan); } else { NothingToDrain(s, identity, action.plan); }
      hide Agreeing;
    } else {
      QuietActions(s, identity, action);
    }
  }

  lemma NothingToDrain(s: System, identity: Identity, plan: Option<StopPlan>)
    requires s.broker.fillQueue == []
    ensures Drain(s, identity, plan) == s
  {
  }

  // ---------------------------------------------------------------- what follows once the queue is empty

  /**
   With nothing queued, broker, portfolio and sizing account hold the same
   quantity of every instrument, and so do the strategies' positions together
   and the report's lots.
   */
  lemma DrainedBooksEqual(initial: real, identity: Identity, actions: seq<Action>, i: Instrument, owners: set<StrategyId>)
    requires RunOf(initial, identity, actions).broker.fillQueue == []
    requires forall f :: f in RunOf(initial, identity, actions).drained && f.strategyId.Some? ==> f.strategyId.value in owners
    ensures var s := RunOf(initial, identity, actions);
            var held := Held(s.broker.positions, i);
            && QuantityHeld(Find(s.books.positions, i)) == held
            && Held(s.sizing.positions, i) == held
            && Sum(owners, StrategyHolds(s.books, i)) == held as real
            && Total(BookLots(LotBook([], []), EventsOf(s.drained)).lots, QuantityOf(OneInstrument(i))) == held as real
  {
    var s := RunOf(initial, identity, actions);
    BooksAlwaysAgree(initial, identity, actions);
    EntriesAreNets(s.drained, Broker(i));
    StrategiesMakeBroker(s.drained, i, owners);
    forall o | o in owners ensures StrategyHolds(s.books, i)(o) == NetOfStrategy(s.drained, i)(o) {
      EntriesAreNets(s.drained, Strategy(o, i));
    }
    SumSame(owners, StrategyHolds(s.books, i), NetOfStrategy(s.drained, i));
    assert forall n :: 0 <= n < |s.drained| ==> s.drained[n] in s.drained;
    LotsHoldNet(s.drained, i);
    hide RunOf, Sum, Total, AfterFills, BookLots;
  }

  /**
   At every moment, under every name of the ownership ledger: what the broker
   holds in all instruments of the name is what the ledger's records under it
   add up to, plus what is still queued.
   */
  lemma LedgerAlwaysAddsUp(initial: real, identity: Identity, actions: seq<Action>, instruments: set<Instrument>, name: string)
    requires forall f :: f in RunOf(initial, identity, actions).drained ==> f.fill.instrument in instruments
    ensures var s := RunOf(initial, identity, actions);
            NamedTotal(BrokerHolds(s.broker), instruments, identity, name)
            == Sum(KeysNamed(s.ledger, name), QuantityRecorded(s.ledger)) + NamedTotal(Queued(s.broker), instruments, identity, name)
  {
    hide RunOf, Sum;
    var s := RunOf(initial, identity, actions);
    BooksAlwaysAgree(initial, identity, actions);
    LedgerNamesAddUp(s.drained, s.ledger, identity, name);
    NamedIsEach(s.drained, identity, name, instruments);
    SumAdds(InstrumentsNamed(instruments, identity, name), InReals(BrokerHolds(s.broker)), NetOfEach(s.drained),
            InReals(Queued(s.broker)));
  }

  /** With the queue empty a ledger name with one traded instrument records what the broker holds of it. */
  lemma DrainedLedgerEqual(initial: real, identity: Identity, actions: seq<Action>, i: Instrument)
    requires RunOf(initial, identity, actions).broker.fillQueue == []
    requires forall f :: f in RunOf(initial, identity, actions).drained && identity(f.fill.instrument) == identity(i) ==>
               f.fill.instrument == i
    ensures var s := RunOf(initial, identity, actions);
            Sum(KeysNamed(s.ledger, identity(i)), QuantityRecorded(s.ledger)) == Held(s.broker.positions, i) as real
  {
    hide RunOf, Sum;
    var s := RunOf(initial, identity, actions);
    BooksAlwaysAgree(initial, identity, actions);
    LedgerAddsUp(s.drained, s.ledger, identity, i);
  }

  function StrategyHolds(b: Books, i: Instrument): StrategyId -> real {
    s => QuantityHeld(Find(b.strategyPositions, (s, i))) as real
  }

  function EventsOf(drained: seq<OwnedFill>): seq<FillEvent> {
    if drained == [] then []
    else EventsOf(drained[..|drained| - 1]) + [EventOf(drained[|drained| - 1], |drained| - 1)]
  }

  lemma {:induction false} LotsHoldNet(drained: seq<OwnedFill>, i: Instrument)
    requires forall n :: 0 <= n < |drained| ==> drained[n].fill.quantity > 0
    ensures Total(BookLots(LotBook([], []), EventsOf(drained)).lots, QuantityOf(OneInstrument(i)))
         == NetOf(drained, Broker(i)) as real
  {
    hide Total, ApplyFillToLots, QuantityOf;
    if drained == [] {
      TotalNone(QuantityOf(OneInstrument(i)));
    } else {
      var init, f := drained[..|drained| - 1], drained[|drained| - 1];
      LotsHoldNet(init, i);
      var e := EventOf(f, |drained| - 1);
      assert EventsOf(drained)[..|EventsOf(drained)| - 1] == EventsOf(init);
      FillConserves(BookLots(LotBook([], []), EventsOf(init)).lots, e, OneInstrument(i));
    }
  }

  lemma {:induction false} EventsMoveNet(drained: seq<OwnedFill>, i: Instrument)
    requires forall n :: 0 <= n < |drained| ==> drained[n].fill.quantity > 0
    ensures Total(EventsOf(drained), MovedIn(OneInstrument(i))) == NetOf(drained, Broker(i)) as real
  {
    hide Total;
    if drained == [] {
      TotalNone(MovedIn(OneInstrument(i)));
    } else {
      var init, f := drained[..|drained| - 1], drained[|drained| - 1];
      EventsMoveNet(init, i);
      TotalConcat(EventsOf(init), [EventOf(f, |drained| - 1)], MovedIn(OneInstrument(i)));
      TotalOne(EventOf(f, |drained| - 1), MovedIn(OneInstrument(i)));
    }
  }

  /**
   With nothing queued, the account series the report builds from the drained
   fills, over whatever bars it is given, ends with the broker's quantity of
   every instrument, in its lots and in its positions.
   */
  lemma DrainedReportEqual(initial: real, identity: Identity, actions: seq<Action>, equity: real, bars: seq<Bar>, i: Instrument)
    requires RunOf(initial, identity, actions).broker.fillQueue == []
    ensures var s := RunOf(initial, identity, actions);
            var events := EventsOf(s.drained);
            var a := AccountAfter(equity, bars, events, Timestamps(bars, events));
            && Held(a.run.positions, i) == Held(s.broker.positions, i)
            && Total(a.lots, QuantityOf(OneInstrument(i))) == Held(s.broker.positions, i) as real
  {
    var s := RunOf(initial, identity, actions);
    BooksAlwaysAgree(initial, identity, actions);
    assert forall n :: 0 <= n < |s.drained| ==> s.drained[n] in s.drained;
    hide RunOf, Total, AccountAfter, EventsOf, MovedIn, QuantityOf;
    EventsMoveNet(s.drained, i);
    SeriesHoldsAllFills(equity, bars, EventsOf(s.drained), OneInstrument(i), i);
  }

  // ---------------------------------------------------------------- runtime reconciliation

  function InReals(q: Instrument -> int): Instrument -> real {
    i => q(i) as real
  }

  /** Quantity under one reporting name, over the instruments looked at. */
  ghost function NamedTotal(q: Instrument -> int, relevant: set<Instrument>, name: Instrument -> string, k: string): real {
    Sum(InstrumentsNamed(relevant, name, k), InReals(q))
  }

  /** What the fills still queued will move. */
  function Queued(b: BrokerState): Instrument -> int {
    i => NetOfFills(b.fillQueue, i)
  }

  function BrokerHolds(b: BrokerState): Instrument -> int {
    i => Held(b.positions, i)
  }

  function BooksHold(b: Books): Instrument -> int {
    i => QuantityHeld(Find(b.positions, i))
  }

  datatype Snapshot = Snapshot(unknownOrders: set<OrderId>, drift: bool)

  /** Compares the broker's positions and open orders with what the engine believes. */
  ghost function Reconcile(s: System, relevant: set<Instrument>, name: Instrument -> string): Snapshot {
    Snapshot(
      set p | p in s.broker.pending && p.order.instrument in relevant && p.brokerId !in TrackedOpenOrderIds(s.index) :: p.brokerId,
      exists k :: NamedTotal(BrokerHolds(s.broker), relevant, name, k) != NamedTotal(BooksHold(s.books), relevant, name, k))
  }

  /**
   In a replay that starts flat the check never finds an unknown order, and it
   finds drift exactly while the queued fills of some reporting name do not net
   to zero; so never once they are drained.
   */
  lemma ReconciliationIsQuiet(initial: real, identity: Identity, actions: seq<Action>, relevant: set<Instrument>, name: Instrument -> string)
    ensures var s := RunOf(initial, identity, actions);
            && Reconcile(s, relevant, name).unknownOrders == {}
            && (Reconcile(s, relevant, name).drift
                <==> exists k :: NamedTotal(Queued(s.broker), relevant, name, k) != 0.0)
            && (s.broker.fillQueue == [] ==> !Reconcile(s, relevant, name).drift)
  {
    var s := RunOf(initial, identity, actions);
    BooksAlwaysAgree(initial, identity, actions);
    var f, g, q := BrokerHolds(s.broker), BooksHold(s.books), Queued(s.broker);
    forall i ensures f(i) == g(i) + q(i) {
      EntriesAreNets(s.drained, Broker(i));
    }
    hide Reconcile, Sum, RunOf;
    forall k ensures NamedTotal(f, relevant, name, k) == NamedTotal(g, relevant, name, k) + NamedTotal(q, relevant, name, k) {
      SumAdds(InstrumentsNamed(relevant, name, k), InReals(f), InReals(g), InReals(q));
    }
    ReconciledIs(s, relevant, name);
    if s.broker.fillQueue == [] {
      forall k ensures NamedTotal(q, relevant, name, k) == 0.0 {
        SumWiden({}, InstrumentsNamed(relevant, name, k), InReals(q));
        SumEmpty(InReals(q));
      }
    }
  }

  lemma ReconciledIs(s: System, relevant: set<Instrument>, name: Instrument -> string)
    requires Known(s)
    ensures Reconcile(s, relevant, name).unknownOrders == {}
    ensures Reconcile(s, relevant, name).drift
            <==> exists k :: NamedTotal(BrokerHolds(s.broker), relevant, name, k) != NamedTotal(BooksHold(s.books), relevant, name, k)
  {
    hide NamedTotal;
  }

  lemma SumEmpty(f: Instrument -> real)
    ensures Sum({}, f) == 0.0
  {
  }
}
