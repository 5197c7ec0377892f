/**
 Order ids in a replay, where the paper broker takes an order's own key as its
 id: exactly when the order index survives, that it always does with the keys
 the order manager derives and one contract per symbol, and a run with two.
 */
module ReplayIds {
  import opened Types
  import opened OrderIndex
  import opened OrderReuse
  import opened OrderNames
  import opened PaperBroker
  import opened Ownership
  import opened Replay
  import Portfolio
  import S = Sizing

  // ---------------------------------------------------------------- what an action does to the index

  /** The stop a drained fill asks for. */
  function Attempt(s: System, plan: Option<StopPlan>): Option<StopAttempt>
    requires s.broker.fillQueue != []
  {
    var fill := s.broker.fillQueue[0];
    if plan.Some? && Enters(s.index, fill) then
      var order := StopOrder(fill, s.index.owner[fill.orderId], plan.value);
      Some(StopAttempt(order, None, Taken(BrokerId(order, plan.value.generated))))
    else None
  }

  /** The operation on the order index that an action comes to, if any. */
  function OperationOf(s: System, action: Action): Option<Operation> {
    match action
    case Placed(order, tag, generated) =>
      if order.quantity <= 0 then None else Some(Submission(tag, None, Taken(BrokerId(order, generated))))
    case ClosePlaced(key, quantity, closeKey, generated) =>
      if quantity == 0 || key in s.index.pendingCloses then None
      else Some(CloseRequest(key, closeKey, None, Taken(BrokerId(CloseOrder(key, quantity, closeKey), generated)), {}))
    case StopPlaced(key, quantity, price, newKey, generated) =>
      if quantity == 0 || price <= 0.0 then None
      else if ActiveStop(s.index, key).None? then
        var id := BrokerId(StopRequest(key, quantity, price, newKey), generated);
        Some(StopRequested(key, quantity, price, StopUpdate(newKey, None, Raised, Taken(id))))
      else if PlaceStop(s, key, quantity, price, newKey, generated) == s then None
      else
        var id := ActiveStop(s.index, key).value;
        Some(StopRequested(key, quantity, price, StopUpdate(newKey, None, Taken(id), Raised)))
    case BarSeen(_) => None
    case FillDrained(plan) =>
      if s.broker.fillQueue == [] then None else Some(FillReceived(s.broker.fillQueue[0], {}, Attempt(s, plan)))
    case UpdateDrained => if s.broker.updateQueue == [] then None else Some(UpdateReceived(s.broker.updateQueue[0]))
    case SessionOver(sessionOnly) => Some(SessionEnded(sessionOnly, {}))
  }

  lemma ActIsOperation(s: System, identity: Identity, action: Action)
    ensures var op := OperationOf(s, action);
            Act(s, identity, action).index == if op.None? then s.index else Step(s.index, op.value)
  {
    hide Submit, RequestClose, EnsureStop, HandleFill, HandleUpdate, CancelSessionStops, ActiveStop, Improves, Exchanged,
      BrokerId, Without, CancelledBy, StopOrder, AfterBar, AfterSubmit;
    match action
    case Placed(_, _, _) =>
    case ClosePlaced(_, _, _, _) =>
    case StopPlaced(key, quantity, price, newKey, generated) =>
    case BarSeen(_) =>
    case FillDrained(plan) => if s.broker.fillQueue != [] { DrainIsOperation(s, identity, plan); }
    case UpdateDrained =>
    case SessionOver(_) =>
  }

  lemma DrainIsOperation(s: System, identity: Identity, plan: Option<StopPlan>)
    requires s.broker.fillQueue != []
    ensures Drain(s, identity, plan).index == HandleFill(s.index, s.broker.fillQueue[0], {}, Attempt(s, plan))
  {
    hide HandleFill, BrokerId, Without, CancelledBy, StopOrder, AfterSubmit;
  }

  // ---------------------------------------------------------------- exactly when the index survives

  predicate ActionHarmless(s: System, action: Action) {
    var op := OperationOf(s, action);
    op.Some? ==> Harmless(s.index, op.value)
  }

  ghost predicate AllHarmless(initial: real, identity: Identity, actions: seq<Action>) {
    forall n: nat :: n < |actions| ==> ActionHarmless(RunOf(initial, identity, actions[..n]), actions[n])
  }

  ghost predicate IndexedThroughout(initial: real, identity: Identity, actions: seq<Action>) {
    forall n: nat :: n <= |actions| ==> Indexed(RunOf(initial, identity, actions[..n]).index)
  }

  /** An action keeps the index exactly when the ids it brings are harmless in the state it meets. */
  lemma ActionKeepsIff(s: System, identity: Identity, action: Action)
    requires Indexed(s.index)
    ensures Indexed(Act(s, identity, action).index) <==> ActionHarmless(s, action)
  {
    ActIsOperation(s, identity, action);
    var op := OperationOf(s, action);
    hide Indexed, Act, Step, OperationOf, Harmless;
    if op.Some? {
      StepKeepsIff(s.index, op.value);
    }
  }

  /** A replay keeps the order index throughout exactly when every id is harmless where it comes in. */
  lemma {:induction false} ReplayIndexedIff(initial: real, identity: Identity, actions: seq<Action>)
    ensures IndexedThroughout(initial, identity, actions) <==> AllHarmless(initial, identity, actions)
  {
    hide Indexed, Act, ActionHarmless;
    if actions == [] {
      EmptyIndexed();
    } else {
      var init, last := actions[..|actions| - 1], actions[|actions| - 1];
      ReplayIndexedIff(initial, identity, init);
      PrefixesOf(initial, identity, actions);
      if Indexed(RunOf(initial, identity, init).index) {
        ActionKeepsIff(RunOf(initial, identity, init), identity, last);
      }
    }
  }

  lemma PrefixesOf(initial: real, identity: Identity, actions: seq<Action>)
    requires actions != []
    ensures var init := actions[..|actions| - 1];
            && (IndexedThroughout(initial, identity, actions)
                <==> IndexedThroughout(initial, identity, init) && Indexed(RunOf(initial, identity, actions).index))
            && (AllHarmless(initial, identity, actions)
                <==> AllHarmless(initial, identity, init)
                     && ActionHarmless(RunOf(initial, identity, init), actions[|actions| - 1]))
            && (IndexedThroughout(initial, identity, init) ==> Indexed(RunOf(initial, identity, init).index))
  {
    hide Indexed, ActionHarmless, RunOf;
    var init := actions[..|actions| - 1];
    assert actions[..|actions|] == actions && init[..|init|] == init;
    assert forall n: nat :: n <= |init| ==> init[..n] == actions[..n];
    if IndexedThroughout(initial, identity, actions) {
      forall n: nat | n <= |init| ensures Indexed(RunOf(initial, identity, init[..n]).index) {
        assert Indexed(RunOf(initial, identity, actions[..n]).index);
      }
      assert Indexed(RunOf(initial, identity, actions[..|actions|]).index);
    }
    if IndexedThroughout(initial, identity, init) && Indexed(RunOf(initial, identity, actions).index) {
      forall n: nat | n <= |actions| ensures Indexed(RunOf(initial, identity, actions[..n]).index) {
        assert n <= |init| ==> Indexed(RunOf(initial, identity, init[..n]).index);
      }
    }
    if AllHarmless(initial, identity, actions) {
      forall n: nat | n < |init| ensures ActionHarmless(RunOf(initial, identity, init[..n]), init[n]) {
        assert ActionHarmless(RunOf(initial, identity, actions[..n]), actions[n]);
      }
      assert ActionHarmless(RunOf(initial, identity, actions[..|init|]), actions[|init|]);
    }
    if AllHarmless(initial, identity, init) && ActionHarmless(RunOf(initial, identity, init), actions[|actions| - 1]) {
      forall n: nat | n < |actions| ensures ActionHarmless(RunOf(initial, identity, actions[..n]), actions[n]) {
        assert n < |init| ==> ActionHarmless(RunOf(initial, identity, init[..n]), init[n]);
      }
    }
    assert IndexedThroughout(initial, identity, init) ==> Indexed(RunOf(initial, identity, init[..|init|]).index);
  }

  // ---------------------------------------------------------------- derived keys

  /** An action that submits its order under the key the order manager derives for it. */
  ghost predicate Derived(named: Naming, family: Family, s: System, action: Action) {
    match action
    case Placed(order, tag, _) =>
      order.clientOrderId.None? && exists use ::
        var n := OrderName(tag.strategyId, order.instrument, tag.tradeId, use);
        (use.SignalEntry? || use.IntentOf?) && RoleOf(use) == tag.role
        && family(n) && order.idempotencyKey == KeyText(named, n)
    case ClosePlaced(key, _, closeKey, _) => exists reason ::
      var n := OrderName(key.0, key.1, key.2, CloseFor(reason));
      family(n) && closeKey == KeyText(named, n)
    case StopPlaced(key, _, _, newKey, _) =>
      var n := OrderName(key.0, key.1, key.2, StopUpdated);
      family(n) && newKey == KeyText(named, n)
    case FillDrained(plan) =>
      plan.Some? && s.broker.fillQueue != [] && Enters(s.index, s.broker.fillQueue[0]) ==>
        var fill := s.broker.fillQueue[0];
        var key := FilledKey(s.index, fill);
        plan.value.stopKey == StopKeyFor(named, key.0, fill.instrument, fill.orderId, key.2)
    case _ => true
  }

  /** Waiting orders and queued fills carry derived keys, of their own instrument. */
  ghost predicate Keyed(named: Naming, family: Family, b: BrokerState) {
    && (forall p :: p in b.pending ==> Stands(named, family, p.brokerId, p.order.instrument))
    && (forall f :: f in b.fillQueue ==> Stands(named, family, f.orderId, f.instrument))
  }

  ghost predicate Stands(named: Naming, family: Family, id: OrderId, i: Instrument) {
    IsKey(named, family, id) && Means(named, family, id).key.1 == i
  }

  ghost predicate Sound(named: Naming, family: Family, s: System) {
    && Indexed(s.index)
    && Meaningful(MeaningsOf(named, family), s.index)
    && TagsMeant(MeaningsOf(named, family), s.index)
    && Keyed(named, family, s.broker)
  }

  /** A derived key is the id the order gets, and means what the order is for. */
  lemma DerivedId(named: Naming, family: Family, order: OrderRequest, generated: OrderId, n: OrderName)
    requires Telling(named, family) && family(n)
    requires order.clientOrderId.None? && order.idempotencyKey == KeyText(named, n) && order.instrument == n.i
    ensures BrokerId(order, generated) == KeyText(named, n)
    ensures MeaningsOf(named, family)(BrokerId(order, generated)) == MeaningOf(n)
    ensures Stands(named, family, BrokerId(order, generated), order.instrument)
  {
    KeyNotEmpty(named, n);
    KeyMeans(named, family, n);
    hide KeyText, IsKey, Means, Telling;
  }

  /** An entry's fill asks for its stop under the derived key of that stop. */
  lemma DerivedStop(named: Naming, family: Family, s: System, plan: StopPlan)
    requires Coherent(named, family) && Sound(named, family, s) && s.broker.fillQueue != []
    requires Enters(s.index, s.broker.fillQueue[0]) && Derived(named, family, s, FillDrained(Some(plan)))
    ensures var fill := s.broker.fillQueue[0];
            var order := StopOrder(fill, s.index.owner[fill.orderId], plan);
            && MeaningsOf(named, family)(BrokerId(order, plan.generated)) == Meaning(FilledKey(s.index, fill), ProtectiveStop)
            && Stands(named, family, BrokerId(order, plan.generated), order.instrument)
  {
    hide KeyText, IsKey, Means, Telling, Indexed, Meaningful;
    var fill := s.broker.fillQueue[0];
    assert fill in s.broker.fillQueue;
    var n := MeansSome(named, family, fill.orderId);
    assert MeaningsOf(named, family)(fill.orderId) == MeaningOf(n);
    EntryUse(n);
    StopKeyIsKey(named, n);
    hide StopKeyFor;
    DerivedId(named, family, StopOrder(fill, s.index.owner[fill.orderId], plan), plan.generated, n.(use := StopUse(n.use)));
  }

  lemma EntryUse(n: OrderName)
    requires RoleOf(n.use) == Entry
    ensures n.use.SignalEntry? || (n.use.IntentOf? && n.use.role == "entry")
  {
  }

  lemma DerivedIsMeant(named: Naming, family: Family, s: System, action: Action)
    requires Coherent(named, family) && Sound(named, family, s) && Derived(named, family, s, action)
    requires OperationOf(s, action).Some?
    ensures AsMeant(MeaningsOf(named, family), s.index, OperationOf(s, action).value)
  {
    hide KeyText, IsKey, Means, Telling, Closed, Indexed, Meaningful, TagsMeant, Keyed, BrokerId, Stands, StopOrder,
      ActiveStop, PlaceStop, StopKeyFor;
    match action
    case Placed(order, tag, generated) =>
      var use :| var n := OrderName(tag.strategyId, order.instrument, tag.tradeId, use);
                 (use.SignalEntry? || use.IntentOf?) && RoleOf(use) == tag.role
                 && family(n) && order.idempotencyKey == KeyText(named, n);
      DerivedId(named, family, order, generated, OrderName(tag.strategyId, order.instrument, tag.tradeId, use));
    case ClosePlaced(key, quantity, closeKey, generated) =>
      var reason :| var n := OrderName(key.0, key.1, key.2, CloseFor(reason));
                    family(n) && closeKey == KeyText(named, n);
      DerivedId(named, family, CloseOrder(key, quantity, closeKey), generated, OrderName(key.0, key.1, key.2, CloseFor(reason)));
    case StopPlaced(key, quantity, price, newKey, generated) =>
      DerivedId(named, family, StopRequest(key, quantity, price, newKey), generated, OrderName(key.0, key.1, key.2, StopUpdated));
    case FillDrained(plan) =>
      if plan.Some? && Enters(s.index, s.broker.fillQueue[0]) { DerivedStop(named, family, s, plan.value); }
    case BarSeen(_) =>
    case UpdateDrained =>
    case SessionOver(_) =>
  }

  // ---------------------------------------------------------------- the broker keeps derived keys

  lemma SubmittedKeyed(named: Naming, family: Family, b: BrokerState, order: OrderRequest, generated: OrderId)
    requires Keyed(named, family, b) && Stands(named, family, BrokerId(order, generated), order.instrument)
    ensures Keyed(named, family, AfterSubmit(b, order, generated))
  {
    hide Stands, BrokerId;
  }

  lemma CancelledKeyed(named: Naming, family: Family, b: BrokerState, ids: set<OrderId>)
    requires Keyed(named, family, b)
    ensures Keyed(named, family, AfterCancel(b, ids))
  {
    hide Stands;
    WithoutSubset(b.pending, ids);
  }

  lemma ModifiedKeyed(named: Naming, family: Family, b: BrokerState, id: OrderId, order: OrderRequest)
    requires Keyed(named, family, b) && AfterModify(b, id, order).Some? && Means(named, family, id).key.1 == order.instrument
    ensures Keyed(named, family, AfterModify(b, id, order).value)
  {
    hide Means, IsKey;
    ExchangedMembers(b.pending, id, order);
  }

  lemma BarKeyed(named: Naming, family: Family, b: BrokerState, bar: Bar)
    requires Keyed(named, family, b)
    ensures Keyed(named, family, AfterBar(b, bar))
  {
    hide Stands, FillsFor, StillPending, Completed, Bought;
    FillsComeFromPending(b.pending, bar);
  }

  lemma PoppedKeyed(named: Naming, family: Family, b: BrokerState)
    requires Keyed(named, family, b) && b.fillQueue != []
    ensures Keyed(named, family, b.(fillQueue := b.fillQueue[1..]))
  {
    hide Stands;
  }

  lemma ActKeepsKeys(named: Naming, family: Family, s: System, identity: Identity, action: Action)
    requires Coherent(named, family) && Sound(named, family, s) && Derived(named, family, s, action)
    ensures Keyed(named, family, Act(s, identity, action).broker)
  {
    hide KeyText, IsKey, Means, Telling, Closed, Indexed, Meaningful, TagsMeant, Keyed, BrokerId, Stands, StopOrder,
      AfterSubmit, AfterCancel, AfterBar, PlaceStop, Submit, RequestClose, HandleFill, HandleUpdate, CancelSessionStops,
      StopKeyFor, CancelledBy;
    match action
    case Placed(order, tag, generated) =>
      var use :| var n := OrderName(tag.strategyId, order.instrument, tag.tradeId, use);
                 (use.SignalEntry? || use.IntentOf?) && RoleOf(use) == tag.role
                 && family(n) && order.idempotencyKey == KeyText(named, n);
      DerivedId(named, family, order, generated, OrderName(tag.strategyId, order.instrument, tag.tradeId, use));
      SubmittedKeyed(named, family, s.broker, order, generated);
    case ClosePlaced(key, quantity, closeKey, generated) =>
      var reason :| var n := OrderName(key.0, key.1, key.2, CloseFor(reason));
                    family(n) && closeKey == KeyText(named, n);
      var order := CloseOrder(key, quantity, closeKey);
      DerivedId(named, family, order, generated, OrderName(key.0, key.1, key.2, CloseFor(reason)));
      SubmittedKeyed(named, family, s.broker, order, generated);
      CancelledKeyed(named, family, AfterSubmit(s.broker, order, generated), StopsOf(s.index, key));
    case StopPlaced(key, quantity, price, newKey, generated) => StopKeepsKeys(named, family, s, identity, action);
    case BarSeen(bar) => BarKeyed(named, family, s.broker, bar);
    case FillDrained(plan) =>
      if s.broker.fillQueue != [] { DrainKeepsKeys(named, family, s, identity, plan); }
    case UpdateDrained => QueueKeyed(named, family, s);
    case SessionOver(sessionOnly) => CancelledKeyed(named, family, s.broker, SessionStops(s.index, sessionOnly));
  }

  lemma QueueKeyed(named: Naming, family: Family, s: System)
    requires Keyed(named, family, s.broker)
    ensures Keyed(named, family, DrainUpdate(s).broker)
  {
    hide Stands, HandleUpdate;
  }

  lemma StopKeepsKeys(named: Naming, family: Family, s: System, identity: Identity, action: Action)
    requires Coherent(named, family) && Sound(named, family, s) && Derived(named, family, s, action) && action.StopPlaced?
    ensures Keyed(named, family, Act(s, identity, action).broker)
  {
    hide KeyText, IsKey, Means, Telling, Closed, TagsMeant, Keyed, BrokerId, Stands, AfterSubmit, AfterModify, EnsureStop,
      ClosesIndexed, Owned, Registered, ActiveStop, Improves;
    var key, quantity, price, newKey := action.key, action.quantity, action.price, action.newKey;
    if quantity != 0 && price > 0.0 {
      var active := ActiveStop(s.index, key);
      if active.None? {
        var order := StopRequest(key, quantity, price, newKey);
        DerivedId(named, family, order, action.generated, OrderName(key.0, key.1, key.2, StopUpdated));
        SubmittedKeyed(named, family, s.broker, order, action.generated);
      } else {
        var order := StopRequest(key, quantity, price, s.index.stopRequests[active.value].idempotencyKey);
        assert s.index.stopKeys[active.value] == key;
        assert MeaningsOf(named, family)(active.value) == Meaning(key, ProtectiveStop);
        if AfterModify(s.broker, active.value, order).Some? {
          ModifiedKeyed(named, family, s.broker, active.value, order);
        }
      }
    }
  }

  lemma DrainKeepsKeys(named: Naming, family: Family, s: System, identity: Identity, plan: Option<StopPlan>)
    requires Coherent(named, family) && Sound(named, family, s) && Derived(named, family, s, FillDrained(plan))
    requires s.broker.fillQueue != []
    ensures Keyed(named, family, Drain(s, identity, plan).broker)
  {
    hide KeyText, IsKey, Means, Telling, Closed, Sound, Keyed, BrokerId, Stands, StopOrder,
      AfterSubmit, AfterCancel, HandleFill, StopKeyFor, CancelledBy, Derived;
    var fill := s.broker.fillQueue[0];
    SoundKeyed(named, family, s);
    PoppedKeyed(named, family, s.broker);
    var popped := s.broker.(fillQueue := s.broker.fillQueue[1..]);
    CancelledKeyed(named, family, popped, CancelledBy(s.index, fill));
    if plan.Some? && Enters(s.index, fill) {
      DerivedStop(named, family, s, plan.value);
      var order := StopOrder(fill, s.index.owner[fill.orderId], plan.value);
      SubmittedKeyed(named, family, AfterCancel(popped, CancelledBy(s.index, fill)), order, plan.value.generated);
    }
  }

  lemma SoundKeyed(named: Naming, family: Family, s: System)
    requires Sound(named, family, s)
    ensures Keyed(named, family, s.broker) && Registered(s.index)
  {
  }

  // ---------------------------------------------------------------- with derived keys and one contract per symbol

  lemma ActStaysSound(named: Naming, family: Family, s: System, identity: Identity, action: Action)
    requires Coherent(named, family) && Sound(named, family, s) && Derived(named, family, s, action)
    ensures Sound(named, family, Act(s, identity, action))
  {
    var means := MeaningsOf(named, family);
    SoundKeyed(named, family, s);
    ActKeepsKeys(named, family, s, identity, action);
    ActIsOperation(s, identity, action);
    var op := OperationOf(s, action);
    if op.Some? { DerivedIsMeant(named, family, s, action); }
    hide MeaningsOf, Indexed, Meaningful, TagsMeant, Keyed, Act, OperationOf, Step, AsMeant, Harmless, Derived, Coherent;
    if op.Some? {
      MeantIsHarmless(means, s.index, op.value);
      StepKeepsIff(s.index, op.value);
      MeaningKept(means, s.index, op.value);
      TagsKept(means, s.index, op.value);
    }
  }

  ghost predicate AllDerived(named: Naming, family: Family, initial: real, identity: Identity, actions: seq<Action>) {
    forall n: nat :: n < |actions| ==> Derived(named, family, RunOf(initial, identity, actions[..n]), actions[n])
  }

  lemma StartSound(named: Naming, family: Family, initial: real)
    ensures Sound(named, family, Start(initial))
  {
  }

  /**
   With derived keys out of a family in which they tell position and role,
   a replay keeps the order index however often it comes back to a position,
   and every live stop and close is under its own derived key.
   */
  lemma {:induction false} DerivedIdsIndexed(named: Naming, family: Family, initial: real, identity: Identity, actions: seq<Action>)
    requires Coherent(named, family) && AllDerived(named, family, initial, identity, actions)
    ensures var x := RunOf(initial, identity, actions).index;
            Indexed(x) && Meaningful(MeaningsOf(named, family), x)
    ensures Sound(named, family, RunOf(initial, identity, actions))
  {
    hide Indexed, Meaningful, TagsMeant, Keyed, Act, Derived, Coherent, MeaningsOf;
    if actions == [] {
      StartSound(named, family, initial);
    } else {
      var init, last := actions[..|actions| - 1], actions[|actions| - 1];
      forall n: nat | n < |init| ensures Derived(named, family, RunOf(initial, identity, init[..n]), init[n]) {
        assert init[..n] == actions[..n];
      }
      assert Derived(named, family, RunOf(initial, identity, actions[..|init|]), actions[|init|]);
      DerivedIdsIndexed(named, family, initial, identity, init);
      ActStaysSound(named, family, RunOf(initial, identity, init), identity, last);
    }
  }

  // ---------------------------------------------------------------- two contracts of one symbol

  /** A strategy's entry into a contract on a bar, and the stop its fill asks for, under derived keys. */
  datatype EntryCase = EntryCase(s: StrategyId, i: Instrument, quantity: int, t: int) {
    function Key(): PositionKey { (s, i, None) }
    function Name(): OrderName { OrderName(s, i, None, SignalEntry("long")) }
    function EntryId(named: Naming): OrderId { KeyText(named, Name()) }
    function StopId(named: Naming): OrderId { StopKeyFor(named, s, i, EntryId(named), None) }
    function Order(named: Naming): OrderRequest {
      OrderRequest(i, Long, quantity, Market, None, None, s, EntryId(named), None)
    }
    function Bar(): Bar { Types.Bar(i, t, 100.0, 100.0, 100.0, 100.0, 0.0) }
    function Plan(named: Naming): StopPlan { StopPlan(50.0, StopId(named), "") }
    function Stop(named: Naming): OrderRequest {
      OrderRequest(i, Short, quantity, OrderType.Stop, None, Some(50.0), s, StopId(named), None)
    }
    function Actions(named: Naming): seq<Action> {
      [Placed(Order(named), Tag(s, Entry, None, None), ""), BarSeen(Bar()), FillDrained(Some(Plan(named)))]
    }
    function IndexAfter(named: Naming, x: Index): Index {
      SubmitStop(Submit(x, Tag(s, Entry, None, None), None, Taken(EntryId(named))), Key(), Stop(named), None, Taken(StopId(named)))
    }
  }

  function Entered(s: System, identity: Identity, named: Naming, e: EntryCase): System {
    Act(Act(Act(s, identity, e.Actions(named)[0]), identity, e.Actions(named)[1]), identity, e.Actions(named)[2])
  }

  lemma {:induction false} NoneFills(pending: seq<PendingOrder>, bar: Bar)
    requires forall p :: p in pending ==> !FillsOn(p, bar)
    ensures FillsFor(pending, bar) == [] && StillPending(pending, bar) == pending
  {
    if pending != [] {
      var init, p := pending[..|pending| - 1], pending[|pending| - 1];
      assert p in pending;
      NoneFills(init, bar);
      assert pending == init + [p];
    }
  }

  lemma EntryFills(pending: seq<PendingOrder>, p: PendingOrder, bar: Bar)
    requires FillsOn(p, bar) && forall q :: q in pending ==> !FillsOn(q, bar)
    ensures FillsFor(pending + [p], bar) == [FillFor(p, bar)] && StillPending(pending + [p], bar) == pending
  {
    NoneFills(pending, bar);
    assert (pending + [p])[..|pending|] == pending;
  }

  /** Nothing else fills on the entry's bar. */
  ghost predicate Ready(s: System, e: EntryCase) {
    && e.quantity > 0 && s.broker.fillQueue == []
    && (s.broker.lastSeen.Some? ==> s.broker.lastSeen.value < e.t)
    && forall p :: p in s.broker.pending ==> !FillsOn(p, e.Bar())
  }

  lemma EntryPlaced(s: System, identity: Identity, named: Naming, e: EntryCase)
    requires Ready(s, e)
    ensures var t := Act(s, identity, e.Actions(named)[0]);
            && t.index == Submit(s.index, Tag(e.s, Entry, None, None), None, Taken(e.EntryId(named)))
            && t.broker == AfterSubmit(s.broker, e.Order(named), "")
            && BrokerId(e.Order(named), "") == e.EntryId(named)
  {
    KeyNotEmpty(named, e.Name());
    hide KeyText, Submit, AfterSubmit;
  }

  lemma EntryFilled(s: System, identity: Identity, named: Naming, e: EntryCase, t: System)
    requires Ready(s, e) && t.broker == AfterSubmit(s.broker, e.Order(named), "")
    requires BrokerId(e.Order(named), "") == e.EntryId(named)
    ensures var u := Act(t, identity, e.Actions(named)[1]);
            && u.index == t.index && u.broker.pending == s.broker.pending && u.broker.lastSeen == Some(e.t)
            && u.broker.fillQueue == [Fill(e.EntryId(named), e.i, Long, e.quantity, 100.0, e.t)]
            && u.broker.positions == s.broker.positions[e.i := Held(s.broker.positions, e.i) + e.quantity]
  {
    hide KeyText, S.SizeBar;
    var p := PendingOrder(e.Order(named), e.EntryId(named), s.broker.lastSeen);
    EntryFills(s.broker.pending, p, e.Bar());
    hide FillsFor, StillPending;
    var fills := [FillFor(p, e.Bar())];
    assert fills[..0] == [];
    assert Bought(s.broker.positions, fills[..0]) == s.broker.positions;
  }

  lemma EntryDrained(u: System, identity: Identity, named: Naming, e: EntryCase, x: Index)
    requires u.index == Submit(x, Tag(e.s, Entry, None, None), None, Taken(e.EntryId(named)))
    requires u.broker.fillQueue == [Fill(e.EntryId(named), e.i, Long, e.quantity, 100.0, e.t)]
    ensures var v := Act(u, identity, e.Actions(named)[2]);
            && v.index == e.IndexAfter(named, x)
            && v.broker.pending == u.broker.pending + [PendingOrder(e.Stop(named), e.StopId(named), u.broker.lastSeen)]
            && v.broker.fillQueue == [] && v.broker.lastSeen == u.broker.lastSeen && v.broker.positions == u.broker.positions
  {
    hide KeyText, SubmitStop, Portfolio.AfterFill, AfterLedgerFill, S.SizeFill;
    WithoutNone(u.broker.pending);
    EntryTagged(x, e.EntryId(named), e.s);
    hide Submit;
    assert e.StopId(named) != "";
  }

  lemma EntryTagged(x: Index, id: OrderId, s: StrategyId)
    ensures var y := Submit(x, Tag(s, Entry, None, None), None, Taken(id));
            && id in y.owner && y.owner[id] == s && id in y.role && y.role[id] == Entry && id in y.tradeId && y.tradeId[id] == None
  {
  }

  lemma EnteredIs(s: System, identity: Identity, named: Naming, e: EntryCase)
    requires Ready(s, e)
    ensures var t := Entered(s, identity, named, e);
            && t.index == e.IndexAfter(named, s.index)
            && t.broker.pending == s.broker.pending + [PendingOrder(e.Stop(named), e.StopId(named), Some(e.t))]
            && t.broker.fillQueue == [] && t.broker.lastSeen == Some(e.t)
            && t.broker.positions == s.broker.positions[e.i := Held(s.broker.positions, e.i) + e.quantity]
  {
    var t := Act(s, identity, e.Actions(named)[0]);
    EntryPlaced(s, identity, named, e);
    EntryFilled(s, identity, named, e, t);
    var u := Act(t, identity, e.Actions(named)[1]);
    EntryDrained(u, identity, named, e, s.index);
    hide Act;
  }

  lemma {:induction false} WithoutNone(pending: seq<PendingOrder>)
    ensures Without(pending, {}) == pending
  {
    if pending != [] {
      WithoutNone(pending[..|pending| - 1]);
      assert pending == pending[..|pending| - 1] + [pending[|pending| - 1]];
    }
  }

  lemma {:induction false} RunSnoc(initial: real, identity: Identity, before: seq<Action>, action: Action)
    ensures RunOf(initial, identity, before + [action]) == Act(RunOf(initial, identity, before), identity, action)
  {
    hide Act;
    assert (before + [action])[..|before|] == before;
  }

  lemma DerivedSnoc(named: Naming, family: Family, initial: real, identity: Identity, before: seq<Action>, action: Action)
    requires AllDerived(named, family, initial, identity, before)
    requires Derived(named, family, RunOf(initial, identity, before), action)
    ensures AllDerived(named, family, initial, identity, before + [action])
  {
    hide Derived, RunOf;
    var actions := before + [action];
    forall n: nat | n < |actions| ensures Derived(named, family, RunOf(initial, identity, actions[..n]), actions[n]) {
      if n < |before| {
        assert actions[..n] == before[..n];
        assert Derived(named, family, RunOf(initial, identity, before[..n]), before[n]);
      } else {
        assert actions[..n] == before;
      }
    }
  }

  lemma EntryDerived(named: Naming, family: Family, s: System, identity: Identity, e: EntryCase)
    requires Ready(s, e) && family(e.Name())
    ensures var t := Act(s, identity, e.Actions(named)[0]);
            var u := Act(t, identity, e.Actions(named)[1]);
            && Derived(named, family, s, e.Actions(named)[0])
            && Derived(named, family, t, e.Actions(named)[1])
            && Derived(named, family, u, e.Actions(named)[2])
  {
    var t := Act(s, identity, e.Actions(named)[0]);
    EntryPlaced(s, identity, named, e);
    EntryFilled(s, identity, named, e, t);
    EntryTagged(s.index, e.EntryId(named), e.s);
    hide Act, Submit, KeyText, StopKeyFor;
    assert RoleOf(SignalEntry("long")) == Entry;
  }

  /** An entry after a derived run is a derived run. */
  lemma EntryRun(named: Naming, family: Family, initial: real, identity: Identity, before: seq<Action>, e: EntryCase)
    requires AllDerived(named, family, initial, identity, before) && Ready(RunOf(initial, identity, before), e)
    requires family(e.Name())
    ensures RunOf(initial, identity, before + e.Actions(named)) == Entered(RunOf(initial, identity, before), identity, named, e)
    ensures AllDerived(named, family, initial, identity, before + e.Actions(named))
  {
    hide Act, Derived, AllDerived, RunOf;
    var a := e.Actions(named);
    EntryDerived(named, family, RunOf(initial, identity, before), identity, e);
    RunSnoc(initial, identity, before, a[0]);
    RunSnoc(initial, identity, before + [a[0]], a[1]);
    RunSnoc(initial, identity, before + [a[0]] + [a[1]], a[2]);
    assert before + [a[0]] + [a[1]] + [a[2]] == before + a;
    DerivedSnoc(named, family, initial, identity, before, a[0]);
    DerivedSnoc(named, family, initial, identity, before + [a[0]], a[1]);
    DerivedSnoc(named, family, initial, identity, before + [a[0]] + [a[1]], a[2]);
  }

  lemma SameIds(named: Naming, e: EntryCase, d: EntryCase)
    requires named(e.s) == named(d.s) && e.i.symbol == d.i.symbol
    ensures e.EntryId(named) == d.EntryId(named) && e.StopId(named) == d.StopId(named)
  {
    assert EntryTokens(named, e.Name()) == EntryTokens(named, d.Name());
  }

  lemma StopListed(named: Naming, x: Index, e: EntryCase)
    ensures var y, id := e.IndexAfter(named, x), e.StopId(named);
            && y.stopOrders == x.stopOrders[e.Key() := StopsOf(x, e.Key()) + {id}]
            && y.stopKeys == x.stopKeys[id := e.Key()]
            && y.stopRequests == x.stopRequests[id := e.Stop(named)]
  {
    hide Submit, KeyText, StopKeyFor;
  }

  /** Two entries into different positions whose keys are the same, and those of their stops. */
  predicate Colliding(named: Naming, e: EntryCase, d: EntryCase) {
    && e.EntryId(named) == d.EntryId(named) && e.StopId(named) == d.StopId(named)
    && e.Key() != d.Key() && 0 < e.quantity && 0 < d.quantity && e.t < d.t
  }

  function CollidingRun(named: Naming, e: EntryCase, d: EntryCase): seq<Action> {
    e.Actions(named) + d.Actions(named)
  }

  lemma FirstEntered(named: Naming, family: Family, initial: real, identity: Identity, e: EntryCase, d: EntryCase)
    requires Colliding(named, e, d) && family(e.Name())
    ensures AllDerived(named, family, initial, identity, e.Actions(named))
    ensures var s := RunOf(initial, identity, e.Actions(named));
            && Ready(s, d)
            && s.index == e.IndexAfter(named, EmptyIndex)
            && s.broker.pending == [PendingOrder(e.Stop(named), e.StopId(named), Some(e.t))]
            && s.broker.positions == map[e.i := e.quantity]
  {
    var first := e.Actions(named);
    assert RunOf(initial, identity, []) == Start(initial);
    hide Act, KeyText, StopKeyFor, Entered, RunOf, Derived;
    EntryRun(named, family, initial, identity, [], e);
    EnteredIs(Start(initial), identity, named, e);
    assert [] + first == first;
    assert [] + [PendingOrder(e.Stop(named), e.StopId(named), Some(e.t))] == [PendingOrder(e.Stop(named), e.StopId(named), Some(e.t))];
  }

  lemma BothEntered(named: Naming, family: Family, initial: real, identity: Identity, e: EntryCase, d: EntryCase)
    requires Colliding(named, e, d) && family(e.Name()) && family(d.Name())
    ensures AllDerived(named, family, initial, identity, CollidingRun(named, e, d))
    ensures var s := RunOf(initial, identity, CollidingRun(named, e, d));
            && s.index == d.IndexAfter(named, e.IndexAfter(named, EmptyIndex))
            && s.broker.pending == [PendingOrder(e.Stop(named), e.StopId(named), Some(e.t)), PendingOrder(d.Stop(named), d.StopId(named), Some(d.t))]
            && s.broker.fillQueue == [] && Held(s.broker.positions, d.i) >= d.quantity
  {
    hide Act, KeyText, StopKeyFor, Entered, RunOf, AllDerived, Ready;
    FirstEntered(named, family, initial, identity, e, d);
    EntryRun(named, family, initial, identity, e.Actions(named), d);
    EnteredIs(RunOf(initial, identity, e.Actions(named)), identity, named, d);
  }

  /** Both positions list the one stop id, which its inverse entry gives to the second. */
  lemma BothList(named: Naming, e: EntryCase, d: EntryCase)
    requires Colliding(named, e, d)
    ensures var x, id := d.IndexAfter(named, e.IndexAfter(named, EmptyIndex)), e.StopId(named);
            && StopsOf(x, e.Key()) == {id} && StopsOf(x, d.Key()) == {id}
            && x.stopKeys == map[id := d.Key()] && !Indexed(x)
  {
    hide Submit, KeyText, StopKeyFor, SubmitStop;
    var y := e.IndexAfter(named, EmptyIndex);
    StopListed(named, EmptyIndex, e);
    StopListed(named, y, d);
    var x := d.IndexAfter(named, y);
    var id := e.StopId(named);
    assert StopsOf(EmptyIndex, e.Key()) + {id} == {id};
    assert y.stopOrders == map[e.Key() := {id}];
    assert StopsOf(y, d.Key()) == {};
    assert x.stopOrders == map[e.Key() := {id}, d.Key() := {id}];
    if Indexed(x) {
      Listed(x.stopOrders, x.stopKeys, x.stopRequests, e.Key(), id);
      assert false;
    }
  }

  /**
   The paper broker gives the orders of two contracts of one symbol the same
   ids, as it does whenever keys are equal. Both positions then list one stop; closing the first cancels the stop
   of the second too and leaves the first still listing it.
   */
  lemma ContractsOfOneSymbolCollide(named: Naming, family: Family, initial: real, identity: Identity,
                                    e: EntryCase, d: EntryCase, closeKey: OrderId)
    requires Colliding(named, e, d) && family(e.Name()) && family(d.Name())
    ensures AllDerived(named, family, initial, identity, CollidingRun(named, e, d))
    ensures var s := RunOf(initial, identity, CollidingRun(named, e, d));
            var t := Act(s, identity, ClosePlaced(e.Key(), e.quantity, closeKey, ""));
            && !Indexed(s.index)
            && StopsOf(s.index, e.Key()) == StopsOf(s.index, d.Key()) == {e.StopId(named)}
            && Held(s.broker.positions, d.i) >= d.quantity
            && StopsOf(t.index, e.Key()) == {e.StopId(named)} && StopsOf(t.index, d.Key()) == {}
            && (forall p :: p in t.broker.pending ==> p.brokerId != e.StopId(named))
  {
    hide Act, RunOf, Indexed, AllDerived, StopsOf;
    BothEntered(named, family, initial, identity, e, d);
    BothList(named, e, d);
    CloseCollides(RunOf(initial, identity, CollidingRun(named, e, d)), identity, e.Key(), d.Key(), e.StopId(named), e.quantity, closeKey);
  }

  lemma CloseCollides(s: System, identity: Identity, k: PositionKey, l: PositionKey, id: OrderId, quantity: int, closeKey: OrderId)
    requires StopsOf(s.index, k) == {id} && StopsOf(s.index, l) == {id} && s.index.stopKeys == map[id := l]
    requires k != l && quantity > 0 && k !in s.index.pendingCloses
    ensures var t := Act(s, identity, ClosePlaced(k, quantity, closeKey, ""));
            && StopsOf(t.index, k) == {id} && StopsOf(t.index, l) == {}
            && (forall p :: p in t.broker.pending ==> p.brokerId != id)
  {
    hide RequestClose, BrokerId, StopsOf, AfterSubmit, Without;
    var order := CloseOrder(k, quantity, closeKey);
    CloseLeavesOther(s.index, k, l, id, closeKey, Taken(BrokerId(order, "")));
    WithoutDrops(AfterSubmit(s.broker, order, "").pending, {id});
  }

  /** The stop both list goes from the position its inverse entry names, not from the one closed. */
  lemma CloseLeavesOther(x: Index, k: PositionKey, l: PositionKey, id: OrderId, closeKey: OrderId, answer: Answer)
    requires StopsOf(x, k) == {id} && StopsOf(x, l) == {id} && x.stopKeys == map[id := l]
    requires k != l && k !in x.pendingCloses && Accepted(answer)
    ensures var y := RequestClose(x, k, closeKey, None, answer, {});
            StopsOf(y, k) == {id} && StopsOf(y, l) == {}
  {
    SubmitCloseIs(x, k, closeKey, None, answer, {});
    hide Submit, SubmitClose;
    var y := AddClose(Submit(x, Tag(k.0, Close, k.2, None), None, answer), k, answer.status.orderId);
    assert ClearEach(y, {id}, {}) == ClearStop(y, id);
  }

  lemma {:induction false} WithoutDrops(pending: seq<PendingOrder>, ids: set<OrderId>)
    ensures forall p :: p in Without(pending, ids) ==> p.brokerId !in ids
  {
    if pending != [] {
      WithoutDrops(pending[..|pending| - 1], ids);
    }
  }

  // ---------------------------------------------------------------- exactly when derived keys suffice

  ghost predicate DerivedIdsSuffice(named: Naming, family: Family) {
    forall initial: real, identity: Identity, actions: seq<Action> ::
      AllDerived(named, family, initial, identity, actions) ==> Indexed(RunOf(initial, identity, actions).index)
  }

  lemma CoherentSuffices(named: Naming, family: Family)
    requires Coherent(named, family)
    ensures DerivedIdsSuffice(named, family)
  {
    hide Indexed, RunOf, AllDerived;
    forall initial: real, identity: Identity, actions: seq<Action> | AllDerived(named, family, initial, identity, actions)
      ensures Indexed(RunOf(initial, identity, actions).index)
    {
      DerivedIdsIndexed(named, family, initial, identity, actions);
    }
  }

  lemma CollidingSpoil(named: Naming, family: Family, e: EntryCase, d: EntryCase)
    requires Colliding(named, e, d) && family(e.Name()) && family(d.Name())
    ensures !DerivedIdsSuffice(named, family)
  {
    hide Indexed, RunOf, AllDerived, Colliding, StopsOf;
    ContractsOfOneSymbolCollide(named, family, 0.0, (i: Instrument) => i.symbol, e, d, "");
  }

  /**
   Replays under the dashless keys of what is traded all keep the order index
   exactly when strategy name and symbol determine the strategy and its contract.
   */
  lemma DerivedIdsIff(named: Naming, traded: set<(StrategyId, Instrument)>)
    ensures DerivedIdsSuffice(named, ProperNames(named, traded)) <==> OneContract(named, Undashed(named, traded))
  {
    hide DerivedIdsSuffice, Coherent, Colliding, KeyText, StopKeyFor;
    if OneContract(named, Undashed(named, traded)) {
      ProperTells(named, traded);
      CoherentSuffices(named, ProperNames(named, traded));
    } else {
      var pairs := Undashed(named, traded);
      var x, y :| x in pairs && y in pairs && named(x.0) == named(y.0) && x.1.symbol == y.1.symbol && x != y;
      var e, d := EntryCase(x.0, x.1, 1, 1), EntryCase(y.0, y.1, 1, 2);
      SameIds(named, e, d);
      Collide(named, e, d);
      CollidingSpoil(named, ProperNames(named, traded), e, d);
    }
  }

  lemma Collide(named: Naming, e: EntryCase, d: EntryCase)
    requires e.EntryId(named) == d.EntryId(named) && e.StopId(named) == d.StopId(named)
    requires e.Key() != d.Key() && 0 < e.quantity && 0 < d.quantity && e.t < d.t
    ensures Colliding(named, e, d)
  {
  }

  /**
   With dashes in names that is not enough: strategy "a-b" trading "c" and
   strategy "a" trading "b-c" are told apart by name and symbol, not by key.
   */
  lemma DashesCollide(i: Instrument, j: Instrument)
    requires i.symbol == "c" && j.symbol == "b-c"
    ensures var named: Naming, traded := (s: StrategyId) => s, {("a-b", i), ("a", j)};
            OneContract(named, traded) && Closed(AllNames(traded)) && !DerivedIdsSuffice(named, AllNames(traded))
  {
    var named: Naming, traded := (s: StrategyId) => s, {("a-b", i), ("a", j)};
    var e, d := EntryCase("a-b", i, 1, 1), EntryCase("a", j, 1, 2);
    DashedKeys(named, e, d);
    hide KeyText, StopKeyFor, DerivedIdsSuffice, Colliding;
    Collide(named, e, d);
    CollidingSpoil(named, AllNames(traded), e, d);
  }

  lemma DashedKeys(named: Naming, e: EntryCase, d: EntryCase)
    requires named(e.s) == "a-b" && e.i.symbol == "c" && named(d.s) == "a" && d.i.symbol == "b-c"
    ensures e.EntryId(named) == d.EntryId(named) && e.StopId(named) == d.StopId(named)
  {
    assert "a-b" + "-" + "c" == "a" + "-" + "b-c";
    ThreeTokens("a-b", "c", "long");
    ThreeTokens("a", "b-c", "long");
    assert EntryTokens(named, e.Name()) == ["a-b", "c", "long"] && EntryTokens(named, d.Name()) == ["a", "b-c", "long"];
  }

  lemma ThreeTokens(a: string, b: string, c: string)
    ensures Join([a, b, c]) == a + "-" + b + "-" + c
  {
    assert [a, b, c][1..] == [b, c] && [b, c][1..] == [c];
    assert Join([b, c]) == b + "-" + c;
    assert a + "-" + (b + "-" + c) == a + "-" + b + "-" + c;
  }
}
