/** The simulated broker: orders wait for the next bar of their instrument and fill on it. */
module PaperBroker {
  import opened Types

  datatype PendingOrder = PendingOrder(order: OrderRequest, brokerId: OrderId, submittedAfter: Option<int>)

  datatype BrokerState = BrokerState(
    pending: seq<PendingOrder>,
    fillQueue: seq<Fill>,
    updateQueue: seq<OrderStatus>,
    positions: map<Instrument, int>,
    lastSeen: Option<int>)

  const EmptyBroker := BrokerState([], [], [], map[], None)

  /** The id an order gets: its own, else its idempotency key, else a generated one. */
  function BrokerId(order: OrderRequest, generated: OrderId): OrderId {
    if order.clientOrderId.Some? && order.clientOrderId.value != "" then order.clientOrderId.value
    else if order.idempotencyKey != "" then order.idempotencyKey
    else generated
  }

  /** A stop fills at its own price once the bar reaches it; everything else at the bar's open. */
  function ResolveFill(order: OrderRequest, bar: Bar): Option<real> {
    if order.orderType.Stop? then
      if order.stopPrice.None? then None
      else if order.side.Short? then
        if bar.low <= order.stopPrice.value then order.stopPrice else None
      else if bar.high >= order.stopPrice.value then order.stopPrice else None
    else Some(bar.open)
  }

  predicate FillsOn(p: PendingOrder, bar: Bar) {
    && p.order.instrument == bar.instrument
    && (p.submittedAfter.None? || bar.timestamp > p.submittedAfter.value)
    && ResolveFill(p.order, bar).Some?
  }

  function FillFor(p: PendingOrder, bar: Bar): Fill
    requires FillsOn(p, bar)
  {
    Fill(p.brokerId, p.order.instrument, p.order.side, p.order.quantity, ResolveFill(p.order, bar).value, bar.timestamp)
  }

  // ---------------------------------------------------------------- one bar, on values

  function FillsFor(pending: seq<PendingOrder>, bar: Bar): seq<Fill> {
    if pending == [] then []
    else
      var earlier, p := FillsFor(pending[..|pending| - 1], bar), pending[|pending| - 1];
      if FillsOn(p, bar) then earlier + [FillFor(p, bar)] else earlier
  }

  function StillPending(pending: seq<PendingOrder>, bar: Bar): seq<PendingOrder> {
    if pending == [] then []
    else
      var earlier, p := StillPending(pending[..|pending| - 1], bar), pending[|pending| - 1];
      if FillsOn(p, bar) then earlier else earlier + [p]
  }

  function Completed(fills: seq<Fill>): seq<OrderStatus> {
    if fills == [] then []
    else Completed(fills[..|fills| - 1]) + [OrderStatus(fills[|fills| - 1].orderId, Filled)]
  }

  function Bought(positions: map<Instrument, int>, fills: seq<Fill>): map<Instrument, int> {
    if fills == [] then positions
    else
      var earlier, f := Bought(positions, fills[..|fills| - 1]), fills[|fills| - 1];
      earlier[f.instrument := Held(earlier, f.instrument) + SignedQuantity(f.side, f.quantity)]
  }

  function Later(seen: Option<int>, t: int): Option<int> {
    if seen.None? || t > seen.value then Some(t) else seen
  }

  function AfterBar(b: BrokerState, bar: Bar): BrokerState {
    var fills := FillsFor(b.pending, bar);
    BrokerState(
      StillPending(b.pending, bar),
      b.fillQueue + fills,
      b.updateQueue + Completed(fills),
      Bought(b.positions, fills),
      Later(b.lastSeen, bar.timestamp))
  }

  function AfterSubmit(b: BrokerState, order: OrderRequest, generated: OrderId): BrokerState {
    var id := BrokerId(order, generated);
    b.(pending := b.pending + [PendingOrder(order, id, b.lastSeen)],
       updateQueue := b.updateQueue + [OrderStatus(id, Pending)])
  }

  /** Exchanges the first pending order with this id, keeping its place and its submission time. */
  function Exchanged(pending: seq<PendingOrder>, id: OrderId, order: OrderRequest): Option<seq<PendingOrder>> {
    if pending == [] then None
    else if pending[0].brokerId == id then Some([PendingOrder(order, id, pending[0].submittedAfter)] + pending[1..])
    else
      var rest := Exchanged(pending[1..], id, order);
      if rest.Some? then Some([pending[0]] + rest.value) else None
  }

  /** None when no pending order has the id; the broker then raises. */
  function AfterModify(b: BrokerState, id: OrderId, order: OrderRequest): Option<BrokerState> {
    var exchanged := Exchanged(b.pending, id, order);
    if exchanged.None? then None
    else Some(b.(pending := exchanged.value, updateQueue := b.updateQueue + [OrderStatus(id, Pending)]))
  }

  function Without(pending: seq<PendingOrder>, ids: set<OrderId>): seq<PendingOrder> {
    if pending == [] then []
    else
      var earlier, p := Without(pending[..|pending| - 1], ids), pending[|pending| - 1];
      if p.brokerId in ids then earlier else earlier + [p]
  }

  function AfterCancel(b: BrokerState, ids: set<OrderId>): BrokerState {
    b.(pending := Without(b.pending, ids))
  }

  // ---------------------------------------------------------------- what a bar does to the orders

  function FilledOrders(pending: seq<PendingOrder>, bar: Bar): seq<PendingOrder> {
    if pending == [] then []
    else
      var earlier, p := FilledOrders(pending[..|pending| - 1], bar), pending[|pending| - 1];
      if FillsOn(p, bar) then earlier + [p] else earlier
  }

  /** A bar loses no order and fills none twice: each is either filled, in order, or still waiting. */
  lemma {:induction false} OrdersConserved(pending: seq<PendingOrder>, bar: Bar)
    ensures multiset(pending) == multiset(FilledOrders(pending, bar)) + multiset(StillPending(pending, bar))
    ensures |FillsFor(pending, bar)| == |FilledOrders(pending, bar)|
    ensures forall n :: 0 <= n < |FilledOrders(pending, bar)| ==>
      var p := FilledOrders(pending, bar)[n];
      FillsOn(p, bar) && FillsFor(pending, bar)[n] == FillFor(p, bar)
    ensures forall n :: 0 <= n < |StillPending(pending, bar)| ==> !FillsOn(StillPending(pending, bar)[n], bar)
  {
    if pending != [] {
      var init, p := pending[..|pending| - 1], pending[|pending| - 1];
      OrdersConserved(init, bar);
      assert pending == init + [p];
    }
  }

  /** An order never fills on a bar at or before the last one seen when it was submitted. */
  lemma NoLookAhead(b: BrokerState, order: OrderRequest, generated: OrderId, bar: Bar)
    requires b.lastSeen.Some? && bar.timestamp <= b.lastSeen.value
    ensures var submitted := AfterSubmit(b, order, generated);
            && FillsFor(submitted.pending, bar) == FillsFor(b.pending, bar)
            && StillPending(submitted.pending, bar)
               == StillPending(b.pending, bar) + [submitted.pending[|submitted.pending| - 1]]
  {
    var submitted := AfterSubmit(b, order, generated);
    assert submitted.pending[..|submitted.pending| - 1] == b.pending;
  }

  function NetOfFills(fills: seq<Fill>, i: Instrument): int {
    if fills == [] then 0
    else
      var f := fills[|fills| - 1];
      NetOfFills(fills[..|fills| - 1], i) + (if f.instrument == i then SignedQuantity(f.side, f.quantity) else 0)
  }

  lemma {:induction false} BoughtNet(positions: map<Instrument, int>, fills: seq<Fill>, i: Instrument)
    ensures Held(Bought(positions, fills), i) == Held(positions, i) + NetOfFills(fills, i)
  {
    if fills != [] {
      BoughtNet(positions, fills[..|fills| - 1], i);
    }
  }

  lemma {:induction false} NetConcat(a: seq<Fill>, b: seq<Fill>, i: Instrument)
    ensures NetOfFills(a + b, i) == NetOfFills(a, i) + NetOfFills(b, i)
  {
    if b == [] {
      assert a + b == a;
    } else {
      NetConcat(a, b[..|b| - 1], i);
      assert (a + b)[..|a + b| - 1] == a + b[..|b| - 1];
    }
  }

  // ---------------------------------------------------------------- the mutable broker

  class Broker {
    var pending: seq<PendingOrder>
    var fillQueue: seq<Fill>
    var updateQueue: seq<OrderStatus>
    var positions: map<Instrument, int>
    var lastSeenTimestamp: Option<int>

    constructor ()
      ensures State() == EmptyBroker
    {
      pending, fillQueue, updateQueue, positions, lastSeenTimestamp := [], [], [], map[], None;
    }

    function State(): BrokerState
      reads this
    {
      BrokerState(pending, fillQueue, updateQueue, positions, lastSeenTimestamp)
    }

    method SubmitOrder(order: OrderRequest, generated: OrderId) returns (status: OrderStatus)
      modifies this
      ensures State() == AfterSubmit(old(State()), order, generated)
      ensures status == OrderStatus(BrokerId(order, generated), Pending)
    {
      var id := BrokerId(order, generated);
      pending := pending + [PendingOrder(order, id, lastSeenTimestamp)];
      status := OrderStatus(id, Pending);
      updateQueue := updateQueue + [status];
    }

    method ModifyOrder(id: OrderId, order: OrderRequest) returns (status: Option<OrderStatus>)
      modifies this
      ensures match AfterModify(old(State()), id, order)
              case None => status.None? && State() == old(State())
              case Some(after) => status == Some(OrderStatus(id, Pending)) && State() == after
    {
      assert pending[0..] == pending;
      assert forall rest: seq<PendingOrder> :: pending[..0] + rest == rest;
      for n := 0 to |pending|
        invariant State() == old(State())
        invariant var rest := Exchanged(pending[n..], id, order);
                  Exchanged(pending, id, order) == if rest.Some? then Some(pending[..n] + rest.value) else None
      {
        if pending[n].brokerId == id {
          assert pending[n..][1..] == pending[n + 1..];
          var exchanged := pending[n := PendingOrder(order, id, pending[n].submittedAfter)];
          assert exchanged == pending[..n] + ([exchanged[n]] + pending[n + 1..]);
          pending := exchanged;
          updateQueue := updateQueue + [OrderStatus(id, Pending)];
          return Some(OrderStatus(id, Pending));
        }
        ghost var rest := Exchanged(pending[n + 1..], id, order);
        assert pending[n..][1..] == pending[n + 1..];
        assert rest.Some? ==> pending[..n] + ([pending[n]] + rest.value) == pending[..n + 1] + rest.value;
      }
      assert pending[|pending|..] == [];
      status := None;
    }

    method CancelOrder(id: OrderId)
      modifies this`pending
      ensures State() == AfterCancel(old(State()), {id})
    {
      var kept := [];
      for n := 0 to |pending|
        invariant pending == old(pending) && kept == Without(pending[..n], {id})
      {
        assert pending[..n + 1][..n] == pending[..n];
        if pending[n].brokerId != id {
          kept := kept + [pending[n]];
        }
      }
      assert pending[..|pending|] == pending;
      pending := kept;
    }

    /** Resolves pending orders on a new bar. */
    method OnBar(bar: Bar)
      modifies this
      ensures State() == AfterBar(old(State()), bar)
    {
      lastSeenTimestamp := Later(lastSeenTimestamp, bar.timestamp);
      if pending == [] {
        return;
      }
      var toFill := pending;
      var still: seq<PendingOrder> := [];
      ghost var made: seq<Fill> := [];
      pending := [];
      for n := 0 to |toFill|
        invariant pending == [] && lastSeenTimestamp == Later(old(lastSeenTimestamp), bar.timestamp)
        invariant made == FillsFor(toFill[..n], bar) && still == StillPending(toFill[..n], bar)
        invariant fillQueue == old(fillQueue) + made
        invariant updateQueue == old(updateQueue) + Completed(made)
        invariant positions == Bought(old(positions), made)
      {
        assert toFill[..n + 1][..n] == toFill[..n];
        var p := toFill[n];
        if FillsOn(p, bar) {
          var fill := FillFor(p, bar);
          assert (made + [fill])[..|made|] == made;
          made := made + [fill];
          fillQueue := fillQueue + [fill];
          updateQueue := updateQueue + [OrderStatus(fill.orderId, Filled)];
          positions := positions[fill.instrument := Held(positions, fill.instrument) + SignedQuantity(fill.side, fill.quantity)];
        } else {
          still := still + [p];
        }
      }
      assert toFill[..|toFill|] == toFill;
      pending := pending + still;
    }

    method ReadyFills() returns (fills: seq<Fill>)
      modifies this`fillQueue
      ensures fills == old(fillQueue)
      ensures State() == old(State()).(fillQueue := [])
    {
      fills := [];
      while fillQueue != []
        invariant fills + fillQueue == old(fillQueue)
        decreases |fillQueue|
      {
        fills := fills + [fillQueue[0]];
        fillQueue := fillQueue[1..];
      }
    }
  }
}
