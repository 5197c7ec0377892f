/**
 What the paper broker promises about orders, bars and fills, said in prices,
 times and positions only: when a stop fires and at what price, what every
 other order costs, which bar fills an order, and what a cancel takes away.
 */
module BrokerLaws {
  import opened Types
  import opened PaperBroker

  /** A broker with nothing but some orders waiting. */
  function Waiting(pending: seq<PendingOrder>): BrokerState {
    EmptyBroker.(pending := pending)
  }

  /** The bar is of the order's instrument and later than what was seen when it came in. */
  predicate Follows(bar: Bar, p: PendingOrder) {
    bar.instrument == p.order.instrument && (p.submittedAfter.Some? ==> p.submittedAfter.value < bar.timestamp)
  }

  lemma OneOrder(p: PendingOrder, bar: Bar)
    ensures FillsFor([p], bar) == if FillsOn(p, bar) then [FillFor(p, bar)] else []
    ensures StillPending([p], bar) == if FillsOn(p, bar) then [] else [p]
    ensures AfterBar(Waiting([p]), bar).fillQueue == FillsFor([p], bar)
  {
    assert [p][..0] == [];
    assert FillsFor([p][..0], bar) == [] && StillPending([p][..0], bar) == [];
    var none: seq<Fill> := [];
    assert none + FillsFor([p], bar) == FillsFor([p], bar);
  }

  // ---------------------------------------------------------------- one order, one bar

  /** A stop fires when the bar's high, for a buy, or its low, for a sale, reaches it, and fills at the stop. */
  lemma StopFiresWhenReached(p: PendingOrder, stop: real, bar: Bar)
    requires p.order.orderType == Stop && p.order.stopPrice == Some(stop) && Follows(bar, p)
    ensures var t := AfterBar(Waiting([p]), bar);
            var fill := Fill(p.brokerId, bar.instrument, p.order.side, p.order.quantity, stop, bar.timestamp);
            match p.order.side
            case Long => if bar.high >= stop then t.fillQueue == [fill] && t.pending == [] else t.fillQueue == [] && t.pending == [p]
            case Short => if bar.low <= stop then t.fillQueue == [fill] && t.pending == [] else t.fillQueue == [] && t.pending == [p]
  {
    OneOrder(p, bar);
    hide FillsFor, StillPending, Bought, Completed;
  }

  /** Every other order fills at the open, whatever its limit and whatever the rest of the bar is. */
  lemma OthersFillAtOpen(p: PendingOrder, bar: Bar)
    requires p.order.orderType != Stop && Follows(bar, p)
    ensures var t := AfterBar(Waiting([p]), bar);
            && t.fillQueue == [Fill(p.brokerId, bar.instrument, p.order.side, p.order.quantity, bar.open, bar.timestamp)]
            && t.pending == []
  {
    OneOrder(p, bar);
    hide FillsFor, StillPending, Bought, Completed;
  }

  /** An order waits through bars of other instruments, earlier bars, and for good if it is a stop without a price. */
  lemma OtherwiseWaits(p: PendingOrder, bar: Bar)
    requires !Follows(bar, p) || (p.order.orderType == Stop && p.order.stopPrice == None)
    ensures var t := AfterBar(Waiting([p]), bar);
            t.fillQueue == [] && t.pending == [p]
  {
    OneOrder(p, bar);
    hide FillsFor, StillPending, Bought, Completed;
  }

  lemma {:induction false} FillsConcat(x: seq<PendingOrder>, y: seq<PendingOrder>, bar: Bar)
    ensures FillsFor(x + y, bar) == FillsFor(x, bar) + FillsFor(y, bar)
    ensures StillPending(x + y, bar) == StillPending(x, bar) + StillPending(y, bar)
  {
    if y == [] {
      assert x + y == x;
    } else {
      FillsConcat(x, y[..|y| - 1], bar);
      assert (x + y)[..|x + y| - 1] == x + y[..|y| - 1];
    }
  }

  /** Each order is resolved by itself, in the order of submission. */
  lemma EachByItself(x: seq<PendingOrder>, y: seq<PendingOrder>, bar: Bar)
    ensures var t, u, v := AfterBar(Waiting(x + y), bar), AfterBar(Waiting(x), bar), AfterBar(Waiting(y), bar);
            t.fillQueue == u.fillQueue + v.fillQueue && t.pending == u.pending + v.pending
  {
    FillsConcat(x, y, bar);
    hide FillsFor, StillPending, Completed, Bought;
  }

  /**
   New fills join the queue behind the old ones, each with a filled status; the
   positions move by them; the last time seen never goes back.
   */
  lemma BarAdds(b: BrokerState, bar: Bar, i: Instrument)
    ensures var t, made := AfterBar(b, bar), AfterBar(Waiting(b.pending), bar).fillQueue;
            && t.pending == AfterBar(Waiting(b.pending), bar).pending
            && t.fillQueue == b.fillQueue + made
            && |t.updateQueue| == |b.updateQueue| + |made|
            && (forall n :: 0 <= n < |t.updateQueue| ==>
                  t.updateQueue[n] == if n < |b.updateQueue| then b.updateQueue[n]
                                      else OrderStatus(made[n - |b.updateQueue|].orderId, Filled))
            && Held(t.positions, i) == Held(b.positions, i) + NetOfFills(made, i)
            && t.lastSeen == Some(if b.lastSeen.Some? && b.lastSeen.value > bar.timestamp then b.lastSeen.value else bar.timestamp)
  {
    hide FillsFor, StillPending, Completed, Bought, NetOfFills, Held;
    var made := FillsFor(b.pending, bar);
    var none: seq<Fill> := [];
    assert none + made == made;
    BoughtNet(b.positions, made, i);
    CompletedIs(made);
  }

  lemma {:induction false} CompletedIs(fills: seq<Fill>)
    ensures |Completed(fills)| == |fills|
    ensures forall n :: 0 <= n < |fills| ==> Completed(fills)[n] == OrderStatus(fills[n].orderId, Filled)
  {
    if fills != [] {
      CompletedIs(fills[..|fills| - 1]);
    }
  }

  /** What fills move: bought shares count up, sold ones down. */
  lemma NetCounts(fill: Fill, i: Instrument)
    ensures NetOfFills([fill], i)
         == if fill.instrument != i then 0 else if fill.side == Long then fill.quantity else -fill.quantity
  {
    assert [fill][..0] == [];
  }

  /** Bars that agree on instrument, time and open treat all but stops alike. */
  lemma {:induction false} OnlyOpenMatters(pending: seq<PendingOrder>, bar: Bar, other: Bar)
    requires forall p :: p in pending ==> p.order.orderType != Stop
    requires bar.instrument == other.instrument && bar.timestamp == other.timestamp && bar.open == other.open
    ensures AfterBar(Waiting(pending), bar) == AfterBar(Waiting(pending), other)
  {
    SameFills(pending, bar, other);
  }

  lemma {:induction false} SameFills(pending: seq<PendingOrder>, bar: Bar, other: Bar)
    requires forall p :: p in pending ==> p.order.orderType != Stop
    requires bar.instrument == other.instrument && bar.timestamp == other.timestamp && bar.open == other.open
    ensures FillsFor(pending, bar) == FillsFor(pending, other) && StillPending(pending, bar) == StillPending(pending, other)
  {
    if pending != [] {
      assert pending[|pending| - 1] in pending;
      SameFills(pending[..|pending| - 1], bar, other);
    }
  }

  // ---------------------------------------------------------------- many bars

  function AfterBars(b: BrokerState, bars: seq<Bar>): BrokerState {
    if bars == [] then b else AfterBar(AfterBars(b, bars[..|bars| - 1]), bars[|bars| - 1])
  }

  /** The bar is one the order fills on, and the fill it gives. */
  predicate Due(bar: Bar, p: PendingOrder) {
    && Follows(bar, p)
    && (p.order.orderType == Stop ==>
          p.order.stopPrice.Some?
          && (p.order.side == Long ==> bar.high >= p.order.stopPrice.value)
          && (p.order.side == Short ==> bar.low <= p.order.stopPrice.value))
  }

  function Execution(bar: Bar, p: PendingOrder): Fill
    requires Due(bar, p)
  {
    Fill(p.brokerId, p.order.instrument, p.order.side, p.order.quantity,
         if p.order.orderType == Stop then p.order.stopPrice.value else bar.open, bar.timestamp)
  }

  lemma {:induction false} Resolved(pending: seq<PendingOrder>, p: PendingOrder, bar: Bar)
    requires p in pending
    ensures Due(bar, p) ==> Execution(bar, p) in FillsFor(pending, bar)
    ensures !Due(bar, p) ==> p in StillPending(pending, bar)
  {
    if p in pending[..|pending| - 1] {
      Resolved(pending[..|pending| - 1], p, bar);
    }
  }

  lemma {:induction false} StaysThrough(b: BrokerState, bars: seq<Bar>, p: PendingOrder)
    requires p in b.pending && forall k :: 0 <= k < |bars| ==> !Due(bars[k], p)
    ensures p in AfterBars(b, bars).pending
  {
    if bars != [] {
      var init, bar := bars[..|bars| - 1], bars[|bars| - 1];
      StaysThrough(b, init, p);
      Resolved(AfterBars(b, init).pending, p, bar);
      hide FillsFor, StillPending, Due;
    }
  }

  /** An order waits for the first bar it is due on, and that bar fills it. */
  lemma FirstDueBarFills(b: BrokerState, bars: seq<Bar>, bar: Bar, p: PendingOrder)
    requires p in b.pending && (forall k :: 0 <= k < |bars| ==> !Due(bars[k], p)) && Due(bar, p)
    ensures p in AfterBars(b, bars).pending
    ensures Execution(bar, p) in AfterBar(AfterBars(b, bars), bar).fillQueue
  {
    StaysThrough(b, bars, p);
    Resolved(AfterBars(b, bars).pending, p, bar);
    hide FillsFor, StillPending;
  }

  lemma {:induction false} SeenIsLatest(b: BrokerState, bars: seq<Bar>, k: nat)
    requires k < |bars|
    ensures AfterBars(b, bars).lastSeen.Some? && AfterBars(b, bars).lastSeen.value >= bars[k].timestamp
  {
    if k < |bars| - 1 {
      SeenIsLatest(b, bars[..|bars| - 1], k);
    }
    hide FillsFor, StillPending, Completed, Bought;
  }

  /** An order never fills on a bar no later than one the broker had seen when it was submitted. */
  lemma NothingSeenFills(b: BrokerState, bars: seq<Bar>, k: nat, order: OrderRequest, generated: OrderId, bar: Bar)
    requires k < |bars| && bar.timestamp <= bars[k].timestamp
    ensures var s := AfterBars(b, bars);
            var t := AfterSubmit(s, order, generated);
            AfterBar(t, bar).fillQueue == AfterBar(s, bar).fillQueue
            && AfterBar(t, bar).pending == AfterBar(s, bar).pending + [t.pending[|t.pending| - 1]]
  {
    SeenIsLatest(b, bars, k);
    NoLookAhead(AfterBars(b, bars), order, generated, bar);
    hide FillsFor, StillPending, Completed, Bought;
  }

  // ---------------------------------------------------------------- submitting, modifying, cancelling

  /** An order waits under its client id, else under its own key, else under the generated id. */
  lemma SubmittedWaits(b: BrokerState, order: OrderRequest, generated: OrderId)
    ensures var t := AfterSubmit(b, order, generated);
            var id := t.pending[|b.pending|].brokerId;
            && t.pending == b.pending + [PendingOrder(order, id, b.lastSeen)]
            && t.updateQueue == b.updateQueue + [OrderStatus(id, Pending)]
            && t.fillQueue == b.fillQueue && t.positions == b.positions && t.lastSeen == b.lastSeen
            && (match order.clientOrderId
                case Some(own) => own != "" ==> id == own
                case None => true)
            && (order.clientOrderId in {None, Some("")} ==> id == if order.idempotencyKey != "" then order.idempotencyKey else generated)
  {
  }

  /** A modify exchanges the first waiting order of the id, which keeps its place and its time, and nothing else. */
  lemma {:induction false} ModifyExchanges(pending: seq<PendingOrder>, id: OrderId, order: OrderRequest)
    ensures var r := Exchanged(pending, id, order);
            && (r.None? <==> forall k :: 0 <= k < |pending| ==> pending[k].brokerId != id)
            && (r.Some? ==> exists k :: 0 <= k < |pending| && IsFirst(pending, id, k)
                              && r.value == pending[k := PendingOrder(order, id, pending[k].submittedAfter)])
  {
    if pending != [] {
      if pending[0].brokerId == id {
        assert IsFirst(pending, id, 0);
        assert [PendingOrder(order, id, pending[0].submittedAfter)] + pending[1..]
            == pending[0 := PendingOrder(order, id, pending[0].submittedAfter)];
      } else {
        var rest, r := pending[1..], Exchanged(pending[1..], id, order);
        ModifyExchanges(rest, id, order);
        assert forall k :: 1 <= k < |pending| ==> pending[k] == rest[k - 1];
        if r.Some? {
          var k :| 0 <= k < |rest| && IsFirst(rest, id, k)
                   && r.value == rest[k := PendingOrder(order, id, rest[k].submittedAfter)];
          assert IsFirst(pending, id, k + 1);
          assert [pending[0]] + r.value == pending[k + 1 := PendingOrder(order, id, pending[k + 1].submittedAfter)];
        } else {
          assert forall k :: 0 <= k < |rest| ==> rest[k].brokerId != id;
        }
      }
    }
  }

  predicate IsFirst(pending: seq<PendingOrder>, id: OrderId, k: int) {
    0 <= k < |pending| && pending[k].brokerId == id && forall j :: 0 <= j < k ==> pending[j].brokerId != id
  }

  lemma ModifyTells(b: BrokerState, id: OrderId, order: OrderRequest)
    ensures var r := AfterModify(b, id, order);
            && (r.None? <==> forall k :: 0 <= k < |b.pending| ==> b.pending[k].brokerId != id)
            && (r.Some? ==>
                  r.value == b.(pending := r.value.pending, updateQueue := b.updateQueue + [OrderStatus(id, Pending)])
                  && exists k :: 0 <= k < |b.pending| && IsFirst(b.pending, id, k)
                       && r.value.pending == b.pending[k := PendingOrder(order, id, b.pending[k].submittedAfter)])
  {
    ModifyExchanges(b.pending, id, order);
    hide Exchanged, IsFirst;
  }

  /** A cancel takes exactly the orders of its ids off the list, and the rest keep their order. */
  lemma {:induction false} CancelTakes(b: BrokerState, ids: set<OrderId>, more: seq<PendingOrder>)
    ensures var t := AfterCancel(b, ids);
            && t == b.(pending := t.pending)
            && (forall p :: p in t.pending <==> p in b.pending && p.brokerId !in ids)
    ensures AfterCancel(b.(pending := b.pending + more), ids).pending
         == AfterCancel(b, ids).pending + AfterCancel(b.(pending := more), ids).pending
    ensures forall p :: AfterCancel(b.(pending := [p]), ids).pending == if p.brokerId in ids then [] else [p]
  {
    CancelMembers(b.pending, ids);
    CancelConcat(b.pending, more, ids);
    forall p: PendingOrder ensures Without([p], ids) == if p.brokerId in ids then [] else [p] {
      assert [p][..0] == [];
    }
    hide Without;
  }

  lemma {:induction false} CancelMembers(pending: seq<PendingOrder>, ids: set<OrderId>)
    ensures forall p :: p in Without(pending, ids) <==> p in pending && p.brokerId !in ids
  {
    if pending != [] {
      CancelMembers(pending[..|pending| - 1], ids);
    }
  }

  lemma {:induction false} CancelConcat(x: seq<PendingOrder>, y: seq<PendingOrder>, ids: set<OrderId>)
    ensures Without(x + y, ids) == Without(x, ids) + Without(y, ids)
  {
    if y == [] {
      assert x + y == x;
    } else {
      CancelConcat(x, y[..|y| - 1], ids);
      assert (x + y)[..|x + y| - 1] == x + y[..|y| - 1];
    }
  }
}
