/**
 Taking accepted allocations over into the portfolio: each becomes a lot of its
 strategy with the broker position's instrument, sign and cost. Quantities are
 whole shares.
 */
module Adoption {
  import opened Types
  import opened Sums
  import opened Portfolio
  import opened StartupGate
  import opened StartupStatus

  /** A strategy's say over what it takes over; none means it refuses. */
  type Hook = (Allocation, Position) -> Option<Position>

  type Brokers = map<string, Position>

  function PositionsById(positions: seq<Position>, naming: Naming): Brokers {
    if positions == [] then map[]
    else PositionsById(positions[..|positions| - 1], naming)[naming(positions[|positions| - 1]) := positions[|positions| - 1]]
  }

  function SignedShares(a: Allocation, broker: Position): int {
    if broker.quantity > 0 then a.quantity.Floor else -a.quantity.Floor
  }

  function CandidatePosition(a: Allocation, broker: Position): Position {
    Position(broker.instrument, SignedShares(a, broker), broker.avgCost, a.tradeId)
  }

  /** Saved state is taken over as it is; anything else goes through the strategy. */
  function TakenOver(a: Allocation, broker: Position, hook: Hook): Option<Position> {
    if a.source == STRATEGY_STATE then Some(CandidatePosition(a, broker)) else hook(a, CandidatePosition(a, broker))
  }

  datatype AdoptionError = UnknownId(id: string) | Refused(strategyId: StrategyId)

  function AdoptOne(b: Books, brokers: Brokers, a: Allocation, hook: Hook): Result<Books, AdoptionError> {
    if a.positionId !in brokers then Failure(UnknownId(a.positionId))
    else
      var taken := TakenOver(a, brokers[a.positionId], hook);
      if taken.None? then Failure(Refused(a.strategyId)) else Success(AdoptedByStrategy(b, a.strategyId, taken.value))
  }

  function AdoptAll(b: Books, brokers: Brokers, allocations: seq<Allocation>, hook: Hook): Result<Books, AdoptionError> {
    if allocations == [] then Success(b)
    else
      var earlier := AdoptAll(b, brokers, allocations[..|allocations| - 1], hook);
      if earlier.Failure? then earlier
      else AdoptOne(earlier.value, brokers, allocations[|allocations| - 1], hook)
  }

  /** Strategies that take over what they are offered. */
  predicate Unchanged(hook: Hook, brokers: Brokers, allocations: seq<Allocation>) {
    forall k :: 0 <= k < |allocations| ==>
      && allocations[k].positionId in brokers
      && TakenOver(allocations[k], brokers[allocations[k].positionId], hook)
         == Some(CandidatePosition(allocations[k], brokers[allocations[k].positionId]))
  }

  /** Signed shares the allocations give a strategy in an instrument. */
  function Given(brokers: Brokers, allocations: seq<Allocation>, s: StrategyId, i: Instrument): int {
    if allocations == [] then 0
    else
      var a := allocations[|allocations| - 1];
      Given(brokers, allocations[..|allocations| - 1], s, i)
      + (if a.positionId in brokers && a.strategyId == s && brokers[a.positionId].instrument == i
         then SignedShares(a, brokers[a.positionId]) else 0)
  }

  lemma AdoptedQuantity(b: Books, s: StrategyId, p: Position, t: StrategyId, i: Instrument)
    ensures var b' := AdoptedByStrategy(b, s, p);
            && b'.positions == b.positions
            && QuantityHeld(Entry(b', Strategy(t, i)))
               == QuantityHeld(Entry(b, Strategy(t, i))) + if s == t && p.instrument == i then p.quantity else 0
  {
    AverageCostConserves(Find(b.strategyPositions, (s, p.instrument)), p.instrument, p.quantity, p.avgCost, None);
    hide ApplySignedQty, RealisedBy, Basis;
  }

  /**
   Adoption gives every strategy exactly the signed shares allocated to it, on
   top of what it had, and leaves the broker-wide book alone.
   */
  lemma {:induction false} AdoptionGives(b: Books, brokers: Brokers, allocations: seq<Allocation>, hook: Hook)
    requires Unchanged(hook, brokers, allocations)
    ensures var r := AdoptAll(b, brokers, allocations, hook);
            && r.Success?
            && r.value.positions == b.positions
            && forall s, i :: QuantityHeld(Entry(r.value, Strategy(s, i)))
                           == QuantityHeld(Entry(b, Strategy(s, i))) + Given(brokers, allocations, s, i)
  {
    hide AdoptedByStrategy, Entry;
    if allocations != [] {
      var init, a := allocations[..|allocations| - 1], allocations[|allocations| - 1];
      AdoptionGives(b, brokers, init, hook);
      var earlier := AdoptAll(b, brokers, init, hook).value;
      var p := CandidatePosition(a, brokers[a.positionId]);
      assert TakenOver(a, brokers[a.positionId], hook) == Some(p);
      AdoptedQuantity(earlier, a.strategyId, p, a.strategyId, p.instrument);
      forall s, i
        ensures QuantityHeld(Entry(AdoptedByStrategy(earlier, a.strategyId, p), Strategy(s, i)))
             == QuantityHeld(Entry(b, Strategy(s, i))) + Given(brokers, allocations, s, i)
      {
        AdoptedQuantity(earlier, a.strategyId, p, s, i);
      }
    }
  }

  function GivenTo(brokers: Brokers, allocations: seq<Allocation>, i: Instrument): StrategyId -> real {
    s => Given(brokers, allocations, s, i) as real
  }

  predicate OneContractEach(brokers: Brokers) {
    forall x, y :: x in brokers && y in brokers && x != y ==> brokers[x].instrument != brokers[y].instrument
  }

  predicate WholeShares(allocations: seq<Allocation>) {
    forall k :: 0 <= k < |allocations| ==> Whole(allocations[k].quantity)
  }

  /** Over all strategies, the signed shares given out are the allocated ones with the broker's sign. */
  lemma {:induction false} GivenIsAllocated(brokers: Brokers, allocations: seq<Allocation>, owners: set<StrategyId>, id: string)
    requires id in brokers && OneContractEach(brokers) && WholeShares(allocations)
    requires forall k :: 0 <= k < |allocations| ==> allocations[k].strategyId in owners && allocations[k].positionId in brokers
    ensures Sum(owners, GivenTo(brokers, allocations, brokers[id].instrument))
         == if brokers[id].quantity > 0 then Allocated(allocations, id) else -Allocated(allocations, id)
  {
    var i := brokers[id].instrument;
    if allocations == [] {
      SumWiden({}, owners, GivenTo(brokers, [], i));
    } else {
      var init, a := allocations[..|allocations| - 1], allocations[|allocations| - 1];
      GivenIsAllocated(brokers, init, owners, id);
      assert Whole(a.quantity);
      hide Sum;
      SumPoint(owners, GivenTo(brokers, allocations, i), GivenTo(brokers, init, i), a.strategyId);
    }
  }

  /**
   After an accepted submission is adopted, the strategies together hold the
   broker's position in each managed contract less what was acknowledged.
   */
  lemma StartupConserves(
    b: Books, items: Items, raws: seq<RawAllocation>, acks: seq<RawAck>, brokers: Brokers, hook: Hook,
    owners: set<StrategyId>, id: string)
    requires ValidateSubmission(true, items, raws, acks, true, true).Success? && id in items && id in brokers
    requires items[id].quantity == brokers[id].quantity as real && OneContractEach(brokers)
    requires forall s, i :: Entry(b, Strategy(s, i)) == None
    requires var accepted := ValidateSubmission(true, items, raws, acks, true, true).value;
             && WholeShares(accepted.allocations)
             && (forall k :: 0 <= k < |accepted.acks| ==> Whole(accepted.acks[k].quantity))
             && Unchanged(hook, brokers, accepted.allocations)
             && (forall k :: 0 <= k < |accepted.allocations| ==> accepted.allocations[k].strategyId in owners)
    ensures var accepted := ValidateSubmission(true, items, raws, acks, true, true).value;
            var r := AdoptAll(b, brokers, accepted.allocations, hook);
            var i := brokers[id].instrument;
            && r.Success?
            && r.value.positions == b.positions
            && Sum(owners, HeldBy(r.value, i))
               == brokers[id].quantity as real
                  - (if brokers[id].quantity > 0 then Acked(accepted.acks, id) else -Acked(accepted.acks, id))
  {
    hide ValidateSubmission, AdoptAll, Entry, Given, Sum, Allocated, Acked, TakenOver;
    var accepted := ValidateSubmission(true, items, raws, acks, true, true).value;
    var i := brokers[id].instrument;
    AdoptionGives(b, brokers, accepted.allocations, hook);
    GivenIsAllocated(brokers, accepted.allocations, owners, id);
    IntegerIsWhole(brokers[id].quantity);
    WholeSharesConserve(true, items, raws, acks, true, id);
    var after := AdoptAll(b, brokers, accepted.allocations, hook).value;
    forall s ensures HeldBy(after, i)(s) == GivenTo(brokers, accepted.allocations, i)(s) {
      assert Entry(b, Strategy(s, i)) == None;
    }
    SumSame(owners, HeldBy(after, i), GivenTo(brokers, accepted.allocations, i));
  }

  function HeldBy(b: Books, i: Instrument): StrategyId -> real {
    s => QuantityHeld(Entry(b, Strategy(s, i))) as real
  }

  lemma IntegerIsWhole(n: int)
    ensures Whole(AbsReal(n as real)) && Whole(n as real) && AbsReal(n as real) == Abs(n) as real
  {
    assert AbsReal(n as real) == Abs(n) as real;
  }

  // ---------------------------------------------------------------- one more allocation

  lemma {:induction false} RefusalStands(b: Books, brokers: Brokers, allocations: seq<Allocation>, more: seq<Allocation>, hook: Hook)
    requires AdoptAll(b, brokers, allocations, hook).Failure?
    ensures AdoptAll(b, brokers, allocations + more, hook) == AdoptAll(b, brokers, allocations, hook)
  {
    hide AdoptOne;
    if more == [] {
      assert allocations + more == allocations;
    } else {
      RefusalStands(b, brokers, allocations, more[..|more| - 1], hook);
      assert (allocations + more)[..|allocations + more| - 1] == allocations + more[..|more| - 1];
    }
  }

  /** One strategy takes over one position: its exposure and its lot of that trade id change, and nothing else. */
  predicate TakesOver(b: Books, b': Books, s: StrategyId, p: Position) {
    && b'.positions == b.positions
    && b'.strategyPositions.Keys == b.strategyPositions.Keys + {(s, p.instrument)}
    && (forall k :: k in b.strategyPositions && k != (s, p.instrument) ==> b'.strategyPositions[k] == b.strategyPositions[k])
    && (s, p.instrument) in b'.strategyPositions
    && b'.strategyPositions[(s, p.instrument)].quantity
       == QuantityHeld(Find(b.strategyPositions, (s, p.instrument))) + p.quantity
    && (p.tradeId == None ==> b'.strategyLots == b.strategyLots)
    && (p.tradeId.Some? ==>
          var lot := (s, p.instrument, p.tradeId.value);
          && b'.strategyLots.Keys == b.strategyLots.Keys + {lot}
          && lot in b'.strategyLots && b'.strategyLots[lot] == p
          && forall k :: k in b.strategyLots && k != lot ==> b'.strategyLots[k] == b.strategyLots[k])
  }

  /**
   An allocation of a position the broker does not have is refused. What a
   strategy saved is taken over as it is; for anything else the strategy decides
   what it takes over, or refuses. A refusal is final.
   */
  lemma NextAdopted(b: Books, brokers: Brokers, done: seq<Allocation>, a: Allocation, more: seq<Allocation>, hook: Hook)
    requires AdoptAll(b, brokers, done, hook).Success?
    ensures var before := AdoptAll(b, brokers, done, hook).value;
            var next := AdoptAll(b, brokers, done + [a], hook);
            && (if a.positionId !in brokers then next == Failure(UnknownId(a.positionId))
                else
                  var broker := brokers[a.positionId];
                  var offered := Position(
                    broker.instrument, if broker.quantity > 0 then a.quantity.Floor else -a.quantity.Floor,
                    broker.avgCost, a.tradeId);
                  var taken := if a.source == "strategy_state" then Some(offered) else hook(a, offered);
                  if taken == None then next == Failure(Refused(a.strategyId))
                  else next.Success? && TakesOver(before, next.value, a.strategyId, taken.value))
            && (next.Failure? ==> AdoptAll(b, brokers, done + [a] + more, hook) == next)
  {
    assert (done + [a])[..|done|] == done;
    if a.positionId in brokers {
      var taken := TakenOver(a, brokers[a.positionId], hook);
      if taken.Some? {
        TakesOverIs(AdoptAll(b, brokers, done, hook).value, a.strategyId, taken.value);
      }
    }
    if AdoptAll(b, brokers, done + [a], hook).Failure? {
      RefusalStands(b, brokers, done + [a], more, hook);
    }
    hide TakesOver, AdoptedByStrategy;
  }

  lemma TakesOverIs(b: Books, s: StrategyId, p: Position)
    ensures TakesOver(b, AdoptedByStrategy(b, s, p), s, p)
  {
    AverageCostConserves(Find(b.strategyPositions, (s, p.instrument)), p.instrument, p.quantity, p.avgCost, None);
    hide ApplySignedQty, RealisedBy, Basis;
  }

  /** What a strategy takes over costs it what it cost the broker: between the cheapest and the dearest of the positions. */
  lemma {:induction false} AdoptedCosts(
    b: Books, brokers: Brokers, allocations: seq<Allocation>, hook: Hook, s: StrategyId, i: Instrument, lo: real, hi: real)
    requires Unchanged(hook, brokers, allocations)
    requires Tells(Entry(b, Strategy(s, i)), i, None, lo, hi)
    requires forall k :: 0 <= k < |allocations| && allocations[k].strategyId == s && brokers[allocations[k].positionId].instrument == i ==>
               allocations[k].quantity >= 1.0 && lo <= brokers[allocations[k].positionId].avgCost <= hi
    ensures var r := AdoptAll(b, brokers, allocations, hook);
            r.Success? && Tells(Entry(r.value, Strategy(s, i)), i, None, lo, hi)
  {
    hide ApplySignedQty, Tells, TakenOver;
    if allocations != [] {
      var init, a := allocations[..|allocations| - 1], allocations[|allocations| - 1];
      assert forall k :: 0 <= k < |init| ==> init[k] == allocations[k];
      AdoptedCosts(b, brokers, init, hook, s, i, lo, hi);
      var p := CandidatePosition(a, brokers[a.positionId]);
      assert TakenOver(a, brokers[a.positionId], hook) == Some(p);
      if a.strategyId == s && p.instrument == i {
        OneTells(Entry(AdoptAll(b, brokers, init, hook).value, Strategy(s, i)), i, p.quantity, p.avgCost, None, lo, hi);
      }
    }
  }

  /** Broker positions are known by the names they are given; the last of a name stands for it. */
  lemma {:induction false} PositionsNamed(positions: seq<Position>, naming: Naming, id: string)
    ensures id in PositionsById(positions, naming) <==> exists k :: 0 <= k < |positions| && naming(positions[k]) == id
    ensures id in PositionsById(positions, naming) ==>
              exists k :: && 0 <= k < |positions| && naming(positions[k]) == id
                          && PositionsById(positions, naming)[id] == positions[k]
                          && forall j :: k < j < |positions| ==> naming(positions[j]) != id
  {
    if positions != [] {
      var n := |positions| - 1;
      PositionsNamed(positions[..n], naming, id);
      if k :| && 0 <= k < n && naming(positions[..n][k]) == id && PositionsById(positions[..n], naming)[id] == positions[..n][k]
              && forall j :: k < j < n ==> naming(positions[..n][j]) != id
      {
        assert naming(positions[k]) == id;
        assert forall j :: k < j < n ==> positions[..n][j] == positions[j];
      }
      if k :| 0 <= k < |positions| && naming(positions[k]) == id {
        assert k < n ==> naming(positions[..n][k]) == id;
      }
      assert naming(positions[n]) == id ==> PositionsById(positions, naming)[id] == positions[n];
    }
  }

  // ---------------------------------------------------------------- lots

  predicate Tags(brokers: Brokers, a: Allocation, s: StrategyId, i: Instrument, t: TradeId) {
    a.positionId in brokers && brokers[a.positionId].instrument == i && a.strategyId == s && a.tradeId == Some(t)
  }

  /** An allocation whose trade id no later one repeats is the lot the strategy ends up with. */
  lemma {:induction false} LotRestored(
    b: Books, brokers: Brokers, allocations: seq<Allocation>, hook: Hook, k: nat, t: TradeId)
    requires Unchanged(hook, brokers, allocations) && k < |allocations| && allocations[k].tradeId == Some(t)
    requires var i := brokers[allocations[k].positionId].instrument;
             forall j :: k < j < |allocations| ==> !Tags(brokers, allocations[j], allocations[k].strategyId, i, t)
    ensures var a := allocations[k];
            var broker := brokers[a.positionId];
            var r := AdoptAll(b, brokers, allocations, hook);
            && r.Success?
            && Entry(r.value, Tagged(a.strategyId, broker.instrument, t))
               == Some(Position(broker.instrument, if broker.quantity > 0 then a.quantity.Floor else -a.quantity.Floor,
                                broker.avgCost, Some(t)))
  {
    hide ApplySignedQty, TakenOver;
    AdoptionGives(b, brokers, allocations, hook);
    var init, last := allocations[..|allocations| - 1], allocations[|allocations| - 1];
    AdoptionGives(b, brokers, init, hook);
    assert TakenOver(last, brokers[last.positionId], hook) == Some(CandidatePosition(last, brokers[last.positionId]));
    if k < |init| {
      LotRestored(b, brokers, init, hook, k, t);
      assert !Tags(brokers, last, allocations[k].strategyId, brokers[allocations[k].positionId].instrument, t);
    }
  }

  /** The last allocation under a trade id. */
  function LastTagged(brokers: Brokers, allocations: seq<Allocation>, s: StrategyId, i: Instrument, t: TradeId): (n: nat)
    requires exists j :: 0 <= j < |allocations| && Tags(brokers, allocations[j], s, i, t)
    ensures n < |allocations| && Tags(brokers, allocations[n], s, i, t)
    ensures forall j :: n < j < |allocations| ==> !Tags(brokers, allocations[j], s, i, t)
  {
    if Tags(brokers, allocations[|allocations| - 1], s, i, t) then |allocations| - 1
    else
      var init := allocations[..|allocations| - 1];
      var j :| 0 <= j < |allocations| && Tags(brokers, allocations[j], s, i, t);
      assert Tags(brokers, init[j], s, i, t);
      LastTagged(brokers, init, s, i, t)
  }

  /** An allocation is listed as it was given exactly when the last one under its trade id has its shares and cost. */
  lemma LotRestoredIff(b: Books, brokers: Brokers, allocations: seq<Allocation>, hook: Hook, k: nat, t: TradeId)
    requires Unchanged(hook, brokers, allocations) && k < |allocations| && allocations[k].tradeId == Some(t)
    ensures var a := allocations[k];
            var broker := brokers[a.positionId];
            assert Tags(brokers, a, a.strategyId, broker.instrument, t);
            var last := allocations[LastTagged(brokers, allocations, a.strategyId, broker.instrument, t)];
            var r := AdoptAll(b, brokers, allocations, hook);
            && r.Success?
            && (Entry(r.value, Tagged(a.strategyId, broker.instrument, t)) == Some(CandidatePosition(a, broker))
                <==> SignedShares(last, brokers[last.positionId]) == SignedShares(a, broker)
                     && brokers[last.positionId].avgCost == broker.avgCost)
  {
    hide AdoptAll, TakenOver;
    var a := allocations[k];
    var i := brokers[a.positionId].instrument;
    assert Tags(brokers, a, a.strategyId, i, t);
    LotRestored(b, brokers, allocations, hook, LastTagged(brokers, allocations, a.strategyId, i, t), t);
  }

  /** A repeated trade id does overwrite: the strategy holds both lots but shows only the second. */
  lemma RepeatedTagOverwrites(i: Instrument, s: StrategyId, t: TradeId, hook: Hook)
    ensures var brokers := map["p" := Position(i, 5, 1.0, None)];
            var a, c := Allocation("p", s, 2.0, None, Some(t), STRATEGY_STATE), Allocation("p", s, 3.0, None, Some(t), STRATEGY_STATE);
            var r := AdoptAll(EmptyBooks, brokers, [a, c], hook);
            && r.Success?
            && QuantityHeld(Entry(r.value, Strategy(s, i))) == 5
            && QuantityHeld(Entry(r.value, Tagged(s, i, t))) == 3
  {
    var brokers := map["p" := Position(i, 5, 1.0, None)];
    var a, c := Allocation("p", s, 2.0, None, Some(t), STRATEGY_STATE), Allocation("p", s, 3.0, None, Some(t), STRATEGY_STATE);
    assert [a, c][..1] == [a] && [a][..0] == [];
    assert 2.0.Floor == 2 && 3.0.Floor == 3;
    hide AdoptAll, ApplySignedQty, AdoptedByStrategy;
    AdoptionGives(EmptyBooks, brokers, [a, c], hook);
    assert Given(brokers, [a], s, i) == 2;
    assert Given(brokers, [a, c], s, i) == 5;
    LotRestored(EmptyBooks, brokers, [a, c], hook, 1, t);
  }

  // ---------------------------------------------------------------- in place

  predicate StillUnmanaged(brokers: Brokers, allocations: seq<Allocation>, id: string) {
    id in brokers && AbsReal(brokers[id].quantity as real) - Allocated(allocations, id) > EPSILON
  }

  /**
   Adopts in order. A refusal stops it with the earlier allocations adopted;
   otherwise it also reports the positions with shares nobody took, unless there
   was nothing to apply at all.
   */
  method ApplyStartupPositionAllocations(
    allocations: seq<Allocation>, acknowledged: bool, positions: seq<Position>, naming: Naming, hook: Hook,
    portfolio: PortfolioState)
    returns (r: Result<set<string>, AdoptionError>)
    modifies portfolio
    ensures portfolio.positions == old(portfolio.positions)
    ensures r.Success? ==>
              AdoptAll(old(portfolio.State()), PositionsById(positions, naming), allocations, hook) == Success(portfolio.State())
    ensures r.Success? ==>
              forall id :: id in r.value <==>
                (allocations != [] || acknowledged) && StillUnmanaged(PositionsById(positions, naming), allocations, id)
    ensures r.Failure? ==>
              exists k :: 0 <= k < |allocations| && StoppedAt(k, old(portfolio.State()), portfolio.State(), r.error,
                                                              PositionsById(positions, naming), allocations, hook)
  {
    hide ApplySignedQty, TakenOver, PositionsById;
    if allocations == [] && !acknowledged {
      return Success({});
    }
    var brokers := PositionsById(positions, naming);
    ghost var b := portfolio.State();
    var totals: map<string, real> := map[];
    for k := 0 to |allocations|
      invariant portfolio.positions == old(portfolio.positions)
      invariant AdoptAll(b, brokers, allocations[..k], hook) == Success(portfolio.State())
      invariant forall id :: Amount(totals, id) == Allocated(allocations[..k], id)
    {
      assert allocations[..k + 1][..k] == allocations[..k];
      var a := allocations[k];
      if a.positionId !in brokers {
        r := Failure(UnknownId(a.positionId));
        assert StoppedAt(k, b, portfolio.State(), r.error, brokers, allocations, hook);
        return;
      }
      var taken := TakenOver(a, brokers[a.positionId], hook);
      if taken.None? {
        r := Failure(Refused(a.strategyId));
        assert StoppedAt(k, b, portfolio.State(), r.error, brokers, allocations, hook);
        return;
      }
      portfolio.AdoptStrategyPosition(a.strategyId, taken.value);
      totals := totals[a.positionId := Amount(totals, a.positionId) + a.quantity];
    }
    assert allocations[..|allocations|] == allocations;
    var unmanaged := set id | id in brokers && AbsReal(brokers[id].quantity as real) - Amount(totals, id) > EPSILON;
    r := Success(unmanaged);
  }

  /** Everything before the failing allocation has been adopted. */
  predicate StoppedAt(
    k: int, b: Books, b': Books, error: AdoptionError, brokers: Brokers, allocations: seq<Allocation>, hook: Hook)
  {
    && 0 <= k < |allocations|
    && AdoptAll(b, brokers, allocations[..k], hook) == Success(b')
    && AdoptOne(b', brokers, allocations[k], hook) == Failure(error)
  }
}
