/** What the startup status says of the broker's positions, and which phase startup is in. */
module StatusLaws {
  import opened Types
  import opened Contracts
  import opened StartupGate
  import opened StartupStatus
  import opened GateLaws

  // ---------------------------------------------------------------- candidates

  ghost predicate ExactlyTraded(strategies: seq<StrategySpec>, i: Instrument) {
    exists k :: 0 <= k < |strategies| && InstrumentsMatch(i, strategies[k].instrument)
  }

  /** A strategy that could hold the position: of its contract or, when none is, of its underlying. */
  ghost predicate CouldHold(strategies: seq<StrategySpec>, i: Instrument, k: int) {
    && 0 <= k < |strategies|
    && if ExactlyTraded(strategies, i) then InstrumentsMatch(i, strategies[k].instrument)
       else SameUnderlying(i, strategies[k].instrument)
  }

  lemma {:induction false} ExactAre(strategies: seq<StrategySpec>, i: Instrument, c: Candidate)
    ensures c in ExactCandidates(strategies, i)
       <==> exists k :: 0 <= k < |strategies| && InstrumentsMatch(i, strategies[k].instrument) && c == CandidateOf(strategies[k])
  {
    hide InstrumentsMatch, CandidateOf;
    if strategies != [] {
      var init := strategies[..|strategies| - 1];
      ExactAre(init, i, c);
      if k :| 0 <= k < |init| && InstrumentsMatch(i, init[k].instrument) && c == CandidateOf(init[k]) {
        assert strategies[k] == init[k];
      }
      if k :| 0 <= k < |strategies| && InstrumentsMatch(i, strategies[k].instrument) && c == CandidateOf(strategies[k]) {
        assert k < |init| ==> init[k] == strategies[k];
      }
    }
  }

  lemma {:induction false} UnderlyingAre(strategies: seq<StrategySpec>, i: Instrument, c: Candidate)
    ensures c in UnderlyingCandidates(strategies, i)
       <==> exists k :: 0 <= k < |strategies| && SameUnderlying(i, strategies[k].instrument) && c == CandidateOf(strategies[k])
  {
    hide SameUnderlying, CandidateOf;
    if strategies != [] {
      var init := strategies[..|strategies| - 1];
      UnderlyingAre(init, i, c);
      if k :| 0 <= k < |init| && SameUnderlying(i, init[k].instrument) && c == CandidateOf(init[k]) {
        assert strategies[k] == init[k];
      }
      if k :| 0 <= k < |strategies| && SameUnderlying(i, strategies[k].instrument) && c == CandidateOf(strategies[k]) {
        assert k < |init| ==> init[k] == strategies[k];
      }
    }
  }

  lemma ExactOnesExist(strategies: seq<StrategySpec>, i: Instrument)
    ensures ExactCandidates(strategies, i) != [] <==> ExactlyTraded(strategies, i)
  {
    hide InstrumentsMatch, ExactCandidates, CandidateOf;
    if k :| 0 <= k < |strategies| && InstrumentsMatch(i, strategies[k].instrument) {
      ExactAre(strategies, i, CandidateOf(strategies[k]));
    }
    if ExactCandidates(strategies, i) != [] {
      ExactAre(strategies, i, ExactCandidates(strategies, i)[0]);
    }
  }

  /**
   A position's candidates are the strategies that could hold it, and one may
   take it over if it supports that and is not run dry.
   */
  lemma CandidatesAre(strategies: seq<StrategySpec>, i: Instrument, c: Candidate)
    ensures c in CandidatesFor(strategies, i)
       <==> exists k :: && CouldHold(strategies, i, k)
                        && var s := strategies[k];
                           c == Candidate(s.strategyId, s.dryRun, s.supportsAdoption,
                                          s.supportsAdoption && !s.dryRun, s.multiPosition, s.needsEntryTime)
  {
    ExactAre(strategies, i, c);
    UnderlyingAre(strategies, i, c);
    ExactOnesExist(strategies, i);
    hide InstrumentsMatch, SameUnderlying, ExactCandidates, UnderlyingCandidates;
    if k :| CouldHold(strategies, i, k) && c == CandidateOf(strategies[k]) {
      assert strategies[k] == strategies[k];
    }
    if c in CandidatesFor(strategies, i) {
      var k :| 0 <= k < |strategies| && c == CandidateOf(strategies[k])
               && if ExactlyTraded(strategies, i) then InstrumentsMatch(i, strategies[k].instrument)
                  else SameUnderlying(i, strategies[k].instrument);
      assert CouldHold(strategies, i, k);
    }
  }

  // ---------------------------------------------------------------- positions

  ghost predicate TradedBySome(strategies: seq<StrategySpec>, i: Instrument) {
    exists k :: 0 <= k < |strategies| && SameUnderlying(i, strategies[k].instrument)
  }

  /** What is listed of a broker position. */
  predicate Lists(item: GateItem, p: Position, naming: Naming) {
    && item.positionId == naming(p)
    && item.instrument == p.instrument
    && item.quantity == p.quantity as real
    && (item.facing.FacingLong? <==> p.quantity > 0)
    && (item.facing.FacingShort? <==> p.quantity < 0)
    && (item.facing.FacingFlat? <==> p.quantity == 0)
  }

  /** The positions to be mapped are listed with their candidates, in the broker's order. */
  lemma {:induction false} RequiredAre(positions: seq<Position>, strategies: seq<StrategySpec>, naming: Naming, p: Position)
    ensures var more := Required(positions + [p], strategies, naming);
            var before := Required(positions, strategies, naming);
            if TradedBySome(strategies, p.instrument)
            then |more| == |before| + 1 && more[..|before|] == before
                 && Lists(more[|before|], p, naming) && more[|before|].candidates == CandidatesFor(strategies, p.instrument)
            else more == before
    ensures Required([], strategies, naming) == []
  {
    hide SameUnderlying, CandidatesFor;
    assert (positions + [p])[..|positions|] == positions;
  }

  /** Those no strategy trades are listed as unmanaged, without candidates. */
  lemma {:induction false} UnmanagedAre(positions: seq<Position>, strategies: seq<StrategySpec>, naming: Naming, p: Position)
    ensures var more := Unmanaged(positions + [p], strategies, naming);
            var before := Unmanaged(positions, strategies, naming);
            if TradedBySome(strategies, p.instrument) then more == before
            else |more| == |before| + 1 && more[..|before|] == before
                 && Lists(more[|before|], p, naming) && more[|before|].candidates == []
    ensures Unmanaged([], strategies, naming) == []
  {
    hide SameUnderlying;
    assert (positions + [p])[..|positions|] == positions;
  }

  // ---------------------------------------------------------------- phases

  /** Some strategy trades the underlying, but none of the position's contract could take it over. */
  ghost predicate CannotBeTaken(strategies: seq<StrategySpec>, i: Instrument) {
    && TradedBySome(strategies, i)
    && forall k :: 0 <= k < |strategies| && InstrumentsMatch(i, strategies[k].instrument) ==>
         strategies[k].dryRun || !strategies[k].supportsAdoption
  }

  ghost predicate SomeCannotBeTaken(positions: seq<Position>, strategies: seq<StrategySpec>) {
    exists n :: 0 <= n < |positions| && CannotBeTaken(strategies, positions[n].instrument)
  }

  lemma AdoptableIs(strategies: seq<StrategySpec>, i: Instrument)
    ensures Adoptable(strategies, i)
       <==> exists k :: 0 <= k < |strategies| && InstrumentsMatch(i, strategies[k].instrument)
                        && !strategies[k].dryRun && strategies[k].supportsAdoption
  {
    var exact := ExactCandidates(strategies, i);
    hide InstrumentsMatch, ExactCandidates;
    if k :| 0 <= k < |strategies| && InstrumentsMatch(i, strategies[k].instrument)
            && !strategies[k].dryRun && strategies[k].supportsAdoption
    {
      ExactAre(strategies, i, CandidateOf(strategies[k]));
      var n :| 0 <= n < |exact| && exact[n] == CandidateOf(strategies[k]);
      assert exact[n].adoptable;
    }
    if n :| 0 <= n < |exact| && exact[n].adoptable {
      ExactAre(strategies, i, exact[n]);
    }
  }

  lemma AnyStuckIs(positions: seq<Position>, strategies: seq<StrategySpec>)
    ensures AnyStuck(positions, strategies) <==> SomeCannotBeTaken(positions, strategies)
  {
    hide InstrumentsMatch, SameUnderlying, Adoptable;
    forall n | 0 <= n < |positions|
      ensures Stuck(strategies, positions[n].instrument) <==> CannotBeTaken(strategies, positions[n].instrument)
    {
      AdoptableIs(strategies, positions[n].instrument);
    }
  }

  /** A saved allocation is tried when exactly one position to be mapped is of its contract and side. */
  ghost predicate FindsOne(items: Items, raw: RawAllocation) {
    exists id :: IsFor(items, raw.(positionId := ""), id)
  }

  lemma OfferedAre(items: Items, saved: seq<RawAllocation>, raw: RawAllocation)
    ensures Matching(items, saved + [raw]) == Matching(items, saved) + if FindsOne(items, raw) then [raw] else []
    ensures Matching(items, []) == []
  {
    assert (saved + [raw])[..|saved|] == saved;
    var blank := raw.(positionId := "");
    PositionFound(items, blank);
    if id :| IsFor(items, blank, id) {
      assert id in items && Describes(items[id], blank);
    }
    hide FindPosition, InstrumentsMatch;
  }

  /** Everything submitted that the strategies saved themselves. */
  predicate OnlySaved(raws: seq<RawAllocation>) {
    forall k :: 0 <= k < |raws| ==> raws[k].source == "strategy_state"
  }

  ghost predicate AllAccounted(items: seq<GateItem>, done: seq<Allocation>) {
    forall k :: 0 <= k < |items| ==> AbsReal(items[k].quantity) <= Allocated(done, items[k].positionId) + 0.000000001
  }

  /**
   A position that cannot be taken blocks startup. Otherwise it is clear if there
   is nothing to map; it waits if nothing is offered; it keeps the error of what
   is offered, waiting if the strategies saved all of it and blocked if not; and
   what is accepted clears it exactly when every position is accounted for.
   */
  lemma PhaseIs(
    positions: seq<Position>, strategies: seq<StrategySpec>,
    configured: seq<RawAllocation>, saved: seq<RawAllocation>, naming: Naming)
    ensures var status := Build(positions, strategies, configured, saved, naming);
            var items := ItemsOf(status.positions);
            var offered := Matching(items, saved) + configured;
            && status.unmanaged == Unmanaged(positions, strategies, naming)
            && (status.positions == Required(positions, strategies, naming))
            && (if SomeCannotBeTaken(positions, strategies) then
                  status.phase == Blocked && status.allocations == [] && status.lastError == None
                else if |status.positions| == 0 then
                  status.phase == Clear && status.allocations == [] && status.lastError == None
                else if |offered| == 0 then
                  status.phase == AwaitingMapping && status.allocations == [] && status.lastError == None
                else
                  match Validate(items, offered)
                  case Failure(e) =>
                    && status.lastError == Some(e) && status.allocations == []
                    && (OnlySaved(offered) ==> status.phase == AwaitingMapping)
                    && (!OnlySaved(offered) ==> status.phase == Blocked)
                  case Success(done) =>
                    && status.lastError == None && status.allocations == done
                    && (AllAccounted(status.positions, done) ==> status.phase == Clear)
                    && (!AllAccounted(status.positions, done) ==> status.phase == AwaitingMapping))
  {
    AnyStuckIs(positions, strategies);
    hide AnyStuck, SomeCannotBeTaken, Required, Unmanaged, Validate, Matching, ItemsOf, Allocated;
  }
}
