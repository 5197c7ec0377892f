/** Classifying broker positions at startup, and trying saved or configured allocations on them. */
module StartupStatus {
  import opened Types
  import opened Contracts
  import opened StartupGate

  datatype StrategySpec = StrategySpec(
    strategyId: StrategyId, instrument: Instrument,
    dryRun: bool, supportsAdoption: bool, multiPosition: bool, needsEntryTime: bool)

  datatype Phase = Clear | AwaitingMapping | Blocked

  datatype Status = Status(
    phase: Phase, positions: seq<GateItem>, allocations: seq<Allocation>, unmanaged: seq<GateItem>, lastError: Option<Error>)

  /** How a position is named; two positions of one contract and side share a name. */
  type Naming = Position -> string

  const STRATEGY_STATE := "strategy_state"

  function FacingOf(quantity: int): Facing {
    if quantity > 0 then FacingLong else if quantity < 0 then FacingShort else FacingFlat
  }

  function CandidateOf(s: StrategySpec): Candidate {
    Candidate(s.strategyId, s.dryRun, s.supportsAdoption, !s.dryRun && s.supportsAdoption, s.multiPosition, s.needsEntryTime)
  }

  /** The strategies whose declared contract is the position's. */
  function ExactCandidates(strategies: seq<StrategySpec>, i: Instrument): seq<Candidate> {
    if strategies == [] then []
    else
      var init, s := ExactCandidates(strategies[..|strategies| - 1], i), strategies[|strategies| - 1];
      if InstrumentsMatch(i, s.instrument) then init + [CandidateOf(s)] else init
  }

  /** The strategies of the position's underlying, whatever contract they declare. */
  function UnderlyingCandidates(strategies: seq<StrategySpec>, i: Instrument): seq<Candidate> {
    if strategies == [] then []
    else
      var init, s := UnderlyingCandidates(strategies[..|strategies| - 1], i), strategies[|strategies| - 1];
      if SameUnderlying(i, s.instrument) then init + [CandidateOf(s)] else init
  }

  /** Without an exact one a position, which then blocks, lists those of its underlying. */
  function CandidatesFor(strategies: seq<StrategySpec>, i: Instrument): seq<Candidate> {
    if ExactCandidates(strategies, i) != [] then ExactCandidates(strategies, i) else UnderlyingCandidates(strategies, i)
  }

  predicate Traded(strategies: seq<StrategySpec>, i: Instrument) {
    exists k :: 0 <= k < |strategies| && SameUnderlying(i, strategies[k].instrument)
  }

  predicate Adoptable(strategies: seq<StrategySpec>, i: Instrument) {
    exists k :: 0 <= k < |ExactCandidates(strategies, i)| && ExactCandidates(strategies, i)[k].adoptable
  }

  /** A position some strategy trades, but none can take over. */
  predicate Stuck(strategies: seq<StrategySpec>, i: Instrument) {
    Traded(strategies, i) && !Adoptable(strategies, i)
  }

  function ItemOf(p: Position, strategies: seq<StrategySpec>, naming: Naming): GateItem {
    GateItem(naming(p), FacingOf(p.quantity), p.quantity as real, p.instrument, CandidatesFor(strategies, p.instrument))
  }

  /** The positions to be mapped; those no strategy trades stay unmanaged. */
  function Required(positions: seq<Position>, strategies: seq<StrategySpec>, naming: Naming): seq<GateItem> {
    if positions == [] then []
    else
      var init, p := Required(positions[..|positions| - 1], strategies, naming), positions[|positions| - 1];
      if Traded(strategies, p.instrument) then init + [ItemOf(p, strategies, naming)] else init
  }

  function Unmanaged(positions: seq<Position>, strategies: seq<StrategySpec>, naming: Naming): seq<GateItem> {
    if positions == [] then []
    else
      var init, p := Unmanaged(positions[..|positions| - 1], strategies, naming), positions[|positions| - 1];
      if Traded(strategies, p.instrument) then init
      else init + [GateItem(naming(p), FacingOf(p.quantity), p.quantity as real, p.instrument, [])]
  }

  /** A position is to be mapped, or listed as unmanaged, and never both. */
  lemma {:induction false} ManagedOrNot(positions: seq<Position>, strategies: seq<StrategySpec>, naming: Naming)
    ensures |Required(positions, strategies, naming)| + |Unmanaged(positions, strategies, naming)| == |positions|
    ensures forall k :: 0 <= k < |Required(positions, strategies, naming)| ==>
              var item := Required(positions, strategies, naming)[k];
              Traded(strategies, item.instrument) && item.candidates != []
    ensures forall k :: 0 <= k < |Unmanaged(positions, strategies, naming)| ==>
              !Traded(strategies, Unmanaged(positions, strategies, naming)[k].instrument)
  {
    hide Traded, CandidatesFor;
    if positions != [] {
      ManagedOrNot(positions[..|positions| - 1], strategies, naming);
      var i := positions[|positions| - 1].instrument;
      if Traded(strategies, i) { TradedHasCandidate(strategies, i); }
    }
  }

  lemma {:induction false} TradedHasCandidate(strategies: seq<StrategySpec>, i: Instrument)
    requires Traded(strategies, i)
    ensures CandidatesFor(strategies, i) != []
  {
    hide SameUnderlying, ExactCandidates;
    UnderlyingNotEmpty(strategies, i);
  }

  lemma {:induction false} UnderlyingNotEmpty(strategies: seq<StrategySpec>, i: Instrument)
    requires Traded(strategies, i)
    ensures UnderlyingCandidates(strategies, i) != []
  {
    hide SameUnderlying;
    var init := strategies[..|strategies| - 1];
    if !SameUnderlying(i, strategies[|strategies| - 1].instrument) {
      var k :| 0 <= k < |strategies| && SameUnderlying(i, strategies[k].instrument);
      assert init[k] == strategies[k];
      UnderlyingNotEmpty(init, i);
    }
  }

  predicate AnyStuck(positions: seq<Position>, strategies: seq<StrategySpec>) {
    exists k :: 0 <= k < |positions| && Stuck(strategies, positions[k].instrument)
  }

  function ItemsOf(items: seq<GateItem>): Items {
    if items == [] then map[] else ItemsOf(items[..|items| - 1])[items[|items| - 1].positionId := items[|items| - 1]]
  }

  /** Found by instrument alone, whatever position id it carries. */
  predicate MatchesSome(items: Items, raw: RawAllocation) {
    FindPosition(items, raw.(positionId := "")).Success?
  }

  function Matching(items: Items, raws: seq<RawAllocation>): seq<RawAllocation> {
    if raws == [] then []
    else
      var init, raw := Matching(items, raws[..|raws| - 1]), raws[|raws| - 1];
      if MatchesSome(items, raw) then init + [raw] else init
  }

  predicate Covered(items: seq<GateItem>, done: seq<Allocation>) {
    forall k :: 0 <= k < |items| ==> AbsReal(items[k].quantity) - Allocated(done, items[k].positionId) <= EPSILON
  }

  predicate AllFromState(raws: seq<RawAllocation>) {
    forall k :: 0 <= k < |raws| ==> raws[k].source == STRATEGY_STATE
  }

  function Build(
    positions: seq<Position>, strategies: seq<StrategySpec>,
    configured: seq<RawAllocation>, saved: seq<RawAllocation>, naming: Naming): Status
  {
    var required, unmanaged := Required(positions, strategies, naming), Unmanaged(positions, strategies, naming);
    if AnyStuck(positions, strategies) then Status(Blocked, required, [], unmanaged, None)
    else if required == [] then Status(Clear, [], [], unmanaged, None)
    else
      var items := ItemsOf(required);
      var offered := Matching(items, saved) + configured;
      if offered == [] then Status(AwaitingMapping, required, [], unmanaged, None)
      else
        var done := Validate(items, offered);
        if done.Failure? then
          Status(if AllFromState(offered) then AwaitingMapping else Blocked, required, [], unmanaged, Some(done.error))
        else
          Status(if Covered(required, done.value) then Clear else AwaitingMapping, required, done.value, unmanaged, None)
  }

  lemma {:induction false} ItemsOfHas(items: seq<GateItem>, id: string)
    ensures id in ItemsOf(items) <==> exists k :: 0 <= k < |items| && items[k].positionId == id
    ensures id in ItemsOf(items) ==> ItemsOf(items)[id] in items && ItemsOf(items)[id].positionId == id
  {
    if items != [] {
      var init := items[..|items| - 1];
      ItemsOfHas(init, id);
      if k :| 0 <= k < |init| && init[k].positionId == id {
        assert items[k].positionId == id;
      }
      if k :| 0 <= k < |items| && items[k].positionId == id {
        assert k < |init| ==> init[k] == items[k];
      }
    }
  }

  /**
   Startup goes on by itself only if no traded position is stuck and every
   managed position is allocated to what the broker holds.
   */
  lemma ClearIsCovered(
    positions: seq<Position>, strategies: seq<StrategySpec>,
    configured: seq<RawAllocation>, saved: seq<RawAllocation>, naming: Naming)
    requires Build(positions, strategies, configured, saved, naming).phase.Clear?
    ensures var status := Build(positions, strategies, configured, saved, naming);
            var items := ItemsOf(status.positions);
            && !AnyStuck(positions, strategies)
            && (forall id :: id in items ==> AbsReal(Allocated(status.allocations, id) - AbsReal(items[id].quantity)) <= EPSILON)
            && LotsAllowed(items, status.allocations)
  {
    hide Validate, AnyStuck, Matching, Required, LotsAllowed, Normal, AllNormal;
    var status := Build(positions, strategies, configured, saved, naming);
    var items := ItemsOf(status.positions);
    if status.positions == [] {
      NothingAllocated(items);
    } else {
      AcceptedIff(items, Matching(items, saved) + configured);
      forall id | id in items ensures AbsReal(Allocated(status.allocations, id) - AbsReal(items[id].quantity)) <= EPSILON {
        ItemsOfHas(status.positions, id);
        var k :| 0 <= k < |status.positions| && status.positions[k] == items[id];
        assert AbsReal(status.positions[k].quantity) - Allocated(status.allocations, id) <= EPSILON;
      }
    }
  }

  lemma {:induction false} MatchingAll(items: Items, raws: seq<RawAllocation>)
    requires forall k :: 0 <= k < |raws| ==> raws[k].positionId == "" && Normal(items, raws[k]).Success?
    ensures Matching(items, raws) == raws
  {
    hide FindPosition;
    if raws != [] {
      MatchingAll(items, raws[..|raws| - 1]);
      assert raws[|raws| - 1].(positionId := "") == raws[|raws| - 1];
    }
  }

  /** Saved allocations that fit and cover every managed position clear the gate on their own. */
  lemma SavedClears(positions: seq<Position>, strategies: seq<StrategySpec>, saved: seq<RawAllocation>, naming: Naming)
    requires !AnyStuck(positions, strategies)
    requires var items := ItemsOf(Required(positions, strategies, naming));
             && (forall k :: 0 <= k < |saved| ==> saved[k].positionId == "")
             && AllNormal(items, saved)
             && LotsAllowed(items, Normals(items, saved))
             && (forall id :: id in items ==> items[id].quantity != 0.0)
             && (forall id :: id in items ==> Allocated(Normals(items, saved), id) == AbsReal(items[id].quantity))
    requires DistinctIds(Required(positions, strategies, naming))
    ensures var status := Build(positions, strategies, [], saved, naming);
            && status.phase.Clear?
            && (Required(positions, strategies, naming) != [] ==>
                  status.allocations == Normals(ItemsOf(Required(positions, strategies, naming)), saved))
  {
    hide Validate, AnyStuck, Required, LotsAllowed, Normal, Allocated;
    var required := Required(positions, strategies, naming);
    var items := ItemsOf(required);
    MatchingAll(items, saved);
    assert Matching(items, saved) + [] == saved;
    AcceptedIff(items, saved);
    if required != [] {
      ItemsOfHas(required, required[0].positionId);
      if saved == [] {
        assert Normals(items, saved) == [];
        Zero(required[0].positionId);
        assert false;
      }
      forall k | 0 <= k < |required|
        ensures AbsReal(required[k].quantity) - Allocated(Normals(items, saved), required[k].positionId) <= EPSILON
      {
        ItemsAt(required, k);
      }
    }
  }

  lemma Zero(id: string)
    ensures Allocated([], id) == 0.0
  {
  }

  predicate DistinctIds(items: seq<GateItem>) {
    forall i, j :: 0 <= i < j < |items| ==> items[i].positionId != items[j].positionId
  }

  lemma {:induction false} ItemsAt(items: seq<GateItem>, k: nat)
    requires DistinctIds(items) && k < |items|
    ensures items[k].positionId in ItemsOf(items) && ItemsOf(items)[items[k].positionId] == items[k]
  {
    if k < |items| - 1 {
      ItemsAt(items[..|items| - 1], k);
    }
  }

  /** Positions classified one by one. */
  method Classify(positions: seq<Position>, strategies: seq<StrategySpec>, naming: Naming)
    returns (required: seq<GateItem>, unmanaged: seq<GateItem>, blocked: bool)
    ensures required == Required(positions, strategies, naming)
    ensures unmanaged == Unmanaged(positions, strategies, naming)
    ensures blocked == AnyStuck(positions, strategies)
  {
    hide ExactCandidates, ItemOf, Stuck, Traded, Adoptable;
    required, unmanaged, blocked := [], [], false;
    for n := 0 to |positions|
      invariant required == Required(positions[..n], strategies, naming)
      invariant unmanaged == Unmanaged(positions[..n], strategies, naming)
      invariant blocked == exists k :: 0 <= k < n && Stuck(strategies, positions[k].instrument)
    {
      assert positions[..n + 1][..n] == positions[..n];
      var i := positions[n].instrument;
      StuckIs(strategies, i);
      if Traded(strategies, i) {
        required := required + [ItemOf(positions[n], strategies, naming)];
        if !Adoptable(strategies, i) {
          blocked := true;
        }
      } else {
        var p := positions[n];
        unmanaged := unmanaged + [GateItem(naming(p), FacingOf(p.quantity), p.quantity as real, p.instrument, [])];
      }
    }
    assert positions[..|positions|] == positions;
  }

  /** The builder as it runs: positions classified, then the offered allocations tried. */
  method BuildStartupGateStatus(
    positions: seq<Position>, strategies: seq<StrategySpec>,
    configured: seq<RawAllocation>, saved: seq<RawAllocation>, naming: Naming) returns (status: Status)
    ensures status == Build(positions, strategies, configured, saved, naming)
    ensures status.phase.Clear? ==> forall id :: id in ItemsOf(status.positions) ==>
              AbsReal(Allocated(status.allocations, id) - AbsReal(ItemsOf(status.positions)[id].quantity)) <= EPSILON
  {
    hide Validate, Matching, Required, Unmanaged, AnyStuck, Allocated, Covered, AllFromState, ItemsOf;
    var required, unmanaged, blocked := Classify(positions, strategies, naming);
    if blocked {
      return Status(Blocked, required, [], unmanaged, None);
    }
    if required == [] {
      status := Status(Clear, [], [], unmanaged, None);
    } else {
      var offered := Matching(ItemsOf(required), saved) + configured;
      if offered == [] {
        return Status(AwaitingMapping, required, [], unmanaged, None);
      }
      var done := Validate(ItemsOf(required), offered);
      if done.Failure? {
        return Status(if AllFromState(offered) then AwaitingMapping else Blocked, required, [], unmanaged, Some(done.error));
      }
      status := Status(if Covered(required, done.value) then Clear else AwaitingMapping, required, done.value, unmanaged, None);
    }
    if status.phase.Clear? {
      ClearIsCovered(positions, strategies, configured, saved, naming);
    }
  }

  lemma StuckIs(strategies: seq<StrategySpec>, i: Instrument)
    ensures Stuck(strategies, i) <==> Traded(strategies, i) && !Adoptable(strategies, i)
  {
  }
}
