/**
 What the startup gate accepts and why it refuses, allocation by allocation: the
 position and the candidate an allocation finds, every check with its error, and
 the first failing check in order.
 */
module GateLaws {
  import opened Types
  import opened Contracts
  import opened StartupGate

  // ---------------------------------------------------------------- the position and the candidate

  /** The item is of the contract and, if one is given, of the side the allocation names. */
  predicate Describes(item: GateItem, raw: RawAllocation) {
    && raw.instrument.Some?
    && InstrumentsMatch(item.instrument, raw.instrument.value)
    && (raw.facing.Some? ==> item.facing == raw.facing.value)
  }

  /** The id an allocation gives, or the id of the only item it describes. */
  ghost predicate IsFor(items: Items, raw: RawAllocation, id: string) {
    if raw.positionId != "" then id == raw.positionId
    else forall x :: x in items && Describes(items[x], raw) <==> x == id
  }

  /** The last candidate of a strategy. */
  predicate StandsFor(candidates: seq<Candidate>, s: StrategyId, k: int) {
    && 0 <= k < |candidates|
    && candidates[k].strategyId == s
    && forall j :: k < j < |candidates| ==> candidates[j].strategyId != s
  }

  lemma {:induction false} CandidateFound(candidates: seq<Candidate>, s: StrategyId)
    ensures var found := FindCandidate(candidates, s);
            && (found.None? ==> forall k :: 0 <= k < |candidates| ==> candidates[k].strategyId != s)
            && (found.Some? ==> exists k :: StandsFor(candidates, s, k) && candidates[k] == found.value)
  {
    if candidates != [] && candidates[|candidates| - 1].strategyId != s {
      var init := candidates[..|candidates| - 1];
      CandidateFound(init, s);
      if FindCandidate(init, s).Some? {
        var k :| StandsFor(init, s, k) && init[k] == FindCandidate(init, s).value;
        assert candidates[k] == init[k];
        assert StandsFor(candidates, s, k);
      }
    } else if candidates != [] {
      assert StandsFor(candidates, s, |candidates| - 1);
    }
  }

  lemma OneStandsFor(candidates: seq<Candidate>, s: StrategyId, j: int, k: int)
    requires StandsFor(candidates, s, j) && StandsFor(candidates, s, k)
    ensures j == k
  {
  }

  lemma PositionFound(items: Items, raw: RawAllocation)
    ensures var found := FindPosition(items, raw);
            && (found.Success? ==> IsFor(items, raw, found.value) && (raw.positionId == "" ==> found.value in items))
            && (found == Failure(NoInstrument) <==> raw.positionId == "" && raw.instrument.None?)
            && (found == Failure(NoMatch) <==>
                  raw.positionId == "" && raw.instrument.Some? && forall id :: id in items ==> !Describes(items[id], raw))
            && (found == Failure(ManyMatches) <==>
                  raw.positionId == ""
                  && exists a, b :: a in items && b in items && a != b && Describes(items[a], raw) && Describes(items[b], raw))
            && (found.Failure? ==> found.error in {NoInstrument, NoMatch, ManyMatches})
  {
    hide InstrumentsMatch;
    if raw.positionId == "" && raw.instrument.Some? {
      var ids := Matches(items, raw.instrument.value, raw.facing);
      assert forall id :: id in ids <==> id in items && Describes(items[id], raw);
      if |ids| == 1 {
        OnlyOne(ids);
      } else if ids != {} {
        TwoOf(ids);
      }
    }
  }

  lemma TwoOf(ids: set<string>)
    requires ids != {} && |ids| != 1
    ensures exists a, b :: a in ids && b in ids && a != b
  {
    var a :| a in ids;
    assert ids == {a} + (ids - {a});
    var b :| b in ids - {a};
  }

  // ---------------------------------------------------------------- every check and its error

  /** The candidate an allocation goes to. */
  ghost predicate GoesTo(items: Items, raw: RawAllocation, c: Candidate) {
    exists id, k :: IsFor(items, raw, id) && id in items
                    && StandsFor(items[id].candidates, raw.strategyId, k) && c == items[id].candidates[k]
  }

  /** The checks of an allocation in order, by the error each gives; the last two look at the allocations before it. */
  function Place(e: Error): nat {
    match e
    case NoInstrument => 0
    case NoMatch => 1
    case ManyMatches => 2
    case UnknownPosition => 3
    case NoStrategy => 4
    case NotACandidate => 5
    case DryRun => 6
    case NoAdoption => 7
    case NotAdoptable => 8
    case QuantityMissing => 9
    case QuantityInvalid => 10
    case QuantityNotPositive => 11
    case EntryTimeInvalid => 12
    case EntryTimeRequired => 13
    case ExceedsBroker => 14
    case SingleLotOnly => 15
    case _ => 16
  }

  /** An allocation finds its position. */
  ghost predicate Finds(items: Items, raw: RawAllocation, n: nat) {
    && (n > 0 ==> raw.positionId != "" || raw.instrument.Some?)
    && (n > 1 ==> raw.positionId != "" || exists id :: id in items && Describes(items[id], raw))
    && (n > 2 ==> raw.positionId != "" || forall a, b :: a in items && b in items && Describes(items[a], raw) && Describes(items[b], raw) ==> a == b)
    && (n > 3 ==> exists id :: id in items && IsFor(items, raw, id))
  }

  /** It goes to a strategy that may take the position over. */
  ghost predicate Goes(items: Items, raw: RawAllocation, n: nat) {
    && (n > 4 ==> raw.strategyId != "")
    && (n > 5 ==> exists c :: GoesTo(items, raw, c))
    && (n > 6 ==> forall c :: GoesTo(items, raw, c) ==> !c.dryRun)
    && (n > 7 ==> forall c :: GoesTo(items, raw, c) ==> c.supportsAdoption)
    && (n > 8 ==> forall c :: GoesTo(items, raw, c) ==> c.adoptable)
  }

  /** It says how much and, where that is needed, since when. */
  ghost predicate Says(items: Items, raw: RawAllocation, n: nat) {
    && (n > 9 ==> !raw.quantity.NoQuantity?)
    && (n > 10 ==> !raw.quantity.NotANumber?)
    && (n > 11 ==> raw.quantity.Quantity? ==> raw.quantity.value > 0.0)
    && (n > 12 ==> !raw.entryTime.BadTime?)
    && (n > 13 ==> raw.entryTime.NoTime? ==> forall c :: GoesTo(items, raw, c) ==> !c.needsEntryTime)
  }

  /** An allocation passes the first n checks of its own. */
  ghost predicate Passes(items: Items, raw: RawAllocation, n: nat) {
    Finds(items, raw, n) && Goes(items, raw, n) && Says(items, raw, n)
  }

  /** What an allocation comes to when nothing is wrong: blank trade ids and sources are filled in. */
  predicate ComesTo(raw: RawAllocation, a: Allocation) {
    && a.strategyId == raw.strategyId
    && raw.quantity == Quantity(a.quantity)
    && (if a.entryTime.Some? then raw.entryTime == Time(a.entryTime.value) else raw.entryTime.NoTime?)
    && (raw.tradeId == Some("") || raw.tradeId == None <==> a.tradeId == None)
    && (a.tradeId.Some? ==> a.tradeId == raw.tradeId)
    && a.source == (if raw.source == "" then "operator" else raw.source)
  }

  lemma TheFor(items: Items, raw: RawAllocation, a: string, b: string)
    requires IsFor(items, raw, a) && IsFor(items, raw, b)
    ensures a == b
  {
    if raw.positionId == "" {
      assert a in items && Describes(items[a], raw);
    }
  }

  lemma GoesToIs(items: Items, raw: RawAllocation, id: string)
    requires FindPosition(items, raw) == Success(id) && id in items
    ensures var found := FindCandidate(items[id].candidates, raw.strategyId);
            forall c :: GoesTo(items, raw, c) <==> found == Some(c)
  {
    PositionFound(items, raw);
    hide FindPosition, FindCandidate;
    CandidateFound(items[id].candidates, raw.strategyId);
    hide IsFor;
    forall c ensures GoesTo(items, raw, c) <==> FindCandidate(items[id].candidates, raw.strategyId) == Some(c) {
      if GoesTo(items, raw, c) {
        var x, k :| IsFor(items, raw, x) && x in items
                    && StandsFor(items[x].candidates, raw.strategyId, k) && c == items[x].candidates[k];
        TheFor(items, raw, id, x);
        if j :| StandsFor(items[id].candidates, raw.strategyId, j)
                && items[id].candidates[j] == FindCandidate(items[id].candidates, raw.strategyId).value {
          OneStandsFor(items[id].candidates, raw.strategyId, j, k);
        }
      }
    }
  }

  lemma FindsIs(items: Items, raw: RawAllocation)
    ensures match FindPosition(items, raw)
            case Failure(e) => Place(e) <= 2 && Finds(items, raw, Place(e)) && !Finds(items, raw, Place(e) + 1)
            case Success(id) =>
              Finds(items, raw, 3) && forall n: nat :: n > 3 ==> (Finds(items, raw, n) <==> id in items)
  {
    PositionFound(items, raw);
    var found := FindPosition(items, raw);
    hide FindPosition, Describes;
    if found.Success? {
      assert IsFor(items, raw, found.value);
      assert raw.positionId == "" ==> found.value in items && Describes(items[found.value], raw);
      forall x | IsFor(items, raw, x) ensures x == found.value { TheFor(items, raw, x, found.value); }
    }
  }

  /** What is asked of the candidate, if there is one. */
  lemma GoesIs(items: Items, raw: RawAllocation, id: string, n: nat)
    requires FindPosition(items, raw) == Success(id) && id in items
    ensures var c := FindCandidate(items[id].candidates, raw.strategyId);
            && (Goes(items, raw, n) <==>
                  && (n > 4 ==> raw.strategyId != "") && (n > 5 ==> c.Some?)
                  && (n > 6 && c.Some? ==> !c.value.dryRun) && (n > 7 && c.Some? ==> c.value.supportsAdoption)
                  && (n > 8 && c.Some? ==> c.value.adoptable))
            && (Says(items, raw, n) <==>
                  && (n > 9 ==> !raw.quantity.NoQuantity?) && (n > 10 ==> !raw.quantity.NotANumber?)
                  && (n > 11 ==> raw.quantity.Quantity? ==> raw.quantity.value > 0.0) && (n > 12 ==> !raw.entryTime.BadTime?)
                  && (n > 13 && raw.entryTime.NoTime? && c.Some? ==> !c.value.needsEntryTime))
  {
    GoesToIs(items, raw, id);
    var c := FindCandidate(items[id].candidates, raw.strategyId);
    assert c.Some? ==> GoesTo(items, raw, c.value);
    hide FindPosition, FindCandidate, GoesTo;
  }

  lemma Fewer(items: Items, raw: RawAllocation, m: nat, n: nat)
    requires m <= n && Passes(items, raw, n)
    ensures Passes(items, raw, m)
  {
    hide Describes, IsFor, GoesTo;
  }

  /** Without a position nothing else is looked at. */
  lemma NotFound(items: Items, raw: RawAllocation)
    requires FindPosition(items, raw).Success? ==> FindPosition(items, raw).value !in items
    ensures Normal(items, raw).Failure?
    ensures var e := Normal(items, raw).error;
            Place(e) < 14 && Passes(items, raw, Place(e)) && !Passes(items, raw, Place(e) + 1)
  {
    FindsIs(items, raw);
    hide FindPosition, FindCandidate, Finds, GoesTo;
  }

  lemma CandidateFirst(items: Items, raw: RawAllocation, id: string)
    requires FindPosition(items, raw) == Success(id) && id in items
    ensures match Normal(items, raw)
            case Failure(e) =>
              && 4 <= Place(e) < 14
              && Goes(items, raw, Place(e))
              && (Place(e) < 9 ==> !Goes(items, raw, Place(e) + 1))
              && (Place(e) >= 9 ==> Goes(items, raw, Place(e) + 1))
            case Success(_) => Goes(items, raw, 14)
  {
    var e := if Normal(items, raw).Failure? then Normal(items, raw).error else SingleLotOnly;
    GoesIs(items, raw, id, Place(e));
    GoesIs(items, raw, id, Place(e) + 1);
    GoesIs(items, raw, id, 14);
    hide FindPosition, FindCandidate, Goes, Says;
  }

  lemma QuantityFirst(items: Items, raw: RawAllocation, id: string)
    requires FindPosition(items, raw) == Success(id) && id in items
    ensures match Normal(items, raw)
            case Failure(e) => Says(items, raw, Place(e)) && (Place(e) >= 9 ==> !Says(items, raw, Place(e) + 1))
            case Success(_) => Says(items, raw, 14)
  {
    var e := if Normal(items, raw).Failure? then Normal(items, raw).error else SingleLotOnly;
    GoesIs(items, raw, id, Place(e));
    GoesIs(items, raw, id, Place(e) + 1);
    GoesIs(items, raw, id, 14);
    hide FindPosition, FindCandidate, Goes, Says;
  }

  lemma FirstFailing(items: Items, raw: RawAllocation)
    ensures match Normal(items, raw)
            case Failure(e) => Place(e) < 14 && Passes(items, raw, Place(e)) && !Passes(items, raw, Place(e) + 1)
            case Success(_) => Passes(items, raw, 14)
  {
    var found := FindPosition(items, raw);
    if found.Success? && found.value in items {
      FindsIs(items, raw);
      CandidateFirst(items, raw, found.value);
      QuantityFirst(items, raw, found.value);
      hide Normal, FindPosition, Finds, Goes, Says, Place;
    } else {
      NotFound(items, raw);
      hide Normal, FindPosition, Passes, Place;
    }
  }

  /** Errors of the checks are told apart by their places. */
  lemma PlaceTells(e: Error, o: Error)
    requires Place(e) == Place(o) < 16
    ensures e == o
  {
  }

  /**
   An allocation by itself is refused with an error exactly when it passes the
   checks before that error's and not that one, and accepted exactly when it
   passes them all.
   */
  lemma RefusedIff(items: Items, raw: RawAllocation, e: Error)
    ensures Normal(items, raw) == Failure(e)
       <==> Place(e) < 14 && Passes(items, raw, Place(e)) && !Passes(items, raw, Place(e) + 1)
    ensures Normal(items, raw).Success? <==> Passes(items, raw, 14)
  {
    hide Normal, Passes;
    FirstFailing(items, raw);
    if Normal(items, raw).Failure? {
      var o := Normal(items, raw).error;
      if Passes(items, raw, 14) {
        Fewer(items, raw, Place(o) + 1, 14);
        assert false;
      }
      if Place(e) < 14 && Passes(items, raw, Place(e)) && !Passes(items, raw, Place(e) + 1) {
        if Place(o) < Place(e) { Fewer(items, raw, Place(o) + 1, Place(e)); }
        if Place(e) < Place(o) { Fewer(items, raw, Place(e) + 1, Place(o)); }
        PlaceTells(e, o);
      }
    } else if Place(e) < 14 {
      Fewer(items, raw, Place(e) + 1, 14);
    }
  }

  /** An accepted allocation is of the position it names and says what was submitted. */
  lemma AcceptedSays(items: Items, raw: RawAllocation)
    requires Normal(items, raw).Success?
    ensures var a := Normal(items, raw).value;
            IsFor(items, raw, a.positionId) && a.positionId in items && a.quantity > 0.0 && ComesTo(raw, a)
  {
    PositionFound(items, raw);
    hide FindPosition, FindCandidate, IsFor;
  }

  lemma FoundAs(items: Items, raw: RawAllocation)
    requires Normal(items, raw).Success?
    ensures FindPosition(items, raw) == Success(Normal(items, raw).value.positionId)
    ensures Normal(items, raw).value.strategyId == raw.strategyId
  {
    hide FindCandidate, FindPosition;
  }

  // ---------------------------------------------------------------- allocations together

  /** With those accepted before it, an allocation takes no more than the broker holds. */
  ghost predicate LeavesEnough(items: Items, done: seq<Allocation>, raw: RawAllocation) {
    forall id :: IsFor(items, raw, id) && id in items && raw.quantity.Quantity? ==>
      Allocated(done, id) + raw.quantity.value <= AbsReal(items[id].quantity) + 0.000000001
  }

  /** It is the first of its strategy there, or one of several that are allowed. */
  ghost predicate MayJoin(items: Items, done: seq<Allocation>, raw: RawAllocation) {
    || (forall c :: GoesTo(items, raw, c) ==> c.multiPosition)
    || (forall id :: IsFor(items, raw, id) ==> Lots(done, id, raw.strategyId) == 0)
  }

  lemma LeavesEnoughIs(items: Items, done: seq<Allocation>, raw: RawAllocation)
    requires Normal(items, raw).Success?
    ensures var a := Normal(items, raw).value;
            && a.positionId in items
            && (LeavesEnough(items, done, raw)
                <==> Allocated(done, a.positionId) + a.quantity - AbsReal(items[a.positionId].quantity) <= EPSILON)
  {
    var id := Normal(items, raw).value.positionId;
    AcceptedSays(items, raw);
    forall x | IsFor(items, raw, x) ensures x == id { TheFor(items, raw, x, id); }
    hide Normal, IsFor, Allocated, AbsReal;
  }

  lemma MayJoinIs(items: Items, done: seq<Allocation>, raw: RawAllocation, id: string)
    requires FindPosition(items, raw) == Success(id) && id in items && IsFor(items, raw, id)
    ensures MayJoin(items, done, raw) <==> !(Lots(done, id, raw.strategyId) + 1 > 1 && SingleLot(items, id, raw.strategyId))
  {
    GoesToIs(items, raw, id);
    var c := FindCandidate(items[id].candidates, raw.strategyId);
    assert c.Some? ==> GoesTo(items, raw, c.value);
    hide FindPosition, FindCandidate, GoesTo, Lots;
    forall x | IsFor(items, raw, x) ensures x == id { TheFor(items, raw, x, id); }
    hide IsFor;
  }

  /** What an allocation is refused for after others: its own first failing check, or what it makes of the others. */
  ghost predicate RefusedFor(items: Items, done: seq<Allocation>, raw: RawAllocation, e: Error) {
    if !Passes(items, raw, 14) then Place(e) < 14 && Passes(items, raw, Place(e)) && !Passes(items, raw, Place(e) + 1)
    else if !LeavesEnough(items, done, raw) then e == ExceedsBroker
    else !MayJoin(items, done, raw) && e == SingleLotOnly
  }

  lemma CheckIs(items: Items, done: seq<Allocation>, raw: RawAllocation, e: Error)
    ensures Check(items, done, raw) == Failure(e) <==> RefusedFor(items, done, raw, e)
    ensures Check(items, done, raw).Success? ==> Check(items, done, raw) == Normal(items, raw)
  {
    RefusedIff(items, raw, e);
    hide Passes;
    if Normal(items, raw).Success? {
      AcceptedSays(items, raw);
      FoundAs(items, raw);
      LeavesEnoughIs(items, done, raw);
      MayJoinIs(items, done, raw, Normal(items, raw).value.positionId);
    }
    hide Normal, Allocated, Lots, SingleLot, IsFor, LeavesEnough, MayJoin;
  }

  lemma {:induction false} RefusedAtOnly(items: Items, raws: seq<RawAllocation>, k: nat)
    requires k < |raws| && Validate(items, raws[..k]).Success?
    requires Check(items, Validate(items, raws[..k]).value, raws[k]).Failure?
    ensures Validate(items, raws) == Failure(Check(items, Validate(items, raws[..k]).value, raws[k]).error)
    decreases |raws|
  {
    hide Check;
    var init := raws[..|raws| - 1];
    if k < |init| {
      assert init[..k] == raws[..k];
      RefusedAtOnly(items, init, k);
    } else {
      assert raws[..k] == init;
    }
  }

  /**
   A list of allocations is refused with an error exactly when some allocation,
   those before it being accepted, is refused for that.
   */
  lemma {:induction false} ListRefusedIff(items: Items, raws: seq<RawAllocation>, e: Error)
    ensures Validate(items, raws) == Failure(e)
       <==> exists k :: && 0 <= k < |raws| && Validate(items, raws[..k]).Success?
                        && RefusedFor(items, Validate(items, raws[..k]).value, raws[k], e)
  {
    hide Check, RefusedFor;
    if k :| 0 <= k < |raws| && Validate(items, raws[..k]).Success?
            && RefusedFor(items, Validate(items, raws[..k]).value, raws[k], e)
    {
      CheckIs(items, Validate(items, raws[..k]).value, raws[k], e);
      RefusedAtOnly(items, raws, k);
    }
    if Validate(items, raws) == Failure(e) {
      var init := raws[..|raws| - 1];
      if Validate(items, init).Success? {
        CheckIs(items, Validate(items, init).value, raws[|raws| - 1], e);
      } else {
        ListRefusedIff(items, init, e);
        var k :| 0 <= k < |init| && Validate(items, init[..k]).Success?
                 && RefusedFor(items, Validate(items, init[..k]).value, init[k], e);
        assert raws[..k] == init[..k];
      }
    }
  }

  /** Accepted allocations are the submitted ones, in order, each of the position it names. */
  lemma {:induction false} ListAcceptedSays(items: Items, raws: seq<RawAllocation>)
    requires Validate(items, raws).Success?
    ensures var done := Validate(items, raws).value;
            && |done| == |raws|
            && forall k :: 0 <= k < |raws| ==>
                 && IsFor(items, raws[k], done[k].positionId) && done[k].positionId in items
                 && ComesTo(raws[k], done[k])
  {
    hide Normal, IsFor, ComesTo, Check;
    if raws != [] {
      var init := raws[..|raws| - 1];
      ListAcceptedSays(items, init);
      CheckIs(items, Validate(items, init).value, raws[|raws| - 1], NoMatch);
      AcceptedSays(items, raws[|raws| - 1]);
    }
  }

  // ---------------------------------------------------------------- acknowledgements

  /** The checks of an acknowledgement in order, by the error each gives. */
  function AckPlace(e: Error): nat {
    match e
    case AckWithoutPosition => 0
    case AckUnmatched => 1
    case AckDuplicate => 2
    case AckInvalid => 3
    case AckNotPositive => 4
    case AckWrongQuantity => 5
    case AckWithoutReason => 6
    case _ => 7
  }

  /** Something of a position is left over that no acknowledgement before covers. */
  ghost predicate OpenFor(items: Items, done: seq<Allocation>, raws: seq<RawAck>, k: nat, n: nat)
    requires k < |raws|
  {
    var id := raws[k].positionId;
    && (n > 0 ==> id != "")
    && (n > 1 ==> id in items && AbsReal(items[id].quantity) - Allocated(done, id) > 0.000000001)
    && (n > 2 ==> forall j :: 0 <= j < k ==> raws[j].positionId != id)
  }

  /** It is acknowledged in full, with a reason. */
  ghost predicate Covers(items: Items, done: seq<Allocation>, raw: RawAck, n: nat) {
    && (n > 3 ==> raw.quantity.Quantity?)
    && (n > 4 ==> raw.quantity.Quantity? ==> raw.quantity.value > 0.0)
    && (n > 5 ==> raw.quantity.Quantity? && raw.positionId in items ==>
          AbsReal(raw.quantity.value - (AbsReal(items[raw.positionId].quantity) - Allocated(done, raw.positionId))) <= 0.000000001)
    && (n > 6 ==> raw.reason != "")
  }

  /** The k-th acknowledgement passes the first n checks. */
  ghost predicate AckPasses(items: Items, done: seq<Allocation>, raws: seq<RawAck>, k: nat, n: nat)
    requires k < |raws|
  {
    OpenFor(items, done, raws, k, n) && Covers(items, done, raws[k], n)
  }

  /** The first acknowledgement that does not pass fails the check of this error. */
  ghost predicate AcksFail(items: Items, done: seq<Allocation>, raws: seq<RawAck>, e: Error) {
    exists k :: 0 <= k < |raws| && FirstToFail(items, done, raws, k, e)
  }

  ghost predicate FirstToFail(items: Items, done: seq<Allocation>, raws: seq<RawAck>, k: nat, e: Error)
    requires k < |raws|
  {
    && AckPlace(e) < 7
    && AckPasses(items, done, raws, k, AckPlace(e)) && !AckPasses(items, done, raws, k, AckPlace(e) + 1)
    && forall j :: 0 <= j < k ==> AckPasses(items, done, raws, j, 7)
  }

  /** Acknowledgements taken as they are submitted. */
  ghost predicate AcksAre(raws: seq<RawAck>, acks: seq<Ack>) {
    && |acks| == |raws|
    && forall k :: 0 <= k < |raws| ==> raws[k] == RawAck(acks[k].positionId, Quantity(acks[k].quantity), acks[k].reason)
  }

  lemma {:induction false} AckedIdsAre(raws: seq<RawAck>, acks: seq<Ack>, id: string)
    requires AcksAre(raws, acks)
    ensures id in AckedIds(acks) <==> exists j :: 0 <= j < |raws| && raws[j].positionId == id
  {
    if acks != [] {
      var n := |acks| - 1;
      assert raws[n].positionId == acks[n].positionId;
      AckedIdsAre(raws[..n], acks[..n], id);
      if j :| 0 <= j < n && raws[..n][j].positionId == id {
        assert raws[j].positionId == id;
      }
      if j :| 0 <= j < |raws| && raws[j].positionId == id {
        assert j < n ==> raws[..n][j].positionId == id;
      }
    }
  }

  lemma OpenForIs(items: Items, done: seq<Allocation>, raws: seq<RawAck>, acks: seq<Ack>, n: nat)
    requires raws != [] && AcksAre(raws[..|raws| - 1], acks)
    ensures var raw := raws[|raws| - 1];
            OpenFor(items, done, raws, |raws| - 1, n) <==>
              && (n > 0 ==> raw.positionId != "") && (n > 1 ==> raw.positionId in Remaining(items, done))
              && (n > 2 ==> raw.positionId !in AckedIds(acks))
  {
    var k := |raws| - 1;
    AckedIdsAre(raws[..k], acks, raws[k].positionId);
    assert forall j :: 0 <= j < k ==> raws[..k][j] == raws[j];
    hide Allocated, AckedIds, AcksAre, AbsReal;
  }

  lemma AckFirstFailing(items: Items, done: seq<Allocation>, raws: seq<RawAck>, acks: seq<Ack>)
    requires raws != [] && AcksAre(raws[..|raws| - 1], acks)
    ensures var k := |raws| - 1;
            match CheckAck(items, done, acks, raws[k])
            case Failure(e) =>
              AckPlace(e) < 7 && AckPasses(items, done, raws, k, AckPlace(e)) && !AckPasses(items, done, raws, k, AckPlace(e) + 1)
            case Success(ack) =>
              AckPasses(items, done, raws, k, 7) && raws[k] == RawAck(ack.positionId, Quantity(ack.quantity), ack.reason)
  {
    var r := CheckAck(items, done, acks, raws[|raws| - 1]);
    var e := if r.Failure? then r.error else AckMissing;
    OpenForIs(items, done, raws, acks, AckPlace(e));
    OpenForIs(items, done, raws, acks, AckPlace(e) + 1);
    OpenForIs(items, done, raws, acks, 7);
    hide OpenFor, AckedIds, AcksAre, Allocated, AbsReal;
  }

  lemma AckFewer(items: Items, done: seq<Allocation>, raws: seq<RawAck>, k: nat, m: nat, n: nat)
    requires k < |raws| && m <= n && AckPasses(items, done, raws, k, n)
    ensures AckPasses(items, done, raws, k, m)
  {
    hide Allocated, AbsReal;
  }

  lemma PassesInPrefix(items: Items, done: seq<Allocation>, raws: seq<RawAck>, l: nat, k: nat, n: nat)
    requires k < l <= |raws|
    ensures AckPasses(items, done, raws[..l], k, n) <==> AckPasses(items, done, raws, k, n)
  {
    assert forall j :: 0 <= j <= k ==> raws[..l][j] == raws[j];
    hide Allocated, AbsReal, Covers;
  }

  ghost predicate AllPass(items: Items, done: seq<Allocation>, raws: seq<RawAck>) {
    forall k :: 0 <= k < |raws| ==> AckPasses(items, done, raws, k, 7)
  }

  lemma EarlierFailure(items: Items, done: seq<Allocation>, raws: seq<RawAck>, e: Error)
    requires raws != [] && AcksFail(items, done, raws[..|raws| - 1], e)
    ensures AcksFail(items, done, raws, e)
  {
    hide AckPasses, AckPlace;
    var l := |raws| - 1;
    var k :| 0 <= k < l && FirstToFail(items, done, raws[..l], k, e);
    forall j, n: nat | 0 <= j < l ensures AckPasses(items, done, raws[..l], j, n) <==> AckPasses(items, done, raws, j, n) {
      PassesInPrefix(items, done, raws, l, j, n);
    }
    assert FirstToFail(items, done, raws, k, e);
  }

  /** The last acknowledgement, those before it having passed. */
  lemma LastAck(items: Items, done: seq<Allocation>, raws: seq<RawAck>, acks: seq<Ack>)
    requires raws != [] && AcksAre(raws[..|raws| - 1], acks) && AllPass(items, done, raws[..|raws| - 1])
    ensures match CheckAck(items, done, acks, raws[|raws| - 1])
            case Failure(e) => AcksFail(items, done, raws, e)
            case Success(ack) => AcksAre(raws, acks + [ack]) && AllPass(items, done, raws)
  {
    hide AckPasses, CheckAck, AckPlace;
    var l := |raws| - 1;
    AckFirstFailing(items, done, raws, acks);
    forall k | 0 <= k < l ensures AckPasses(items, done, raws, k, 7) {
      PassesInPrefix(items, done, raws, l, k, 7);
    }
    var r := CheckAck(items, done, acks, raws[l]);
    if r.Failure? {
      assert FirstToFail(items, done, raws, l, r.error);
    }
  }

  lemma {:induction false} EachAckIs(items: Items, done: seq<Allocation>, raws: seq<RawAck>)
    ensures match EachAck(items, done, raws)
            case Failure(e) => AcksFail(items, done, raws, e)
            case Success(acks) => AcksAre(raws, acks) && AllPass(items, done, raws)
  {
    if raws != [] {
      hide AcksFail, AllPass, AcksAre, CheckAck;
      var init := raws[..|raws| - 1];
      EachAckIs(items, done, init);
      var earlier := EachAck(items, done, init);
      if earlier.Failure? {
        EarlierFailure(items, done, raws, earlier.error);
      } else {
        LastAck(items, done, raws, earlier.value);
      }
    }
  }

  lemma AckPlaceTells(e: Error, o: Error)
    requires AckPlace(e) == AckPlace(o) < 7
    ensures e == o
  {
  }

  lemma OneAckFailure(items: Items, done: seq<Allocation>, raws: seq<RawAck>, e: Error, o: Error)
    requires AcksFail(items, done, raws, e) && AcksFail(items, done, raws, o)
    ensures e == o && !AllPass(items, done, raws)
  {
    hide AckPasses, AckPlace;
    var k :| 0 <= k < |raws| && FirstToFail(items, done, raws, k, e);
    var j :| 0 <= j < |raws| && FirstToFail(items, done, raws, j, o);
    NotAllPassed(items, done, raws, k, AckPlace(e) + 1);
    NotAllPassed(items, done, raws, j, AckPlace(o) + 1);
    assert k == j;
    if AckPlace(e) < AckPlace(o) { AckFewer(items, done, raws, k, AckPlace(e) + 1, AckPlace(o)); }
    if AckPlace(o) < AckPlace(e) { AckFewer(items, done, raws, k, AckPlace(o) + 1, AckPlace(e)); }
    AckPlaceTells(e, o);
  }

  lemma NotAllPassed(items: Items, done: seq<Allocation>, raws: seq<RawAck>, k: nat, n: nat)
    requires k < |raws| && n <= 7 && !AckPasses(items, done, raws, k, n)
    ensures !AckPasses(items, done, raws, k, 7)
  {
    hide AckPasses;
    if AckPasses(items, done, raws, k, 7) {
      AckFewer(items, done, raws, k, n, 7);
      assert false;
    }
  }

  /** Something of a position is left that no acknowledgement names. */
  ghost predicate LeftOut(items: Items, done: seq<Allocation>, raws: seq<RawAck>) {
    exists id :: && id in items && AbsReal(items[id].quantity) - Allocated(done, id) > 0.000000001
                 && forall j :: 0 <= j < |raws| ==> raws[j].positionId != id
  }

  /**
   With something left over, acknowledgements are refused with the error of the
   first that fails a check, or for a remainder nobody acknowledged; with nothing
   left over, any is too many. Otherwise they are taken as submitted.
   */
  lemma AcksRefusedIff(items: Items, done: seq<Allocation>, raws: seq<RawAck>, e: Error)
    ensures var r := ValidateAcks(items, done, raws, true);
            && (r == Failure(e) <==>
                  if LeftOut(items, done, []) then
                    AcksFail(items, done, raws, e)
                    || (AllPass(items, done, raws) && LeftOut(items, done, raws) && e == AckMissing)
                  else raws != [] && e == AckUnmatched)
            && (r.Success? ==> AcksAre(raws, r.value))
    ensures ValidateAcks(items, done, raws, false) == Success([])
  {
    EachAckIs(items, done, raws);
    SomethingLeft(items, done);
    var each := EachAck(items, done, raws);
    if each.Failure? {
      OneAckFailure(items, done, raws, each.error, each.error);
      if AcksFail(items, done, raws, e) { OneAckFailure(items, done, raws, e, each.error); }
    } else {
      if AcksFail(items, done, raws, e) {
        OneAckFailure(items, done, raws, e, e);
        assert false;
      }
      CoverIs(items, done, raws, each.value);
    }
    hide EachAck, LeftOut, AcksFail, Remaining, AckedIds, AllPass;
  }

  lemma SomethingLeft(items: Items, done: seq<Allocation>)
    ensures LeftOut(items, done, []) <==> Remaining(items, done) != {}
  {
    hide Allocated;
    if id :| id in Remaining(items, done) {
      assert items[id] == items[id];
    }
    if id :| id in items && AbsReal(items[id].quantity) - Allocated(done, id) > 0.000000001 {
      assert id in Remaining(items, done);
    }
  }

  lemma CoverIs(items: Items, done: seq<Allocation>, raws: seq<RawAck>, acks: seq<Ack>)
    requires AcksAre(raws, acks)
    ensures LeftOut(items, done, raws) <==> !(Remaining(items, done) <= AckedIds(acks))
  {
    hide Allocated, AckedIds;
    forall id ensures id in AckedIds(acks) <==> exists j :: 0 <= j < |raws| && raws[j].positionId == id {
      AckedIdsAre(raws, acks, id);
    }
    if id :| id in Remaining(items, done) && id !in AckedIds(acks) {
      assert items[id] == items[id] && forall j :: 0 <= j < |raws| ==> raws[j].positionId != id;
    }
    if id :| id in items && AbsReal(items[id].quantity) - Allocated(done, id) > 0.000000001 && id !in AckedIds(acks) {
      assert id in Remaining(items, done);
    }
  }

  // ---------------------------------------------------------------- the whole submission

  /**
   A submission is accepted exactly when the gate waits for one, it has
   something to map, and both its parts are accepted; the first of these to fail
   is the error.
   */
  lemma SubmissionAcceptedIff(
    awaiting: bool, items: Items, raws: seq<RawAllocation>, acks: seq<RawAck>, requireAwaiting: bool, requireAck: bool)
    ensures var r := ValidateSubmission(awaiting, items, raws, acks, requireAwaiting, requireAck);
            && (r.Success? <==>
                  && (requireAwaiting ==> awaiting)
                  && (exists id :: id in items)
                  && |raws| + |acks| > 0
                  && Validate(items, raws).Success?
                  && ValidateAcks(items, Validate(items, raws).value, acks, requireAck).Success?)
            && (r.Success? ==>
                  && Validate(items, raws) == Success(r.value.allocations)
                  && ValidateAcks(items, r.value.allocations, acks, requireAck) == Success(r.value.acks))
            && (r.Failure? ==>
                  if requireAwaiting && !awaiting then r.error == NotAwaiting
                  else if forall id :: id !in items then r.error == NothingManaged
                  else if |raws| + |acks| == 0 then r.error == NothingSubmitted
                  else Validate(items, raws) == Failure(r.error)
                       || (Validate(items, raws).Success?
                           && ValidateAcks(items, Validate(items, raws).value, acks, requireAck) == Failure(r.error)))
  {
    hide Validate, ValidateAcks;
  }
}
