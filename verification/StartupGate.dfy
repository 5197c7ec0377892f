/**
 The startup position gate: an operator's (or saved) allocations of broker
 positions to strategies are checked one by one, in order, and what is left
 over must be acknowledged.
 */
module StartupGate {
  import opened Types
  import opened Contracts

  const EPSILON: real := 0.000000001

  datatype Facing = FacingLong | FacingShort | FacingFlat | FacingOther

  datatype Candidate = Candidate(
    strategyId: StrategyId, dryRun: bool, supportsAdoption: bool, adoptable: bool, multiPosition: bool, needsEntryTime: bool)

  /** A broker position that must be mapped, with the strategies that trade its instrument. */
  datatype GateItem = GateItem(
    positionId: string, facing: Facing, quantity: real, instrument: Instrument, candidates: seq<Candidate>)

  type Items = map<string, GateItem>

  datatype RawQuantity = NoQuantity | NotANumber | Quantity(value: real)

  datatype RawTime = NoTime | BadTime | Time(value: int)

  /** An allocation as submitted; an empty position id means "find it by instrument". */
  datatype RawAllocation = RawAllocation(
    positionId: string, instrument: Option<Instrument>, facing: Option<Facing>,
    strategyId: StrategyId, quantity: RawQuantity, entryTime: RawTime, tradeId: Option<TradeId>, source: string)

  datatype Allocation = Allocation(
    positionId: string, strategyId: StrategyId, quantity: real, entryTime: Option<int>, tradeId: Option<TradeId>, source: string)

  datatype RawAck = RawAck(positionId: string, quantity: RawQuantity, reason: string)

  datatype Ack = Ack(positionId: string, quantity: real, reason: string)

  datatype Error =
    | NotAwaiting | NothingManaged | NothingSubmitted
    | NoInstrument | NoMatch | ManyMatches | UnknownPosition | NoStrategy | NotACandidate
    | DryRun | NoAdoption | NotAdoptable | QuantityMissing | QuantityInvalid | QuantityNotPositive
    | EntryTimeInvalid | EntryTimeRequired | ExceedsBroker | SingleLotOnly
    | AckUnmatched | AckWithoutPosition | AckDuplicate | AckInvalid | AckNotPositive | AckWrongQuantity
    | AckWithoutReason | AckMissing

  // ---------------------------------------------------------------- one allocation by itself

  predicate Fits(item: GateItem, instrument: Instrument, facing: Option<Facing>) {
    && (facing.Some? ==> item.facing == facing.value)
    && InstrumentsMatch(item.instrument, instrument)
  }

  function Matches(items: Items, instrument: Instrument, facing: Option<Facing>): set<string> {
    set id | id in items && Fits(items[id], instrument, facing)
  }

  function TheOnly(ids: set<string>): (id: string)
    requires |ids| == 1
    ensures ids == {id}
  {
    OnlyOne(ids);
    var id :| id in ids;
    id
  }

  lemma OnlyOne(ids: set<string>)
    requires |ids| == 1
    ensures exists id :: ids == {id}
    ensures forall a, b :: a in ids && b in ids ==> a == b
  {
    var id :| id in ids;
    assert |ids - {id}| == 0;
    assert ids == {id};
  }

  function FindPosition(items: Items, raw: RawAllocation): Result<string, Error> {
    if raw.positionId != "" then Success(raw.positionId)
    else if raw.instrument.None? then Failure(NoInstrument)
    else
      var matches := Matches(items, raw.instrument.value, raw.facing);
      if |matches| == 1 then Success(TheOnly(matches))
      else if matches == {} then Failure(NoMatch)
      else Failure(ManyMatches)
  }

  /** A later candidate of the same strategy stands for it. */
  function FindCandidate(candidates: seq<Candidate>, s: StrategyId): Option<Candidate> {
    if candidates == [] then None
    else if candidates[|candidates| - 1].strategyId == s then Some(candidates[|candidates| - 1])
    else FindCandidate(candidates[..|candidates| - 1], s)
  }

  /** The checks that do not depend on the other allocations. */
  function Normal(items: Items, raw: RawAllocation): Result<Allocation, Error> {
    var found := FindPosition(items, raw);
    if found.Failure? then Failure(found.error)
    else
      var id := found.value;
      if id !in items then Failure(UnknownPosition)
      else if raw.strategyId == "" then Failure(NoStrategy)
      else
        var candidate := FindCandidate(items[id].candidates, raw.strategyId);
        if candidate.None? then Failure(NotACandidate)
        else if candidate.value.dryRun then Failure(DryRun)
        else if !candidate.value.supportsAdoption then Failure(NoAdoption)
        else if !candidate.value.adoptable then Failure(NotAdoptable)
        else if raw.quantity.NoQuantity? then Failure(QuantityMissing)
        else if raw.quantity.NotANumber? then Failure(QuantityInvalid)
        else if raw.quantity.value <= 0.0 then Failure(QuantityNotPositive)
        else if raw.entryTime.BadTime? then Failure(EntryTimeInvalid)
        else if candidate.value.needsEntryTime && raw.entryTime.NoTime? then Failure(EntryTimeRequired)
        else Success(Allocation(
          id, raw.strategyId, raw.quantity.value,
          if raw.entryTime.Time? then Some(raw.entryTime.value) else None,
          if raw.tradeId == Some("") then None else raw.tradeId,
          if raw.source == "" then "operator" else raw.source))
  }

  // ---------------------------------------------------------------- allocations together

  /** A running total, zero where nothing was added. */
  function Amount(totals: map<string, real>, id: string): real {
    if id in totals then totals[id] else 0.0
  }

  function Allocated(done: seq<Allocation>, id: string): real {
    if done == [] then 0.0
    else
      var a := done[|done| - 1];
      Allocated(done[..|done| - 1], id) + (if a.positionId == id then a.quantity else 0.0)
  }

  function Lots(done: seq<Allocation>, id: string, s: StrategyId): nat {
    if done == [] then 0
    else
      var a := done[|done| - 1];
      Lots(done[..|done| - 1], id, s) + (if a.positionId == id && a.strategyId == s then 1 else 0)
  }

  predicate SingleLot(items: Items, id: string, s: StrategyId) {
    && id in items
    && var candidate := FindCandidate(items[id].candidates, s);
    candidate.Some? && !candidate.value.multiPosition
  }

  function Check(items: Items, done: seq<Allocation>, raw: RawAllocation): Result<Allocation, Error> {
    var normal := Normal(items, raw);
    if normal.Failure? then normal
    else
      var a := normal.value;
      NormalKnown(items, raw);
      if Allocated(done, a.positionId) + a.quantity - AbsReal(items[a.positionId].quantity) > EPSILON then Failure(ExceedsBroker)
      else if Lots(done, a.positionId, a.strategyId) + 1 > 1 && SingleLot(items, a.positionId, a.strategyId) then Failure(SingleLotOnly)
      else normal
  }

  lemma NormalKnown(items: Items, raw: RawAllocation)
    requires Normal(items, raw).Success?
    ensures var a := Normal(items, raw).value;
            a.positionId in items && a.quantity > 0.0 && a.strategyId == raw.strategyId
  {
    hide FindPosition, FindCandidate;
  }

  /** In order, stopping at the first that fails. */
  function Validate(items: Items, raws: seq<RawAllocation>): Result<seq<Allocation>, Error> {
    if raws == [] then Success([])
    else
      var done := Validate(items, raws[..|raws| - 1]);
      if done.Failure? then done
      else
        var a := Check(items, done.value, raws[|raws| - 1]);
        if a.Failure? then Failure(a.error) else Success(done.value + [a.value])
  }

  // ---------------------------------------------------------------- acceptance without the order

  predicate AllNormal(items: Items, raws: seq<RawAllocation>) {
    forall i :: 0 <= i < |raws| ==> Normal(items, raws[i]).Success?
  }

  function Normals(items: Items, raws: seq<RawAllocation>): seq<Allocation>
    requires AllNormal(items, raws)
  {
    if raws == [] then [] else Normals(items, raws[..|raws| - 1]) + [Normal(items, raws[|raws| - 1]).value]
  }

  predicate WithinBroker(items: Items, done: seq<Allocation>) {
    forall id :: id in items ==> Allocated(done, id) - AbsReal(items[id].quantity) <= EPSILON
  }

  ghost predicate LotsAllowed(items: Items, done: seq<Allocation>) {
    forall id, s :: SingleLot(items, id, s) ==> Lots(done, id, s) <= 1
  }

  lemma AllocatedSnoc(done: seq<Allocation>, a: Allocation, id: string, s: StrategyId)
    ensures Allocated(done + [a], id) == Allocated(done, id) + if a.positionId == id then a.quantity else 0.0
    ensures Lots(done + [a], id, s) == Lots(done, id, s) + if a.positionId == id && a.strategyId == s then 1 else 0
  {
    assert (done + [a])[..|done|] == done;
  }

  /**
   Accepted submissions are exactly those whose allocations are each in order
   and which together allocate no position beyond what the broker holds and no
   second lot where only one may be; the order of the checks does not matter.
   */
  lemma {:induction false} AcceptedIff(items: Items, raws: seq<RawAllocation>)
    ensures Validate(items, raws).Success? <==>
              AllNormal(items, raws)
              && WithinBroker(items, Normals(items, raws))
              && LotsAllowed(items, Normals(items, raws))
    ensures Validate(items, raws).Success? ==> Validate(items, raws).value == Normals(items, raws)
  {
    hide Normal, Allocated, Lots, SingleLot;
    if raws == [] {
      NothingAllocated(items);
    } else {
      var init, raw := raws[..|raws| - 1], raws[|raws| - 1];
      AcceptedIff(items, init);
      if AllNormal(items, raws) {
        assert Normal(items, raw).Success?;
        assert AllNormal(items, init);
        OneMore(items, Normals(items, init), raw);
      } else if AllNormal(items, init) {
        assert Normal(items, raw).Failure?;
      }
    }
  }

  lemma NothingAllocated(items: Items)
    ensures WithinBroker(items, []) && LotsAllowed(items, [])
  {
  }

  lemma OneMore(items: Items, done: seq<Allocation>, raw: RawAllocation)
    requires Normal(items, raw).Success?
    ensures var a := Normal(items, raw).value;
            WithinBroker(items, done + [a]) && LotsAllowed(items, done + [a])
            <==> WithinBroker(items, done) && LotsAllowed(items, done) && Check(items, done, raw).Success?
  {
    hide Normal, Allocated, Lots, SingleLot;
    var a := Normal(items, raw).value;
    NormalKnown(items, raw);
    if WithinBroker(items, done + [a]) && LotsAllowed(items, done + [a]) {
      forall id | id in items ensures Allocated(done, id) - AbsReal(items[id].quantity) <= EPSILON {
        AllocatedSnoc(done, a, id, "");
        assert Allocated(done + [a], id) - AbsReal(items[id].quantity) <= EPSILON;
      }
      forall id, s | SingleLot(items, id, s) ensures Lots(done, id, s) <= 1 {
        AllocatedSnoc(done, a, id, s);
        assert Lots(done + [a], id, s) <= 1;
      }
      AllocatedSnoc(done, a, a.positionId, a.strategyId);
    } else if WithinBroker(items, done) && LotsAllowed(items, done) && Check(items, done, raw).Success? {
      forall id | id in items ensures Allocated(done + [a], id) - AbsReal(items[id].quantity) <= EPSILON {
        AllocatedSnoc(done, a, id, "");
      }
      forall id, s | SingleLot(items, id, s) ensures Lots(done + [a], id, s) <= 1 {
        AllocatedSnoc(done, a, id, s);
      }
    }
  }

  // ---------------------------------------------------------------- acknowledging what is left

  function Remainder(items: Items, done: seq<Allocation>, id: string): real
    requires id in items
  {
    AbsReal(items[id].quantity) - Allocated(done, id)
  }

  function Remaining(items: Items, done: seq<Allocation>): set<string> {
    set id | id in items && Remainder(items, done, id) > EPSILON
  }

  function AckedIds(acks: seq<Ack>): set<string> {
    if acks == [] then {} else AckedIds(acks[..|acks| - 1]) + {acks[|acks| - 1].positionId}
  }

  function Acked(acks: seq<Ack>, id: string): real {
    if acks == [] then 0.0
    else
      var k := acks[|acks| - 1];
      Acked(acks[..|acks| - 1], id) + (if k.positionId == id then k.quantity else 0.0)
  }

  function CheckAck(items: Items, done: seq<Allocation>, acks: seq<Ack>, raw: RawAck): Result<Ack, Error> {
    if raw.positionId == "" then Failure(AckWithoutPosition)
    else if raw.positionId !in Remaining(items, done) then Failure(AckUnmatched)
    else if raw.positionId in AckedIds(acks) then Failure(AckDuplicate)
    else if !raw.quantity.Quantity? then Failure(AckInvalid)
    else if raw.quantity.value <= 0.0 then Failure(AckNotPositive)
    else if AbsReal(raw.quantity.value - Remainder(items, done, raw.positionId)) > EPSILON then Failure(AckWrongQuantity)
    else if raw.reason == "" then Failure(AckWithoutReason)
    else Success(Ack(raw.positionId, raw.quantity.value, raw.reason))
  }

  function EachAck(items: Items, done: seq<Allocation>, raws: seq<RawAck>): Result<seq<Ack>, Error> {
    if raws == [] then Success([])
    else
      var acks := EachAck(items, done, raws[..|raws| - 1]);
      if acks.Failure? then acks
      else
        var k := CheckAck(items, done, acks.value, raws[|raws| - 1]);
        if k.Failure? then Failure(k.error) else Success(acks.value + [k.value])
  }

  function ValidateAcks(items: Items, done: seq<Allocation>, raws: seq<RawAck>, requireAck: bool): Result<seq<Ack>, Error> {
    if !requireAck then Success([])
    else if Remaining(items, done) == {} then
      if raws != [] then Failure(AckUnmatched) else Success([])
    else
      var acks := EachAck(items, done, raws);
      if acks.Failure? then acks
      else if !(Remaining(items, done) <= AckedIds(acks.value)) then Failure(AckMissing)
      else acks
  }

  /** One acknowledgement by itself. */
  predicate GoodAck(items: Items, done: seq<Allocation>, raw: RawAck) {
    && raw.positionId != ""
    && raw.positionId in Remaining(items, done)
    && raw.quantity.Quantity?
    && AbsReal(raw.quantity.value - Remainder(items, done, raw.positionId)) <= EPSILON
    && raw.reason != ""
  }

  predicate AllGood(items: Items, done: seq<Allocation>, raws: seq<RawAck>) {
    forall i :: 0 <= i < |raws| ==> GoodAck(items, done, raws[i])
  }

  predicate DistinctAcks(raws: seq<RawAck>) {
    forall i, j :: 0 <= i < j < |raws| ==> raws[i].positionId != raws[j].positionId
  }

  function RawIds(raws: seq<RawAck>): set<string> {
    if raws == [] then {} else RawIds(raws[..|raws| - 1]) + {raws[|raws| - 1].positionId}
  }

  lemma {:induction false} RawIdsAre(raws: seq<RawAck>, id: string)
    ensures id in RawIds(raws) <==> exists i :: 0 <= i < |raws| && raws[i].positionId == id
  {
    if raws != [] {
      var init := raws[..|raws| - 1];
      RawIdsAre(init, id);
      if i :| 0 <= i < |init| && init[i].positionId == id {
        assert raws[i].positionId == id;
      }
    }
  }

  lemma {:induction false} EachAckIff(items: Items, done: seq<Allocation>, raws: seq<RawAck>)
    ensures EachAck(items, done, raws).Success? <==> AllGood(items, done, raws) && DistinctAcks(raws)
    ensures EachAck(items, done, raws).Success? ==> AckedIds(EachAck(items, done, raws).value) == RawIds(raws)
  {
    hide Remaining, Remainder;
    if raws != [] {
      var init, raw := raws[..|raws| - 1], raws[|raws| - 1];
      EachAckIff(items, done, init);
      RawIdsAre(init, raw.positionId);
      if EachAck(items, done, init).Success? {
        assert AckedIds(EachAck(items, done, init).value) == RawIds(init);
      }
      DistinctSnoc(raws);
      GoodSnoc(items, done, raws);
      hide AllGood, DistinctAcks;
      if GoodAck(items, done, raw) {
        GoodIsPositive(items, done, raw);
      }
    }
  }

  lemma DistinctSnoc(raws: seq<RawAck>)
    requires raws != []
    ensures DistinctAcks(raws) <==> DistinctAcks(raws[..|raws| - 1]) && raws[|raws| - 1].positionId !in RawIds(raws[..|raws| - 1])
  {
    var init, raw := raws[..|raws| - 1], raws[|raws| - 1];
    RawIdsAre(init, raw.positionId);
    if DistinctAcks(init) && raw.positionId !in RawIds(init) {
      forall i | 0 <= i < |init| ensures raws[i].positionId != raw.positionId {
        assert init[i].positionId == raws[i].positionId;
      }
    }
  }

  lemma GoodSnoc(items: Items, done: seq<Allocation>, raws: seq<RawAck>)
    requires raws != []
    ensures AllGood(items, done, raws) <==> AllGood(items, done, raws[..|raws| - 1]) && GoodAck(items, done, raws[|raws| - 1])
  {
    hide GoodAck;
    var init := raws[..|raws| - 1];
    forall i | 0 <= i < |init| ensures init[i] == raws[i] {
    }
  }

  /** A remainder is more than the tolerance, so what covers it is positive. */
  lemma GoodIsPositive(items: Items, done: seq<Allocation>, raw: RawAck)
    requires GoodAck(items, done, raw)
    ensures raw.quantity.value > 0.0
  {
  }

  /** Exactly one good acknowledgement for every remainder, and nothing else. */
  lemma AcksAcceptedIff(items: Items, done: seq<Allocation>, raws: seq<RawAck>)
    ensures ValidateAcks(items, done, raws, true).Success?
            <==> AllGood(items, done, raws) && DistinctAcks(raws) && RawIds(raws) == Remaining(items, done)
  {
    EachAckIff(items, done, raws);
    hide EachAck, Remainder;
    if raws != [] && Remaining(items, done) == {} {
      assert !GoodAck(items, done, raws[0]);
    }
    if AllGood(items, done, raws) {
      forall id | id in RawIds(raws) ensures id in Remaining(items, done) {
        RawIdsAre(raws, id);
        var i :| 0 <= i < |raws| && raws[i].positionId == id;
        assert GoodAck(items, done, raws[i]);
      }
    }
    assert RawIds(raws) <= Remaining(items, done) ==> (Remaining(items, done) <= RawIds(raws) <==> RawIds(raws) == Remaining(items, done));
  }

  // ---------------------------------------------------------------- the whole submission

  datatype Submission = Submission(allocations: seq<Allocation>, acks: seq<Ack>)

  function ValidateSubmission(
    awaiting: bool, items: Items, raws: seq<RawAllocation>, acks: seq<RawAck>, requireAwaiting: bool, requireAck: bool)
    : Result<Submission, Error>
  {
    if requireAwaiting && !awaiting then Failure(NotAwaiting)
    else if items == map[] then Failure(NothingManaged)
    else if raws == [] && acks == [] then Failure(NothingSubmitted)
    else
      var done := Validate(items, raws);
      if done.Failure? then Failure(done.error)
      else
        var left := ValidateAcks(items, done.value, acks, requireAck);
        if left.Failure? then Failure(left.error) else Success(Submission(done.value, left.value))
  }

  lemma AckedSnoc(acks: seq<Ack>, k: Ack, id: string)
    ensures Acked(acks + [k], id) == Acked(acks, id) + if k.positionId == id then k.quantity else 0.0
    ensures AckedIds(acks + [k]) == AckedIds(acks) + {k.positionId}
  {
    assert (acks + [k])[..|acks|] == acks;
  }

  lemma CheckedAck(items: Items, done: seq<Allocation>, acks: seq<Ack>, raw: RawAck)
    requires CheckAck(items, done, acks, raw).Success?
    ensures var k := CheckAck(items, done, acks, raw).value;
            && k.positionId in Remaining(items, done)
            && k.positionId !in AckedIds(acks)
            && AbsReal(k.quantity - Remainder(items, done, k.positionId)) <= EPSILON
  {
    hide Remaining, Remainder, AckedIds;
  }

  lemma {:induction false} AckedIs(items: Items, done: seq<Allocation>, raws: seq<RawAck>, id: string)
    requires EachAck(items, done, raws).Success?
    ensures var acks := EachAck(items, done, raws).value;
            if id in AckedIds(acks)
            then id in Remaining(items, done) && AbsReal(Acked(acks, id) - Remainder(items, done, id)) <= EPSILON
            else Acked(acks, id) == 0.0
  {
    if raws != [] {
      hide Remainder, Remaining, CheckAck, Acked, AckedIds, AbsReal;
      var init := raws[..|raws| - 1];
      AckedIs(items, done, init, id);
      var earlier := EachAck(items, done, init).value;
      CheckedAck(items, done, earlier, raws[|raws| - 1]);
      AckedSnoc(earlier, CheckAck(items, done, earlier, raws[|raws| - 1]).value, id);
    }
  }

  lemma RemainderBounds(items: Items, done: seq<Allocation>, id: string)
    requires WithinBroker(items, done) && id in items
    ensures Remainder(items, done, id) >= -EPSILON
    ensures id !in Remaining(items, done) ==> Remainder(items, done, id) <= EPSILON
  {
    hide Allocated;
    assert Allocated(done, id) - AbsReal(items[id].quantity) <= EPSILON;
  }

  /** What was left over is acknowledged, and nothing else is. */
  lemma AcksCover(items: Items, done: seq<Allocation>, raws: seq<RawAck>, id: string)
    requires ValidateAcks(items, done, raws, true).Success?
    ensures var acks := ValidateAcks(items, done, raws, true).value;
            if id in Remaining(items, done)
            then AbsReal(Acked(acks, id) - Remainder(items, done, id)) <= EPSILON
            else Acked(acks, id) == 0.0
  {
    hide Remaining, Remainder, EachAck;
    var acks := ValidateAcks(items, done, raws, true).value;
    if Remaining(items, done) != {} {
      AckedIs(items, done, raws, id);
      assert Remaining(items, done) <= AckedIds(acks);
    }
  }

  /** An accepted submission accounts for every managed position, within the tolerance. */
  lemma SubmissionConserves(
    awaiting: bool, items: Items, raws: seq<RawAllocation>, acks: seq<RawAck>, requireAwaiting: bool, id: string)
    requires ValidateSubmission(awaiting, items, raws, acks, requireAwaiting, true).Success? && id in items
    ensures var accepted := ValidateSubmission(awaiting, items, raws, acks, requireAwaiting, true).value;
            AbsReal(Allocated(accepted.allocations, id) + Acked(accepted.acks, id) - AbsReal(items[id].quantity)) <= EPSILON
  {
    hide Validate, ValidateAcks, AllNormal, LotsAllowed, WithinBroker, Remaining, Acked, Allocated, Normals;
    var accepted := ValidateSubmission(awaiting, items, raws, acks, requireAwaiting, true).value;
    AcceptedIff(items, raws);
    RemainderBounds(items, accepted.allocations, id);
    AcksCover(items, accepted.allocations, acks, id);
  }

  // ---------------------------------------------------------------- whole shares

  predicate Whole(x: real) { x.Floor as real == x }

  lemma WholeSum(a: real, b: real)
    requires Whole(a) && Whole(b)
    ensures Whole(a + b) && Whole(a + 0.0) && Whole(b + 0.0)
  {
    assert a + b == (a.Floor + b.Floor) as real;
  }

  lemma {:induction false} AllocatedWhole(done: seq<Allocation>, id: string)
    requires forall i :: 0 <= i < |done| ==> Whole(done[i].quantity)
    ensures Whole(Allocated(done, id))
  {
    if done != [] {
      AllocatedWhole(done[..|done| - 1], id);
      hide Whole;
      assert Whole(done[|done| - 1].quantity);
      WholeSum(Allocated(done[..|done| - 1], id), done[|done| - 1].quantity);
    }
  }

  lemma {:induction false} AckedWhole(acks: seq<Ack>, id: string)
    requires forall i :: 0 <= i < |acks| ==> Whole(acks[i].quantity)
    ensures Whole(Acked(acks, id))
  {
    if acks != [] {
      AckedWhole(acks[..|acks| - 1], id);
      hide Whole;
      assert Whole(acks[|acks| - 1].quantity);
      WholeSum(Acked(acks[..|acks| - 1], id), acks[|acks| - 1].quantity);
    }
  }

  lemma WholeWithin(a: real, b: real)
    requires Whole(a) && Whole(b) && AbsReal(a - b) <= EPSILON
    ensures a == b
  {
    var m, n := a.Floor, b.Floor;
    assert (m - n) as real == a - b;
    assert -1.0 < (m - n) as real < 1.0;
    assert -1 < m - n < 1;
  }

  /** In whole shares the tolerance disappears: allocations and acknowledgements add up exactly. */
  lemma WholeSharesConserve(
    awaiting: bool, items: Items, raws: seq<RawAllocation>, acks: seq<RawAck>, requireAwaiting: bool, id: string)
    requires ValidateSubmission(awaiting, items, raws, acks, requireAwaiting, true).Success? && id in items
    requires var accepted := ValidateSubmission(awaiting, items, raws, acks, requireAwaiting, true).value;
             && (forall i :: 0 <= i < |accepted.allocations| ==> Whole(accepted.allocations[i].quantity))
             && (forall i :: 0 <= i < |accepted.acks| ==> Whole(accepted.acks[i].quantity))
             && Whole(AbsReal(items[id].quantity))
    ensures var accepted := ValidateSubmission(awaiting, items, raws, acks, requireAwaiting, true).value;
            Allocated(accepted.allocations, id) + Acked(accepted.acks, id) == AbsReal(items[id].quantity)
  {
    SubmissionConserves(awaiting, items, raws, acks, requireAwaiting, id);
    hide ValidateSubmission, Allocated, Acked;
    var accepted := ValidateSubmission(awaiting, items, raws, acks, requireAwaiting, true).value;
    AllocatedWhole(accepted.allocations, id);
    AckedWhole(accepted.acks, id);
    var a, b := Allocated(accepted.allocations, id), Acked(accepted.acks, id);
    hide Whole;
    WholeSum(a, b);
    WholeWithin(a + b, AbsReal(items[id].quantity));
  }
}
