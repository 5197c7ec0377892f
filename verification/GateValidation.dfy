/** The validator as it runs: two loops with running totals, stopping at the first failure. */
module GateValidation {
  import opened Types
  import opened StartupGate

  lemma {:induction false} FirstFailureStands(items: Items, raws: seq<RawAllocation>, k: nat)
    requires k <= |raws| && Validate(items, raws[..k]).Failure?
    ensures Validate(items, raws) == Validate(items, raws[..k])
    decreases |raws|
  {
    if k == |raws| {
      assert raws[..k] == raws;
    } else {
      var init := raws[..|raws| - 1];
      assert init[..k] == raws[..k];
      FirstFailureStands(items, init, k);
    }
  }

  lemma {:induction false} FirstAckFailureStands(items: Items, done: seq<Allocation>, raws: seq<RawAck>, k: nat)
    requires k <= |raws| && EachAck(items, done, raws[..k]).Failure?
    ensures EachAck(items, done, raws) == EachAck(items, done, raws[..k])
    decreases |raws|
  {
    if k == |raws| {
      assert raws[..k] == raws;
    } else {
      var init := raws[..|raws| - 1];
      assert init[..k] == raws[..k];
      FirstAckFailureStands(items, done, init, k);
    }
  }

  function Count(counts: map<(string, StrategyId), nat>, key: (string, StrategyId)): nat {
    if key in counts then counts[key] else 0
  }

  predicate Totals(totals: map<string, real>, counts: map<(string, StrategyId), nat>, done: seq<Allocation>) {
    && (forall id :: id in totals ==> totals[id] == Allocated(done, id))
    && (forall i :: 0 <= i < |done| ==> done[i].positionId in totals)
    && (forall key :: key in counts ==> counts[key] == Lots(done, key.0, key.1))
    && (forall i :: 0 <= i < |done| ==> (done[i].positionId, done[i].strategyId) in counts)
  }

  lemma {:induction false} Untouched(done: seq<Allocation>, id: string, s: StrategyId)
    ensures (forall i :: 0 <= i < |done| ==> done[i].positionId != id) ==> Allocated(done, id) == 0.0
    ensures (forall i :: 0 <= i < |done| ==> (done[i].positionId, done[i].strategyId) != (id, s)) ==> Lots(done, id, s) == 0
  {
    if done != [] {
      var init := done[..|done| - 1];
      Untouched(init, id, s);
      assert forall i :: 0 <= i < |init| ==> init[i] == done[i];
    }
  }

  lemma TotalsAre(totals: map<string, real>, counts: map<(string, StrategyId), nat>, done: seq<Allocation>, id: string, s: StrategyId)
    requires Totals(totals, counts, done)
    ensures Amount(totals, id) == Allocated(done, id) && Count(counts, (id, s)) == Lots(done, id, s)
  {
    Untouched(done, id, s);
  }

  lemma TotalsSnoc(totals: map<string, real>, counts: map<(string, StrategyId), nat>, done: seq<Allocation>, a: Allocation)
    requires Totals(totals, counts, done)
    ensures var id, key := a.positionId, (a.positionId, a.strategyId);
            Totals(totals[id := Amount(totals, id) + a.quantity], counts[key := Count(counts, key) + 1], done + [a])
  {
    hide Allocated, Lots;
    var id, key := a.positionId, (a.positionId, a.strategyId);
    TotalsAre(totals, counts, done, id, a.strategyId);
    forall other ensures Allocated(done + [a], other) == Allocated(done, other) + if id == other then a.quantity else 0.0 {
      AllocatedSnoc(done, a, other, "");
    }
    forall k: (string, StrategyId)
      ensures Lots(done + [a], k.0, k.1) == Lots(done, k.0, k.1) + if key == k then 1 else 0
    {
      AllocatedSnoc(done, a, k.0, k.1);
    }
  }

  method ValidateAllocations(items: Items, raws: seq<RawAllocation>) returns (r: Result<seq<Allocation>, Error>, totals: map<string, real>)
    ensures r == Validate(items, raws)
    ensures r.Success? ==> forall id :: id in items ==> Amount(totals, id) == Allocated(r.value, id)
  {
    hide Totals, Allocated, Lots, Normal, SingleLot;
    totals := map[];
    var counts: map<(string, StrategyId), nat> := map[];
    var normalized: seq<Allocation> := [];
    assert Totals(totals, counts, normalized) by { NoTotals(); }
    for i := 0 to |raws|
      invariant Validate(items, raws[..i]) == Success(normalized)
      invariant Totals(totals, counts, normalized)
    {
      assert raws[..i + 1][..i] == raws[..i];
      var normal := Normal(items, raws[i]);
      if normal.Failure? {
        FirstFailureStands(items, raws, i + 1);
        return Failure(normal.error), totals;
      }
      var a := normal.value;
      NormalKnown(items, raws[i]);
      var key := (a.positionId, a.strategyId);
      TotalsAre(totals, counts, normalized, a.positionId, a.strategyId);
      TotalsSnoc(totals, counts, normalized, a);
      totals := totals[a.positionId := Amount(totals, a.positionId) + a.quantity];
      if totals[a.positionId] - AbsReal(items[a.positionId].quantity) > EPSILON {
        FirstFailureStands(items, raws, i + 1);
        return Failure(ExceedsBroker), totals;
      }
      counts := counts[key := Count(counts, key) + 1];
      if counts[key] > 1 && SingleLot(items, a.positionId, a.strategyId) {
        FirstFailureStands(items, raws, i + 1);
        return Failure(SingleLotOnly), totals;
      }
      normalized := normalized + [a];
    }
    assert raws[..|raws|] == raws;
    r := Success(normalized);
    forall id | id in items ensures Amount(totals, id) == Allocated(normalized, id) {
      TotalsAre(totals, counts, normalized, id, "");
    }
  }

  lemma NoTotals()
    ensures Totals(map[], map[], [])
  {
  }

  /** One acknowledgement against the remainders worked out beforehand. */
  method CheckAcknowledgement(
    items: Items, done: seq<Allocation>, remainders: map<string, real>, acknowledged: set<string>, acks: seq<Ack>, raw: RawAck)
    returns (r: Result<Ack, Error>)
    requires remainders.Keys == Remaining(items, done) && acknowledged == AckedIds(acks)
    requires forall id :: id in remainders ==> remainders[id] == Remainder(items, done, id)
    ensures r == CheckAck(items, done, acks, raw)
    ensures r.Success? ==> r.value.positionId in remainders && r.value.positionId !in acknowledged
  {
    hide Remaining, Remainder, AckedIds;
    if raw.positionId == "" {
      r := Failure(AckWithoutPosition);
    } else if raw.positionId !in remainders {
      r := Failure(AckUnmatched);
    } else if raw.positionId in acknowledged {
      r := Failure(AckDuplicate);
    } else if !raw.quantity.Quantity? {
      r := Failure(AckInvalid);
    } else if raw.quantity.value <= 0.0 {
      r := Failure(AckNotPositive);
    } else if AbsReal(raw.quantity.value - remainders[raw.positionId]) > EPSILON {
      r := Failure(AckWrongQuantity);
    } else if raw.reason == "" {
      r := Failure(AckWithoutReason);
    } else {
      r := Success(Ack(raw.positionId, raw.quantity.value, raw.reason));
    }
  }

  method EachAcknowledgement(items: Items, done: seq<Allocation>, remainders: map<string, real>, raws: seq<RawAck>)
    returns (r: Result<seq<Ack>, Error>, acknowledged: set<string>)
    requires remainders.Keys == Remaining(items, done)
    requires forall id :: id in remainders ==> remainders[id] == Remainder(items, done, id)
    ensures r == EachAck(items, done, raws)
    ensures r.Success? ==> acknowledged == AckedIds(r.value)
  {
    hide Remaining, Remainder;
    var normalized: seq<Ack> := [];
    acknowledged := {};
    for i := 0 to |raws|
      invariant EachAck(items, done, raws[..i]) == Success(normalized)
      invariant acknowledged == AckedIds(normalized)
    {
      hide CheckAck;
      assert raws[..i + 1][..i] == raws[..i];
      var k := CheckAcknowledgement(items, done, remainders, acknowledged, normalized, raws[i]);
      if k.Failure? {
        FirstAckFailureStands(items, done, raws, i + 1);
        return Failure(k.error), acknowledged;
      }
      assert (normalized + [k.value])[..|normalized|] == normalized;
      acknowledged, normalized := acknowledged + {k.value.positionId}, normalized + [k.value];
    }
    assert raws[..|raws|] == raws;
    r := Success(normalized);
  }

  method ValidateRemainders(items: Items, done: seq<Allocation>, totals: map<string, real>, raws: seq<RawAck>, requireAck: bool)
    returns (r: Result<seq<Ack>, Error>)
    requires forall id :: id in items ==> Amount(totals, id) == Allocated(done, id)
    ensures r == ValidateAcks(items, done, raws, requireAck)
  {
    hide Allocated, EachAck, AckedIds;
    var remainders := map id | id in items && AbsReal(items[id].quantity) - Amount(totals, id) > EPSILON
                      :: AbsReal(items[id].quantity) - Amount(totals, id);
    assert remainders.Keys == Remaining(items, done);
    if !requireAck {
      return Success([]);
    }
    hide Remaining, Remainder;
    if remainders.Keys == {} {
      return if raws != [] then Failure(AckUnmatched) else Success([]);
    }
    var acks, acknowledged := EachAcknowledgement(items, done, remainders, raws);
    if acks.Failure? {
      return acks;
    }
    if !(remainders.Keys <= acknowledged) {
      return Failure(AckMissing);
    }
    r := acks;
  }

  /** What a submission gets: the first error in order, or everything it asked for, normalised. */
  method ValidateStartupMapping(
    awaiting: bool, items: Items, raws: seq<RawAllocation>, acks: seq<RawAck>, requireAwaiting: bool, requireAck: bool)
    returns (r: Result<Submission, Error>)
    ensures r == ValidateSubmission(awaiting, items, raws, acks, requireAwaiting, requireAck)
    ensures r.Success? && requireAck ==> forall id :: id in items ==>
              AbsReal(Allocated(r.value.allocations, id) + Acked(r.value.acks, id) - AbsReal(items[id].quantity)) <= EPSILON
  {
    hide Validate, ValidateAcks, Allocated, Acked;
    if requireAwaiting && !awaiting {
      return Failure(NotAwaiting);
    }
    if items == map[] {
      return Failure(NothingManaged);
    }
    if raws == [] && acks == [] {
      return Failure(NothingSubmitted);
    }
    var done, totals := ValidateAllocations(items, raws);
    if done.Failure? {
      return Failure(done.error);
    }
    var left := ValidateRemainders(items, done.value, totals, acks, requireAck);
    if left.Failure? {
      return Failure(left.error);
    }
    r := Success(Submission(done.value, left.value));
    if requireAck {
      forall id | id in items
        ensures AbsReal(Allocated(r.value.allocations, id) + Acked(r.value.acks, id) - AbsReal(items[id].quantity)) <= EPSILON
      {
        SubmissionConserves(awaiting, items, raws, acks, requireAwaiting, id);
      }
    }
  }
}
