/**
 Intents that need an operator's consent: the store of approvals, and the part
 of intent processing that consults it. Each processing of an intent is one
 step; what the checks and the broker make of the order is arbitrary.
 */
module Approvals {
  import opened Types

  datatype ApprovalStatus = Awaiting | Approved | Refused | Submitted

  datatype Intent = Intent(
    instrument: Instrument, side: Side, quantity: int, role: string, tradeId: Option<TradeId>, key: Option<string>,
    approvalRequired: bool)

  datatype Approval = Approval(strategyId: StrategyId, intent: Intent, status: ApprovalStatus)

  type Items = map<string, Approval>

  /** The descriptive key of an intent that brings none of its own. */
  type Describe = (StrategyId, Intent) -> string

  function ApprovalId(describe: Describe, s: StrategyId, intent: Intent): string {
    s + ":" + (if intent.key.None? || intent.key.value == "" then describe(s, intent) else intent.key.value)
  }

  /** Asking again for a known id gives what is there. */
  function Request(items: Items, describe: Describe, s: StrategyId, intent: Intent): Items {
    var id := ApprovalId(describe, s, intent);
    if id in items then items else items[id := Approval(s, intent, Awaiting)]
  }

  /** Changing an unknown approval is an error. */
  function SetStatus(items: Items, id: string, status: ApprovalStatus): Result<Items, string> {
    if id !in items then Failure(id) else Success(items[id := items[id].(status := status)])
  }

  /** What becomes of an intent besides its approval. */
  datatype Fate =
    | Ineligible      // dropped before approval is looked at
    | Blocked         // dropped by a later check
    | DryRun          // not sent for a dry-run strategy
    | BrokerRaises
    | BrokerReturns

  datatype Submission = Submission(id: string, strategyId: StrategyId, intent: Intent)

  datatype State = State(items: Items, sent: seq<Submission>)

  datatype Step = Emit(s: StrategyId, intent: Intent, fate: Fate) | Approve(id: string) | Reject(id: string)

  /** Processing an intent that requires approval. */
  function Process(st: State, describe: Describe, s: StrategyId, intent: Intent, fate: Fate): State {
    if fate.Ineligible? || !intent.approvalRequired then st
    else
      var id := ApprovalId(describe, s, intent);
      var items := Request(st.items, describe, s, intent);
      if !items[id].status.Approved? || !fate.BrokerReturns? then State(items, st.sent)
      else State(items[id := items[id].(status := Submitted)], st.sent + [Submission(id, s, intent)])
  }

  function After(st: State, describe: Describe, step: Step): State {
    match step
    case Emit(s, intent, fate) => Process(st, describe, s, intent, fate)
    case Approve(id) => if id in st.items then st.(items := SetStatus(st.items, id, Approved).value) else st
    case Reject(id) => if id in st.items then st.(items := SetStatus(st.items, id, Refused).value) else st
  }

  function Run(st: State, describe: Describe, steps: seq<Step>): State {
    if steps == [] then st else After(Run(st, describe, steps[..|steps| - 1]), describe, steps[|steps| - 1])
  }

  function Sent(sent: seq<Submission>, id: string): nat {
    if sent == [] then 0 else Sent(sent[..|sent| - 1], id) + if sent[|sent| - 1].id == id then 1 else 0
  }

  /** Operator approvals of an id in a run, those of unknown ids not counted. */
  function Approvals(st: State, describe: Describe, steps: seq<Step>, id: string): nat {
    if steps == [] then 0
    else
      var init, step := steps[..|steps| - 1], steps[|steps| - 1];
      Approvals(st, describe, init, id)
      + if step == Approve(id) && id in Run(st, describe, init).items then 1 else 0
  }

  /** One submission may still be made. */
  function Due(items: Items, id: string): nat {
    if id in items && items[id].status.Approved? then 1 else 0
  }

  // ---------------------------------------------------------------- what a step does to the items

  /** An operator's word on a known id is what its item then says; its content and all else stay. */
  lemma OperatorDecides(st: State, describe: Describe, id: string)
    ensures var yes, no := After(st, describe, Approve(id)), After(st, describe, Reject(id));
            && yes.items.Keys == no.items.Keys == st.items.Keys && yes.sent == no.sent == st.sent
            && (id in st.items ==>
                  yes.items[id] == Approval(st.items[id].strategyId, st.items[id].intent, Approved)
                  && no.items[id] == Approval(st.items[id].strategyId, st.items[id].intent, Refused))
            && (forall other :: other in st.items && other != id ==>
                  yes.items[other] == st.items[other] && no.items[other] == st.items[other])
  {
  }

  /**
   An emission that needs consent and comes to the check leaves a new item
   awaiting it; an approved item whose order the broker takes becomes submitted
   with the order recorded; nothing else changes. Any other emission does nothing.
   */
  lemma EmissionDoes(st: State, describe: Describe, s: StrategyId, intent: Intent, fate: Fate)
    ensures var end, id := After(st, describe, Emit(s, intent, fate)), ApprovalId(describe, s, intent);
            if fate == Ineligible || !intent.approvalRequired then end == st
            else if id !in st.items then
              end.items == st.items[id := Approval(s, intent, Awaiting)] && end.sent == st.sent
            else if st.items[id].status == Approved && fate == BrokerReturns then
              && end.items == st.items[id := Approval(st.items[id].strategyId, st.items[id].intent, Submitted)]
              && end.sent == st.sent + [Submission(id, s, intent)]
            else end == st
  {
    hide ApprovalId;
  }

  /** An intent's own key, else its description, under the strategy's name: another strategy's or key's id is another id. */
  lemma IdOf(describe: Describe, s: StrategyId, intent: Intent)
    ensures ApprovalId(describe, s, intent)
         == s + ":" + match intent.key
                      case Some(own) => if own != "" then own else describe(s, intent)
                      case None => describe(s, intent)
  {
  }

  /** From a rejection on, known id or not, nothing is submitted under the id until the operator approves it. */
  lemma RejectionHolds(st: State, describe: Describe, before: seq<Step>, after: seq<Step>, id: string)
    requires forall k :: 0 <= k < |after| ==> after[k] != Approve(id)
    ensures Sent(Run(st, describe, before + [Reject(id)] + after).sent, id) == Sent(Run(st, describe, before).sent, id)
  {
    hide ApprovalId, Sent, Run;
    var rejected := After(Run(st, describe, before), describe, Reject(id));
    RunSplits(st, describe, before + [Reject(id)], after);
    RunSplits(st, describe, before, [Reject(id)]);
    RunOne(Run(st, describe, before), describe, Reject(id));
    SubmissionsNeedApprovals(rejected, describe, after, id);
    NoApprovals(rejected, describe, after, id);
    OnlyMoreSent(rejected, describe, after, id);
  }

  lemma RunOne(st: State, describe: Describe, step: Step)
    ensures Run(st, describe, [step]) == After(st, describe, step)
  {
    hide After;
    assert [step][..0] == [];
    assert Run(st, describe, [step][..0]) == st;
  }

  lemma {:induction false} RunSplits(st: State, describe: Describe, x: seq<Step>, y: seq<Step>)
    ensures Run(st, describe, x + y) == Run(Run(st, describe, x), describe, y)
  {
    hide After;
    if y == [] {
      assert x + y == x;
    } else {
      RunSplits(st, describe, x, y[..|y| - 1]);
      assert (x + y)[..|x + y| - 1] == x + y[..|y| - 1];
    }
  }

  lemma {:induction false} OnlyMoreSent(st: State, describe: Describe, steps: seq<Step>, id: string)
    ensures Sent(st.sent, id) <= Sent(Run(st, describe, steps).sent, id)
  {
    hide ApprovalId, Sent;
    if steps != [] {
      var mid, step := Run(st, describe, steps[..|steps| - 1]), steps[|steps| - 1];
      OnlyMoreSent(st, describe, steps[..|steps| - 1], id);
      if step.Emit? {
        SentSnoc(mid.sent, Submission(ApprovalId(describe, step.s, step.intent), step.s, step.intent), id);
      }
    }
  }

  // ---------------------------------------------------------------- counting

  lemma SentSnoc(sent: seq<Submission>, x: Submission, id: string)
    ensures Sent(sent + [x], id) == Sent(sent, id) + if x.id == id then 1 else 0
  {
    assert (sent + [x])[..|sent|] == sent;
  }

  /**
   From any state on, submissions under an id never outnumber the approvals
   given since, plus the one that may have been due; so between two submissions
   there is always another approval.
   */
  lemma {:induction false} SubmissionsNeedApprovals(st: State, describe: Describe, steps: seq<Step>, id: string)
    ensures var end := Run(st, describe, steps);
            Sent(end.sent, id) + Due(end.items, id)
            <= Sent(st.sent, id) + Due(st.items, id) + Approvals(st, describe, steps, id)
  {
    hide ApprovalId, Sent;
    if steps != [] {
      var init, step := steps[..|steps| - 1], steps[|steps| - 1];
      SubmissionsNeedApprovals(st, describe, init, id);
      var mid := Run(st, describe, init);
      hide Run, Approvals;
      OneStep(mid, describe, step, id);
    }
  }

  lemma OneStep(st: State, describe: Describe, step: Step, id: string)
    ensures var end := After(st, describe, step);
            Sent(end.sent, id) + Due(end.items, id)
            <= Sent(st.sent, id) + Due(st.items, id) + if step == Approve(id) && id in st.items then 1 else 0
  {
    hide ApprovalId, Sent;
    if step.Emit? {
      SentSnoc(st.sent, Submission(ApprovalId(describe, step.s, step.intent), step.s, step.intent), id);
    }
  }

  const Start := State(map[], [])

  /** From the start: no more submissions than approvals. */
  lemma NeverOutnumber(describe: Describe, steps: seq<Step>, id: string)
    ensures Sent(Run(Start, describe, steps).sent, id) <= Approvals(Start, describe, steps, id)
  {
    SubmissionsNeedApprovals(Start, describe, steps, id);
  }

  /** After a rejection nothing is submitted until the operator approves again. */
  lemma RejectedStaysUnsent(st: State, describe: Describe, steps: seq<Step>, id: string)
    requires id in st.items && (st.items[id].status.Refused? || st.items[id].status.Submitted? || st.items[id].status.Awaiting?)
    requires forall k :: 0 <= k < |steps| ==> steps[k] != Approve(id)
    ensures Sent(Run(st, describe, steps).sent, id) <= Sent(st.sent, id)
  {
    SubmissionsNeedApprovals(st, describe, steps, id);
    NoApprovals(st, describe, steps, id);
  }

  lemma {:induction false} NoApprovals(st: State, describe: Describe, steps: seq<Step>, id: string)
    requires forall k :: 0 <= k < |steps| ==> steps[k] != Approve(id)
    ensures Approvals(st, describe, steps, id) == 0
  {
    hide Run;
    if steps != [] {
      NoApprovals(st, describe, steps[..|steps| - 1], id);
      assert steps[|steps| - 1] != Approve(id);
    }
  }

  /** An intent is sent exactly when it is eligible, its id is approved, and the broker takes the call. */
  lemma SentIff(st: State, describe: Describe, s: StrategyId, intent: Intent, fate: Fate)
    requires intent.approvalRequired
    ensures var id := ApprovalId(describe, s, intent);
            var end := Process(st, describe, s, intent, fate);
            && (end.sent == st.sent + [Submission(id, s, intent)]
                <==> fate.BrokerReturns? && id in st.items && st.items[id].status.Approved?)
            && (end.sent != st.sent ==> end.items[id].status.Submitted?)
            && (fate.BrokerRaises? && id in st.items ==> end.items == st.items)
  {
    hide ApprovalId;
    var id := ApprovalId(describe, s, intent);
    assert |st.sent + [Submission(id, s, intent)]| == |st.sent| + 1;
  }

  // ---------------------------------------------------------------- what was approved is what is sent

  /** Every submission is of the intent the operator was shown. */
  predicate AsShown(st: State) {
    forall n :: 0 <= n < |st.sent| ==> ShownAs(st.items, st.sent[n])
  }

  predicate ShownAs(items: Items, x: Submission) {
    x.id in items && items[x.id].intent == x.intent && items[x.id].strategyId == x.strategyId
  }

  /** If an emission is about to be sent, the item it finds approved is of that very intent. */
  predicate Faithful(items: Items, describe: Describe, step: Step) {
    step.Emit? && step.intent.approvalRequired && step.fate.BrokerReturns? ==>
      var id := ApprovalId(describe, step.s, step.intent);
      id in items && items[id].status.Approved? ==> items[id].intent == step.intent && items[id].strategyId == step.s
  }

  /** A step changes statuses, and adds at most its own intent. */
  lemma StepKeepsContent(st: State, describe: Describe, step: Step)
    ensures var items := After(st, describe, step).items;
            && (forall id :: id in st.items ==>
                  id in items && items[id].intent == st.items[id].intent && items[id].strategyId == st.items[id].strategyId)
            && (forall id :: id in items && id !in st.items ==> StandsFor(step, describe, id, items[id]))
  {
    hide ApprovalId;
  }

  /** What is sent is what the operator was shown exactly when the item found approved is of the intent at hand. */
  lemma StepShownIff(st: State, describe: Describe, step: Step)
    requires AsShown(st)
    ensures AsShown(After(st, describe, step)) <==> Faithful(st.items, describe, step)
  {
    hide ApprovalId;
    StepKeepsContent(st, describe, step);
    var end := After(st, describe, step);
    forall n | 0 <= n < |st.sent| ensures ShownAs(end.items, end.sent[n]) {
      assert ShownAs(st.items, st.sent[n]);
    }
    if end.sent != st.sent {
      assert AsShown(end) ==> ShownAs(end.items, end.sent[|st.sent|]);
    }
  }

  predicate SentKnown(st: State) {
    forall n :: 0 <= n < |st.sent| ==> st.sent[n].id in st.items
  }

  lemma StepStaysWrong(st: State, describe: Describe, step: Step)
    requires SentKnown(st)
    ensures SentKnown(After(st, describe, step))
    ensures AsShown(After(st, describe, step)) ==> AsShown(st)
  {
    hide ApprovalId;
    StepKeepsContent(st, describe, step);
    var end := After(st, describe, step);
    if AsShown(end) {
      forall n | 0 <= n < |st.sent| ensures ShownAs(st.items, st.sent[n]) {
        assert ShownAs(end.items, end.sent[n]);
      }
    }
  }

  predicate AlwaysFaithful(describe: Describe, steps: seq<Step>) {
    forall n :: 0 <= n < |steps| ==> Faithful(Run(Start, describe, steps[..n]).items, describe, steps[n])
  }

  lemma OneMoreFaithful(describe: Describe, steps: seq<Step>)
    requires steps != []
    ensures var init := steps[..|steps| - 1];
            AlwaysFaithful(describe, steps)
            <==> AlwaysFaithful(describe, init) && Faithful(Run(Start, describe, init).items, describe, steps[|steps| - 1])
  {
    hide Faithful, Run;
    var init := steps[..|steps| - 1];
    assert forall n :: 0 <= n <= |init| ==> init[..n] == steps[..n];
    if AlwaysFaithful(describe, steps) {
      forall n | 0 <= n < |init| ensures Faithful(Run(Start, describe, init[..n]).items, describe, init[n]) {
        assert Faithful(Run(Start, describe, steps[..n]).items, describe, steps[n]);
      }
      assert Faithful(Run(Start, describe, steps[..|init|]).items, describe, steps[|init|]);
    } else {
      var n :| 0 <= n < |steps| && !Faithful(Run(Start, describe, steps[..n]).items, describe, steps[n]);
      assert n < |init| ==> !Faithful(Run(Start, describe, init[..n]).items, describe, init[n]);
    }
  }

  /** Over a run from the start: exactly when every emission is faithful to the items it meets. */
  lemma {:induction false} ShownIff(describe: Describe, steps: seq<Step>)
    ensures AsShown(Run(Start, describe, steps)) <==> AlwaysFaithful(describe, steps)
    ensures SentKnown(Run(Start, describe, steps))
  {
    hide AsShown, SentKnown, Faithful, After;
    if steps == [] {
      NothingSent();
    } else {
      var init, step := steps[..|steps| - 1], steps[|steps| - 1];
      var mid := Run(Start, describe, init);
      ShownIff(describe, init);
      OneMoreFaithful(describe, steps);
      StepStaysWrong(mid, describe, step);
      if AsShown(mid) {
        StepShownIff(mid, describe, step);
      }
    }
  }

  lemma NothingSent()
    ensures AsShown(Start) && SentKnown(Start)
  {
  }

  predicate SameId(describe: Describe, a: Step, b: Step) {
    a.Emit? && b.Emit? && ApprovalId(describe, a.s, a.intent) == ApprovalId(describe, b.s, b.intent)
  }

  /** Emitted intents that share an id are the same intent of the same strategy. */
  predicate IdsTellApart(describe: Describe, steps: seq<Step>) {
    forall j, k :: 0 <= j < |steps| && 0 <= k < |steps| && SameId(describe, steps[j], steps[k]) ==>
      steps[j].s == steps[k].s && steps[j].intent == steps[k].intent
  }

  predicate StandsFor(step: Step, describe: Describe, id: string, a: Approval) {
    step.Emit? && ApprovalId(describe, step.s, step.intent) == id && a.strategyId == step.s && a.intent == step.intent
  }

  /** An item is what some step emitted under its id. */
  predicate Recorded(items: Items, describe: Describe, steps: seq<Step>) {
    forall id :: id in items ==> exists k :: 0 <= k < |steps| && StandsFor(steps[k], describe, id, items[id])
  }

  /** Intents that share an id only when they are the same are always sent as shown. */
  lemma {:induction false} SentAsShown(describe: Describe, steps: seq<Step>)
    requires IdsTellApart(describe, steps)
    ensures var end := Run(Start, describe, steps);
            Recorded(end.items, describe, steps) && AsShown(end)
  {
    hide ApprovalId, AsShown;
    if steps == [] {
      NothingSent();
    } else {
      var init, step := steps[..|steps| - 1], steps[|steps| - 1];
      assert IdsTellApart(describe, init);
      SentAsShown(describe, init);
      var mid := Run(Start, describe, init);
      RecordedLonger(mid.items, describe, steps);
      hide Run;
      KnownIsSame(mid.items, describe, steps);
      StepShownIff(mid, describe, step);
      StepKeepsContent(mid, describe, step);
      hide After, IdsTellApart, Recorded;
      SameContent(mid.items, After(mid, describe, step).items, describe, steps);
    }
  }

  lemma RecordedLonger(items: Items, describe: Describe, steps: seq<Step>)
    requires steps != [] && Recorded(items, describe, steps[..|steps| - 1])
    ensures Recorded(items, describe, steps)
  {
    hide StandsFor;
    var init := steps[..|steps| - 1];
    forall id | id in items ensures exists k :: 0 <= k < |steps| && StandsFor(steps[k], describe, id, items[id]) {
      var k :| 0 <= k < |init| && StandsFor(init[k], describe, id, items[id]);
      assert steps[k] == init[k];
    }
  }

  /** What an emission's own id stood for already was the same intent. */
  lemma KnownIsSame(items: Items, describe: Describe, steps: seq<Step>)
    requires steps != [] && IdsTellApart(describe, steps) && Recorded(items, describe, steps)
    ensures var step := steps[|steps| - 1];
            step.Emit? ==>
              var id := ApprovalId(describe, step.s, step.intent);
              id in items ==> items[id].strategyId == step.s && items[id].intent == step.intent
  {
    hide ApprovalId;
    var step := steps[|steps| - 1];
    if step.Emit? {
      var id := ApprovalId(describe, step.s, step.intent);
      if id in items {
        var k :| 0 <= k < |steps| && StandsFor(steps[k], describe, id, items[id]);
        assert SameId(describe, steps[k], steps[|steps| - 1]);
      }
    }
  }

  /** Statuses may change; what an id stands for does not, and a new id stands for the last step's intent. */
  lemma SameContent(items: Items, items': Items, describe: Describe, steps: seq<Step>)
    requires steps != [] && Recorded(items, describe, steps)
    requires forall id :: id in items' && id in items ==>
               items'[id].intent == items[id].intent && items'[id].strategyId == items[id].strategyId
    requires forall id :: id in items' && id !in items ==> StandsFor(steps[|steps| - 1], describe, id, items'[id])
    ensures Recorded(items', describe, steps)
  {
    hide ApprovalId;
    forall id | id in items' ensures exists k :: 0 <= k < |steps| && StandsFor(steps[k], describe, id, items'[id]) {
      if id in items {
        var k :| 0 <= k < |steps| && StandsFor(steps[k], describe, id, items[id]);
        assert StandsFor(steps[k], describe, id, items'[id]);
      } else {
        assert StandsFor(steps[|steps| - 1], describe, id, items'[id]);
      }
    }
  }

  /** A strategy that reuses its own key for another quantity has the new quantity sent under the old approval. */
  lemma ReusedKeySendsOther(describe: Describe, i: Instrument)
    ensures var small := Intent(i, Long, 1, "entry", None, Some("k"), true);
            var large := small.(quantity := 100);
            var steps := [Emit("s", small, BrokerReturns), Approve("s:k"), Emit("s", large, BrokerReturns)];
            var end := Run(Start, describe, steps);
            "s:k" in end.items && end.sent == [Submission("s:k", "s", large)] && end.items["s:k"].intent == small
  {
    var small := Intent(i, Long, 1, "entry", None, Some("k"), true);
    var large := small.(quantity := 100);
    var steps := [Emit("s", small, BrokerReturns), Approve("s:k"), Emit("s", large, BrokerReturns)];
    assert "s" + ":" + "k" == "s:k";
    assert steps[..2][..1] == [steps[0]] && steps[..2] == [steps[0], steps[1]] && [steps[0]][..0] == [];
    var one := After(Start, describe, steps[0]);
    assert Run(Start, describe, [steps[0]]) == one;
    var two := After(one, describe, steps[1]);
    assert Run(Start, describe, steps[..2]) == two;
    assert two.items["s:k"] == Approval("s", small, Approved);
  }

  // ---------------------------------------------------------------- the store

  class ApprovalStore {
    const describe: Describe
    var items: Items

    constructor (describe: Describe)
      ensures items == map[] && this.describe == describe
    {
      this.describe, items := describe, map[];
    }

    method RequestApproval(s: StrategyId, intent: Intent) returns (id: string, approval: Approval)
      modifies this
      ensures id == ApprovalId(describe, s, intent)
      ensures items == Request(old(items), describe, s, intent)
      ensures id in items && approval == items[id]
      ensures id in old(items) ==> items == old(items)
    {
      hide ApprovalId;
      id := ApprovalId(describe, s, intent);
      if id !in items {
        items := items[id := Approval(s, intent, Awaiting)];
      }
      approval := items[id];
    }

    method ChangeStatus(id: string, status: ApprovalStatus) returns (r: Result<Approval, string>)
      modifies this
      ensures r.Success? <==> id in old(items)
      ensures r.Success? ==> SetStatus(old(items), id, status) == Success(items) && r.value == items[id]
      ensures r.Failure? ==> items == old(items)
      ensures r.Success? ==> r.value == Approval(old(items[id]).strategyId, old(items[id]).intent, status)
      ensures forall other :: other in old(items) && other != id ==> other in items && items[other] == old(items)[other]
    {
      if id !in items {
        return Failure(id);
      }
      items := items[id := items[id].(status := status)];
      r := Success(items[id]);
    }

    /** The approval part of processing an intent; tells whether the order went to the broker and came back. */
    method ProcessIntent(s: StrategyId, intent: Intent, fate: Fate) returns (sent: bool)
      requires intent.approvalRequired
      modifies this
      ensures items == Process(State(old(items), []), describe, s, intent, fate).items
      ensures sent <==> Process(State(old(items), []), describe, s, intent, fate).sent != []
      ensures sent ==> ApprovalId(describe, s, intent) in old(items) && old(items)[ApprovalId(describe, s, intent)].status.Approved?
    {
      hide ApprovalId;
      if fate.Ineligible? {
        return false;
      }
      var id, approval := RequestApproval(s, intent);
      if approval.status.Awaiting? || approval.status.Refused? || approval.status.Submitted? {
        return false;
      }
      if fate.Blocked? || fate.DryRun? || fate.BrokerRaises? {
        return false;
      }
      var marked := ChangeStatus(id, Submitted);
      return true;
    }
  }
}
