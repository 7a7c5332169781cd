/**
 The post-call pipeline of apps/worker/src/worker/postcall.py and the retry rule of `process_call` in
 apps/worker/src/worker/tasks.py: stages that each succeed or fail as a whole, run again until none
 fails. The four stages with a lasting effect are modelled; the call and its campaign contact are
 objects the stages assign to.
 */
module PostCall {
  import opened Wrappers
  import opened ContactStatuses
  import opened Reconciliation
  import Units

  datatype Stage = OutcomeStage | CampaignStage | TicketStage | CostStage

  /** One entry of the cost breakdown; `amount` is missing when the stored value is not a number. */
  datatype Component = Component(key: string, amount: Option<real>)

  datatype CallFields = CallFields(
    outcome: Option<CallOutcome>, wasTransferred: bool, transferCompleted: bool, answered: bool,
    costTotal: Option<real>, breakdown: seq<Component>)

  /** The contact the call served; `linked` when it already points at the call. */
  datatype ContactFields = ContactFields(status: ContactStatus, outcome: Option<string>, linked: bool)

  /** Everything the stages read or write for one call. */
  datatype Work = Work(call: CallFields, contact: Option<ContactFields>, tickets: nat)

  const COST_SCALE := 10000.0

  // ----- the stages as functions

  function OutcomeSet(c: CallFields): CallFields {
    if c.outcome.Some? then c
    else if c.wasTransferred then c.(outcome := Some(Transferred))
    else if !c.answered then c.(outcome := Some(NotReached))
    else c.(outcome := Some(CallerHungUp))
  }

  predicate Decided(p: ContactFields) {
    p.status != Dialing && p.outcome.Some?
  }

  function ContactFinished(p: ContactFields, outcome: Option<CallOutcome>): ContactFields {
    if Decided(p) then p.(linked := true)
    else
      var (status, result) := ContactResult(outcome);
      ContactFields(status, Some(result), true)
  }

  predicate NeedsFollowUp(c: CallFields) {
    || c.outcome == Some(AbandonedSilence) || c.outcome == Some(SystemFailure)
    || (c.wasTransferred && !c.transferCompleted)
  }

  function Amounts(breakdown: seq<Component>): seq<real> {
    if breakdown == [] then []
    else
      var last := breakdown[|breakdown| - 1];
      Amounts(breakdown[..|breakdown| - 1])
      + if last.key != "total" && last.amount.Some? then [last.amount.value] else []
  }

  function Sum(xs: seq<real>): real {
    if xs == [] then 0.0 else Sum(xs[..|xs| - 1]) + xs[|xs| - 1]
  }

  /** The breakdown with its total set: replaced where it stands, or added at the end. */
  function WithTotal(breakdown: seq<Component>, total: real): seq<Component> {
    if breakdown == [] then [Component("total", Some(total))]
    else if breakdown[0].key == "total" then [Component("total", Some(total))] + breakdown[1..]
    else [breakdown[0]] + WithTotal(breakdown[1..], total)
  }

  function Costed(c: CallFields): CallFields {
    var amounts := Amounts(c.breakdown);
    if amounts == [] then c
    else
      var total := Units.Quantize(Sum(amounts), COST_SCALE);
      c.(costTotal := Some(total), breakdown := WithTotal(c.breakdown, total))
  }

  function Done(w: Work, stage: Stage): Work {
    match stage
    case OutcomeStage => w.(call := OutcomeSet(w.call))
    case CampaignStage =>
      if w.contact.Some? then w.(contact := Some(ContactFinished(w.contact.value, w.call.outcome))) else w
    case TicketStage => if w.tickets > 0 || !NeedsFollowUp(w.call) then w else w.(tickets := 1)
    case CostStage => w.(call := Costed(w.call))
  }

  /** Where a stage stands in a run. */
  function Place(stage: Stage): nat {
    match stage
    case OutcomeStage => 0
    case CampaignStage => 1
    case TicketStage => 2
    case CostStage => 3
  }

  function Attempted(w: Work, stage: Stage, good: set<Stage>): Work {
    if stage in good then Done(w, stage) else w
  }

  /** One run in which exactly the stages of `good` succeed. */
  function RunOnce(w: Work, good: set<Stage>): Work {
    Attempted(Attempted(
      Attempted(Attempted(w, OutcomeStage, good), CampaignStage, good), TicketStage, good), CostStage, good)
  }

  function Unless(stage: Stage, good: set<Stage>): seq<Stage> {
    if stage in good then [] else [stage]
  }

  lemma FailedInOrder(good: set<Stage>, failed: seq<Stage>)
    requires failed
      == Unless(OutcomeStage, good) + Unless(CampaignStage, good) + Unless(TicketStage, good) + Unless(CostStage, good)
    ensures forall stage :: stage in failed <==> stage !in good
    ensures forall i, j :: 0 <= i < j < |failed| ==> Place(failed[i]) < Place(failed[j])
  {
    var (o, c) := (Unless(OutcomeStage, good), Unless(CampaignStage, good));
    var (t, k) := (Unless(TicketStage, good), Unless(CostStage, good));
    forall stage
      ensures stage in o + c + t + k <==> stage !in good
    {
      assert stage == OutcomeStage || stage == CampaignStage || stage == TicketStage || stage == CostStage;
    }
  }

  const ALL_STAGES: set<Stage> := {OutcomeStage, CampaignStage, TicketStage, CostStage}

  /** One run in which nothing fails. */
  function CleanRun(w: Work): Work {
    RunOnce(w, ALL_STAGES)
  }

  function Runs(w: Work, runs: seq<set<Stage>>): Work {
    if runs == [] then w else RunOnce(Runs(w, runs[..|runs| - 1]), runs[|runs| - 1])
  }

  // ----- the stages as the job runs them

  class Call {
    var outcome: Option<CallOutcome>
    const wasTransferred: bool
    const transferCompleted: bool
    const answered: bool
    var costTotal: Option<real>
    var breakdown: seq<Component>

    constructor (f: CallFields)
      ensures Value() == f
    {
      outcome, answered := f.outcome, f.answered;
      wasTransferred, transferCompleted := f.wasTransferred, f.transferCompleted;
      costTotal, breakdown := f.costTotal, f.breakdown;
    }

    function Value(): CallFields
      reads this
    {
      CallFields(outcome, wasTransferred, transferCompleted, answered, costTotal, breakdown)
    }

    method SetOutcome()
      modifies this
      ensures Value() == OutcomeSet(old(Value()))
    {
      if outcome.Some? {
        return;
      }
      if wasTransferred {
        outcome := Some(Transferred);
      } else if !answered {
        outcome := Some(NotReached);
      } else {
        outcome := Some(CallerHungUp);
      }
    }

    method FinaliseCost()
      modifies this
      ensures Value() == Costed(old(Value()))
    {
      var components := Amounts(breakdown);
      if components == [] {
        return;
      }
      var total := Units.Quantize(Sum(components), COST_SCALE);
      costTotal := Some(total);
      breakdown := WithTotal(breakdown, total);
    }
  }

  class Contact {
    var status: ContactStatus
    var outcome: Option<string>
    var linked: bool

    constructor (f: ContactFields)
      ensures Value() == f
    {
      status, outcome, linked := f.status, f.outcome, f.linked;
    }

    function Value(): ContactFields
      reads this
    {
      ContactFields(status, outcome, linked)
    }

    method Finish(callOutcome: Option<CallOutcome>)
      modifies this
      ensures Value() == ContactFinished(old(Value()), callOutcome)
    {
      linked := true;
      if status == Dialing || outcome == None {
        var (s, o) := ContactResult(callOutcome);
        status, outcome := s, Some(o);
      }
    }
  }

  class Job {
    const call: Call
    const contact: Contact?
    var tickets: nat

    constructor (call: Call, contact: Contact?, tickets: nat)
      ensures this.call == call && this.contact == contact && this.tickets == tickets
    {
      this.call, this.contact, this.tickets := call, contact, tickets;
    }

    function Value(): Work
      reads this, call, contact
    {
      Work(call.Value(), if contact == null then None else Some(contact.Value()), tickets)
    }

    method EnsureTicket()
      modifies this
      ensures Value() == Done(old(Value()), TicketStage)
    {
      if tickets > 0 {
        return;
      }
      if NeedsFollowUp(call.Value()) {
        tickets := tickets + 1;
      }
    }

    /** One run; a stage outside `good` fails and the next one still runs. Returns the failed stages, in order. */
    method Run(good: set<Stage>) returns (failed: seq<Stage>)
      modifies this, call, contact
      ensures Value() == RunOnce(old(Value()), good)
      ensures forall stage :: stage in failed <==> stage !in good
      ensures forall i, j :: 0 <= i < j < |failed| ==> Place(failed[i]) < Place(failed[j])
    {
      failed := [];
      if OutcomeStage in good {
        call.SetOutcome();
      } else {
        failed := failed + [OutcomeStage];
      }
      ghost var w := Attempted(old(Value()), OutcomeStage, good);
      assert Value() == w && failed == Unless(OutcomeStage, good);
      if CampaignStage in good {
        if contact != null {
          contact.Finish(call.outcome);
        }
      } else {
        failed := failed + [CampaignStage];
      }
      w := Attempted(w, CampaignStage, good);
      assert Value() == w && failed == Unless(OutcomeStage, good) + Unless(CampaignStage, good);
      if TicketStage in good {
        EnsureTicket();
      } else {
        failed := failed + [TicketStage];
      }
      assert failed == Unless(OutcomeStage, good) + Unless(CampaignStage, good) + Unless(TicketStage, good);
      if CostStage in good {
        call.FinaliseCost();
      } else {
        failed := failed + [CostStage];
      }
      FailedInOrder(good, failed);
    }
  }

  // ----- what any pattern of failures and retries comes to

  lemma {:induction false} TotalIsNotCounted(breakdown: seq<Component>, total: real)
    ensures Amounts(WithTotal(breakdown, total)) == Amounts(breakdown)
  {
    var t := Component("total", Some(total));
    if breakdown == [] {
      assert [t][..0] == [];
    } else {
      AmountsSplit(breakdown[0], breakdown[1..]);
      assert breakdown == [breakdown[0]] + breakdown[1..];
      if breakdown[0].key == "total" {
        AmountsSplit(t, breakdown[1..]);
      } else {
        TotalIsNotCounted(breakdown[1..], total);
        AmountsSplit(breakdown[0], WithTotal(breakdown[1..], total));
      }
    }
  }

  lemma {:induction false} AmountsSplit(first: Component, rest: seq<Component>)
    ensures Amounts([first] + rest)
         == (if first.key != "total" && first.amount.Some? then [first.amount.value] else []) + Amounts(rest)
  {
    if rest == [] {
      assert [first] + rest == [first];
      assert [first][..0] == [];
    } else {
      AmountsSplit(first, rest[..|rest| - 1]);
      assert ([first] + rest)[..|rest|] == [first] + rest[..|rest| - 1];
    }
  }

  lemma {:induction false} TotalTwice(breakdown: seq<Component>, total: real)
    ensures WithTotal(WithTotal(breakdown, total), total) == WithTotal(breakdown, total)
  {
    if breakdown != [] && breakdown[0].key != "total" {
      TotalTwice(breakdown[1..], total);
    }
  }

  lemma CostingTwice(c: CallFields)
    ensures Costed(Costed(c)) == Costed(c)
    ensures Costed(OutcomeSet(c)) == OutcomeSet(Costed(c))
  {
    if Amounts(c.breakdown) != [] {
      var total := Units.Quantize(Sum(Amounts(c.breakdown)), COST_SCALE);
      TotalIsNotCounted(c.breakdown, total);
      TotalTwice(c.breakdown, total);
    }
  }

  /** Whether a stage has succeeded in some run. */
  predicate Ever(runs: seq<set<Stage>>, stage: Stage) {
    exists i :: 0 <= i < |runs| && stage in runs[i]
  }

  /** What the runs so far have made of the call: each stage's effect once, whichever runs it succeeded in. */
  function CallAfter(c: CallFields, outcome: bool, cost: bool): CallFields {
    var set_ := if outcome then OutcomeSet(c) else c;
    if cost then Costed(set_) else set_
  }

  lemma EverSnoc(runs: seq<set<Stage>>, stage: Stage)
    requires runs != []
    ensures Ever(runs, stage) <==> Ever(runs[..|runs| - 1], stage) || stage in runs[|runs| - 1]
  {
  }

  lemma CallInRun(w: Work, good: set<Stage>)
    ensures RunOnce(w, good).call ==
      (var set_ := if OutcomeStage in good then OutcomeSet(w.call) else w.call;
       if CostStage in good then Costed(set_) else set_)
  {
  }

  lemma RunOnCall(c: CallFields, outcome: bool, cost: bool, good: set<Stage>, w: Work)
    requires w.call == CallAfter(c, outcome, cost)
    ensures RunOnce(w, good).call == CallAfter(c, outcome || OutcomeStage in good, cost || CostStage in good)
  {
    CallInRun(w, good);
    CostingTwice(c);
    CostingTwice(OutcomeSet(c));
  }

  lemma {:induction false} CallAfterRuns(w: Work, runs: seq<set<Stage>>)
    ensures Runs(w, runs).call == CallAfter(w.call, Ever(runs, OutcomeStage), Ever(runs, CostStage))
  {
    if runs != [] {
      var n := |runs| - 1;
      CallAfterRuns(w, runs[..n]);
      RunOnCall(w.call, Ever(runs[..n], OutcomeStage), Ever(runs[..n], CostStage), runs[n], Runs(w, runs[..n]));
      EverSnoc(runs, OutcomeStage);
      EverSnoc(runs, CostStage);
    }
  }

  lemma {:induction false} TicketsAfterRuns(w: Work, runs: seq<set<Stage>>)
    ensures Runs(w, runs).tickets
         == if w.tickets == 0 && Ever(runs, TicketStage) && NeedsFollowUp(w.call) then 1 else w.tickets
  {
    if runs != [] {
      var n := |runs| - 1;
      TicketsAfterRuns(w, runs[..n]);
      CallAfterRuns(w, runs[..n]);
      EverSnoc(runs, TicketStage);
    }
  }

  /** An outcome once set is never changed by any run, and a call without a ticket gets at most one. */
  lemma {:induction false} OutcomeAndTicketsAreStable(w: Work, runs: seq<set<Stage>>)
    ensures w.call.outcome.Some? ==> Runs(w, runs).call.outcome == w.call.outcome
    ensures w.tickets <= Runs(w, runs).tickets <= if w.tickets == 0 then 1 else w.tickets
  {
    CallAfterRuns(w, runs);
    TicketsAfterRuns(w, runs);
  }

  lemma CleanIs(w: Work)
    ensures CleanRun(w).call == CallAfter(w.call, true, true)
    ensures CleanRun(w).tickets == if w.tickets == 0 && NeedsFollowUp(w.call) then 1 else w.tickets
    ensures CleanRun(w).contact ==
      if w.contact.Some? then Some(ContactFinished(w.contact.value, OutcomeSet(w.call).outcome)) else None
  {
  }

  /**
   Once the outcome, ticket and cost stages have each succeeded in some run, whatever failed in between
   and however often the job ran, the call and its tickets are those of one clean run.
   */
  lemma RetriesConverge(w: Work, runs: seq<set<Stage>>)
    requires Ever(runs, OutcomeStage) && Ever(runs, TicketStage) && Ever(runs, CostStage)
    ensures Runs(w, runs).call == CleanRun(w).call
    ensures Runs(w, runs).tickets == CleanRun(w).tickets
  {
    CallAfterRuns(w, runs);
    TicketsAfterRuns(w, runs);
    CleanIs(w);
  }

  // ----- the campaign contact

  /** The outcome was known when the campaign stage first succeeded. */
  predicate OutcomeInTime(w: Work, runs: seq<set<Stage>>) {
    w.call.outcome.Some? ||
    exists k :: 0 <= k < |runs| && CampaignStage in runs[k] && Ever(runs[..k + 1], OutcomeStage)
      && !Ever(runs[..k], CampaignStage)
  }

  /** The contact after some runs, by what the call's outcome was when the campaign stage first succeeded. */
  function ContactAfter(w: Work, runs: seq<set<Stage>>): Option<ContactFields> {
    if w.contact == None || !Ever(runs, CampaignStage) then w.contact
    else
      Some(ContactFinished(w.contact.value, if OutcomeInTime(w, runs) then OutcomeSet(w.call).outcome else None))
  }

  lemma InTimeSnoc(w: Work, runs: seq<set<Stage>>)
    requires runs != []
    ensures var init := runs[..|runs| - 1];
      && (Ever(init, CampaignStage) ==> (OutcomeInTime(w, runs) <==> OutcomeInTime(w, init)))
      && (!Ever(init, CampaignStage) && CampaignStage in runs[|runs| - 1] ==>
           (OutcomeInTime(w, runs) <==> w.call.outcome.Some? || Ever(runs, OutcomeStage)))
  {
    var n := |runs| - 1;
    var init := runs[..n];
    assert runs[..n + 1] == runs;
    if !w.call.outcome.Some? {
      if OutcomeInTime(w, init) {
        var k :| 0 <= k < |init| && CampaignStage in init[k] && Ever(init[..k + 1], OutcomeStage)
          && !Ever(init[..k], CampaignStage);
        SamePrefixes(runs, k);
        assert CampaignStage in runs[k] && Ever(runs[..k + 1], OutcomeStage) && !Ever(runs[..k], CampaignStage);
      }
      if OutcomeInTime(w, runs) {
        var k :| 0 <= k < |runs| && CampaignStage in runs[k] && Ever(runs[..k + 1], OutcomeStage)
          && !Ever(runs[..k], CampaignStage);
        if k < n {
          SamePrefixes(runs, k);
          assert CampaignStage in init[k];
        }
      }
    }
  }

  lemma SamePrefixes(runs: seq<set<Stage>>, k: nat)
    requires k < |runs| - 1
    ensures runs[..|runs| - 1][..k] == runs[..k] && runs[..|runs| - 1][..k + 1] == runs[..k + 1]
  {
  }

  lemma {:induction false} ContactAfterRuns(w: Work, runs: seq<set<Stage>>)
    ensures Runs(w, runs).contact == ContactAfter(w, runs)
  {
    if runs != [] {
      var n := |runs| - 1;
      ContactAfterRuns(w, runs[..n]);
      ContactAfterOne(w, runs);
    }
  }

  /** The outcome a run's campaign stage sees. */
  lemma KnownInRun(w: Work, runs: seq<set<Stage>>)
    requires runs != []
    ensures var before := Runs(w, runs[..|runs| - 1]).call;
      (if OutcomeStage in runs[|runs| - 1] then OutcomeSet(before) else before).outcome
      == if Ever(runs, OutcomeStage) then OutcomeSet(w.call).outcome else w.call.outcome
  {
    CallAfterRuns(w, runs[..|runs| - 1]);
    EverSnoc(runs, OutcomeStage);
  }

  /** The campaign stage succeeds in the last run, and did before. */
  lemma ContactFinishedAgain(w: Work, runs: seq<set<Stage>>)
    requires runs != [] && Runs(w, runs[..|runs| - 1]).contact == ContactAfter(w, runs[..|runs| - 1])
    requires Ever(runs[..|runs| - 1], CampaignStage)
    ensures Runs(w, runs).contact == ContactAfter(w, runs)
  {
    var n := |runs| - 1;
    EverSnoc(runs, CampaignStage);
    InTimeSnoc(w, runs);
    if w.contact.Some? && CampaignStage in runs[n] {
      KnownInRun(w, runs);
    }
  }

  /** The campaign stage never succeeded before the last run. */
  lemma ContactFinishedFirst(w: Work, runs: seq<set<Stage>>)
    requires runs != [] && Runs(w, runs[..|runs| - 1]).contact == ContactAfter(w, runs[..|runs| - 1])
    requires !Ever(runs[..|runs| - 1], CampaignStage)
    ensures Runs(w, runs).contact == ContactAfter(w, runs)
  {
    var n := |runs| - 1;
    EverSnoc(runs, CampaignStage);
    if CampaignStage in runs[n] {
      InTimeSnoc(w, runs);
      KnownInRun(w, runs);
    }
  }

  lemma ContactAfterOne(w: Work, runs: seq<set<Stage>>)
    requires runs != [] && Runs(w, runs[..|runs| - 1]).contact == ContactAfter(w, runs[..|runs| - 1])
    ensures Runs(w, runs).contact == ContactAfter(w, runs)
  {
    if Ever(runs[..|runs| - 1], CampaignStage) {
      ContactFinishedAgain(w, runs);
    } else {
      ContactFinishedFirst(w, runs);
    }
  }

  /**
   Once the campaign stage has succeeded, the contact is the one a clean run leaves exactly when it was
   already decided, or the outcome was known by the time of that first success, or the outcome a clean
   run would have set reads for the contact as no outcome does.
   */
  lemma ContactConvergesIff(w: Work, runs: seq<set<Stage>>)
    requires w.contact.Some? && Ever(runs, CampaignStage)
    ensures Runs(w, runs).contact == CleanRun(w).contact <==>
      || Decided(w.contact.value)
      || OutcomeInTime(w, runs)
      || (!w.call.wasTransferred && !w.call.answered)
  {
    ContactAfterRuns(w, runs);
    CleanIs(w);
  }

  /** An answered call whose campaign stage succeeds before its outcome stage ever did. */
  lemma EarlyResultStays() returns (w: Work, runs: seq<set<Stage>>)
    ensures w.contact == Some(ContactFields(Dialing, None, false)) && w.call.answered
    ensures runs == [{CampaignStage}, ALL_STAGES]
    ensures Runs(w, runs).contact == Some(ContactFields(NoAnswer, Some("no_answer"), true))
    ensures CleanRun(w).contact == Some(ContactFields(Completed, Some("talked"), true))
  {
    w := Work(CallFields(None, false, false, true, None, []), Some(ContactFields(Dialing, None, false)), 0);
    runs := [{CampaignStage}, ALL_STAGES];
    var first: seq<set<Stage>> := [{CampaignStage}];
    assert runs[..|runs| - 1] == first && first[..|first| - 1] == [];
    assert Runs(w, first) == RunOnce(w, {CampaignStage});
    assert Runs(w, runs) == RunOnce(Runs(w, first), ALL_STAGES);
  }
}
