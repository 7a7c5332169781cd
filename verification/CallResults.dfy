/**
 What calls and dials leave behind, told by their outcomes in plain words: the results of
 apps/worker/src/worker/contacts.py, the job of apps/worker/src/worker/tasks.py that resolves stale
 dials, and the post-call pipeline of apps/worker/src/worker/postcall.py over any runs.
 */
module CallResults {
  import opened Wrappers
  import opened ContactStatuses
  import opened Reconciliation
  import opened PostCall
  import LandUnits
  import Units

  // ----- what an outcome means for the contact

  /** Opted out, failed, not answered, or completed; and whether the farmer pressed 1. */
  lemma ResultIs(outcome: Option<CallOutcome>)
    ensures var (status, result) := ContactResult(outcome);
      var failed := outcome == Some(SystemFailure) || outcome == Some(RejectedSpam);
      var unanswered := outcome == None || outcome == Some(NotReached) || outcome == Some(AbandonedSilence);
      && (status == OptedOut <==> outcome == Some(CallOptedOut)) && (status == Failed <==> failed)
      && (status == NoAnswer <==> unanswered)
      && (status == Completed <==> outcome != Some(CallOptedOut) && !failed && !unanswered)
      && (result == "pressed_1" <==> outcome == Some(OfferAccepted))
      && (result == "opted_out" <==> status == OptedOut) && (result == "failed" <==> status == Failed)
      && (result == "no_answer" <==> status == NoAnswer)
      && (result == "talked" <==> status == Completed && outcome != Some(OfferAccepted))
  {
  }

  /** A contact that is dialling or has no result takes the call's; any other keeps its own and is only linked. */
  lemma ContactIsFinished(p: ContactFields, outcome: Option<CallOutcome>)
    ensures var n := ContactFinished(p, outcome);
      && n.linked
      && (p.status == Dialing || p.outcome == None ==>
            n.status == ContactResult(outcome).0 && n.outcome == Some(ContactResult(outcome).1))
      && (p.status != Dialing && p.outcome.Some? ==> n.status == p.status && n.outcome == p.outcome)
  {
  }

  // ----- what becomes of a stale dial

  /**
   After three minutes a dial whose call has ended, or that never became one, is resolved: by the call's
   outcome, or as not answered, to be tried again a day later and three hours more for each attempt, if
   there were fewer than three.
   */
  lemma StaleDialIs(f: Fields, calls: map<nat, CallView>, now: int)
    ensures var n := Reconciled(f, calls, now);
      var stale := f.hasFarmer && f.status == Dialing
        && f.lastAttemptAt.Some? && now - f.lastAttemptAt.value > 180_000_000;
      if !stale || (f.callId.Some? && f.callId.value in calls && calls[f.callId.value].inProgress) then n == f
      else if f.callId.Some? && f.callId.value in calls then
        var (status, result) := ContactResult(calls[f.callId.value].outcome);
        n == f.(status := status, outcome := Some(result))
      else
        n == f.(status := NoAnswer, outcome := Some("no_answer"),
                nextAttemptAt := if f.attempts >= 3 then None
                                 else Some(f.lastAttemptAt.value + 86_400_000_000 + f.attempts * 10_800_000_000))
  {
  }

  // ----- what the pipeline leaves

  /** A missing outcome is that of a transfer, of a call nobody answered, or of one the caller ended. */
  lemma OutcomeLeft(w: Work, runs: seq<set<Stage>>)
    ensures Runs(w, runs).call.outcome ==
      if w.call.outcome.Some? || (forall i :: 0 <= i < |runs| ==> OutcomeStage !in runs[i]) then w.call.outcome
      else if w.call.wasTransferred then Some(Transferred)
      else if w.call.answered then Some(CallerHungUp)
      else Some(NotReached)
  {
    CallAfterRuns(w, runs);
  }

  /** A call without a ticket gets one exactly if it fell silent, failed, or was transferred and not taken. */
  lemma TicketLeft(w: Work, runs: seq<set<Stage>>)
    requires w.tickets == 0 && exists i :: 0 <= i < |runs| && TicketStage in runs[i]
    ensures Runs(w, runs).tickets == 1 <==>
      || w.call.outcome == Some(AbandonedSilence) || w.call.outcome == Some(SystemFailure)
      || (w.call.wasTransferred && !w.call.transferCompleted)
    ensures Runs(w, runs).tickets <= 1
  {
    TicketsAfterRuns(w, runs);
  }

  /** What the components other than the total add up to. */
  function Components(breakdown: seq<Component>): real {
    if breakdown == [] then 0.0
    else
      var last := breakdown[|breakdown| - 1];
      Components(breakdown[..|breakdown| - 1])
      + if last.key != "total" && last.amount.Some? then last.amount.value else 0.0
  }

  ghost predicate HasComponent(breakdown: seq<Component>) {
    exists c :: c in breakdown && c.key != "total" && c.amount.Some?
  }

  lemma SumSnoc(xs: seq<real>, x: real)
    ensures Sum(xs + [x]) == Sum(xs) + x
  {
    assert (xs + [x])[..|xs|] == xs;
  }

  lemma {:induction false} ComponentsAreSummed(breakdown: seq<Component>)
    ensures Sum(Amounts(breakdown)) == Components(breakdown)
  {
    if breakdown != [] {
      var n := |breakdown| - 1;
      ComponentsAreSummed(breakdown[..n]);
      var amounts := Amounts(breakdown[..n]);
      if breakdown[n].key != "total" && breakdown[n].amount.Some? {
        SumSnoc(amounts, breakdown[n].amount.value);
        assert Amounts(breakdown) == amounts + [breakdown[n].amount.value];
      } else {
        assert Amounts(breakdown) == amounts + [];
        assert amounts + [] == amounts;
      }
    }
  }

  lemma {:induction false} ComponentsAreFound(breakdown: seq<Component>)
    ensures Amounts(breakdown) != [] <==> HasComponent(breakdown)
  {
    if breakdown != [] {
      var n := |breakdown| - 1;
      ComponentsAreFound(breakdown[..n]);
      assert breakdown == breakdown[..n] + [breakdown[n]];
    }
  }

  /** The place of the total, or the end. */
  predicate TotalStands(breakdown: seq<Component>, k: nat) {
    && k <= |breakdown| && (forall j :: 0 <= j < k ==> breakdown[j].key != "total")
    && (k < |breakdown| ==> breakdown[k].key == "total")
  }

  lemma {:induction false} TotalIsSet(breakdown: seq<Component>, total: real, k: nat)
    requires TotalStands(breakdown, k)
    ensures WithTotal(breakdown, total)
         == breakdown[..k] + [Component("total", Some(total))] + if k < |breakdown| then breakdown[k + 1..] else []
  {
    if k > 0 {
      TotalIsSet(breakdown[1..], total, k - 1);
      assert breakdown[..k] == [breakdown[0]] + breakdown[1..][..k - 1];
      if k < |breakdown| {
        assert breakdown[1..][k..] == breakdown[k + 1..];
      }
    } else if breakdown == [] {
      assert breakdown[..0] == [];
    }
  }

  /**
   Once the cost stage has succeeded, and whatever ran before and after it, the total is the sum of the
   other components to four decimals, kept with the call and in its breakdown, where nothing else changes.
   */
  lemma CostLeft(w: Work, runs: seq<set<Stage>>, k: nat)
    requires TotalStands(w.call.breakdown, k) && exists i :: 0 <= i < |runs| && CostStage in runs[i]
    ensures var (b, n) := (w.call.breakdown, Runs(w, runs).call);
      if !HasComponent(b) then n.breakdown == b && n.costTotal == w.call.costTotal
      else
        && n.costTotal.Some? && LandUnits.ToFour(Components(b), n.costTotal.value)
        && n.breakdown == b[..k] + [Component("total", n.costTotal)] + if k < |b| then b[k + 1..] else []
  {
    CallAfterRuns(w, runs);
    ComponentsAreSummed(w.call.breakdown);
    ComponentsAreFound(w.call.breakdown);
    LandUnits.AreaIsToFour(Components(w.call.breakdown));
    TotalIsSet(w.call.breakdown, Units.Quantize(Components(w.call.breakdown), COST_SCALE), k);
  }
}
