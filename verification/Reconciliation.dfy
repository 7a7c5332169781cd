/**
 Resolving dials that never became calls: `reconcile_contacts` of apps/worker/src/worker/tasks.py and
 the outcome table of apps/worker/src/worker/contacts.py. Contacts are objects the loop updates in
 place.
 */
module Reconciliation {
  import opened Wrappers
  import opened Compliance
  import opened ContactStatuses

  const DIAL_STALE_AFTER := 180 * SECOND

  datatype CallOutcome =
    | Resolved | Transferred | TicketCreated | AbandonedSilence | CallerHungUp | CallOptedOut | OfferAccepted
    | OfferDeclined | NotReached | SystemFailure | RejectedSpam

  /** A call row as the outer join sees it. */
  datatype CallView = CallView(inProgress: bool, outcome: Option<CallOutcome>)

  function ContactResult(outcome: Option<CallOutcome>): (ContactStatus, string) {
    match outcome
    case None => (NoAnswer, "no_answer")
    case Some(OfferAccepted) => (Completed, "pressed_1")
    case Some(OfferDeclined) => (Completed, "talked")
    case Some(CallOptedOut) => (OptedOut, "opted_out")
    case Some(NotReached) => (NoAnswer, "no_answer")
    case Some(SystemFailure) => (Failed, "failed")
    case Some(RejectedSpam) => (Failed, "failed")
    case Some(AbandonedSilence) => (NoAnswer, "no_answer")
    case Some(_) => (Completed, "talked")
  }

  /** The fields of a contact the job reads or writes. `hasFarmer`: its farmer row exists. */
  datatype Fields = Fields(
    status: ContactStatus, outcome: Option<string>, attempts: nat, lastAttemptAt: Option<int>,
    nextAttemptAt: Option<int>, callId: Option<nat>, hasFarmer: bool)

  class CampaignContact {
    var status: ContactStatus
    var outcome: Option<string>
    var attempts: nat
    var lastAttemptAt: Option<int>
    var nextAttemptAt: Option<int>
    var callId: Option<nat>
    const hasFarmer: bool

    constructor (f: Fields)
      ensures Value() == f
    {
      status, outcome, attempts, lastAttemptAt := f.status, f.outcome, f.attempts, f.lastAttemptAt;
      nextAttemptAt, callId, hasFarmer := f.nextAttemptAt, f.callId, f.hasFarmer;
    }

    function Value(): Fields
      reads this
    {
      Fields(status, outcome, attempts, lastAttemptAt, nextAttemptAt, callId, hasFarmer)
    }

    /** The body of the job's loop, for a contact its query selected or not. */
    method Reconcile(calls: map<nat, CallView>, now: int) returns (resolved: bool)
      modifies this
      ensures Value() == Reconciled(old(Value()), calls, now)
      ensures resolved <==> Resolves(old(Value()), calls, now)
    {
      var staleBefore := now - DIAL_STALE_AFTER;
      if !(hasFarmer && status == Dialing && lastAttemptAt.Some? && lastAttemptAt.value < staleBefore) {
        return false;
      }
      var call := if callId.Some? && callId.value in calls then Some(calls[callId.value]) else None;
      if call.Some? && call.value.inProgress {
        return false;
      }
      if call.Some? {
        var (s, o) := ContactResult(call.value.outcome);
        status, outcome := s, Some(o);
      } else {
        status, outcome := NoAnswer, Some("no_answer");
        if lastAttemptAt.Some? {
          nextAttemptAt := NextRetry("no_answer", lastAttemptAt.value, attempts);
        }
      }
      return true;
    }
  }

  /** What the job's query selects. */
  predicate Stale(f: Fields, now: int) {
    f.hasFarmer && f.status == Dialing && f.lastAttemptAt.Some? && f.lastAttemptAt.value < now - DIAL_STALE_AFTER
  }

  function CallOf(f: Fields, calls: map<nat, CallView>): Option<CallView> {
    if f.callId.Some? && f.callId.value in calls then Some(calls[f.callId.value]) else None
  }

  predicate Resolves(f: Fields, calls: map<nat, CallView>, now: int) {
    Stale(f, now) && !(CallOf(f, calls).Some? && CallOf(f, calls).value.inProgress)
  }

  /** What one pass makes of one contact. */
  function Reconciled(f: Fields, calls: map<nat, CallView>, now: int): Fields {
    if !Resolves(f, calls, now) then f
    else
      match CallOf(f, calls)
      case Some(call) =>
        var (status, outcome) := ContactResult(call.outcome);
        f.(status := status, outcome := Some(outcome))
      case None =>
        f.(status := NoAnswer, outcome := Some("no_answer"),
           nextAttemptAt := NextRetry("no_answer", f.lastAttemptAt.value, f.attempts))
  }

  function Resolutions(fs: seq<Fields>, calls: map<nat, CallView>, now: int): nat {
    if fs == [] then 0
    else Resolutions(fs[..|fs| - 1], calls, now) + if Resolves(fs[|fs| - 1], calls, now) then 1 else 0
  }

  function Values(contacts: seq<CampaignContact>): seq<Fields>
    reads contacts
  {
    seq(|contacts|, i requires 0 <= i < |contacts| reads contacts => contacts[i].Value())
  }

  /** One pass of the job over the contact table. */
  method ReconcileContacts(contacts: seq<CampaignContact>, calls: map<nat, CallView>, now: int) returns (resolved: nat)
    requires forall i, j :: 0 <= i < j < |contacts| ==> contacts[i] != contacts[j]
    modifies contacts
    ensures forall i :: 0 <= i < |contacts| ==> contacts[i].Value() == Reconciled(old(contacts[i].Value()), calls, now)
    ensures resolved == Resolutions(old(Values(contacts)), calls, now)
  {
    ghost var before := Values(contacts);
    resolved := 0;
    for i := 0 to |contacts|
      invariant forall k :: 0 <= k < i ==> contacts[k].Value() == Reconciled(before[k], calls, now)
      invariant forall k :: i <= k < |contacts| ==> contacts[k].Value() == before[k]
      invariant resolved == Resolutions(before[..i], calls, now)
    {
      assert before[..i + 1][..i] == before[..i];
      var did := contacts[i].Reconcile(calls, now);
      if did {
        resolved := resolved + 1;
      }
    }
    assert before[..|contacts|] == before;
  }

  // ----- what a pass promises

  /** A second pass at the same time, over the same calls, changes nothing. */
  lemma PassIsIdempotent(f: Fields, calls: map<nat, CallView>, now: int)
    ensures Reconciled(Reconciled(f, calls, now), calls, now) == Reconciled(f, calls, now)
    ensures !Resolves(Reconciled(f, calls, now), calls, now)
  {
  }

  lemma ResultIsNeverDialing(f: Fields, calls: map<nat, CallView>, now: int)
    ensures Resolves(f, calls, now) ==> Reconciled(f, calls, now).status != Dialing
  {
  }

  /**
   A pass changes a contact exactly when it was stale with no call in progress, and then leaves it in
   a status other than dialling; so no contact with a farmer stays stale without a call in progress.
   */
  lemma OnlyStaleDialsChange(f: Fields, calls: map<nat, CallView>, now: int)
    ensures Reconciled(f, calls, now) != f <==> Resolves(f, calls, now)
    ensures Stale(Reconciled(f, calls, now), now) ==>
      CallOf(f, calls).Some? && CallOf(f, calls).value.inProgress && Reconciled(f, calls, now) == f
  {
  }

  /**
   A pass schedules a retry time exactly below the attempt cap, and at that time or later the gate's
   frequency check no longer holds the contact back for its attempts or their spacing.
   */
  lemma ScheduledRetryClearsTheGate(
    f: Fields, calls: map<nat, CallView>, now: int, c: Contact, campaign: CampaignSettings, at: int)
    requires Resolves(f, calls, now) && CallOf(f, calls) == None
    requires c.attempts == f.attempts && c.lastAttemptAt == f.lastAttemptAt
    requires c.contactsThisWeek < MAX_CONTACTS_PER_FARMER_PER_WEEK
    ensures var next := Reconciled(f, calls, now).nextAttemptAt;
      && (next.Some? <==> f.attempts < MAX_ATTEMPTS_PER_CONTACT)
      && (next.Some? ==> next.value - f.lastAttemptAt.value >= MIN_GAP_BETWEEN_ATTEMPTS)
      && (next.Some? && at >= next.value ==> !Fails(FrequencyCap, c, campaign, at))
  {
  }

  /** A dialling contact whose farmer row is missing is never resolved, however long it waits. */
  lemma FarmerlessDialStays(f: Fields, calls: map<nat, CallView>, now: int)
    requires f.status == Dialing && (f.lastAttemptAt.Some? ==> f.lastAttemptAt.value < now - DIAL_STALE_AFTER)
    ensures Reconciled(f, calls, now).status == Dialing <==>
      !f.hasFarmer || f.lastAttemptAt == None || (CallOf(f, calls).Some? && CallOf(f, calls).value.inProgress)
  {
  }
}
