/**
 The outbound gate of packages/domain/src/uaagro_domain/compliance.py: the per-contact checks, the
 report over a whole list, the dial-time answer for one contact, and the retry table.

 Instants are whole microseconds of UTC. Caller ids are read as ASCII.
 */
module Compliance {
  import opened Wrappers

  const SECOND := 1_000_000
  const HOUR := 3600 * SECOND
  const DAY := 24 * HOUR
  const IST_OFFSET := 5 * HOUR + HOUR / 2

  const WINDOW_OPEN := 9 * HOUR
  const WINDOW_CLOSE := 21 * HOUR
  const MAX_ATTEMPTS_PER_CONTACT := 3
  const MIN_GAP_BETWEEN_ATTEMPTS := 4 * HOUR
  const MAX_CONTACTS_PER_FARMER_PER_WEEK := 2

  datatype Check =
    | Consent | Dnd | InternalDnc | CallerIdSeries | DltRegistration | CallingWindow | FrequencyCap
    | DuplicateSuppression

  datatype ConsentType = PromotionalVoice | OtherConsent

  datatype Contact = Contact(
    farmerId: nat, phoneHash: nat,
    consentType: Option<ConsentType>, consentExpiresAt: Option<int>, consentRevoked: bool,
    isDnd: bool, internalDnc: bool,
    attempts: nat, lastAttemptAt: Option<int>, contactsThisWeek: nat, inAnotherLiveCampaign: bool)

  datatype CampaignSettings = CampaignSettings(
    isPromotional: bool, callerId: string, dltEntityId: string, dltTemplateId: string, dialAt: Option<int>)

  datatype GateReport = GateReport(removed: map<Check, nat>, blockedBy: seq<Check>, eligible: seq<Contact>, total: nat)

  predicate WithinCallingWindow(at: int) {
    WINDOW_OPEN <= (at + IST_OFFSET) % DAY <= WINDOW_CLOSE
  }

  function Digits(s: string): string {
    if s == "" then ""
    else (if '0' <= s[0] <= '9' then [s[0]] else "") + Digits(s[1..])
  }

  predicate IsValidPromotionalCli(callerId: string) {
    var digits := Digits(callerId);
    var national := if "91" <= digits && |digits| > 10 then digits[2..] else digits;
    "140" <= national
  }

  /** What each contact-level check refuses. The campaign-level checks refuse no contact. */
  predicate Fails(check: Check, c: Contact, campaign: CampaignSettings, now: int) {
    match check
    case Consent =>
      campaign.isPromotional &&
      !(c.consentType == Some(PromotionalVoice) && !c.consentRevoked
        && c.consentExpiresAt.Some? && c.consentExpiresAt.value > now)
    case Dnd => campaign.isPromotional && c.isDnd
    case InternalDnc => c.internalDnc
    case FrequencyCap =>
      || c.attempts >= MAX_ATTEMPTS_PER_CONTACT
      || (c.lastAttemptAt.Some? && now - c.lastAttemptAt.value < MIN_GAP_BETWEEN_ATTEMPTS)
      || c.contactsThisWeek >= MAX_CONTACTS_PER_FARMER_PER_WEEK
    case DuplicateSuppression => c.inAnotherLiveCampaign
    case _ => false
  }

  function When(holds: bool, check: Check): seq<Check> {
    if holds then [check] else []
  }

  function Listed(b0: bool, b1: bool, b2: bool, b3: bool, b4: bool): seq<Check> {
    When(b0, Consent) + When(b1, Dnd) + When(b2, InternalDnc) + When(b3, FrequencyCap) + When(b4, DuplicateSuppression)
  }

  /** Every check the contact fails, in the order the report lists them. */
  function FailuresOf(c: Contact, campaign: CampaignSettings, now: int): seq<Check> {
    Listed(Fails(Consent, c, campaign, now), Fails(Dnd, c, campaign, now), Fails(InternalDnc, c, campaign, now),
           Fails(FrequencyCap, c, campaign, now), Fails(DuplicateSuppression, c, campaign, now))
  }

  function FirstFailureOf(c: Contact, campaign: CampaignSettings, now: int): Option<Check> {
    var failures := FailuresOf(c, campaign, now);
    if failures == [] then None else Some(failures[0])
  }

  method ContactFailures(c: Contact, campaign: CampaignSettings, now: int) returns (failures: seq<Check>)
    ensures failures == FailuresOf(c, campaign, now)
  {
    failures := [];
    if campaign.isPromotional {
      var valid :=
        && c.consentType == Some(PromotionalVoice)
        && !c.consentRevoked
        && c.consentExpiresAt.Some?
        && c.consentExpiresAt.value > now;
      if !valid {
        failures := failures + [Consent];
      }
      if c.isDnd {
        failures := failures + [Dnd];
      }
    }
    assert failures == When(Fails(Consent, c, campaign, now), Consent) + When(Fails(Dnd, c, campaign, now), Dnd);
    ghost var consents := failures;
    if c.internalDnc {
      failures := failures + [InternalDnc];
    }
    assert failures == consents + When(Fails(InternalDnc, c, campaign, now), InternalDnc);
    ghost var early := failures;
    if c.attempts >= MAX_ATTEMPTS_PER_CONTACT {
      failures := failures + [FrequencyCap];
    } else if c.lastAttemptAt.Some? && now - c.lastAttemptAt.value < MIN_GAP_BETWEEN_ATTEMPTS {
      failures := failures + [FrequencyCap];
    } else if c.contactsThisWeek >= MAX_CONTACTS_PER_FARMER_PER_WEEK {
      failures := failures + [FrequencyCap];
    }
    assert failures == early + When(Fails(FrequencyCap, c, campaign, now), FrequencyCap);
    if c.inAnotherLiveCampaign {
      failures := failures + [DuplicateSuppression];
    }
    assert failures == early + When(Fails(FrequencyCap, c, campaign, now), FrequencyCap)
                       + When(Fails(DuplicateSuppression, c, campaign, now), DuplicateSuppression);
  }

  /** One failure is enough for the dialler: the answer, told by the contact's own fields. */
  method FirstFailure(c: Contact, campaign: CampaignSettings, now: int) returns (first: Option<Check>)
    ensures first == FirstFailureOf(c, campaign, now)
    ensures first == None <==>
      && !c.internalDnc && c.attempts < 3 && c.contactsThisWeek < 2 && !c.inAnotherLiveCampaign
      && (c.lastAttemptAt.Some? ==> now - c.lastAttemptAt.value >= 14_400_000_000)
      && (campaign.isPromotional ==>
            && !c.isDnd && !c.consentRevoked && c.consentType == Some(PromotionalVoice)
            && c.consentExpiresAt.Some? && c.consentExpiresAt.value > now)
  {
    AnswersAre(campaign, now);
    var failures := ContactFailures(c, campaign, now);
    first := if failures == [] then None else Some(failures[0]);
  }

  /** Who may be rung, told by the contact's own fields; the gap is four hours, in microseconds. */
  lemma AnswersAre(campaign: CampaignSettings, now: int)
    ensures forall c :: FirstFailureOf(c, campaign, now) == None <==>
      && !c.internalDnc && c.attempts < 3 && c.contactsThisWeek < 2 && !c.inAnotherLiveCampaign
      && (c.lastAttemptAt.Some? ==> now - c.lastAttemptAt.value >= 14_400_000_000)
      && (campaign.isPromotional ==>
            && !c.isDnd && !c.consentRevoked && c.consentType == Some(PromotionalVoice)
            && c.consentExpiresAt.Some? && c.consentExpiresAt.value > now)
  {
  }

  /**
   Which check the answer names: a promotional campaign's consent first, then the do-not-disturb list,
   then the internal one, then attempts, gap and week together, and last another live campaign.
   */
  lemma AnswerNames(c: Contact, campaign: CampaignSettings, now: int)
    ensures var consented := !c.consentRevoked && c.consentType == Some(PromotionalVoice)
        && c.consentExpiresAt.Some? && c.consentExpiresAt.value > now;
      var barred := campaign.isPromotional && (!consented || c.isDnd);
      var often := c.attempts >= 3 || c.contactsThisWeek >= 2
        || (c.lastAttemptAt.Some? && now - c.lastAttemptAt.value < 14_400_000_000);
      var first := FirstFailureOf(c, campaign, now);
      && (first == Some(Consent) <==> campaign.isPromotional && !consented)
      && (first == Some(Dnd) <==> campaign.isPromotional && consented && c.isDnd)
      && (first == Some(InternalDnc) <==> !barred && c.internalDnc)
      && (first == Some(FrequencyCap) <==> !barred && !c.internalDnc && often)
      && (first == Some(DuplicateSuppression) <==> !barred && !c.internalDnc && !often && c.inAnotherLiveCampaign)
  {
  }

  // ----- the report over a list

  function Eligible(contacts: seq<Contact>, campaign: CampaignSettings, now: int): seq<Contact> {
    if contacts == [] then []
    else
      var n := |contacts| - 1;
      Eligible(contacts[..n], campaign, now) +
      if FailuresOf(contacts[n], campaign, now) == [] then [contacts[n]] else []
  }

  /** How many contacts fail one check. */
  function Failing(check: Check, contacts: seq<Contact>, campaign: CampaignSettings, now: int): nat {
    if contacts == [] then 0
    else
      var n := |contacts| - 1;
      Failing(check, contacts[..n], campaign, now) + if Fails(check, contacts[n], campaign, now) then 1 else 0
  }

  predicate Blocks(check: Check, campaign: CampaignSettings, now: int) {
    match check
    case CallerIdSeries => campaign.isPromotional && !IsValidPromotionalCli(campaign.callerId)
    case DltRegistration => campaign.isPromotional && (campaign.dltEntityId == "" || campaign.dltTemplateId == "")
    case CallingWindow => !WithinCallingWindow(if campaign.dialAt.Some? then campaign.dialAt.value else now)
    case _ => false
  }

  /** The campaign may run at this instant: no campaign-level check blocks it. */
  predicate GatePasses(campaign: CampaignSettings, now: int) {
    && !Blocks(CallerIdSeries, campaign, now) && !Blocks(DltRegistration, campaign, now)
    && !Blocks(CallingWindow, campaign, now)
  }

  /** And these settings let it run at all: every instant of the calling window is one at which it may. */
  predicate GateCanPass(campaign: CampaignSettings) {
    && (campaign.isPromotional ==> IsValidPromotionalCli(campaign.callerId))
    && (campaign.isPromotional ==> campaign.dltEntityId != "" && campaign.dltTemplateId != "")
    && (campaign.dialAt.Some? ==> WithinCallingWindow(campaign.dialAt.value))
  }

  const NOTHING_REMOVED: map<Check, nat> := map[
    Consent := 0, Dnd := 0, InternalDnc := 0, CallerIdSeries := 0, DltRegistration := 0, CallingWindow := 0,
    FrequencyCap := 0, DuplicateSuppression := 0]

  lemma NothingRemovedIsZero()
    ensures forall check :: check in NOTHING_REMOVED && NOTHING_REMOVED[check] == 0
  {
    forall check: Check
      ensures check in NOTHING_REMOVED && NOTHING_REMOVED[check] == 0
    {
      assert check == Consent || check == Dnd || check == InternalDnc || check == CallerIdSeries
          || check == DltRegistration || check == CallingWindow || check == FrequencyCap
          || check == DuplicateSuppression;
    }
  }

  lemma NextContact(contacts: seq<Contact>, i: nat, campaign: CampaignSettings, now: int)
    requires i < |contacts|
    ensures var failures := FailuresOf(contacts[i], campaign, now);
      && Eligible(contacts[..i + 1], campaign, now)
         == Eligible(contacts[..i], campaign, now) + (if failures == [] then [contacts[i]] else [])
      && forall check :: Failing(check, contacts[..i + 1], campaign, now)
           == Failing(check, contacts[..i], campaign, now) + if check in failures then 1 else 0
  {
    assert contacts[..i + 1][..i] == contacts[..i];
    FailuresAreFailedChecks(contacts[i], campaign, now);
  }

  /** The campaign-level checks that block, in the report's order. */
  method BlockedBy(campaign: CampaignSettings, now: int) returns (blockedBy: seq<Check>)
    ensures forall check :: check in blockedBy <==> Blocks(check, campaign, now)
    ensures forall i, j :: 0 <= i < j < |blockedBy| ==> Rank(blockedBy[i]) < Rank(blockedBy[j])
    ensures blockedBy == [] <==> GatePasses(campaign, now)
  {
    blockedBy := [];
    if campaign.isPromotional && !IsValidPromotionalCli(campaign.callerId) {
      blockedBy := blockedBy + [CallerIdSeries];
    }
    if campaign.isPromotional && !(campaign.dltEntityId != "" && campaign.dltTemplateId != "") {
      blockedBy := blockedBy + [DltRegistration];
    }
    if !WithinCallingWindow(if campaign.dialAt.Some? then campaign.dialAt.value else now) {
      blockedBy := blockedBy + [CallingWindow];
    }
  }

  ghost predicate CountsFailing(
    removed: map<Check, nat>, contacts: seq<Contact>, campaign: CampaignSettings, now: int)
  {
    forall check :: check in removed && removed[check] == Failing(check, contacts, campaign, now)
  }

  lemma CountsGrow(
    before: map<Check, nat>, after: map<Check, nat>, contacts: seq<Contact>, i: nat, campaign: CampaignSettings,
    now: int)
    requires i < |contacts| && CountsFailing(before, contacts[..i], campaign, now) && after.Keys == before.Keys
    requires var reasons := FailuresOf(contacts[i], campaign, now);
      forall check :: check in before ==> after[check] == before[check] + if check in reasons then 1 else 0
    ensures CountsFailing(after, contacts[..i + 1], campaign, now)
  {
    NextContact(contacts, i, campaign, now);
  }

  method Evaluate(contacts: seq<Contact>, campaign: CampaignSettings, now: int) returns (report: GateReport)
    ensures report.total == |contacts|
    ensures report.eligible == Eligible(contacts, campaign, now)
    ensures forall c :: c in report.eligible <==>
      && c in contacts
      && !c.internalDnc && c.attempts < 3 && c.contactsThisWeek < 2 && !c.inAnotherLiveCampaign
      && (c.lastAttemptAt.Some? ==> now - c.lastAttemptAt.value >= 14_400_000_000)
      && (campaign.isPromotional ==>
            && !c.isDnd && !c.consentRevoked && c.consentType == Some(PromotionalVoice)
            && c.consentExpiresAt.Some? && c.consentExpiresAt.value > now)
    ensures CountsFailing(report.removed, contacts, campaign, now)
    ensures forall check :: check in report.blockedBy <==> Blocks(check, campaign, now)
    ensures forall i, j :: 0 <= i < j < |report.blockedBy| ==> Rank(report.blockedBy[i]) < Rank(report.blockedBy[j])
  {
    var removed := NOTHING_REMOVED;
    NothingRemovedIsZero();
    var blockedBy := BlockedBy(campaign, now);
    var eligible: seq<Contact> := [];
    for i := 0 to |contacts|
      invariant eligible == Eligible(contacts[..i], campaign, now)
      invariant CountsFailing(removed, contacts[..i], campaign, now)
    {
      var reasons := ContactFailures(contacts[i], campaign, now);
      NextContact(contacts, i, campaign, now);
      FailuresAreFailedChecks(contacts[i], campaign, now);
      ghost var before := removed;
      if reasons != [] {
        removed := AddOneEach(removed, reasons);
      } else {
        eligible := eligible + [contacts[i]];
      }
      CountsGrow(before, removed, contacts, i, campaign, now);
    }
    assert contacts[..|contacts|] == contacts;
    forall c
      ensures c in eligible <==> c in contacts && FirstFailureOf(c, campaign, now) == None
    {
      EligibleMembers(contacts, campaign, now, c);
    }
    AnswersAre(campaign, now);
    report := GateReport(removed, blockedBy, eligible, |contacts|);
  }

  /** One more for every reason in a list without repetitions. */
  method AddOneEach(removed: map<Check, nat>, reasons: seq<Check>) returns (r: map<Check, nat>)
    requires forall i, j :: 0 <= i < j < |reasons| ==> reasons[i] != reasons[j]
    requires forall reason :: reason in reasons ==> reason in removed
    ensures r.Keys == removed.Keys
    ensures forall check :: check in removed ==> r[check] == removed[check] + if check in reasons then 1 else 0
  {
    r := removed;
    for k := 0 to |reasons|
      invariant r.Keys == removed.Keys
      invariant forall check :: check in removed ==> r[check] == removed[check] + if check in reasons[..k] then 1 else 0
    {
      r := r[reasons[k] := r[reasons[k]] + 1];
    }
  }

  function Rank(check: Check): nat {
    match check
    case Consent => 0
    case Dnd => 1
    case InternalDnc => 2
    case CallerIdSeries => 3
    case DltRegistration => 4
    case CallingWindow => 5
    case FrequencyCap => 6
    case DuplicateSuppression => 7
  }

  /** Ranks rise along the list and stay below `rank`. */
  ghost predicate InOrderBelow(checks: seq<Check>, rank: nat) {
    checks == [] ||
    var last := checks[|checks| - 1];
    Rank(last) < rank && InOrderBelow(checks[..|checks| - 1], Rank(last))
  }

  lemma {:induction false} InOrderRises(checks: seq<Check>, rank: nat)
    requires InOrderBelow(checks, rank)
    ensures forall i, j :: 0 <= i < j < |checks| ==> Rank(checks[i]) < Rank(checks[j])
    ensures forall i :: 0 <= i < |checks| ==> Rank(checks[i]) < rank
  {
    if checks != [] {
      InOrderRises(checks[..|checks| - 1], Rank(checks[|checks| - 1]));
    }
  }

  lemma AppendWhen(checks: seq<Check>, rank: nat, holds: bool, check: Check)
    requires InOrderBelow(checks, rank) && rank <= Rank(check)
    ensures InOrderBelow(checks + When(holds, check), Rank(check) + 1)
  {
    if holds {
      assert (checks + [check])[..|checks|] == checks;
    } else {
      assert checks + [] == checks;
    }
  }

  lemma ListedInOrder(b0: bool, b1: bool, b2: bool, b3: bool, b4: bool)
    ensures InOrderBelow(Listed(b0, b1, b2, b3, b4), 8)
  {
    var f0: seq<Check> := [];
    var f1 := When(b0, Consent);
    var f2 := f1 + When(b1, Dnd);
    var f3 := f2 + When(b2, InternalDnc);
    var f4 := f3 + When(b3, FrequencyCap);
    assert f0 + f1 == f1;
    AppendWhen(f0, 0, b0, Consent);
    AppendWhen(f1, 1, b1, Dnd);
    AppendWhen(f2, 2, b2, InternalDnc);
    AppendWhen(f3, 3, b3, FrequencyCap);
    AppendWhen(f4, 7, b4, DuplicateSuppression);
  }

  lemma FailuresMember(c: Contact, campaign: CampaignSettings, now: int, check: Check)
    ensures check in FailuresOf(c, campaign, now) <==> Fails(check, c, campaign, now)
  {
  }

  lemma FailuresInOrder(c: Contact, campaign: CampaignSettings, now: int)
    ensures InOrderBelow(FailuresOf(c, campaign, now), 8)
  {
    ListedInOrder(Fails(Consent, c, campaign, now), Fails(Dnd, c, campaign, now), Fails(InternalDnc, c, campaign, now),
                  Fails(FrequencyCap, c, campaign, now), Fails(DuplicateSuppression, c, campaign, now));
  }

  ghost predicate ExactlyTheFailed(failures: seq<Check>, c: Contact, campaign: CampaignSettings, now: int) {
    && (forall check :: check in failures <==> Fails(check, c, campaign, now))
    && (forall i, j :: 0 <= i < j < |failures| ==> Rank(failures[i]) < Rank(failures[j]))
  }

  lemma FailuresAreFailedChecks(c: Contact, campaign: CampaignSettings, now: int)
    ensures ExactlyTheFailed(FailuresOf(c, campaign, now), c, campaign, now)
  {
    var failures := FailuresOf(c, campaign, now);
    FailuresInOrder(c, campaign, now);
    InOrderRises(failures, 8);
    forall check
      ensures check in failures <==> Fails(check, c, campaign, now)
    {
      FailuresMember(c, campaign, now, check);
    }
  }

  /** The dial-time answer is the earliest failed check of the report's order, or none. */
  lemma FirstFailureIsEarliest(c: Contact, campaign: CampaignSettings, now: int)
    ensures FirstFailureOf(c, campaign, now) == None <==> forall check :: !Fails(check, c, campaign, now)
    ensures forall first :: FirstFailureOf(c, campaign, now) == Some(first) <==>
      Fails(first, c, campaign, now) && forall check :: Fails(check, c, campaign, now) ==> Rank(first) <= Rank(check)
  {
  }

  /** All the removed counts of a report together. */
  function RemovedInAll(contacts: seq<Contact>, campaign: CampaignSettings, now: int): nat {
    Failing(Consent, contacts, campaign, now) + Failing(Dnd, contacts, campaign, now)
    + Failing(InternalDnc, contacts, campaign, now) + Failing(CallerIdSeries, contacts, campaign, now)
    + Failing(DltRegistration, contacts, campaign, now) + Failing(CallingWindow, contacts, campaign, now)
    + Failing(FrequencyCap, contacts, campaign, now) + Failing(DuplicateSuppression, contacts, campaign, now)
  }

  /** The removed counts add up to at least one and at most five for every excluded contact. */
  lemma {:induction false} RemovedCountsPerExcluded(contacts: seq<Contact>, campaign: CampaignSettings, now: int)
    ensures var excluded := |contacts| - |Eligible(contacts, campaign, now)|;
      0 <= excluded <= RemovedInAll(contacts, campaign, now) <= 5 * excluded
  {
    if contacts != [] {
      RemovedCountsPerExcluded(contacts[..|contacts| - 1], campaign, now);
    }
  }

  lemma {:induction false} EligibleMembers(contacts: seq<Contact>, campaign: CampaignSettings, now: int, c: Contact)
    ensures c in Eligible(contacts, campaign, now) <==> c in contacts && FirstFailureOf(c, campaign, now) == None
  {
    if contacts != [] {
      var n := |contacts| - 1;
      EligibleMembers(contacts[..n], campaign, now, c);
      assert contacts == contacts[..n] + [contacts[n]];
    }
  }

  // ----- what the figures of a report count

  function Many(contacts: seq<Contact>, which: Contact -> bool): nat {
    if contacts == [] then 0
    else Many(contacts[..|contacts| - 1], which) + if which(contacts[|contacts| - 1]) then 1 else 0
  }

  /** The contacts each check removes, counted by their own fields; the campaign-level checks remove none. */
  lemma {:induction false} RemovedAre(contacts: seq<Contact>, campaign: CampaignSettings, now: int)
    ensures Failing(Consent, contacts, campaign, now) == Many(contacts, (c: Contact) =>
      campaign.isPromotional && !(!c.consentRevoked && c.consentType == Some(PromotionalVoice)
        && c.consentExpiresAt.Some? && c.consentExpiresAt.value > now))
    ensures Failing(Dnd, contacts, campaign, now) == Many(contacts, (c: Contact) => campaign.isPromotional && c.isDnd)
    ensures Failing(InternalDnc, contacts, campaign, now) == Many(contacts, (c: Contact) => c.internalDnc)
    ensures Failing(FrequencyCap, contacts, campaign, now) == Many(contacts, (c: Contact) =>
      c.attempts >= 3 || c.contactsThisWeek >= 2
      || (c.lastAttemptAt.Some? && now - c.lastAttemptAt.value < 14_400_000_000))
    ensures Failing(DuplicateSuppression, contacts, campaign, now)
         == Many(contacts, (c: Contact) => c.inAnotherLiveCampaign)
    ensures Failing(CallerIdSeries, contacts, campaign, now) == 0 == Failing(DltRegistration, contacts, campaign, now)
    ensures Failing(CallingWindow, contacts, campaign, now) == 0
  {
    if contacts != [] {
      RemovedAre(contacts[..|contacts| - 1], campaign, now);
    }
  }

  // ----- the window, the caller id and the retries in plain figures

  /** The calling window is from 3:30 to 15:30 of every day by the clock of UTC, both instants included. */
  lemma WindowIs(day: int, time: int)
    requires 0 <= time < 86_400_000_000
    ensures WithinCallingWindow(day * 86_400_000_000 + time) <==> 12_600_000_000 <= time <= 55_800_000_000
  {
    if time < 66_600_000_000 {
      assert (day * 86_400_000_000 + time + IST_OFFSET) % DAY == time + IST_OFFSET;
    } else {
      assert (day * 86_400_000_000 + time + IST_OFFSET) % DAY == time + IST_OFFSET - DAY;
    }
  }

  lemma {:induction false} DigitsOfBoth(s: string, t: string)
    ensures Digits(s + t) == Digits(s) + Digits(t)
  {
    if s == "" {
      assert s + t == t;
    } else {
      assert (s + t)[1..] == s[1..] + t;
      DigitsOfBoth(s[1..], t);
    }
  }

  lemma DigitsOfOne(c: char)
    ensures Digits([c]) == if c in "0123456789" then [c] else ""
  {
    assert [c][1..] == "";
  }

  /** The 140 series, with or without the country code in front of it. */
  lemma CliIs(callerId: string)
    ensures IsValidPromotionalCli(callerId) <==>
      || "140" <= Digits(callerId)
      || ("91140" <= Digits(callerId) && |Digits(callerId)| > 10)
  {
    var digits := Digits(callerId);
    if |digits| > 10 {
      assert "91" <= digits <==> digits[0] == '9' && digits[1] == '1';
      assert "140" <= digits[2..] <==> digits[2] == '1' && digits[3] == '4' && digits[4] == '0';
      assert "91140" <= digits <==>
        digits[0] == '9' && digits[1] == '1' && digits[2] == '1' && digits[3] == '4' && digits[4] == '0';
    }
  }

  /** What blocks a campaign, by its own fields. */
  lemma BlocksWhen(campaign: CampaignSettings, now: int)
    ensures Blocks(CallerIdSeries, campaign, now) <==>
      campaign.isPromotional && !IsValidPromotionalCli(campaign.callerId)
    ensures Blocks(DltRegistration, campaign, now) <==>
      campaign.isPromotional && (campaign.dltEntityId == "" || campaign.dltTemplateId == "")
    ensures Blocks(CallingWindow, campaign, now) <==>
      if campaign.dialAt.Some? then !WithinCallingWindow(campaign.dialAt.value) else !WithinCallingWindow(now)
    ensures forall check :: Blocks(check, campaign, now) ==>
      check == CallerIdSeries || check == DltRegistration || check == CallingWindow
  {
  }

  /** When a contact is tried again: a day later and three hours more for each attempt, four hours later, or never. */
  lemma RetriedWhen(outcome: string, lastAttempt: int, attempts: nat)
    ensures var next := NextRetry(outcome, lastAttempt, attempts);
      && (outcome == "no_answer" ==>
            next == if attempts < 3 then Some(lastAttempt + 86_400_000_000 + attempts * 10_800_000_000) else None)
      && (outcome == "busy" ==> next == Some(lastAttempt + 14_400_000_000))
      && (outcome == "answering_machine" ==>
            next == if attempts == 0 then Some(lastAttempt + 86_400_000_000) else None)
      && (outcome !in ["no_answer", "busy", "answering_machine"] ==> next == None)
  {
  }

  // ----- the retry table

  function NextRetry(outcome: string, lastAttempt: int, attempts: nat): Option<int> {
    if outcome == "no_answer" then
      if attempts >= MAX_ATTEMPTS_PER_CONTACT then None else Some(lastAttempt + (24 + attempts * 3) * HOUR)
    else if outcome == "busy" then Some(lastAttempt + 4 * HOUR)
    else if outcome == "answering_machine" then if attempts >= 1 then None else Some(lastAttempt + 24 * HOUR)
    else None
  }
}
