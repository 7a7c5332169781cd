/**
 The contact loader of packages/db/src/uaagro_db/campaigns.py over explicit tables, full and narrowed
 to one farmer, and the agreement it gives between the approval gate and the dial-time recheck of
 apps/worker/src/worker/campaign.py.
 */
module CampaignTables {
  import opened Wrappers
  import opened Compliance
  import opened ContactStatuses

  datatype ContactRow = ContactRow(
    campaignId: nat, farmerId: Option<nat>, phoneHash: nat, status: ContactStatus, attempts: nat,
    lastAttemptAt: Option<int>)

  datatype Farmer = Farmer(phoneHash: nat, deleted: bool)

  datatype ConsentRecord = ConsentRecord(
    farmerId: nat, consentType: ConsentType, grantedAt: int, expiresAt: Option<int>, revokedAt: Option<int>)

  datatype DndStatus = DndStatus(isDnd: bool, internalDnc: bool)

  datatype CampaignStatus = Running | Scheduled | OtherStatus

  datatype Campaign = Campaign(status: CampaignStatus, createdAt: int)

  /** `dnd` is keyed by the unique phone hash; farmers and campaigns by their primary keys. */
  datatype Tables = Tables(
    contacts: seq<ContactRow>, farmers: map<nat, Farmer>, consents: seq<ConsentRecord>,
    dnd: map<nat, DndStatus>, campaigns: map<nat, Campaign>)

  // ----- the queries

  predicate Selected(db: Tables, campaignId: nat, only: Option<set<nat>>, row: ContactRow) {
    && row.campaignId == campaignId
    && row.farmerId.Some? && row.farmerId.value in db.farmers && !db.farmers[row.farmerId.value].deleted
    && (only.Some? ==> row.farmerId.value in only.value)
  }

  function SelectedRows(db: Tables, campaignId: nat, only: Option<set<nat>>, rows: seq<ContactRow>)
    : (r: seq<ContactRow>)
    ensures forall row :: row in r <==> row in rows && Selected(db, campaignId, only, row)
  {
    if rows == [] then []
    else
      (if Selected(db, campaignId, only, rows[0]) then [rows[0]] else [])
      + SelectedRows(db, campaignId, only, rows[1..])
  }

  /** The promotional-voice consent granted last; of two granted together, the earlier in the table. */
  function LatestConsent(consents: seq<ConsentRecord>, farmerId: nat): Option<ConsentRecord> {
    if consents == [] then None
    else
      var n := |consents| - 1;
      var earlier := LatestConsent(consents[..n], farmerId);
      if consents[n].farmerId == farmerId && consents[n].consentType == PromotionalVoice
         && (earlier.Some? ==> earlier.value.grantedAt < consents[n].grantedAt)
      then Some(consents[n]) else earlier
  }

  function LatestConsents(db: Tables, farmerIds: set<nat>): map<nat, ConsentRecord> {
    map f | f in farmerIds && LatestConsent(db.consents, f).Some? :: LatestConsent(db.consents, f).value
  }

  function DndByHash(db: Tables, hashes: set<nat>): map<nat, DndStatus> {
    map h | h in hashes && h in db.dnd :: db.dnd[h]
  }

  /** Monday 00:00 UTC of the ISO week; day 0, 1 January 1970, was a Thursday. */
  function WeekStart(now: int): int {
    var day := now / DAY;
    (day - (day + 3) % 7) * DAY
  }

  function AttemptedSince(rows: seq<ContactRow>, farmerId: nat, start: int): nat {
    if rows == [] then 0
    else
      var n := |rows| - 1;
      AttemptedSince(rows[..n], farmerId, start) +
      if rows[n].farmerId == Some(farmerId) && rows[n].lastAttemptAt.Some? && rows[n].lastAttemptAt.value >= start
      then 1 else 0
  }

  function ContactsThisWeek(db: Tables, farmerIds: set<nat>, now: int): map<nat, nat> {
    map f | f in farmerIds && AttemptedSince(db.contacts, f, WeekStart(now)) > 0 ::
      AttemptedSince(db.contacts, f, WeekStart(now))
  }

  predicate HeldElsewhere(db: Tables, farmerId: nat, campaignId: nat, now: int) {
    exists row :: row in db.contacts && row.farmerId == Some(farmerId) && row.campaignId != campaignId
      && row.campaignId in db.campaigns && !db.campaigns[row.campaignId].status.OtherStatus?
      && db.campaigns[row.campaignId].createdAt >= now - 7 * DAY
  }

  function InAnotherLiveCampaign(db: Tables, farmerIds: set<nat>, campaignId: nat, now: int): set<nat> {
    set f | f in farmerIds && HeldElsewhere(db, f, campaignId, now)
  }

  // ----- the loader

  /** Everything the gate needs about one row, read straight from the tables. */
  function ContactOf(db: Tables, campaignId: nat, now: int, row: ContactRow): Contact
    requires Selected(db, campaignId, None, row)
  {
    var f := row.farmerId.value;
    var hash := db.farmers[f].phoneHash;
    var consent := LatestConsent(db.consents, f);
    Contact(
      f, hash,
      if consent.Some? then Some(consent.value.consentType) else None,
      if consent.Some? then consent.value.expiresAt else None,
      consent.Some? && consent.value.revokedAt.Some?,
      hash in db.dnd && db.dnd[hash].isDnd,
      hash in db.dnd && db.dnd[hash].internalDnc,
      row.attempts, row.lastAttemptAt,
      AttemptedSince(db.contacts, f, WeekStart(now)),
      HeldElsewhere(db, f, campaignId, now))
  }

  function Loaded(db: Tables, campaignId: nat, now: int, rows: seq<ContactRow>): seq<Contact>
    requires forall row :: row in rows ==> Selected(db, campaignId, None, row)
  {
    seq(|rows|, i requires 0 <= i < |rows| => ContactOf(db, campaignId, now, rows[i]))
  }

  /** The four lookups the loader makes once for all its rows. */
  datatype Lookups = Lookups(
    consents: map<nat, ConsentRecord>, blocked: map<nat, DndStatus>, weekly: map<nat, nat>, elsewhere: set<nat>)

  function LookUp(db: Tables, farmerIds: set<nat>, hashes: set<nat>, campaignId: nat, now: int): Lookups {
    Lookups(LatestConsents(db, farmerIds), DndByHash(db, hashes), ContactsThisWeek(db, farmerIds, now),
            InAnotherLiveCampaign(db, farmerIds, campaignId, now))
  }

  function ContactFrom(found: Lookups, farmerId: nat, hash: nat, row: ContactRow): Contact {
    var consent := if farmerId in found.consents then Some(found.consents[farmerId]) else None;
    var dnd := if hash in found.blocked then Some(found.blocked[hash]) else None;
    Contact(
      farmerId, hash,
      if consent.Some? then Some(consent.value.consentType) else None,
      if consent.Some? then consent.value.expiresAt else None,
      consent.Some? && consent.value.revokedAt.Some?,
      dnd.Some? && dnd.value.isDnd,
      dnd.Some? && dnd.value.internalDnc,
      row.attempts, row.lastAttemptAt,
      if farmerId in found.weekly then found.weekly[farmerId] else 0,
      farmerId in found.elsewhere)
  }

  /** Narrowing the lookups loses nothing for a farmer they were narrowed to. */
  lemma NarrowLookupsSuffice(
    db: Tables, farmerIds: set<nat>, hashes: set<nat>, campaignId: nat, now: int, row: ContactRow)
    requires Selected(db, campaignId, None, row)
    requires row.farmerId.value in farmerIds && db.farmers[row.farmerId.value].phoneHash in hashes
    ensures var f := row.farmerId.value;
      ContactFrom(LookUp(db, farmerIds, hashes, campaignId, now), f, db.farmers[f].phoneHash, row)
      == ContactOf(db, campaignId, now, row)
  {
  }

  predicate HasFarmer(farmers: map<nat, Farmer>, row: ContactRow) {
    row.farmerId.Some? && row.farmerId.value in farmers
  }

  /** One pass over the rows with the shared lookups. */
  method ContactsFrom(found: Lookups, farmers: map<nat, Farmer>, rows: seq<ContactRow>) returns (contacts: seq<Contact>)
    requires forall k :: 0 <= k < |rows| ==> HasFarmer(farmers, rows[k])
    ensures |contacts| == |rows|
    ensures forall k :: 0 <= k < |rows| ==>
      HasFarmer(farmers, rows[k]) &&
      contacts[k] == ContactFrom(found, rows[k].farmerId.value, farmers[rows[k].farmerId.value].phoneHash, rows[k])
  {
    contacts := [];
    for i := 0 to |rows|
      invariant |contacts| == i
      invariant forall k :: 0 <= k < i ==>
        HasFarmer(farmers, rows[k]) &&
        contacts[k] == ContactFrom(found, rows[k].farmerId.value, farmers[rows[k].farmerId.value].phoneHash, rows[k])
    {
      assert HasFarmer(farmers, rows[i]);
      var f := rows[i].farmerId.value;
      contacts := contacts + [ContactFrom(found, f, farmers[f].phoneHash, rows[i])];
    }
  }

  /** The loader. */
  method LoadContacts(db: Tables, campaignId: nat, only: Option<set<nat>>, now: int) returns (contacts: seq<Contact>)
    ensures contacts == Loaded(db, campaignId, now, SelectedRows(db, campaignId, only, db.contacts))
  {
    var rows := SelectedRows(db, campaignId, only, db.contacts);
    if rows == [] {
      return [];
    }
    var farmerIds := set row | row in rows && row.farmerId.Some? :: row.farmerId.value;
    var hashes := set f | f in farmerIds && f in db.farmers :: db.farmers[f].phoneHash;
    assert forall row :: row in rows ==> HasFarmer(db.farmers, row);
    assert forall k :: 0 <= k < |rows| ==> rows[k] in rows;
    contacts := ContactsFrom(LookUp(db, farmerIds, hashes, campaignId, now), db.farmers, rows);
    AllRowsLoaded(db, farmerIds, hashes, campaignId, now, rows, contacts);
  }

  lemma AllRowsLoaded(
    db: Tables, farmerIds: set<nat>, hashes: set<nat>, campaignId: nat, now: int, rows: seq<ContactRow>,
    contacts: seq<Contact>)
    requires forall row :: row in rows ==> Selected(db, campaignId, None, row)
    requires forall row :: row in rows ==> row.farmerId.Some? && row.farmerId.value in farmerIds
    requires forall f :: f in farmerIds && f in db.farmers ==> db.farmers[f].phoneHash in hashes
    requires |contacts| == |rows|
    requires forall k :: 0 <= k < |rows| ==>
      HasFarmer(db.farmers, rows[k]) &&
      contacts[k] == ContactFrom(LookUp(db, farmerIds, hashes, campaignId, now), rows[k].farmerId.value,
                                 db.farmers[rows[k].farmerId.value].phoneHash, rows[k])
    ensures contacts == Loaded(db, campaignId, now, rows)
  {
  }

  // ----- the gate and the recheck

  /** A campaign lists a farmer at most once. */
  ghost predicate FarmersUnique(db: Tables, campaignId: nat) {
    UniqueAmong(db, campaignId, db.contacts)
  }

  ghost predicate UniqueAmong(db: Tables, campaignId: nat, rows: seq<ContactRow>) {
    forall i, j | 0 <= i < j < |rows| ::
      Selected(db, campaignId, None, rows[i]) && Selected(db, campaignId, None, rows[j]) ==>
        rows[i].farmerId != rows[j].farmerId
  }

  /** The unique key on (campaign, phone hash) gives it, once each row carries its farmer's hash. */
  lemma UniqueHashesUniqueFarmers(db: Tables, campaignId: nat)
    requires forall i, j | 0 <= i < j < |db.contacts| ::
      db.contacts[i].campaignId == db.contacts[j].campaignId ==> db.contacts[i].phoneHash != db.contacts[j].phoneHash
    requires forall row | row in db.contacts ::
      row.farmerId.Some? && row.farmerId.value in db.farmers ==>
        row.phoneHash == db.farmers[row.farmerId.value].phoneHash
    ensures FarmersUnique(db, campaignId)
  {
  }

  /** The dial-time reload of one farmer: the first row the narrowed loader returns. */
  function Reload(db: Tables, campaignId: nat, farmerId: nat, now: int): Option<Contact> {
    var rows := SelectedRows(db, campaignId, Some({farmerId}), db.contacts);
    if rows == [] then None else Some(Loaded(db, campaignId, now, rows)[0])
  }

  /** A contact that has vanished is refused as if it were on the internal do-not-call list. */
  function Recheck(db: Tables, campaignId: nat, farmerId: nat, settings: CampaignSettings, now: int): Option<Check> {
    match Reload(db, campaignId, farmerId, now)
    case None => Some(InternalDnc)
    case Some(c) => FirstFailureOf(c, settings, now)
  }

  method RecheckContact(db: Tables, campaignId: nat, farmerId: nat, settings: CampaignSettings, now: int)
    returns (failure: Option<Check>)
    ensures failure == Recheck(db, campaignId, farmerId, settings, now)
  {
    var current := LoadContacts(db, campaignId, Some({farmerId}), now);
    if current == [] {
      return Some(InternalDnc);
    }
    failure := FirstFailure(current[0], settings, now);
  }

  lemma {:induction false} NarrowedToOne(db: Tables, campaignId: nat, rows: seq<ContactRow>, row: ContactRow)
    requires Selected(db, campaignId, None, row)
    requires UniqueAmong(db, campaignId, rows)
    ensures row in rows ==> SelectedRows(db, campaignId, Some({row.farmerId.value}), rows) == [row]
    ensures row !in rows && (forall r :: r in rows && Selected(db, campaignId, None, r) ==> r.farmerId != row.farmerId)
      ==> SelectedRows(db, campaignId, Some({row.farmerId.value}), rows) == []
  {
    if rows != [] {
      NarrowedToOne(db, campaignId, rows[1..], row);
      assert rows == [rows[0]] + rows[1..];
      if rows[0] == row {
        forall r | r in rows[1..] && Selected(db, campaignId, None, r)
          ensures r.farmerId != row.farmerId
        {
          var j :| 0 <= j < |rows[1..]| && rows[1..][j] == r;
          assert rows[j + 1] == r;
        }
        assert row !in rows[1..];
      } else if row in rows {
        var j :| 0 <= j < |rows| && rows[j] == row;
        assert !Selected(db, campaignId, Some({row.farmerId.value}), rows[0]);
      }
    }
  }

  /**
   On one state of the tables and at one instant, a listed contact is in the gate's eligible list
   exactly when its own narrowed reload passes the recheck.
   */
  lemma GateAgreesWithRecheck(db: Tables, campaignId: nat, row: ContactRow, settings: CampaignSettings, now: int)
    requires FarmersUnique(db, campaignId)
    requires row in db.contacts && Selected(db, campaignId, None, row)
    ensures var loaded := Loaded(db, campaignId, now, SelectedRows(db, campaignId, None, db.contacts));
      (ContactOf(db, campaignId, now, row) in Eligible(loaded, settings, now)) ==
      (Recheck(db, campaignId, row.farmerId.value, settings, now) == None)
  {
    var rows := SelectedRows(db, campaignId, None, db.contacts);
    var c := ContactOf(db, campaignId, now, row);
    NarrowedToOne(db, campaignId, db.contacts, row);
    assert Reload(db, campaignId, row.farmerId.value, now) == Some(c);
    EligibleMembers(Loaded(db, campaignId, now, rows), settings, now, c);
    var i :| 0 <= i < |rows| && rows[i] == row;
    assert Loaded(db, campaignId, now, rows)[i] == c;
  }

  /** A farmer the campaign does not list is never passed. */
  lemma UnlistedFarmerIsRefused(db: Tables, campaignId: nat, farmerId: nat, settings: CampaignSettings, now: int)
    requires forall row :: row in db.contacts && Selected(db, campaignId, None, row) ==> row.farmerId.value != farmerId
    ensures Recheck(db, campaignId, farmerId, settings, now) == Some(InternalDnc)
  {
    var rows := SelectedRows(db, campaignId, Some({farmerId}), db.contacts);
    if rows != [] {
      assert rows[0] in rows;
      assert Selected(db, campaignId, None, rows[0]);
    }
  }

  // ----- what the loader does not look at

  /** The same rows but for the statuses they are stored with. */
  ghost predicate RowsButStatus(rows: seq<ContactRow>, others: seq<ContactRow>) {
    |rows| == |others| && forall k :: 0 <= k < |rows| ==> rows[k] == others[k].(status := rows[k].status)
  }

  lemma {:induction false} AttemptedIgnoresStatus(
    rows: seq<ContactRow>, others: seq<ContactRow>, farmerId: nat, start: int)
    requires RowsButStatus(rows, others)
    ensures AttemptedSince(rows, farmerId, start) == AttemptedSince(others, farmerId, start)
  {
    if rows != [] {
      var n := |rows| - 1;
      AttemptedIgnoresStatus(rows[..n], others[..n], farmerId, start);
    }
  }

  lemma ContactIgnoresStatus(
    db: Tables, others: seq<ContactRow>, campaignId: nat, now: int, row: ContactRow, status: ContactStatus)
    requires RowsButStatus(db.contacts, others) && Selected(db, campaignId, None, row)
    ensures var changed := row.(status := status);
      && Selected(db.(contacts := others), campaignId, None, changed)
      && ContactOf(db, campaignId, now, row) == ContactOf(db.(contacts := others), campaignId, now, changed)
  {
    var f := row.farmerId.value;
    AttemptedIgnoresStatus(db.contacts, others, f, WeekStart(now));
  }

  lemma {:induction false} SelectionIgnoresStatus(
    db: Tables, others: seq<ContactRow>, campaignId: nat, only: Option<set<nat>>, rows: seq<ContactRow>,
    changed: seq<ContactRow>)
    requires RowsButStatus(rows, changed)
    ensures RowsButStatus(SelectedRows(db, campaignId, only, rows),
                          SelectedRows(db.(contacts := others), campaignId, only, changed))
  {
    if rows != [] {
      SelectionIgnoresStatus(db, others, campaignId, only, rows[1..], changed[1..]);
    }
  }

  /** The loader gives the same contacts, in the same order, whatever statuses they are stored with. */
  lemma LoadingIgnoresStatus(db: Tables, others: seq<ContactRow>, campaignId: nat, only: Option<set<nat>>, now: int)
    requires RowsButStatus(db.contacts, others)
    ensures var changed := db.(contacts := others);
      Loaded(db, campaignId, now, SelectedRows(db, campaignId, only, db.contacts))
      == Loaded(changed, campaignId, now, SelectedRows(changed, campaignId, only, others))
  {
    var changed := db.(contacts := others);
    var rows, rows' := SelectedRows(db, campaignId, only, db.contacts), SelectedRows(changed, campaignId, only, others);
    SelectionIgnoresStatus(db, others, campaignId, only, db.contacts, others);
    forall k | 0 <= k < |rows|
      ensures rows[k] in rows && rows'[k] in rows'
        && ContactOf(db, campaignId, now, rows[k]) == ContactOf(changed, campaignId, now, rows'[k])
    {
      assert rows[k] in rows && rows'[k] in rows';
      ContactIgnoresStatus(db, others, campaignId, now, rows[k], rows'[k].status);
      assert rows'[k] == rows[k].(status := rows'[k].status);
    }
  }
}
