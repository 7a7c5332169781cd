/**
 What the loader of packages/db/src/uaagro_db/campaigns.py and the dial-time recheck of
 apps/worker/src/worker/campaign.py say of a contact, told by the tables alone.
 */
module LoadedContacts {
  import opened Wrappers
  import opened Compliance
  import opened CampaignTables

  // ----- consents

  predicate Promotional(r: ConsentRecord, farmerId: nat) {
    r.farmerId == farmerId && r.consentType == PromotionalVoice
  }

  /** The farmer's promotional consent that no other postdates; of those granted together, the first that stands. */
  predicate Newest(consents: seq<ConsentRecord>, farmerId: nat, i: nat) {
    && i < |consents| && Promotional(consents[i], farmerId)
    && forall j :: 0 <= j < |consents| && Promotional(consents[j], farmerId) ==>
         if j < i then consents[j].grantedAt < consents[i].grantedAt else consents[j].grantedAt <= consents[i].grantedAt
  }

  lemma NewestIsOne(consents: seq<ConsentRecord>, farmerId: nat, i: nat, j: nat)
    requires Newest(consents, farmerId, i) && Newest(consents, farmerId, j)
    ensures i == j
  {
  }

  /** The consent looked up is the newest, and none is looked up only where there is none. */
  lemma {:induction false} LatestIsNewest(consents: seq<ConsentRecord>, farmerId: nat) returns (i: nat)
    ensures match LatestConsent(consents, farmerId)
      case None => forall r :: r in consents ==> !Promotional(r, farmerId)
      case Some(r) => Newest(consents, farmerId, i) && consents[i] == r
  {
    i := 0;
    if consents != [] {
      var n := |consents| - 1;
      i := LatestIsNewest(consents[..n], farmerId);
      assert consents == consents[..n] + [consents[n]];
      if LatestConsent(consents, farmerId) != LatestConsent(consents[..n], farmerId)
        || LatestConsent(consents[..n], farmerId) == None
      {
        i := n;
      }
    }
  }

  // ----- attempts in the week

  /** Monday 0:00 UTC, seven days at a time; day 4 of 1970 was the first Monday. */
  function Monday(week: int): int {
    (7 * week + 4) * 86_400_000_000
  }

  lemma WeekStartIs(week: int, time: int)
    requires 0 <= time < 604_800_000_000
    ensures WeekStart(Monday(week) + time) == Monday(week)
  {
    var day := time / DAY;
    assert (Monday(week) + time) / DAY == 7 * week + 4 + day;
    assert (7 * week + 4 + day + 3) % 7 == day;
  }

  /** The farmer's rows attempted since an instant. */
  function AttemptedRows(rows: seq<ContactRow>, farmerId: nat, start: int): set<nat> {
    set i: nat | i < |rows| && rows[i].farmerId == Some(farmerId)
      && rows[i].lastAttemptAt.Some? && rows[i].lastAttemptAt.value >= start
  }

  lemma {:induction false} AttemptedIsCounted(rows: seq<ContactRow>, farmerId: nat, start: int)
    ensures AttemptedSince(rows, farmerId, start) == |AttemptedRows(rows, farmerId, start)|
  {
    if rows == [] {
      assert AttemptedRows(rows, farmerId, start) == {};
    } else {
      var n := |rows| - 1;
      AttemptedIsCounted(rows[..n], farmerId, start);
      var earlier := AttemptedRows(rows[..n], farmerId, start);
      if rows[n].farmerId == Some(farmerId) && rows[n].lastAttemptAt.Some? && rows[n].lastAttemptAt.value >= start {
        assert AttemptedRows(rows, farmerId, start) == earlier + {n};
      } else {
        assert AttemptedRows(rows, farmerId, start) == earlier;
      }
    }
  }

  // ----- what is loaded

  /** The rows that are read: those of the campaign whose farmer is known and not deleted, and asked for. */
  lemma RowsAre(db: Tables, campaignId: nat, only: Option<set<nat>>, row: ContactRow)
    ensures row in SelectedRows(db, campaignId, only, db.contacts) <==>
      && row in db.contacts && row.campaignId == campaignId
      && row.farmerId.Some? && row.farmerId.value in db.farmers && !db.farmers[row.farmerId.value].deleted
      && (only.Some? ==> row.farmerId.value in only.value)
  {
  }

  /** The farmer is on the list of another campaign that runs or is scheduled, created in the last seven days. */
  ghost predicate OnAnotherList(db: Tables, campaignId: nat, farmerId: nat, now: int) {
    exists row :: row in db.contacts && row.farmerId == Some(farmerId) && row.campaignId != campaignId
      && row.campaignId in db.campaigns
      && (db.campaigns[row.campaignId].status == Running || db.campaigns[row.campaignId].status == Scheduled)
      && now - db.campaigns[row.campaignId].createdAt <= 604_800_000_000
  }

  lemma ConsentLoaded(db: Tables, campaignId: nat, now: int, row: ContactRow)
    requires Selected(db, campaignId, None, row)
    ensures var (c, f) := (ContactOf(db, campaignId, now, row), row.farmerId.value);
      && (forall i: nat :: Newest(db.consents, f, i) ==>
            && c.consentType == Some(PromotionalVoice) && c.consentExpiresAt == db.consents[i].expiresAt
            && (c.consentRevoked <==> db.consents[i].revokedAt.Some?))
      && ((forall r :: r in db.consents ==> !Promotional(r, f)) ==>
            c.consentType == None && c.consentExpiresAt == None && !c.consentRevoked)
  {
    var f := row.farmerId.value;
    var n := LatestIsNewest(db.consents, f);
    forall i: nat | Newest(db.consents, f, i)
      ensures LatestConsent(db.consents, f) == Some(db.consents[i])
    {
      assert db.consents[i] in db.consents;
      NewestIsOne(db.consents, f, i, n);
    }
  }

  lemma RowLoaded(db: Tables, campaignId: nat, now: int, row: ContactRow)
    requires Selected(db, campaignId, None, row)
    ensures var c := ContactOf(db, campaignId, now, row);
      var (f, hash) := (row.farmerId.value, db.farmers[row.farmerId.value].phoneHash);
      && c.farmerId == f && c.phoneHash == hash && c.attempts == row.attempts && c.lastAttemptAt == row.lastAttemptAt
      && (c.isDnd <==> hash in db.dnd && db.dnd[hash].isDnd)
      && (c.internalDnc <==> hash in db.dnd && db.dnd[hash].internalDnc)
      && c.contactsThisWeek == |AttemptedRows(db.contacts, f, WeekStart(now))|
      && (c.inAnotherLiveCampaign <==> OnAnotherList(db, campaignId, f, now))
  {
    AttemptedIsCounted(db.contacts, row.farmerId.value, WeekStart(now));
    ElsewhereIsAnotherList(db, campaignId, row.farmerId.value, now);
  }

  lemma ElsewhereIsAnotherList(db: Tables, campaignId: nat, farmerId: nat, now: int)
    ensures HeldElsewhere(db, farmerId, campaignId, now) <==> OnAnotherList(db, campaignId, farmerId, now)
  {
  }

  /**
   What the loader returns says of each selected row: the farmer and the row as they stand; type, expiry
   and revocation of the newest promotional consent, or none at all; the two bars of the farmer's phone
   hash; how many of the farmer's rows were attempted this week; and whether another live campaign
   lists the farmer.
   */
  lemma LoadedTells(db: Tables, campaignId: nat, only: Option<set<nat>>, now: int, k: nat)
    requires k < |SelectedRows(db, campaignId, only, db.contacts)|
    ensures var row := SelectedRows(db, campaignId, only, db.contacts)[k];
      row.farmerId.Some? && row.farmerId.value in db.farmers &&
      var c := Loaded(db, campaignId, now, SelectedRows(db, campaignId, only, db.contacts))[k];
      var (f, hash) := (row.farmerId.value, db.farmers[row.farmerId.value].phoneHash);
      && c.farmerId == f && c.phoneHash == hash && c.attempts == row.attempts && c.lastAttemptAt == row.lastAttemptAt
      && (forall i: nat :: Newest(db.consents, f, i) ==>
            && c.consentType == Some(PromotionalVoice) && c.consentExpiresAt == db.consents[i].expiresAt
            && (c.consentRevoked <==> db.consents[i].revokedAt.Some?))
      && ((forall r :: r in db.consents ==> !Promotional(r, f)) ==>
            c.consentType == None && c.consentExpiresAt == None && !c.consentRevoked)
      && (c.isDnd <==> hash in db.dnd && db.dnd[hash].isDnd)
      && (c.internalDnc <==> hash in db.dnd && db.dnd[hash].internalDnc)
      && c.contactsThisWeek == |AttemptedRows(db.contacts, f, WeekStart(now))|
      && (c.inAnotherLiveCampaign <==> OnAnotherList(db, campaignId, f, now))
  {
    var rows := SelectedRows(db, campaignId, only, db.contacts);
    assert rows[k] in rows;
    assert Loaded(db, campaignId, now, rows)[k] == ContactOf(db, campaignId, now, rows[k]);
    ConsentLoaded(db, campaignId, now, rows[k]);
    RowLoaded(db, campaignId, now, rows[k]);
  }

  // ----- whom the recheck passes

  /** A promotional consent that holds now: the newest, not revoked and not expired. */
  ghost predicate Consents(db: Tables, farmerId: nat, now: int) {
    exists i: nat :: Newest(db.consents, farmerId, i) && db.consents[i].revokedAt == None
      && db.consents[i].expiresAt.Some? && db.consents[i].expiresAt.value > now
  }

  ghost predicate Barred(db: Tables, farmerId: nat, promotional: bool)
    requires farmerId in db.farmers
  {
    var hash := db.farmers[farmerId].phoneHash;
    hash in db.dnd && (db.dnd[hash].internalDnc || (promotional && db.dnd[hash].isDnd))
  }

  lemma ReloadIs(db: Tables, campaignId: nat, farmerId: nat, now: int)
    ensures var rows := SelectedRows(db, campaignId, Some({farmerId}), db.contacts);
      && (rows == [] ==> Reload(db, campaignId, farmerId, now) == None)
      && (rows != [] ==>
            && rows[0] in db.contacts && Selected(db, campaignId, None, rows[0]) && rows[0].farmerId == Some(farmerId)
            && Reload(db, campaignId, farmerId, now) == Some(Loaded(db, campaignId, now, rows)[0]))
  {
    var rows := SelectedRows(db, campaignId, Some({farmerId}), db.contacts);
    assert rows != [] ==> rows[0] in rows;
  }

  /** A promotional campaign's recheck refuses a farmer whose newest consent is revoked, expired or missing. */
  lemma RefusedWithoutConsent(db: Tables, campaignId: nat, farmerId: nat, settings: CampaignSettings, now: int)
    requires settings.isPromotional && !Consents(db, farmerId, now)
    ensures Recheck(db, campaignId, farmerId, settings, now).Some?
  {
    ReloadIs(db, campaignId, farmerId, now);
    var rows := SelectedRows(db, campaignId, Some({farmerId}), db.contacts);
    if rows != [] {
      var i := LatestIsNewest(db.consents, farmerId);
      LoadedTells(db, campaignId, Some({farmerId}), now, 0);
      AnswersAre(settings, now);
    }
  }

  /** A farmer who is deleted, or in no row of the campaign, is refused as barred. */
  lemma RefusedWhenGone(db: Tables, campaignId: nat, farmerId: nat, settings: CampaignSettings, now: int)
    requires (farmerId in db.farmers ==> db.farmers[farmerId].deleted)
          || forall row :: row in db.contacts && row.campaignId == campaignId ==> row.farmerId != Some(farmerId)
    ensures Recheck(db, campaignId, farmerId, settings, now) == Some(InternalDnc)
  {
    ReloadIs(db, campaignId, farmerId, now);
  }

  /** A farmer whose number is barred internally is refused, and one on the do-not-disturb list by promotions. */
  lemma RefusedWhenBarred(db: Tables, campaignId: nat, farmerId: nat, settings: CampaignSettings, now: int)
    requires farmerId in db.farmers && Barred(db, farmerId, settings.isPromotional)
    ensures Recheck(db, campaignId, farmerId, settings, now).Some?
  {
    ReloadIs(db, campaignId, farmerId, now);
    var rows := SelectedRows(db, campaignId, Some({farmerId}), db.contacts);
    if rows != [] {
      LoadedTells(db, campaignId, Some({farmerId}), now, 0);
      AnswersAre(settings, now);
    }
  }

  /**
   Whom the recheck passes, over the tables: a listed farmer whose row is below three attempts and four
   hours past the last, with fewer than two rows attempted this week, on no other live campaign's list
   and not barred; and for a promotional campaign, with a consent that holds.
   */
  lemma RecheckPassesExactlyWhen(
    db: Tables, campaignId: nat, row: ContactRow, farmerId: nat, settings: CampaignSettings, now: int)
    requires FarmersUnique(db, campaignId) && row in db.contacts
    requires row.campaignId == campaignId && row.farmerId == Some(farmerId)
    requires farmerId in db.farmers && !db.farmers[farmerId].deleted
    ensures Recheck(db, campaignId, farmerId, settings, now) == None <==>
      && row.attempts < 3 && (row.lastAttemptAt.Some? ==> now - row.lastAttemptAt.value >= 14_400_000_000)
      && |AttemptedRows(db.contacts, farmerId, WeekStart(now))| < 2 && !OnAnotherList(db, campaignId, farmerId, now)
      && !Barred(db, farmerId, settings.isPromotional)
      && (settings.isPromotional ==> Consents(db, farmerId, now))
  {
    NarrowedToOne(db, campaignId, db.contacts, row);
    var rows := SelectedRows(db, campaignId, Some({farmerId}), db.contacts);
    assert rows == [row];
    ReloadIs(db, campaignId, farmerId, now);
    LoadedTells(db, campaignId, Some({farmerId}), now, 0);
    AnswersAre(settings, now);
    var i := LatestIsNewest(db.consents, farmerId);
  }
}
