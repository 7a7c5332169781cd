/**
 What the weekly cap bounds. The recheck counts the contact rows attempted this week, in
 packages/db/src/uaagro_db/campaigns.py; the attempt is recorded later, by a task of
 apps/worker/src/worker/dialer.py that does not look again, and other campaigns run beside it. The exact
 bound on one farmer's attempts in one week, over all campaigns.
 */
module WeeklyCap {
  import opened Wrappers
  import opened Compliance
  import opened CampaignTables
  import opened ContactStatuses

  /** The contact rows of all campaigns; `waiting` are those past their recheck whose attempt is not recorded. */
  datatype State = State(now: int, rows: seq<ContactRow>, waiting: set<nat>)

  /**
   A recheck passes over the rows as they are then, whatever the other tables and the settings are; an
   attempt is recorded; a task ends before it records one; a row is added.
   */
  datatype Event =
    | PassRecheck(row: nat, at: int, around: Tables, settings: CampaignSettings)
    | RecordAttempt(row: nat, at: int)
    | GiveUp(row: nat)
    | AddRow(added: ContactRow)

  /** A contact is not rechecked again while it waits: runs of one campaign do not overlap. */
  predicate Possible(s: State, e: Event) {
    match e
    case PassRecheck(i, at, around, settings) =>
      var db := around.(contacts := s.rows);
      && at >= s.now && i < |s.rows| && i !in s.waiting
      && Selected(db, s.rows[i].campaignId, None, s.rows[i])
      && FirstFailureOf(ContactOf(db, s.rows[i].campaignId, at, s.rows[i]), settings, at) == None
    case RecordAttempt(i, at) => at >= s.now && i < |s.rows| && i in s.waiting
    case GiveUp(i) => i in s.waiting
    case AddRow(row) => row.attempts == 0 && row.lastAttemptAt == None
  }

  function Applied(s: State, e: Event): State
    requires Possible(s, e)
  {
    match e
    case PassRecheck(i, at, _, _) => s.(now := at, waiting := s.waiting + {i})
    case RecordAttempt(i, at) => State(at, s.rows[i := Attempted(s.rows[i], at)], s.waiting - {i})
    case GiveUp(i) => s.(waiting := s.waiting - {i})
    case AddRow(row) => s.(rows := s.rows + [row])
  }

  function Attempted(row: ContactRow, at: int): ContactRow {
    row.(attempts := row.attempts + 1, lastAttemptAt := Some(at))
  }

  /** The rechecks and the attempts lie in the week that starts at `week`. */
  predicate Timely(e: Event, week: int) {
    e.PassRecheck? || e.RecordAttempt? ==> WeekStart(e.at) == week
  }

  ghost predicate OneWeek(s: State, events: seq<Event>, week: int)
    decreases |events|
  {
    events == [] ||
    (Possible(s, events[0]) && Timely(events[0], week) && OneWeek(Applied(s, events[0]), events[1..], week))
  }

  /** How many of the attempts are on rows of one farmer. */
  ghost function AttemptsOn(s: State, events: seq<Event>, week: int, farmerId: nat): nat
    requires OneWeek(s, events, week)
    decreases |events|
  {
    if events == [] then 0
    else
      (if IsOn(s, events[0], farmerId) then 1 else 0)
      + AttemptsOn(Applied(s, events[0]), events[1..], week, farmerId)
  }

  predicate IsOn(s: State, e: Event, farmerId: nat) {
    e.RecordAttempt? && e.row < |s.rows| && s.rows[e.row].farmerId == Some(farmerId)
  }

  /** The farmer's contacts that wait. */
  function WaitingOf(s: State, farmerId: nat): set<nat> {
    set i | i in s.waiting && i < |s.rows| && s.rows[i].farmerId == Some(farmerId)
  }

  /** At no time do more than `most` of the farmer's contacts wait. */
  ghost predicate NeverMoreWait(s: State, events: seq<Event>, week: int, farmerId: nat, most: nat)
    requires OneWeek(s, events, week)
    decreases |events|
  {
    |WaitingOf(s, farmerId)| <= most &&
    (events == [] || NeverMoreWait(Applied(s, events[0]), events[1..], week, farmerId, most))
  }

  // ----- what every event keeps

  /** What waits was below the attempt cap when it passed, and still is. */
  predicate Sound(s: State) {
    forall i :: i in s.waiting ==> i < |s.rows| && s.rows[i].attempts < MAX_ATTEMPTS_PER_CONTACT
  }

  /** A recheck that passes found the row below the attempt cap, and fewer than two rows that count. */
  lemma PassIsBelowCaps(s: State, e: Event)
    requires Possible(s, e) && e.PassRecheck?
    ensures s.rows[e.row].farmerId.Some? && s.rows[e.row].attempts < MAX_ATTEMPTS_PER_CONTACT
    ensures AttemptedSince(s.rows, s.rows[e.row].farmerId.value, WeekStart(e.at)) < MAX_CONTACTS_PER_FARMER_PER_WEEK
  {
    var db := e.around.(contacts := s.rows);
    FirstFailureIsEarliest(ContactOf(db, s.rows[e.row].campaignId, e.at, s.rows[e.row]), e.settings, e.at);
  }

  lemma SoundKept(s: State, e: Event)
    requires Sound(s) && Possible(s, e)
    ensures Sound(Applied(s, e))
  {
    if e.PassRecheck? {
      PassIsBelowCaps(s, e);
    }
  }

  lemma WaitingAfter(s: State, e: Event, farmerId: nat)
    requires Sound(s) && Possible(s, e)
    ensures var w := WaitingOf(s, farmerId);
      WaitingOf(Applied(s, e), farmerId) ==
        match e
        case PassRecheck(i, _, _, _) => if s.rows[i].farmerId == Some(farmerId) then w + {i} else w
        case RecordAttempt(i, _) => w - {i}
        case GiveUp(i) => w - {i}
        case AddRow(_) => w
  {
  }

  /** The row counts for the farmer's week. */
  predicate CountsIn(row: ContactRow, farmerId: nat, week: int) {
    row.farmerId == Some(farmerId) && row.lastAttemptAt.Some? && row.lastAttemptAt.value >= week
  }

  lemma {:induction false} CountUpdated(rows: seq<ContactRow>, i: nat, row: ContactRow, farmerId: nat, week: int)
    requires i < |rows|
    ensures AttemptedSince(rows[i := row], farmerId, week) + (if CountsIn(rows[i], farmerId, week) then 1 else 0)
         == AttemptedSince(rows, farmerId, week) + (if CountsIn(row, farmerId, week) then 1 else 0)
  {
    var n := |rows| - 1;
    if i < n {
      CountUpdated(rows[..n], i, row, farmerId, week);
      assert rows[i := row][..n] == rows[..n][i := row];
    } else {
      assert rows[i := row][..n] == rows[..n];
    }
  }

  lemma {:induction false} CountIsAtLeastOne(rows: seq<ContactRow>, i: nat, farmerId: nat, week: int)
    requires i < |rows| && CountsIn(rows[i], farmerId, week)
    ensures AttemptedSince(rows, farmerId, week) >= 1
  {
    if i < |rows| - 1 {
      CountIsAtLeastOne(rows[..|rows| - 1], i, farmerId, week);
    }
  }

  /** Two rows count only where the count is two or more. */
  lemma {:induction false} OneRowCounts(rows: seq<ContactRow>, i: nat, j: nat, farmerId: nat, week: int)
    requires i < j < |rows| && CountsIn(rows[i], farmerId, week) && CountsIn(rows[j], farmerId, week)
    ensures AttemptedSince(rows, farmerId, week) >= 2
  {
    var n := |rows| - 1;
    if j < n {
      OneRowCounts(rows[..n], i, j, farmerId, week);
    } else {
      CountIsAtLeastOne(rows[..n], i, farmerId, week);
    }
  }

  /**
   What `seen` attempts so far leave: none without a row that counts; at most that row's own while there
   is one; and with more of them no attempts but those that wait.
   */
  ghost predicate Within(s: State, farmerId: nat, week: int, seen: nat, most: nat) {
    var count := AttemptedSince(s.rows, farmerId, week);
    && (count == 0 ==> seen == 0)
    && (count == 1 ==> seen <= MAX_ATTEMPTS_PER_CONTACT)
    && (count == 1 ==>
          forall i :: 0 <= i < |s.rows| && CountsIn(s.rows[i], farmerId, week) ==> seen <= s.rows[i].attempts)
    && (count >= 2 ==> seen + |WaitingOf(s, farmerId)| <= MAX_ATTEMPTS_PER_CONTACT + most)
  }

  lemma WeekHasBegun(at: int)
    ensures WeekStart(at) <= at
  {
  }

  /** Of one row that counts there is no second. */
  lemma OnlyRowThatCounts(rows: seq<ContactRow>, i: nat, farmerId: nat, week: int)
    requires i < |rows| && CountsIn(rows[i], farmerId, week) && AttemptedSince(rows, farmerId, week) == 1
    ensures forall j :: 0 <= j < |rows| && CountsIn(rows[j], farmerId, week) ==> j == i
  {
    forall j | 0 <= j < |rows| && CountsIn(rows[j], farmerId, week)
      ensures j == i
    {
      if j < i {
        OneRowCounts(rows, j, i, farmerId, week);
      } else if i < j {
        OneRowCounts(rows, i, j, farmerId, week);
      }
    }
  }

  /** The row attempted is one that counts already, or becomes one: the first, the second, or a later one. */
  lemma AttemptStaysWithin(s: State, e: Event, farmerId: nat, week: int, seen: nat, most: nat)
    requires Sound(s) && Possible(s, e) && IsOn(s, e, farmerId) && WeekStart(e.at) == week
    requires Within(s, farmerId, week, seen, most) && |WaitingOf(s, farmerId)| <= most
    ensures Within(Applied(s, e), farmerId, week, seen + 1, most)
  {
    var after := Applied(s, e);
    WeekHasBegun(e.at);
    CountUpdated(s.rows, e.row, Attempted(s.rows[e.row], e.at), farmerId, week);
    CountIsAtLeastOne(after.rows, e.row, farmerId, week);
    WaitingAfter(s, e, farmerId);
    assert |WaitingOf(after, farmerId)| == |WaitingOf(s, farmerId)| - 1;
    if AttemptedSince(after.rows, farmerId, week) == 1 {
      OnlyRowThatCounts(after.rows, e.row, farmerId, week);
    }
  }

  lemma OtherStaysWithin(s: State, e: Event, farmerId: nat, week: int, seen: nat, most: nat)
    requires Sound(s) && Possible(s, e) && Timely(e, week) && !IsOn(s, e, farmerId)
    requires Within(s, farmerId, week, seen, most)
    ensures Within(Applied(s, e), farmerId, week, seen, most)
  {
    WaitingAfter(s, e, farmerId);
    match e
    case PassRecheck(i, _, _, _) => PassIsBelowCaps(s, e);
    case RecordAttempt(i, at) => CountUpdated(s.rows, i, Attempted(s.rows[i], at), farmerId, week);
    case GiveUp(i) =>
    case AddRow(row) => assert (s.rows + [row])[..|s.rows|] == s.rows;
  }

  lemma {:induction false} WeekStaysWithin(
    s: State, events: seq<Event>, farmerId: nat, week: int, seen: nat, most: nat)
    requires Sound(s) && OneWeek(s, events, week) && NeverMoreWait(s, events, week, farmerId, most)
    requires Within(s, farmerId, week, seen, most)
    ensures seen + AttemptsOn(s, events, week, farmerId) <= MAX_ATTEMPTS_PER_CONTACT + most
    decreases |events|
  {
    if events != [] {
      SoundKept(s, events[0]);
      if IsOn(s, events[0], farmerId) {
        AttemptStaysWithin(s, events[0], farmerId, week, seen, most);
        WeekStaysWithin(Applied(s, events[0]), events[1..], farmerId, week, seen + 1, most);
      } else {
        OtherStaysWithin(s, events[0], farmerId, week, seen, most);
        WeekStaysWithin(Applied(s, events[0]), events[1..], farmerId, week, seen, most);
      }
    }
  }

  /**
   In one week a farmer is attempted at most three times more than contacts of the farmer wait at once,
   over all campaigns and whatever else changes: the attempts of one row, and then those of the rows
   that passed their rechecks before a second one counted.
   */
  lemma AttemptsAWeek(s: State, events: seq<Event>, farmerId: nat, week: int, most: nat)
    requires Sound(s) && OneWeek(s, events, week) && NeverMoreWait(s, events, week, farmerId, most)
    ensures AttemptsOn(s, events, week, farmerId) <= MAX_ATTEMPTS_PER_CONTACT + most
  {
    WeekStaysWithin(s, events, farmerId, week, 0, most);
  }

  /** Four, if the farmer's contacts only ever wait one at a time. */
  lemma FourAttemptsAWeek(s: State, events: seq<Event>, farmerId: nat, week: int)
    requires Sound(s) && OneWeek(s, events, week) && NeverMoreWait(s, events, week, farmerId, 1)
    ensures AttemptsOn(s, events, week, farmerId) <= 4
  {
    AttemptsAWeek(s, events, farmerId, week, 1);
  }

  // ----- runs put together

  /** The rechecks lie in the calling window. */
  ghost predicate InHours(events: seq<Event>) {
    forall e :: e in events && e.PassRecheck? ==> WithinCallingWindow(e.at)
  }

  /**
   From here the farmer can be attempted so often in the week, never with more contacts waiting, and with
   the rechecks in the calling window if that is asked for.
   */
  ghost predicate Rung(s: State, farmerId: nat, week: int, most: nat, attempts: nat, inHours: bool) {
    exists events ::
      && OneWeek(s, events, week) && NeverMoreWait(s, events, week, farmerId, most)
      && AttemptsOn(s, events, week, farmerId) == attempts && (inHours ==> InHours(events))
  }

  lemma EventFirst(s: State, e: Event, farmerId: nat, week: int, most: nat, attempts: nat, inHours: bool)
    requires Possible(s, e) && Timely(e, week) && (inHours && e.PassRecheck? ==> WithinCallingWindow(e.at))
    requires |WaitingOf(s, farmerId)| <= most && Rung(Applied(s, e), farmerId, week, most, attempts, inHours)
    ensures Rung(s, farmerId, week, most, attempts + if IsOn(s, e, farmerId) then 1 else 0, inHours)
  {
    var n := Applied(s, e);
    var rest :| OneWeek(n, rest, week) && NeverMoreWait(n, rest, week, farmerId, most)
      && AttemptsOn(n, rest, week, farmerId) == attempts && (inHours ==> InHours(rest));
    var events := [e] + rest;
    assert events[1..] == rest;
    assert OneWeek(s, events, week) && NeverMoreWait(s, events, week, farmerId, most);
    assert inHours ==> InHours(events);
  }

  lemma NothingMore(s: State, farmerId: nat, week: int, most: nat, inHours: bool)
    requires |WaitingOf(s, farmerId)| <= most
    ensures Rung(s, farmerId, week, most, 0, inHours)
  {
    assert OneWeek(s, [], week) && NeverMoreWait(s, [], week, farmerId, most) && InHours([]);
    assert AttemptsOn(s, [], week, farmerId) == 0;
  }

  /** Every contact that waits can still be attempted, at any one instant of the week. */
  lemma {:induction false} WaitingAreAttempted(
    s: State, farmerId: nat, week: int, at: int, most: nat, inHours: bool)
    requires Sound(s) && at >= s.now && WeekStart(at) == week && |WaitingOf(s, farmerId)| <= most
    ensures Rung(s, farmerId, week, most, |WaitingOf(s, farmerId)|, inHours)
    decreases |WaitingOf(s, farmerId)|
  {
    var w := WaitingOf(s, farmerId);
    if w == {} {
      NothingMore(s, farmerId, week, most, inHours);
    } else {
      var i :| i in w;
      var e := RecordAttempt(i, at);
      WaitingAfter(s, e, farmerId);
      SoundKept(s, e);
      assert |WaitingOf(Applied(s, e), farmerId)| == |w| - 1;
      WaitingAreAttempted(Applied(s, e), farmerId, week, at, most, inHours);
      EventFirst(s, e, farmerId, week, most, |w| - 1, inHours);
    }
  }

  // ----- new rows pass their rechecks

  /** Above the number of every campaign that has a row. */
  function NewCampaign(rows: seq<ContactRow>): (id: nat)
    ensures forall row :: row in rows ==> row.campaignId < id
  {
    if rows == [] then 1
    else
      var rest := NewCampaign(rows[1..]);
      if rows[0].campaignId < rest then rest else rows[0].campaignId + 1
  }

  /** The farmer's row in a new campaign. */
  function NewRow(rows: seq<ContactRow>, farmerId: nat): ContactRow {
    ContactRow(NewCampaign(rows), Some(farmerId), 0, Pending, 0, None)
  }

  /** The farmer's record, and every campaign running since ten days before a week begins. */
  function Around(rows: seq<ContactRow>, farmerId: nat, week: int): Tables {
    var ids := set row | row in rows :: row.campaignId;
    Tables([], map[farmerId := Farmer(0, false)], [], map[], map id | id in ids :: Campaign(Running, week - 10 * DAY))
  }

  const SETTINGS := CampaignSettings(false, "", "", "", None)

  /** A contact without a block, an attempt or another live campaign passes outside promotions. */
  lemma NothingAgainst(c: Contact, now: int)
    requires !c.internalDnc && c.attempts < MAX_ATTEMPTS_PER_CONTACT && !c.inAnotherLiveCampaign
    requires c.lastAttemptAt.Some? ==> now - c.lastAttemptAt.value >= MIN_GAP_BETWEEN_ATTEMPTS
    requires c.contactsThisWeek < MAX_CONTACTS_PER_FARMER_PER_WEEK
    ensures FirstFailureOf(c, SETTINGS, now) == None
  {
    FirstFailureIsEarliest(c, SETTINGS, now);
  }

  /** The recheck of a row of the farmer's, with nothing against it but what the rows say. */
  function Rechecked(s: State, i: nat, farmerId: nat, at: int): Event {
    PassRecheck(i, at, Around(s.rows, farmerId, WeekStart(at)), SETTINGS)
  }

  lemma RowPasses(s: State, i: nat, farmerId: nat, at: int)
    requires at >= s.now && i < |s.rows| && i !in s.waiting && s.rows[i].farmerId == Some(farmerId)
    requires s.rows[i].attempts < MAX_ATTEMPTS_PER_CONTACT
    requires s.rows[i].lastAttemptAt.Some? ==> at - s.rows[i].lastAttemptAt.value >= MIN_GAP_BETWEEN_ATTEMPTS
    requires AttemptedSince(s.rows, farmerId, WeekStart(at)) < MAX_CONTACTS_PER_FARMER_PER_WEEK
    ensures Possible(s, Rechecked(s, i, farmerId, at))
  {
    var db := Around(s.rows, farmerId, WeekStart(at)).(contacts := s.rows);
    WeekHasBegun(at);
    assert !HeldElsewhere(db, farmerId, s.rows[i].campaignId, at);
    NothingAgainst(ContactOf(db, s.rows[i].campaignId, at, s.rows[i]), at);
  }

  /** It passes its recheck first, and then whatever can follow. */
  lemma PassFirst(s: State, i: nat, farmerId: nat, at: int, most: nat, attempts: nat, inHours: bool)
    requires at >= s.now && i < |s.rows| && i !in s.waiting && s.rows[i].farmerId == Some(farmerId)
    requires s.rows[i].attempts < MAX_ATTEMPTS_PER_CONTACT
    requires s.rows[i].lastAttemptAt.Some? ==> at - s.rows[i].lastAttemptAt.value >= MIN_GAP_BETWEEN_ATTEMPTS
    requires AttemptedSince(s.rows, farmerId, WeekStart(at)) < MAX_CONTACTS_PER_FARMER_PER_WEEK
    requires |WaitingOf(s, farmerId)| <= most && (inHours ==> WithinCallingWindow(at))
    requires Rung(s.(now := at, waiting := s.waiting + {i}), farmerId, WeekStart(at), most, attempts, inHours)
    ensures Rung(s, farmerId, WeekStart(at), most, attempts, inHours)
  {
    RowPasses(s, i, farmerId, at);
    EventFirst(s, Rechecked(s, i, farmerId, at), farmerId, WeekStart(at), most, attempts, inHours);
  }

  /** The state with a row of a new campaign for the farmer. */
  function WithNewRow(s: State, farmerId: nat): State {
    s.(rows := s.rows + [NewRow(s.rows, farmerId)])
  }

  lemma NewRowIsNoMatter(s: State, farmerId: nat, week: int)
    requires Sound(s)
    ensures Sound(WithNewRow(s, farmerId)) && WaitingOf(WithNewRow(s, farmerId), farmerId) == WaitingOf(s, farmerId)
    ensures AttemptedSince(WithNewRow(s, farmerId).rows, farmerId, week) == AttemptedSince(s.rows, farmerId, week)
  {
    var e := AddRow(NewRow(s.rows, farmerId));
    assert WithNewRow(s, farmerId).rows[..|s.rows|] == s.rows;
    SoundKept(s, e);
    WaitingAfter(s, e, farmerId);
  }

  /** And with that row past its recheck. */
  function WithOneMore(s: State, farmerId: nat, at: int): State {
    WithNewRow(s, farmerId).(now := at, waiting := s.waiting + {|s.rows|})
  }

  lemma OneMoreWaits(s: State, farmerId: nat, week: int, at: int)
    requires Sound(s)
    ensures var n := WithOneMore(s, farmerId, at);
      && Sound(n) && |WaitingOf(n, farmerId)| == |WaitingOf(s, farmerId)| + 1
      && AttemptedSince(n.rows, farmerId, week) == AttemptedSince(s.rows, farmerId, week)
  {
    NewRowIsNoMatter(s, farmerId, week);
    assert WaitingOf(WithOneMore(s, farmerId, at), farmerId) == WaitingOf(s, farmerId) + {|s.rows|};
  }

  lemma OneMoreFirst(s: State, farmerId: nat, week: int, at: int, most: nat, attempts: nat, inHours: bool)
    requires Sound(s) && at >= s.now && WeekStart(at) == week && |WaitingOf(s, farmerId)| <= most
    requires AttemptedSince(s.rows, farmerId, week) < MAX_CONTACTS_PER_FARMER_PER_WEEK
    requires inHours ==> WithinCallingWindow(at)
    requires Rung(WithOneMore(s, farmerId, at), farmerId, week, most, attempts, inHours)
    ensures Rung(s, farmerId, week, most, attempts, inHours)
  {
    NewRowIsNoMatter(s, farmerId, week);
    PassFirst(WithNewRow(s, farmerId), |s.rows|, farmerId, at, most, attempts, inHours);
    EventFirst(s, AddRow(NewRow(s.rows, farmerId)), farmerId, week, most, attempts, inHours);
  }

  /** While fewer than two rows count, any number of contacts more can come to wait, and then be attempted. */
  lemma {:induction false} AnyNumberAttempted(
    s: State, farmerId: nat, week: int, at: int, more: nat, most: nat, inHours: bool)
    requires Sound(s) && at >= s.now && WeekStart(at) == week
    requires AttemptedSince(s.rows, farmerId, week) < MAX_CONTACTS_PER_FARMER_PER_WEEK
    requires inHours ==> WithinCallingWindow(at)
    requires |WaitingOf(s, farmerId)| + more <= most
    ensures Rung(s, farmerId, week, most, |WaitingOf(s, farmerId)| + more, inHours)
    decreases more
  {
    if more == 0 {
      WaitingAreAttempted(s, farmerId, week, at, most, inHours);
    } else {
      OneMoreWaits(s, farmerId, week, at);
      AnyNumberAttempted(WithOneMore(s, farmerId, at), farmerId, week, at, more - 1, most, inHours);
      OneMoreFirst(s, farmerId, week, at, most, |WaitingOf(s, farmerId)| + more, inHours);
    }
  }

  // ----- exactly when a farmer gets another call

  /** Once two rows count, only those that wait are still attempted that week, and each of them once. */
  lemma {:induction false} OnlyWaitingAtTheCap(s: State, events: seq<Event>, farmerId: nat, week: int)
    requires Sound(s) && OneWeek(s, events, week)
    requires AttemptedSince(s.rows, farmerId, week) >= MAX_CONTACTS_PER_FARMER_PER_WEEK
    ensures AttemptsOn(s, events, week, farmerId) <= |WaitingOf(s, farmerId)|
    decreases |events|
  {
    if events != [] {
      SoundKept(s, events[0]);
      StaysAtTheCap(s, events[0], farmerId, week);
      OnlyWaitingAtTheCap(Applied(s, events[0]), events[1..], farmerId, week);
    }
  }

  lemma StaysAtTheCap(s: State, e: Event, farmerId: nat, week: int)
    requires Sound(s) && Possible(s, e) && Timely(e, week)
    requires AttemptedSince(s.rows, farmerId, week) >= MAX_CONTACTS_PER_FARMER_PER_WEEK
    ensures var n := Applied(s, e);
      && AttemptedSince(n.rows, farmerId, week) >= MAX_CONTACTS_PER_FARMER_PER_WEEK
      && |WaitingOf(n, farmerId)| + (if IsOn(s, e, farmerId) then 1 else 0) <= |WaitingOf(s, farmerId)|
  {
    WaitingAfter(s, e, farmerId);
    match e {
      case PassRecheck(_, _, _, _) => PassIsBelowCaps(s, e);
      case RecordAttempt(i, at) =>
        WeekHasBegun(at);
        CountUpdated(s.rows, i, Attempted(s.rows[i], at), farmerId, week);
      case GiveUp(_) =>
      case AddRow(row) => assert (s.rows + [row])[..|s.rows|] == s.rows;
    }
  }

  /** Some events of the week attempt the farmer `attempts` times or more. */
  ghost predicate CanBeRung(s: State, farmerId: nat, week: int, attempts: nat) {
    exists events :: OneWeek(s, events, week) && AttemptsOn(s, events, week, farmerId) >= attempts
  }

  /** And with their rechecks in the calling window. */
  ghost predicate CanBeRungInHours(s: State, farmerId: nat, week: int, attempts: nat) {
    exists events ::
      OneWeek(s, events, week) && InHours(events) && AttemptsOn(s, events, week, farmerId) >= attempts
  }

  /** The last instant of the calling window that lies in the week: nine in the evening of its Sunday. */
  function LastOpen(week: int): int {
    week + 6 * DAY + WINDOW_CLOSE - IST_OFFSET
  }

  lemma LastOpenIsInWeek(week: int)
    requires WeekStart(week) == week
    ensures WeekStart(LastOpen(week)) == week && WithinCallingWindow(LastOpen(week))
  {
    var day := week / DAY;
    assert week == day * DAY;
    assert LastOpen(week) / DAY == day + 6;
    assert LastOpen(week) + IST_OFFSET == (day + 6) * DAY + WINDOW_CLOSE;
  }

  lemma RungCanBe(s: State, farmerId: nat, week: int, most: nat, attempts: nat, fewer: nat, inHours: bool)
    requires Rung(s, farmerId, week, most, attempts, inHours) && fewer <= attempts
    ensures CanBeRung(s, farmerId, week, fewer)
    ensures inHours ==> CanBeRungInHours(s, farmerId, week, fewer)
  {
    var events :| OneWeek(s, events, week) && NeverMoreWait(s, events, week, farmerId, most)
      && AttemptsOn(s, events, week, farmerId) == attempts && (inHours ==> InHours(events));
  }

  lemma MayGoOnForever(s: State, farmerId: nat, week: int)
    requires Sound(s) && WeekStart(s.now) == week
    requires AttemptedSince(s.rows, farmerId, week) < MAX_CONTACTS_PER_FARMER_PER_WEEK
    ensures forall attempts: nat :: CanBeRung(s, farmerId, week, attempts)
    ensures s.now <= LastOpen(week) ==> forall attempts: nat :: CanBeRungInHours(s, farmerId, week, attempts)
  {
    StartsItsWeek(s.now);
    LastOpenIsInWeek(week);
    forall attempts: nat
      ensures CanBeRung(s, farmerId, week, attempts)
      ensures s.now <= LastOpen(week) ==> CanBeRungInHours(s, farmerId, week, attempts)
    {
      var at := if s.now <= LastOpen(week) then LastOpen(week) else s.now;
      var most := |WaitingOf(s, farmerId)| + attempts;
      AnyNumberAttempted(s, farmerId, week, at, attempts, most, WithinCallingWindow(at));
      RungCanBe(s, farmerId, week, most, most, attempts, WithinCallingWindow(at));
    }
  }

  lemma StartsItsWeek(at: int)
    ensures WeekStart(WeekStart(at)) == WeekStart(at)
  {
    var day := at / DAY;
    assert WeekStart(at) / DAY == day - (day + 3) % 7;
  }

  /**
   How often a farmer can still be rung in the week: any number of times while fewer than two rows count,
   with no limit but to how many contacts wait at once; and then exactly as often as contacts of the
   farmer are past their rechecks. Until the window last closes that week the rechecks can lie in it.
   */
  lemma RungExactlyWhen(s: State, farmerId: nat, week: int)
    requires Sound(s) && WeekStart(s.now) == week
    ensures var below := AttemptedSince(s.rows, farmerId, week) < MAX_CONTACTS_PER_FARMER_PER_WEEK;
      && (forall attempts: nat :: CanBeRung(s, farmerId, week, attempts)
            <==> below || attempts <= |WaitingOf(s, farmerId)|)
      && (below && s.now <= LastOpen(week) ==> forall attempts: nat :: CanBeRungInHours(s, farmerId, week, attempts))
  {
    if AttemptedSince(s.rows, farmerId, week) < MAX_CONTACTS_PER_FARMER_PER_WEEK {
      MayGoOnForever(s, farmerId, week);
    } else {
      forall attempts: nat
        ensures CanBeRung(s, farmerId, week, attempts) <==> attempts <= |WaitingOf(s, farmerId)|
      {
        RungAtTheCap(s, farmerId, week, attempts);
      }
    }
  }

  lemma RungAtTheCap(s: State, farmerId: nat, week: int, attempts: nat)
    requires Sound(s) && WeekStart(s.now) == week
    requires AttemptedSince(s.rows, farmerId, week) >= MAX_CONTACTS_PER_FARMER_PER_WEEK
    ensures CanBeRung(s, farmerId, week, attempts) <==> attempts <= |WaitingOf(s, farmerId)|
  {
    var waiting := |WaitingOf(s, farmerId)|;
    if CanBeRung(s, farmerId, week, attempts) {
      var events :| OneWeek(s, events, week) && AttemptsOn(s, events, week, farmerId) >= attempts;
      OnlyWaitingAtTheCap(s, events, farmerId, week);
    }
    if attempts <= waiting {
      WaitingAreAttempted(s, farmerId, week, s.now, waiting, false);
      RungCanBe(s, farmerId, week, waiting, waiting, attempts, false);
    }
  }

  // ----- and the bound is attained

  /** Monday, 5 January 1970, by the clock of UTC. */
  function MondayAt(hour: nat): int {
    4 * DAY + hour * HOUR
  }

  lemma MondayIsInWeek(hour: nat)
    requires hour < 24
    ensures WeekStart(MondayAt(hour)) == MondayAt(0)
  {
  }

  /** One campaign's row of farmer 7 and nothing waiting: rung so often, every four hours of the Monday. */
  function RungSoFar(attempts: nat): State {
    var lastAt := if attempts == 0 then None else Some(MondayAt(4 * attempts));
    State(MondayAt(4 * attempts), [ContactRow(1, Some(7), 0, Pending, attempts, lastAt)], {})
  }

  lemma AtMostOneCounts(attempts: nat)
    ensures AttemptedSince(RungSoFar(attempts).rows, 7, MondayAt(0)) <= 1
    ensures Sound(RungSoFar(attempts)) && WaitingOf(RungSoFar(attempts), 7) == {}
  {
    assert RungSoFar(attempts).rows[..0] == [];
  }

  /** Four hours on it passes its recheck once more. */
  function PassedSoFar(attempts: nat): State {
    RungSoFar(attempts).(now := MondayAt(4 * (attempts + 1)), waiting := {0})
  }

  lemma PassedOnceMore(attempts: nat, most: nat, more: nat)
    requires attempts < MAX_ATTEMPTS_PER_CONTACT && Rung(PassedSoFar(attempts), 7, MondayAt(0), most, more, true)
    ensures Rung(RungSoFar(attempts), 7, MondayAt(0), most, more, true)
  {
    MondayIsInWeek(4 * (attempts + 1));
    AtMostOneCounts(attempts);
    assert PassedSoFar(attempts) == RungSoFar(attempts).(now := MondayAt(4 * (attempts + 1)), waiting := {} + {0});
    PassFirst(RungSoFar(attempts), 0, 7, MondayAt(4 * (attempts + 1)), most, more, true);
  }

  /** And is rung. */
  lemma RecordedOnceMore(attempts: nat, most: nat, more: nat)
    requires attempts < MAX_ATTEMPTS_PER_CONTACT && most >= 1
    requires Rung(RungSoFar(attempts + 1), 7, MondayAt(0), most, more, true)
    ensures Rung(PassedSoFar(attempts), 7, MondayAt(0), most, more + 1, true)
  {
    var m := PassedSoFar(attempts);
    var record := RecordAttempt(0, m.now);
    MondayIsInWeek(4 * (attempts + 1));
    assert WaitingOf(m, 7) == {0};
    assert Applied(m, record) == RungSoFar(attempts + 1);
    EventFirst(m, record, 7, MondayAt(0), most, more, true);
  }

  lemma {:induction false} RungFromThen(attempts: nat, most: nat)
    requires attempts <= MAX_ATTEMPTS_PER_CONTACT && most >= 1
    ensures Rung(RungSoFar(attempts), 7, MondayAt(0), most, MAX_ATTEMPTS_PER_CONTACT - attempts + most, true)
    decreases MAX_ATTEMPTS_PER_CONTACT - attempts
  {
    if attempts == MAX_ATTEMPTS_PER_CONTACT {
      MondayIsInWeek(12);
      AtMostOneCounts(attempts);
      AnyNumberAttempted(RungSoFar(attempts), 7, MondayAt(0), MondayAt(12), most, most, true);
    } else {
      RungFromThen(attempts + 1, most);
      RecordedOnceMore(attempts, most, MAX_ATTEMPTS_PER_CONTACT - attempts - 1 + most);
      PassedOnceMore(attempts, most, MAX_ATTEMPTS_PER_CONTACT - attempts + most);
    }
  }

  /**
   However many contacts may wait at once, the bound is attained: three attempts of one campaign on a
   Monday, and then so many more campaigns pass their rechecks before any of them records its attempt.
   */
  lemma BoundIsAttained(most: nat) returns (events: seq<Event>)
    requires most >= 1
    ensures OneWeek(RungSoFar(0), events, MondayAt(0)) && InHours(events)
    ensures NeverMoreWait(RungSoFar(0), events, MondayAt(0), 7, most)
    ensures AttemptsOn(RungSoFar(0), events, MondayAt(0), 7) == MAX_ATTEMPTS_PER_CONTACT + most
  {
    RungFromThen(0, most);
    events :| OneWeek(RungSoFar(0), events, MondayAt(0)) && NeverMoreWait(RungSoFar(0), events, MondayAt(0), 7, most)
      && AttemptsOn(RungSoFar(0), events, MondayAt(0), 7) == MAX_ATTEMPTS_PER_CONTACT + most && InHours(events);
  }

  /** Four attempts, with one contact waiting at a time. */
  lemma FourAttemptsHappen() returns (events: seq<Event>)
    ensures OneWeek(RungSoFar(0), events, MondayAt(0)) && NeverMoreWait(RungSoFar(0), events, MondayAt(0), 7, 1)
    ensures AttemptsOn(RungSoFar(0), events, MondayAt(0), 7) == 4
  {
    events := BoundIsAttained(1);
  }
}
