/**
 When a contact can be rung again, whatever its stored status: the campaign runs of
 apps/worker/src/worker/campaign.py over the contact tables its rechecks are loaded from.
 */
module CampaignRedial {
  import opened Wrappers
  import opened Compliance
  import opened ContactStatuses
  import opened Dialler
  import opened CampaignRuns
  import Tables = CampaignTables

  // ----- the recheck reads the tables

  /** The campaign's rows in the tables are those of the system. */
  ghost predicate Agree(db: Tables.Tables, campaignId: nat, s: Sys) {
    forall row | row in db.contacts && Tables.Selected(db, campaignId, None, row) ::
      row.farmerId.value in s.rows && s.rows[row.farmerId.value] == Row(row.attempts, row.lastAttemptAt, row.status)
  }

  /** The reload of a contact shows its row, and judging it is the recheck over the tables. */
  lemma ReloadShows(db: Tables.Tables, campaignId: nat, s: Sys, c: ContactId, settings: CampaignSettings)
    requires Agree(db, campaignId, s)
    ensures var view := Tables.Reload(db, campaignId, c, s.now);
      Shows(view, s, c) && Judged(view, settings, s.now) == Tables.Recheck(db, campaignId, c, settings, s.now)
  {
    var rows := Tables.SelectedRows(db, campaignId, Some({c}), db.contacts);
    if rows != [] {
      assert rows[0] in rows;
      assert Tables.Selected(db, campaignId, None, rows[0]) && rows[0].farmerId == Some(c);
    }
  }

  /** So the recheck over tables that agree is a step of the session, and clears or rejects as it finds. */
  lemma LoadedRecheckIsAStep(
    cfg: Config, settings: CampaignSettings, db: Tables.Tables, campaignId: nat, s: Sys)
    requires Agree(db, campaignId, s)
    requires s.run.Some? && s.run.value.loop.Admitted? && s.run.value.next < |s.run.value.list|
    ensures var c := s.run.value.list[s.run.value.next];
      var found := Tables.Recheck(db, campaignId, c, settings, s.now);
      var step := Recheck(Tables.Reload(db, campaignId, c, s.now));
      && CanTake(cfg, settings, s, step)
      && MoveOf(settings, s, step) == Some(if found.Some? then Reject(found.value) else Clear)
  {
    ReloadShows(db, campaignId, s, s.run.value.list[s.run.value.next], settings);
  }

  // ----- one attempt, at one instant

  /** Every recheck of the contact sees this view. */
  ghost predicate Sees(
    cfg: Config, settings: CampaignSettings, s: Sys, steps: seq<Step>, c: ContactId, view: Option<Contact>)
    requires ValidRun(cfg, settings, s, steps)
    decreases |steps|
  {
    steps == [] ||
    (SeesAt(s, steps[0], c, view) && Sees(cfg, settings, Take(cfg, settings, s, steps[0]), steps[1..], c, view))
  }

  ghost predicate SeesAt(s: Sys, step: Step, c: ContactId, view: Option<Contact>) {
    step.Recheck? && s.run.Some? && s.run.value.next < |s.run.value.list| ==>
      s.run.value.list[s.run.value.next] == c ==> step.view == view
  }

  lemma Then(
    cfg: Config, settings: CampaignSettings, s: Sys, step: Step, rest: seq<Step>, c: ContactId, view: Option<Contact>)
    requires CanTake(cfg, settings, s, step) && ValidRun(cfg, settings, Take(cfg, settings, s, step), rest)
    requires SeesAt(s, step, c, view) && Sees(cfg, settings, Take(cfg, settings, s, step), rest, c, view)
    ensures ValidRun(cfg, settings, s, [step] + rest) && Sees(cfg, settings, s, [step] + rest, c, view)
    ensures After(cfg, settings, s, [step] + rest) == After(cfg, settings, Take(cfg, settings, s, step), rest)
  {
    assert ([step] + rest)[1..] == rest;
  }

  /**
   A list a run can be given, with the contact it is about in front: the query gives the contacts of a
   campaign in no particular order.
   */
  predicate CanList(s: Sys, list: seq<ContactId>) {
    list != [] && NoRepeats(list) && forall c :: c in list ==> c in s.rows
  }

  /** The session of a list, with its loop at some place over the first contact. */
  function AtLoop(s: Sys, list: seq<ContactId>, loop: Loop): Sys {
    s.(run := Some(Started(list).(loop := loop)), campaign := CampaignRunning)
  }

  /** And with the first contact's task launched, by now in some state. */
  function AtTask(s: Sys, list: seq<ContactId>, state: TaskState): Sys
    requires list != []
  {
    var task := Task(list[0], s.now, s.now, s.now, state);
    s.(run := Some(Started(list).(next := 1, loop := Sleeping(s.now), tasks := [task])), campaign := CampaignRunning)
  }

  lemma StartNow(cfg: Config, settings: CampaignSettings, s: Sys, list: seq<ContactId>)
    requires s.run == None && GatePasses(settings, s.now) && CanList(s, list)
    ensures CanTake(cfg, settings, s, Start(list)) && Take(cfg, settings, s, Start(list)) == AtLoop(s, list, Top)
  {
  }

  lemma AdmitNow(cfg: Config, settings: CampaignSettings, s: Sys, list: seq<ContactId>)
    requires WithinCallingWindow(s.now) && list != []
    ensures CanTake(cfg, settings, AtLoop(s, list, Top), Turn(Admit))
    ensures Take(cfg, settings, AtLoop(s, list, Top), Turn(Admit)) == AtLoop(s, list, Admitted(s.now))
  {
  }

  lemma ClearNow(cfg: Config, settings: CampaignSettings, s: Sys, list: seq<ContactId>, view: Option<Contact>)
    requires list != [] && Shows(view, s, list[0]) && Judged(view, settings, s.now) == None
    ensures CanTake(cfg, settings, AtLoop(s, list, Admitted(s.now)), Recheck(view))
    ensures Take(cfg, settings, AtLoop(s, list, Admitted(s.now)), Recheck(view))
         == AtLoop(s, list, Cleared(s.now, s.now))
  {
  }

  lemma LaunchNow(cfg: Config, settings: CampaignSettings, s: Sys, list: seq<ContactId>)
    requires list != []
    ensures CanTake(cfg, settings, AtLoop(s, list, Cleared(s.now, s.now)), Turn(Launch))
    ensures Take(cfg, settings, AtLoop(s, list, Cleared(s.now, s.now)), Turn(Launch)) == AtTask(s, list, Queued)
  {
    var task := Task(list[0], s.now, s.now, s.now, Queued);
    assert [] + [task] == [task];
  }

  lemma AcquireNow(cfg: Config, settings: CampaignSettings, s: Sys, list: seq<ContactId>)
    requires list != [] && cfg.maxConcurrent >= 1
    ensures CanTake(cfg, settings, AtTask(s, list, Queued), Turn(Acquire(0)))
    ensures Take(cfg, settings, AtTask(s, list, Queued), Turn(Acquire(0))) == AtTask(s, list, Holding)
  {
    var task := Task(list[0], s.now, s.now, s.now, Queued);
    assert [task][..|[task]| - 1] == [];
    assert ActiveCount([task]) == 0;
    assert [task][0 := task.(state := Holding)] == [task.(state := Holding)];
  }

  /** The system with one more attempt recorded for a contact. */
  function Recorded1(s: Sys, c: ContactId): Sys
    requires c in s.rows
  {
    s.(rows := s.rows[c := Row(s.rows[c].attempts + 1, Some(s.now), Dialing)], log := s.log[c := LogOf(s, c) + [s.now]])
  }

  lemma RecordNow(cfg: Config, settings: CampaignSettings, s: Sys, list: seq<ContactId>)
    requires list != [] && list[0] in s.rows
    ensures CanTake(cfg, settings, AtTask(s, list, Holding), RecordAttempt(0))
    ensures Take(cfg, settings, AtTask(s, list, Holding), RecordAttempt(0))
         == AtTask(Recorded1(s, list[0]), list, Recorded)
  {
    var task := Task(list[0], s.now, s.now, s.now, Holding);
    assert [task][0 := task.(state := Recorded)] == [task.(state := Recorded)];
  }

  /** A run that launches its first contact and records an attempt at this very instant, then goes on. */
  function AttemptSteps(list: seq<ContactId>, view: Option<Contact>, rest: seq<Step>): seq<Step> {
    [Start(list)] + ([Turn(Admit)] + ([Recheck(view)] + ([Turn(Launch)]
      + ([Turn(Acquire(0))] + ([RecordAttempt(0)] + rest)))))
  }

  lemma AttemptNow(
    cfg: Config, settings: CampaignSettings, s: Sys, list: seq<ContactId>, view: Option<Contact>, rest: seq<Step>)
    requires s.run == None && CanList(s, list) && cfg.maxConcurrent >= 1
    requires GatePasses(settings, s.now) && WithinCallingWindow(s.now)
    requires Shows(view, s, list[0]) && Judged(view, settings, s.now) == None
    requires ValidRun(cfg, settings, AtTask(Recorded1(s, list[0]), list, Recorded), rest)
    requires Sees(cfg, settings, AtTask(Recorded1(s, list[0]), list, Recorded), rest, list[0], view)
    ensures ValidRun(cfg, settings, s, AttemptSteps(list, view, rest))
    ensures Sees(cfg, settings, s, AttemptSteps(list, view, rest), list[0], view)
    ensures After(cfg, settings, s, AttemptSteps(list, view, rest))
         == After(cfg, settings, AtTask(Recorded1(s, list[0]), list, Recorded), rest)
  {
    var c := list[0];
    var r5 := [RecordAttempt(0)] + rest;
    var r4 := [Turn(Acquire(0))] + r5;
    var r3 := [Turn(Launch)] + r4;
    var r2 := [Recheck(view)] + r3;
    RecordNow(cfg, settings, s, list);
    Then(cfg, settings, AtTask(s, list, Holding), RecordAttempt(0), rest, c, view);
    AcquireNow(cfg, settings, s, list);
    Then(cfg, settings, AtTask(s, list, Queued), Turn(Acquire(0)), r5, c, view);
    LaunchNow(cfg, settings, s, list);
    Then(cfg, settings, AtLoop(s, list, Cleared(s.now, s.now)), Turn(Launch), r4, c, view);
    ClearNow(cfg, settings, s, list, view);
    Then(cfg, settings, AtLoop(s, list, Admitted(s.now)), Recheck(view), r3, c, view);
    AdmitNow(cfg, settings, s, list);
    Then(cfg, settings, AtLoop(s, list, Top), Turn(Admit), r2, c, view);
    StartNow(cfg, settings, s, list);
    Then(cfg, settings, s, Start(list), [Turn(Admit)] + r2, c, view);
  }

  // ----- exactly which contacts can be rung again

  /** A reload that finds nothing against one more attempt. */
  function PassingView(row: Row, c: ContactId, now: int): Contact {
    Contact(c, 0, Some(PromotionalVoice), Some(now + 1), false, false, false, row.attempts, row.lastAttemptAt, 0, false)
  }

  /** Half a second before the calling window closes, on the day after the next. */
  function LastMoment(now: int): int {
    ((now + IST_OFFSET) / DAY + 2) * DAY + WINDOW_CLOSE - SECOND / 2 - IST_OFFSET
  }

  lemma TimeOfDay(day: int, time: int)
    requires 0 <= time < DAY
    ensures (day * DAY + time) % DAY == time
  {
  }

  lemma LastMomentIsOpen(now: int)
    ensures WithinCallingWindow(LastMoment(now)) && LastMoment(now) - now >= MIN_GAP_BETWEEN_ATTEMPTS
    ensures !WithinCallingWindow(LastMoment(now) + SECOND)
  {
    var day := (now + IST_OFFSET) / DAY + 2;
    TimeOfDay(day, WINDOW_CLOSE - SECOND / 2);
    TimeOfDay(day, WINDOW_CLOSE + SECOND / 2);
    assert LastMoment(now) + IST_OFFSET == day * DAY + (WINDOW_CLOSE - SECOND / 2);
    assert LastMoment(now) + SECOND + IST_OFFSET == day * DAY + (WINDOW_CLOSE + SECOND / 2);
  }

  /** Settings can pass the gate exactly when there is an instant at which they do. */
  lemma PassesAtSomeInstant(settings: CampaignSettings)
    ensures GateCanPass(settings) <==> exists now :: GatePasses(settings, now)
  {
    LastMomentIsOpen(0);
    if GateCanPass(settings) {
      assert GatePasses(settings, LastMoment(0));
    }
  }

  /** The system at that moment, if nothing happens until then. */
  function AtLastMoment(s: Sys): Sys {
    s.(now := LastMoment(s.now))
  }

  /** Wait for that moment, attempt the first contact of the list, and go on. */
  function LateSteps(s: Sys, list: seq<ContactId>, rest: seq<Step>): seq<Step>
    requires CanList(s, list) && LastMoment(s.now) >= s.now
  {
    var view := PassingView(s.rows[list[0]], list[0], LastMoment(s.now));
    [Tick(LastMoment(s.now) - s.now)] + AttemptSteps(list, Some(view), rest)
  }

  /** From any fresh state, a contact below the attempt cap can be attempted then, whatever its status. */
  lemma AttemptLate(cfg: Config, settings: CampaignSettings, s: Sys, list: seq<ContactId>, rest: seq<Step>)
    requires Fresh(s) && CanList(s, list) && cfg.maxConcurrent >= 1 && GateCanPass(settings)
    requires s.rows[list[0]].attempts < MAX_ATTEMPTS_PER_CONTACT
    requires var n := AtTask(Recorded1(AtLastMoment(s), list[0]), list, Recorded);
      ValidRun(cfg, settings, n, rest) && forall view :: Sees(cfg, settings, n, rest, list[0], view)
    ensures LastMoment(s.now) >= s.now && ValidRun(cfg, settings, s, LateSteps(s, list, rest))
    ensures After(cfg, settings, s, LateSteps(s, list, rest))
         == After(cfg, settings, AtTask(Recorded1(AtLastMoment(s), list[0]), list, Recorded), rest)
  {
    LastMomentIsOpen(s.now);
    var wait := Tick(LastMoment(s.now) - s.now);
    assert Take(cfg, settings, s, wait) == AtLastMoment(s);
    var view := Some(PassingView(s.rows[list[0]], list[0], LastMoment(s.now)));
    AttemptNow(cfg, settings, AtLastMoment(s), list, view, rest);
    Then(cfg, settings, s, wait, AttemptSteps(list, view, rest), list[0], view);
  }

  /** Some sequence of runs records an attempt for the contact. */
  ghost predicate CanBeRung(cfg: Config, settings: CampaignSettings, s: Sys, c: ContactId) {
    exists steps :: ValidRun(cfg, settings, s, steps) && LogOf(After(cfg, settings, s, steps), c) != []
  }

  /** Every run is given this list. */
  ghost predicate Over(steps: seq<Step>, list: seq<ContactId>) {
    forall step :: step in steps && step.Start? ==> step.list == list
  }

  /** Some sequence of runs over one list records an attempt for its first contact. */
  ghost predicate CanBeRungFrom(cfg: Config, settings: CampaignSettings, s: Sys, list: seq<ContactId>)
    requires list != []
  {
    exists steps :: ValidRun(cfg, settings, s, steps) && Over(steps, list)
      && LogOf(After(cfg, settings, s, steps), list[0]) != []
  }

  /** Time does not pass. */
  ghost predicate AtOnce(steps: seq<Step>) {
    forall step :: step in steps ==> !step.Tick?
  }

  /** Settings the gate always blocks, or blocks at the one instant there is, let no run start. */
  lemma {:induction false} NoRunStarts(cfg: Config, settings: CampaignSettings, s: Sys, steps: seq<Step>)
    requires s.run == None && ValidRun(cfg, settings, s, steps)
    requires !GateCanPass(settings) || (AtOnce(steps) && !GatePasses(settings, s.now))
    ensures var n := After(cfg, settings, s, steps);
      n.run == None && n.log == s.log
    decreases |steps|
  {
    if steps != [] {
      assert steps[0] in steps;
      NoRunStarts(cfg, settings, Take(cfg, settings, s, steps[0]), steps[1..]);
    }
  }

  /**
   Which contacts can be rung again: exactly those below the attempt cap, completed or not, if the
   campaign's settings pass the gate at all; and then by a run over any list they can stand in.
   */
  lemma RungAgainExactlyBelowCap(cfg: Config, settings: CampaignSettings, s: Sys, list: seq<ContactId>)
    requires Fresh(s) && CanList(s, list) && cfg.maxConcurrent >= 1
    ensures var possible := s.rows[list[0]].attempts < MAX_ATTEMPTS_PER_CONTACT && GateCanPass(settings);
      && (CanBeRung(cfg, settings, s, list[0]) <==> possible)
      && (CanBeRungFrom(cfg, settings, s, list) <==> possible)
  {
    if CanBeRung(cfg, settings, s, list[0]) {
      RungOnlyBelowCap(cfg, settings, s, list[0]);
    }
    if s.rows[list[0]].attempts < MAX_ATTEMPTS_PER_CONTACT && GateCanPass(settings) {
      RungFromBelowCap(cfg, settings, s, list);
    }
  }

  lemma OneListOnly(list: seq<ContactId>, wait: Step, view: Option<Contact>)
    requires wait.Tick?
    ensures Over([wait] + AttemptSteps(list, view, []), list)
  {
  }

  lemma RungFromBelowCap(cfg: Config, settings: CampaignSettings, s: Sys, list: seq<ContactId>)
    requires Fresh(s) && CanList(s, list) && cfg.maxConcurrent >= 1 && GateCanPass(settings)
    requires s.rows[list[0]].attempts < MAX_ATTEMPTS_PER_CONTACT
    ensures CanBeRungFrom(cfg, settings, s, list)
  {
    AttemptLate(cfg, settings, s, list, []);
    var view := PassingView(s.rows[list[0]], list[0], LastMoment(s.now));
    OneListOnly(list, Tick(LastMoment(s.now) - s.now), Some(view));
  }

  lemma RungOnlyBelowCap(cfg: Config, settings: CampaignSettings, s: Sys, c: ContactId)
    requires Fresh(s) && c in s.rows && CanBeRung(cfg, settings, s, c)
    ensures s.rows[c].attempts < MAX_ATTEMPTS_PER_CONTACT && GateCanPass(settings)
  {
    var steps :| ValidRun(cfg, settings, s, steps) && LogOf(After(cfg, settings, s, steps), c) != [];
    AttemptsAreCapped(cfg, settings, s, steps, c);
    if !GateCanPass(settings) {
      NoRunStarts(cfg, settings, s, steps);
    }
  }

  /**
   A campaign paused after its first contact completed the call and before its second was rung; started
   again over the same list, it rings the first contact a second time.
   */
  lemma CompletedContactIsRungAgain(cfg: Config, settings: CampaignSettings) returns (s: Sys, steps: seq<Step>)
    requires cfg.maxConcurrent >= 1 && GateCanPass(settings)
    ensures Fresh(s) && s.campaign == CampaignPaused
    ensures s.rows == map[7 := Row(1, Some(0), Completed), 8 := Row(0, None, Pending)]
    ensures ValidRun(cfg, settings, s, steps) && Over(steps, [7, 8])
    ensures var n := After(cfg, settings, s, steps);
      7 in n.rows && n.rows[7].attempts == 2 && n.rows[7].status == Dialing && |LogOf(n, 7)| == 1
  {
    s := Sys(0, map[7 := Row(1, Some(0), Completed), 8 := Row(0, None, Pending)], None, CampaignPaused, map[], map[]);
    AttemptLate(cfg, settings, s, [7, 8], []);
    steps := LateSteps(s, [7, 8], []);
    var view := PassingView(s.rows[7], 7, LastMoment(0));
    OneListOnly([7, 8], Tick(LastMoment(0)), Some(view));
  }

  // ----- exactly when it can be rung at this instant

  /** Nothing is launched, cleared or recorded for the contact unless it passes now. */
  ghost predicate OnlyIf(s: Sys, c: ContactId, now: int, passes: bool) {
    && s.now == now
    && (LogOf(s, c) != [] ==> passes && WithinCallingWindow(now))
    && (s.run.Some? ==> OnlyIfRun(s.run.value, c, now, passes))
  }

  ghost predicate OnlyIfRun(r: Run, c: ContactId, now: int, passes: bool) {
    && (r.loop.Admitted? || r.loop.Cleared? ==> WithinCallingWindow(now))
    && (r.loop.Cleared? && r.next < |r.list| && r.list[r.next] == c ==> passes)
    && (forall k :: 0 <= k < |r.tasks| && r.tasks[k].contact == c ==> passes && WithinCallingWindow(now))
  }

  lemma MoveKeepsOnlyIf(cfg: Config, r: Run, now: int, m: Move, c: ContactId, passes: bool)
    requires OnlyIfRun(r, c, now, passes) && Enabled(cfg, r, now, m)
    requires m.Clear? && r.list[r.next] == c ==> passes
    ensures OnlyIfRun(Moved(cfg, r, now, m), c, now, passes)
  {
  }

  lemma RunAfterStep(
    cfg: Config, settings: CampaignSettings, s: Sys, step: Step, c: ContactId, view: Option<Contact>, now: int)
    requires CanTake(cfg, settings, s, step) && !step.Tick? && SeesAt(s, step, c, view)
    requires OnlyIf(s, c, now, Judged(view, settings, now) == None)
    ensures var n := Take(cfg, settings, s, step);
      n.now == now && (n.run.Some? ==> OnlyIfRun(n.run.value, c, now, Judged(view, settings, now) == None))
  {
    var move := MoveOf(settings, s, step);
    if move.Some? {
      assert move.value.Clear? ==> step.Recheck? && Judged(step.view, settings, now) == None;
      MoveKeepsOnlyIf(cfg, s.run.value, now, move.value, c, Judged(view, settings, now) == None);
    }
  }

  lemma {:induction false} OnlyIfKept(
    cfg: Config, settings: CampaignSettings, s: Sys, steps: seq<Step>, c: ContactId, view: Option<Contact>, now: int)
    requires ValidRun(cfg, settings, s, steps) && AtOnce(steps) && Sees(cfg, settings, s, steps, c, view)
    requires OnlyIf(s, c, now, Judged(view, settings, now) == None)
    ensures OnlyIf(After(cfg, settings, s, steps), c, now, Judged(view, settings, now) == None)
    decreases |steps|
  {
    if steps != [] {
      assert steps[0] in steps;
      RunAfterStep(cfg, settings, s, steps[0], c, view, now);
      OnlyIfKept(cfg, settings, Take(cfg, settings, s, steps[0]), steps[1..], c, view, now);
    }
  }

  /** Some run at this instant, its rechecks of the contact seeing this view, records an attempt for it. */
  ghost predicate CanBeRungNow(cfg: Config, settings: CampaignSettings, s: Sys, c: ContactId, view: Option<Contact>) {
    exists steps :: ValidRun(cfg, settings, s, steps) && AtOnce(steps) && Sees(cfg, settings, s, steps, c, view)
      && LogOf(After(cfg, settings, s, steps), c) != []
  }

  lemma AttemptTakesNoTime(list: seq<ContactId>, view: Option<Contact>)
    ensures AtOnce(AttemptSteps(list, view, []))
  {
  }

  lemma RungNowWhenItPasses(cfg: Config, settings: CampaignSettings, s: Sys, c: ContactId, view: Option<Contact>)
    requires s.run == None && c in s.rows && cfg.maxConcurrent >= 1
    requires GatePasses(settings, s.now) && WithinCallingWindow(s.now)
    requires Shows(view, s, c) && Judged(view, settings, s.now) == None
    ensures CanBeRungNow(cfg, settings, s, c, view)
  {
    AttemptNow(cfg, settings, s, [c], view, []);
    AttemptTakesNoTime([c], view);
  }

  lemma RungNowOnlyWhenItPasses(cfg: Config, settings: CampaignSettings, s: Sys, c: ContactId, view: Option<Contact>)
    requires s.run == None && LogOf(s, c) == [] && CanBeRungNow(cfg, settings, s, c, view)
    ensures GatePasses(settings, s.now) && WithinCallingWindow(s.now) && Judged(view, settings, s.now) == None
  {
    var steps :| ValidRun(cfg, settings, s, steps) && AtOnce(steps) && Sees(cfg, settings, s, steps, c, view)
      && LogOf(After(cfg, settings, s, steps), c) != [];
    OnlyIfKept(cfg, settings, s, steps, c, view, s.now);
    if !GatePasses(settings, s.now) {
      NoRunStarts(cfg, settings, s, steps);
    }
  }

  /**
   At one instant, over one state of the tables, a contact can be rung exactly when the campaign passes
   the gate, the calling window is open and the recheck over these tables finds nothing. The contact's
   status is not among what any of them looks at.
   */
  lemma RungNowExactlyWhenItPasses(
    cfg: Config, settings: CampaignSettings, db: Tables.Tables, campaignId: nat, s: Sys, c: ContactId)
    requires Agree(db, campaignId, s) && s.run == None && c in s.rows && LogOf(s, c) == [] && cfg.maxConcurrent >= 1
    ensures CanBeRungNow(cfg, settings, s, c, Tables.Reload(db, campaignId, c, s.now))
       <==> GatePasses(settings, s.now) && WithinCallingWindow(s.now)
            && Tables.Recheck(db, campaignId, c, settings, s.now) == None
  {
    var view := Tables.Reload(db, campaignId, c, s.now);
    ReloadShows(db, campaignId, s, c, settings);
    if CanBeRungNow(cfg, settings, s, c, view) {
      RungNowOnlyWhenItPasses(cfg, settings, s, c, view);
    }
    if GatePasses(settings, s.now) && WithinCallingWindow(s.now) && Judged(view, settings, s.now) == None {
      RungNowWhenItPasses(cfg, settings, s, c, view);
    }
  }
}
