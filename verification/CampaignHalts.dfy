/**
 What a pause, a cancel or the end of the calling window still lets through to the provider: the
 session of apps/worker/src/worker/dialer.py looks at them before a launch and not before a dial.
 */
module CampaignHalts {
  import opened Wrappers
  import opened Compliance
  import opened Dialler
  import opened CampaignRuns
  import opened CampaignRedial

  /** The provider has not been asked yet. */
  predicate Unasked(t: Task) {
    t.state.Queued? || t.state.Holding? || t.state.Recorded?
  }

  function UnaskedCount(tasks: seq<Task>): nat {
    if tasks == [] then 0
    else UnaskedCount(tasks[..|tasks| - 1]) + if Unasked(tasks[|tasks| - 1]) then 1 else 0
  }

  /** What may still be dialled without another look at flags and window. */
  function Pending(r: Run): nat {
    UnaskedCount(r.tasks) + InHand(r)
  }

  /** No further contact is admitted. */
  ghost predicate Halted(s: Sys) {
    s.run.Some? && !MayGoOn(s.run.value, s.now)
  }

  ghost predicate StaysHalted(cfg: Config, settings: CampaignSettings, s: Sys, steps: seq<Step>)
    requires ValidRun(cfg, settings, s, steps)
    decreases |steps|
  {
    Halted(s) && (steps == [] || StaysHalted(cfg, settings, Take(cfg, settings, s, steps[0]), steps[1..]))
  }

  /** How often the provider is asked. */
  function Originates(steps: seq<Step>): nat {
    if steps == [] then 0 else (if steps[0].Originate? then 1 else 0) + Originates(steps[1..])
  }

  lemma {:induction false} UnaskedUpdated(tasks: seq<Task>, k: nat, t: Task)
    requires k < |tasks|
    ensures UnaskedCount(tasks[k := t]) + (if Unasked(tasks[k]) then 1 else 0)
         == UnaskedCount(tasks) + (if Unasked(t) then 1 else 0)
  {
    var n := |tasks| - 1;
    if k < n {
      UnaskedUpdated(tasks[..n], k, t);
      assert tasks[k := t][..n] == tasks[..n][k := t];
    } else {
      assert tasks[k := t][..n] == tasks[..n];
    }
  }

  /** The states a step takes a task through never bring back an unasked one. */
  predicate Onwards(r: Run, m: Move) {
    match m
    case Advance(k, state) =>
      && k < |r.tasks| && (state.Recorded? ==> r.tasks[k].state.Holding?)
      && (state.Calling? ==> r.tasks[k].state.Recorded?)
    case _ => true
  }

  lemma HaltedMove(cfg: Config, r: Run, now: int, m: Move)
    requires !MayGoOn(r, now) && Enabled(cfg, r, now, m) && Onwards(r, m)
    ensures Pending(Moved(cfg, r, now, m)) + (if m.Advance? && m.state.Calling? then 1 else 0) <= Pending(r)
  {
    match m
    case Launch =>
    case Acquire(k) => UnaskedUpdated(r.tasks, k, r.tasks[k].(state := Holding));
    case Advance(k, state) => UnaskedUpdated(r.tasks, k, r.tasks[k].(state := state));
    case Finish(k, _) => UnaskedUpdated(r.tasks, k, r.tasks[k].(state := Finished));
    case _ =>
  }

  lemma HaltedStep(cfg: Config, settings: CampaignSettings, s: Sys, step: Step)
    requires Halted(s) && CanTake(cfg, settings, s, step) && Take(cfg, settings, s, step).run.Some?
    ensures Pending(Take(cfg, settings, s, step).run.value) + (if step.Originate? then 1 else 0) <= Pending(s.run.value)
  {
    var move := MoveOf(settings, s, step);
    if move.Some? {
      HaltedMove(cfg, s.run.value, s.now, move.value);
    }
  }

  /**
   While a session stays halted, by a flag or by the closed window, the provider is asked at most once
   for each task then queued, holding the semaphore or recorded, and once for the contact in hand.
   */
  lemma {:induction false} HaltedSessionDialsOut(cfg: Config, settings: CampaignSettings, s: Sys, steps: seq<Step>)
    requires ValidRun(cfg, settings, s, steps) && StaysHalted(cfg, settings, s, steps)
    ensures var n := After(cfg, settings, s, steps);
      n.run.Some? && Pending(n.run.value) + Originates(steps) <= Pending(s.run.value)
    decreases |steps|
  {
    if steps != [] {
      var n := Take(cfg, settings, s, steps[0]);
      HaltedSessionDialsOut(cfg, settings, n, steps[1..]);
      HaltedStep(cfg, settings, s, steps[0]);
    }
  }

  /** A flag, once set, halts the session until it ends. */
  lemma {:induction false} FlagHalts(cfg: Config, settings: CampaignSettings, s: Sys, steps: seq<Step>)
    requires HasFlag(s) && ValidRun(cfg, settings, s, steps)
    requires forall step :: step in steps ==> !step.Return? && !step.Crash?
    ensures StaysHalted(cfg, settings, s, steps)
    decreases |steps|
  {
    if steps != [] {
      assert steps[0] in steps;
      FlaggedStep(cfg, settings, s, steps[0]);
      FlagHalts(cfg, settings, Take(cfg, settings, s, steps[0]), steps[1..]);
    }
  }

  // ----- exactly when a halted session still dials

  /**
   From here on, halted and with no time passing, the provider is asked at least once; rechecks of the
   contact see this view.
   */
  ghost predicate DialsOn(cfg: Config, settings: CampaignSettings, s: Sys, c: ContactId, view: Option<Contact>) {
    exists steps :: ValidRun(cfg, settings, s, steps) && StaysHalted(cfg, settings, s, steps) && AtOnce(steps)
      && Sees(cfg, settings, s, steps, c, view) && Originates(steps) > 0
  }

  lemma StepThenDials(
    cfg: Config, settings: CampaignSettings, s: Sys, step: Step, c: ContactId, view: Option<Contact>)
    requires Halted(s) && CanTake(cfg, settings, s, step) && !step.Tick? && SeesAt(s, step, c, view)
    requires DialsOn(cfg, settings, Take(cfg, settings, s, step), c, view)
    ensures DialsOn(cfg, settings, s, c, view)
  {
    var n := Take(cfg, settings, s, step);
    var rest :| ValidRun(cfg, settings, n, rest) && StaysHalted(cfg, settings, n, rest) && AtOnce(rest)
      && Sees(cfg, settings, n, rest, c, view) && Originates(rest) > 0;
    var steps := [step] + rest;
    assert steps[1..] == rest;
    assert ValidRun(cfg, settings, s, steps) && StaysHalted(cfg, settings, s, steps);
  }

  lemma RecordedDials(cfg: Config, settings: CampaignSettings, s: Sys, k: nat, c: ContactId, view: Option<Contact>)
    requires Halted(s) && InState(s, k, Recorded)
    ensures DialsOn(cfg, settings, s, c, view)
  {
    var steps := [Originate(k)];
    var n := Take(cfg, settings, s, Originate(k));
    assert steps[1..] == [] && Originates(steps[1..]) == 0 && Halted(n);
    assert ValidRun(cfg, settings, n, []) && StaysHalted(cfg, settings, n, []) && Sees(cfg, settings, n, [], c, view);
    assert ValidRun(cfg, settings, s, steps) && StaysHalted(cfg, settings, s, steps);
    assert Sees(cfg, settings, s, steps, c, view);
  }

  lemma HoldingDials(cfg: Config, settings: CampaignSettings, s: Sys, k: nat, c: ContactId, view: Option<Contact>)
    requires Halted(s) && InState(s, k, Holding)
    ensures DialsOn(cfg, settings, s, c, view)
  {
    RecordedDials(cfg, settings, Take(cfg, settings, s, RecordAttempt(k)), k, c, view);
    StepThenDials(cfg, settings, s, RecordAttempt(k), c, view);
  }

  lemma QueuedDials(cfg: Config, settings: CampaignSettings, s: Sys, k: nat, c: ContactId, view: Option<Contact>)
    requires Halted(s) && InState(s, k, Queued) && ActiveCount(s.run.value.tasks) < cfg.maxConcurrent
    ensures DialsOn(cfg, settings, s, c, view)
  {
    HoldingDials(cfg, settings, Take(cfg, settings, s, Turn(Acquire(k))), k, c, view);
    StepThenDials(cfg, settings, s, Turn(Acquire(k)), c, view);
  }

  /** A task that has asked the provider ends, and makes room for one that has not. */
  lemma QueuedDialsNext(
    cfg: Config, settings: CampaignSettings, s: Sys, j: nat, k: nat, c: ContactId, view: Option<Contact>)
    requires Halted(s) && InState(s, k, Queued) && ActiveCount(s.run.value.tasks) <= cfg.maxConcurrent
    requires InState(s, j, Calling) || InState(s, j, Refused)
    ensures DialsOn(cfg, settings, s, c, view)
  {
    var step := if InState(s, j, Calling) then Answer(j, true) else WriteFailure(j, false);
    var tasks := s.run.value.tasks;
    ActiveUpdated(tasks, j, tasks[j].(state := Finished));
    QueuedDials(cfg, settings, Take(cfg, settings, s, step), k, c, view);
    StepThenDials(cfg, settings, s, step, c, view);
  }

  lemma {:induction false} SomeUnasked(tasks: seq<Task>) returns (k: nat)
    requires UnaskedCount(tasks) > 0
    ensures k < |tasks| && Unasked(tasks[k])
  {
    if Unasked(tasks[|tasks| - 1]) {
      k := |tasks| - 1;
    } else {
      k := SomeUnasked(tasks[..|tasks| - 1]);
    }
  }

  lemma {:induction false} SomeActive(tasks: seq<Task>) returns (k: nat)
    requires ActiveCount(tasks) > 0
    ensures k < |tasks| && tasks[k].Active()
  {
    if tasks[|tasks| - 1].Active() {
      k := |tasks| - 1;
    } else {
      k := SomeActive(tasks[..|tasks| - 1]);
    }
  }

  /** What every session's tasks and place in the list keep to. */
  ghost predicate Stands(cfg: Config, s: Sys) {
    s.run.Some? &&
    var r := s.run.value;
    && ActiveCount(r.tasks) <= cfg.maxConcurrent
    && (forall k :: 0 <= k < |r.tasks| ==> r.tasks[k].contact in s.rows)
    && (r.loop.Admitted? || r.loop.Cleared? ==> r.next < |r.list| && r.list[r.next] in s.rows)
  }

  lemma UnaskedDials(cfg: Config, settings: CampaignSettings, s: Sys, c: ContactId, view: Option<Contact>)
    requires Halted(s) && Stands(cfg, s) && cfg.maxConcurrent >= 1 && UnaskedCount(s.run.value.tasks) > 0
    ensures DialsOn(cfg, settings, s, c, view)
  {
    var tasks := s.run.value.tasks;
    var k := SomeUnasked(tasks);
    if tasks[k].state.Recorded? {
      RecordedDials(cfg, settings, s, k, c, view);
    } else if tasks[k].state.Holding? {
      HoldingDials(cfg, settings, s, k, c, view);
    } else if ActiveCount(tasks) < cfg.maxConcurrent {
      QueuedDials(cfg, settings, s, k, c, view);
    } else {
      var j := SomeActive(tasks);
      if tasks[j].state.Recorded? {
        RecordedDials(cfg, settings, s, j, c, view);
      } else if tasks[j].state.Holding? {
        HoldingDials(cfg, settings, s, j, c, view);
      } else {
        QueuedDialsNext(cfg, settings, s, j, k, c, view);
      }
    }
  }

  lemma LaunchStands(cfg: Config, settings: CampaignSettings, s: Sys)
    requires Halted(s) && Stands(cfg, s) && s.run.value.loop.Cleared?
    ensures CanTake(cfg, settings, s, Turn(Launch))
    ensures var n := Take(cfg, settings, s, Turn(Launch));
      Halted(n) && Stands(cfg, n) && UnaskedCount(n.run.value.tasks) > 0
  {
    var r := s.run.value;
    QueuedIsAdded(r.tasks, Task(r.list[r.next], r.loop.windowAt, r.loop.recheckedAt, s.now, Queued));
  }

  lemma QueuedIsAdded(tasks: seq<Task>, t: Task)
    requires t.state.Queued?
    ensures UnaskedCount(tasks + [t]) == UnaskedCount(tasks) + 1 && ActiveCount(tasks + [t]) == ActiveCount(tasks)
  {
    assert (tasks + [t])[..|tasks|] == tasks;
  }

  lemma ClearedDials(cfg: Config, settings: CampaignSettings, s: Sys, c: ContactId, view: Option<Contact>)
    requires Halted(s) && Stands(cfg, s) && cfg.maxConcurrent >= 1 && s.run.value.loop.Cleared?
    ensures DialsOn(cfg, settings, s, c, view)
  {
    LaunchStands(cfg, settings, s);
    UnaskedDials(cfg, settings, Take(cfg, settings, s, Turn(Launch)), c, view);
    StepThenDials(cfg, settings, s, Turn(Launch), c, view);
  }

  lemma AdmittedDials(cfg: Config, settings: CampaignSettings, s: Sys, view: Option<Contact>)
    requires Halted(s) && Stands(cfg, s) && cfg.maxConcurrent >= 1 && s.run.value.loop.Admitted?
    requires Shows(view, s, Visiting(s.run.value)) && Judged(view, settings, s.now) == None
    ensures DialsOn(cfg, settings, s, Visiting(s.run.value), view)
  {
    ClearedDials(cfg, settings, Take(cfg, settings, s, Recheck(view)), Visiting(s.run.value), view);
    StepThenDials(cfg, settings, s, Recheck(view), Visiting(s.run.value), view);
  }

  /** The contact the loop is at, if it is at any. */
  function Visiting(r: Run): ContactId {
    if r.next < |r.list| then r.list[r.next] else 0
  }

  /** A task that has not asked yet, a contact cleared for a launch, or one whose recheck finds nothing. */
  predicate HasMoreToDial(settings: CampaignSettings, r: Run, now: int, view: Option<Contact>) {
    UnaskedCount(r.tasks) > 0 || r.loop.Cleared? || (r.loop.Admitted? && Judged(view, settings, now) == None)
  }

  lemma NoMoreMove(cfg: Config, r: Run, now: int, m: Move)
    requires !MayGoOn(r, now) && Enabled(cfg, r, now, m) && Onwards(r, m)
    requires UnaskedCount(r.tasks) == 0 && !r.loop.Cleared? && !m.Clear?
    ensures !(m.Advance? && m.state.Calling?)
    ensures var q := Moved(cfg, r, now, m);
      && UnaskedCount(q.tasks) == 0 && !q.loop.Cleared?
      && (q.loop.Admitted? ==> r.loop.Admitted? && Visiting(q) == Visiting(r))
  {
    match m
    case Acquire(k) => UnaskedUpdated(r.tasks, k, r.tasks[k].(state := Holding));
    case Advance(k, state) => UnaskedUpdated(r.tasks, k, r.tasks[k].(state := state));
    case Finish(k, _) => UnaskedUpdated(r.tasks, k, r.tasks[k].(state := Finished));
    case _ =>
  }

  lemma NoMoreStep(cfg: Config, settings: CampaignSettings, s: Sys, step: Step, c: ContactId, view: Option<Contact>)
    requires Halted(s) && CanTake(cfg, settings, s, step) && !step.Tick? && SeesAt(s, step, c, view)
    requires Take(cfg, settings, s, step).run.Some?
    requires !HasMoreToDial(settings, s.run.value, s.now, view)
    requires s.run.value.loop.Admitted? ==> Visiting(s.run.value) == c
    ensures !step.Originate?
    ensures var n := Take(cfg, settings, s, step);
      && !HasMoreToDial(settings, n.run.value, n.now, view)
      && (n.run.value.loop.Admitted? ==> Visiting(n.run.value) == c)
  {
    var move := MoveOf(settings, s, step);
    if move.Some? {
      NoMoreMove(cfg, s.run.value, s.now, move.value);
    }
  }

  lemma {:induction false} NoMoreDials(
    cfg: Config, settings: CampaignSettings, s: Sys, steps: seq<Step>, c: ContactId, view: Option<Contact>)
    requires ValidRun(cfg, settings, s, steps) && StaysHalted(cfg, settings, s, steps) && AtOnce(steps)
    requires Sees(cfg, settings, s, steps, c, view) && !HasMoreToDial(settings, s.run.value, s.now, view)
    requires s.run.value.loop.Admitted? ==> Visiting(s.run.value) == c
    ensures Originates(steps) == 0
    decreases |steps|
  {
    if steps != [] {
      assert steps[0] in steps;
      NoMoreStep(cfg, settings, s, steps[0], c, view);
      NoMoreDials(cfg, settings, Take(cfg, settings, s, steps[0]), steps[1..], c, view);
    }
  }

  /** The same, whatever time passes and whatever rechecks see. */
  ghost predicate EverDialsOn(cfg: Config, settings: CampaignSettings, s: Sys) {
    exists steps :: ValidRun(cfg, settings, s, steps) && StaysHalted(cfg, settings, s, steps) && Originates(steps) > 0
  }

  /** A contact that waits for its recheck counts then if it is below the attempt cap. */
  predicate MayEverDial(s: Sys, r: Run) {
    || UnaskedCount(r.tasks) > 0 || r.loop.Cleared?
    || (r.loop.Admitted? && Visiting(r) in s.rows && s.rows[Visiting(r)].attempts < MAX_ATTEMPTS_PER_CONTACT)
  }

  lemma CappedIsRejected(settings: CampaignSettings, s: Sys, c: ContactId, view: Option<Contact>)
    requires c in s.rows && s.rows[c].attempts >= MAX_ATTEMPTS_PER_CONTACT && Shows(view, s, c)
    ensures Judged(view, settings, s.now) != None
  {
  }

  lemma NeverMoreStep(cfg: Config, settings: CampaignSettings, s: Sys, step: Step)
    requires Halted(s) && CanTake(cfg, settings, s, step) && Take(cfg, settings, s, step).run.Some?
    requires !MayEverDial(s, s.run.value) && (s.run.value.loop.Admitted? ==> Visiting(s.run.value) in s.rows)
    ensures !step.Originate?
    ensures var n := Take(cfg, settings, s, step);
      !MayEverDial(n, n.run.value) && (n.run.value.loop.Admitted? ==> Visiting(n.run.value) in n.rows)
  {
    if step.Recheck? {
      CappedIsRejected(settings, s, Visiting(s.run.value), step.view);
    }
    var move := MoveOf(settings, s, step);
    if move.Some? {
      NoMoreMove(cfg, s.run.value, s.now, move.value);
    }
  }

  lemma {:induction false} NeverMoreDials(cfg: Config, settings: CampaignSettings, s: Sys, steps: seq<Step>)
    requires ValidRun(cfg, settings, s, steps) && StaysHalted(cfg, settings, s, steps)
    requires !MayEverDial(s, s.run.value) && (s.run.value.loop.Admitted? ==> Visiting(s.run.value) in s.rows)
    ensures Originates(steps) == 0
    decreases |steps|
  {
    if steps != [] {
      NeverMoreStep(cfg, settings, s, steps[0]);
      NeverMoreDials(cfg, settings, Take(cfg, settings, s, steps[0]), steps[1..]);
    }
  }

  lemma DialsOnEver(cfg: Config, settings: CampaignSettings, s: Sys, c: ContactId, view: Option<Contact>)
    requires DialsOn(cfg, settings, s, c, view)
    ensures EverDialsOn(cfg, settings, s)
  {
    var steps :| ValidRun(cfg, settings, s, steps) && StaysHalted(cfg, settings, s, steps) && AtOnce(steps)
      && Sees(cfg, settings, s, steps, c, view) && Originates(steps) > 0;
  }

  lemma TickThenEver(cfg: Config, settings: CampaignSettings, s: Sys, elapsed: nat)
    requires Halted(s) && EverDialsOn(cfg, settings, s.(now := s.now + elapsed))
    ensures EverDialsOn(cfg, settings, s)
  {
    var n := Take(cfg, settings, s, Tick(elapsed));
    assert n == s.(now := s.now + elapsed);
    var rest :| ValidRun(cfg, settings, n, rest) && StaysHalted(cfg, settings, n, rest) && Originates(rest) > 0;
    var steps := [Tick(elapsed)] + rest;
    assert steps[1..] == rest;
    assert ValidRun(cfg, settings, s, steps) && StaysHalted(cfg, settings, s, steps);
  }

  /** A day later the window is as it was, and the gap since the last attempt has passed. */
  lemma AdmittedEverDials(cfg: Config, settings: CampaignSettings, s: Sys)
    requires Halted(s) && Stands(cfg, s) && cfg.maxConcurrent >= 1 && s.run.value.loop.Admitted?
    requires var row := s.rows[Visiting(s.run.value)];
      row.attempts < MAX_ATTEMPTS_PER_CONTACT && (row.lastAttemptAt.Some? ==> row.lastAttemptAt.value <= s.now)
    ensures EverDialsOn(cfg, settings, s)
  {
    var n := s.(now := s.now + DAY);
    var c := Visiting(s.run.value);
    var view := Some(PassingView(n.rows[c], c, n.now));
    HaltedADayLater(s);
    ViewPasses(settings, n, c);
    AdmittedDials(cfg, settings, n, view);
    DialsOnEver(cfg, settings, n, c, view);
    TickThenEver(cfg, settings, s, DAY);
  }

  lemma HaltedADayLater(s: Sys)
    requires Halted(s)
    ensures Halted(s.(now := s.now + DAY))
  {
    assert WithinCallingWindow(s.now + DAY) == WithinCallingWindow(s.now);
  }

  lemma ViewPasses(settings: CampaignSettings, s: Sys, c: ContactId)
    requires c in s.rows && Ready(s.rows[c], s.now)
    ensures var view := Some(PassingView(s.rows[c], c, s.now));
      Shows(view, s, c) && Judged(view, settings, s.now) == None
  {
  }

  lemma ReachableStands(cfg: Config, settings: CampaignSettings, start: Sys, before: seq<Step>)
    requires Fresh(start) && ValidRun(cfg, settings, start, before) && After(cfg, settings, start, before).run.Some?
    ensures var s := After(cfg, settings, start, before);
      && Stands(cfg, s)
      && forall c :: c in s.rows && s.rows[c].lastAttemptAt.Some? ==> s.rows[c].lastAttemptAt.value <= s.now
  {
    forall b | b in start.rows
      ensures RowInv(start.rows[b], start.rows[b], LogOf(start, b), OriginatesOf(start, b), start.now)
    {
    }
    RunsKeepInv(cfg, settings, start, start, before);
    var s := After(cfg, settings, start, before);
    forall k | 0 <= k < |s.run.value.tasks|
      ensures s.run.value.tasks[k].contact in s.rows
    {
      assert TaskInv(s, s.run.value.tasks[k]);
    }
    forall c | c in s.rows && s.rows[c].lastAttemptAt.Some?
      ensures s.rows[c].lastAttemptAt.value <= s.now
    {
      assert RowInv(start.rows[c], s.rows[c], LogOf(s, c), OriginatesOf(s, c), s.now);
    }
  }

  /**
   A session that is halted, by a flag or by the closed window, still asks the provider at this instant
   exactly when it holds a task that has not asked yet, a contact cleared for a launch, or a contact past
   its window check whose recheck finds nothing. `view` is what that recheck sees.
   */
  lemma HaltedSessionDialsExactlyWhen(
    cfg: Config, settings: CampaignSettings, start: Sys, before: seq<Step>, view: Option<Contact>)
    requires cfg.maxConcurrent >= 1 && Fresh(start) && ValidRun(cfg, settings, start, before)
    requires Halted(After(cfg, settings, start, before))
    requires var s := After(cfg, settings, start, before); Shows(view, s, Visiting(s.run.value))
    ensures var s := After(cfg, settings, start, before);
      DialsOn(cfg, settings, s, Visiting(s.run.value), view) <==> HasMoreToDial(settings, s.run.value, s.now, view)
  {
    var s := After(cfg, settings, start, before);
    var c := Visiting(s.run.value);
    ReachableStands(cfg, settings, start, before);
    if UnaskedCount(s.run.value.tasks) > 0 {
      UnaskedDials(cfg, settings, s, c, view);
    } else if s.run.value.loop.Cleared? {
      ClearedDials(cfg, settings, s, c, view);
    } else if s.run.value.loop.Admitted? && Judged(view, settings, s.now) == None {
      AdmittedDials(cfg, settings, s, view);
    } else if DialsOn(cfg, settings, s, c, view) {
      var steps :| ValidRun(cfg, settings, s, steps) && StaysHalted(cfg, settings, s, steps) && AtOnce(steps)
        && Sees(cfg, settings, s, steps, c, view) && Originates(steps) > 0;
      NoMoreDials(cfg, settings, s, steps, c, view);
    }
  }

  /**
   However long it stays halted, and whatever its recheck comes to see, it asks the provider exactly when
   it holds such a task, such a contact, or one past its window check that is below the attempt cap.
   */
  lemma HaltedSessionEverDialsExactlyWhen(
    cfg: Config, settings: CampaignSettings, start: Sys, before: seq<Step>)
    requires cfg.maxConcurrent >= 1 && Fresh(start) && ValidRun(cfg, settings, start, before)
    requires Halted(After(cfg, settings, start, before))
    ensures var s := After(cfg, settings, start, before);
      EverDialsOn(cfg, settings, s) <==> MayEverDial(s, s.run.value)
  {
    var s := After(cfg, settings, start, before);
    var c := Visiting(s.run.value);
    ReachableStands(cfg, settings, start, before);
    if UnaskedCount(s.run.value.tasks) > 0 {
      UnaskedDials(cfg, settings, s, c, None);
      DialsOnEver(cfg, settings, s, c, None);
    } else if s.run.value.loop.Cleared? {
      ClearedDials(cfg, settings, s, c, None);
      DialsOnEver(cfg, settings, s, c, None);
    } else if MayEverDial(s, s.run.value) {
      AdmittedEverDials(cfg, settings, s);
    } else if EverDialsOn(cfg, settings, s) {
      var steps :| ValidRun(cfg, settings, s, steps) && StaysHalted(cfg, settings, s, steps) && Originates(steps) > 0;
      NeverMoreDials(cfg, settings, s, steps);
    }
  }

  // ----- and it does happen

  /** These steps lead to where the provider is asked for the contact. */
  ghost predicate ReachesDial(
    cfg: Config, settings: CampaignSettings, s: Sys, steps: seq<Step>, k: nat, c: ContactId)
  {
    ValidRun(cfg, settings, s, steps) &&
    var n := After(cfg, settings, s, steps);
    CanTake(cfg, settings, n, Originate(k)) && n.run.value.tasks[k].contact == c
  }

  lemma DialOnlyBelowCap(cfg: Config, settings: CampaignSettings, s: Sys, steps: seq<Step>, k: nat, c: ContactId)
    requires Fresh(s) && c in s.rows && ReachesDial(cfg, settings, s, steps, k, c)
    ensures s.rows[c].attempts < MAX_ATTEMPTS_PER_CONTACT && GateCanPass(settings)
  {
    forall b | b in s.rows
      ensures RowInv(s.rows[b], s.rows[b], LogOf(s, b), OriginatesOf(s, b), s.now)
    {
    }
    RunsKeepInv(cfg, settings, s, s, steps);
    var n := After(cfg, settings, s, steps);
    assert TaskInv(n, n.run.value.tasks[k]);
    RungOnlyBelowCap(cfg, settings, s, c);
  }

  /** An attempt recorded half a second before nine in the evening, and one more step before the dial. */
  lemma DialAfter(cfg: Config, settings: CampaignSettings, s: Sys, list: seq<ContactId>, last: Step)
    requires Fresh(s) && CanList(s, list) && cfg.maxConcurrent >= 1 && GateCanPass(settings)
    requires s.rows[list[0]].attempts < MAX_ATTEMPTS_PER_CONTACT
    requires last == Tick(SECOND) || last == Turn(Flag(false))
    ensures LastMoment(s.now) >= s.now && ReachesDial(cfg, settings, s, LateSteps(s, list, [last]), 0, list[0])
    ensures var recorded := AtTask(Recorded1(AtLastMoment(s), list[0]), list, Recorded);
      CanTake(cfg, settings, recorded, last)
      && After(cfg, settings, s, LateSteps(s, list, [last])) == Take(cfg, settings, recorded, last)
  {
    assert [last][1..] == [];
    AttemptLate(cfg, settings, s, list, [last]);
  }

  ghost predicate CanBeDialledOutsideTheWindow(cfg: Config, settings: CampaignSettings, s: Sys, c: ContactId) {
    exists steps, k :: ReachesDial(cfg, settings, s, steps, k, c)
      && !WithinCallingWindow(After(cfg, settings, s, steps).now)
  }

  ghost predicate CanBeDialledAfterAPause(cfg: Config, settings: CampaignSettings, s: Sys, c: ContactId) {
    exists steps, k :: ReachesDial(cfg, settings, s, steps, k, c) && HasFlag(After(cfg, settings, s, steps))
  }

  lemma LateDialsExist(cfg: Config, settings: CampaignSettings, s: Sys, list: seq<ContactId>)
    requires Fresh(s) && CanList(s, list) && cfg.maxConcurrent >= 1 && GateCanPass(settings)
    requires s.rows[list[0]].attempts < MAX_ATTEMPTS_PER_CONTACT
    ensures CanBeDialledOutsideTheWindow(cfg, settings, s, list[0])
  {
    LastMomentIsOpen(s.now);
    DialAfter(cfg, settings, s, list, Tick(SECOND));
    var steps := LateSteps(s, list, [Tick(SECOND)]);
    assert After(cfg, settings, s, steps).now == LastMoment(s.now) + SECOND;
  }

  lemma PausedDialsExist(cfg: Config, settings: CampaignSettings, s: Sys, list: seq<ContactId>)
    requires Fresh(s) && CanList(s, list) && cfg.maxConcurrent >= 1 && GateCanPass(settings)
    requires s.rows[list[0]].attempts < MAX_ATTEMPTS_PER_CONTACT
    ensures CanBeDialledAfterAPause(cfg, settings, s, list[0])
  {
    DialAfter(cfg, settings, s, list, Turn(Flag(false)));
    var steps := LateSteps(s, list, [Turn(Flag(false))]);
    assert HasFlag(After(cfg, settings, s, steps));
  }

  /**
   Which contacts can be dialled outside the calling window: all that can be rung at all. The call goes
   out half a second after the window closed.
   */
  lemma DialledOutsideTheWindow(cfg: Config, settings: CampaignSettings, s: Sys, list: seq<ContactId>)
    requires Fresh(s) && CanList(s, list) && cfg.maxConcurrent >= 1
    ensures CanBeDialledOutsideTheWindow(cfg, settings, s, list[0])
       <==> s.rows[list[0]].attempts < MAX_ATTEMPTS_PER_CONTACT && GateCanPass(settings)
  {
    if CanBeDialledOutsideTheWindow(cfg, settings, s, list[0]) {
      var steps, k :| ReachesDial(cfg, settings, s, steps, k, list[0])
        && !WithinCallingWindow(After(cfg, settings, s, steps).now);
      DialOnlyBelowCap(cfg, settings, s, steps, k, list[0]);
    }
    if s.rows[list[0]].attempts < MAX_ATTEMPTS_PER_CONTACT && GateCanPass(settings) {
      LateDialsExist(cfg, settings, s, list);
    }
  }

  /** Which contacts can be dialled after a pause: the same. The call goes out after the flag is set. */
  lemma DialledAfterAPause(cfg: Config, settings: CampaignSettings, s: Sys, list: seq<ContactId>)
    requires Fresh(s) && CanList(s, list) && cfg.maxConcurrent >= 1
    ensures CanBeDialledAfterAPause(cfg, settings, s, list[0])
       <==> s.rows[list[0]].attempts < MAX_ATTEMPTS_PER_CONTACT && GateCanPass(settings)
  {
    if CanBeDialledAfterAPause(cfg, settings, s, list[0]) {
      var steps, k :| ReachesDial(cfg, settings, s, steps, k, list[0]) && HasFlag(After(cfg, settings, s, steps));
      DialOnlyBelowCap(cfg, settings, s, steps, k, list[0]);
    }
    if s.rows[list[0]].attempts < MAX_ATTEMPTS_PER_CONTACT && GateCanPass(settings) {
      PausedDialsExist(cfg, settings, s, list);
    }
  }
}
