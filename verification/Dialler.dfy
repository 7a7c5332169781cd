/**
 One dialling session: `Dialer.run` of apps/worker/src/worker/dialer.py as a machine of interleaving
 moves. The loop over the list, the tasks it launches and the operator's flags each move on their
 own; a move stands for what happens between two awaits.
 */
module Dialler {
  import opened Wrappers
  import opened Compliance

  type ContactId = nat

  datatype TaskState =
    | Queued       // created; waiting for the semaphore
    | Holding      // inside the semaphore; no attempt recorded
    | Recorded     // the attempt is committed; the provider has not been asked
    | Calling      // the provider has been asked
    | Refused      // the provider refused; the failure is not written yet
    | Finished

  datatype Task = Task(contact: ContactId, windowCheckedAt: int, recheckedAt: int, launchedAt: int, state: TaskState) {
    predicate Active() {
      state.Holding? || state.Recorded? || state.Calling? || state.Refused?
    }
  }

  datatype Outcome =
    | Dialled(contact: ContactId)
    | Skipped(contact: ContactId, check: Check)
    | Errored(contact: ContactId)

  datatype StopReason = Cancelled | Paused | OutsideWindow

  /** Where the loop over the list stands. */
  datatype Loop =
    | Top
    | Admitted(windowAt: int)                   // not paused, not cancelled, window open
    | Cleared(windowAt: int, recheckedAt: int)  // the recheck found nothing
    | Sleeping(since: int)                      // the pacing sleep after a launch
    | Draining                                  // left; waiting for the tasks

  /** `flaggedAt` keeps how many tasks had been launched when a pause or cancel was first set. */
  datatype Run = Run(
    list: seq<ContactId>, next: nat, loop: Loop, tasks: seq<Task>, outcomes: seq<Outcome>,
    stopped: Option<StopReason>, paused: bool, cancelled: bool, flaggedAt: Option<nat>)

  datatype Config = Config(maxConcurrent: nat, callsPerMinute: int) {
    function Rate(): nat {
      if callsPerMinute <= 1 then 1 else callsPerMinute
    }
  }

  datatype Move =
    | Flag(cancel: bool)
    | Stop
    | Admit
    | Reject(check: Check)
    | Clear
    | Launch
    | Wake
    | Leave
    | Acquire(k: nat)
    | Advance(k: nat, state: TaskState)
    | Finish(k: nat, dialled: bool)

  function Started(list: seq<ContactId>): Run {
    Run(list, 0, Top, [], [], None, false, false, None)
  }

  function ActiveCount(tasks: seq<Task>): nat {
    if tasks == [] then 0
    else ActiveCount(tasks[..|tasks| - 1]) + if tasks[|tasks| - 1].Active() then 1 else 0
  }

  predicate NoRepeats(list: seq<ContactId>) {
    forall i, j :: 0 <= i < j < |list| ==> list[i] != list[j]
  }

  predicate MayGoOn(r: Run, now: int) {
    !r.paused && !r.cancelled && WithinCallingWindow(now)
  }

  predicate Enabled(cfg: Config, r: Run, now: int, m: Move) {
    match m
    case Flag(_) => true
    case Stop => r.loop == Top && r.next < |r.list| && !MayGoOn(r, now)
    case Admit => r.loop == Top && r.next < |r.list| && MayGoOn(r, now)
    case Reject(_) => r.loop.Admitted? && r.next < |r.list|
    case Clear => r.loop.Admitted? && r.next < |r.list|
    case Launch => r.loop.Cleared? && r.next < |r.list|
    case Wake => r.loop.Sleeping? && (now - r.loop.since) * cfg.Rate() >= 60 * SECOND
    case Leave => r.loop == Top && r.next >= |r.list|
    case Acquire(k) => k < |r.tasks| && r.tasks[k].state == Queued && ActiveCount(r.tasks) < cfg.maxConcurrent
    case Advance(k, state) =>
      k < |r.tasks| && r.tasks[k].Active() && (state.Recorded? || state.Calling? || state.Refused?)
    case Finish(k, _) => k < |r.tasks| && r.tasks[k].Active()
  }

  function SetTask(r: Run, k: nat, state: TaskState): Run
    requires k < |r.tasks|
  {
    r.(tasks := r.tasks[k := r.tasks[k].(state := state)])
  }

  function Moved(cfg: Config, r: Run, now: int, m: Move): Run
    requires Enabled(cfg, r, now, m)
  {
    match m
    case Flag(cancel) =>
      var first := if r.flaggedAt == None then Some(|r.tasks|) else r.flaggedAt;
      if cancel then r.(cancelled := true, flaggedAt := first) else r.(paused := true, flaggedAt := first)
    case Stop =>
      r.(loop := Draining,
         stopped := Some(if r.cancelled then Cancelled else if r.paused then Paused else OutsideWindow))
    case Admit => r.(loop := Admitted(now))
    case Reject(check) =>
      r.(loop := Top, next := r.next + 1, outcomes := r.outcomes + [Skipped(r.list[r.next], check)])
    case Clear => r.(loop := Cleared(r.loop.windowAt, now))
    case Launch =>
      var task := Task(r.list[r.next], r.loop.windowAt, r.loop.recheckedAt, now, Queued);
      r.(loop := Sleeping(now), next := r.next + 1, tasks := r.tasks + [task])
    case Wake => r.(loop := Top)
    case Leave => r.(loop := Draining)
    case Acquire(k) => SetTask(r, k, Holding)
    case Advance(k, state) => SetTask(r, k, state)
    case Finish(k, dialled) =>
      var c := r.tasks[k].contact;
      SetTask(r, k, Finished).(outcomes := r.outcomes + [if dialled then Dialled(c) else Errored(c)])
  }

  predicate Returns(r: Run) {
    r.loop == Draining && forall k :: 0 <= k < |r.tasks| ==> r.tasks[k].state == Finished
  }

  // ----- what every move keeps

  ghost predicate Shape(r: Run) {
    && NoRepeats(r.list) && r.next <= |r.list|
    && (r.loop.Admitted? || r.loop.Cleared? ==> r.next < |r.list|)
    && (r.stopped.Some? ==> r.loop == Draining && r.next < |r.list|)
    && (r.loop == Draining && r.stopped == None ==> r.next == |r.list|)
  }

  /** A gap of 60 / rate seconds or more, cross-multiplied. */
  ghost predicate GapKept(cfg: Config, earlier: int, later: int) {
    (later - earlier) * cfg.Rate() >= 60 * SECOND
  }

  ghost predicate Paced(cfg: Config, r: Run, now: int) {
    && (forall i, j :: 0 <= i && j == i + 1 < |r.tasks| ==> GapKept(cfg, r.tasks[i].launchedAt, r.tasks[j].launchedAt))
    && (r.loop.Sleeping? ==> r.tasks != [] && r.tasks[|r.tasks| - 1].launchedAt == r.loop.since)
    && (r.tasks != [] && (r.loop == Top || r.loop.Admitted? || r.loop.Cleared?) ==>
          GapKept(cfg, r.tasks[|r.tasks| - 1].launchedAt, now))
  }

  /** Every launch followed a look at the clock inside the calling window, and then a recheck. */
  ghost predicate Checked(r: Run, now: int) {
    && (forall k :: 0 <= k < |r.tasks| ==>
          && WithinCallingWindow(r.tasks[k].windowCheckedAt)
          && r.tasks[k].windowCheckedAt <= r.tasks[k].recheckedAt <= r.tasks[k].launchedAt <= now)
    && (r.loop.Admitted? ==> WithinCallingWindow(r.loop.windowAt) && r.loop.windowAt <= now)
    && (r.loop.Cleared? ==> WithinCallingWindow(r.loop.windowAt) && r.loop.windowAt <= r.loop.recheckedAt <= now)
  }

  /** Once a pause or cancel is set, at most the contact in hand is still launched. */
  ghost predicate Heeded(r: Run) {
    && (r.flaggedAt.Some? <==> r.paused || r.cancelled)
    && (r.flaggedAt.Some? ==>
          r.flaggedAt.value <= |r.tasks| <= r.flaggedAt.value + if r.loop.Admitted? || r.loop.Cleared? then 0 else 1)
  }

  function UnfinishedFor(tasks: seq<Task>, c: ContactId): nat {
    if tasks == [] then 0
    else UnfinishedFor(tasks[..|tasks| - 1], c) + Held(tasks[|tasks| - 1], c)
  }

  function Held(t: Task, c: ContactId): nat {
    if t.contact == c && t.state != Finished then 1 else 0
  }

  function OutcomesFor(outcomes: seq<Outcome>, c: ContactId): nat {
    if outcomes == [] then 0
    else OutcomesFor(outcomes[..|outcomes| - 1], c) + if outcomes[|outcomes| - 1].contact == c then 1 else 0
  }

  /** A visited contact has one outcome or one unfinished task; nobody else has either. */
  ghost predicate AccountedFor(r: Run, c: ContactId)
    requires r.next <= |r.list|
  {
    OutcomesFor(r.outcomes, c) + UnfinishedFor(r.tasks, c) == if c in r.list[..r.next] then 1 else 0
  }

  ghost predicate Accounted(r: Run) {
    r.next <= |r.list| && forall c :: AccountedFor(r, c)
  }

  ghost predicate OneTaskEach(r: Run) {
    && r.next <= |r.list|
    && (forall k :: 0 <= k < |r.tasks| ==> r.tasks[k].contact in r.list[..r.next])
    && (forall i, j :: 0 <= i < j < |r.tasks| ==> r.tasks[i].contact != r.tasks[j].contact)
  }

  function UnfinishedCount(tasks: seq<Task>): nat {
    if tasks == [] then 0
    else UnfinishedCount(tasks[..|tasks| - 1]) + if tasks[|tasks| - 1].state == Finished then 0 else 1
  }

  ghost predicate Tallied(r: Run) {
    |r.outcomes| + UnfinishedCount(r.tasks) == r.next
  }

  ghost predicate RunInv(cfg: Config, r: Run, now: int) {
    && Shape(r) && ActiveCount(r.tasks) <= cfg.maxConcurrent && Paced(cfg, r, now) && Checked(r, now) && Heeded(r)
    && Accounted(r) && OneTaskEach(r) && Tallied(r)
  }

  lemma {:induction false} ActiveUpdated(tasks: seq<Task>, k: nat, t: Task)
    requires k < |tasks|
    ensures ActiveCount(tasks[k := t]) + (if tasks[k].Active() then 1 else 0)
         == ActiveCount(tasks) + if t.Active() then 1 else 0
  {
    var n := |tasks| - 1;
    if k == n {
      assert tasks[k := t][..n] == tasks[..n];
    } else {
      assert tasks[k := t][..n] == tasks[..n][k := t];
      ActiveUpdated(tasks[..n], k, t);
    }
  }

  lemma {:induction false} UnfinishedUpdated(tasks: seq<Task>, k: nat, t: Task, c: ContactId)
    requires k < |tasks|
    ensures UnfinishedFor(tasks[k := t], c) + Held(tasks[k], c) == UnfinishedFor(tasks, c) + Held(t, c)
  {
    var n := |tasks| - 1;
    if k == n {
      assert tasks[k := t][..n] == tasks[..n];
    } else {
      assert tasks[k := t][..n] == tasks[..n][k := t];
      UnfinishedUpdated(tasks[..n], k, t, c);
    }
  }

  lemma {:induction false} UnfinishedCountUpdated(tasks: seq<Task>, k: nat, t: Task)
    requires k < |tasks|
    ensures UnfinishedCount(tasks[k := t]) + (if tasks[k].state == Finished then 0 else 1)
         == UnfinishedCount(tasks) + if t.state == Finished then 0 else 1
  {
    var n := |tasks| - 1;
    if k == n {
      assert tasks[k := t][..n] == tasks[..n];
    } else {
      assert tasks[k := t][..n] == tasks[..n][k := t];
      UnfinishedCountUpdated(tasks[..n], k, t);
    }
  }

  lemma TalliedKept(cfg: Config, r: Run, now: int, m: Move)
    requires Enabled(cfg, r, now, m) && Tallied(r)
    ensures Tallied(Moved(cfg, r, now, m))
  {
    var q := Moved(cfg, r, now, m);
    match m
    case Acquire(k) => UnfinishedCountUpdated(r.tasks, k, r.tasks[k].(state := Holding));
    case Advance(k, state) => UnfinishedCountUpdated(r.tasks, k, r.tasks[k].(state := state));
    case Finish(k, _) => UnfinishedCountUpdated(r.tasks, k, r.tasks[k].(state := Finished));
    case Launch => assert q.tasks[..|q.tasks| - 1] == r.tasks;
    case _ =>
  }

  lemma ActiveKept(cfg: Config, r: Run, now: int, m: Move)
    requires Enabled(cfg, r, now, m) && ActiveCount(r.tasks) <= cfg.maxConcurrent
    ensures ActiveCount(Moved(cfg, r, now, m).tasks) <= cfg.maxConcurrent
  {
    match m
    case Acquire(k) => ActiveUpdated(r.tasks, k, r.tasks[k].(state := Holding));
    case Advance(k, state) => ActiveUpdated(r.tasks, k, r.tasks[k].(state := state));
    case Finish(k, _) => ActiveUpdated(r.tasks, k, r.tasks[k].(state := Finished));
    case Launch =>
      var tasks := Moved(cfg, r, now, m).tasks;
      assert tasks[..|tasks| - 1] == r.tasks;
    case _ =>
  }

  lemma PacingKept(cfg: Config, r: Run, now: int, m: Move)
    requires Enabled(cfg, r, now, m) && Paced(cfg, r, now)
    ensures Paced(cfg, Moved(cfg, r, now, m), now)
  {
  }

  lemma CheckedKept(cfg: Config, r: Run, now: int, m: Move)
    requires Enabled(cfg, r, now, m) && Checked(r, now)
    ensures Checked(Moved(cfg, r, now, m), now)
  {
  }

  lemma HeededKept(cfg: Config, r: Run, now: int, m: Move)
    requires Enabled(cfg, r, now, m) && Heeded(r)
    ensures Heeded(Moved(cfg, r, now, m))
  {
  }

  lemma FinishAccounted(cfg: Config, r: Run, now: int, k: nat, dialled: bool, c: ContactId)
    requires Enabled(cfg, r, now, Finish(k, dialled)) && Shape(r) && AccountedFor(r, c)
    ensures AccountedFor(Moved(cfg, r, now, Finish(k, dialled)), c)
  {
    var contact := r.tasks[k].contact;
    UnfinishedUpdated(r.tasks, k, r.tasks[k].(state := Finished), c);
  }

  lemma SetTaskAccounted(r: Run, k: nat, state: TaskState, c: ContactId)
    requires k < |r.tasks| && r.tasks[k].state != Finished && state != Finished
    requires r.next <= |r.list| && AccountedFor(r, c)
    ensures AccountedFor(SetTask(r, k, state), c)
  {
    UnfinishedUpdated(r.tasks, k, r.tasks[k].(state := state), c);
  }

  /** The contact visited next is the one that joins those visited. */
  lemma VisitedNext(r: Run, c: ContactId)
    requires Shape(r) && r.next < |r.list|
    ensures c in r.list[..r.next + 1] <==> c in r.list[..r.next] || c == r.list[r.next]
    ensures r.list[r.next] !in r.list[..r.next]
  {
    assert r.list[..r.next + 1] == r.list[..r.next] + [r.list[r.next]];
  }

  lemma LaunchAccounted(cfg: Config, r: Run, now: int, c: ContactId)
    requires Enabled(cfg, r, now, Launch) && Shape(r) && AccountedFor(r, c)
    ensures var q := Moved(cfg, r, now, Launch);
      q.next <= |q.list| && AccountedFor(q, c)
  {
    VisitedNext(r, c);
    var q := Moved(cfg, r, now, Launch);
    assert q.tasks[..|q.tasks| - 1] == r.tasks;
  }

  lemma RejectAccounted(cfg: Config, r: Run, now: int, check: Check, c: ContactId)
    requires Enabled(cfg, r, now, Reject(check)) && Shape(r) && AccountedFor(r, c)
    ensures var q := Moved(cfg, r, now, Reject(check));
      q.next <= |q.list| && AccountedFor(q, c)
  {
    VisitedNext(r, c);
    var q := Moved(cfg, r, now, Reject(check));
    assert q.outcomes[..|q.outcomes| - 1] == r.outcomes;
  }

  lemma AccountedKept(cfg: Config, r: Run, now: int, m: Move, c: ContactId)
    requires Enabled(cfg, r, now, m) && Shape(r) && AccountedFor(r, c)
    ensures var q := Moved(cfg, r, now, m);
      q.next <= |q.list| && AccountedFor(q, c)
  {
    match m
    case Acquire(k) => SetTaskAccounted(r, k, Holding, c);
    case Advance(k, state) => SetTaskAccounted(r, k, state, c);
    case Finish(k, dialled) => FinishAccounted(cfg, r, now, k, dialled, c);
    case Launch => LaunchAccounted(cfg, r, now, c);
    case Reject(check) => RejectAccounted(cfg, r, now, check, c);
    case _ =>
  }

  lemma LaunchOneTask(cfg: Config, r: Run, now: int)
    requires Enabled(cfg, r, now, Launch) && OneTaskEach(r) && NoRepeats(r.list)
    ensures OneTaskEach(Moved(cfg, r, now, Launch))
  {
    assert r.list[..r.next + 1] == r.list[..r.next] + [r.list[r.next]];
    assert r.list[r.next] !in r.list[..r.next];
  }

  lemma SetTaskOneTask(r: Run, k: nat, state: TaskState)
    requires k < |r.tasks| && OneTaskEach(r)
    ensures OneTaskEach(SetTask(r, k, state))
  {
  }

  lemma OneTaskEachKept(cfg: Config, r: Run, now: int, m: Move)
    requires Enabled(cfg, r, now, m) && OneTaskEach(r) && NoRepeats(r.list)
    ensures OneTaskEach(Moved(cfg, r, now, m))
  {
    match m
    case Acquire(k) => SetTaskOneTask(r, k, Holding);
    case Advance(k, state) => SetTaskOneTask(r, k, state);
    case Finish(k, _) => SetTaskOneTask(r, k, Finished);
    case Launch => LaunchOneTask(cfg, r, now);
    case Reject(_) => assert r.list[..r.next + 1] == r.list[..r.next] + [r.list[r.next]];
    case _ =>
  }

  lemma MoveKeepsInv(cfg: Config, r: Run, now: int, m: Move)
    requires Enabled(cfg, r, now, m) && RunInv(cfg, r, now)
    ensures RunInv(cfg, Moved(cfg, r, now, m), now)
  {
    ActiveKept(cfg, r, now, m);
    PacingKept(cfg, r, now, m);
    CheckedKept(cfg, r, now, m);
    HeededKept(cfg, r, now, m);
    forall c
      ensures AccountedFor(Moved(cfg, r, now, m), c)
    {
      AccountedKept(cfg, r, now, m, c);
    }
    OneTaskEachKept(cfg, r, now, m);
    TalliedKept(cfg, r, now, m);
  }

  lemma StartedInv(cfg: Config, list: seq<ContactId>, now: int)
    requires NoRepeats(list)
    ensures RunInv(cfg, Started(list), now)
  {
  }

  // ----- what single moves say

  /** A loop that stops names a cancel before a pause, and the closed window only where neither is set. */
  lemma StopsFor(cfg: Config, r: Run, now: int)
    requires Enabled(cfg, r, now, Stop)
    ensures var reason := Moved(cfg, r, now, Stop).stopped;
      && (reason == Some(Cancelled) <==> r.cancelled)
      && (reason == Some(Paused) <==> r.paused && !r.cancelled)
      && (reason == Some(OutsideWindow) <==> !r.paused && !r.cancelled)
      && (reason == Some(OutsideWindow) ==> !WithinCallingWindow(now))
  {
  }

  /** The reason agrees with the flags, which are never taken back. */
  ghost predicate Reasoned(r: Run) {
    && (r.stopped == Some(Cancelled) ==> r.cancelled) && (r.stopped == Some(Paused) ==> r.paused)
    && (r.stopped.Some? && !r.paused && !r.cancelled ==> r.stopped == Some(OutsideWindow))
  }

  lemma ReasonKept(cfg: Config, r: Run, now: int, m: Move)
    requires Enabled(cfg, r, now, m) && Shape(r) && Reasoned(r)
    ensures Reasoned(Moved(cfg, r, now, m)) && (r.stopped.Some? ==> Moved(cfg, r, now, m).stopped == r.stopped)
    ensures r.paused ==> Moved(cfg, r, now, m).paused
    ensures r.cancelled ==> Moved(cfg, r, now, m).cancelled
    ensures m == Flag(true) ==> Moved(cfg, r, now, m).cancelled
    ensures m == Flag(false) ==> Moved(cfg, r, now, m).paused
  {
  }

  /** The pacing sleep ends as soon as that part of a minute is over, and no sooner. */
  lemma WakesWhen(cfg: Config, r: Run, now: int)
    requires r.loop.Sleeping?
    ensures var rate := if cfg.callsPerMinute <= 1 then 1 else cfg.callsPerMinute;
      Enabled(cfg, r, now, Wake) <==> (now - r.loop.since) * rate >= 60_000_000
  {
  }

  /** A waiting task gets its turn while fewer than the allowed number are active. */
  lemma AcquiresWhen(cfg: Config, r: Run, now: int, k: nat)
    requires k < |r.tasks| && r.tasks[k].state == Queued
    ensures Enabled(cfg, r, now, Acquire(k)) <==> ActiveCount(r.tasks) < cfg.maxConcurrent
  {
  }

  /** What a move adds to the report: a contact refused with its check, dialled, or not. */
  lemma OutcomeAdded(cfg: Config, r: Run, now: int, m: Move)
    requires Enabled(cfg, r, now, m)
    ensures var (before, after) := (r.outcomes, Moved(cfg, r, now, m).outcomes);
      && (m.Reject? ==> after == before + [Skipped(r.list[r.next], m.check)])
      && (m.Finish? && m.dialled ==> after == before + [Dialled(r.tasks[m.k].contact)])
      && (m.Finish? && !m.dialled ==> after == before + [Errored(r.tasks[m.k].contact)])
      && (!m.Reject? && !m.Finish? ==> after == before)
  {
  }

  // ----- what a session promises

  /** Launches number i and j are j - i pacing gaps apart, or more. */
  ghost predicate AllPaced(cfg: Config, tasks: seq<Task>) {
    forall i, j :: 0 <= i <= j < |tasks| ==>
      (tasks[j].launchedAt - tasks[i].launchedAt) * cfg.Rate() >= 60 * SECOND * (j - i)
  }

  lemma {:induction false} TwoLaunchesArePaced(cfg: Config, r: Run, now: int, i: nat, j: nat)
    requires Paced(cfg, r, now) && i <= j < |r.tasks|
    ensures (r.tasks[j].launchedAt - r.tasks[i].launchedAt) * cfg.Rate() >= 60 * SECOND * (j - i)
    decreases j - i
  {
    if i < j {
      TwoLaunchesArePaced(cfg, r, now, i, j - 1);
      assert GapKept(cfg, r.tasks[j - 1].launchedAt, r.tasks[j].launchedAt);
    }
  }

  lemma LaunchesArePaced(cfg: Config, r: Run, now: int)
    requires Paced(cfg, r, now)
    ensures AllPaced(cfg, r.tasks)
  {
    forall i, j | 0 <= i <= j < |r.tasks|
      ensures (r.tasks[j].launchedAt - r.tasks[i].launchedAt) * cfg.Rate() >= 60 * SECOND * (j - i)
    {
      TwoLaunchesArePaced(cfg, r, now, i, j);
    }
  }

  /** At so many calls a minute, and one at least, launches lie that part of a minute apart, in microseconds. */
  lemma LaunchesPerMinute(cfg: Config, r: Run, now: int, i: nat, j: nat)
    requires Paced(cfg, r, now) && i <= j < |r.tasks|
    ensures var rate := if cfg.callsPerMinute <= 1 then 1 else cfg.callsPerMinute;
      (r.tasks[j].launchedAt - r.tasks[i].launchedAt) * rate >= 60_000_000 * (j - i)
  {
    TwoLaunchesArePaced(cfg, r, now, i, j);
  }

  lemma {:induction false} NoneUnfinished(tasks: seq<Task>, c: ContactId)
    requires forall k :: 0 <= k < |tasks| ==> tasks[k].state == Finished
    ensures UnfinishedFor(tasks, c) == 0
  {
    if tasks != [] {
      NoneUnfinished(tasks[..|tasks| - 1], c);
    }
  }

  /**
   When a session returns, every visited contact has exactly one outcome and no other contact has
   any; and no stop reason is given exactly when the whole list was visited.
   */
  lemma OneOutcomeEach(cfg: Config, r: Run, now: int, c: ContactId)
    requires RunInv(cfg, r, now) && Returns(r)
    ensures OutcomesFor(r.outcomes, c) == if c in r.list[..r.next] then 1 else 0
    ensures r.stopped == None <==> r.next == |r.list|
  {
    NoneUnfinished(r.tasks, c);
    assert AccountedFor(r, c);
  }

  function CountOf(outcomes: seq<Outcome>, counts: Outcome -> bool): nat {
    if outcomes == [] then 0
    else CountOf(outcomes[..|outcomes| - 1], counts) + if counts(outcomes[|outcomes| - 1]) then 1 else 0
  }

  lemma {:induction false} KindsCoverOutcomes(outcomes: seq<Outcome>)
    ensures CountOf(outcomes, (o: Outcome) => o.Dialled?) + CountOf(outcomes, (o: Outcome) => o.Skipped?)
          + CountOf(outcomes, (o: Outcome) => o.Errored?) == |outcomes|
  {
    if outcomes != [] {
      KindsCoverOutcomes(outcomes[..|outcomes| - 1]);
    }
  }

  lemma {:induction false} NoneLeft(tasks: seq<Task>)
    requires forall k :: 0 <= k < |tasks| ==> tasks[k].state == Finished
    ensures UnfinishedCount(tasks) == 0
  {
    if tasks != [] {
      NoneLeft(tasks[..|tasks| - 1]);
    }
  }

  /** The three figures of a finished run's report add up to the contacts it visited. */
  lemma ReportCoversVisited(cfg: Config, r: Run, now: int)
    requires RunInv(cfg, r, now) && Returns(r)
    ensures CountOf(r.outcomes, (o: Outcome) => o.Dialled?) + CountOf(r.outcomes, (o: Outcome) => o.Skipped?)
          + CountOf(r.outcomes, (o: Outcome) => o.Errored?) == r.next
  {
    KindsCoverOutcomes(r.outcomes);
    NoneLeft(r.tasks);
  }
}
