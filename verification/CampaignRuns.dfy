/**
 Campaign runs against the contact table: the `recheck`, `dial` and final mark of `run_campaign` in
 apps/worker/src/worker/campaign.py around the dialling session, over any number of runs with a crash
 at any point.

 Runs of one campaign do not overlap and a list names a farmer once: two assumptions of the code. The
 recheck always answers.
 */
module CampaignRuns {
  import opened Wrappers
  import opened Compliance
  import opened ContactStatuses
  import opened Dialler

  datatype Row = Row(attempts: nat, lastAttemptAt: Option<int>, status: ContactStatus)

  datatype CampaignState = CampaignOther | CampaignRunning | CampaignCompleted | CampaignPaused

  /** `log` and `originates` are history: when attempts were recorded, how often the provider was asked. */
  datatype Sys = Sys(
    now: int, rows: map<ContactId, Row>, run: Option<Run>, campaign: CampaignState,
    log: map<ContactId, seq<int>>, originates: map<ContactId, nat>)

  datatype Step =
    | Tick(elapsed: nat)
    | OthersWrite(contact: ContactId, status: ContactStatus)
    | GateBlocks
    | Start(list: seq<ContactId>)
    | Turn(move: Move)
    | Recheck(view: Option<Contact>)
    | RecordAttempt(k: nat)
    | RecordFails(k: nat)
    | Originate(k: nat)
    | Answer(k: nat, accepted: bool)
    | WriteFailure(k: nat, written: bool)
    | Return
    | Crash

  /** The lower of the deployment's ceiling and the campaign's own setting, and at least one. */
  function Concurrency(ceiling: int, own: Option<int>): (limit: int)
    ensures limit >= 1
    ensures ceiling >= 1 ==> limit <= ceiling
    ensures own.Some? && own.value >= 1 ==> limit <= own.value
    ensures ceiling >= 1 && (own.Some? ==> own.value >= 0) ==>
      limit == ceiling || (own == Some(limit) && limit < ceiling)
  {
    var wanted := if own.Some? && own.value != 0 then own.value else ceiling;
    var lower := if wanted < ceiling then wanted else ceiling;
    if lower < 1 then 1 else lower
  }

  function LogOf(s: Sys, c: ContactId): seq<int> {
    if c in s.log then s.log[c] else []
  }

  function OriginatesOf(s: Sys, c: ContactId): nat {
    if c in s.originates then s.originates[c] else 0
  }

  /** The reload shows the attempt count and time of the table, whatever else it shows. */
  predicate Shows(view: Option<Contact>, s: Sys, c: ContactId) {
    view.Some? ==>
      && view.value.farmerId == c && c in s.rows
      && view.value.attempts == s.rows[c].attempts && view.value.lastAttemptAt == s.rows[c].lastAttemptAt
  }

  /** A contact that has vanished is refused as if it were on the internal do-not-call list. */
  function Judged(view: Option<Contact>, settings: CampaignSettings, now: int): Option<Check> {
    if view == None then Some(InternalDnc) else FirstFailureOf(view.value, settings, now)
  }

  predicate InState(s: Sys, k: nat, state: TaskState) {
    s.run.Some? && k < |s.run.value.tasks| && s.run.value.tasks[k].state == state
    && s.run.value.tasks[k].contact in s.rows
  }

  /** The moves of the session that touch nothing but the session. */
  predicate Plain(m: Move) {
    m.Flag? || m.Stop? || m.Admit? || m.Launch? || m.Wake? || m.Leave? || m.Acquire?
  }

  /** What a step does to the session, if it moves it. */
  function MoveOf(settings: CampaignSettings, s: Sys, step: Step): Option<Move> {
    match step
    case Turn(m) => Some(m)
    case Recheck(view) =>
      var failure := Judged(view, settings, s.now);
      Some(if failure.Some? then Reject(failure.value) else Clear)
    case RecordAttempt(k) => Some(Advance(k, Recorded))
    case RecordFails(k) => Some(Finish(k, false))
    case Originate(k) => Some(Advance(k, Calling))
    case Answer(k, accepted) => Some(if accepted then Finish(k, true) else Advance(k, Refused))
    case WriteFailure(k, _) => Some(Finish(k, false))
    case _ => None
  }

  predicate CanTake(cfg: Config, settings: CampaignSettings, s: Sys, step: Step) {
    match step
    case Tick(_) => true
    case OthersWrite(c, _) => c in s.rows
    case GateBlocks => s.run == None && !GatePasses(settings, s.now)
    case Start(list) =>
      s.run == None && GatePasses(settings, s.now) && NoRepeats(list) && forall c :: c in list ==> c in s.rows
    case Turn(m) => s.run.Some? && Plain(m) && Enabled(cfg, s.run.value, s.now, m)
    case Recheck(view) =>
      && s.run.Some? && s.run.value.loop.Admitted? && s.run.value.next < |s.run.value.list|
      && Shows(view, s, s.run.value.list[s.run.value.next])
    case RecordAttempt(k) => InState(s, k, Holding)
    case RecordFails(k) => InState(s, k, Holding)
    case Originate(k) => InState(s, k, Recorded)
    case Answer(k, _) => InState(s, k, Calling)
    case WriteFailure(k, _) => InState(s, k, Refused)
    case Return => s.run.Some? && Returns(s.run.value)
    case Crash => s.run.Some?
  }

  function Take(cfg: Config, settings: CampaignSettings, s: Sys, step: Step): Sys
    requires CanTake(cfg, settings, s, step)
  {
    var move := MoveOf(settings, s, step);
    if move.Some? then
      Booked(s, step).(run := Some(Moved(cfg, s.run.value, s.now, move.value)))
    else
      match step
      case Tick(elapsed) => s.(now := s.now + elapsed)
      case OthersWrite(c, status) => s.(rows := s.rows[c := s.rows[c].(status := status)])
      case GateBlocks => s.(campaign := CampaignPaused)
      case Start(list) => s.(run := Some(Started(list)), campaign := CampaignRunning)
      case Return =>
        s.(run := None, campaign := if s.run.value.stopped == None then CampaignCompleted else CampaignPaused)
      case _ => s.(run := None)
  }

  /** What a step writes to the table, and to the history. */
  function Booked(s: Sys, step: Step): Sys
    requires step.RecordAttempt? ==> InState(s, step.k, Holding)
    requires step.Originate? ==> InState(s, step.k, Recorded)
    requires step.WriteFailure? ==> InState(s, step.k, Refused)
  {
    match step
    case RecordAttempt(k) =>
      var c := s.run.value.tasks[k].contact;
      s.(rows := s.rows[c := Row(s.rows[c].attempts + 1, Some(s.now), Dialing)],
         log := s.log[c := LogOf(s, c) + [s.now]])
    case Originate(k) =>
      var c := s.run.value.tasks[k].contact;
      s.(originates := s.originates[c := OriginatesOf(s, c) + 1])
    case WriteFailure(k, written) =>
      var c := s.run.value.tasks[k].contact;
      if written then s.(rows := s.rows[c := s.rows[c].(status := Failed)]) else s
    case _ => s
  }

  ghost predicate ValidRun(cfg: Config, settings: CampaignSettings, s: Sys, steps: seq<Step>)
    decreases |steps|
  {
    steps == [] ||
    (CanTake(cfg, settings, s, steps[0]) && ValidRun(cfg, settings, Take(cfg, settings, s, steps[0]), steps[1..]))
  }

  ghost function After(cfg: Config, settings: CampaignSettings, s: Sys, steps: seq<Step>): Sys
    requires ValidRun(cfg, settings, s, steps)
    decreases |steps|
  {
    if steps == [] then s else After(cfg, settings, Take(cfg, settings, s, steps[0]), steps[1..])
  }

  /** A table with no session running and no history yet; attempts of earlier days may stand in it. */
  ghost predicate Fresh(s: Sys) {
    && s.run == None && s.log == map[] && s.originates == map[]
    && forall c :: c in s.rows && s.rows[c].lastAttemptAt.Some? ==> s.rows[c].lastAttemptAt.value <= s.now
  }

  // ----- what single steps write

  /** A contact's row: an attempt is counted and dated as it is recorded, and a refusal by the provider is a failure. */
  lemma RowAfter(cfg: Config, settings: CampaignSettings, s: Sys, step: Step, c: ContactId)
    requires CanTake(cfg, settings, s, step) && c in s.rows
    ensures var n := Take(cfg, settings, s, step);
      c in n.rows && n.rows[c] ==
        if step.RecordAttempt? && s.run.value.tasks[step.k].contact == c
        then Row(s.rows[c].attempts + 1, Some(s.now), Dialing)
        else if step.WriteFailure? && step.written && s.run.value.tasks[step.k].contact == c
        then Row(s.rows[c].attempts, s.rows[c].lastAttemptAt, Failed)
        else if step.OthersWrite? && step.contact == c
        then Row(s.rows[c].attempts, s.rows[c].lastAttemptAt, step.status)
        else s.rows[c]
  {
  }

  /** The campaign's mark: running from a start, paused by the gate or a stopped session, completed otherwise. */
  lemma CampaignAfter(cfg: Config, settings: CampaignSettings, s: Sys, step: Step)
    requires CanTake(cfg, settings, s, step)
    ensures var n := Take(cfg, settings, s, step).campaign;
      && (step.Start? ==> n == CampaignRunning) && (step.GateBlocks? ==> n == CampaignPaused)
      && (step.Return? ==> n == if s.run.value.stopped.Some? then CampaignPaused else CampaignCompleted)
      && (!step.Start? && !step.GateBlocks? && !step.Return? ==> n == s.campaign)
  {
  }

  // ----- what every step keeps

  ghost predicate SessionInv(cfg: Config, s: Sys) {
    s.run.Some? ==> RunInv(cfg, s.run.value, s.now) && forall c :: c in s.run.value.list ==> c in s.rows
  }

  ghost predicate Spaced(last: Option<int>, log: seq<int>) {
    && (forall i, j :: 0 <= i && j == i + 1 < |log| ==> log[j] - log[i] >= MIN_GAP_BETWEEN_ATTEMPTS)
    && (log != [] && last.Some? ==> log[0] - last.value >= MIN_GAP_BETWEEN_ATTEMPTS)
  }

  /** The table, the log and the cap agree for one contact, counted from its row `was`. */
  ghost predicate RowInv(was: Row, row: Row, log: seq<int>, originates: nat, now: int) {
    && row.attempts == was.attempts + |log|
    && row.lastAttemptAt == (if log == [] then was.lastAttemptAt else Some(log[|log| - 1]))
    && (row.lastAttemptAt.Some? ==> row.lastAttemptAt.value <= now)
    && (log != [] ==> row.attempts <= MAX_ATTEMPTS_PER_CONTACT)
    && Spaced(was.lastAttemptAt, log)
    && originates <= |log|
  }

  /** One more attempt may be recorded now. */
  ghost predicate Ready(row: Row, now: int) {
    && row.attempts < MAX_ATTEMPTS_PER_CONTACT
    && (row.lastAttemptAt.Some? ==> now - row.lastAttemptAt.value >= MIN_GAP_BETWEEN_ATTEMPTS)
  }

  ghost predicate TaskInv(s: Sys, t: Task) {
    && t.contact in s.rows
    && (t.state.Queued? || t.state.Holding? ==> Ready(s.rows[t.contact], s.now))
    && (t.state.Recorded? ==> OriginatesOf(s, t.contact) + 1 <= |LogOf(s, t.contact)|)
  }

  ghost predicate TableInv(start: Sys, s: Sys) {
    && s.rows.Keys == start.rows.Keys
    && forall c :: c in start.rows ==> RowInv(start.rows[c], s.rows[c], LogOf(s, c), OriginatesOf(s, c), s.now)
  }

  /** The contact cleared for a launch is ready for one more attempt. */
  ghost predicate NextInv(s: Sys)
    requires s.run.Some?
  {
    var r := s.run.value;
    r.loop.Cleared? && r.next < |r.list| ==> r.list[r.next] in s.rows && Ready(s.rows[r.list[r.next]], s.now)
  }

  ghost predicate PendingInv(s: Sys) {
    s.run.Some? ==> NextInv(s) && forall k :: 0 <= k < |s.run.value.tasks| ==> TaskInv(s, s.run.value.tasks[k])
  }

  ghost predicate Inv(cfg: Config, start: Sys, s: Sys) {
    SessionInv(cfg, s) && TableInv(start, s) && PendingInv(s)
  }

  lemma MoveKeepsList(cfg: Config, r: Run, now: int, m: Move)
    requires Enabled(cfg, r, now, m)
    ensures Moved(cfg, r, now, m).list == r.list
  {
  }

  lemma SessionKept(cfg: Config, settings: CampaignSettings, s: Sys, step: Step)
    requires CanTake(cfg, settings, s, step) && SessionInv(cfg, s)
    ensures SessionInv(cfg, Take(cfg, settings, s, step))
  {
    var move := MoveOf(settings, s, step);
    if move.Some? {
      MoveKeepsInv(cfg, s.run.value, s.now, move.value);
      MoveKeepsList(cfg, s.run.value, s.now, move.value);
    } else {
      match step
      case Tick(elapsed) =>
      case Start(list) => StartedInv(cfg, list, s.now);
      case _ =>
    }
  }

  lemma AfterRecord(cfg: Config, settings: CampaignSettings, s: Sys, k: nat)
    requires CanTake(cfg, settings, s, RecordAttempt(k))
    ensures var n := Take(cfg, settings, s, RecordAttempt(k));
      var c := s.run.value.tasks[k].contact;
      && n.now == s.now && n.originates == s.originates
      && n.rows == s.rows[c := Row(s.rows[c].attempts + 1, Some(s.now), Dialing)]
      && n.log == s.log[c := LogOf(s, c) + [s.now]]
      && n.run.Some? && n.run.value.tasks == s.run.value.tasks[k := s.run.value.tasks[k].(state := Recorded)]
  {
  }

  /** One contact's standing in a system. */
  ghost predicate RowStands(start: Sys, s: Sys, c: ContactId) {
    c in start.rows && c in s.rows && RowInv(start.rows[c], s.rows[c], LogOf(s, c), OriginatesOf(s, c), s.now)
  }

  lemma RowKeptByRecord(cfg: Config, settings: CampaignSettings, start: Sys, s: Sys, k: nat, c: ContactId)
    requires CanTake(cfg, settings, s, RecordAttempt(k)) && PendingInv(s) && RowStands(start, s, c)
    ensures RowStands(start, Take(cfg, settings, s, RecordAttempt(k)), c)
  {
    assert TaskInv(s, s.run.value.tasks[k]);
  }

  lemma RowKeptByOriginate(cfg: Config, settings: CampaignSettings, start: Sys, s: Sys, k: nat, c: ContactId)
    requires CanTake(cfg, settings, s, Originate(k)) && PendingInv(s) && RowStands(start, s, c)
    ensures RowStands(start, Take(cfg, settings, s, Originate(k)), c)
  {
    assert TaskInv(s, s.run.value.tasks[k]);
  }

  lemma RowKept(cfg: Config, settings: CampaignSettings, start: Sys, s: Sys, step: Step, c: ContactId)
    requires CanTake(cfg, settings, s, step) && PendingInv(s) && RowStands(start, s, c)
    ensures RowStands(start, Take(cfg, settings, s, step), c)
  {
    if step.RecordAttempt? {
      RowKeptByRecord(cfg, settings, start, s, step.k, c);
    } else if step.Originate? {
      RowKeptByOriginate(cfg, settings, start, s, step.k, c);
    }
  }

  lemma TableKept(cfg: Config, settings: CampaignSettings, start: Sys, s: Sys, step: Step)
    requires CanTake(cfg, settings, s, step) && TableInv(start, s) && PendingInv(s)
    ensures TableInv(start, Take(cfg, settings, s, step))
  {
    forall c | c in start.rows
      ensures RowStands(start, Take(cfg, settings, s, step), c)
    {
      assert RowStands(start, s, c);
      RowKept(cfg, settings, start, s, step, c);
    }
  }

  lemma TaskMoved(cfg: Config, r: Run, now: int, m: Move, k: nat)
    requires Enabled(cfg, r, now, m) && k < |Moved(cfg, r, now, m).tasks|
    requires m.Advance? ==> m.state.Refused?
    ensures var t := Moved(cfg, r, now, m).tasks[k];
      if k < |r.tasks| then
        var u := r.tasks[k];
        && t.contact == u.contact
        && (t.state == u.state || t.state.Refused? || t.state.Finished? || (u.state.Queued? && t.state.Holding?))
      else
        r.loop.Cleared? && r.next < |r.list| && t.contact == r.list[r.next] && t.state.Queued?
  {
  }

  /** The tasks after a step are the tasks before it, but for the one it moves or adds. */
  lemma TaskBefore(cfg: Config, settings: CampaignSettings, s: Sys, step: Step, k: nat)
    requires CanTake(cfg, settings, s, step) && s.run.Some?
    requires var n := Take(cfg, settings, s, step); n.run.Some? && k < |n.run.value.tasks|
    requires !step.RecordAttempt? && !step.Originate?
    ensures var t := Take(cfg, settings, s, step).run.value.tasks[k];
      if k < |s.run.value.tasks| then
        var u := s.run.value.tasks[k];
        && t.contact == u.contact
        && (t.state == u.state || t.state.Refused? || t.state.Finished? || (u.state.Queued? && t.state.Holding?))
      else
        s.run.value.loop.Cleared? && s.run.value.next < |s.run.value.list|
        && t.contact == s.run.value.list[s.run.value.next] && t.state.Queued?
  {
    var move := MoveOf(settings, s, step);
    if move.Some? {
      TaskMoved(cfg, s.run.value, s.now, move.value, k);
    }
  }

  lemma TaskKept(cfg: Config, settings: CampaignSettings, s: Sys, step: Step, k: nat)
    requires CanTake(cfg, settings, s, step) && PendingInv(s) && s.run.Some?
    requires !step.RecordAttempt? && !step.Originate?
    requires var n := Take(cfg, settings, s, step); n.run.Some? && k < |n.run.value.tasks|
    ensures TaskInv(Take(cfg, settings, s, step), Take(cfg, settings, s, step).run.value.tasks[k])
  {
    TaskBefore(cfg, settings, s, step, k);
    assert k < |s.run.value.tasks| ==> TaskInv(s, s.run.value.tasks[k]);
  }

  lemma TasksKeptByRecord(cfg: Config, settings: CampaignSettings, start: Sys, s: Sys, j: nat, k: nat)
    requires CanTake(cfg, settings, s, RecordAttempt(j)) && TableInv(start, s) && PendingInv(s)
    requires OneTaskEach(s.run.value) && k < |s.run.value.tasks|
    ensures var n := Take(cfg, settings, s, RecordAttempt(j));
      n.run.Some? && k < |n.run.value.tasks| && TaskInv(n, n.run.value.tasks[k])
  {
    AfterRecord(cfg, settings, s, j);
    assert TaskInv(s, s.run.value.tasks[k]);
    var c := s.run.value.tasks[j].contact;
    assert RowInv(start.rows[c], s.rows[c], LogOf(s, c), OriginatesOf(s, c), s.now);
    assert k != j ==> s.run.value.tasks[k].contact != c;
  }

  lemma TasksKeptByOriginate(cfg: Config, settings: CampaignSettings, s: Sys, j: nat, k: nat)
    requires CanTake(cfg, settings, s, Originate(j)) && PendingInv(s)
    requires OneTaskEach(s.run.value) && k < |s.run.value.tasks|
    ensures var n := Take(cfg, settings, s, Originate(j));
      n.run.Some? && k < |n.run.value.tasks| && TaskInv(n, n.run.value.tasks[k])
  {
  }

  lemma NextKept(cfg: Config, settings: CampaignSettings, s: Sys, step: Step)
    requires CanTake(cfg, settings, s, step) && SessionInv(cfg, s) && PendingInv(s)
    requires s.run.Some? && Take(cfg, settings, s, step).run.Some?
    ensures NextInv(Take(cfg, settings, s, step))
  {
    var q := Take(cfg, settings, s, step).run.value;
    if q.loop.Cleared? && q.next < |q.list| {
      LoopAfter(cfg, settings, s, step);
    }
  }

  lemma LoopAfter(cfg: Config, settings: CampaignSettings, s: Sys, step: Step)
    requires CanTake(cfg, settings, s, step) && s.run.Some? && Take(cfg, settings, s, step).run.Some?
    requires Take(cfg, settings, s, step).run.value.loop.Cleared?
    ensures Take(cfg, settings, s, step).run.value.list == s.run.value.list
    ensures Take(cfg, settings, s, step).run.value.next == s.run.value.next
    ensures if step.Recheck? then Judged(step.view, settings, s.now) == None else s.run.value.loop.Cleared?
  {
    var move := MoveOf(settings, s, step);
    if move.Some? {
      assert move.value.Clear? ==> step.Recheck?;
    }
  }

  lemma PendingTaskKept(cfg: Config, settings: CampaignSettings, start: Sys, s: Sys, step: Step, k: nat)
    requires CanTake(cfg, settings, s, step) && SessionInv(cfg, s) && TableInv(start, s) && PendingInv(s)
    requires s.run.Some? && Take(cfg, settings, s, step).run.Some? && k < |Take(cfg, settings, s, step).run.value.tasks|
    ensures TaskInv(Take(cfg, settings, s, step), Take(cfg, settings, s, step).run.value.tasks[k])
  {
    if step.RecordAttempt? {
      AfterRecord(cfg, settings, s, step.k);
      TasksKeptByRecord(cfg, settings, start, s, step.k, k);
    } else if step.Originate? {
      TasksKeptByOriginate(cfg, settings, s, step.k, k);
    } else {
      TaskKept(cfg, settings, s, step, k);
    }
  }

  lemma PendingKept(cfg: Config, settings: CampaignSettings, start: Sys, s: Sys, step: Step)
    requires CanTake(cfg, settings, s, step) && SessionInv(cfg, s) && TableInv(start, s) && PendingInv(s)
    ensures PendingInv(Take(cfg, settings, s, step))
  {
    var n := Take(cfg, settings, s, step);
    if n.run.Some? {
      if s.run.Some? {
        NextKept(cfg, settings, s, step);
        forall k | 0 <= k < |n.run.value.tasks|
          ensures TaskInv(n, n.run.value.tasks[k])
        {
          PendingTaskKept(cfg, settings, start, s, step, k);
        }
      }
    }
  }

  lemma {:induction false} RunsKeepInv(cfg: Config, settings: CampaignSettings, start: Sys, s: Sys, steps: seq<Step>)
    requires Inv(cfg, start, s) && ValidRun(cfg, settings, s, steps)
    ensures Inv(cfg, start, After(cfg, settings, s, steps))
    decreases |steps|
  {
    if steps != [] {
      SessionKept(cfg, settings, s, steps[0]);
      TableKept(cfg, settings, start, s, steps[0]);
      PendingKept(cfg, settings, start, s, steps[0]);
      RunsKeepInv(cfg, settings, start, Take(cfg, settings, s, steps[0]), steps[1..]);
    }
  }

  // ----- what holds over any sequence of runs, with a crash at any point

  /**
   For every contact: the provider is asked at most once for each recorded attempt; the count in the
   table is the attempts recorded; a contact that starts below the cap never passes it, and one at the
   cap is never attempted again; and recorded attempts lie four hours or more apart, the first also
   from the last one the table already held.
   */
  lemma AttemptsAreCapped(cfg: Config, settings: CampaignSettings, start: Sys, steps: seq<Step>, c: ContactId)
    requires Fresh(start) && ValidRun(cfg, settings, start, steps) && c in start.rows
    ensures var s := After(cfg, settings, start, steps);
      && c in s.rows
      && OriginatesOf(s, c) <= |LogOf(s, c)| == s.rows[c].attempts - start.rows[c].attempts
      && (start.rows[c].attempts <= MAX_ATTEMPTS_PER_CONTACT ==> s.rows[c].attempts <= MAX_ATTEMPTS_PER_CONTACT)
      && (start.rows[c].attempts >= MAX_ATTEMPTS_PER_CONTACT ==> LogOf(s, c) == [])
      && Spaced(start.rows[c].lastAttemptAt, LogOf(s, c))
  {
    forall b | b in start.rows
      ensures RowInv(start.rows[b], start.rows[b], LogOf(start, b), OriginatesOf(start, b), start.now)
    {
    }
    RunsKeepInv(cfg, settings, start, start, steps);
    var s := After(cfg, settings, start, steps);
    assert RowInv(start.rows[c], s.rows[c], LogOf(s, c), OriginatesOf(s, c), s.now);
  }

  /** In every reachable state the session keeps its concurrency bound and its pace. */
  lemma ReachableSession(cfg: Config, settings: CampaignSettings, start: Sys, steps: seq<Step>)
    requires Fresh(start) && ValidRun(cfg, settings, start, steps)
    ensures var s := After(cfg, settings, start, steps);
      s.run.Some? ==>
        && RunInv(cfg, s.run.value, s.now)
        && ActiveCount(s.run.value.tasks) <= cfg.maxConcurrent
        && AllPaced(cfg, s.run.value.tasks)
  {
    forall b | b in start.rows
      ensures RowInv(start.rows[b], start.rows[b], LogOf(start, b), OriginatesOf(start, b), start.now)
    {
    }
    RunsKeepInv(cfg, settings, start, start, steps);
    var s := After(cfg, settings, start, steps);
    if s.run.Some? {
      LaunchesArePaced(cfg, s.run.value, s.now);
    }
  }

  /** The dials active at once stay under the deployment's ceiling and under the campaign's own limit. */
  lemma DialsStayUnderBothLimits(
    cfg: Config, ceiling: int, own: Option<int>, settings: CampaignSettings, start: Sys, steps: seq<Step>)
    requires cfg.maxConcurrent == Concurrency(ceiling, own)
    requires Fresh(start) && ValidRun(cfg, settings, start, steps) && After(cfg, settings, start, steps).run.Some?
    ensures var active := ActiveCount(After(cfg, settings, start, steps).run.value.tasks);
      (ceiling >= 1 ==> active <= ceiling) && (own.Some? && own.value >= 1 ==> active <= own.value)
  {
    ReachableSession(cfg, settings, start, steps);
  }

  /** Only a run that visited its whole list marks the campaign completed. */
  lemma CompletedMeansVisited(cfg: Config, settings: CampaignSettings, start: Sys, steps: seq<Step>)
    requires Fresh(start) && ValidRun(cfg, settings, start, steps)
    requires CanTake(cfg, settings, After(cfg, settings, start, steps), Return)
    ensures var s := After(cfg, settings, start, steps);
      Take(cfg, settings, s, Return).campaign == CampaignCompleted <==> s.run.value.next == |s.run.value.list|
  {
    ReachableSession(cfg, settings, start, steps);
    var s := After(cfg, settings, start, steps);
    OneOutcomeEach(cfg, s.run.value, s.now, 0);
  }

  /** One contact may be between its window check and its launch. */
  function InHand(r: Run): nat {
    if r.loop.Admitted? || r.loop.Cleared? then 1 else 0
  }

  ghost predicate HasFlag(s: Sys) {
    s.run.Some? && (s.run.value.paused || s.run.value.cancelled)
  }

  lemma FlaggedMove(cfg: Config, r: Run, now: int, m: Move)
    requires (r.paused || r.cancelled) && Enabled(cfg, r, now, m)
    ensures var q := Moved(cfg, r, now, m);
      (q.paused || q.cancelled) && |q.tasks| + InHand(q) <= |r.tasks| + InHand(r)
  {
  }

  lemma FlaggedStep(cfg: Config, settings: CampaignSettings, s: Sys, step: Step)
    requires HasFlag(s) && CanTake(cfg, settings, s, step) && !step.Return? && !step.Crash?
    ensures var n := Take(cfg, settings, s, step);
      HasFlag(n) && |n.run.value.tasks| + InHand(n.run.value) <= |s.run.value.tasks| + InHand(s.run.value)
  {
    var move := MoveOf(settings, s, step);
    if move.Some? {
      FlaggedMove(cfg, s.run.value, s.now, move.value);
    }
  }

  /**
   From the moment a pause or cancel is set, until the session ends, nothing more is launched but the
   contact then in hand, if there was one. Calls already launched go on.
   */
  lemma {:induction false} FlaggedSessionLaunchesNoMore(
    cfg: Config, settings: CampaignSettings, s: Sys, steps: seq<Step>)
    requires HasFlag(s) && ValidRun(cfg, settings, s, steps)
    requires forall step :: step in steps ==> !step.Return? && !step.Crash?
    ensures var n := After(cfg, settings, s, steps);
      HasFlag(n) && |n.run.value.tasks| + InHand(n.run.value) <= |s.run.value.tasks| + InHand(s.run.value)
    decreases |steps|
  {
    if steps != [] {
      assert steps[0] in steps;
      FlaggedStep(cfg, settings, s, steps[0]);
      FlaggedSessionLaunchesNoMore(cfg, settings, Take(cfg, settings, s, steps[0]), steps[1..]);
    }
  }

  // ----- what dialling does not look at

  /** The same system but for the statuses its contacts are stored with. */
  ghost predicate SameButStatus(s: Sys, t: Sys) {
    && t == s.(rows := t.rows)
    && t.rows.Keys == s.rows.Keys
    && forall c :: c in s.rows ==> t.rows[c] == s.rows[c].(status := t.rows[c].status)
  }

  lemma BookedIgnoresStatus(cfg: Config, settings: CampaignSettings, s: Sys, t: Sys, step: Step)
    requires SameButStatus(s, t) && CanTake(cfg, settings, s, step) && CanTake(cfg, settings, t, step)
    ensures SameButStatus(Booked(s, step), Booked(t, step))
  {
  }

  lemma StepIgnoresStatus(cfg: Config, settings: CampaignSettings, s: Sys, t: Sys, step: Step)
    requires SameButStatus(s, t) && CanTake(cfg, settings, s, step)
    ensures CanTake(cfg, settings, t, step)
    ensures SameButStatus(Take(cfg, settings, s, step), Take(cfg, settings, t, step))
  {
    BookedIgnoresStatus(cfg, settings, s, t, step);
  }

  /**
   A contact's stored status is never consulted: whatever happens from one assignment of statuses can
   happen, launch for launch and attempt for attempt, from any other. A contact that completed its
   call, or opted out, is kept from another dial only by the gate's own checks.
   */
  lemma {:induction false} DiallingIgnoresStatus(
    cfg: Config, settings: CampaignSettings, s: Sys, t: Sys, steps: seq<Step>)
    requires SameButStatus(s, t) && ValidRun(cfg, settings, s, steps)
    ensures ValidRun(cfg, settings, t, steps)
    ensures SameButStatus(After(cfg, settings, s, steps), After(cfg, settings, t, steps))
    decreases |steps|
  {
    if steps != [] {
      StepIgnoresStatus(cfg, settings, s, t, steps[0]);
      DiallingIgnoresStatus(
        cfg, settings, Take(cfg, settings, s, steps[0]), Take(cfg, settings, t, steps[0]), steps[1..]);
    }
  }
}
