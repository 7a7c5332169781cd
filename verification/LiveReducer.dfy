/**
 The Live page's fold, `applyLiveEvent` of apps/admin/src/lib/live-reducer.ts: snapshots, deltas, and
 a history back-fill that may arrive at any moment.
 */
module LiveReducer {
  import opened Wrappers

  datatype Direction = Inbound | Outbound

  datatype Activity = Listening | Thinking | Speaking | Transferring

  /** `latency` is the reply time's record; its total may be missing. */
  datatype Turn = Turn(turnIndex: int, byAgent: bool, text: string, latency: Option<Option<int>>)

  datatype Note =
    | DtmfNote(at: Option<int>, digit: string)
    | TransferNote(to: string, reason: string)
    | EndedNote(at: Option<int>, outcome: Option<string>)
    | EventNote(at: Option<int>, kind: string, text: string)

  datatype Transcript = Transcript(turns: seq<Turn>, notes: seq<Note>, ended: bool)

  datatype Identity = Identity(
    farmerName: Option<string>, callerLast4: Option<string>, centreCode: Option<string>, centreName: Option<string>,
    language: string, campaignId: Option<string>)

  datatype LiveCall = LiveCall(
    id: string, startedAt: string, direction: Direction, identity: Identity, turnCount: nat, activity: Activity,
    lastReplyMs: Option<int>)

  datatype RecentCall = RecentCall(
    id: string, startedAt: string, direction: Direction, farmerName: Option<string>, callerLast4: Option<string>,
    centreCode: Option<string>, outcome: Option<string>, durationSeconds: Option<int>, firstReplyMs: Option<int>,
    dtmf: Option<string>)

  datatype Today = Today(
    calls: nat, inbound: nat, outbound: nat, handledByAgentPct: Option<int>, transferred: nat, offersAccepted: nat,
    offersPitched: nat)

  datatype Snapshot = Snapshot(capacity: int, calls: seq<LiveCall>, today: Today, recent: seq<RecentCall>)

  datatype State = State(live: Snapshot, transcripts: map<string, Transcript>)

  datatype Event =
    | Snap(snapshot: Snapshot)
    | Started(call: LiveCall)
    | Identified(callId: string, identity: Identity)
    | ActivityChanged(callId: string, activity: Activity)
    | Said(callId: string, turn: Turn)
    | Dtmf(callId: string, digit: string, at: int)
    | Transfer(callId: string, to: string, reason: string)
    | Ended(callId: string, outcome: Option<string>, durationSeconds: Option<int>, firstReplyMs: Option<int>)
    | History(callId: string, turns: seq<Turn>, events: seq<Note>)

  const EMPTY_TRANSCRIPT := Transcript([], [], false)
  const RECENT_LIMIT := 25

  // ----- stable ordering by turn index

  function Insert(sorted: seq<Turn>, t: Turn): seq<Turn> {
    if sorted == [] || sorted[|sorted| - 1].turnIndex <= t.turnIndex then sorted + [t]
    else Insert(sorted[..|sorted| - 1], t) + [sorted[|sorted| - 1]]
  }

  function SortTurns(turns: seq<Turn>): seq<Turn> {
    if turns == [] then [] else Insert(SortTurns(turns[..|turns| - 1]), turns[|turns| - 1])
  }

  /** The turns of one index, in the order they stand. */
  function At(turns: seq<Turn>, index: int): seq<Turn> {
    if turns == [] then []
    else At(turns[..|turns| - 1], index) + if turns[|turns| - 1].turnIndex == index then [turns[|turns| - 1]] else []
  }

  function Without(turns: seq<Turn>, index: int): seq<Turn> {
    if turns == [] then []
    else
      Without(turns[..|turns| - 1], index)
      + if turns[|turns| - 1].turnIndex == index then [] else [turns[|turns| - 1]]
  }

  /** The turns whose index no turn of `known` has. */
  function Unknown(turns: seq<Turn>, known: seq<Turn>): seq<Turn> {
    if turns == [] then []
    else
      var last := turns[|turns| - 1];
      Unknown(turns[..|turns| - 1], known)
      + if exists t :: t in known && t.turnIndex == last.turnIndex then [] else [last]
  }

  ghost predicate Ordered(turns: seq<Turn>) {
    forall i, j :: 0 <= i < j < |turns| ==> turns[i].turnIndex <= turns[j].turnIndex
  }

  ghost predicate StrictlyOrdered(turns: seq<Turn>) {
    forall i, j :: 0 <= i < j < |turns| ==> turns[i].turnIndex < turns[j].turnIndex
  }

  // ----- the reducer

  function TranscriptOf(s: State, callId: string): Transcript {
    if callId in s.transcripts then s.transcripts[callId] else EMPTY_TRANSCRIPT
  }

  function WithTranscript(s: State, callId: string, t: Transcript): State {
    s.(transcripts := s.transcripts[callId := t])
  }

  function AddNote(s: State, callId: string, note: Note): State {
    var t := TranscriptOf(s, callId);
    WithTranscript(s, callId, t.(notes := t.notes + [note]))
  }

  predicate IsLive(calls: seq<LiveCall>, id: string) {
    exists k :: 0 <= k < |calls| && calls[k].id == id
  }

  function PatchCall(s: State, callId: string, patch: LiveCall -> LiveCall): State {
    if !IsLive(s.live.calls, callId) then s
    else
      s.(live := s.live.(calls := Patched(s.live.calls, callId, patch)))
  }

  function Patched(calls: seq<LiveCall>, callId: string, patch: LiveCall -> LiveCall): seq<LiveCall> {
    seq(|calls|, k requires 0 <= k < |calls| => if calls[k].id == callId then patch(calls[k]) else calls[k])
  }

  function LastDigit(notes: seq<Note>): Option<string> {
    if notes == [] then None
    else if notes[|notes| - 1].DtmfNote? then Some(notes[|notes| - 1].digit)
    else LastDigit(notes[..|notes| - 1])
  }

  /** The search from the newest note back. */
  method FindLastDigit(notes: seq<Note>) returns (digit: Option<string>)
    ensures digit == LastDigit(notes)
    ensures digit == None <==> forall note :: note in notes ==> !note.DtmfNote?
  {
    assert notes[..|notes|] == notes;
    for i := |notes| downto 0
      invariant LastDigit(notes) == LastDigit(notes[..i])
      invariant forall k :: i <= k < |notes| ==> !notes[k].DtmfNote?
    {
      assert notes[..i + 1][..i] == notes[..i];
      if notes[i].DtmfNote? {
        return Some(notes[i].digit);
      }
    }
    digit := None;
  }

  predicate HasTransfer(notes: seq<Note>) {
    exists note :: note in notes && note.TransferNote?
  }

  /** The percentage, rounded half up. */
  function Percentage(part: int, whole: int): int
    requires whole > 0
  {
    (part as real / whole as real * 100.0 + 0.5).Floor
  }

  function TallyEnded(today: Today, call: LiveCall, notes: seq<Note>, dtmf: Option<string>): Today {
    var outbound := call.direction == Outbound;
    var calls := today.calls + 1;
    var transferred := today.transferred + if HasTransfer(notes) then 1 else 0;
    Today(
      calls,
      today.inbound + (if outbound then 0 else 1),
      today.outbound + (if outbound then 1 else 0),
      Some(Percentage(calls - transferred, calls)),
      transferred,
      today.offersAccepted + (if outbound && dtmf == Some("1") then 1 else 0),
      today.offersPitched + (if outbound then 1 else 0))
  }

  function FindCall(calls: seq<LiveCall>, id: string): (c: LiveCall)
    requires IsLive(calls, id)
  {
    if calls[0].id == id then calls[0] else FindCall(calls[1..], id)
  }

  function OtherCalls(calls: seq<LiveCall>, id: string): seq<LiveCall> {
    if calls == [] then []
    else (if calls[0].id == id then [] else [calls[0]]) + OtherCalls(calls[1..], id)
  }

  function OtherRecent(recent: seq<RecentCall>, id: string): seq<RecentCall> {
    if recent == [] then []
    else (if recent[0].id == id then [] else [recent[0]]) + OtherRecent(recent[1..], id)
  }

  function Cut<T>(xs: seq<T>, n: nat): seq<T> {
    if |xs| <= n then xs else xs[..n]
  }

  function Finished(call: LiveCall, e: Event, dtmf: Option<string>): RecentCall
    requires e.Ended?
  {
    RecentCall(call.id, call.startedAt, call.direction, call.identity.farmerName, call.identity.callerLast4,
               call.identity.centreCode, e.outcome, e.durationSeconds, e.firstReplyMs, dtmf)
  }

  /** The live side of an end: off the live list, onto the finished list, into the day's figures. */
  function EndedLive(live: Snapshot, notes: seq<Note>, e: Event): Snapshot
    requires e.Ended?
  {
    if !IsLive(live.calls, e.callId) then live
    else
      var call := FindCall(live.calls, e.callId);
      var dtmf := LastDigit(notes);
      Snapshot(
        live.capacity,
        OtherCalls(live.calls, e.callId),
        TallyEnded(live.today, call, notes, dtmf),
        Cut([Finished(call, e, dtmf)] + OtherRecent(live.recent, e.callId), RECENT_LIMIT))
  }

  function EndedTranscript(t: Transcript, e: Event): Transcript
    requires e.Ended?
  {
    t.(ended := true, notes := t.notes + [EndedNote(e.durationSeconds, e.outcome)])
  }

  function End(s: State, e: Event): State
    requires e.Ended?
  {
    var t := TranscriptOf(s, e.callId);
    State(EndedLive(s.live, t.notes, e), s.transcripts[e.callId := EndedTranscript(t, e)])
  }

  function Merged(t: Transcript, turns: seq<Turn>, events: seq<Note>): Transcript {
    t.(turns := SortTurns(Unknown(turns, t.turns) + t.turns), notes := events + t.notes)
  }

  function Apply(s: State, e: Event): State {
    match e
    case Snap(snapshot) =>
      State(snapshot, map id | id in s.transcripts && IsLive(snapshot.calls, id) :: s.transcripts[id])
    case Started(call) =>
      if IsLive(s.live.calls, call.id) then s else s.(live := s.live.(calls := s.live.calls + [call]))
    case Identified(callId, identity) => PatchCall(s, callId, (c: LiveCall) => c.(identity := identity))
    case ActivityChanged(callId, activity) => PatchCall(s, callId, (c: LiveCall) => c.(activity := activity))
    case Said(callId, turn) =>
      var t := TranscriptOf(s, callId);
      var turns := SortTurns(Without(t.turns, turn.turnIndex) + [turn]);
      var next := WithTranscript(s, callId, t.(turns := turns));
      PatchCall(next, callId, (c: LiveCall) =>
        c.(turnCount := |turns|,
           lastReplyMs := if turn.byAgent && turn.latency.Some? then turn.latency.value else c.lastReplyMs))
    case Dtmf(callId, digit, at) => AddNote(s, callId, DtmfNote(Some(at), digit))
    case Transfer(callId, to, reason) =>
      PatchCall(AddNote(s, callId, TransferNote(to, reason)), callId, (c: LiveCall) => c.(activity := Transferring))
    case Ended(_, _, _, _) => End(s, e)
    case History(callId, turns, events) => WithTranscript(s, callId, Merged(TranscriptOf(s, callId), turns, events))
  }

  function Fold(s: State, events: seq<Event>): State
    decreases |events|
  {
    if events == [] then s else Fold(Apply(s, events[0]), events[1..])
  }

  /** A back-fill carries already-worded events only. */
  predicate IsBackfill(e: Event) {
    e.History? && forall k :: 0 <= k < |e.events| ==> e.events[k].EventNote?
  }
}
