/** What every event sequence keeps on the Live page, and what it can only count once. */
module LiveInvariants {
  import opened LiveReducer
  import opened LiveOrder

  ghost predicate UniqueCalls(calls: seq<LiveCall>) {
    forall i, j :: 0 <= i < j < |calls| ==> calls[i].id != calls[j].id
  }

  ghost predicate UniqueRecent(recent: seq<RecentCall>) {
    forall i, j :: 0 <= i < j < |recent| ==> recent[i].id != recent[j].id
  }

  ghost predicate FairDay(today: Today) {
    && today.inbound + today.outbound == today.calls
    && today.transferred <= today.calls
    && (today.handledByAgentPct.Some? ==> 0 <= today.handledByAgentPct.value <= 100)
  }

  ghost predicate WellFormedSnapshot(live: Snapshot) {
    UniqueCalls(live.calls) && |live.recent| <= RECENT_LIMIT && UniqueRecent(live.recent) && FairDay(live.today)
  }

  ghost predicate WellFormed(s: State) {
    && WellFormedSnapshot(s.live)
    && forall id :: id in s.transcripts ==> StrictlyOrdered(s.transcripts[id].turns)
  }

  /** Snapshots come well formed, and a stored history holds each turn index once. */
  ghost predicate Proper(e: Event) {
    && (e.Snap? ==> WellFormedSnapshot(e.snapshot))
    && (e.History? ==> forall i, j :: 0 <= i < j < |e.turns| ==> e.turns[i].turnIndex != e.turns[j].turnIndex)
  }

  // ----- transcripts stay strictly ordered

  lemma {:induction false} OnceEach(turns: seq<Turn>, index: int)
    requires forall i, j :: 0 <= i < j < |turns| ==> turns[i].turnIndex != turns[j].turnIndex
    ensures |At(turns, index)| <= 1
  {
    if turns != [] {
      var n := |turns| - 1;
      OnceEach(turns[..n], index);
      AtMembers(turns[..n], index);
      var earlier := At(turns[..n], index);
      assert earlier != [] ==> earlier[0] in earlier;
    }
  }

  lemma {:induction false} TwiceAt(turns: seq<Turn>, i: nat, j: nat)
    requires i < j < |turns| && turns[i].turnIndex == turns[j].turnIndex
    ensures |At(turns, turns[i].turnIndex)| >= 2
  {
    var n := |turns| - 1;
    if j < n {
      TwiceAt(turns[..n], i, j);
    } else {
      SomethingStands(turns[..n], turns[i]);
    }
  }

  lemma OrderedOnceIsStrict(turns: seq<Turn>)
    requires Ordered(turns) && forall index :: |At(turns, index)| <= 1
    ensures StrictlyOrdered(turns)
  {
    forall i, j | 0 <= i < j < |turns|
      ensures turns[i].turnIndex < turns[j].turnIndex
    {
      if turns[i].turnIndex == turns[j].turnIndex {
        TwiceAt(turns, i, j);
      }
    }
  }

  lemma TurnKeepsStrict(turns: seq<Turn>, t: Turn)
    requires StrictlyOrdered(turns)
    ensures StrictlyOrdered(AfterTurn(turns, t))
  {
    SortKeeps(Without(turns, t.turnIndex) + [t], 0);
    forall index
      ensures |At(AfterTurn(turns, t), index)| <= 1
    {
      AtAfterTurn(turns, t, index);
      OnceEach(turns, index);
    }
    OrderedOnceIsStrict(AfterTurn(turns, t));
  }

  lemma BackfillKeepsStrict(turns: seq<Turn>, stored: seq<Turn>)
    requires StrictlyOrdered(turns)
    requires forall i, j :: 0 <= i < j < |stored| ==> stored[i].turnIndex != stored[j].turnIndex
    ensures StrictlyOrdered(AfterBackfill(turns, stored))
  {
    SortKeeps(Unknown(stored, turns) + turns, 0);
    forall index
      ensures |At(AfterBackfill(turns, stored), index)| <= 1
    {
      AtAfterBackfill(turns, stored, index);
      OnceEach(turns, index);
      OnceEach(stored, index);
    }
    OrderedOnceIsStrict(AfterBackfill(turns, stored));
  }

  // ----- the live and the finished lists

  lemma {:induction false} OtherCallsAre(calls: seq<LiveCall>, id: string)
    ensures forall c :: c in OtherCalls(calls, id) <==> c in calls && c.id != id
    ensures UniqueCalls(calls) ==> UniqueCalls(OtherCalls(calls, id))
    ensures UniqueCalls(calls) ==> |OtherCalls(calls, id)| == |calls| - if IsLive(calls, id) then 1 else 0
  {
    if calls != [] {
      var rest := calls[1..];
      OtherCallsAre(rest, id);
      assert calls == [calls[0]] + rest;
      if UniqueCalls(calls) {
        RestLive(calls, id);
        assert forall k :: 0 <= k < |OtherCalls(rest, id)| ==> OtherCalls(rest, id)[k] in rest;
      }
    }
  }

  lemma RestLive(calls: seq<LiveCall>, id: string)
    requires calls != [] && UniqueCalls(calls)
    ensures IsLive(calls, id) <==> calls[0].id == id || IsLive(calls[1..], id)
    ensures calls[0].id == id ==> !IsLive(calls[1..], id)
  {
  }

  lemma {:induction false} OtherRecentMembers(recent: seq<RecentCall>, id: string)
    ensures forall r :: r in OtherRecent(recent, id) <==> r in recent && r.id != id
    ensures |OtherRecent(recent, id)| <= |recent|
  {
    if recent != [] {
      OtherRecentMembers(recent[1..], id);
      assert recent == [recent[0]] + recent[1..];
    }
  }

  lemma {:induction false} OtherRecentUnique(recent: seq<RecentCall>, id: string)
    requires UniqueRecent(recent)
    ensures UniqueRecent(OtherRecent(recent, id))
  {
    if recent != [] {
      var rest := recent[1..];
      OtherRecentUnique(rest, id);
      OtherRecentMembers(rest, id);
      assert forall k :: 0 <= k < |OtherRecent(rest, id)| ==> OtherRecent(rest, id)[k] in rest;
    }
  }

  lemma OtherRecentAre(recent: seq<RecentCall>, id: string)
    ensures forall r :: r in OtherRecent(recent, id) <==> r in recent && r.id != id
    ensures UniqueRecent(recent) ==> UniqueRecent(OtherRecent(recent, id))
    ensures |OtherRecent(recent, id)| <= |recent|
  {
    OtherRecentMembers(recent, id);
    if UniqueRecent(recent) {
      OtherRecentUnique(recent, id);
    }
  }

  lemma {:induction false} FoundCall(calls: seq<LiveCall>, id: string)
    requires IsLive(calls, id)
    ensures FindCall(calls, id).id == id
  {
    if calls[0].id != id {
      FoundCall(calls[1..], id);
    }
  }

  lemma NewestKeepsRecent(first: RecentCall, recent: seq<RecentCall>)
    requires UniqueRecent(recent)
    ensures var kept := Cut([first] + OtherRecent(recent, first.id), RECENT_LIMIT);
      UniqueRecent(kept) && |kept| <= RECENT_LIMIT && kept[0] == first
  {
    var others := OtherRecent(recent, first.id);
    OtherRecentAre(recent, first.id);
    assert forall k :: 0 <= k < |others| ==> others[k] in others;
    assert UniqueRecent([first] + others);
  }

  lemma EndKeepsSnapshot(live: Snapshot, notes: seq<Note>, e: Event)
    requires WellFormedSnapshot(live) && e.Ended?
    ensures WellFormedSnapshot(EndedLive(live, notes, e))
    ensures |EndedLive(live, notes, e).calls| + EndedLive(live, notes, e).today.calls == |live.calls| + live.today.calls
  {
    if IsLive(live.calls, e.callId) {
      var call := FindCall(live.calls, e.callId);
      FoundCall(live.calls, e.callId);
      OtherCallsAre(live.calls, e.callId);
      NewestKeepsRecent(Finished(call, e, LastDigit(notes)), live.recent);
    }
  }

  // ----- every event

  predicate KeepsId(f: LiveCall -> LiveCall, c: LiveCall) {
    f(c).id == c.id
  }

  lemma PatchKeeps(s: State, id: string, f: LiveCall -> LiveCall)
    requires WellFormed(s) && forall c :: KeepsId(f, c)
    ensures WellFormed(PatchCall(s, id, f)) && |PatchCall(s, id, f).live.calls| == |s.live.calls|
    ensures PatchCall(s, id, f).live.today == s.live.today
  {
    forall k | 0 <= k < |s.live.calls|
      ensures Patched(s.live.calls, id, f)[k].id == s.live.calls[k].id
    {
      assert KeepsId(f, s.live.calls[k]);
    }
  }

  lemma HeardKeeps(s: State, id: string, turn: Turn)
    requires WellFormed(s)
    ensures WellFormed(Heard(s, id, turn))
  {
    TurnKeepsStrict(TranscriptOf(s, id).turns, turn);
  }

  /** Live calls and the day's calls together, the figure a started call adds one to. */
  function Seen(s: State): nat {
    |s.live.calls| + s.live.today.calls
  }

  predicate Counts(s: State, e: Event) {
    e.Started? && !IsLive(s.live.calls, e.call.id)
  }

  lemma EventKeeps(s: State, e: Event)
    requires WellFormed(s) && Proper(e)
    ensures WellFormed(Apply(s, e))
    ensures !e.Snap? ==> Seen(Apply(s, e)) == Seen(s) + if Counts(s, e) then 1 else 0
  {
    match e
    case Snap(_) =>
    case Started(call) =>
      if !IsLive(s.live.calls, call.id) {
        assert forall k :: 0 <= k < |s.live.calls| ==> s.live.calls[k].id != call.id;
      }
    case Identified(id, identity) => PatchKeeps(s, id, (c: LiveCall) => c.(identity := identity));
    case ActivityChanged(id, activity) => PatchKeeps(s, id, (c: LiveCall) => c.(activity := activity));
    case Said(id, turn) =>
      HeardKeeps(s, id, turn);
      SaidIsHeardAndCounted(s, id, turn);
      PatchKeeps(Heard(s, id, turn), id, Counted(turn, |AfterTurn(TranscriptOf(s, id).turns, turn)|));
    case Dtmf(_, _, _) =>
    case Transfer(id, to, reason) =>
      PatchKeeps(AddNote(s, id, TransferNote(to, reason)), id, (c: LiveCall) => c.(activity := Transferring));
    case Ended(id, _, _, _) => EndKeepsSnapshot(s.live, TranscriptOf(s, id).notes, e);
    case History(id, turns, _) => BackfillKeepsStrict(TranscriptOf(s, id).turns, turns);
  }

  /** From a well-formed page, every sequence of events leaves a well-formed page. */
  lemma {:induction false} EventsKeepWellFormed(s: State, events: seq<Event>)
    requires WellFormed(s) && forall e :: e in events ==> Proper(e)
    ensures WellFormed(Fold(s, events))
    decreases |events|
  {
    if events != [] {
      assert events[0] in events;
      EventKeeps(s, events[0]);
      EventsKeepWellFormed(Apply(s, events[0]), events[1..]);
    }
  }

  /** How many events of a stream start a call that is not live yet. */
  function EffectiveStarts(s: State, events: seq<Event>): nat
    decreases |events|
  {
    if events == [] then 0
    else (if Counts(s, events[0]) then 1 else 0) + EffectiveStarts(Apply(s, events[0]), events[1..])
  }

  /** Between snapshots a call is counted once: by the event that starts it, and never by its end. */
  lemma {:induction false} CallsAreCountedOnce(s: State, events: seq<Event>)
    requires WellFormed(s) && forall e :: e in events ==> Proper(e) && !e.Snap?
    ensures Seen(Fold(s, events)) == Seen(s) + EffectiveStarts(s, events)
    decreases |events|
  {
    if events != [] {
      assert events[0] in events;
      EventKeeps(s, events[0]);
      CallsAreCountedOnce(Apply(s, events[0]), events[1..]);
    }
  }

  /** A repeated end changes neither the day's figures nor either list. */
  lemma SecondEndCountsNothing(s: State, e: Event, again: Event)
    requires WellFormed(s) && e.Ended? && again.Ended? && again.callId == e.callId
    ensures Apply(Apply(s, e), again).live == Apply(s, e).live
  {
    var after := Apply(s, e).live.calls;
    OtherCallsAre(s.live.calls, e.callId);
    forall k | 0 <= k < |after|
      ensures after[k].id != e.callId
    {
      assert after[k] in after;
    }
  }
}
