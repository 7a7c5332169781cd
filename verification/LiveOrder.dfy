/**
 Why a history back-fill may arrive at any moment: merging it commutes with every delta of the Live
 page's fold, so where it lands in the stream does not show in the transcripts or the figures.
 */
module LiveOrder {
  import opened Wrappers
  import opened LiveReducer

  // ----- a stable sort is determined by what stands at each index

  lemma {:induction false} InsertOrders(sorted: seq<Turn>, t: Turn)
    requires Ordered(sorted)
    ensures Ordered(Insert(sorted, t))
    ensures forall x :: x in Insert(sorted, t) ==> x in sorted || x == t
  {
    if sorted != [] && sorted[|sorted| - 1].turnIndex > t.turnIndex {
      var n := |sorted| - 1;
      InsertOrders(sorted[..n], t);
      forall x | x in Insert(sorted[..n], t)
        ensures x.turnIndex <= sorted[n].turnIndex
      {
        if x in sorted[..n] {
          var k :| 0 <= k < n && sorted[k] == x;
        }
      }
      assert forall k :: 0 <= k < |Insert(sorted[..n], t)| ==> Insert(sorted[..n], t)[k] in Insert(sorted[..n], t);
    }
  }

  lemma {:induction false} InsertKeeps(sorted: seq<Turn>, t: Turn, index: int)
    requires Ordered(sorted)
    ensures At(Insert(sorted, t), index) == At(sorted, index) + if t.turnIndex == index then [t] else []
  {
    if sorted == [] || sorted[|sorted| - 1].turnIndex <= t.turnIndex {
    } else {
      var n := |sorted| - 1;
      InsertKeeps(sorted[..n], t, index);
    }
  }

  lemma {:induction false} SortKeeps(turns: seq<Turn>, index: int)
    ensures Ordered(SortTurns(turns))
    ensures At(SortTurns(turns), index) == At(turns, index)
  {
    if turns != [] {
      SortKeeps(turns[..|turns| - 1], index);
      InsertOrders(SortTurns(turns[..|turns| - 1]), turns[|turns| - 1]);
      InsertKeeps(SortTurns(turns[..|turns| - 1]), turns[|turns| - 1], index);
    }
  }

  lemma {:induction false} AtMembers(turns: seq<Turn>, index: int)
    ensures forall t :: t in At(turns, index) <==> t in turns && t.turnIndex == index
  {
    if turns != [] {
      AtMembers(turns[..|turns| - 1], index);
      assert turns == turns[..|turns| - 1] + [turns[|turns| - 1]];
    }
  }

  lemma SomethingStands(turns: seq<Turn>, t: Turn)
    requires t in turns
    ensures At(turns, t.turnIndex) != []
  {
  }

  ghost predicate AgreeEverywhere(a: seq<Turn>, b: seq<Turn>) {
    forall index :: At(a, index) == At(b, index)
  }

  lemma LastStandsLast(turns: seq<Turn>)
    requires turns != []
    ensures var last := turns[|turns| - 1];
      At(turns, last.turnIndex) != [] && At(turns, last.turnIndex)[|At(turns, last.turnIndex)| - 1] == last
  {
  }

  lemma LastIndexBounds(a: seq<Turn>, b: seq<Turn>)
    requires Ordered(b) && AgreeEverywhere(a, b) && a != [] && b != []
    ensures a[|a| - 1].turnIndex <= b[|b| - 1].turnIndex
  {
    var x := a[|a| - 1];
    LastStandsLast(a);
    AtMembers(b, x.turnIndex);
    assert At(a, x.turnIndex) == At(b, x.turnIndex);
    assert x in At(b, x.turnIndex);
  }

  lemma LastTurnsAgree(a: seq<Turn>, b: seq<Turn>)
    requires Ordered(a) && Ordered(b) && AgreeEverywhere(a, b) && a != [] && b != []
    ensures a[|a| - 1] == b[|b| - 1]
  {
    LastIndexBounds(a, b);
    LastIndexBounds(b, a);
    LastStandsLast(a);
    LastStandsLast(b);
    assert At(a, a[|a| - 1].turnIndex) == At(b, b[|b| - 1].turnIndex);
  }

  lemma FrontsAgree(a: seq<Turn>, b: seq<Turn>)
    requires AgreeEverywhere(a, b) && a != [] && b != [] && a[|a| - 1] == b[|b| - 1]
    ensures AgreeEverywhere(a[..|a| - 1], b[..|b| - 1])
  {
    var (p, q, last) := (a[..|a| - 1], b[..|b| - 1], a[|a| - 1]);
    forall index
      ensures At(p, index) == At(q, index)
    {
      assert At(a, index) == At(b, index);
      SameBefore(At(p, index), At(q, index), if last.turnIndex == index then [last] else []);
    }
  }

  lemma SameBefore(a: seq<Turn>, b: seq<Turn>, tail: seq<Turn>)
    requires a + tail == b + tail
    ensures a == b
  {
    assert |a| == |b|;
    assert a == (a + tail)[..|a|] && b == (b + tail)[..|b|];
  }

  /** Two ordered lists that agree at every index are the same list. */
  lemma {:induction false} OrderedDetermined(a: seq<Turn>, b: seq<Turn>)
    requires Ordered(a) && Ordered(b) && AgreeEverywhere(a, b)
    ensures a == b
    decreases |a|
  {
    if a == [] && b != [] {
      SomethingStands(b, b[0]);
    } else if a != [] && b == [] {
      SomethingStands(a, a[0]);
    } else if a != [] {
      LastTurnsAgree(a, b);
      FrontsAgree(a, b);
      OrderedDetermined(a[..|a| - 1], b[..|b| - 1]);
    }
  }

  // ----- what stands at each index after a turn, and after a back-fill

  lemma {:induction false} AtConcat(a: seq<Turn>, b: seq<Turn>, index: int)
    ensures At(a + b, index) == At(a, index) + At(b, index)
  {
    if b == [] {
      assert a + b == a;
    } else {
      AtConcat(a, b[..|b| - 1], index);
      assert (a + b)[..|a + b| - 1] == a + b[..|b| - 1];
    }
  }

  lemma WithoutSnoc(turns: seq<Turn>, gone: int)
    requires turns != []
    ensures var (front, last) := (turns[..|turns| - 1], turns[|turns| - 1]);
      Without(turns, gone) == if last.turnIndex == gone then Without(front, gone) else Without(front, gone) + [last]
  {
  }

  lemma {:induction false} AtWithout(turns: seq<Turn>, gone: int, index: int)
    ensures At(Without(turns, gone), index) == if index == gone then [] else At(turns, index)
  {
    if turns != [] {
      AtWithout(turns[..|turns| - 1], gone, index);
      WithoutSnoc(turns, gone);
    }
  }

  lemma {:induction false} AtUnknown(turns: seq<Turn>, known: seq<Turn>, index: int)
    ensures At(Unknown(turns, known), index) == if At(known, index) == [] then At(turns, index) else []
  {
    if turns != [] {
      var last := turns[|turns| - 1];
      var rest := Unknown(turns[..|turns| - 1], known);
      AtUnknown(turns[..|turns| - 1], known, index);
      assert rest + [] == rest;
      AtMembers(known, last.turnIndex);
      if At(known, last.turnIndex) != [] {
        assert At(known, last.turnIndex)[0] in At(known, last.turnIndex);
      }
    }
  }

  function AfterTurn(turns: seq<Turn>, t: Turn): seq<Turn> {
    SortTurns(Without(turns, t.turnIndex) + [t])
  }

  function AfterBackfill(turns: seq<Turn>, stored: seq<Turn>): seq<Turn> {
    SortTurns(Unknown(stored, turns) + turns)
  }

  lemma AtAfterTurn(turns: seq<Turn>, t: Turn, index: int)
    ensures At(AfterTurn(turns, t), index) == if index == t.turnIndex then [t] else At(turns, index)
  {
    SortKeeps(Without(turns, t.turnIndex) + [t], index);
    AtConcat(Without(turns, t.turnIndex), [t], index);
    AtWithout(turns, t.turnIndex, index);
    assert [t][..0] == [];
    assert At([t], index) == At([], index) + if t.turnIndex == index then [t] else [];
  }

  /** Live turns win: a back-fill shows only at indices where nothing stood. */
  lemma AtAfterBackfill(turns: seq<Turn>, stored: seq<Turn>, index: int)
    ensures At(AfterBackfill(turns, stored), index)
         == if At(turns, index) == [] then At(stored, index) else At(turns, index)
  {
    SortKeeps(Unknown(stored, turns) + turns, index);
    AtConcat(Unknown(stored, turns), turns, index);
    AtUnknown(stored, turns, index);
  }

  /** A turn and a back-fill may come in either order. */
  lemma TurnAndBackfillCommute(turns: seq<Turn>, t: Turn, stored: seq<Turn>)
    ensures AfterBackfill(AfterTurn(turns, t), stored) == AfterTurn(AfterBackfill(turns, stored), t)
  {
    var a, b := AfterBackfill(AfterTurn(turns, t), stored), AfterTurn(AfterBackfill(turns, stored), t);
    SortKeeps(Unknown(stored, AfterTurn(turns, t)) + AfterTurn(turns, t), 0);
    SortKeeps(Without(AfterBackfill(turns, stored), t.turnIndex) + [t], 0);
    forall index
      ensures At(a, index) == At(b, index)
    {
      AtAfterBackfill(AfterTurn(turns, t), stored, index);
      AtAfterTurn(turns, t, index);
      AtAfterTurn(AfterBackfill(turns, stored), t, index);
      AtAfterBackfill(turns, stored, index);
    }
    assert AgreeEverywhere(a, b);
    OrderedDetermined(a, b);
  }

  // ----- states that differ in turn counts only

  /** A back-fill does not recount a live call's turns, so states are compared without that count. */
  ghost predicate Alike(s: State, t: State) {
    && t == s.(live := s.live.(calls := t.live.calls))
    && |t.live.calls| == |s.live.calls|
    && forall k :: 0 <= k < |s.live.calls| ==> AlikeCall(s.live.calls[k], t.live.calls[k])
  }

  predicate AlikeCall(c: LiveCall, d: LiveCall) {
    d == c.(turnCount := d.turnCount)
  }

  ghost predicate AlikeCalls(a: seq<LiveCall>, b: seq<LiveCall>) {
    |a| == |b| && forall k :: 0 <= k < |a| ==> AlikeCall(a[k], b[k])
  }

  lemma {:induction false} AlikeFound(a: seq<LiveCall>, b: seq<LiveCall>, id: string)
    requires AlikeCalls(a, b) && IsLive(a, id) && IsLive(b, id)
    ensures AlikeCall(FindCall(a, id), FindCall(b, id))
    decreases |a|
  {
    assert AlikeCall(a[0], b[0]);
    if a[0].id != id {
      AlikeFound(a[1..], b[1..], id);
    }
  }

  lemma {:induction false} AlikeOthers(a: seq<LiveCall>, b: seq<LiveCall>, id: string)
    requires AlikeCalls(a, b)
    ensures AlikeCalls(OtherCalls(a, id), OtherCalls(b, id))
    decreases |a|
  {
    if a != [] {
      assert AlikeCall(a[0], b[0]);
      AlikeOthers(a[1..], b[1..], id);
    }
  }

  lemma AlikeEnds(s: State, t: State, e: Event)
    requires Alike(s, t) && e.Ended?
    ensures Alike(End(s, e), End(t, e))
  {
    AlikeOthers(s.live.calls, t.live.calls, e.callId);
    if IsLive(s.live.calls, e.callId) {
      AlikeFound(s.live.calls, t.live.calls, e.callId);
    }
  }

  lemma AlikeHeard(s: State, t: State, callId: string, turn: Turn, count: nat)
    requires Alike(s, t)
    ensures Alike(PatchCall(Heard(s, callId, turn), callId, Counted(turn, count)),
                  PatchCall(Heard(t, callId, turn), callId, Counted(turn, count)))
  {
    assert TranscriptOf(s, callId) == TranscriptOf(t, callId);
    assert Alike(Heard(s, callId, turn), Heard(t, callId, turn));
    AlikePatched(Heard(s, callId, turn), Heard(t, callId, turn), callId, turn, count);
  }

  lemma AlikePatched(s: State, t: State, callId: string, turn: Turn, count: nat)
    requires Alike(s, t)
    ensures Alike(PatchCall(s, callId, Counted(turn, count)), PatchCall(t, callId, Counted(turn, count)))
  {
  }

  lemma AlikeSteps(s: State, t: State, e: Event)
    requires Alike(s, t)
    ensures Alike(Apply(s, e), Apply(t, e))
  {
    match e
    case Snap(_) =>
    case Started(call) =>
    case Identified(id, identity) =>
      var f := (c: LiveCall) => c.(identity := identity);
    case ActivityChanged(id, activity) =>
      var f := (c: LiveCall) => c.(activity := activity);
    case Said(id, turn) =>
      SaidIsHeardAndCounted(s, id, turn);
      SaidIsHeardAndCounted(t, id, turn);
      AlikeHeard(s, t, id, turn, |AfterTurn(TranscriptOf(s, id).turns, turn)|);
    case Dtmf(_, _, _) =>
    case Transfer(id, to, reason) =>
      var f := (c: LiveCall) => c.(activity := Transferring);
    case Ended(_, _, _, _) => AlikeEnds(s, t, e);
    case History(_, _, _) =>
  }

  lemma {:induction false} AlikeFolds(s: State, t: State, events: seq<Event>)
    requires Alike(s, t)
    ensures Alike(Fold(s, events), Fold(t, events))
    decreases |events|
  {
    if events != [] {
      AlikeSteps(s, t, events[0]);
      AlikeFolds(Apply(s, events[0]), Apply(t, events[0]), events[1..]);
    }
  }

  // ----- a back-fill commutes with every delta

  lemma {:induction false} BackfillKeepsDigit(events: seq<Note>, notes: seq<Note>)
    requires forall k :: 0 <= k < |events| ==> events[k].EventNote?
    ensures LastDigit(events + notes) == LastDigit(notes)
    decreases |notes|, |events|
  {
    if notes != [] {
      assert (events + notes)[..|events + notes| - 1] == events + notes[..|notes| - 1];
      BackfillKeepsDigit(events, notes[..|notes| - 1]);
    } else if events != [] {
      assert events + notes == events;
      assert events[..|events| - 1] + [] == events[..|events| - 1];
      BackfillKeepsDigit(events[..|events| - 1], []);
    }
  }

  lemma BackfillKeepsTransfer(events: seq<Note>, notes: seq<Note>)
    requires forall k :: 0 <= k < |events| ==> events[k].EventNote?
    ensures HasTransfer(events + notes) <==> HasTransfer(notes)
  {
  }

  lemma BackfillKeepsEnd(live: Snapshot, events: seq<Note>, notes: seq<Note>, e: Event)
    requires (forall k :: 0 <= k < |events| ==> events[k].EventNote?) && e.Ended?
    ensures EndedLive(live, events + notes, e) == EndedLive(live, notes, e)
  {
    BackfillKeepsDigit(events, notes);
    BackfillKeepsTransfer(events, notes);
  }

  lemma SetTwice(s: State, id: string, t: Transcript, other: string, u: Transcript)
    ensures TranscriptOf(WithTranscript(s, id, t), id) == t
    ensures other != id ==> TranscriptOf(WithTranscript(s, id, t), other) == TranscriptOf(s, other)
    ensures WithTranscript(WithTranscript(s, id, t), id, u) == WithTranscript(s, id, u)
    ensures other != id ==>
      WithTranscript(WithTranscript(s, id, t), other, u) == WithTranscript(WithTranscript(s, other, u), id, t)
  {
  }

  lemma MergedAndNotedCommute(t: Transcript, note: Note, stored: seq<Turn>, events: seq<Note>)
    ensures var m := Merged(t, stored, events);
      Merged(t.(notes := t.notes + [note]), stored, events) == m.(notes := m.notes + [note])
  {
    assert events + (t.notes + [note]) == events + t.notes + [note];
  }

  lemma BackfillAndNoteCommute(s: State, h: Event, callId: string, note: Note)
    requires IsBackfill(h)
    ensures AddNote(Apply(s, h), callId, note) == Apply(AddNote(s, callId, note), h)
  {
    var t, u := TranscriptOf(s, h.callId), TranscriptOf(s, callId);
    var merged := Merged(t, h.turns, h.events);
    var noted := u.(notes := u.notes + [note]);
    if callId == h.callId {
      MergedAndNotedCommute(t, note, h.turns, h.events);
      SetTwice(s, callId, merged, callId, merged.(notes := merged.notes + [note]));
      SetTwice(s, callId, noted, callId, Merged(noted, h.turns, h.events));
    } else {
      SetTwice(s, h.callId, merged, callId, noted);
      SetTwice(s, callId, noted, h.callId, merged);
    }
  }

  /** The transcript side of an end. */
  function Closed(s: State, e: Event): State
    requires e.Ended?
  {
    WithTranscript(s, e.callId, EndedTranscript(TranscriptOf(s, e.callId), e))
  }

  lemma MergedAndEndedCommute(t: Transcript, e: Event, stored: seq<Turn>, events: seq<Note>)
    requires e.Ended?
    ensures Merged(EndedTranscript(t, e), stored, events) == EndedTranscript(Merged(t, stored, events), e)
  {
    MergedAndNotedCommute(t, EndedNote(e.durationSeconds, e.outcome), stored, events);
  }

  lemma BackfillAndClosingCommute(s: State, h: Event, e: Event)
    requires IsBackfill(h) && e.Ended?
    ensures Closed(Apply(s, h), e) == Apply(Closed(s, e), h)
  {
    var t, u := TranscriptOf(s, h.callId), TranscriptOf(s, e.callId);
    var merged := Merged(t, h.turns, h.events);
    var ended := EndedTranscript(u, e);
    if e.callId == h.callId {
      MergedAndEndedCommute(t, e, h.turns, h.events);
      SetTwice(s, e.callId, merged, e.callId, EndedTranscript(merged, e));
      SetTwice(s, e.callId, ended, e.callId, Merged(ended, h.turns, h.events));
    } else {
      SetTwice(s, h.callId, merged, e.callId, ended);
      SetTwice(s, e.callId, ended, h.callId, merged);
    }
  }

  lemma EndParts(s: State, e: Event)
    requires e.Ended?
    ensures End(s, e) == Closed(s, e).(live := EndedLive(s.live, TranscriptOf(s, e.callId).notes, e))
  {
  }

  lemma BackfillAndEndCommute(s: State, h: Event, e: Event)
    requires IsBackfill(h) && e.Ended?
    ensures End(Apply(s, h), e) == Apply(End(s, e), h)
  {
    var t := TranscriptOf(s, e.callId);
    EndParts(Apply(s, h), e);
    EndParts(s, e);
    BackfillAndClosingCommute(s, h, e);
    if e.callId == h.callId {
      BackfillKeepsEnd(s.live, h.events, t.notes, e);
    }
  }

  function Counted(turn: Turn, count: nat): LiveCall -> LiveCall {
    (c: LiveCall) =>
      c.(turnCount := count,
         lastReplyMs := if turn.byAgent && turn.latency.Some? then turn.latency.value else c.lastReplyMs)
  }

  function Heard(s: State, callId: string, turn: Turn): State {
    var t := TranscriptOf(s, callId);
    WithTranscript(s, callId, t.(turns := AfterTurn(t.turns, turn)))
  }

  lemma SaidIsHeardAndCounted(s: State, callId: string, turn: Turn)
    ensures var count := |AfterTurn(TranscriptOf(s, callId).turns, turn)|;
      Apply(s, Said(callId, turn)) == PatchCall(Heard(s, callId, turn), callId, Counted(turn, count))
  {
  }

  lemma MergedAndTurnCommute(t: Transcript, turn: Turn, stored: seq<Turn>, events: seq<Note>)
    ensures var m := Merged(t, stored, events);
      Merged(t.(turns := AfterTurn(t.turns, turn)), stored, events) == m.(turns := AfterTurn(m.turns, turn))
  {
    TurnAndBackfillCommute(t.turns, turn, stored);
    assert Merged(t, stored, events).turns == AfterBackfill(t.turns, stored);
    assert Merged(t.(turns := AfterTurn(t.turns, turn)), stored, events).turns
        == AfterBackfill(AfterTurn(t.turns, turn), stored);
  }

  lemma HeardOf(s: State, id: string, t: Transcript, turn: Turn)
    ensures Heard(WithTranscript(s, id, t), id, turn)
         == WithTranscript(s, id, t.(turns := AfterTurn(t.turns, turn)))
  {
    SetTwice(s, id, t, id, t.(turns := AfterTurn(t.turns, turn)));
  }

  lemma BackfillOf(s: State, h: Event, t: Transcript)
    requires IsBackfill(h)
    ensures Apply(WithTranscript(s, h.callId, t), h) == WithTranscript(s, h.callId, Merged(t, h.turns, h.events))
  {
    SetTwice(s, h.callId, t, h.callId, Merged(t, h.turns, h.events));
  }

  lemma HeardAndBackfillOfOneCall(s: State, h: Event, turn: Turn)
    requires IsBackfill(h)
    ensures Heard(Apply(s, h), h.callId, turn) == Apply(Heard(s, h.callId, turn), h)
  {
    var t := TranscriptOf(s, h.callId);
    var merged := Merged(t, h.turns, h.events);
    var heard := t.(turns := AfterTurn(t.turns, turn));
    assert Apply(s, h) == WithTranscript(s, h.callId, merged);
    assert Heard(s, h.callId, turn) == WithTranscript(s, h.callId, heard);
    HeardOf(s, h.callId, merged, turn);
    BackfillOf(s, h, heard);
    MergedAndTurnCommute(t, turn, h.turns, h.events);
  }

  lemma HeardAndBackfillOfTwoCalls(s: State, h: Event, callId: string, turn: Turn)
    requires IsBackfill(h) && callId != h.callId
    ensures Heard(Apply(s, h), callId, turn) == Apply(Heard(s, callId, turn), h)
  {
    var t, u := TranscriptOf(s, h.callId), TranscriptOf(s, callId);
    var merged := Merged(t, h.turns, h.events);
    var heard := u.(turns := AfterTurn(u.turns, turn));
    SetTwice(s, h.callId, merged, callId, heard);
    SetTwice(s, callId, heard, h.callId, merged);
  }

  lemma PatchAndBackfillCommute(s: State, h: Event, callId: string, f: LiveCall -> LiveCall)
    requires IsBackfill(h)
    ensures Apply(PatchCall(s, callId, f), h) == PatchCall(Apply(s, h), callId, f)
  {
  }

  lemma HeardAndBackfillCommute(s: State, h: Event, callId: string, turn: Turn)
    requires IsBackfill(h)
    ensures Heard(Apply(s, h), callId, turn) == Apply(Heard(s, callId, turn), h)
  {
    if callId == h.callId {
      HeardAndBackfillOfOneCall(s, h, turn);
    } else {
      HeardAndBackfillOfTwoCalls(s, h, callId, turn);
    }
  }

  /** Two counts of turns for one call show alike. */
  lemma CountsShowAlike(s: State, callId: string, turn: Turn, m: nat, n: nat)
    ensures Alike(PatchCall(s, callId, Counted(turn, m)), PatchCall(s, callId, Counted(turn, n)))
  {
  }

  lemma BackfillAndTurnCommute(s: State, h: Event, callId: string, turn: Turn)
    requires IsBackfill(h)
    ensures Alike(Apply(Apply(s, h), Said(callId, turn)), Apply(Apply(s, Said(callId, turn)), h))
  {
    var m := |AfterTurn(TranscriptOf(Apply(s, h), callId).turns, turn)|;
    var n := |AfterTurn(TranscriptOf(s, callId).turns, turn)|;
    SaidIsHeardAndCounted(Apply(s, h), callId, turn);
    SaidIsHeardAndCounted(s, callId, turn);
    HeardAndBackfillCommute(s, h, callId, turn);
    PatchAndBackfillCommute(Heard(s, callId, turn), h, callId, Counted(turn, n));
    CountsShowAlike(Heard(Apply(s, h), callId, turn), callId, turn, m, n);
  }

  lemma BackfillAndTransferCommute(s: State, h: Event, e: Event)
    requires IsBackfill(h) && e.Transfer?
    ensures Apply(Apply(s, h), e) == Apply(Apply(s, e), h)
  {
    var note := TransferNote(e.to, e.reason);
    BackfillAndNoteCommute(s, h, e.callId, note);
    PatchAndBackfillCommute(AddNote(s, e.callId, note), h, e.callId, (c: LiveCall) => c.(activity := Transferring));
  }

  lemma BackfillCommutes(s: State, h: Event, e: Event)
    requires IsBackfill(h) && !e.Snap? && !e.History?
    ensures Alike(Apply(Apply(s, h), e), Apply(Apply(s, e), h))
  {
    match e
    case Said(callId, turn) => BackfillAndTurnCommute(s, h, callId, turn);
    case Dtmf(callId, digit, at) => BackfillAndNoteCommute(s, h, callId, DtmfNote(Some(at), digit));
    case Transfer(_, _, _) => BackfillAndTransferCommute(s, h, e);
    case Ended(_, _, _, _) => BackfillAndEndCommute(s, h, e);
    case _ =>
  }

  /** A back-fill before a run of deltas shows as it would after them. */
  lemma {:induction false} BackfillFloats(s: State, h: Event, events: seq<Event>)
    requires IsBackfill(h) && forall e :: e in events ==> !e.Snap? && !e.History?
    ensures Alike(Fold(Apply(s, h), events), Apply(Fold(s, events), h))
    decreases |events|
  {
    if events != [] {
      assert events[0] in events;
      BackfillCommutes(s, h, events[0]);
      AlikeFolds(Apply(Apply(s, h), events[0]), Apply(Apply(s, events[0]), h), events[1..]);
      BackfillFloats(Apply(s, events[0]), h, events[1..]);
    }
  }

  lemma {:induction false} FoldConcat(s: State, a: seq<Event>, b: seq<Event>)
    ensures Fold(s, a + b) == Fold(Fold(s, a), b)
    decreases |a|
  {
    if a == [] {
      assert a + b == b;
    } else {
      assert (a + b)[1..] == a[1..] + b;
      FoldConcat(Apply(s, a[0]), a[1..], b);
    }
  }

  function InsertedAt(events: seq<Event>, h: Event, i: nat): seq<Event>
    requires i <= |events|
  {
    events[..i] + [h] + events[i..]
  }

  /**
   Wherever one back-fill is inserted into a stream of deltas, the transcripts, the finished list and
   the day's figures come out the same, and so do the live calls but for their turn counts.
   */
  lemma BackfillMayArriveAnyTime(s: State, h: Event, events: seq<Event>, i: nat, j: nat)
    requires IsBackfill(h) && (forall e :: e in events ==> !e.Snap? && !e.History?)
    requires i <= |events| && j <= |events|
    ensures var (a, b) := (Fold(s, InsertedAt(events, h, i)), Fold(s, InsertedAt(events, h, j)));
      && a.transcripts == b.transcripts && a.live.recent == b.live.recent && a.live.today == b.live.today
      && Alike(a, b)
  {
    InsertedIsLast(s, h, events, i);
    InsertedIsLast(s, h, events, j);
  }

  lemma InsertedIsLast(s: State, h: Event, events: seq<Event>, i: nat)
    requires IsBackfill(h) && (forall e :: e in events ==> !e.Snap? && !e.History?)
    requires i <= |events|
    ensures Alike(Fold(s, InsertedAt(events, h, i)), Apply(Fold(s, events), h))
  {
    var before, after := events[..i], events[i..];
    FoldConcat(s, before + [h], after);
    FoldConcat(s, before, [h]);
    FoldConcat(s, before, after);
    assert before + after == events;
    assert Fold(Fold(s, before), [h]) == Apply(Fold(s, before), h) by {
      assert [h][1..] == [];
    }
    BackfillFloats(Fold(s, before), h, after);
  }

  /** Across a snapshot it matters: the back-fill survives in both orders exactly for a call still live. */
  lemma BackfillAcrossSnapshot(s: State, h: Event, snapshot: Snapshot)
    requires IsBackfill(h)
    ensures Apply(Apply(s, h), Snap(snapshot)) == Apply(Apply(s, Snap(snapshot)), h)
       <==> IsLive(snapshot.calls, h.callId)
  {
    var a, b := Apply(Apply(s, h), Snap(snapshot)), Apply(Apply(s, Snap(snapshot)), h);
    if IsLive(snapshot.calls, h.callId) {
      assert a.transcripts == b.transcripts;
    } else {
      assert h.callId !in a.transcripts && h.callId in b.transcripts;
    }
  }
}
