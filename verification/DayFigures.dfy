/**
 What the figures and lists of the Live page count, told by the calls that end: `tallyEnded` and the
 `call.ended` case of apps/admin/src/lib/live-reducer.ts over whole streams of events.
 */
module DayFigures {
  import opened Wrappers
  import opened LiveReducer
  import opened LiveInvariants

  /** The call that stands first under an id. */
  predicate Stands(calls: seq<LiveCall>, id: string, k: nat) {
    k < |calls| && calls[k].id == id && forall j :: 0 <= j < k ==> calls[j].id != id
  }

  /** The event ends a live call. */
  ghost predicate Ends(s: State, e: Event) {
    e.Ended? && exists c :: c in s.live.calls && c.id == e.callId
  }

  /** And one of this direction. */
  ghost predicate EndsOne(s: State, e: Event, direction: Direction) {
    e.Ended? && exists k: nat :: Stands(s.live.calls, e.callId, k) && s.live.calls[k].direction == direction
  }

  /** The newest keypress of a call is this digit. */
  ghost predicate Pressed(notes: seq<Note>, digit: string) {
    exists k :: 0 <= k < |notes| && notes[k].DtmfNote? && notes[k].digit == digit
      && forall j :: k < j < |notes| ==> !notes[j].DtmfNote?
  }

  ghost predicate Accepts(s: State, e: Event) {
    EndsOne(s, e, Outbound) && Pressed(TranscriptOf(s, e.callId).notes, "1")
  }

  ghost predicate EndsTransferred(s: State, e: Event) {
    Ends(s, e) && exists note :: note in TranscriptOf(s, e.callId).notes && note.TransferNote?
  }

  function Product(a: int, b: int): int {
    a * b
  }

  /** `p` is the share of `part` in `whole` in percent, rounded to the nearest, a half upwards. */
  predicate IsPercent(p: int, part: int, whole: int) {
    Product(2 * p - 1, whole) <= 200 * part < Product(2 * p + 1, whole)
  }

  ghost function One(b: bool): nat {
    if b then 1 else 0
  }

  // ----- one event

  lemma {:induction false} FoundStandsFirst(calls: seq<LiveCall>, id: string) returns (k: nat)
    requires IsLive(calls, id)
    ensures Stands(calls, id, k) && calls[k] == FindCall(calls, id)
  {
    if calls[0].id == id {
      k := 0;
    } else {
      k := FoundStandsFirst(calls[1..], id);
      assert calls[k + 1] == calls[1..][k];
      assert forall j :: 0 < j < k + 1 ==> calls[j] == calls[1..][j - 1];
      k := k + 1;
    }
  }

  lemma {:induction false} PressedIsLast(notes: seq<Note>, digit: string)
    ensures LastDigit(notes) == Some(digit) <==> Pressed(notes, digit)
  {
    if notes != [] {
      var n := |notes| - 1;
      if notes[n].DtmfNote? {
        assert Pressed(notes, notes[n].digit);
      } else {
        PressedIsLast(notes[..n], digit);
        if Pressed(notes[..n], digit) {
          var k :| 0 <= k < n && notes[..n][k].DtmfNote? && notes[..n][k].digit == digit
            && forall j :: k < j < n ==> !notes[..n][j].DtmfNote?;
          assert notes[k].DtmfNote? && forall j :: k < j < n ==> notes[j] == notes[..n][j];
        }
        if Pressed(notes, digit) {
          var k :| 0 <= k < |notes| && notes[k].DtmfNote? && notes[k].digit == digit
            && forall j :: k < j < |notes| ==> !notes[j].DtmfNote?;
          assert notes[..n][k] == notes[k] && forall j :: k < j < n ==> notes[..n][j] == notes[j];
        }
      }
    }
  }

  /** How an end moves the day's figures, if it ends a live call. */
  lemma EndMoves(s: State, e: Event)
    requires Ends(s, e)
    ensures var (d, n) := (s.live.today, Apply(s, e).live.today);
      && n.calls == d.calls + 1
      && n.inbound == d.inbound + One(EndsOne(s, e, Inbound)) && n.outbound == d.outbound + One(EndsOne(s, e, Outbound))
      && n.offersPitched == d.offersPitched + One(EndsOne(s, e, Outbound))
      && n.offersAccepted == d.offersAccepted + One(Accepts(s, e))
      && n.transferred == d.transferred + One(EndsTransferred(s, e))
      && n.handledByAgentPct.Some? && IsPercent(n.handledByAgentPct.value, n.calls - n.transferred, n.calls)
  {
    var c :| c in s.live.calls && c.id == e.callId;
    assert IsLive(s.live.calls, e.callId);
    var k := FoundStandsFirst(s.live.calls, e.callId);
    FirstIsOne(s.live.calls, e.callId, k);
    PressedIsLast(TranscriptOf(s, e.callId).notes, "1");
    var n := Apply(s, e).live.today;
    PercentageIsPercent(n.calls - n.transferred, n.calls);
  }

  lemma FirstIsOne(calls: seq<LiveCall>, id: string, k: nat)
    requires Stands(calls, id, k)
    ensures forall j: nat :: Stands(calls, id, j) ==> j == k
  {
  }

  lemma PercentageIsPercent(part: int, whole: int)
    requires whole > 0
    ensures IsPercent(Percentage(part, whole), part, whole)
  {
    var p := Percentage(part, whole);
    TimesWhole(p as real - 0.5, HundredShare(part, whole), p as real + 0.5, whole as real);
    ShareTimesWhole(part, whole);
    HalfSteps(p, whole);
  }

  function HundredShare(part: int, whole: int): real
    requires whole > 0
  {
    part as real / whole as real * 100.0
  }

  function RealProduct(a: real, b: real): real {
    a * b
  }

  lemma ShareTimesWhole(part: int, whole: int)
    requires whole > 0
    ensures RealProduct(HundredShare(part, whole), whole as real) == 100.0 * part as real
  {
    assert part as real / whole as real * whole as real == part as real;
  }

  lemma TimesWhole(a: real, b: real, c: real, whole: real)
    requires a <= b < c && whole > 0.0
    ensures RealProduct(a, whole) <= RealProduct(b, whole) < RealProduct(c, whole)
  {
  }

  lemma HalfSteps(p: int, whole: int)
    ensures RealProduct(p as real - 0.5, whole as real) == Product(2 * p - 1, whole) as real / 2.0
    ensures RealProduct(p as real + 0.5, whole as real) == Product(2 * p + 1, whole) as real / 2.0
  {
    assert (2 * p - 1) as real * whole as real == Product(2 * p - 1, whole) as real;
    assert (2 * p + 1) as real * whole as real == Product(2 * p + 1, whole) as real;
  }

  /** Nothing else moves them but a snapshot. */
  lemma OthersStay(s: State, e: Event)
    requires !Ends(s, e) && !e.Snap?
    ensures Apply(s, e).live.today == s.live.today
  {
  }

  // ----- whole streams

  /** How many events of a stream are of a kind, each judged in the state it meets. */
  ghost function Number(s: State, events: seq<Event>, kind: (State, Event) -> bool): nat
    decreases |events|
  {
    if events == [] then 0
    else One(kind(s, events[0])) + Number(Apply(s, events[0]), events[1..], kind)
  }

  /**
   Between snapshots the day's figures grow by the ends of live calls: calls by all of them, inbound and
   outbound by those of that direction, pitched offers by the outbound ones, accepted offers by the
   outbound ones whose newest keypress is 1, and transfers by those whose notes hold one.
   */
  lemma {:induction false} FiguresCountEnds(s: State, events: seq<Event>)
    requires forall e :: e in events ==> !e.Snap?
    ensures var (d, n) := (s.live.today, Fold(s, events).live.today);
      && n.calls == d.calls + Number(s, events, (t: State, e: Event) => Ends(t, e))
      && n.inbound == d.inbound + Number(s, events, (t: State, e: Event) => EndsOne(t, e, Inbound))
      && n.outbound == d.outbound + Number(s, events, (t: State, e: Event) => EndsOne(t, e, Outbound))
      && n.offersPitched == d.offersPitched + Number(s, events, (t: State, e: Event) => EndsOne(t, e, Outbound))
      && n.offersAccepted == d.offersAccepted + Number(s, events, (t: State, e: Event) => Accepts(t, e))
      && n.transferred == d.transferred + Number(s, events, (t: State, e: Event) => EndsTransferred(t, e))
    decreases |events|
  {
    if events != [] {
      assert events[0] in events;
      if Ends(s, events[0]) {
        EndMoves(s, events[0]);
      } else {
        OthersStay(s, events[0]);
        NoEndCounts(s, events[0]);
      }
      FiguresCountEnds(Apply(s, events[0]), events[1..]);
    }
  }

  lemma NoEndCounts(s: State, e: Event)
    requires !Ends(s, e)
    ensures !EndsOne(s, e, Inbound) && !EndsOne(s, e, Outbound) && !Accepts(s, e) && !EndsTransferred(s, e)
  {
  }

  /** Once a call has ended, the percentage is the rounded share of the calls that were not transferred. */
  lemma {:induction false} ShareIsRounded(s: State, events: seq<Event>)
    requires forall e :: e in events ==> !e.Snap?
    ensures var (d, n) := (s.live.today, Fold(s, events).live.today);
      if Number(s, events, (t: State, e: Event) => Ends(t, e)) == 0 then n == d
      else n.handledByAgentPct.Some? && IsPercent(n.handledByAgentPct.value, n.calls - n.transferred, n.calls)
    decreases |events|
  {
    if events != [] {
      assert events[0] in events;
      if Ends(s, events[0]) {
        EndMoves(s, events[0]);
      } else {
        OthersStay(s, events[0]);
      }
      ShareIsRounded(Apply(s, events[0]), events[1..]);
    }
  }

  // ----- the lists

  /** An ended call is listed first among the finished ones with what the call and the end say; 24 others stay. */
  lemma EndIsListed(s: State, e: Event, k: nat)
    requires e.Ended? && Stands(s.live.calls, e.callId, k)
    ensures var (call, recent) := (s.live.calls[k], Apply(s, e).live.recent);
      && recent != []
      && recent[0].id == call.id && recent[0].startedAt == call.startedAt && recent[0].direction == call.direction
      && recent[0].farmerName == call.identity.farmerName && recent[0].callerLast4 == call.identity.callerLast4
      && recent[0].centreCode == call.identity.centreCode && recent[0].outcome == e.outcome
      && recent[0].durationSeconds == e.durationSeconds && recent[0].firstReplyMs == e.firstReplyMs
      && (forall digit :: recent[0].dtmf == Some(digit) <==> Pressed(TranscriptOf(s, e.callId).notes, digit))
      && |recent| <= 25
      && var others := OtherRecent(s.live.recent, e.callId);
         recent[1..] == if |others| <= 24 then others else others[..24]
  {
    assert IsLive(s.live.calls, e.callId);
    var first := FoundStandsFirst(s.live.calls, e.callId);
    FirstIsOne(s.live.calls, e.callId, first);
    forall digit
      ensures LastDigit(TranscriptOf(s, e.callId).notes) == Some(digit)
         <==> Pressed(TranscriptOf(s, e.callId).notes, digit)
    {
      PressedIsLast(TranscriptOf(s, e.callId).notes, digit);
    }
  }

  /** And its transcript says so, with the end as its last note. */
  lemma EndIsNoted(s: State, e: Event)
    requires e.Ended?
    ensures var (t, n) := (TranscriptOf(s, e.callId), TranscriptOf(Apply(s, e), e.callId));
      n.ended && n.turns == t.turns && n.notes == t.notes + [EndedNote(e.durationSeconds, e.outcome)]
  {
  }

  /** What an identification, an activity, a keypress and a transfer change: only the live call they name. */
  lemma CallAfter(s: State, e: Event, k: nat)
    requires k < |s.live.calls| && (e.Identified? || e.ActivityChanged? || e.Dtmf? || e.Transfer?)
    ensures |Apply(s, e).live.calls| == |s.live.calls|
    ensures var (c, n) := (s.live.calls[k], Apply(s, e).live.calls[k]);
      && (c.id != e.callId ==> n == c)
      && (c.id == e.callId && e.Identified? ==> n == c.(identity := e.identity))
      && (c.id == e.callId && e.ActivityChanged? ==> n == c.(activity := e.activity))
      && (c.id == e.callId && e.Transfer? ==> n == c.(activity := Transferring))
      && (c.id == e.callId && e.Dtmf? ==> n == c)
  {
  }

  /** And a turn: the count of turns, and the reply time if the agent spoke and it is known. */
  lemma CallAfterTurn(s: State, callId: string, turn: Turn, k: nat)
    requires k < |s.live.calls|
    ensures var n := Apply(s, Said(callId, turn));
      && |n.live.calls| == |s.live.calls|
      && n.live.calls[k] ==
           var c := s.live.calls[k];
           if c.id != callId then c
           else c.(turnCount := |TranscriptOf(n, callId).turns|,
                   lastReplyMs := if turn.byAgent && turn.latency.Some? then turn.latency.value else c.lastReplyMs)
  {
    var turns := SortTurns(Without(TranscriptOf(s, callId).turns, turn.turnIndex) + [turn]);
    assert TranscriptOf(Apply(s, Said(callId, turn)), callId).turns == turns;
  }

  /** A start adds its call at the end, if it is not live yet, and a snapshot stands for itself. */
  lemma CallsAfter(s: State, e: Event)
    ensures e.Started? && (exists c :: c in s.live.calls && c.id == e.call.id) ==> Apply(s, e) == s
    ensures e.Started? && (forall c :: c in s.live.calls ==> c.id != e.call.id) ==>
      Apply(s, e) == s.(live := s.live.(calls := s.live.calls + [e.call]))
    ensures e.Snap? ==> Apply(s, e).live == e.snapshot
    ensures e.Snap? ==> forall id :: id in Apply(s, e).transcripts <==>
      id in s.transcripts && exists c :: c in e.snapshot.calls && c.id == id
    ensures e.Snap? ==> forall id :: id in Apply(s, e).transcripts ==> Apply(s, e).transcripts[id] == s.transcripts[id]
  {
  }

  /** A keypress and a transfer are noted last on their call. */
  lemma NotesAfter(s: State, e: Event)
    requires e.Dtmf? || e.Transfer?
    ensures TranscriptOf(Apply(s, e), e.callId).notes == TranscriptOf(s, e.callId).notes
         + [if e.Dtmf? then DtmfNote(Some(e.at), e.digit) else TransferNote(e.to, e.reason)]
  {
  }
}
