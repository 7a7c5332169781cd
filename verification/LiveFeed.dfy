/**
 The bounded live feed, `RedisLiveFeed` of packages/domain/src/uaagro_domain/livefeed.py: publishing
 onto a bounded queue, one drain task, and closing. The methods below are the pieces that run without
 interruption; between them any other may run.

 `publish` on a full queue drops the new event, although the comment at line 64 says the oldest.
 */
module LiveFeed {
  type Event = nat

  /** A queued event, or the marker that tells the drain to stop. */
  datatype Item = Message(event: Event) | StopMark

  datatype Drain = NoTask | Waiting | Sending(event: Event) | Returned

  /** What became of an accepted event the drain took; the last when the drain was cancelled holding it. */
  datatype Fate = Sent(event: Event) | Failed(event: Event) | Cut(event: Event)

  /** The feed as a value: `accepted` and `fates` are history, in order. */
  datatype Feed = Feed(
    bound: int, queue: seq<Item>, drain: Drain, dropped: nat, published: nat,
    calls: nat, accepted: seq<Event>, fates: seq<Fate>)

  function Empty(bound: int): Feed {
    Feed(bound, [], NoTask, 0, 0, 0, [], [])
  }

  /** A bound of zero or less means no bound. */
  predicate Full(f: Feed) {
    f.bound > 0 && |f.queue| >= f.bound
  }

  function Published(f: Feed, e: Event): Feed {
    if Full(f) then f.(dropped := f.dropped + 1, calls := f.calls + 1)
    else
      f.(queue := f.queue + [Message(e)], calls := f.calls + 1, accepted := f.accepted + [e],
         drain := if f.drain.NoTask? then Waiting else f.drain)
  }

  function Taken(f: Feed): Feed
    requires f.drain.Waiting? && f.queue != []
  {
    match f.queue[0]
    case StopMark => f.(queue := f.queue[1..], drain := Returned)
    case Message(e) => f.(queue := f.queue[1..], drain := Sending(e))
  }

  function Delivered(f: Feed, ok: bool): Feed
    requires f.drain.Sending?
  {
    var e := f.drain.event;
    if ok then f.(drain := Waiting, published := f.published + 1, fates := f.fates + [Sent(e)])
    else f.(drain := Waiting, dropped := f.dropped + 1, fates := f.fates + [Failed(e)])
  }

  /** The first half of closing: the stop mark, if there is a task and room for it. */
  function Marked(f: Feed): Feed {
    if f.drain.NoTask? || Full(f) then f else f.(queue := f.queue + [StopMark])
  }

  /** The second half: the task has returned, or the wait ran out and the task was cancelled. */
  function Closed(f: Feed): Feed {
    f.(drain := NoTask, fates := if f.drain.Sending? then f.fates + [Cut(f.drain.event)] else f.fates)
  }

  class RedisLiveFeed {
    const bound: int
    var queue: seq<Item>
    var drain: Drain
    var dropped: nat
    var published: nat
    ghost var calls: nat
    ghost var accepted: seq<Event>
    ghost var fates: seq<Fate>

    ghost function Value(): Feed
      reads this
    {
      Feed(bound, queue, drain, dropped, published, calls, accepted, fates)
    }

    /** Nothing is lost or counted twice, and the queue keeps its bound. */
    ghost predicate Valid()
      reads this
    {
      Conserved(Value())
    }

    constructor (queueSize: int)
      ensures Valid() && Value() == Empty(queueSize)
    {
      bound, queue, drain, dropped, published := queueSize, [], NoTask, 0, 0;
      calls, accepted, fates := 0, [], [];
    }

    method Publish(event: Event)
      requires Valid()
      modifies this
      ensures Valid()
      ensures Value() == Published(old(Value()), event)
      ensures bound > 0 && |old(queue)| >= bound ==>
        queue == old(queue) && accepted == old(accepted) && dropped == old(dropped) + 1 && drain == old(drain)
      ensures !(bound > 0 && |old(queue)| >= bound) ==>
        && queue == old(queue) + [Message(event)] && accepted == old(accepted) + [event] && dropped == old(dropped)
        && drain == if old(drain).NoTask? then Waiting else old(drain)
    {
      PublishConserves(Value(), event);
      calls := calls + 1;
      if bound > 0 && |queue| >= bound {
        dropped := dropped + 1;
        return;
      }
      queue := queue + [Message(event)];
      accepted := accepted + [event];
      if drain.NoTask? {
        drain := Waiting;
      }
    }

    /** The drain wakes with something in the queue. */
    method Take()
      requires Valid() && drain.Waiting? && queue != []
      modifies this
      ensures Valid()
      ensures Value() == Taken(old(Value()))
    {
      TakeConserves(Value());
      var item := queue[0];
      queue := queue[1..];
      match item
      case StopMark => drain := Returned;
      case Message(event) => drain := Sending(event);
    }

    /** The transport answers for the event in hand. */
    method Deliver(ok: bool)
      requires Valid() && drain.Sending?
      modifies this
      ensures Valid()
      ensures Value() == Delivered(old(Value()), ok)
      ensures ok ==> published == old(published) + 1 && dropped == old(dropped)
      ensures !ok ==> dropped == old(dropped) + 1 && published == old(published)
    {
      DeliverConserves(Value(), ok);
      if ok {
        published := published + 1;
        fates := fates + [Sent(drain.event)];
      } else {
        dropped := dropped + 1;
        fates := fates + [Failed(drain.event)];
      }
      drain := Waiting;
    }

    method BeginClose()
      requires Valid()
      modifies this
      ensures Valid()
      ensures Value() == Marked(old(Value()))
      ensures queue == old(queue) <==> drain.NoTask? || (bound > 0 && |old(queue)| >= bound)
      ensures queue == old(queue) || queue == old(queue) + [StopMark]
    {
      MarkConserves(Value());
      if !drain.NoTask? {
        if !(bound > 0 && |queue| >= bound) {
          queue := queue + [StopMark];
        }
      }
    }

    method EndClose()
      requires Valid()
      modifies this
      ensures Valid()
      ensures Value() == Closed(old(Value()))
    {
      CloseConserves(Value());
      if drain.Sending? {
        fates := fates + [Cut(drain.event)];
      }
      drain := NoTask;
    }
  }

  // ----- runs

  datatype Step = Publish(event: Event) | Take | Deliver(ok: bool) | BeginClose | EndClose

  predicate CanTake(f: Feed, step: Step) {
    match step
    case Publish(_) => true
    case Take => f.drain.Waiting? && f.queue != []
    case Deliver(_) => f.drain.Sending?
    case BeginClose => true
    case EndClose => true
  }

  function Next(f: Feed, step: Step): Feed
    requires CanTake(f, step)
  {
    match step
    case Publish(e) => Published(f, e)
    case Take => Taken(f)
    case Deliver(ok) => Delivered(f, ok)
    case BeginClose => Marked(f)
    case EndClose => Closed(f)
  }

  ghost predicate ValidRun(f: Feed, steps: seq<Step>)
    decreases |steps|
  {
    steps == [] || (CanTake(f, steps[0]) && ValidRun(Next(f, steps[0]), steps[1..]))
  }

  ghost function After(f: Feed, steps: seq<Step>): Feed
    requires ValidRun(f, steps)
    decreases |steps|
  {
    if steps == [] then f else After(Next(f, steps[0]), steps[1..])
  }

  // ----- what every run keeps

  function Waits(queue: seq<Item>): seq<Event> {
    if queue == [] then []
    else Brought(queue[0]) + Waits(queue[1..])
  }

  function InHand(f: Feed): seq<Event> {
    if f.drain.Sending? then [f.drain.event] else []
  }

  function Handled(fates: seq<Fate>): seq<Event> {
    if fates == [] then [] else Handled(fates[..|fates| - 1]) + [fates[|fates| - 1].event]
  }

  /** What reached the channel. */
  function Channel(fates: seq<Fate>): seq<Event> {
    if fates == [] then []
    else
      var last := fates[|fates| - 1];
      Channel(fates[..|fates| - 1]) + if last.Sent? then [last.event] else []
  }

  function Cuts(fates: seq<Fate>): nat {
    if fates == [] then 0
    else Cuts(fates[..|fates| - 1]) + if fates[|fates| - 1].Cut? then 1 else 0
  }

  /**
   What was accepted is, in order, what the drain handled, the event in hand, and the queue; and every
   publish call is counted exactly once, as published, dropped, in hand, waiting or cut off.
   */
  ghost predicate Conserved(f: Feed) {
    && f.accepted == Handled(f.fates) + InHand(f) + Waits(f.queue)
    && f.published == |Channel(f.fates)|
    && f.calls == f.published + f.dropped + |InHand(f)| + |Waits(f.queue)| + Cuts(f.fates)
    && (f.bound > 0 ==> |f.queue| <= f.bound)
  }

  /** The event an item brings, if any. */
  function Brought(item: Item): seq<Event> {
    match item
    case Message(e) => [e]
    case StopMark => []
  }

  lemma {:induction false} WaitsSnoc(queue: seq<Item>, item: Item)
    ensures Waits(queue + [item]) == Waits(queue) + Brought(item)
  {
    if queue == [] {
      assert queue + [item] == [item];
      assert [item][1..] == [];
    } else {
      assert (queue + [item])[1..] == queue[1..] + [item];
      WaitsSnoc(queue[1..], item);
      Regroup(Brought(queue[0]), Waits(queue[1..]), Brought(item));
    }
  }

  lemma PublishConserves(f: Feed, e: Event)
    requires Conserved(f)
    ensures Conserved(Published(f, e))
  {
    WaitsSnoc(f.queue, Message(e));
    Regroup(Handled(f.fates) + InHand(f), Waits(f.queue), [e]);
  }

  lemma TakeConserves(f: Feed)
    requires Conserved(f) && f.drain.Waiting? && f.queue != []
    ensures Conserved(Taken(f))
  {
  }

  /** The event in hand becomes the last one handled. */
  lemma FateConserves(f: Feed, fate: Fate, g: Feed)
    requires Conserved(f) && f.drain.Sending? && fate.event == f.drain.event
    requires !g.drain.Sending? && g.accepted == f.accepted && g.queue == f.queue && g.bound == f.bound
    requires g.fates == f.fates + [fate] && g.calls == f.calls
    requires g.published == f.published + if fate.Sent? then 1 else 0
    requires g.dropped == f.dropped + if fate.Failed? then 1 else 0
    ensures Conserved(g)
  {
  }

  lemma DeliverConserves(f: Feed, ok: bool)
    requires Conserved(f) && f.drain.Sending?
    ensures Conserved(Delivered(f, ok))
  {
    FateConserves(f, if ok then Sent(f.drain.event) else Failed(f.drain.event), Delivered(f, ok));
  }

  lemma MarkConserves(f: Feed)
    requires Conserved(f)
    ensures Conserved(Marked(f))
  {
    WaitsSnoc(f.queue, StopMark);
  }

  lemma CloseConserves(f: Feed)
    requires Conserved(f)
    ensures Conserved(Closed(f))
  {
    if f.drain.Sending? {
      FateConserves(f, Cut(f.drain.event), Closed(f));
    }
  }

  lemma Regroup(a: seq<Event>, b: seq<Event>, c: seq<Event>)
    ensures a + b + c == a + (b + c)
    ensures a + [] + c == a + c
  {
  }

  /** Whatever is published, taken, delivered or closed, in any order, nothing is lost or counted twice. */
  lemma {:induction false} RunsConserve(f: Feed, steps: seq<Step>)
    requires Conserved(f) && ValidRun(f, steps)
    ensures Conserved(After(f, steps))
    decreases |steps|
  {
    if steps != [] {
      match steps[0] {
        case Publish(e) => PublishConserves(f, e);
        case Take => TakeConserves(f);
        case Deliver(ok) => DeliverConserves(f, ok);
        case BeginClose => MarkConserves(f);
        case EndClose => CloseConserves(f);
      }
      RunsConserve(Next(f, steps[0]), steps[1..]);
    }
  }

  /** `a` is what is left of `b` after some of its members are taken out, in order. */
  ghost predicate Subsequence(a: seq<Event>, b: seq<Event>)
    decreases |b|
  {
    a == [] || (b != [] &&
      ((a[|a| - 1] == b[|b| - 1] && Subsequence(a[..|a| - 1], b[..|b| - 1])) || Subsequence(a, b[..|b| - 1])))
  }

  lemma {:induction false} ChannelWithinHandled(fates: seq<Fate>)
    ensures Subsequence(Channel(fates), Handled(fates))
  {
    if fates != [] {
      var n := |fates| - 1;
      ChannelWithinHandled(fates[..n]);
      assert Handled(fates)[..|Handled(fates)| - 1] == Handled(fates[..n]);
      if fates[n].Sent? {
        assert Channel(fates)[..|Channel(fates)| - 1] == Channel(fates[..n]);
      } else {
        assert Channel(fates) == Channel(fates[..n]);
      }
    }
  }

  lemma {:induction false} MoreToTakeFrom(a: seq<Event>, b: seq<Event>, c: seq<Event>)
    requires Subsequence(a, b)
    ensures Subsequence(a, b + c)
    decreases |c|
  {
    if c == [] {
      assert b + c == b;
    } else {
      MoreToTakeFrom(a, b, c[..|c| - 1]);
      assert (b + c)[..|b + c| - 1] == b + c[..|c| - 1];
    }
  }

  /** What reaches the channel is an in-order part of what was accepted. */
  lemma ChannelIsInOrder(bound: int, steps: seq<Step>)
    requires ValidRun(Empty(bound), steps)
    ensures var f := After(Empty(bound), steps);
      && Conserved(f) && Subsequence(Channel(f.fates), f.accepted)
  {
    RunsConserve(Empty(bound), steps);
    var f := After(Empty(bound), steps);
    ChannelWithinHandled(f.fates);
    MoreToTakeFrom(Channel(f.fates), Handled(f.fates), InHand(f) + Waits(f.queue));
    Regroup(Handled(f.fates), InHand(f), Waits(f.queue));
  }

  // ----- closing

  predicate HasMark(queue: seq<Item>) {
    queue != [] && (queue[0].StopMark? || HasMark(queue[1..]))
  }

  /** The waiting events before the first stop mark, and those behind it. */
  function Ahead(queue: seq<Item>): seq<Event> {
    if queue == [] || queue[0].StopMark? then [] else [queue[0].event] + Ahead(queue[1..])
  }

  function Behind(queue: seq<Item>): seq<Event> {
    if queue == [] then []
    else if queue[0].StopMark? then Waits(queue[1..])
    else Behind(queue[1..])
  }

  lemma {:induction false} AheadAndBehind(queue: seq<Item>)
    ensures Waits(queue) == Ahead(queue) + Behind(queue)
    ensures !HasMark(queue) ==> Behind(queue) == []
  {
    if queue != [] {
      AheadAndBehind(queue[1..]);
    }
  }

  lemma {:induction false} AppendBehindMark(queue: seq<Item>, item: Item)
    ensures HasMark(queue) ==> HasMark(queue + [item]) && Ahead(queue + [item]) == Ahead(queue)
    ensures !HasMark(queue) && item.StopMark? ==> HasMark(queue + [item]) && Ahead(queue + [item]) == Ahead(queue)
    ensures !HasMark(queue) && item.Message? ==> !HasMark(queue + [item])
  {
    if queue == [] {
      assert queue + [item] == [item];
      assert [item][1..] == [];
    } else {
      assert (queue + [item])[1..] == queue[1..] + [item];
      AppendBehindMark(queue[1..], item);
    }
  }

  /** The steps that can run while a close waits. */
  predicate WhileClosing(step: Step) {
    step.Publish? || step.Take? || step.Deliver?
  }

  /** What the drain has handled, holds, or will reach before it stops. */
  function Reached(f: Feed): seq<Event> {
    Handled(f.fates) + InHand(f) + if f.drain.Returned? then [] else Ahead(f.queue)
  }

  predicate Stopping(f: Feed) {
    !f.drain.NoTask? && (f.drain.Returned? || HasMark(f.queue))
  }

  lemma TakeKeepsReached(f: Feed)
    requires Stopping(f) && f.drain.Waiting? && f.queue != []
    ensures Stopping(Taken(f)) && Reached(Taken(f)) == Reached(f)
  {
  }

  lemma DeliverKeepsReached(f: Feed, ok: bool)
    requires Stopping(f) && f.drain.Sending?
    ensures Stopping(Delivered(f, ok)) && Reached(Delivered(f, ok)) == Reached(f)
  {
  }

  lemma StepKeepsReached(f: Feed, step: Step)
    requires Stopping(f) && CanTake(f, step) && WhileClosing(step)
    ensures Stopping(Next(f, step)) && Reached(Next(f, step)) == Reached(f)
  {
    match step
    case Publish(e) => AppendBehindMark(f.queue, Message(e));
    case Take => TakeKeepsReached(f);
    case Deliver(ok) => DeliverKeepsReached(f, ok);
  }

  lemma {:induction false} RunKeepsReached(f: Feed, steps: seq<Step>)
    requires Stopping(f) && ValidRun(f, steps) && forall step :: step in steps ==> WhileClosing(step)
    ensures Stopping(After(f, steps)) && Reached(After(f, steps)) == Reached(f)
    decreases |steps|
  {
    if steps != [] {
      assert steps[0] in steps;
      StepKeepsReached(f, steps[0]);
      RunKeepsReached(Next(f, steps[0]), steps[1..]);
    }
  }

  /** Without a stop mark in the queue the drain does not return, however long a close waits. */
  lemma {:induction false} UnmarkedDrainStays(f: Feed, steps: seq<Step>)
    requires !HasMark(f.queue) && !f.drain.Returned? && ValidRun(f, steps)
    requires forall step :: step in steps ==> WhileClosing(step)
    ensures !After(f, steps).drain.Returned?
    decreases |steps|
  {
    if steps != [] {
      assert steps[0] in steps;
      if steps[0].Publish? {
        AppendBehindMark(f.queue, Message(steps[0].event));
      }
      UnmarkedDrainStays(Next(f, steps[0]), steps[1..]);
    }
  }

  /** Nothing accepted waits where the drain will not come before it stops. */
  predicate WillReachAll(f: Feed) {
    if f.drain.Returned? then Waits(f.queue) == [] else Behind(f.queue) == []
  }

  /**
   A close that ends because the task returned has handled every event accepted before it exactly when,
   as it began, no event waited behind an earlier stop mark, and none waited for a drain that had
   already returned. An earlier close that timed out is what leaves such a mark.
   */
  lemma CloseHandlesAll(f: Feed, steps: seq<Step>)
    requires Conserved(f) && !f.drain.NoTask?
    requires ValidRun(Marked(f), steps) && forall step :: step in steps ==> WhileClosing(step)
    requires After(Marked(f), steps).drain.Returned?
    ensures f.accepted <= Handled(After(Marked(f), steps).fates) <==> WillReachAll(f)
  {
    var m := Marked(f);
    AppendBehindMark(f.queue, StopMark);
    AheadAndBehind(f.queue);
    if !HasMark(m.queue) && !m.drain.Returned? {
      UnmarkedDrainStays(m, steps);
    } else {
      RunKeepsReached(m, steps);
      var g := After(m, steps);
      assert Reached(g) == Handled(g.fates);
      var rest := if f.drain.Returned? then Waits(f.queue) else Behind(f.queue);
      ReachedAndRest(f, m, rest);
      assert f.accepted == Handled(g.fates) + rest;
    }
  }

  lemma ReachedAndRest(f: Feed, m: Feed, rest: seq<Event>)
    requires Conserved(f) && m == Marked(f)
    requires f.drain.Returned? || Ahead(m.queue) == Ahead(f.queue)
    requires rest == if f.drain.Returned? then Waits(f.queue) else Behind(f.queue)
    ensures f.accepted == Reached(m) + rest
  {
    AheadAndBehind(f.queue);
    Regroup(Handled(f.fates) + InHand(f), Ahead(f.queue), Behind(f.queue));
  }

  /** Before any close, the queue holds no stop mark and the drain never returns: the first close handles all. */
  lemma {:induction false} FirstCloseReachesAll(f: Feed, steps: seq<Step>)
    requires !HasMark(f.queue) && !f.drain.Returned? && ValidRun(f, steps)
    requires forall step :: step in steps ==> WhileClosing(step)
    ensures WillReachAll(After(f, steps))
    decreases |steps|
  {
    AheadAndBehind(f.queue);
    if steps != [] {
      assert steps[0] in steps;
      if steps[0].Publish? {
        AppendBehindMark(f.queue, Message(steps[0].event));
      }
      FirstCloseReachesAll(Next(f, steps[0]), steps[1..]);
    }
  }

  /**
   A close that timed out with the transport hanging, an event published after it, and a second close:
   the drain returns with the later event still waiting.
   */
  lemma LaterCloseMissesAnEvent() returns (steps: seq<Step>, rest: seq<Step>)
    ensures ValidRun(Empty(0), steps)
    ensures var f := After(Empty(0), steps);
      && !f.drain.NoTask? && !WillReachAll(f) && ValidRun(Marked(f), rest)
      && (forall step :: step in rest ==> WhileClosing(step))
      && After(Marked(f), rest).drain.Returned? && !(f.accepted <= Handled(After(Marked(f), rest).fates))
  {
    steps := ClosedWhileSending();
    var f := After(Empty(0), steps);
    rest := [Step.Take];
    assert rest[1..] == [];
    assert f.queue[1..] == [Message(2)] && f.queue[1..][1..] == [];
    RunsConserve(Empty(0), steps);
    CloseHandlesAll(f, rest);
  }

  lemma ClosedWhileSending() returns (steps: seq<Step>)
    ensures ValidRun(Empty(0), steps)
    ensures After(Empty(0), steps)
         == Feed(0, [StopMark, Message(2)], Waiting, 0, 0, 2, [1, 2], [Cut(1)])
  {
    steps := [Step.Publish(1), Step.Take, BeginClose, EndClose, Step.Publish(2)];
    assert steps[1..] == [Step.Take, BeginClose, EndClose, Step.Publish(2)];
    assert steps[1..][1..] == [BeginClose, EndClose, Step.Publish(2)];
    assert steps[1..][1..][1..] == [EndClose, Step.Publish(2)];
    assert steps[1..][1..][1..][1..] == [Step.Publish(2)] && steps[1..][1..][1..][1..][1..] == [];
  }
}
