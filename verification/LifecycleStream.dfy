/** The in-memory event stream: pushes on one side, consumers that take turns at an async loop on the other. */
module LifecycleStreams {
  import opened Options
  import opened Sequences

  datatype LifecycleEvent = LifecycleEvent(kind: string, sessionId: string, runId: string, at: string)

  /** Where a consumer's generator is: not asked yet, at a yield, on a promise, or about to go on after its
    * promise resolved. */
  datatype Stage = Unstarted | Yielded | Parked | Woken

  /** A subscriber, whether it has a resolver to call, and what its consumer has received. */
  datatype Consumer = Consumer(
    sessionId: Option<string>,
    queue: seq<LifecycleEvent>,
    resolve: bool,
    stage: Stage,
    delivered: seq<LifecycleEvent>)

  predicate Matches(sessionId: Option<string>, e: LifecycleEvent) {
    sessionId.None? || sessionId.value == e.sessionId
  }

  function PushTo(c: Consumer, e: LifecycleEvent): Consumer {
    if c.stage == Unstarted || !Matches(c.sessionId, e) then c
    else
      c.(queue := c.queue + [e], resolve := false, stage := if c.resolve then Woken else c.stage)
  }

  /** The loop up to its next yield or await. */
  function RunLoop(c: Consumer): Consumer {
    if c.queue != [] then c.(queue := c.queue[1..], delivered := c.delivered + [c.queue[0]], stage := Yielded)
    else c.(resolve := true, stage := Parked)
  }

  function Connecting(sessionId: Option<string>, at: string): LifecycleEvent {
    LifecycleEvent("connecting", if sessionId.Some? then sessionId.value else "", "", at)
  }

  /** A consumer after its first request, which subscribes it. */
  function Connected(sessionId: Option<string>, at: string): Consumer {
    RunLoop(Consumer(sessionId, [Connecting(sessionId, at)], false, Yielded, []))
  }

  /** What `subscribe` returns: a generator that has not run, and that no push reaches. */
  function Subscribed(sessionId: Option<string>): Consumer {
    Consumer(sessionId, [], false, Unstarted, [])
  }

  /** A push, the consumer asking for its next event at this time, or the continuation of a resolved promise. */
  datatype Step = Push(event: LifecycleEvent) | Ask(at: string) | Continue

  predicate Enabled(c: Consumer, e: Step) {
    match e
    case Push(_) => true
    case Ask(_) => c.stage == Yielded || c.stage == Unstarted
    case Continue => c.stage == Woken
  }

  function Apply(c: Consumer, e: Step): Consumer
    requires Enabled(c, e)
  {
    match e
    case Push(event) => PushTo(c, event)
    case Ask(at) => if c.stage == Unstarted then Connected(c.sessionId, at) else RunLoop(c)
    case Continue => RunLoop(c)
  }

  predicate IsRun(c: Consumer, steps: seq<Step>)
    decreases |steps|
  {
    steps == [] || (Enabled(c, steps[0]) && IsRun(Apply(c, steps[0]), steps[1..]))
  }

  function After(c: Consumer, steps: seq<Step>): Consumer
    requires IsRun(c, steps)
    decreases |steps|
  {
    if steps == [] then c else After(Apply(c, steps[0]), steps[1..])
  }

  /** The pushed events of the session, or all if no session was asked for, in order. */
  function Expected(sessionId: Option<string>, steps: seq<Step>): seq<LifecycleEvent> {
    if steps == [] then []
    else if steps[0].Push? && (sessionId == None || sessionId == Some(steps[0].event.sessionId)) then
      [steps[0].event] + Expected(sessionId, steps[1..])
    else Expected(sessionId, steps[1..])
  }

  /** A parked consumer has a resolver and nothing queued; a woken one has something to deliver. */
  predicate Sound(c: Consumer) {
    && (c.resolve <==> c.stage == Parked)
    && (c.stage == Parked ==> c.queue == [])
    && (c.stage == Woken ==> c.queue != [])
  }

  function Received(c: Consumer): seq<LifecycleEvent> {
    c.delivered + c.queue
  }

  lemma StepReceives(c: Consumer, e: Step)
    requires Sound(c) && c.stage != Unstarted && Enabled(c, e)
    ensures Sound(Apply(c, e)) && Apply(c, e).stage != Unstarted && Apply(c, e).sessionId == c.sessionId
    ensures Received(Apply(c, e)) == Received(c) + Expected(c.sessionId, [e])
  {
    assert [e][1..] == [];
    assert Expected(c.sessionId, [e]) == if e.Push? && Matches(c.sessionId, e.event) then [e.event] else [];
    match e
    case Push(event) =>
    case Ask(_) => assert c.queue != [] ==> c.queue == [c.queue[0]] + c.queue[1..];
    case Continue => assert c.queue == [c.queue[0]] + c.queue[1..];
  }

  lemma {:induction false} RunReceives(c: Consumer, steps: seq<Step>)
    requires Sound(c) && c.stage != Unstarted && IsRun(c, steps)
    ensures Sound(After(c, steps)) && After(c, steps).stage != Unstarted
    ensures Received(After(c, steps)) == Received(c) + Expected(c.sessionId, steps)
    decreases |steps|
  {
    if steps == [] {
      assert Received(c) + [] == Received(c);
    } else {
      StepReceives(c, steps[0]);
      RunReceives(Apply(c, steps[0]), steps[1..]);
      ExpectedCons(c.sessionId, steps);
      Regroup(Received(c), Expected(c.sessionId, [steps[0]]), Expected(c.sessionId, steps[1..]));
    }
  }

  lemma ExpectedCons(sessionId: Option<string>, steps: seq<Step>)
    requires steps != []
    ensures Expected(sessionId, steps) == Expected(sessionId, [steps[0]]) + Expected(sessionId, steps[1..])
  {
    assert [steps[0]][1..] == [];
  }

  /** Under every interleaving since it connected, a consumer has received or has queued the connecting event
    * and then exactly the matching events pushed since, in order; and when it waits, it has received all. */
  lemma NothingIsLost(sessionId: Option<string>, at: string, steps: seq<Step>)
    requires IsRun(Connected(sessionId, at), steps)
    ensures var c := After(Connected(sessionId, at), steps); var expected := [Connecting(sessionId, at)] + Expected(sessionId, steps);
      && Received(c) == expected
      && (c.stage == Parked ==> c.delivered == expected && c.resolve)
      && (c.stage == Woken ==> Enabled(c, Continue) && |Apply(c, Continue).delivered| == |c.delivered| + 1)
  {
    var c := Connected(sessionId, at);
    assert c.delivered == [Connecting(sessionId, at)] && c.queue == [];
    RunReceives(c, steps);
    assert Received(c) == [Connecting(sessionId, at)];
  }

  // ---- From the subscription on -----------------------------------------------------------------------

  /** The steps before the first request. */
  function BeforeAsk(steps: seq<Step>): seq<Step> {
    if steps == [] || steps[0].Ask? then [] else [steps[0]] + BeforeAsk(steps[1..])
  }

  /** Until it asks, a consumer stays as it was subscribed, and only pushes happen. */
  lemma {:induction false} UnstartedMisses(sessionId: Option<string>, steps: seq<Step>)
    requires IsRun(Subscribed(sessionId), steps)
    ensures var n := |BeforeAsk(steps)|;
      && n <= |steps| && BeforeAsk(steps) == steps[..n]
      && (n < |steps| ==>
            && steps[n].Ask? && IsRun(Connected(sessionId, steps[n].at), steps[n + 1..])
            && After(Subscribed(sessionId), steps) == After(Connected(sessionId, steps[n].at), steps[n + 1..]))
      && (n == |steps| ==> After(Subscribed(sessionId), steps) == Subscribed(sessionId))
    decreases |steps|
  {
    if steps != [] && !steps[0].Ask? {
      UnstartedMisses(sessionId, steps[1..]);
      var m := |BeforeAsk(steps[1..])|;
      assert steps[..m + 1] == [steps[0]] + steps[1..][..m];
      assert m < |steps[1..]| ==> steps[1..][m] == steps[m + 1] && steps[1..][m + 1..] == steps[m + 2..];
    }
  }

  lemma {:induction false} ExpectedAppends(sessionId: Option<string>, a: seq<Step>, b: seq<Step>)
    ensures Expected(sessionId, a + b) == Expected(sessionId, a) + Expected(sessionId, b)
  {
    if a == [] {
      assert a + b == b;
    } else {
      assert (a + b)[1..] == a[1..] + b;
      ExpectedAppends(sessionId, a[1..], b);
      ExpectedCons(sessionId, a);
      Regroup(Expected(sessionId, [a[0]]), Expected(sessionId, a[1..]), Expected(sessionId, b));
      ExpectedCons(sessionId, a + b);
    }
  }

  lemma ExpectedAround(sessionId: Option<string>, steps: seq<Step>, n: nat)
    requires n < |steps| && steps[n].Ask?
    ensures Expected(sessionId, steps[n..]) == Expected(sessionId, steps[n + 1..])
    ensures Expected(sessionId, steps) == Expected(sessionId, steps[..n]) + Expected(sessionId, steps[n + 1..])
  {
    assert steps[n..][1..] == steps[n + 1..];
    ExpectedCons(sessionId, steps[n..]);
    assert steps == steps[..n] + steps[n..];
    ExpectedAppends(sessionId, steps[..n], steps[n..]);
  }

  /** A consumer that has asked receives the connecting event and all matching events pushed since `subscribe`
    * was called if and only if none was pushed before it asked. */
  lemma EarlyEventsAreLostExactly(sessionId: Option<string>, steps: seq<Step>)
    requires IsRun(Subscribed(sessionId), steps) && |BeforeAsk(steps)| < |steps|
    ensures var n := |BeforeAsk(steps)|; var c := After(Subscribed(sessionId), steps);
      && steps[n].Ask?
      && Received(c) == [Connecting(sessionId, steps[n].at)] + Expected(sessionId, steps[n..])
      && (Received(c) == [Connecting(sessionId, steps[n].at)] + Expected(sessionId, steps)
          <==> Expected(sessionId, BeforeAsk(steps)) == [])
  {
    var n := |BeforeAsk(steps)|;
    UnstartedMisses(sessionId, steps);
    var later := steps[n + 1..];
    NothingIsLost(sessionId, steps[n].at, later);
    ExpectedAround(sessionId, steps, n);
    SameTail([Connecting(sessionId, steps[n].at)], Expected(sessionId, steps[..n]), Expected(sessionId, later));
  }

  lemma SameTail<T>(a: seq<T>, b: seq<T>, c: seq<T>)
    ensures a + c == a + (b + c) <==> b == []
  {
    if b == [] {
      assert b + c == c;
    } else {
      assert |a + (b + c)| > |a + c|;
    }
  }

  /** One event pushed between `subscribe` and the first request is such an event. */
  lemma EarlyEventIsLost(e: LifecycleEvent, at: string)
    ensures var steps := [Push(e), Ask(at)];
      && IsRun(Subscribed(None), steps)
      && Received(After(Subscribed(None), steps)) == [Connecting(None, at)]
      && Expected(None, steps) == [e]
  {
    var steps := [Push(e), Ask(at)];
    assert steps[1..] == [Ask(at)] && [Ask(at)][1..] == [];
    assert Apply(Subscribed(None), steps[0]) == Subscribed(None);
    assert IsRun(Connected(None, at), []) && After(Connected(None, at), []) == Connected(None, at);
    assert After(Subscribed(None), [Ask(at)]) == Connected(None, at);
    assert Expected(None, [Ask(at)]) == [];
    assert Connected(None, at).delivered == [Connecting(None, at)];
  }

  function Turns(n: nat): seq<Step> {
    if n == 0 then [] else [Ask("")] + Turns(n - 1)
  }

  /** A consumer at a yield that keeps asking receives all that is queued. */
  lemma {:induction false} AskingDrains(c: Consumer)
    requires c.stage == Yielded
    ensures IsRun(c, Turns(|c.queue|))
    ensures After(c, Turns(|c.queue|)).delivered == Received(c) && After(c, Turns(|c.queue|)).queue == []
    decreases |c.queue|
  {
    if c.queue == [] {
      assert Received(c) == c.delivered;
    } else {
      var c1 := RunLoop(c);
      AskingDrains(c1);
      assert Turns(|c.queue|)[0] == Ask("") && Turns(|c.queue|)[1..] == Turns(|c1.queue|);
      assert Received(c1) == c.delivered + ([c.queue[0]] + c.queue[1..]);
      assert [c.queue[0]] + c.queue[1..] == c.queue;
    }
  }

  // ---- The stream object --------------------------------------------------------------------------------

  class Subscriber {
    const sessionId: Option<string>
    var queue: seq<LifecycleEvent>
    var resolve: bool
    var stage: Stage
    ghost var delivered: seq<LifecycleEvent>

    constructor (sessionId: Option<string>)
      ensures View() == Subscribed(sessionId)
    {
      this.sessionId, queue, resolve, stage, delivered := sessionId, [], false, Unstarted, [];
    }

    ghost function View(): Consumer
      reads this
    {
      Consumer(sessionId, queue, resolve, stage, delivered)
    }

    method Deliver(event: LifecycleEvent)
      requires stage != Unstarted
      modifies this
      ensures View() == PushTo(old(View()), event)
    {
      if sessionId.Some? && sessionId.value != event.sessionId {
        return;
      }
      queue := queue + [event];
      if resolve {
        stage := Woken;
        resolve := false;
      }
    }

    /** The generator begins: it queues the connecting event, and takes the first turn of its loop. */
    method Begin(at: string) returns (first: Option<LifecycleEvent>)
      requires View() == Subscribed(sessionId)
      modifies this
      ensures View() == Connected(sessionId, at) && first == Some(Connecting(sessionId, at))
    {
      stage := Yielded;
      queue := [Connecting(sessionId, at)];
      first := Turn();
    }

    /** One turn of the consumer's loop; None when it parks. */
    method Turn() returns (next: Option<LifecycleEvent>)
      requires stage != Unstarted
      modifies this
      ensures View() == RunLoop(old(View()))
      ensures next == if old(queue) != [] then Some(old(queue)[0]) else None
    {
      if |queue| > 0 {
        next := Some(queue[0]);
        delivered := delivered + [queue[0]];
        queue := queue[1..];
        stage := Yielded;
      } else {
        next := None;
        resolve := true;
        stage := Parked;
      }
    }
  }

  class InMemoryLifecycleStream {
    var subscribers: seq<Subscriber>   // a set in the source; in the order of subscription

    /** The consumers on the list are those that have begun. */
    ghost predicate Valid()
      reads this, subscribers
    {
      && (forall i, j :: 0 <= i < j < |subscribers| ==> subscribers[i] != subscribers[j])
      && forall i :: 0 <= i < |subscribers| ==> subscribers[i].stage != Unstarted
    }

    constructor ()
      ensures Valid() && subscribers == []
    {
      subscribers := [];
    }

    /** Every subscriber takes one push step; subscribers without a match stay as they are. */
    method Push(event: LifecycleEvent)
      requires Valid()
      modifies subscribers
      ensures Valid()
      ensures forall i :: 0 <= i < |subscribers| ==> subscribers[i].View() == PushTo(old(subscribers[i].View()), event)
    {
      for k := 0 to |subscribers|
        invariant forall i :: 0 <= i < k ==> subscribers[i].View() == PushTo(old(subscribers[i].View()), event)
        invariant forall i :: k <= i < |subscribers| ==> subscribers[i].View() == old(subscribers[i].View())
      {
        assert subscribers[k].View().stage == old(subscribers[k].View()).stage;
        subscribers[k].Deliver(event);
      }
    }

    /** A consumer that has not asked yet, and is not on the list. */
    method Subscribe(sessionId: Option<string>) returns (sub: Subscriber)
      ensures fresh(sub) && sub.sessionId == sessionId && sub.View() == Subscribed(sessionId)
    {
      sub := new Subscriber(sessionId);
    }

    /** The first request of a consumer: it joins the list and receives the connecting event. */
    method FirstRequest(sub: Subscriber, at: string) returns (first: Option<LifecycleEvent>)
      requires Valid() && sub.View() == Subscribed(sub.sessionId)
      modifies this, sub
      ensures Valid() && subscribers == old(subscribers) + [sub]
      ensures sub.View() == Apply(old(sub.View()), Ask(at)) && first == Some(Connecting(sub.sessionId, at))
      ensures first == Some(LifecycleEvent("connecting", if sub.sessionId == None then "" else sub.sessionId.value, "", at))
    {
      subscribers := subscribers + [sub];
      first := sub.Begin(at);
    }

    /** The consumer leaves at a yield: the finally block takes its subscriber off the list. */
    method Close(sub: Subscriber)
      requires Valid()
      modifies this
      ensures Valid() && sub !in subscribers
      ensures forall s :: s in old(subscribers) && s != sub ==> s in subscribers
      ensures forall s :: s in subscribers ==> s in old(subscribers)
    {
      var k := 0;
      while k < |subscribers| && subscribers[k] != sub
        invariant k <= |subscribers|
        invariant forall i :: 0 <= i < k ==> subscribers[i] != sub
      {
        k := k + 1;
      }
      if k < |subscribers| {
        assert subscribers == subscribers[..k] + [sub] + subscribers[k + 1..];
        subscribers := subscribers[..k] + subscribers[k + 1..];
      }
    }
  }
}
