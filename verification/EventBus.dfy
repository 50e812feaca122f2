/** The in-process event bus: fail-fast, synchronous delivery in subscription order.

    A handler is identified by a number; what a handler does is the call recorded in `calls`.
    Handlers do not subscribe further handlers while an event is being published. */
module EventBus {
  import opened EventModel

  type Handler = nat
  type Handlers = map<EventType, seq<Handler>>
  type Delivery = (Handler, DomainEvent)

  datatype PublishResult = Published | Cancelled | HandlerFailed(eventType: EventType)

  function HandlersOf(handlers: Handlers, t: EventType): seq<Handler> {
    if t in handlers then handlers[t] else []
  }

  /** Every delivery that is owed: event by event, handlers in subscription order. */
  function Deliveries(handlers: Handlers, events: seq<DomainEvent>): seq<Delivery> {
    if events == [] then []
    else DeliveriesOf(HandlersOf(handlers, events[0].eventType), events[0]) + Deliveries(handlers, events[1..])
  }

  function DeliveriesOf(to: seq<Handler>, e: DomainEvent): seq<Delivery> {
    if to == [] then [] else [(to[0], e)] + DeliveriesOf(to[1..], e)
  }

  /** What can stop a publication: the context check before each event and each handler call. */
  datatype Step = Check(event: DomainEvent) | Call(delivery: Delivery)

  function Script(handlers: Handlers, events: seq<DomainEvent>): seq<Step> {
    if events == [] then []
    else
      [Check(events[0])] + CallsOf(HandlersOf(handlers, events[0].eventType), events[0]) +
      Script(handlers, events[1..])
  }

  function CallsOf(to: seq<Handler>, e: DomainEvent): seq<Step> {
    if to == [] then [] else [Call((to[0], e))] + CallsOf(to[1..], e)
  }

  /** The deliveries a stretch of the script makes. */
  function Called(steps: seq<Step>): seq<Delivery> {
    if steps == [] then [] else Called(steps[..|steps| - 1]) + Delivered(steps[|steps| - 1])
  }

  function Delivered(step: Step): seq<Delivery> {
    if step.Call? then [step.delivery] else []
  }

  lemma {:induction false} CalledJoins(a: seq<Step>, b: seq<Step>)
    ensures Called(a + b) == Called(a) + Called(b)
  {
    if b == [] {
      assert a + b == a;
    } else {
      var front := b[..|b| - 1];
      assert (a + b)[..|a + b| - 1] == a + front;
      CalledJoins(a, front);
    }
  }

  lemma {:induction false} CallsOfDeliver(to: seq<Handler>, e: DomainEvent)
    ensures Called(CallsOf(to, e)) == DeliveriesOf(to, e)
  {
    if to != [] {
      CalledJoins([Call((to[0], e))], CallsOf(to[1..], e));
      CallsOfDeliver(to[1..], e);
    }
  }

  /** Left to run to its end, the script makes exactly the deliveries that are owed. */
  lemma {:induction false} ScriptDelivers(handlers: Handlers, events: seq<DomainEvent>)
    ensures Called(Script(handlers, events)) == Deliveries(handlers, events)
  {
    if events != [] {
      var e, rest := events[0], Script(handlers, events[1..]);
      var calls := CallsOf(HandlersOf(handlers, e.eventType), e);
      ScriptDelivers(handlers, events[1..]);
      CallsOfDeliver(HandlersOf(handlers, e.eventType), e);
      CalledJoins([Check(e)] + calls, rest);
      CalledJoins([Check(e)], calls);
      assert Called([Check(e)]) == [];
      assert [] + Called(calls) == Called(calls);
    }
  }

  ghost predicate GoodUntil(good: nat -> bool, k: nat) {
    forall i: nat | i < k :: good(i)
  }

  /** The steps `done` all went well and delivered `made`; `rest` is still to come. */
  ghost predicate OnTrack(good: nat -> bool, script: seq<Step>, done: seq<Step>, rest: seq<Step>, made: seq<Delivery>) {
    script == done + rest && GoodUntil(good, |done|) && made == Called(done)
  }

  /** The publication took the steps `done`: the whole script, or its beginning up to and including the
      first step that went wrong.  It delivered exactly what those steps call, and reports the step
      that stopped it. */
  ghost predicate Outcome(good: nat -> bool, script: seq<Step>, done: seq<Step>, made: seq<Delivery>, r: PublishResult) {
    && done <= script && made == Called(done)
    && if GoodUntil(good, |script|) then r == Published && done == script
       else 0 < |done| && GoodUntil(good, |done| - 1) && !good(|done| - 1) && r == Stopped(done[|done| - 1])
  }

  /** What a publication that stops at `step` reports. */
  function Stopped(step: Step): PublishResult {
    if step.Check? then Cancelled else HandlerFailed(step.delivery.1.eventType)
  }

  lemma TakeStep(good: nat -> bool, script: seq<Step>, done: seq<Step>, step: Step, rest: seq<Step>, made: seq<Delivery>)
    requires OnTrack(good, script, done, [step] + rest, made)
    ensures good(|done|) ==> OnTrack(good, script, done + [step], rest, made + Delivered(step))
    ensures !good(|done|) ==> Outcome(good, script, done + [step], made + Delivered(step), Stopped(step))
  {
    assert (done + [step])[..|done|] == done;
    assert done + ([step] + rest) == (done + [step]) + rest;
  }

  class InMemoryEventBus {
    var handlers: Handlers
    var calls: seq<Delivery>

    constructor ()
      ensures handlers == map[] && calls == []
    {
      handlers, calls := map[], [];
    }

    method Subscribe(t: EventType, handler: Handler)
      modifies this
      ensures handlers == old(handlers)[t := HandlersOf(old(handlers), t) + [handler]]
      ensures calls == old(calls)
    {
      handlers := handlers[t := HandlersOf(handlers, t) + [handler]];
    }

    /** `good(i)` says whether the i-th step finds the context alive, or its handler returns nil. */
    method Publish(good: nat -> bool, events: seq<DomainEvent>)
      returns (r: PublishResult, ghost done: seq<Step>, ghost made: seq<Delivery>)
      modifies this`calls
      ensures Outcome(good, Script(handlers, events), done, made, r)
      ensures calls == old(calls) + made
    {
      ghost var script := Script(handlers, events);
      done, made := [], [];
      var remaining, step := events, 0;
      while remaining != []
        invariant step == |done|
        invariant OnTrack(good, script, done, Script(handlers, remaining), made)
        invariant calls == old(calls) + made
        decreases |remaining|
      {
        var event := remaining[0];
        var snapshot := HandlersOf(handlers, event.eventType);
        ghost var rest := Script(handlers, remaining[1..]);
        ScriptUnfolds(handlers, remaining);
        TakeStep(good, script, done, Check(event), CallsOf(snapshot, event) + rest, made);
        assert made + Delivered(Check(event)) == made;
        done := done + [Check(event)];
        if !good(step) {
          return Cancelled, done, made;
        }
        var failed;
        failed, step, done, made := Dispatch(good, snapshot, event, step + 1, old(calls), script, done, rest, made);
        if failed {
          return HandlerFailed(event.eventType), done, made;
        }
        remaining := remaining[1..];
      }
      assert done + [] == done;
      r := Published;
    }

    /** Calls the handlers of one event, stopping at the first that fails.  `step` counts the steps
        of the whole publication; `base` is what had been called before it. */
    method Dispatch(good: nat -> bool, snapshot: seq<Handler>, event: DomainEvent, step: nat,
                    ghost base: seq<Delivery>, ghost script: seq<Step>,
                    ghost done: seq<Step>, ghost rest: seq<Step>, ghost made: seq<Delivery>)
      returns (failed: bool, next: nat, ghost done': seq<Step>, ghost made': seq<Delivery>)
      requires OnTrack(good, script, done, CallsOf(snapshot, event) + rest, made)
      requires step == |done| && calls == base + made
      modifies this`calls
      ensures calls == base + made'
      ensures failed ==> Outcome(good, script, done', made', HandlerFailed(event.eventType))
      ensures !failed ==> OnTrack(good, script, done', rest, made') && next == |done'|
    {
      next, done', made' := step, done, made;
      var remaining := snapshot;
      while remaining != []
        invariant OnTrack(good, script, done', CallsOf(remaining, event) + rest, made') && next == |done'|
        invariant calls == base + made'
        decreases |remaining|
      {
        var delivery := (remaining[0], event);
        assert CallsOf(remaining, event) + rest == [Call(delivery)] + (CallsOf(remaining[1..], event) + rest);
        TakeStep(good, script, done', Call(delivery), CallsOf(remaining[1..], event) + rest, made');
        calls := calls + [delivery];
        done', made' := done' + [Call(delivery)], made' + [delivery];
        if !good(next) {
          return true, next, done', made';
        }
        next, remaining := next + 1, remaining[1..];
      }
      assert [] + rest == rest;
      failed := false;
    }
  }

  lemma ScriptUnfolds(handlers: Handlers, events: seq<DomainEvent>)
    requires events != []
    ensures Script(handlers, events) ==
      [Check(events[0])] + (CallsOf(HandlersOf(handlers, events[0].eventType), events[0]) + Script(handlers, events[1..]))
  {
  }

  /** Whatever stops a publication, what it has delivered is a prefix of the deliveries owed, and a
      publication that succeeds has delivered all of them. */
  lemma DeliveredPrefix(good: nat -> bool, handlers: Handlers, events: seq<DomainEvent>,
                        done: seq<Step>, made: seq<Delivery>, r: PublishResult)
    requires Outcome(good, Script(handlers, events), done, made, r)
    ensures made <= Deliveries(handlers, events)
    ensures made == Deliveries(handlers, events) <==> Called(Script(handlers, events)[|done|..]) == []
    ensures r.Published? ==> made == Deliveries(handlers, events)
  {
    var script := Script(handlers, events);
    assert script == done + script[|done|..];
    CalledJoins(done, script[|done|..]);
    ScriptDelivers(handlers, events);
  }

  // ----- When is everything delivered? -----

  /** The number of steps up to and including the last handler call. */
  function ThroughLastCall(script: seq<Step>): (k: nat)
    ensures k <= |script| && (k > 0 ==> script[k - 1].Call?)
  {
    if script == [] then 0
    else if script[|script| - 1].Call? then |script|
    else ThroughLastCall(script[..|script| - 1])
  }

  /** All contexts and handlers before the last owed call go well; that call itself may fail. */
  ghost predicate ReachesLastCall(good: nat -> bool, script: seq<Step>) {
    var k := ThroughLastCall(script);
    k == 0 || GoodUntil(good, k - 1)
  }

  lemma {:induction false} OnlyChecksBehind(script: seq<Step>, i: nat)
    requires ThroughLastCall(script) <= i < |script|
    ensures script[i].Check?
  {
    if i < |script| - 1 {
      OnlyChecksBehind(script[..|script| - 1], i);
    }
  }

  lemma CalledGrows(script: seq<Step>, n: nat)
    requires n <= |script|
    ensures |Called(script[..n])| <= |Called(script)|
  {
    CalledJoins(script[..n], script[n..]);
    assert script == script[..n] + script[n..];
  }

  /** A beginning of the script makes all its deliveries exactly when it includes the last call. */
  lemma {:induction false} CallsAllIff(script: seq<Step>, n: nat)
    requires n <= |script|
    ensures Called(script[..n]) == Called(script) <==> ThroughLastCall(script) <= n
  {
    if n == |script| {
      assert script[..n] == script;
    } else {
      var front, last := script[..|script| - 1], script[|script| - 1];
      assert script[..n] == front[..n];
      assert Called(script) == Called(front) + Delivered(last);
      if last.Call? {
        CalledGrows(front, n);
      } else {
        CallsAllIff(front, n);
      }
    }
  }

  /** A publication delivers everything exactly when every step before the last owed call goes well. */
  lemma CompleteIff(good: nat -> bool, handlers: Handlers, events: seq<DomainEvent>,
                    done: seq<Step>, made: seq<Delivery>, r: PublishResult)
    requires Outcome(good, Script(handlers, events), done, made, r)
    ensures made == Deliveries(handlers, events) <==> ReachesLastCall(good, Script(handlers, events))
  {
    var script := Script(handlers, events);
    ScriptDelivers(handlers, events);
    assert done == script[..|done|];
    CallsAllIff(script, |done|);
  }

  /** "Complete if and only if nil" holds of a publication exactly when it does not reach the last owed call
      only to have that call, or a context check behind it, go wrong. */
  lemma CompleteMeansPublishedIff(good: nat -> bool, handlers: Handlers, events: seq<DomainEvent>,
                                  done: seq<Step>, made: seq<Delivery>, r: PublishResult)
    requires Outcome(good, Script(handlers, events), done, made, r)
    ensures (made == Deliveries(handlers, events) <==> r.Published?) <==>
      (ReachesLastCall(good, Script(handlers, events)) ==> GoodUntil(good, |Script(handlers, events)|))
  {
    CompleteIff(good, handlers, events, done, made, r);
  }

  /** Every step but one goes well. */
  function AllBut(bad: nat): nat -> bool {
    (i: nat) => i != bad
  }

  lemma StopsAt(script: seq<Step>, bad: nat)
    requires bad < |script|
    ensures Outcome(AllBut(bad), script, script[..bad + 1], Called(script[..bad + 1]), Stopped(script[bad]))
  {
    assert GoodUntil(AllBut(bad), bad) && !AllBut(bad)(bad);
  }

  /** One bad step, no earlier than the last owed call: everything is delivered, and that step reported. */
  lemma CompleteUpTo(handlers: Handlers, events: seq<DomainEvent>, bad: nat)
    requires bad < |Script(handlers, events)| && ThroughLastCall(Script(handlers, events)) <= bad + 1
    ensures var script := Script(handlers, events);
      Outcome(AllBut(bad), script, script[..bad + 1], Deliveries(handlers, events), Stopped(script[bad]))
  {
    var script := Script(handlers, events);
    StopsAt(script, bad);
    ScriptDelivers(handlers, events);
    CallsAllIff(script, bad + 1);
  }

  lemma {:induction false} ScriptEnd(handlers: Handlers, events: seq<DomainEvent>)
    requires events != []
    ensures var script := Script(handlers, events);
      script != [] && (script[|script| - 1].Check? <==> HandlersOf(handlers, events[|events| - 1].eventType) == [])
  {
    var calls, rest := CallsOf(HandlersOf(handlers, events[0].eventType), events[0]), Script(handlers, events[1..]);
    ScriptUnfolds(handlers, events);
    CallsAreCalls(HandlersOf(handlers, events[0].eventType), events[0]);
    if |events| > 1 {
      ScriptEnd(handlers, events[1..]);
      assert (calls + rest)[|calls + rest| - 1] == rest[|rest| - 1];
    } else {
      assert rest == [] && calls + rest == calls;
      if calls != [] {
        assert Script(handlers, events)[|calls|] == calls[|calls| - 1];
      }
    }
  }

  lemma {:induction false} CallsAreCalls(to: seq<Handler>, e: DomainEvent)
    ensures |CallsOf(to, e)| == |to| && forall i | 0 <= i < |to| :: CallsOf(to, e)[i].Call?
  {
    if to != [] {
      CallsAreCalls(to[1..], e);
    }
  }

  lemma SomethingOwed(handlers: Handlers, events: seq<DomainEvent>)
    requires Deliveries(handlers, events) != []
    ensures ThroughLastCall(Script(handlers, events)) > 0
  {
    var script := Script(handlers, events);
    ScriptDelivers(handlers, events);
    CallsAllIff(script, 0);
    assert Called(script[..0]) == [];
  }

  /** Whatever there is to deliver, it can all be delivered and the publication still fail: the last handler
      called is the one that fails. */
  lemma CompleteButFailed(handlers: Handlers, events: seq<DomainEvent>)
    requires Deliveries(handlers, events) != []
    ensures var script := Script(handlers, events);
      var k := ThroughLastCall(script);
      && k > 0 && script[k - 1].Call?
      && Outcome(AllBut(k - 1), script, script[..k], Deliveries(handlers, events),
                 HandlerFailed(script[k - 1].delivery.1.eventType))
  {
    SomethingOwed(handlers, events);
    CompleteUpTo(handlers, events, ThroughLastCall(Script(handlers, events)) - 1);
  }

  /** The same by cancellation, whenever the last event has no handler: the context dies after the last
      call and before that event's check. */
  lemma CompleteButCancelled(handlers: Handlers, events: seq<DomainEvent>)
    requires events != [] && HandlersOf(handlers, events[|events| - 1].eventType) == []
    ensures var script := Script(handlers, events);
      var k := ThroughLastCall(script);
      && k < |script|
      && Outcome(AllBut(k), script, script[..k + 1], Deliveries(handlers, events), Cancelled)
  {
    var script := Script(handlers, events);
    var k := ThroughLastCall(script);
    ScriptEnd(handlers, events);
    OnlyChecksBehind(script, k);
    CompleteUpTo(handlers, events, k);
  }

  // ----- What a subscription adds -----

  lemma {:induction false} DeliveriesOfMore(to: seq<Handler>, h: Handler, e: DomainEvent)
    ensures DeliveriesOf(to + [h], e) == DeliveriesOf(to, e) + [(h, e)]
  {
    if to == [] {
      assert to + [h] == [h] && [h][1..] == [];
      assert DeliveriesOf([], e) == [];
    } else {
      assert (to + [h])[1..] == to[1..] + [h];
      DeliveriesOfMore(to[1..], h, e);
    }
  }

  lemma DeliveriesOfOne(handlers: Handlers, e: DomainEvent)
    ensures Deliveries(handlers, [e]) == DeliveriesOf(HandlersOf(handlers, e.eventType), e)
  {
    assert [e][1..] == [] && Deliveries(handlers, []) == [];
  }

  /** A subscribed handler is owed every later event of its type, behind the earlier subscribers, and no
      event of another type; without subscriptions nothing is owed. */
  lemma SubscriptionAdds(handlers: Handlers, t: EventType, h: Handler, e: DomainEvent)
    ensures var after := handlers[t := HandlersOf(handlers, t) + [h]];
      Deliveries(after, [e]) == Deliveries(handlers, [e]) + if e.eventType == t then [(h, e)] else []
    ensures Deliveries(map[], [e]) == []
  {
    var after := handlers[t := HandlersOf(handlers, t) + [h]];
    DeliveriesOfOne(handlers, e);
    DeliveriesOfOne(after, e);
    DeliveriesOfOne(map[], e);
    DeliveriesOfMore(HandlersOf(handlers, t), h, e);
  }

  /** Several events are owed one after the other. */
  lemma {:induction false} DeliveriesJoin(handlers: Handlers, a: seq<DomainEvent>, b: seq<DomainEvent>)
    ensures Deliveries(handlers, a + b) == Deliveries(handlers, a) + Deliveries(handlers, b)
    decreases a
  {
    if a == [] {
      assert a + b == b;
    } else {
      assert (a + b)[1..] == a[1..] + b;
      DeliveriesJoin(handlers, a[1..], b);
    }
  }
}
