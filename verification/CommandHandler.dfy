/** The command side: load, rebuild, decide, append, publish.  There is no lock and no expected
    version, so its guarantees are about serial use. */
module CommandHandler {
  import opened EventModel
  import opened EventStore
  import opened SessionRules
  import opened ChatAggregate
  import Bus = EventBus

  datatype HandleResult =
    | Done(events: seq<DomainEvent>)
    | LoadError
    | UnknownType
    | Refused
    | AppendError
    | PublishError(cause: Bus.PublishResult)

  /** What the context, the clock and the bus handlers do during one call. */
  datatype Environment = Environment(
    loadCancelled: bool, appendCancelled: bool,
    now: Time, eventId: string, appendNow: Time, freshId: string,
    good: nat -> bool)
  {
    function Of(cmd: Command): Handling {
      Handling(cmd, !loadCancelled && !appendCancelled, now, eventId, appendNow, freshId)
    }
  }

  class ChatCommandHandler {
    const eventStore: InMemoryEventStore
    const eventBus: Bus.InMemoryEventBus?

    constructor (store: InMemoryEventStore, bus: Bus.InMemoryEventBus?)
      ensures eventStore == store && eventBus == bus
    {
      eventStore, eventBus := store, bus;
    }

    /** Loads and rebuilds the aggregate of the command's identifier and lets it decide. */
    method Decide(cmd: Command, env: Environment) returns (r: HandleResult)
      requires eventStore.Valid()
      ensures r.Done? <==> !env.loadCancelled && Accepts(eventStore.streams, cmd)
      ensures r.Done? ==>
        r.events == [EventFor(Requested(cmd.commandType).value, cmd.data.connectionIdentifier, env.now, env.eventId)]
      ensures !r.Done? ==> r.LoadError? || r.UnknownType? || r.Refused?
    {
      var loaded := eventStore.LoadStream(env.loadCancelled, ChatStreamId(cmd.aggregateId));
      if loaded.LoadFailed? {
        return LoadError;
      }
      var aggregate := RebuildChatSessionAggregate(loaded.events);
      var decision;
      match cmd.commandType {
        case ConnectSession => decision := aggregate.HandleConnectSession(cmd, env.now, env.eventId);
        case DisconnectSession => decision := aggregate.HandleDisconnectSession(cmd, env.now, env.eventId);
        case SendMessage => decision := aggregate.HandleSendMessage(cmd, env.now, env.eventId);
        case UnknownCommand(_) => return UnknownType;
      }
      r := if decision.Accept? then Done(decision.events) else Refused;
    }

    /** Appends the decided events one by one; a decision is always a single event. */
    method Persist(pending: seq<DomainEvent>, env: Environment) returns (r: HandleResult)
      requires eventStore.Valid() && |pending| == 1 && Acceptable(pending[0])
      modifies eventStore
      ensures eventStore.Valid()
      ensures env.appendCancelled ==>
        && r == AppendError
        && eventStore.streams == old(eventStore.streams) && eventStore.events == old(eventStore.events)
      ensures !env.appendCancelled ==>
        var e := Completed(pending[0], old(eventStore.streams), env.appendNow, env.freshId);
        && r == Done([e])
        && eventStore.streams == Extended(old(eventStore.streams), e)
        && eventStore.events == old(eventStore.events) + [e]
    {
      var persisted: seq<DomainEvent> := [];
      ghost var e := Completed(pending[0], eventStore.streams, env.appendNow, env.freshId);
      var i := 0;
      while i < |pending|
        invariant 0 <= i <= 1 && eventStore.Valid()
        invariant i == 0 ==> persisted == [] && unchanged(eventStore)
        invariant i == 1 ==> persisted == [e] && !env.appendCancelled
                             && eventStore.events == old(eventStore.events) + [e]
                             && eventStore.streams == Extended(old(eventStore.streams), e)
      {
        var appended := eventStore.Append(env.appendCancelled, pending[i], env.appendNow, env.freshId);
        if appended.AppendFailed? {
          return AppendError;
        }
        persisted := persisted + [appended.event];
        i := i + 1;
      }
      r := Done(persisted);
    }

    /** The store changes exactly when the command is accepted and its context alive.  Only then is
        anything published: the stored event with its version, delivered as far as `delivered` says. */
    method Handle(cmd: Command, env: Environment)
      returns (r: HandleResult, ghost steps: seq<Bus.Step>, ghost delivered: seq<Bus.Delivery>)
      requires eventStore.Valid()
      modifies eventStore, if eventBus == null then {} else {eventBus}
      ensures eventStore.Valid()
      ensures eventStore.streams == Handled(old(eventStore.streams), env.Of(cmd))
      ensures r.Done? || r.PublishError? <==>
        !env.loadCancelled && !env.appendCancelled && Accepts(old(eventStore.streams), cmd)
      ensures r.Done? || r.PublishError? ==>
        var e := Recorded(old(eventStore.streams), cmd, env.now, env.eventId, env.appendNow, env.freshId);
        && eventStore.events == old(eventStore.events) + [e]
        && if eventBus == null then r == Done([e])
           else Bus.Outcome(env.good, Bus.Script(eventBus.handlers, [e]), steps, delivered,
                            if r.Done? then Bus.Published else r.cause)
                && (r.Done? ==> r.events == [e])
      ensures !(r.Done? || r.PublishError?) ==> eventStore.events == old(eventStore.events) && delivered == []
      ensures eventBus != null ==>
        eventBus.handlers == old(eventBus.handlers) && eventBus.calls == old(eventBus.calls) + delivered
    {
      steps, delivered := [], [];
      r := Decide(cmd, env);
      if !r.Done? {
        return;
      }
      r := Persist(r.events, env);
      if !r.Done? {
        return;
      }
      if eventBus != null && |r.events| > 0 {
        var published;
        published, steps, delivered := eventBus.Publish(env.good, r.events);
        if !published.Published? {
          r := PublishError(published);
        }
      }
    }
  }
}
