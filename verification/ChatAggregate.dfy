/** The chat session aggregate: rebuilt from a stream, it decides which commands are allowed. */
module ChatAggregate {
  import opened EventModel
  import opened SessionFolds
  import opened EventStore

  /** How an aggregate answers a command. */
  datatype Decision = Accept(events: seq<DomainEvent>) | RefuseState | RefusePayload

  /** The single event a command of this type stands for. */
  function EventFor(t: EventType, connectionIdentifier: string, now: Time, freshId: string): DomainEvent {
    NewDomainEvent(freshId, now, ChatStreamId(connectionIdentifier), connectionIdentifier, t,
                   Decodable(connectionIdentifier))
  }

  /** The identifier an event leaves behind, where "" means none so far. */
  function IdentifiedBy(id: string, e: DomainEvent): string {
    var own := if e.eventType.SessionConnected? && e.data.Decodable? then e.data.connectionIdentifier else id;
    if own == "" then e.aggregateId else own
  }

  function IdentifierOf(history: seq<DomainEvent>): string {
    if history == [] then ""
    else IdentifiedBy(IdentifierOf(history[..|history| - 1]), history[|history| - 1])
  }

  /** The identifier a connect event brings with it, if it decodes to one. */
  predicate Brings(e: DomainEvent, id: string) {
    e.eventType.SessionConnected? && e.data == Decodable(id) && id != ""
  }

  /** A connect that decodes to an identifier sets it, whatever came before; any other event leaves an
      identifier that is there alone, and lends its own aggregate identifier when there is none. */
  lemma IdentifierAfter(history: seq<DomainEvent>, e: DomainEvent)
    ensures forall id | Brings(e, id) :: IdentifierOf(history + [e]) == id
    ensures !e.eventType.SessionConnected? || e.data.Undecodable? ==>
      IdentifierOf(history + [e]) == if IdentifierOf(history) != "" then IdentifierOf(history) else e.aggregateId
  {
    assert (history + [e])[..|history|] == history;
  }

  /** A stream all of whose events belong to one connection rebuilds to that connection's aggregate. */
  lemma {:induction false} OneConnectionIdentified(history: seq<DomainEvent>, id: string)
    requires history != []
    requires forall e | e in history :: e.aggregateId == id && (e.data.Decodable? ==> e.data == Decodable(id))
    ensures IdentifierOf(history) == id
  {
    var front, last := history[..|history| - 1], history[|history| - 1];
    assert last in history && forall e | e in front :: e in history;
    if front != [] {
      OneConnectionIdentified(front, id);
    }
  }

  class ChatSessionAggregate {
    var aggregateId: string
    var connected: bool
    var received: nat
    var processed: nat
    var failed: nat
    var broadcasted: nat
    var currentVersion: nat

    function Tallied(): Tally
      reads this
    {
      Tally(connected, received, processed, failed, broadcasted)
    }

    constructor ()
      ensures Tallied() == NOTHING && aggregateId == "" && currentVersion == 0
    {
      aggregateId, connected := "", false;
      received, processed, failed, broadcasted, currentVersion := 0, 0, 0, 0, 0;
    }

    method ApplyEvent(e: DomainEvent)
      modifies this
      ensures Tallied() == Counted(old(Tallied()), e.eventType)
      ensures aggregateId == if e.eventType.SessionConnected? && e.data.Decodable?
                             then e.data.connectionIdentifier else old(aggregateId)
      ensures currentVersion == old(currentVersion)
    {
      match e.eventType {
        case SessionConnected =>
          if e.data.Decodable? {
            aggregateId := e.data.connectionIdentifier;
          }
          connected := true;
        case SessionDisconnected => connected := false;
        case MessageReceived => received := received + 1;
        case MessageProcessed => processed := processed + 1;
        case MessageFailed => failed := failed + 1;
        case MessageBroadcasted => broadcasted := broadcasted + 1;
        case Named(_) =>
      }
    }

    method HandleConnectSession(cmd: Command, now: Time, freshId: string) returns (d: Decision)
      ensures d.RefuseState? <==> connected
      ensures d.RefusePayload? <==> !connected && cmd.data.Undecodable?
      ensures d.Accept? ==> d.events == [EventFor(SessionConnected, cmd.data.connectionIdentifier, now, freshId)]
    {
      if connected {
        return RefuseState;
      }
      if cmd.data.Undecodable? {
        return RefusePayload;
      }
      d := Accept([EventFor(SessionConnected, cmd.data.connectionIdentifier, now, freshId)]);
    }

    method HandleDisconnectSession(cmd: Command, now: Time, freshId: string) returns (d: Decision)
      ensures d.RefuseState? <==> !connected
      ensures d.RefusePayload? <==> connected && cmd.data.Undecodable?
      ensures d.Accept? ==> d.events == [EventFor(SessionDisconnected, cmd.data.connectionIdentifier, now, freshId)]
    {
      if !connected {
        return RefuseState;
      }
      if cmd.data.Undecodable? {
        return RefusePayload;
      }
      d := Accept([EventFor(SessionDisconnected, cmd.data.connectionIdentifier, now, freshId)]);
    }

    method HandleSendMessage(cmd: Command, now: Time, freshId: string) returns (d: Decision)
      ensures d.RefuseState? <==> !connected
      ensures d.RefusePayload? <==> connected && cmd.data.Undecodable?
      ensures d.Accept? ==> d.events == [EventFor(MessageReceived, cmd.data.connectionIdentifier, now, freshId)]
    {
      if !connected {
        return RefuseState;
      }
      if cmd.data.Undecodable? {
        return RefusePayload;
      }
      d := Accept([EventFor(MessageReceived, cmd.data.connectionIdentifier, now, freshId)]);
    }
  }

  lemma PrefixAfter(history: seq<DomainEvent>, i: nat)
    requires i < |history|
    ensures TallyOf(TypesOf(history[..i + 1])) == Counted(TallyOf(TypesOf(history[..i])), history[i].eventType)
    ensures IdentifierOf(history[..i + 1]) == IdentifiedBy(IdentifierOf(history[..i]), history[i])
  {
    assert history[..i + 1][..i] == history[..i];
    assert TypesOf(history[..i + 1]) == TypesOf(history[..i]) + [history[i].eventType];
    TallyAfter(TypesOf(history[..i]), history[i].eventType);
  }

  method RebuildChatSessionAggregate(history: seq<DomainEvent>) returns (aggregate: ChatSessionAggregate)
    ensures fresh(aggregate)
    ensures aggregate.Tallied() == TallyOf(TypesOf(history))
    ensures aggregate.aggregateId == IdentifierOf(history)
    ensures aggregate.currentVersion == |history|
    ensures VersionsAscend(history) && history != [] ==>
      aggregate.currentVersion == history[|history| - 1].version
  {
    aggregate := new ChatSessionAggregate();
    var i := 0;
    while i < |history|
      invariant 0 <= i <= |history|
      invariant fresh(aggregate)
      invariant aggregate.Tallied() == TallyOf(TypesOf(history[..i]))
      invariant aggregate.aggregateId == IdentifierOf(history[..i])
    {
      PrefixAfter(history, i);
      aggregate.ApplyEvent(history[i]);
      if aggregate.aggregateId == "" {
        aggregate.aggregateId := history[i].aggregateId;
      }
      i := i + 1;
    }
    assert history[..i] == history;
    aggregate.currentVersion := |history|;
  }
}
