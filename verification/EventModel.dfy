/** Domain events and commands of the chat session stream. */
module EventModel {

  type Time = int
  const ZERO_TIME: Time := 0

  /** The event types the session folds distinguish; every other one is `Named`. */
  datatype EventType =
    | SessionConnected
    | SessionDisconnected
    | MessageReceived
    | MessageProcessed
    | MessageFailed
    | MessageBroadcasted
    | Named(name: string)

  const HEARTBEAT_TIMEOUT := Named("heartbeat_timeout")

  predicate IsSessionEvent(t: EventType) {
    t.SessionConnected? || t.SessionDisconnected?
  }

  /** A JSON payload either decodes, yielding its connection identifier, or does not. */
  datatype Payload = Decodable(connectionIdentifier: string) | Undecodable

  datatype DomainEvent = DomainEvent(
    eventId: string,
    streamId: string,
    aggregateId: string,
    eventType: EventType,
    version: int,
    occurredAt: Time,
    data: Payload)

  datatype CommandType = ConnectSession | DisconnectSession | SendMessage | UnknownCommand(name: string)

  datatype Command = Command(commandType: CommandType, aggregateId: string, data: Payload)

  function ChatStreamId(connectionIdentifier: string): string {
    "chat:" + connectionIdentifier
  }

  lemma ChatStreamIdInjective(a: string, b: string)
    ensures ChatStreamId(a) == ChatStreamId(b) <==> a == b
  {
    assert ChatStreamId(a)[5..] == a && ChatStreamId(b)[5..] == b;
  }

  /** A freshly built event; the store assigns its version. */
  function NewDomainEvent(id: string, now: Time, streamId: string, aggregateId: string,
                          eventType: EventType, data: Payload): DomainEvent {
    DomainEvent(id, streamId, aggregateId, eventType, 0, now, data)
  }
}
