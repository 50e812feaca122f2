/** The read side: a session projection kept up to date event by event, or rebuilt in one pass. */
module ChatProjection {
  import opened Options
  import opened EventModel
  import opened SessionFolds

  datatype Projection = Projection(connectionIdentifier: string, tally: Tally, lastEventAt: Time)

  const ZERO := Projection("", NOTHING, ZERO_TIME)

  function Later(a: Time, b: Time): Time {
    if b > a then b else a
  }

  /** Only connect and disconnect events have their payload decoded. */
  predicate Fails(e: DomainEvent) {
    IsSessionEvent(e.eventType) && e.data.Undecodable?
  }

  /** One event; a payload that does not decode still moves the time. */
  function Applied(p: Projection, e: DomainEvent): Projection {
    var timed := p.(lastEventAt := Later(p.lastEventAt, e.occurredAt));
    if Fails(e) then timed
    else timed.(
        connectionIdentifier := if IsSessionEvent(e.eventType) then e.data.connectionIdentifier else p.connectionIdentifier,
        tally := Counted(p.tally, e.eventType))
  }

  /** Event by event from `p`, stopping at the first failure. */
  function Resumed(p: Projection, history: seq<DomainEvent>): Option<Projection>
    decreases history
  {
    if history == [] then Some(p)
    else if Fails(history[0]) then None
    else Resumed(Applied(p, history[0]), history[1..])
  }

  class ChatSessionProjection {
    var connectionIdentifier: string
    var connected: bool
    var received: nat
    var processed: nat
    var failed: nat
    var broadcasted: nat
    var lastEventAt: Time

    function Value(): Projection
      reads this
    {
      Projection(connectionIdentifier, Tally(connected, received, processed, failed, broadcasted), lastEventAt)
    }

    constructor (aggregateId: string)
      ensures Value() == ZERO.(connectionIdentifier := aggregateId)
    {
      connectionIdentifier, connected, lastEventAt := aggregateId, false, ZERO_TIME;
      received, processed, failed, broadcasted := 0, 0, 0, 0;
    }

    method ApplyEvent(e: DomainEvent) returns (ok: bool)
      modifies this
      ensures ok <==> !(e.eventType.SessionConnected? || e.eventType.SessionDisconnected?) || e.data.Decodable?
      ensures Value() == Applied(old(Value()), e)
      ensures lastEventAt >= old(lastEventAt) && lastEventAt >= e.occurredAt
      ensures lastEventAt == old(lastEventAt) || lastEventAt == e.occurredAt
      ensures !ok ==> Value().(lastEventAt := old(lastEventAt)) == old(Value())
    {
      if e.occurredAt > lastEventAt {
        lastEventAt := e.occurredAt;
      }
      match e.eventType {
        case SessionConnected =>
          if e.data.Undecodable? {
            return false;
          }
          connectionIdentifier, connected := e.data.connectionIdentifier, true;
        case SessionDisconnected =>
          if e.data.Undecodable? {
            return false;
          }
          connectionIdentifier, connected := e.data.connectionIdentifier, false;
        case MessageReceived => received := received + 1;
        case MessageProcessed => processed := processed + 1;
        case MessageFailed => failed := failed + 1;
        case MessageBroadcasted => broadcasted := broadcasted + 1;
        case Named(_) =>
      }
      ok := true;
    }
  }

  /** The one-pass rebuild has its own copy of the event switch. */
  method RebuildChatSessionProjection(history: seq<DomainEvent>) returns (r: Option<Projection>)
    ensures r == Resumed(ZERO, history)
  {
    var connectionIdentifier, lastEventAt := "", ZERO_TIME;
    var connected, received, processed, failed, broadcasted := false, 0, 0, 0, 0;
    var i := 0;
    while i < |history|
      invariant 0 <= i <= |history|
      invariant 0 <= received && 0 <= processed && 0 <= failed && 0 <= broadcasted
      invariant Resumed(ZERO, history) ==
        Resumed(Projection(connectionIdentifier, Tally(connected, received, processed, failed, broadcasted), lastEventAt),
                history[i..])
    {
      var e := history[i];
      assert history[i..][1..] == history[i + 1..];
      if e.occurredAt > lastEventAt {
        lastEventAt := e.occurredAt;
      }
      match e.eventType {
        case SessionConnected =>
          if e.data.Undecodable? {
            return None;
          }
          connectionIdentifier, connected := e.data.connectionIdentifier, true;
        case SessionDisconnected =>
          if e.data.Undecodable? {
            return None;
          }
          connectionIdentifier, connected := e.data.connectionIdentifier, false;
        case MessageReceived => received := received + 1;
        case MessageProcessed => processed := processed + 1;
        case MessageFailed => failed := failed + 1;
        case MessageBroadcasted => broadcasted := broadcasted + 1;
        case Named(_) =>
      }
      i := i + 1;
    }
    r := Some(Projection(connectionIdentifier, Tally(connected, received, processed, failed, broadcasted), lastEventAt));
  }

  // ----- Batch, incremental and declarative views agree -----

  /** Rebuilding a longer history is resuming from the shorter one. */
  lemma {:induction false} ResumedJoins(p: Projection, first: seq<DomainEvent>, second: seq<DomainEvent>)
    ensures Resumed(p, first + second) ==
      match Resumed(p, first) { case None => None case Some(q) => Resumed(q, second) }
    decreases first
  {
    if first == [] {
      assert first + second == second;
    } else {
      assert (first + second)[1..] == first[1..] + second;
      if !Fails(first[0]) {
        ResumedJoins(Applied(p, first[0]), first[1..], second);
      }
    }
  }

  /** `t` is the larger of the zero time and every event time. */
  ghost predicate IsLatest(t: Time, history: seq<DomainEvent>) {
    && ZERO_TIME <= t && (forall e | e in history :: e.occurredAt <= t)
    && (t == ZERO_TIME || exists e :: e in history && e.occurredAt == t)
  }

  /** `id` is the identifier of the last session event, or "" when there is none. */
  ghost predicate IsLastIdentifier(id: string, history: seq<DomainEvent>) {
    if forall e | e in history :: !IsSessionEvent(e.eventType) then id == ""
    else exists i :: IdentifiedLastAt(id, history, i)
  }

  ghost predicate IdentifiedLastAt(id: string, history: seq<DomainEvent>, i: int) {
    && 0 <= i < |history| && IsSessionEvent(history[i].eventType) && history[i].data == Decodable(id)
    && forall j | i < j < |history| :: !IsSessionEvent(history[j].eventType)
  }

  lemma LastIdentifierAfter(id: string, history: seq<DomainEvent>, e: DomainEvent)
    requires IsLastIdentifier(id, history) && !Fails(e)
    ensures IsLastIdentifier(if IsSessionEvent(e.eventType) then e.data.connectionIdentifier else id, history + [e])
  {
    var longer := history + [e];
    assert longer[|history|] == e;
    if IsSessionEvent(e.eventType) {
      assert IdentifiedLastAt(e.data.connectionIdentifier, longer, |history|);
    } else if i :| IdentifiedLastAt(id, history, i) {
      assert longer[i] == history[i];
      assert IdentifiedLastAt(id, longer, i);
    }
  }

  /** What a successful rebuild holds. */
  ghost predicate Describes(p: Projection, history: seq<DomainEvent>) {
    && p.tally == TallyOf(TypesOf(history))
    && IsLatest(p.lastEventAt, history)
    && IsLastIdentifier(p.connectionIdentifier, history)
  }

  lemma DescribesAfter(p: Projection, history: seq<DomainEvent>, e: DomainEvent)
    requires Describes(p, history) && !Fails(e)
    ensures Describes(Applied(p, e), history + [e])
  {
    LastIdentifierAfter(p.connectionIdentifier, history, e);
    assert TypesOf(history + [e]) == TypesOf(history) + [e.eventType];
    TallyAfter(TypesOf(history), e.eventType);
    assert forall x :: x in history + [e] <==> x in history || x == e;
  }

  /** A history rebuilds exactly when every session event decodes, and the result then holds the last
      session's identifier, the aggregate's tally and the latest time. */
  lemma {:induction false} RebuildMeaning(history: seq<DomainEvent>)
    ensures Resumed(ZERO, history).Some? <==> forall e | e in history :: !Fails(e)
    ensures Resumed(ZERO, history).Some? ==> Describes(Resumed(ZERO, history).value, history)
  {
    if history != [] {
      var front, last := history[..|history| - 1], history[|history| - 1];
      assert history == front + [last];
      RebuildMeaning(front);
      ResumedJoins(ZERO, front, [last]);
      if Resumed(ZERO, front).Some? && !Fails(last) {
        var p := Resumed(ZERO, front).value;
        assert Resumed(p, [last]) == Some(Applied(p, last));
        DescribesAfter(p, front, last);
      }
    }
  }
}
