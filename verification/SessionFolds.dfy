/** What a chat session's event history amounts to: the fold both the aggregate and the projection
    compute, and its meaning stated without a fold. */
module SessionFolds {
  import opened EventModel

  datatype Tally = Tally(connected: bool, received: nat, processed: nat, failed: nat, broadcasted: nat)

  const NOTHING := Tally(false, 0, 0, 0, 0)

  function Counted(t: Tally, e: EventType): Tally {
    match e
    case SessionConnected => t.(connected := true)
    case SessionDisconnected => t.(connected := false)
    case MessageReceived => t.(received := t.received + 1)
    case MessageProcessed => t.(processed := t.processed + 1)
    case MessageFailed => t.(failed := t.failed + 1)
    case MessageBroadcasted => t.(broadcasted := t.broadcasted + 1)
    case Named(_) => t
  }

  function TypesOf(history: seq<DomainEvent>): (types: seq<EventType>)
    ensures |types| == |history|
    ensures forall i | 0 <= i < |history| :: types[i] == history[i].eventType
  {
    seq(|history|, i requires 0 <= i < |history| => history[i].eventType)
  }

  function TallyOf(types: seq<EventType>): Tally {
    if types == [] then NOTHING
    else Counted(TallyOf(types[..|types| - 1]), types[|types| - 1])
  }

  lemma TallyAfter(types: seq<EventType>, e: EventType)
    ensures TallyOf(types + [e]) == Counted(TallyOf(types), e)
  {
    assert (types + [e])[..|types|] == types;
  }

  // ----- Meaning -----

  /** The latest connect has no session event after it. */
  ghost predicate EndsConnected(types: seq<EventType>) {
    exists i :: ConnectedSince(types, i)
  }

  ghost predicate ConnectedSince(types: seq<EventType>, i: int) {
    && 0 <= i < |types| && types[i].SessionConnected?
    && forall j | i < j < |types| :: !IsSessionEvent(types[j])
  }

  lemma EndsConnectedAfter(types: seq<EventType>, e: EventType)
    ensures EndsConnected(types + [e]) <==> e.SessionConnected? || (!e.SessionDisconnected? && EndsConnected(types))
  {
    var longer := types + [e];
    if e.SessionConnected? {
      assert ConnectedSince(longer, |types|);
    } else if !e.SessionDisconnected? {
      if EndsConnected(types) {
        var i :| ConnectedSince(types, i);
        assert ConnectedSince(longer, i);
      }
      if EndsConnected(longer) {
        var i :| ConnectedSince(longer, i);
        assert forall j | i < j < |types| :: types[j] == longer[j];
        assert ConnectedSince(types, i);
      }
    } else {
      assert longer[|types|] == e;
    }
  }

  /** A tally is the closing connection state and one count per message event type. */
  lemma {:induction false} TallyMeaning(types: seq<EventType>)
    ensures var t := TallyOf(types);
      && (t.connected <==> EndsConnected(types))
      && t.received == multiset(types)[MessageReceived]
      && t.processed == multiset(types)[MessageProcessed]
      && t.failed == multiset(types)[MessageFailed]
      && t.broadcasted == multiset(types)[MessageBroadcasted]
  {
    if types != [] {
      var front, last := types[..|types| - 1], types[|types| - 1];
      TallyMeaning(front);
      EndsConnectedAfter(front, last);
      assert front + [last] == types;
    }
  }
}
