/** Which command sequences a chat session stream can be made of. */
module SessionRules {
  import opened Options
  import opened EventModel
  import opened EventStore
  import opened SessionFolds
  import opened ChatAggregate

  /** The event type a command asks for, if the aggregate may be connected or not as given. */
  predicate Allowed(connected: bool, t: EventType) {
    match t
    case SessionConnected => !connected
    case SessionDisconnected => connected
    case MessageReceived => connected
    case _ => true
  }

  function Requested(t: CommandType): Option<EventType> {
    match t
    case ConnectSession => Some(SessionConnected)
    case DisconnectSession => Some(SessionDisconnected)
    case SendMessage => Some(MessageReceived)
    case UnknownCommand(_) => None
  }

  function ConnectedIn(streams: Streams, id: string): bool {
    TallyOf(TypesOf(StreamOf(streams, ChatStreamId(id)))).connected
  }

  /** The guard looks at the stream of the command's aggregate identifier. */
  predicate Accepts(streams: Streams, cmd: Command) {
    && Requested(cmd.commandType).Some? && cmd.data.Decodable?
    && Allowed(ConnectedIn(streams, cmd.aggregateId), Requested(cmd.commandType).value)
  }

  /** The event goes to the stream named by the command's payload. */
  function Recorded(streams: Streams, cmd: Command, now: Time, eventId: string, appendNow: Time, freshId: string): DomainEvent
    requires Accepts(streams, cmd)
  {
    Completed(EventFor(Requested(cmd.commandType).value, cmd.data.connectionIdentifier, now, eventId),
              streams, appendNow, freshId)
  }

  function Extended(streams: Streams, e: DomainEvent): Streams {
    streams[e.streamId := StreamOf(streams, e.streamId) + [e]]
  }

  // ----- Well-formed sessions -----

  /** Every event was allowed by the connection state before it. */
  ghost predicate WellFormed(types: seq<EventType>) {
    forall i | 0 <= i < |types| :: Allowed(EndsConnected(types[..i]), types[i])
  }

  ghost predicate AllWellFormed(streams: Streams) {
    forall s: string :: WellFormed(TypesOf(StreamOf(streams, s)))
  }

  function SessionEvents(types: seq<EventType>): seq<EventType> {
    if types == [] then []
    else
      var last := types[|types| - 1];
      SessionEvents(types[..|types| - 1]) + if IsSessionEvent(last) then [last] else []
  }

  /** Connected, Disconnected, Connected, ... */
  ghost predicate Alternates(events: seq<EventType>) {
    forall k | 0 <= k < |events| :: events[k] == if k % 2 == 0 then SessionConnected else SessionDisconnected
  }

  /** Alternating events, their number telling whether the session is connected, and one more that is allowed. */
  lemma AlternatesAfter(events: seq<EventType>, connected: bool, next: EventType)
    requires Alternates(events) && (connected <==> |events| % 2 == 1) && Allowed(connected, next)
    ensures var after := events + if IsSessionEvent(next) then [next] else [];
      && Alternates(after)
      && (next.SessionConnected? || (!next.SessionDisconnected? && connected) <==> |after| % 2 == 1)
  {
  }

  lemma WellFormedFront(types: seq<EventType>)
    requires WellFormed(types) && types != []
    ensures var front, last := types[..|types| - 1], types[|types| - 1];
      WellFormed(front) && Allowed(EndsConnected(front), last)
  {
    var front := types[..|types| - 1];
    forall i | 0 <= i < |front|
      ensures Allowed(EndsConnected(front[..i]), front[i])
    {
      assert front[..i] == types[..i];
    }
  }

  lemma SessionEventsAfter(types: seq<EventType>, last: EventType)
    ensures SessionEvents(types + [last]) == SessionEvents(types) + if IsSessionEvent(last) then [last] else []
  {
    assert (types + [last])[..|types|] == types;
  }

  /** The session events alternate so far, and their number tells whether the session is connected. */
  ghost predicate InStep(types: seq<EventType>) {
    Alternates(SessionEvents(types)) && (EndsConnected(types) <==> |SessionEvents(types)| % 2 == 1)
  }

  lemma InStepAfter(types: seq<EventType>, last: EventType)
    requires InStep(types) && Allowed(EndsConnected(types), last)
    ensures InStep(types + [last])
  {
    AlternatesAfter(SessionEvents(types), EndsConnected(types), last);
    SessionEventsAfter(types, last);
    EndsConnectedAfter(types, last);
  }

  /** The session events of a well-formed stream alternate, starting with a connect. */
  lemma {:induction false} WellFormedAlternates(types: seq<EventType>)
    requires WellFormed(types)
    ensures Alternates(SessionEvents(types))
    ensures EndsConnected(types) <==> |SessionEvents(types)| % 2 == 1
  {
    if types == [] {
      assert !EndsConnected(types);
    } else {
      var front, last := types[..|types| - 1], types[|types| - 1];
      WellFormedFront(types);
      WellFormedAlternates(front);
      InStepAfter(front, last);
      assert front + [last] == types;
    }
  }

  /** In a well-formed stream messages are received only while the session is connected. */
  lemma ReceivedWhileConnected(types: seq<EventType>, i: nat)
    requires WellFormed(types) && i < |types| && types[i] == MessageReceived
    ensures exists k :: ConnectedSince(types[..i], k)
  {
    assert Allowed(EndsConnected(types[..i]), types[i]);
  }

  lemma WellFormedAfter(types: seq<EventType>, t: EventType)
    requires WellFormed(types)
    ensures WellFormed(types + [t]) <==> Allowed(TallyOf(types).connected, t)
  {
    var longer := types + [t];
    TallyMeaning(types);
    assert forall i | 0 <= i < |types| :: longer[..i] == types[..i] && longer[i] == types[i];
    assert longer[..|types|] == types && longer[|types|] == t;
  }

  /** An accepted command keeps every stream well formed exactly when the stream it is checked against
      and the stream it is written to agree on being connected. */
  lemma AcceptedKeepsIff(streams: Streams, cmd: Command, now: Time, eventId: string, appendNow: Time, freshId: string)
    requires AllWellFormed(streams) && Accepts(streams, cmd)
    ensures AllWellFormed(Extended(streams, Recorded(streams, cmd, now, eventId, appendNow, freshId))) <==>
            ConnectedIn(streams, cmd.aggregateId) == ConnectedIn(streams, cmd.data.connectionIdentifier)
  {
    var e := Recorded(streams, cmd, now, eventId, appendNow, freshId);
    var after := Extended(streams, e);
    var target := ChatStreamId(cmd.data.connectionIdentifier);
    var before := TypesOf(StreamOf(streams, target));
    assert TypesOf(StreamOf(after, target)) == before + [e.eventType];
    assert WellFormed(before);
    WellFormedAfter(before, e.eventType);
    forall s: string | s != target
      ensures WellFormed(TypesOf(StreamOf(after, s)))
    {
      assert WellFormed(TypesOf(StreamOf(streams, s)));
    }
  }

  /** Which commands are accepted, without the fold: a connect when the last session event is no connect, a
      disconnect or a message when it is one, and in each case only with a payload that decodes. */
  lemma AcceptsIff(streams: Streams, cmd: Command)
    ensures var connected := EndsConnected(TypesOf(StreamOf(streams, ChatStreamId(cmd.aggregateId))));
      Accepts(streams, cmd) <==>
        (cmd.data.Decodable? &&
         match cmd.commandType {
           case ConnectSession => !connected
           case DisconnectSession => connected
           case SendMessage => connected
           case UnknownCommand(_) => false
         })
  {
    TallyMeaning(TypesOf(StreamOf(streams, ChatStreamId(cmd.aggregateId))));
  }

  /** What an accepted command records, and where: behind the events of its payload's connection. */
  lemma RecordedMeaning(streams: Streams, cmd: Command, now: Time, eventId: string, appendNow: Time, freshId: string)
    requires Accepts(streams, cmd)
    ensures var e, id := Recorded(streams, cmd, now, eventId, appendNow, freshId), cmd.data.connectionIdentifier;
      && e.streamId == "chat:" + id && e.aggregateId == id && e.data == Decodable(id)
      && e.eventType == (if cmd.commandType.ConnectSession? then SessionConnected
                         else if cmd.commandType.DisconnectSession? then SessionDisconnected else MessageReceived)
      && e.version == |StreamOf(streams, "chat:" + id)| + 1
      && StreamOf(Extended(streams, e), "chat:" + id) == StreamOf(streams, "chat:" + id) + [e]
      && forall s: string | s != "chat:" + id :: StreamOf(Extended(streams, e), s) == StreamOf(streams, s)
  {
  }

  // ----- Serial runs of commands -----

  /** One handled command; `commits` says whether its context lets it load and append. */
  datatype Handling = Handling(cmd: Command, commits: bool, now: Time, eventId: string, appendNow: Time, freshId: string)

  function Handled(streams: Streams, h: Handling): Streams {
    if h.commits && Accepts(streams, h.cmd)
    then Extended(streams, Recorded(streams, h.cmd, h.now, h.eventId, h.appendNow, h.freshId))
    else streams
  }

  function HandledAll(streams: Streams, run: seq<Handling>): Streams {
    if run == [] then streams else Handled(HandledAll(streams, run[..|run| - 1]), run[|run| - 1])
  }

  /** Checked and written stream are the same. */
  predicate Aligned(cmd: Command) {
    cmd.data.Decodable? ==> cmd.aggregateId == cmd.data.connectionIdentifier
  }

  /** In every serial run of aligned commands every stream alternates connect and disconnect, starting
      with a connect, and messages are received only in between. */
  lemma {:induction false} SerialRunsAreWellFormed(run: seq<Handling>)
    requires forall h | h in run :: Aligned(h.cmd)
    ensures AllWellFormed(HandledAll(map[], run))
  {
    if run != [] {
      var front, h := run[..|run| - 1], run[|run| - 1];
      SerialRunsAreWellFormed(front);
      var streams := HandledAll(map[], front);
      if Accepts(streams, h.cmd) {
        AcceptedKeepsIff(streams, h.cmd, h.now, h.eventId, h.appendNow, h.freshId);
      }
    }
  }

  /** Every event of the stream belongs to the connection it is named after. */
  ghost predicate Owned(streams: Streams, id: string) {
    forall e | e in StreamOf(streams, ChatStreamId(id)) :: e.aggregateId == id && e.data == Decodable(id)
  }

  /** Handled commands put into a stream only events of its own connection; so what is rebuilt from it is
      that connection's aggregate. */
  lemma {:induction false} StreamsAreOwned(run: seq<Handling>, id: string)
    ensures Owned(HandledAll(map[], run), id)
    ensures var stream := StreamOf(HandledAll(map[], run), ChatStreamId(id)); stream != [] ==> IdentifierOf(stream) == id
  {
    var streams := HandledAll(map[], run);
    if run != [] {
      var front, h := HandledAll(map[], run[..|run| - 1]), run[|run| - 1];
      StreamsAreOwned(run[..|run| - 1], id);
      HandledIsOwned(front, h, id);
    }
    if StreamOf(streams, ChatStreamId(id)) != [] {
      OneConnectionIdentified(StreamOf(streams, ChatStreamId(id)), id);
    }
  }

  lemma HandledIsOwned(streams: Streams, h: Handling, id: string)
    requires Owned(streams, id)
    ensures Owned(Handled(streams, h), id)
  {
    if h.commits && Accepts(streams, h.cmd) {
      var e := Recorded(streams, h.cmd, h.now, h.eventId, h.appendNow, h.freshId);
      ChatStreamIdInjective(h.cmd.data.connectionIdentifier, id);
      assert StreamOf(Handled(streams, h), e.streamId) == StreamOf(streams, e.streamId) + [e];
    }
  }

  /** Alignment is needed: checked against "a" but written to "b", the same connect is accepted twice. */
  lemma MisalignedConnectsTwice()
    ensures var h := Handling(Command(ConnectSession, "a", Decodable("b")), true, 1, "e", 1, "e");
      !AllWellFormed(HandledAll(map[], [h, h]))
  {
    var h := Handling(Command(ConnectSession, "a", Decodable("b")), true, 1, "e", 1, "e");
    ChatStreamIdInjective("a", "b");
    var once := Handled(map[], h);
    assert [h, h][..1] == [h] && [h][..0] == [];
    assert HandledAll(map[], [h]) == once;
    assert TypesOf(StreamOf(map[], ChatStreamId("a"))) == [];
    assert TypesOf(StreamOf(once, ChatStreamId("a"))) == [];
    assert TypesOf(StreamOf(once, ChatStreamId("b"))) == [SessionConnected];
    var twice := Handled(once, h);
    assert HandledAll(map[], [h, h]) == twice;
    var types := TypesOf(StreamOf(twice, ChatStreamId("b")));
    assert types == [SessionConnected, SessionConnected];
    assert ConnectedSince(types[..1], 0);
    assert !Allowed(EndsConnected(types[..1]), types[1]);
  }
}
