/** The in-memory event store: one global log and a per-stream index. */
module EventStore {
  import opened EventModel

  datatype AppendResult = Appended(event: DomainEvent) | AppendFailed(reason: string)
  datatype LoadResult = Loaded(events: seq<DomainEvent>) | LoadFailed(reason: string)

  type Streams = map<string, seq<DomainEvent>>

  /** A missing stream reads as empty. */
  function StreamOf(streams: Streams, streamId: string): seq<DomainEvent> {
    if streamId in streams then streams[streamId] else []
  }

  /** The events of one stream, in log order. */
  function Filtered(log: seq<DomainEvent>, streamId: string): seq<DomainEvent> {
    if log == [] then []
    else
      var last := log[|log| - 1];
      Filtered(log[..|log| - 1], streamId) + if last.streamId == streamId then [last] else []
  }

  predicate VersionsAscend(stream: seq<DomainEvent>) {
    forall i | 0 <= i < |stream| :: stream[i].version == i + 1
  }

  /** The index is the log, stream by stream, and every stream counts 1..n. */
  ghost predicate IndexRefinesLog(streams: Streams, log: seq<DomainEvent>) {
    forall s: string :: StreamOf(streams, s) == Filtered(log, s) && VersionsAscend(StreamOf(streams, s))
  }

  /** What the store fills in before it persists an event. */
  function Completed(event: DomainEvent, streams: Streams, now: Time, freshId: string): DomainEvent {
    event.(
      occurredAt := if event.occurredAt == ZERO_TIME then now else event.occurredAt,
      eventId := if event.eventId == "" then freshId else event.eventId,
      version := |StreamOf(streams, event.streamId)| + 1)
  }

  predicate Acceptable(event: DomainEvent) {
    event.streamId != "" && event.eventType != Named("")
  }

  lemma FilteredAfterAppend(log: seq<DomainEvent>, event: DomainEvent, s: string)
    ensures Filtered(log + [event], s) == Filtered(log, s) + if event.streamId == s then [event] else []
  {
    assert (log + [event])[..|log|] == log;
  }

  lemma AppendKeepsIndex(streams: Streams, log: seq<DomainEvent>, event: DomainEvent)
    requires IndexRefinesLog(streams, log)
    requires event.version == |StreamOf(streams, event.streamId)| + 1
    ensures IndexRefinesLog(streams[event.streamId := StreamOf(streams, event.streamId) + [event]], log + [event])
  {
    var after := streams[event.streamId := StreamOf(streams, event.streamId) + [event]];
    forall s: string
      ensures StreamOf(after, s) == Filtered(log + [event], s) && VersionsAscend(StreamOf(after, s))
    {
      FilteredAfterAppend(log, event, s);
      assert VersionsAscend(StreamOf(streams, s));
    }
  }

  /** The store's two fields, and a call of Append with what its context, clock and generator do. */
  datatype StoreState = StoreState(streams: Streams, log: seq<DomainEvent>)

  datatype Request = Request(cancelled: bool, event: DomainEvent, now: Time, freshId: string)

  /** What one append, accepted or refused, makes of the store. */
  function AppendStep(s: StoreState, r: Request): StoreState {
    if r.cancelled || !Acceptable(r.event) then s
    else
      var e := Completed(r.event, s.streams, r.now, r.freshId);
      StoreState(s.streams[e.streamId := StreamOf(s.streams, e.streamId) + [e]], s.log + [e])
  }

  class InMemoryEventStore {
    var streams: Streams
    var events: seq<DomainEvent>

    ghost predicate Valid()
      reads this
    {
      IndexRefinesLog(streams, events)
    }

    function State(): StoreState
      reads this
    {
      StoreState(streams, events)
    }

    constructor ()
      ensures Valid() && events == [] && streams == map[]
    {
      streams := map[];
      events := [];
    }

    /** `cancelled` is the state of the caller's context; `now` and `freshId` stand for the clock
        and the identifier generator. */
    method Append(cancelled: bool, event: DomainEvent, now: Time, freshId: string) returns (r: AppendResult)
      requires Valid()
      modifies this
      ensures Valid()
      ensures r.Appended? <==> !cancelled && event.streamId != "" && event.eventType != Named("")
      ensures r.Appended? ==>
        && r.event.version == |StreamOf(old(streams), event.streamId)| + 1
        && r.event.occurredAt == (if event.occurredAt == ZERO_TIME then now else event.occurredAt)
        && r.event.eventId == (if event.eventId == "" then freshId else event.eventId)
        && r.event.streamId == event.streamId && r.event.aggregateId == event.aggregateId
        && r.event.eventType == event.eventType && r.event.data == event.data
      ensures r.Appended? ==>
        && r.event == Completed(event, old(streams), now, freshId)
        && streams == old(streams)[event.streamId := StreamOf(old(streams), event.streamId) + [r.event]]
        && events == old(events) + [r.event]
      ensures r.AppendFailed? ==> streams == old(streams) && events == old(events)
      ensures State() == AppendStep(old(State()), Request(cancelled, event, now, freshId))
    {
      if cancelled {
        return AppendFailed("context cancelled");
      }
      if event.streamId == "" {
        return AppendFailed("empty stream id");
      }
      if event.eventType == Named("") {
        return AppendFailed("empty event type");
      }
      var e := event;
      if e.occurredAt == ZERO_TIME {
        e := e.(occurredAt := now);
      }
      if e.eventId == "" {
        e := e.(eventId := freshId);
      }
      e := e.(version := |StreamOf(streams, e.streamId)| + 1);
      AppendKeepsIndex(streams, events, e);
      streams := streams[e.streamId := StreamOf(streams, e.streamId) + [e]];
      events := events + [e];
      r := Appended(e);
    }

    method LoadStream(cancelled: bool, streamId: string) returns (r: LoadResult)
      requires Valid()
      ensures r.Loaded? <==> !cancelled
      ensures r.Loaded? ==> r.events == Filtered(events, streamId) && VersionsAscend(r.events)
      ensures r.Loaded? ==> r.events == StreamOf(streams, streamId)
    {
      assert StreamOf(streams, streamId) == Filtered(events, streamId);
      r := if cancelled then LoadFailed("context cancelled") else Loaded(StreamOf(streams, streamId));
    }

    /** The whole log; filtered by stream it gives every stream with its versions. */
    method LoadAll(cancelled: bool) returns (r: LoadResult)
      requires Valid()
      ensures r.Loaded? <==> !cancelled
      ensures r.Loaded? ==> r.events == events
      ensures r.Loaded? ==> forall s: string ::
        Filtered(r.events, s) == StreamOf(streams, s) && VersionsAscend(Filtered(r.events, s))
    {
      r := if cancelled then LoadFailed("context cancelled") else Loaded(events);
      assert forall s: string :: StreamOf(streams, s) == Filtered(events, s);
    }
  }

  // ----- Runs of appends from the empty store -----

  function AppendRun(s: StoreState, requests: seq<Request>): StoreState
    decreases |requests|
  {
    if requests == [] then s else AppendRun(AppendStep(s, requests[0]), requests[1..])
  }

  /** In every store reachable from the empty one the index refines the log. */
  lemma {:induction false} ReachableIndexRefinesLog(s: StoreState, requests: seq<Request>)
    requires IndexRefinesLog(s.streams, s.log)
    ensures var f := AppendRun(s, requests); IndexRefinesLog(f.streams, f.log)
    decreases |requests|
  {
    if requests != [] {
      var r := requests[0];
      if !r.cancelled && Acceptable(r.event) {
        AppendKeepsIndex(s.streams, s.log, Completed(r.event, s.streams, r.now, r.freshId));
      }
      ReachableIndexRefinesLog(AppendStep(s, r), requests[1..]);
    }
  }
}
