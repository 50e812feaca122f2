/** What each operation of the connection manager does to its tables and to the event streams,
    when operations run one after another. */
module Gateway {
  import opened Connection
  import opened EventModel
  import opened IpCounts
  import opened SessionFolds

  type Id = string
  type History = map<string, seq<EventType>>

  datatype Tables = Tables(live: Live, counts: Counts, history: History)

  datatype Operation =
    | Add(id: Id, ip: string, now: Time)
    | Remove(id: Id)
    | Broadcast(failing: set<Id>)                                   // connections whose write fails
    | Timeout(id: Id)
    | SendPing(id: Id, nonce: string, now: Time, written: bool)
    | HandlePong(id: Id, nonce: string, now: Time)
    | Touch(id: Id, now: Time)

  const PING_SENT := Named("heartbeat_ping_sent")
  const PONG_RECEIVED := Named("heartbeat_pong_received")

  function RecordStream(id: Id): string {
    if id == "" then "websocket" else ChatStreamId(id)
  }

  lemma RecordStreamInjective(a: Id, b: Id)
    ensures RecordStream(a) == RecordStream(b) <==> a == b
  {
    ChatStreamIdInjective(a, b);
    assert "websocket"[0] == 'w' && forall id :: ChatStreamId(id)[0] == 'c';
  }

  function HistoryOf(history: History, id: Id): seq<EventType> {
    if RecordStream(id) in history then history[RecordStream(id)] else []
  }

  function Noted(history: History, id: Id, t: EventType): History {
    history[RecordStream(id) := HistoryOf(history, id) + [t]]
  }

  /** One broadcast event for each of the given connections. */
  function BroadcastNoted(history: History, ids: set<Id>): History {
    var streams := set id | id in ids :: RecordStream(id);
    map s | s in history.Keys + streams ::
      if s in streams then (if s in history then history[s] else []) + [MessageBroadcasted] else history[s]
  }

  type Live = map<Id, Conn>

  function TouchedIn(live: Live, id: Id, now: Time): Live {
    if id in live then live[id := live[id].Touched(now)] else live
  }

  function ClearedIn(live: Live, id: Id, nonce: string): Live {
    if id in live && live[id].pingNonce == nonce then live[id := live[id].(pingNonce := "")] else live
  }

  function PongedIn(live: Live, id: Id, nonce: string, now: Time): Live {
    if id in live then live[id := live[id].Ponged(nonce, now)] else live
  }

  /** A pong is handled in two halves: activity first, the nonce later. */
  lemma PongInTwoHalves(live: Live, id: Id, nonce: string, now: Time)
    ensures ClearedIn(TouchedIn(live, id, now), id, nonce) == PongedIn(live, id, nonce, now)
  {
  }

  function Perform(max: int, t: Tables, op: Operation): Tables {
    match op
    case Add(id, ip, now) =>
      if AtLimit(max, t.counts, ip) then t
      else Tables(t.live[id := Admitted(ip, now)], Reserved(max, t.counts, ip), Noted(t.history, id, SessionConnected))
    case Remove(id) =>
      if id !in t.live then t
      else Tables(t.live - {id}, Released(t.counts, t.live[id].remoteIP), Noted(t.history, id, SessionDisconnected))
    case Broadcast(failing) =>
      t.(live := t.live - failing, history := BroadcastNoted(t.history, t.live.Keys))
    case Timeout(id) =>
      t.(live := t.live - {id}, history := Noted(t.history, id, HEARTBEAT_TIMEOUT))
    case SendPing(id, nonce, now, written) =>
      if id !in t.live || t.live[id].Outstanding() then t
      else t.(live := t.live[id := t.live[id].Pinged(nonce, now)],
              history := if written then Noted(t.history, id, PING_SENT) else t.history)
    case HandlePong(id, nonce, now) =>
      t.(live := PongedIn(t.live, id, nonce, now),
         history := Noted(t.history, id, PONG_RECEIVED))
    case Touch(id, now) => t.(live := TouchedIn(t.live, id, now))
  }

  lemma HistoryAfterNoted(history: History, id: Id, t: EventType, other: Id)
    ensures HistoryOf(Noted(history, id, t), other) ==
            if other == id then HistoryOf(history, other) + [t] else HistoryOf(history, other)
  {
    RecordStreamInjective(id, other);
  }

  lemma HistoryAfterBroadcast(history: History, ids: set<Id>, other: Id)
    ensures HistoryOf(BroadcastNoted(history, ids), other) ==
            if other in ids then HistoryOf(history, other) + [MessageBroadcasted] else HistoryOf(history, other)
  {
    forall id | id in ids
      ensures RecordStream(id) == RecordStream(other) <==> id == other
    {
      RecordStreamInjective(id, other);
    }
    var streams := set id | id in ids :: RecordStream(id);
    assert RecordStream(other) in streams <==> other in ids;
  }

  /** What each operation records in each stream: at most one event, and in no stream but its own
      connection's; a broadcast records one for every connection registered when it starts. */
  lemma EventsRecorded(max: int, t: Tables, op: Operation, id: Id)
    ensures HistoryOf(Perform(max, t, op).history, id) == HistoryOf(t.history, id) +
      match op {
        case Add(who, ip, _) =>
          if who == id && !(ip != "" && max > 0 && CountOf(t.counts, ip) >= max) then [SessionConnected] else []
        case Remove(who) => if who == id && id in t.live then [SessionDisconnected] else []
        case Broadcast(_) => if id in t.live then [MessageBroadcasted] else []
        case Timeout(who) => if who == id then [Named("heartbeat_timeout")] else []
        case SendPing(who, _, _, written) =>
          if who == id && id in t.live && t.live[id].pingNonce == "" && written then [Named("heartbeat_ping_sent")] else []
        case HandlePong(who, _, _) => if who == id then [Named("heartbeat_pong_received")] else []
        case Touch(_, _) => []
      }
  {
    match op
    case Add(who, _, _) => HistoryAfterNoted(t.history, who, SessionConnected, id);
    case Remove(who) => HistoryAfterNoted(t.history, who, SessionDisconnected, id);
    case Broadcast(_) => HistoryAfterBroadcast(t.history, t.live.Keys, id);
    case Timeout(who) => HistoryAfterNoted(t.history, who, HEARTBEAT_TIMEOUT, id);
    case SendPing(who, _, _, _) => HistoryAfterNoted(t.history, who, PING_SENT, id);
    case HandlePong(who, _, _) => HistoryAfterNoted(t.history, who, PONG_RECEIVED, id);
    case Touch(_, _) =>
  }

  /** A broadcast is one note per connection, in any order. */
  lemma BroadcastNotedOneMore(history: History, ids: set<Id>, id: Id)
    requires id !in ids
    ensures BroadcastNoted(history, ids + {id}) == Noted(BroadcastNoted(history, ids), id, MessageBroadcasted)
  {
    forall other | other in ids
      ensures RecordStream(other) != RecordStream(id)
    {
      RecordStreamInjective(other, id);
    }
    var more := set x | x in ids + {id} :: RecordStream(x);
    var streams := set x | x in ids :: RecordStream(x);
    assert more == streams + {RecordStream(id)};
  }

  /** A broadcast that has visited some of the connections. */
  function Midway(start: Tables, visited: set<Id>, failing: set<Id>): Tables {
    Tables(start.live - (visited * failing), start.counts, BroadcastNoted(start.history, visited))
  }

  /** What sending to one recipient does. */
  function SentTo(t: Tables, id: Id, fails: bool): Tables {
    Tables(t.live - if fails then {id} else {}, t.counts, Noted(t.history, id, MessageBroadcasted))
  }

  lemma BroadcastStarts(start: Tables, failing: set<Id>)
    ensures Midway(start, {}, failing) == start
  {
    assert start.live - ({} * failing) == start.live;
    assert BroadcastNoted(start.history, {}) == start.history;
  }

  lemma BroadcastGoesOn(start: Tables, visited: set<Id>, failing: set<Id>, id: Id)
    requires id !in visited
    ensures SentTo(Midway(start, visited, failing), id, id in failing) == Midway(start, visited + {id}, failing)
  {
    BroadcastNotedOneMore(start.history, visited, id);
    var one := if id in failing then {id} else {};
    assert (visited + {id}) * failing == visited * failing + one;
    assert start.live - (visited * failing) - one == start.live - (visited * failing + one);
  }

  lemma BroadcastEnds(max: int, start: Tables, visited: set<Id>, failing: set<Id>)
    requires visited == start.live.Keys
    ensures Midway(start, visited, failing) == Perform(max, start, Broadcast(failing))
  {
    assert start.live - (visited * failing) == start.live - failing;
  }

  // ----- Which sessions the streams call connected -----

  predicate Connected(t: Tables, id: Id) {
    TallyOf(HistoryOf(t.history, id)).connected
  }

  /** Connections that left the table without a disconnect event, and have not come back. */
  function StrandedAfter(max: int, t: Tables, stranded: set<Id>, op: Operation): set<Id> {
    match op
    case Add(id, ip, _) => if AtLimit(max, t.counts, ip) then stranded else stranded - {id}
    case Broadcast(failing) => stranded + (failing * t.live.Keys)
    case Timeout(id) => if id in t.live then stranded + {id} else stranded
    case _ => stranded
  }

  ghost predicate ConnectedExactly(t: Tables, stranded: set<Id>) {
    && t.live.Keys !! stranded
    && forall id :: Connected(t, id) <==> id in t.live || id in stranded
  }

  lemma NotedTally(history: History, id: Id, t: EventType, other: Id)
    ensures TallyOf(HistoryOf(Noted(history, id, t), other)) ==
            if other == id then Counted(TallyOf(HistoryOf(history, other)), t) else TallyOf(HistoryOf(history, other))
  {
    HistoryAfterNoted(history, id, t, other);
    TallyAfter(HistoryOf(history, id), t);
  }

  /** Only an accepted add and a removal of a registered connection change what a stream says. */
  lemma ConnectedAfter(max: int, t: Tables, op: Operation, other: Id)
    ensures Connected(Perform(max, t, op), other) ==
      match op {
        case Add(id, ip, _) => (id == other && !AtLimit(max, t.counts, ip)) || Connected(t, other)
        case Remove(id) => !(id == other && id in t.live) && Connected(t, other)
        case _ => Connected(t, other)
      }
  {
    match op
    case Add(id, _, _) => NotedTally(t.history, id, SessionConnected, other);
    case Remove(id) => NotedTally(t.history, id, SessionDisconnected, other);
    case Broadcast(_) =>
      HistoryAfterBroadcast(t.history, t.live.Keys, other);
      TallyAfter(HistoryOf(t.history, other), MessageBroadcasted);
    case Timeout(id) => NotedTally(t.history, id, HEARTBEAT_TIMEOUT, other);
    case SendPing(id, _, _, _) => NotedTally(t.history, id, PING_SENT, other);
    case HandlePong(id, _, _) => NotedTally(t.history, id, PONG_RECEIVED, other);
    case Touch(_, _) =>
  }

  lemma PerformKeepsConnected(max: int, t: Tables, stranded: set<Id>, op: Operation)
    requires ConnectedExactly(t, stranded)
    ensures ConnectedExactly(Perform(max, t, op), StrandedAfter(max, t, stranded, op))
  {
    var after := Perform(max, t, op);
    forall other: Id
      ensures Connected(after, other) <==> other in after.live || other in StrandedAfter(max, t, stranded, op)
    {
      ConnectedAfter(max, t, op, other);
    }
  }

  function PerformAll(max: int, t: Tables, ops: seq<Operation>): Tables
    decreases ops
  {
    if ops == [] then t else PerformAll(max, Perform(max, t, ops[0]), ops[1..])
  }

  function StrandedAll(max: int, t: Tables, stranded: set<Id>, ops: seq<Operation>): set<Id>
    decreases ops
  {
    if ops == [] then stranded
    else StrandedAll(max, Perform(max, t, ops[0]), StrandedAfter(max, t, stranded, ops[0]), ops[1..])
  }

  /** Live implies connected, and exactly what connected means: in every serial run the streams call a
      session connected precisely when its connection is registered, or was last evicted or dropped by
      a broadcast, departures that record no disconnect. */
  lemma {:induction false} LiveImpliesConnected(max: int, t: Tables, stranded: set<Id>, ops: seq<Operation>)
    requires ConnectedExactly(t, stranded)
    ensures ConnectedExactly(PerformAll(max, t, ops), StrandedAll(max, t, stranded, ops))
    decreases ops
  {
    if ops != [] {
      PerformKeepsConnected(max, t, stranded, ops[0]);
      LiveImpliesConnected(max, Perform(max, t, ops[0]), StrandedAfter(max, t, stranded, ops[0]), ops[1..]);
    }
  }

  /** The same from an empty server, where `stranded` is exactly what the run itself has stranded. */
  lemma ServerRunConnectsExactly(max: int, ops: seq<Operation>)
    ensures var start := Tables(map[], map[], map[]);
      ConnectedExactly(PerformAll(max, start, ops), StrandedAll(max, start, {}, ops))
  {
    LiveImpliesConnected(max, Tables(map[], map[], map[]), {}, ops);
  }

  /** An eviction leaves a session that is connected on record and registered nowhere, and the removal
      that its reader performs afterwards does not repair it. */
  lemma EvictionStrandsSession(max: int, id: Id, ip: string, now: Time)
    requires max > 0
    ensures var t := PerformAll(max, Tables(map[], map[], map[]), [Add(id, ip, now), Timeout(id), Remove(id)]);
      id !in t.live && Connected(t, id)
  {
    var start := Tables(map[], map[], map[]);
    var added := Perform(max, start, Add(id, ip, now));
    var timedOut := Perform(max, added, Timeout(id));
    ConnectedAfter(max, start, Add(id, ip, now), id);
    ConnectedAfter(max, added, Timeout(id), id);
    assert Perform(max, timedOut, Remove(id)) == timedOut;
    var ops := [Add(id, ip, now), Timeout(id), Remove(id)];
    assert ops[1..] == [Timeout(id), Remove(id)] && ops[1..][1..] == [Remove(id)] && ops[1..][1..][1..] == [];
    assert PerformAll(max, timedOut, [Remove(id)]) == timedOut;
    assert PerformAll(max, added, [Timeout(id), Remove(id)]) == timedOut;
  }
}
