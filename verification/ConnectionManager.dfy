/** The connection manager: its tables are updated in place, connection by connection.  Each method
    does to the tables what the operation of the same name does in module Gateway. */
module ConnectionManager {
  import opened Connection
  import opened EventModel
  import opened EventStore
  import opened Gateway
  import opened IpCounts
  import opened SessionFolds
  import opened ChatProjection

  class ConnectionState {
    const remoteIP: string
    var lastActiveAt: Time
    var pingNonce: string
    var pingSentAt: Time

    constructor (remoteIP: string, now: Time)
      ensures Snapshot() == Admitted(remoteIP, now)
    {
      this.remoteIP, lastActiveAt, pingNonce, pingSentAt := remoteIP, now, "", 0;
    }

    function Snapshot(): Conn
      reads this
    {
      Conn(remoteIP, lastActiveAt, pingNonce, pingSentAt)
    }
  }

  /** The event types of every stream. */
  function TypesIn(streams: Streams): History {
    map s | s in streams :: TypesOf(streams[s])
  }

  /** Every session event of every stream decodes. */
  ghost predicate SessionsDecode(streams: Streams) {
    forall s, e | s in streams && e in streams[s] :: !Fails(e)
  }

  class WebsocketConnectionManager {
    var connections: map<Id, ConnectionState>
    var ipConnectionCount: Counts
    const eventStore: InMemoryEventStore
    const maxConnectionsPerIP: int
    const heartbeatTimeout: int

    /** Distinct connections have distinct state objects. */
    ghost predicate Valid()
      reads `connections, eventStore
    {
      && eventStore.Valid() && SessionsDecode(eventStore.streams)
      && forall a, b | a in connections && b in connections && a != b :: connections[a] != connections[b]
    }

    ghost function LiveConns(): Live
      reads `connections, connections.Values
    {
      map id | id in connections :: connections[id].Snapshot()
    }

    ghost function View(): Tables
      reads this, connections.Values, eventStore
    {
      Tables(LiveConns(), ipConnectionCount, TypesIn(eventStore.streams))
    }

    constructor (store: InMemoryEventStore, maxPerIP: int, timeout: int)
      requires store.Valid() && store.streams == map[]
      ensures Valid() && View() == Tables(map[], map[], map[])
      ensures eventStore == store && maxConnectionsPerIP == maxPerIP && heartbeatTimeout == timeout
    {
      connections, ipConnectionCount := map[], map[];
      eventStore, maxConnectionsPerIP, heartbeatTimeout := store, maxPerIP, timeout;
    }

    /** Appends to the connection's stream under a live context; time and event id are arbitrary. */
    method RecordEvent(id: Id, t: EventType)
      requires Valid() && t != Named("")
      modifies eventStore
      ensures Valid() && LiveConns() == old(LiveConns())
      ensures TypesIn(eventStore.streams) == Noted(old(TypesIn(eventStore.streams)), id, t)
    {
      var now: Time := *;
      var eventId: string := *;
      var e := NewDomainEvent(eventId, now, RecordStream(id), id, t, Decodable(id));
      ghost var before := eventStore.streams;
      var appended := eventStore.Append(false, e, now, eventId);
      var s := RecordStream(id);
      assert TypesOf(eventStore.streams[s]) == TypesOf(StreamOf(before, s)) + [t];
    }

    /** The check and the reservation, under the IP lock. */
    method ReserveSlot(ip: string) returns (reserved: bool)
      modifies this`ipConnectionCount
      ensures reserved <==> !AtLimit(maxConnectionsPerIP, old(ipConnectionCount), ip)
      ensures ipConnectionCount ==
        if reserved then Reserved(maxConnectionsPerIP, old(ipConnectionCount), ip) else old(ipConnectionCount)
    {
      if ip != "" && maxConnectionsPerIP > 0 {
        var current := CountOf(ipConnectionCount, ip);
        if current >= maxConnectionsPerIP {
          return false;
        }
        ipConnectionCount := ipConnectionCount[ip := current + 1];
      }
      reserved := true;
    }

    /** Registers a fresh state object, replacing one of the same identifier. */
    method Insert(id: Id, ip: string, now: Time)
      requires Valid()
      modifies this`connections
      ensures Valid() && LiveConns() == old(LiveConns())[id := Admitted(ip, now)]
    {
      var state := new ConnectionState(ip, now);
      connections := connections[id := state];
    }

    method Delete(ids: set<Id>)
      requires Valid()
      modifies this`connections
      ensures Valid() && connections == old(connections) - ids
      ensures LiveConns() == old(LiveConns()) - ids
    {
      connections := connections - ids;
    }

    method AddConnection(id: Id, ip: string, now: Time) returns (accepted: bool)
      requires Valid()
      modifies this, eventStore
      ensures Valid()
      ensures accepted <==> !AtLimit(maxConnectionsPerIP, old(ipConnectionCount), ip)
      ensures View() == Perform(maxConnectionsPerIP, old(View()), Add(id, ip, now))
    {
      accepted := ReserveSlot(ip);
      if accepted {
        Insert(id, ip, now);
        RecordEvent(id, SessionConnected);
        assert View() == Tables(old(LiveConns())[id := Admitted(ip, now)],
                                Reserved(maxConnectionsPerIP, old(ipConnectionCount), ip),
                                Noted(old(TypesIn(eventStore.streams)), id, SessionConnected));
      }
    }

    /** Gives a slot back, under the IP lock. */
    method ReleaseSlot(ip: string)
      modifies this`ipConnectionCount
      ensures ipConnectionCount == Released(old(ipConnectionCount), ip)
    {
      if ip != "" {
        var after := CountOf(ipConnectionCount, ip) - 1;
        ipConnectionCount := ipConnectionCount[ip := after];
        if after <= 0 {
          ipConnectionCount := ipConnectionCount - {ip};
        }
      }
    }

    method RemoveConnection(id: Id)
      requires Valid()
      modifies this, eventStore
      ensures Valid()
      ensures View() == Perform(maxConnectionsPerIP, old(View()), Remove(id))
    {
      if id in connections {
        ReleaseSlot(connections[id].remoteIP);
        Delete({id});
        RecordEvent(id, SessionDisconnected);
        assert View() == Tables(old(LiveConns()) - {id}, Released(old(ipConnectionCount), old(connections[id].remoteIP)),
                                Noted(old(TypesIn(eventStore.streams)), id, SessionDisconnected));
      }
    }

    /** One recipient of a broadcast: dropped if its write fails, and its event recorded either way. */
    method SendOrDrop(id: Id, fails: bool)
      requires Valid()
      modifies this`connections, eventStore
      ensures Valid() && View() == SentTo(old(View()), id, fails)
    {
      Delete(if fails then {id} else {});
      RecordEvent(id, MessageBroadcasted);
    }

    /** The table is visited in an arbitrary order; a connection whose write fails is dropped, and every
        visited connection gets its event. */
    method BroadcastMessage(failing: set<Id>)
      requires Valid()
      modifies this, eventStore
      ensures Valid()
      ensures View() == Perform(maxConnectionsPerIP, old(View()), Broadcast(failing))
    {
      ghost var start := View();
      var remaining := connections.Keys;
      ghost var visited: set<Id> := {};
      BroadcastStarts(start, failing);
      while remaining != {}
        invariant Valid() && remaining == start.live.Keys - visited && visited <= start.live.Keys
        invariant View() == Midway(start, visited, failing)
        decreases remaining
      {
        var id :| id in remaining;
        SendOrDrop(id, id in failing);
        BroadcastGoesOn(start, visited, failing, id);
        remaining, visited := remaining - {id}, visited + {id};
      }
      assert visited == start.live.Keys;
      BroadcastEnds(maxConnectionsPerIP, start, visited, failing);
    }

    method UpdateLastActive(id: Id, now: Time)
      requires Valid()
      modifies connections.Values
      ensures Valid() && unchanged(this)
      ensures LiveConns() == TouchedIn(old(LiveConns()), id, now)
      ensures View() == Perform(maxConnectionsPerIP, old(View()), Touch(id, now))
    {
      if id in connections {
        connections[id].lastActiveAt := now;
      }
    }

    /** `nonce` is the fresh random nonce, never empty; `written` says whether the write succeeded. */
    method SendPing(id: Id, nonce: string, now: Time, written: bool)
      requires Valid() && nonce != ""
      modifies connections.Values, eventStore
      ensures Valid() && unchanged(this)
      ensures View() == Perform(maxConnectionsPerIP, old(View()), Gateway.SendPing(id, nonce, now, written))
    {
      if id in connections {
        var state := connections[id];
        if state.pingNonce == "" {
          state.pingNonce, state.pingSentAt, state.lastActiveAt := nonce, now, now;
          if written {
            RecordEvent(id, PING_SENT);
          }
          assert LiveConns() == old(LiveConns())[id := old(LiveConns())[id].Pinged(nonce, now)];
        }
      }
    }

    /** The second half of a pong: a matching nonce, be it "" when none is outstanding, is cleared. */
    method ClearNonce(id: Id, nonce: string)
      requires Valid()
      modifies connections.Values
      ensures Valid() && unchanged(this)
      ensures LiveConns() == ClearedIn(old(LiveConns()), id, nonce)
    {
      if id in connections {
        var state := connections[id];
        if state.pingNonce == nonce {
          state.pingNonce := "";
        }
      }
    }

    method HandlePong(id: Id, nonce: string, now: Time)
      requires Valid()
      modifies connections.Values, eventStore
      ensures Valid() && unchanged(this)
      ensures View() == Perform(maxConnectionsPerIP, old(View()), Gateway.HandlePong(id, nonce, now))
    {
      UpdateLastActive(id, now);
      RecordEvent(id, PONG_RECEIVED);
      ClearNonce(id, nonce);
      PongInTwoHalves(old(LiveConns()), id, nonce, now);
    }

    method HandleHeartbeatTimeout(id: Id)
      requires Valid()
      modifies this, eventStore
      ensures Valid()
      ensures View() == Perform(maxConnectionsPerIP, old(View()), Timeout(id))
    {
      RecordEvent(id, HEARTBEAT_TIMEOUT);
      if id in connections {
        Delete({id});
      } else {
        assert LiveConns() - {id} == LiveConns();
      }
    }

    /** The connections for which an eviction is started: exactly those idle beyond the timeout. */
    method CheckHeartbeatTimeouts(now: Time) returns (expired: set<Id>)
      ensures forall id :: id in expired <==> id in LiveConns() && LiveConns()[id].IdleBeyond(heartbeatTimeout, now)
    {
      expired := {};
      var remaining := connections.Keys;
      while remaining != {}
        invariant remaining <= connections.Keys
        invariant forall id :: id in expired <==>
          id in connections && id !in remaining && LiveConns()[id].IdleBeyond(heartbeatTimeout, now)
        decreases remaining
      {
        var id :| id in remaining;
        if now - connections[id].lastActiveAt > heartbeatTimeout {
          expired := expired + {id};
        }
        remaining := remaining - {id};
      }
    }

    /** In a serial run, see LiveImpliesConnected, every registered connection's stream rebuilds
        without error to a connected session. */
    lemma LiveRebuildsConnected(stranded: set<Id>, id: Id)
      requires Valid() && ConnectedExactly(View(), stranded) && id in connections
      ensures var p := Resumed(ZERO, StreamOf(eventStore.streams, RecordStream(id)));
        p.Some? && p.value.tally.connected
    {
      assert id in View().live;
      assert Connected(View(), id);
      RebuildMeaning(StreamOf(eventStore.streams, RecordStream(id)));
    }
  }
}
