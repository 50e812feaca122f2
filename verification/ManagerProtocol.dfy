/** The connection manager runs the heartbeat protocol: between the manager's operations on one connection,
    however those on others are interleaved, its record is the connection's record in the timed model. */
module ManagerProtocol {
  import opened Connection
  import opened Gateway
  import opened IpCounts
  import Protocol = HeartbeatProtocol
  import Safety = HeartbeatSafety

  // ----- One connection's record -----

  /** A pong with the nonce of the ping clears it and counts as activity. */
  lemma PongAnswersPing(max: int, t: Tables, id: Id, nonce: string, sent: int, written: bool, now: int)
    requires id in t.live && t.live[id].pingNonce == "" && nonce != ""
    ensures var after := PerformAll(max, t, [SendPing(id, nonce, sent, written), HandlePong(id, nonce, now)]);
      && id in after.live && after.live[id].pingNonce == "" && after.live[id].lastActiveAt == now
      && after.live[id].pingSentAt == sent && after.live[id].remoteIP == t.live[id].remoteIP
  {
    TwoOperations(max, t, SendPing(id, nonce, sent, written), HandlePong(id, nonce, now));
  }

  /** A pong with another nonce counts as activity and leaves the ping outstanding; so does a second ping. */
  lemma WrongPongKeepsPing(max: int, t: Tables, id: Id, nonce: string, other: string, sent: int, written: bool, now: int)
    requires id in t.live && t.live[id].pingNonce == "" && nonce != "" && other != nonce
    ensures var after := PerformAll(max, t, [SendPing(id, nonce, sent, written), HandlePong(id, other, now)]);
      id in after.live && after.live[id].pingNonce == nonce && after.live[id].lastActiveAt == now
    ensures var again := PerformAll(max, t, [SendPing(id, nonce, sent, written), SendPing(id, other, now, written)]);
      id in again.live && again.live[id].pingNonce == nonce && again.live[id].lastActiveAt == sent
  {
    TwoOperations(max, t, SendPing(id, nonce, sent, written), HandlePong(id, other, now));
    TwoOperations(max, t, SendPing(id, nonce, sent, written), SendPing(id, other, now, written));
  }

  lemma TwoOperations(max: int, t: Tables, a: Operation, b: Operation)
    ensures PerformAll(max, t, [a, b]) == Perform(max, Perform(max, t, a), b)
  {
    assert [a, b][1..] == [b] && [b][1..] == [];
    assert PerformAll(max, Perform(max, t, a), [b]) == Perform(max, Perform(max, t, a), b);
  }

  // ----- The simulation -----

  /** The table holds exactly the protocol's record of the connection, or nothing once it is gone. */
  predicate Follows(t: Tables, id: Id, s: Protocol.State) {
    if s.Live? then id in t.live && t.live[id] == s.conn else id !in t.live
  }

  /** The manager's part in a step of the protocol. */
  function OperationsFor(id: Id, s: Protocol.State, step: Protocol.Step): seq<Operation> {
    if s.Gone? then [] else
    match step
    case Advance => []
    case TickFires => []
    case LoopReceives(nonce) => [SendPing(id, nonce, s.now, true)]
    case LoopChecks => []
    case LoopEvicts => [Timeout(id)]
    case MonitorScans => []
    case MonitorEvicts => [Timeout(id)]
    case PeerSends(msg) =>
      (match msg
       case Pong(nonce) => [HandlePong(id, nonce, s.now)]
       case Active => [Touch(id, s.now)]
       case Ignored => [])
    case ReadTimesOut => [Remove(id)]
    case PeerLeaves => [Remove(id)]
  }

  /** An operation on other connections; a broadcast spares those it can write to. */
  predicate Spares(op: Operation, id: Id) {
    match op
    case Broadcast(failing) => id !in failing
    case _ => op.id != id
  }

  lemma AdmissionStarts(cfg: Protocol.Config, s: Protocol.State, max: int, t: Tables, id: Id)
    requires Protocol.Initial(cfg, s) && !AtLimit(max, t.counts, s.conn.remoteIP)
    ensures Follows(Perform(max, t, Add(id, s.conn.remoteIP, s.now)), id, s)
  {
  }

  lemma OneOperation(max: int, t: Tables, op: Operation)
    ensures PerformAll(max, t, [op]) == Perform(max, t, op)
  {
    assert [op][1..] == [];
  }

  lemma StepIsFollowed(cfg: Protocol.Config, max: int, t: Tables, id: Id, s: Protocol.State, step: Protocol.Step)
    requires Follows(t, id, s) && Protocol.Enabled(cfg, s, step)
    ensures Follows(PerformAll(max, t, OperationsFor(id, s, step)), id, Protocol.Apply(cfg, s, step))
  {
    var ops := OperationsFor(id, s, step);
    if ops != [] {
      OneOperation(max, t, ops[0]);
      assert ops == [ops[0]];
    }
  }

  lemma OthersAreSpared(max: int, t: Tables, id: Id, s: Protocol.State, op: Operation)
    requires Follows(t, id, s) && Spares(op, id)
    ensures Follows(Perform(max, t, op), id, s)
  {
  }

  // ----- Whole runs -----

  /** What happens at the gateway, seen from one connection. */
  datatype Action = Mine(step: Protocol.Step) | Others(op: Operation)

  function Steps(actions: seq<Action>): seq<Protocol.Step> {
    if actions == [] then []
    else if actions[0].Mine? then [actions[0].step] + Steps(actions[1..])
    else Steps(actions[1..])
  }

  predicate OthersSpare(actions: seq<Action>, id: Id) {
    forall a | a in actions && a.Others? :: Spares(a.op, id)
  }

  /** Every operation of the run, in order. */
  function Operations(cfg: Protocol.Config, id: Id, s: Protocol.State, actions: seq<Action>): seq<Operation>
    requires Protocol.ValidRun(cfg, s, Steps(actions))
    decreases actions
  {
    if actions == [] then []
    else match actions[0]
      case Mine(step) =>
        FirstStep(actions);
        OperationsFor(id, s, step) + Operations(cfg, id, Protocol.Apply(cfg, s, step), actions[1..])
      case Others(op) => [op] + Operations(cfg, id, s, actions[1..])
  }

  lemma FirstStep(actions: seq<Action>)
    requires actions != [] && actions[0].Mine?
    ensures Steps(actions) != [] && Steps(actions)[0] == actions[0].step && Steps(actions)[1..] == Steps(actions[1..])
  {
  }

  lemma {:induction false} OperationsJoin(max: int, t: Tables, first: seq<Operation>, second: seq<Operation>)
    ensures PerformAll(max, t, first + second) == PerformAll(max, PerformAll(max, t, first), second)
    decreases first
  {
    if first == [] {
      assert first + second == second;
    } else {
      assert (first + second)[1..] == first[1..] + second;
      OperationsJoin(max, Perform(max, t, first[0]), first[1..], second);
    }
  }

  /** Through every run the table follows the protocol. */
  lemma {:induction false} RunIsFollowed(cfg: Protocol.Config, max: int, t: Tables, id: Id, s: Protocol.State,
                                         actions: seq<Action>)
    requires Follows(t, id, s) && OthersSpare(actions, id) && Protocol.ValidRun(cfg, s, Steps(actions))
    ensures Follows(PerformAll(max, t, Operations(cfg, id, s, actions)), id, Protocol.Final(cfg, s, Steps(actions)))
    decreases actions
  {
    if actions != [] {
      var a, rest := actions[0], actions[1..];
      assert a in actions && forall x | x in rest :: x in actions;
      if a.Mine? {
        FirstStep(actions);
        var ops, next := OperationsFor(id, s, a.step), Protocol.Apply(cfg, s, a.step);
        StepIsFollowed(cfg, max, t, id, s, a.step);
        RunIsFollowed(cfg, max, PerformAll(max, t, ops), id, next, rest);
        OperationsJoin(max, t, ops, Operations(cfg, id, next, rest));
      } else {
        OthersAreSpared(max, t, id, s, a.op);
        RunIsFollowed(cfg, max, Perform(max, t, a.op), id, s, rest);
        OneOperation(max, t, a.op);
        OperationsJoin(max, t, [a.op], Operations(cfg, id, s, rest));
      }
    }
  }

  /** At the manager: with interval <= timeout, an admitted peer that answers in time is registered until it
      leaves, whatever happens on other connections. */
  lemma AnsweringPeerIsRegistered(cfg: Protocol.Config, max: int, t: Tables, id: Id, s: Protocol.State, actions: seq<Action>)
    requires cfg.Valid() && cfg.interval <= cfg.timeout && Protocol.Initial(cfg, s)
    requires !AtLimit(max, t.counts, s.conn.remoteIP) && OthersSpare(actions, id)
    requires Protocol.ValidRun(cfg, s, Steps(actions)) && Protocol.AnsweringRun(cfg, s, Steps(actions))
    ensures var f := Protocol.Final(cfg, s, Steps(actions));
      var admitted := Perform(max, t, Add(id, s.conn.remoteIP, s.now));
      var after := PerformAll(max, admitted, Operations(cfg, id, s, actions));
      id in after.live || (f.Gone? && f.cause == Protocol.PeerLeft)
  {
    var admitted := Perform(max, t, Add(id, s.conn.remoteIP, s.now));
    AdmissionStarts(cfg, s, max, t, id);
    RunIsFollowed(cfg, max, admitted, id, s, actions);
    Safety.AnsweringPeerStays(cfg, s, Steps(actions));
  }

  /** At the manager: a peer that has been silent for the bound is registered no longer. */
  lemma DeadPeerIsUnregistered(cfg: Protocol.Config, max: int, t: Tables, id: Id, s: Protocol.State,
                               before: seq<Action>, after: seq<Action>)
    requires cfg.Valid() && Protocol.Initial(cfg, s) && !AtLimit(max, t.counts, s.conn.remoteIP)
    requires OthersSpare(before, id) && OthersSpare(after, id) && Protocol.ValidRun(cfg, s, Steps(before))
    requires var mid := Protocol.Final(cfg, s, Steps(before));
      mid.Live? && Protocol.ValidRun(cfg, mid, Steps(after)) && Protocol.SilentRun(cfg, mid, Steps(after))
    ensures var mid := Protocol.Final(cfg, s, Steps(before));
      var f := Protocol.Final(cfg, mid, Steps(after));
      var admitted := Perform(max, t, Add(id, s.conn.remoteIP, s.now));
      var ops := Operations(cfg, id, s, before) + Operations(cfg, id, mid, after);
      id in PerformAll(max, admitted, ops).live ==>
        f.Live? && f.now <= mid.now + cfg.timeout + Protocol.Max(cfg.interval, cfg.timeout)
  {
    var mid := Protocol.Final(cfg, s, Steps(before));
    var admitted := Perform(max, t, Add(id, s.conn.remoteIP, s.now));
    AdmissionStarts(cfg, s, max, t, id);
    RunIsFollowed(cfg, max, admitted, id, s, before);
    RunIsFollowed(cfg, max, PerformAll(max, admitted, Operations(cfg, id, s, before)), id, mid, after);
    OperationsJoin(max, admitted, Operations(cfg, id, s, before), Operations(cfg, id, mid, after));
    Safety.DeadPeerIsRemoved(cfg, s, Steps(before), Steps(after));
  }
}
