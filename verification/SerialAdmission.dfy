/** The connection manager's operations, run one after another, are runs of the admission protocol;
    so whatever every interleaving keeps, they keep. */
module SerialAdmission {
  import opened Connection
  import opened Gateway
  import opened IpCounts
  import opened Options
  import Protocol = AdmissionProtocol

  function Addresses(live: Live): map<Id, string> {
    map id | id in live :: live[id].remoteIP
  }

  /** The protocol state of the tables between two operations. */
  predicate Matches(t: Tables, s: Protocol.State) {
    s.live == Addresses(t.live) && s.counts == t.counts && s.pending == map[] && s.removing == None
  }

  lemma {:induction false} RunsJoin(max: int, s: Protocol.State, first: seq<Protocol.Step>, second: seq<Protocol.Step>)
    requires Protocol.ValidRun(max, s, first) && Protocol.ValidRun(max, Protocol.Final(max, s, first), second)
    ensures Protocol.ValidRun(max, s, first + second)
    ensures Protocol.Final(max, s, first + second) == Protocol.Final(max, Protocol.Final(max, s, first), second)
    decreases first
  {
    if first == [] {
      assert first + second == second;
    } else {
      RunsJoin(max, Protocol.Apply(max, s, first[0]), first[1..], second);
      assert (first + second)[1..] == first[1..] + second;
    }
  }

  lemma TwoSteps(max: int, s: Protocol.State, a: Protocol.Step, b: Protocol.Step)
    requires Protocol.Enabled(s, a) && Protocol.Enabled(Protocol.Apply(max, s, a), b)
    ensures Protocol.ValidRun(max, s, [a, b])
    ensures Protocol.Final(max, s, [a, b]) == Protocol.Apply(max, Protocol.Apply(max, s, a), b)
  {
    var mid := Protocol.Apply(max, s, a);
    assert [a, b][1..] == [b] && [b][1..] == [];
    assert Protocol.ValidRun(max, mid, [b]) && Protocol.Final(max, mid, [b]) == Protocol.Apply(max, mid, b);
  }

  lemma AddIsRun(max: int, t: Tables, s: Protocol.State, op: Operation) returns (steps: seq<Protocol.Step>)
    requires Matches(t, s) && op.Add?
    ensures Protocol.ValidRun(max, s, steps)
    ensures Matches(Perform(max, t, op), Protocol.Final(max, s, steps))
  {
    steps := [];
    if !AtLimit(max, t.counts, op.ip) {
      steps := [Protocol.Reserve(0, op.ip), Protocol.Insert(0, op.id)];
      TwoSteps(max, s, steps[0], steps[1]);
      assert Addresses(t.live[op.id := Admitted(op.ip, op.now)]) == s.live[op.id := op.ip];
    }
  }

  lemma RemoveIsRun(max: int, t: Tables, s: Protocol.State, op: Operation) returns (steps: seq<Protocol.Step>)
    requires Matches(t, s) && op.Remove?
    ensures Protocol.ValidRun(max, s, steps)
    ensures Matches(Perform(max, t, op), Protocol.Final(max, s, steps))
  {
    steps := [];
    if op.id in t.live {
      steps := [Protocol.RemoveBegins(op.id), Protocol.RemoveEnds];
      TwoSteps(max, s, steps[0], steps[1]);
      assert Addresses(t.live - {op.id}) == s.live - {op.id};
    }
  }

  lemma {:induction false} DropAll(max: int, t: Tables, s: Protocol.State, failing: set<Id>)
    returns (steps: seq<Protocol.Step>)
    requires Matches(t, s)
    ensures Protocol.ValidRun(max, s, steps)
    ensures Matches(t.(live := t.live - failing), Protocol.Final(max, s, steps))
    decreases failing
  {
    if id :| id in failing {
      var rest := failing - {id};
      if id in t.live {
        var dropped := t.(live := t.live - {id});
        var first := Protocol.Drop(id);
        var more := DropAll(max, dropped, Protocol.Apply(max, s, first), rest);
        assert t.live - failing == dropped.live - rest;
        steps := [first] + more;
      } else {
        steps := DropAll(max, t, s, rest);
        assert t.live - failing == t.live - rest;
      }
    } else {
      steps := [];
      assert t.live - failing == t.live;
    }
  }

  /** Every operation of the manager is a run of the protocol. */
  lemma PerformIsRun(max: int, t: Tables, s: Protocol.State, op: Operation) returns (steps: seq<Protocol.Step>)
    requires Matches(t, s)
    ensures Protocol.ValidRun(max, s, steps)
    ensures Matches(Perform(max, t, op), Protocol.Final(max, s, steps))
  {
    var after := Perform(max, t, op);
    steps := [];
    match op
    case Add(_, _, _) =>
      steps := AddIsRun(max, t, s, op);
    case Remove(_) =>
      steps := RemoveIsRun(max, t, s, op);
    case Broadcast(failing) =>
      steps := DropAll(max, t, s, failing);
    case Timeout(id) =>
      steps := DropAll(max, t, s, {id});
    case SendPing(id, _, _, _) =>
      assert Addresses(after.live) == Addresses(t.live);
    case HandlePong(id, _, _) =>
      assert Addresses(after.live) == Addresses(t.live);
    case Touch(id, _) =>
      assert Addresses(after.live) == Addresses(t.live);
  }

  lemma {:induction false} PerformAllIsRun(max: int, t: Tables, s: Protocol.State, ops: seq<Operation>)
    returns (steps: seq<Protocol.Step>)
    requires Matches(t, s)
    ensures Protocol.ValidRun(max, s, steps)
    ensures Matches(PerformAll(max, t, ops), Protocol.Final(max, s, steps))
    decreases ops
  {
    if ops == [] {
      steps := [];
    } else {
      var first := PerformIsRun(max, t, s, ops[0]);
      var rest := PerformAllIsRun(max, Perform(max, t, ops[0]), Protocol.Final(max, s, first), ops[1..]);
      RunsJoin(max, s, first, rest);
      steps := first + rest;
    }
  }

  /** In every serial run of the manager, and for every known address: never more than `max` registered
      connections, and a stored counter that lies between their number and `max`. */
  lemma SerialCap(max: int, ops: seq<Operation>, ip: string)
    requires max > 0 && ip != ""
    ensures var t := PerformAll(max, Tables(map[], map[], map[]), ops);
      && Entries(Addresses(t.live), ip) <= CountOf(t.counts, ip) <= max
      && (ip in t.counts ==> t.counts[ip] >= 1)
  {
    var steps := PerformAllIsRun(max, Tables(map[], map[], map[]), Protocol.START, ops);
    Protocol.CapUnderInterleaving(max, steps, ip);
  }
}
