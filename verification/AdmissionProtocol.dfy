/** Admission, removal and eviction of connections as an interleaving of critical sections.

    `Reserve` runs under the IP lock alone; `Insert`, `Drop` and both halves of a removal run under
    the manager lock, which a removal holds from its decrement to its delete.  A request is any
    call of AddConnection that has reserved but not yet inserted. */
module AdmissionProtocol {
  import opened Options
  import opened IpCounts

  type Id = string
  type Ip = string
  type Request = nat

  datatype State = State(
    live: map<Id, Ip>,              // registered connections and their addresses
    counts: Counts,
    pending: map<Request, Ip>,      // reserved, not yet inserted
    removing: Option<Id>,           // the removal that holds the manager lock
    leaked: map<Ip, int>            // history: entries that went away without a decrement
  )

  datatype Step =
    | Reserve(req: Request, ip: Ip)
    | Insert(req: Request, id: Id)
    | RemoveBegins(id: Id)
    | RemoveEnds
    | Drop(id: Id)                  // heartbeat eviction or failed broadcast

  const START := State(map[], map[], map[], None, map[])

  predicate Enabled(s: State, step: Step) {
    match step
    case Reserve(req, ip) => req !in s.pending
    case Insert(req, id) => req in s.pending && s.removing.None?
    case RemoveBegins(id) => id in s.live && s.removing.None?
    case RemoveEnds => s.removing.Some?
    case Drop(id) => id in s.live && s.removing.None?
  }

  predicate Accepts(max: int, s: State, ip: Ip) {
    !AtLimit(max, s.counts, ip)
  }

  function Apply(max: int, s: State, step: Step): State
    requires Enabled(s, step)
  {
    match step
    case Reserve(req, ip) =>
      if Accepts(max, s, ip)
      then s.(counts := Reserved(max, s.counts, ip), pending := s.pending[req := ip])
      else s
    case Insert(req, id) =>
      s.(live := s.live[id := s.pending[req]],
         pending := s.pending - {req},
         leaked := if id in s.live then Incremented(s.leaked, s.live[id]) else s.leaked)
    case RemoveBegins(id) => s.(counts := Released(s.counts, s.live[id]), removing := Some(id))
    case RemoveEnds => s.(live := s.live - {s.removing.value}, removing := None)
    case Drop(id) => s.(live := s.live - {id}, leaked := Incremented(s.leaked, s.live[id]))
  }

  predicate ValidRun(max: int, s: State, steps: seq<Step>)
    decreases steps
  {
    steps == [] || (Enabled(s, steps[0]) && ValidRun(max, Apply(max, s, steps[0]), steps[1..]))
  }

  function Final(max: int, s: State, steps: seq<Step>): State
    requires ValidRun(max, s, steps)
    decreases steps
  {
    if steps == [] then s else Final(max, Apply(max, s, steps[0]), steps[1..])
  }

  // ----- The accounting law -----

  /** The entry whose counter has been decremented but which is still in the table. */
  function InRemoval(s: State, ip: Ip): int {
    if s.removing.Some? && s.removing.value in s.live && s.live[s.removing.value] == ip then 1 else 0
  }

  ghost predicate Balanced(s: State, ip: Ip) {
    CountOf(s.counts, ip) + InRemoval(s, ip) ==
    Entries(s.live, ip) + Entries(s.pending, ip) + CountOf(s.leaked, ip)
  }

  ghost predicate Inv(max: int, s: State) {
    && (s.removing.Some? ==> s.removing.value in s.live)
    && (forall ip | ip in s.counts :: ip != "" && 1 <= s.counts[ip] <= max)
    && (forall ip | ip in s.leaked :: 0 < s.leaked[ip])
    && (forall ip: Ip | ip != "" :: Balanced(s, ip) && Entries(s.live, ip) <= max)
  }

  lemma StepKeepsBalance(max: int, s: State, step: Step, ip: Ip)
    requires max > 0 && ip != "" && Inv(max, s) && Enabled(s, step)
    ensures Balanced(Apply(max, s, step), ip) && Entries(Apply(max, s, step).live, ip) <= max
  {
    assert Balanced(s, ip);
    match step
    case Reserve(req, other) =>
      EntriesAfterPut(s.pending, req, other, ip);
    case Insert(req, id) =>
      EntriesAfterPut(s.live, id, s.pending[req], ip);
      EntriesAfterDelete(s.pending, req, ip);
      EntriesPositive(s.pending, req);
    case RemoveBegins(id) =>
      EntriesPositive(s.live, id);
      assert s.live[id] != "" ==> Balanced(s, s.live[id]);
    case RemoveEnds =>
      EntriesAfterDelete(s.live, s.removing.value, ip);
    case Drop(id) =>
      EntriesAfterDelete(s.live, id, ip);
  }

  lemma StepKeepsInv(max: int, s: State, step: Step)
    requires max > 0 && Inv(max, s) && Enabled(s, step)
    ensures Inv(max, Apply(max, s, step))
    ensures forall ip :: CountOf(s.leaked, ip) <= CountOf(Apply(max, s, step).leaked, ip)
  {
    forall ip: Ip | ip != ""
      ensures Balanced(Apply(max, s, step), ip) && Entries(Apply(max, s, step).live, ip) <= max
    {
      StepKeepsBalance(max, s, step, ip);
    }
  }

  lemma {:induction false} RunKeepsInv(max: int, s: State, steps: seq<Step>)
    requires max > 0 && Inv(max, s) && ValidRun(max, s, steps)
    ensures Inv(max, Final(max, s, steps))
    ensures forall ip :: CountOf(s.leaked, ip) <= CountOf(Final(max, s, steps).leaked, ip)
    decreases steps
  {
    if steps != [] {
      StepKeepsInv(max, s, steps[0]);
      RunKeepsInv(max, Apply(max, s, steps[0]), steps[1..]);
    }
  }

  lemma StartInv(max: int)
    requires max > 0
    ensures Inv(max, START)
  {
  }

  // ----- The cap under every interleaving -----

  /** In every reachable state each address has at most `max` registered connections, stored counters
      lie in 1..max, and, while no removal is half done, a counter is exactly the registered plus
      reserved plus leaked connections of its address. */
  lemma CapUnderInterleaving(max: int, steps: seq<Step>, ip: Ip)
    requires max > 0 && ip != "" && ValidRun(max, START, steps)
    ensures var s := Final(max, START, steps);
      && Entries(s.live, ip) <= max
      && (ip in s.counts ==> 1 <= s.counts[ip] <= max)
      && 0 <= CountOf(s.leaked, ip)
      && (s.removing.None? ==>
            CountOf(s.counts, ip) == Entries(s.live, ip) + Entries(s.pending, ip) + CountOf(s.leaked, ip))
  {
    StartInv(max);
    RunKeepsInv(max, START, steps);
    assert Balanced(Final(max, START, steps), ip);
  }

  /** A step that discards a registered entry without decrementing its counter. */
  predicate Leaks(s: State, step: Step) {
    step.Drop? || (step.Insert? && step.id in s.live)
  }

  predicate LeakFree(max: int, s: State, steps: seq<Step>)
    requires ValidRun(max, s, steps)
    decreases steps
  {
    steps == [] || (!Leaks(s, steps[0]) && LeakFree(max, Apply(max, s, steps[0]), steps[1..]))
  }

  lemma {:induction false} LeakFreeKeepsLeaked(max: int, s: State, steps: seq<Step>)
    requires ValidRun(max, s, steps) && LeakFree(max, s, steps)
    ensures Final(max, s, steps).leaked == s.leaked
    decreases steps
  {
    if steps != [] {
      LeakFreeKeepsLeaked(max, Apply(max, s, steps[0]), steps[1..]);
    }
  }

  /** Without overwrites, evictions and failed broadcasts the counters are exact. */
  lemma ExactWithoutLeaks(max: int, steps: seq<Step>, ip: Ip)
    requires max > 0 && ip != "" && ValidRun(max, START, steps) && LeakFree(max, START, steps)
    ensures var s := Final(max, START, steps);
      s.removing.None? ==> CountOf(s.counts, ip) == Entries(s.live, ip) + Entries(s.pending, ip)
  {
    CapUnderInterleaving(max, steps, ip);
    LeakFreeKeepsLeaked(max, START, steps);
  }

  /** Without a positive limit nothing is ever counted and nobody is ever refused. */
  lemma {:induction false} UncappedNeverRefuses(max: int, s: State, steps: seq<Step>, ip: Ip)
    requires max <= 0 && s.counts == map[] && ValidRun(max, s, steps)
    ensures Final(max, s, steps).counts == map[] && Accepts(max, Final(max, s, steps), ip)
    decreases steps
  {
    if steps != [] {
      assert Apply(max, s, steps[0]).counts == map[];
      UncappedNeverRefuses(max, Apply(max, s, steps[0]), steps[1..], ip);
    }
  }

  // ----- Leaks lock an address out for good -----

  /** Some continuation admits a connection from `ip`. */
  ghost predicate CanAdmitLater(max: int, s: State, ip: Ip) {
    exists steps :: ValidRun(max, s, steps) && Accepts(max, Final(max, s, steps), ip)
  }

  /** What is left to tidy up: pending requests weigh more than the connections they become. */
  function Unfinished(s: State): nat {
    4 * |s.pending| + 2 * |s.live| + (if s.removing.Some? then 0 else 1)
  }

  /** The next tidying step: finish the removal, else start one, else complete a request. */
  lemma TidyingStep(max: int, s: State) returns (step: Step)
    requires Inv(max, s)
    requires s.removing.Some? || s.live != map[] || s.pending != map[]
    ensures Enabled(s, step) && !Leaks(s, step)
    ensures Unfinished(Apply(max, s, step)) < Unfinished(s)
  {
    if s.removing.Some? {
      step := RemoveEnds;
      assert (s.live - {s.removing.value}).Keys == s.live.Keys - {s.removing.value};
    } else if s.live != map[] {
      var id :| id in s.live;
      step := RemoveBegins(id);
    } else {
      var req :| req in s.pending;
      step := Insert(req, "x");
      assert (s.pending - {req}).Keys == s.pending.Keys - {req};
      assert Apply(max, s, step).live.Keys == {"x"};
    }
  }

  /** Removes every registered connection and completes and removes every pending one, without a leak. */
  lemma {:induction false} Drain(max: int, s: State) returns (steps: seq<Step>)
    requires max > 0 && Inv(max, s)
    ensures ValidRun(max, s, steps)
    ensures var f := Final(max, s, steps);
      f.removing.None? && f.live == map[] && f.pending == map[] && f.leaked == s.leaked
    decreases Unfinished(s)
  {
    if s.removing.Some? || s.live != map[] || s.pending != map[] {
      var step := TidyingStep(max, s);
      StepKeepsInv(max, s, step);
      var rest := Drain(max, Apply(max, s, step));
      steps := [step] + rest;
    } else {
      steps := [];
    }
  }

  /** An address can be admitted again, now or ever, exactly when fewer than `max` of its entries have
      leaked; after the last leak every later request from it is refused in every continuation. */
  lemma CanAdmitLaterIff(max: int, s: State, ip: Ip)
    requires max > 0 && ip != "" && Inv(max, s)
    ensures CanAdmitLater(max, s, ip) <==> CountOf(s.leaked, ip) < max
  {
    if CountOf(s.leaked, ip) < max {
      var steps := Drain(max, s);
      RunKeepsInv(max, s, steps);
      var f := Final(max, s, steps);
      assert Balanced(f, ip);
      assert KeysWith(f.live, ip) == {} && KeysWith(f.pending, ip) == {};
    }
    forall steps | ValidRun(max, s, steps) && CountOf(s.leaked, ip) >= max
      ensures !Accepts(max, Final(max, s, steps), ip)
    {
      RunKeepsInv(max, s, steps);
      var f := Final(max, s, steps);
      assert Balanced(f, ip);
      if InRemoval(f, ip) == 1 {
        EntriesPositive(f.live, f.removing.value);
      }
    }
  }
}
