/** Whole-run properties of the heartbeat protocol: which peers it keeps, when the idle monitor
    can act at all, and how long a dead peer can stay registered. */
module HeartbeatSafety {
  import opened Connection
  import opened HeartbeatProtocol

  /** When the next ping is due, counting a tick that is already buffered. */
  function NextPing(s: State): int
    requires s.Live?
  {
    var tick := if s.tickBuffered then s.now else s.nextTick;
    match s.loop
    case AwaitTick => tick
    case AwaitPong(until) => Max(until, tick)
    case TimedOut => s.now
  }

  // ----- The idle monitor can act only if interval > timeout -----

  /** The next ping, which itself counts as activity, comes before the idle limit. */
  predicate PingBeatsMonitor(cfg: Config, s: State) {
    match s
    case Gone(_, cause) => cause != IdleMonitor
    case Live(now, conn, _, _, _, _, evicting, _) =>
      !evicting && conn.lastActiveAt <= now && NextPing(s) <= conn.lastActiveAt + cfg.timeout
  }

  lemma PingBeatsMonitorStep(cfg: Config, s: State, step: Step)
    requires cfg.Valid() && cfg.interval <= cfg.timeout
    requires Scheduled(cfg, s) && PingBeatsMonitor(cfg, s) && Enabled(cfg, s, step)
    ensures PingBeatsMonitor(cfg, Apply(cfg, s, step))
  {
  }

  lemma {:induction false} PingBeatsMonitorRun(cfg: Config, s: State, steps: seq<Step>)
    requires cfg.Valid() && cfg.interval <= cfg.timeout
    requires Scheduled(cfg, s) && PingBeatsMonitor(cfg, s) && ValidRun(cfg, s, steps)
    ensures PingBeatsMonitor(cfg, Final(cfg, s, steps))
    decreases steps
  {
    if steps != [] {
      ScheduledStep(cfg, s, steps[0]);
      PingBeatsMonitorStep(cfg, s, steps[0]);
      PingBeatsMonitorRun(cfg, Apply(cfg, s, steps[0]), steps[1..]);
    }
  }

  // ----- A peer that answers in time stays -----

  /** The pong due for the current or next ping arrives before the nonce check and before the
      read deadline. */
  predicate AnswersBeatChecks(cfg: Config, s: State) {
    match s
    case Gone(_, cause) => cause == PeerLeft
    case Live(now, conn, loop, _, _, _, _, readDeadline) =>
      && !loop.TimedOut?
      && (if conn.Outstanding()
          then loop.AwaitPong? && now < loop.until <= readDeadline
          else NextPing(s) + cfg.timeout <= readDeadline)
  }

  lemma AnswersBeatChecksStep(cfg: Config, s: State, step: Step)
    requires cfg.Valid() && cfg.interval <= cfg.timeout
    requires Scheduled(cfg, s) && PingBeatsMonitor(cfg, s) && AnswersBeatChecks(cfg, s)
    requires Enabled(cfg, s, step) && AnswersInTime(cfg, s, step)
    ensures AnswersBeatChecks(cfg, Apply(cfg, s, step))
  {
  }

  lemma {:induction false} AnswersBeatChecksRun(cfg: Config, s: State, steps: seq<Step>)
    requires cfg.Valid() && cfg.interval <= cfg.timeout
    requires Scheduled(cfg, s) && PingBeatsMonitor(cfg, s) && AnswersBeatChecks(cfg, s)
    requires ValidRun(cfg, s, steps) && AnsweringRun(cfg, s, steps)
    ensures AnswersBeatChecks(cfg, Final(cfg, s, steps))
    decreases steps
  {
    if steps != [] {
      ScheduledStep(cfg, s, steps[0]);
      PingBeatsMonitorStep(cfg, s, steps[0]);
      AnswersBeatChecksStep(cfg, s, steps[0]);
      AnswersBeatChecksRun(cfg, Apply(cfg, s, steps[0]), steps[1..]);
    }
  }

  /** No false eviction: with interval <= timeout, a peer that answers every ping strictly within
      the timeout is never removed by the server, and is never idle beyond the timeout. */
  lemma AnsweringPeerStays(cfg: Config, s: State, steps: seq<Step>)
    requires cfg.Valid() && cfg.interval <= cfg.timeout
    requires Initial(cfg, s) && ValidRun(cfg, s, steps) && AnsweringRun(cfg, s, steps)
    ensures !Evicted(Final(cfg, s, steps))
    ensures var f := Final(cfg, s, steps); f.Live? ==> !f.conn.IdleBeyond(cfg.timeout, f.now)
  {
    ScheduledRun(cfg, s, steps);
    PingBeatsMonitorRun(cfg, s, steps);
    AnswersBeatChecksRun(cfg, s, steps);
  }

  // ----- interval > timeout really does evict an answering peer -----

  /** From a quiet state the monitor's `scans`-th next scan falls on the first instant past the idle
      limit, before the first ping. */
  lemma {:induction false} QuietRunIntoMonitor(cfg: Config, s: State, scans: nat) returns (steps: seq<Step>)
    requires cfg.Valid() && s.Live? && s.loop == AwaitTick && !s.tickBuffered && !s.evicting && !s.conn.Outstanding()
    requires s.conn.lastActiveAt <= s.now <= s.nextMonitor
    requires s.nextMonitor + scans * cfg.MonitorPeriod() == s.conn.lastActiveAt + cfg.timeout + 1 <= s.nextTick
    requires s.readDeadline == s.conn.lastActiveAt + 2 * cfg.timeout
    ensures ValidRun(cfg, s, steps) && AnsweringRun(cfg, s, steps)
    ensures Final(cfg, s, steps) == Gone(s.conn.lastActiveAt + cfg.timeout + 1, IdleMonitor)
    decreases scans, s.nextMonitor - s.now
  {
    if s.now < s.nextMonitor {
      assert scans * cfg.MonitorPeriod() >= 0;
      var rest := QuietRunIntoMonitor(cfg, Apply(cfg, s, Advance), scans);
      steps := [Advance] + rest;
    } else if scans > 0 {
      assert scans * cfg.MonitorPeriod() == (scans - 1) * cfg.MonitorPeriod() + cfg.MonitorPeriod();
      assert (scans - 1) * cfg.MonitorPeriod() >= 0;
      var rest := QuietRunIntoMonitor(cfg, Apply(cfg, s, MonitorScans), scans - 1);
      steps := [MonitorScans] + rest;
    } else {
      steps := [MonitorScans, MonitorEvicts];
      assert steps[1..][1..] == [];
    }
  }

  /** With interval > timeout some run evicts a peer that has left no ping unanswered. */
  lemma LongIntervalEvicts(cfg: Config) returns (s: State, steps: seq<Step>)
    requires cfg.Valid() && cfg.interval > cfg.timeout
    ensures Initial(cfg, s) && ValidRun(cfg, s, steps) && AnsweringRun(cfg, s, steps)
    ensures Final(cfg, s, steps) == Gone(cfg.timeout + 1, IdleMonitor)
  {
    var period, limit := cfg.MonitorPeriod(), cfg.timeout + 1;
    s := Live(0, Admitted("", 0), AwaitTick, cfg.interval, false, limit % period, false, 2 * cfg.timeout);
    steps := QuietRunIntoMonitor(cfg, s, limit / period);
  }

  ghost predicate KeepsAnsweringPeers(cfg: Config) {
    forall s, steps | Initial(cfg, s) && ValidRun(cfg, s, steps) && AnsweringRun(cfg, s, steps) ::
      !Evicted(Final(cfg, s, steps))
  }

  ghost predicate MonitorNeverActs(cfg: Config) {
    forall s, steps | Initial(cfg, s) && ValidRun(cfg, s, steps) ::
      var f := Final(cfg, s, steps); !(f.Gone? && f.cause == IdleMonitor)
  }

  /** The guarantee to answering peers holds exactly when the ping interval does not exceed the timeout. */
  lemma KeepsAnsweringPeersIff(cfg: Config)
    requires cfg.Valid()
    ensures KeepsAnsweringPeers(cfg) <==> cfg.interval <= cfg.timeout
  {
    if cfg.interval <= cfg.timeout {
      forall s, steps | Initial(cfg, s) && ValidRun(cfg, s, steps) && AnsweringRun(cfg, s, steps)
        ensures !Evicted(Final(cfg, s, steps))
      {
        AnsweringPeerStays(cfg, s, steps);
      }
    } else {
      var s, steps := LongIntervalEvicts(cfg);
    }
  }

  /** The idle monitor ever removes anyone, answering or not, exactly when the interval exceeds the
      timeout: otherwise the server's own pings keep refreshing the activity time. */
  lemma MonitorNeverActsIff(cfg: Config)
    requires cfg.Valid()
    ensures MonitorNeverActs(cfg) <==> cfg.interval <= cfg.timeout
  {
    if cfg.interval <= cfg.timeout {
      forall s, steps | Initial(cfg, s) && ValidRun(cfg, s, steps)
        ensures PingBeatsMonitor(cfg, Final(cfg, s, steps))
      {
        PingBeatsMonitorRun(cfg, s, steps);
      }
    } else {
      var s, steps := LongIntervalEvicts(cfg);
    }
  }

  // ----- A dead peer is removed in bounded time -----

  /** The latest instant at which the nonce check removes a peer that stays silent from now on. */
  function RemovalDue(cfg: Config, s: State): int {
    match s
    case Gone(at, _) => at
    case Live(now, conn, loop, _, _, _, _, _) =>
      match loop {
        case AwaitTick => NextPing(s) + cfg.timeout
        case AwaitPong(until) => if conn.Outstanding() then until else NextPing(s) + cfg.timeout
        case TimedOut => now
      }
  }

  function InstantOf(s: State): int {
    if s.Live? then s.now else s.at
  }

  lemma RemovalDueStep(cfg: Config, s: State, step: Step)
    requires cfg.Valid() && Scheduled(cfg, s) && Enabled(cfg, s, step) && !IsMatchingPong(s, step)
    ensures InstantOf(Apply(cfg, s, step)) <= RemovalDue(cfg, Apply(cfg, s, step)) <= RemovalDue(cfg, s)
  {
  }

  lemma {:induction false} RemovalDueRun(cfg: Config, s: State, steps: seq<Step>)
    requires cfg.Valid() && Scheduled(cfg, s) && ValidRun(cfg, s, steps) && SilentRun(cfg, s, steps)
    ensures InstantOf(Final(cfg, s, steps)) <= RemovalDue(cfg, s)
    decreases steps
  {
    if steps != [] {
      ScheduledStep(cfg, s, steps[0]);
      RemovalDueStep(cfg, s, steps[0]);
      RemovalDueRun(cfg, Apply(cfg, s, steps[0]), steps[1..]);
    }
  }

  /** Dead-peer bound, for every interval and timeout: after an instant from which the peer sends
      no matching pong, the clock cannot pass timeout + max(interval, timeout) while the peer is
      registered, and its removal is no later either.  Other messages from the peer do not help it. */
  lemma DeadPeerIsRemoved(cfg: Config, s: State, before: seq<Step>, after: seq<Step>)
    requires cfg.Valid() && Initial(cfg, s) && ValidRun(cfg, s, before)
    requires var mid := Final(cfg, s, before);
      mid.Live? && ValidRun(cfg, mid, after) && SilentRun(cfg, mid, after)
    ensures var mid := Final(cfg, s, before);
      InstantOf(Final(cfg, mid, after)) <= mid.now + cfg.timeout + Max(cfg.interval, cfg.timeout)
  {
    ScheduledRun(cfg, s, before);
    RemovalDueRun(cfg, Final(cfg, s, before), after);
  }

  /** And it does go: however the peer's silence has gone so far, the server alone takes the connection to
      removal, no later than the bound. */
  lemma DeadPeerReachesRemoval(cfg: Config, s: State, before: seq<Step>, after: seq<Step>) returns (more: seq<Step>)
    requires cfg.Valid() && Initial(cfg, s) && ValidRun(cfg, s, before)
    requires var mid := Final(cfg, s, before);
      mid.Live? && ValidRun(cfg, mid, after) && SilentRun(cfg, mid, after)
    ensures var mid := Final(cfg, s, before);
      && ServerOnly(more) && ValidRun(cfg, mid, after + more)
      && Final(cfg, mid, after + more).Gone?
      && Final(cfg, mid, after + more).at <= mid.now + cfg.timeout + Max(cfg.interval, cfg.timeout)
  {
    var mid := Final(cfg, s, before);
    var end := Final(cfg, mid, after);
    var bound := mid.now + cfg.timeout + Max(cfg.interval, cfg.timeout);
    DeadPeerIsRemoved(cfg, s, before, after);
    more := [];
    if end.Live? {
      ScheduledRun(cfg, s, before);
      ScheduledRun(cfg, mid, after);
      more := TimePasses(cfg, end, bound + 1);
      ServerOnlyIsSilent(cfg, end, more);
    } else {
      assert after + more == after;
    }
    RunsJoin(cfg, mid, after, more);
    DeadPeerIsRemoved(cfg, s, before, after + more);
  }

  // ----- The bound is attained -----

  /** A state from which a chatty peer that never answers pings can wait until `t`. */
  predicate CanWait(cfg: Config, s: State, t: int) {
    && Scheduled(cfg, s) && s.Live? && !s.evicting && s.now <= t
    && match s.loop {
         case AwaitTick => !s.tickBuffered && t <= s.nextTick
         case AwaitPong(until) => t <= until
         case TimedOut => false
       }
  }

  lemma OneStep(cfg: Config, s: State, step: Step)
    requires Enabled(cfg, s, step)
    ensures ValidRun(cfg, s, [step]) && Final(cfg, s, [step]) == Apply(cfg, s, step)
    ensures !IsMatchingPong(s, step) ==> SilentRun(cfg, s, [step])
  {
    var next := Apply(cfg, s, step);
    assert [step][1..] == [];
    assert ValidRun(cfg, next, []) && Final(cfg, next, []) == next && SilentRun(cfg, next, []);
  }

  /** The run with one more step that is no matching pong. */
  lemma OneMore(cfg: Config, s: State, steps: seq<Step>, step: Step)
    requires ValidRun(cfg, s, steps) && SilentRun(cfg, s, steps)
    requires Enabled(cfg, Final(cfg, s, steps), step) && !IsMatchingPong(Final(cfg, s, steps), step)
    ensures ValidRun(cfg, s, steps + [step]) && SilentRun(cfg, s, steps + [step])
    ensures Final(cfg, s, steps + [step]) == Apply(cfg, Final(cfg, s, steps), step)
  {
    OneStep(cfg, Final(cfg, s, steps), step);
    RunsJoin(cfg, s, steps, [step]);
  }

  /** One unit of waiting: chat, serve what is due, let the clock move. */
  lemma WaitOnce(cfg: Config, s: State, t: int) returns (steps: seq<Step>)
    requires cfg.Valid() && CanWait(cfg, s, t) && s.now < t
    ensures ValidRun(cfg, s, steps) && SilentRun(cfg, s, steps)
    ensures var f := Final(cfg, s, steps);
      && CanWait(cfg, f, t) && f.now == s.now + 1 && f.loop == s.loop
      && f.conn.pingNonce == s.conn.pingNonce
      && (t <= s.nextTick ==> f.nextTick == s.nextTick && f.tickBuffered == s.tickBuffered)
  {
    steps := [PeerSends(Active)];
    OneStep(cfg, s, steps[0]);
    var f := Final(cfg, s, steps);
    if f.now >= f.nextTick {
      OneMore(cfg, s, steps, TickFires);
      steps, f := steps + [TickFires], Apply(cfg, f, TickFires);
    }
    if f.now >= f.nextMonitor {
      OneMore(cfg, s, steps, MonitorScans);
      steps, f := steps + [MonitorScans], Apply(cfg, f, MonitorScans);
    }
    OneMore(cfg, s, steps, Advance);
    steps := steps + [Advance];
    ScheduledRun(cfg, s, steps);
  }

  lemma {:induction false} WaitUntil(cfg: Config, s: State, t: int) returns (steps: seq<Step>)
    requires cfg.Valid() && CanWait(cfg, s, t)
    ensures ValidRun(cfg, s, steps) && SilentRun(cfg, s, steps)
    ensures var f := Final(cfg, s, steps);
      && CanWait(cfg, f, t) && f.now == t && f.loop == s.loop
      && f.conn.pingNonce == s.conn.pingNonce
      && (t <= s.nextTick ==> f.nextTick == s.nextTick && f.tickBuffered == s.tickBuffered)
    decreases t - s.now
  {
    if s.now == t {
      steps := [];
    } else {
      var once := WaitOnce(cfg, s, t);
      var rest := WaitUntil(cfg, Final(cfg, s, once), t);
      RunsJoin(cfg, s, once, rest);
      steps := once + rest;
    }
  }

  /** Serves the tick that is due now and sends the next ping. */
  lemma PingNow(cfg: Config, s: State) returns (steps: seq<Step>)
    requires cfg.Valid() && Scheduled(cfg, s) && s.Live? && s.loop == AwaitTick && !s.evicting
    requires s.tickBuffered || s.nextTick == s.now
    ensures ValidRun(cfg, s, steps) && SilentRun(cfg, s, steps)
    ensures var f := Final(cfg, s, steps);
      && Scheduled(cfg, f) && f.Live? && f.now == s.now && !f.evicting
      && f.loop == AwaitPong(s.now + cfg.timeout) && f.conn.pingNonce == "n"
      && (!s.tickBuffered ==> f.nextTick == s.now + cfg.interval && !f.tickBuffered)
  {
    var tick := if s.tickBuffered then [] else [TickFires];
    var s1 := Final(cfg, s, tick);
    assert [LoopReceives("n")][1..] == [];
    RunsJoin(cfg, s, tick, [LoopReceives("n")]);
    steps := tick + [LoopReceives("n")];
    ScheduledRun(cfg, s, steps);
  }

  /** The first ping, answered at once. */
  lemma FirstPingAnswered(cfg: Config) returns (s: State, steps: seq<Step>)
    requires cfg.Valid()
    ensures Initial(cfg, s) && ValidRun(cfg, s, steps)
    ensures var f := Final(cfg, s, steps);
      && Scheduled(cfg, f) && f.Live? && !f.evicting && f.now == cfg.interval
      && f.loop == AwaitPong(f.now + cfg.timeout) && !f.conn.Outstanding()
      && f.nextTick == f.now + cfg.interval && !f.tickBuffered
  {
    s := Live(0, Admitted("", 0), AwaitTick, cfg.interval, false, 0, false, 2 * cfg.timeout);
    var wait := WaitUntil(cfg, s, cfg.interval);
    var ping := PingNow(cfg, Final(cfg, s, wait));
    RunsJoin(cfg, s, wait, ping);
    var pong := [PeerSends(Pong("n"))];
    assert pong[1..] == [];
    RunsJoin(cfg, s, wait + ping, pong);
    steps := wait + ping + pong;
    ScheduledRun(cfg, s, steps);
  }

  /** For every configuration some dead peer is still registered when the bound is reached, so
      no smaller bound holds. */
  lemma DeadPeerBoundIsAttained(cfg: Config) returns (s: State, before: seq<Step>, after: seq<Step>)
    requires cfg.Valid()
    ensures Initial(cfg, s) && ValidRun(cfg, s, before)
    ensures var mid := Final(cfg, s, before);
      && mid.Live? && ValidRun(cfg, mid, after) && SilentRun(cfg, mid, after)
      && Final(cfg, mid, after).Live?
      && Final(cfg, mid, after).now == mid.now + cfg.timeout + Max(cfg.interval, cfg.timeout)
  {
    s, before := FirstPingAnswered(cfg);
    var mid := Final(cfg, s, before);
    after := WaitUntil(cfg, mid, mid.now + cfg.timeout);
    assert [LoopChecks][1..] == [];
    RunsJoin(cfg, mid, after, [LoopChecks]);
    after := after + [LoopChecks];
    ScheduledRun(cfg, mid, after);
    if cfg.interval > cfg.timeout {
      var idle := WaitUntil(cfg, Final(cfg, mid, after), mid.nextTick);
      RunsJoin(cfg, mid, after, idle);
      after := after + idle;
    }
    var ping := PingNow(cfg, Final(cfg, mid, after));
    RunsJoin(cfg, mid, after, ping);
    after := after + ping;
    var last := WaitUntil(cfg, Final(cfg, mid, after), Final(cfg, mid, after).now + cfg.timeout);
    RunsJoin(cfg, mid, after, last);
    after := after + last;
  }
}
