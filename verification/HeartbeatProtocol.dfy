/** The heartbeat protocol of one connection as a timed state machine.

    The clock is discrete.  Processing takes no time: the clock may not advance while a timer
    that has expired, a buffered tick or a pending eviction is still unserved.  Events that
    fall on the same instant happen in any order.  Connection identifiers are not reused. */
module HeartbeatProtocol {
  import opened Connection

  datatype Config = Config(interval: int, timeout: int) {
    /** Both tickers need a positive period; the monitor's period is half the interval. */
    predicate Valid() {
      2 <= interval && 1 <= timeout
    }

    function MonitorPeriod(): int {
      interval / 2
    }
  }

  /** Where the ping loop stands: waiting for a tick, waiting the full timeout after a ping,
      or about to evict. */
  datatype Loop = AwaitTick | AwaitPong(until: int) | TimedOut

  datatype Cause = NonceCheck | IdleMonitor | ReadDeadline | PeerLeft

  /** What the reader can receive: a pong, a message that counts as activity, or a frame that
      only restarts the read deadline. */
  datatype Message = Pong(nonce: string) | Active | Ignored

  datatype State =
    | Live(
        now: int,
        conn: Conn,
        loop: Loop,
        nextTick: int,
        tickBuffered: bool,
        nextMonitor: int,
        evicting: bool,      // the monitor has started an eviction goroutine
        readDeadline: int)
    | Gone(at: int, cause: Cause)

  datatype Step =
    | Advance
    | TickFires
    | LoopReceives(nonce: string)
    | LoopChecks
    | LoopEvicts
    | MonitorScans
    | MonitorEvicts
    | PeerSends(msg: Message)
    | ReadTimesOut
    | PeerLeaves

  predicate Initial(cfg: Config, s: State) {
    && s.Live?
    && s.conn == Admitted(s.conn.remoteIP, s.now)
    && s.loop == AwaitTick
    && s.nextTick == s.now + cfg.interval && !s.tickBuffered
    && s.now <= s.nextMonitor <= s.now + cfg.MonitorPeriod() && !s.evicting
    && s.readDeadline == s.now + 2 * cfg.timeout
  }

  /** The clock waits for everything that is due. */
  predicate NothingDue(s: State)
    requires s.Live?
  {
    && s.now < s.nextTick
    && s.now < s.nextMonitor
    && s.now < s.readDeadline
    && !s.evicting
    && match s.loop {
         case AwaitTick => !s.tickBuffered
         case AwaitPong(until) => s.now < until
         case TimedOut => false
       }
  }

  predicate Enabled(cfg: Config, s: State, step: Step) {
    match s
    case Gone(_, _) => step.Advance?
    case Live(now, conn, loop, nextTick, tickBuffered, nextMonitor, evicting, readDeadline) =>
      match step {
        case Advance => NothingDue(s)
        case TickFires => now >= nextTick
        case LoopReceives(nonce) => loop.AwaitTick? && tickBuffered && nonce != ""
        case LoopChecks => loop.AwaitPong? && now >= loop.until
        case LoopEvicts => loop.TimedOut?
        case MonitorScans => now >= nextMonitor
        case MonitorEvicts => evicting
        case PeerSends(_) => true
        case ReadTimesOut => now >= readDeadline
        case PeerLeaves => true
      }
  }

  function Apply(cfg: Config, s: State, step: Step): State
    requires Enabled(cfg, s, step)
  {
    if s.Gone? then s else
    match step
    case Advance => s.(now := s.now + 1)
    // A full channel drops the tick, so the buffer never holds more than one.
    case TickFires => s.(nextTick := s.nextTick + cfg.interval, tickBuffered := true)
    case LoopReceives(nonce) =>
      s.(tickBuffered := false, conn := s.conn.Pinged(nonce, s.now), loop := AwaitPong(s.now + cfg.timeout))
    case LoopChecks => s.(loop := if s.conn.Outstanding() then TimedOut else AwaitTick)
    case LoopEvicts => Gone(s.now, NonceCheck)
    case MonitorScans =>
      s.(nextMonitor := s.nextMonitor + cfg.MonitorPeriod(),
         evicting := s.evicting || s.conn.IdleBeyond(cfg.timeout, s.now))
    case MonitorEvicts => Gone(s.now, IdleMonitor)
    case PeerSends(msg) =>
      var read := s.(readDeadline := s.now + 2 * cfg.timeout);
      (match msg
       case Pong(nonce) => read.(conn := s.conn.Ponged(nonce, s.now))
       case Active => read.(conn := s.conn.Touched(s.now))
       case Ignored => read)
    case ReadTimesOut => Gone(s.now, ReadDeadline)
    case PeerLeaves => Gone(s.now, PeerLeft)
  }

  // ----- Runs -----

  predicate ValidRun(cfg: Config, s: State, steps: seq<Step>)
    decreases steps
  {
    steps == [] || (Enabled(cfg, s, steps[0]) && ValidRun(cfg, Apply(cfg, s, steps[0]), steps[1..]))
  }

  function Final(cfg: Config, s: State, steps: seq<Step>): State
    requires ValidRun(cfg, s, steps)
    decreases steps
  {
    if steps == [] then s else Final(cfg, Apply(cfg, s, steps[0]), steps[1..])
  }

  /** The peer never lets the clock reach a full timeout after an unanswered ping. */
  predicate AnswersInTime(cfg: Config, s: State, step: Step) {
    s.Live? && step.Advance? && s.conn.Outstanding() ==> s.now + 1 < s.conn.pingSentAt + cfg.timeout
  }

  predicate AnsweringRun(cfg: Config, s: State, steps: seq<Step>)
    requires ValidRun(cfg, s, steps)
    decreases steps
  {
    steps == [] ||
    (AnswersInTime(cfg, s, steps[0]) && AnsweringRun(cfg, Apply(cfg, s, steps[0]), steps[1..]))
  }

  /** A pong that clears an outstanding ping. */
  predicate IsMatchingPong(s: State, step: Step) {
    && s.Live? && step.PeerSends? && step.msg.Pong?
    && s.conn.Outstanding() && step.msg.nonce == s.conn.pingNonce
  }

  predicate SilentRun(cfg: Config, s: State, steps: seq<Step>)
    requires ValidRun(cfg, s, steps)
    decreases steps
  {
    steps == [] ||
    (!IsMatchingPong(s, steps[0]) && SilentRun(cfg, Apply(cfg, s, steps[0]), steps[1..]))
  }

  /** Removal by one of the three server-side checks. */
  predicate Evicted(s: State) {
    s.Gone? && s.cause != PeerLeft
  }

  function Max(a: int, b: int): int {
    if a < b then b else a
  }

  // ----- What every run keeps -----

  /** Ticks are never late, a loop that waits for a tick has no ping outstanding, and a loop that
      waits for a pong pinged exactly one timeout before `until`. */
  predicate Scheduled(cfg: Config, s: State) {
    s.Live? ==>
      && s.now <= s.nextTick <= s.now + cfg.interval
      && s.now <= s.nextMonitor && s.now <= s.readDeadline
      && match s.loop {
           case AwaitTick => !s.conn.Outstanding()
           case AwaitPong(until) =>
             && until - cfg.timeout <= s.now <= until
             && (s.tickBuffered || s.nextTick <= until - cfg.timeout + cfg.interval)
             && (s.conn.Outstanding() ==> s.conn.pingSentAt + cfg.timeout == until)
           case TimedOut => true
         }
  }

  lemma ScheduledStep(cfg: Config, s: State, step: Step)
    requires cfg.Valid() && Scheduled(cfg, s) && Enabled(cfg, s, step)
    ensures Scheduled(cfg, Apply(cfg, s, step))
  {
  }

  lemma {:induction false} ScheduledRun(cfg: Config, s: State, steps: seq<Step>)
    requires cfg.Valid() && Scheduled(cfg, s) && ValidRun(cfg, s, steps)
    ensures Scheduled(cfg, Final(cfg, s, steps))
    decreases steps
  {
    if steps != [] {
      ScheduledStep(cfg, s, steps[0]);
      ScheduledRun(cfg, Apply(cfg, s, steps[0]), steps[1..]);
    }
  }

  // ----- The clock can always move on -----

  /** A step that serves whatever is due, or the clock when nothing is. */
  function ServeOrAdvance(s: State): Step {
    if s.Gone? then Advance
    else if s.loop.TimedOut? then LoopEvicts
    else if s.evicting then MonitorEvicts
    else if s.now >= s.nextTick then TickFires
    else if s.loop.AwaitTick? && s.tickBuffered then LoopReceives("n")
    else if s.loop.AwaitPong? && s.now >= s.loop.until then LoopChecks
    else if s.now >= s.nextMonitor then MonitorScans
    else if s.now >= s.readDeadline then ReadTimesOut
    else Advance
  }

  /** In every state some server step or the clock can go. */
  lemma NoTimelock(cfg: Config, s: State)
    ensures Enabled(cfg, s, ServeOrAdvance(s))
  {
  }

  /** A run in which the peer does nothing. */
  predicate ServerOnly(steps: seq<Step>) {
    forall step | step in steps :: !step.PeerSends? && !step.PeerLeaves?
  }

  /** What is due at this instant, weighed so that serving one thing never makes as much due again. */
  function Due(s: State): nat {
    if s.Gone? then 0
    else
      (if s.now >= s.nextTick then 3 else 0) +
      (if s.now >= s.nextMonitor then 2 else 0) +
      (if s.evicting then 1 else 0) +
      (if s.now >= s.readDeadline then 1 else 0) +
      match s.loop {
        case AwaitTick => if s.tickBuffered then 1 else 0
        case AwaitPong(until) => if s.now >= until then 2 else 0
        case TimedOut => 1
      }
  }

  lemma ServingMakesProgress(cfg: Config, s: State)
    requires cfg.Valid() && Scheduled(cfg, s) && s.Live?
    ensures Enabled(cfg, s, ServeOrAdvance(s))
    ensures var next := Apply(cfg, s, ServeOrAdvance(s));
      next.Live? ==> next.now == s.now + 1 || (next.now == s.now && Due(next) < Due(s))
  {
    NoTimelock(cfg, s);
  }

  /** Time passes: without any help from the peer, every live state can be run on until the connection is
      gone or any later instant is reached. */
  lemma {:induction false} TimePasses(cfg: Config, s: State, t: int) returns (steps: seq<Step>)
    requires cfg.Valid() && Scheduled(cfg, s) && s.Live? && s.now <= t
    ensures ValidRun(cfg, s, steps) && ServerOnly(steps)
    ensures var f := Final(cfg, s, steps); f.Gone? || f.now == t
    decreases t - s.now, Due(s)
  {
    steps := [];
    if s.now < t {
      var step := ServeOrAdvance(s);
      ServingMakesProgress(cfg, s);
      ScheduledStep(cfg, s, step);
      var next := Apply(cfg, s, step);
      var rest := [];
      if next.Live? {
        rest := TimePasses(cfg, next, t);
      }
      steps := [step] + rest;
    }
  }

  lemma {:induction false} ServerOnlyIsSilent(cfg: Config, s: State, steps: seq<Step>)
    requires ValidRun(cfg, s, steps) && ServerOnly(steps)
    ensures SilentRun(cfg, s, steps)
    decreases steps
  {
    if steps != [] {
      assert steps[0] in steps;
      ServerOnlyIsSilent(cfg, Apply(cfg, s, steps[0]), steps[1..]);
    }
  }

  // ----- Joining runs -----

  lemma {:induction false} RunsJoin(cfg: Config, s: State, first: seq<Step>, second: seq<Step>)
    requires ValidRun(cfg, s, first) && ValidRun(cfg, Final(cfg, s, first), second)
    ensures ValidRun(cfg, s, first + second)
    ensures Final(cfg, s, first + second) == Final(cfg, Final(cfg, s, first), second)
    ensures SilentRun(cfg, s, first) && SilentRun(cfg, Final(cfg, s, first), second) ==> SilentRun(cfg, s, first + second)
    ensures AnsweringRun(cfg, s, first) && AnsweringRun(cfg, Final(cfg, s, first), second) ==>
      AnsweringRun(cfg, s, first + second)
    decreases first
  {
    if first == [] {
      assert first + second == second;
    } else {
      RunsJoin(cfg, Apply(cfg, s, first[0]), first[1..], second);
      assert (first + second)[1..] == first[1..] + second;
    }
  }
}
