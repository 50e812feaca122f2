/** The fixed-window limiter of skill creation: at most five allowed calls per user and window, a
    window being closed by the first call more than a minute after it window. */
module RateLimiter {

  type Time = int
  const MINUTE: Time := 60_000_000_000
  const MAX_PER_WINDOW := 5

  datatype Window = Window(counts: map<string, nat>, lastReset: Time)

  function CountOf(w: Window, user: string): nat {
    if user in w.counts then w.counts[user] else 0
  }

  /** The window a call at `now` falls into. */
  function Opened(w: Window, now: Time): Window {
    if now - w.lastReset > MINUTE then Window(map[], now) else w
  }

  predicate Allows(w: Window, user: string, now: Time) {
    CountOf(Opened(w, now), user) < MAX_PER_WINDOW
  }

  function After(w: Window, user: string, now: Time): Window {
    var o := Opened(w, now);
    if Allows(w, user, now) then o.(counts := o.counts[user := CountOf(o, user) + 1]) else o
  }

  class CreateSkillRateLimiter {
    var requestCounts: map<string, nat>
    var lastReset: Time

    function State(): Window
      reads this
    {
      Window(requestCounts, lastReset)
    }

    constructor (now: Time)
      ensures State() == Window(map[], now)
    {
      requestCounts, lastReset := map[], now;
    }

    method Allow(user: string, now: Time) returns (allowed: bool)
      modifies this
      ensures allowed == Allows(old(State()), user, now)
      ensures State() == After(old(State()), user, now)
      ensures now - old(lastReset) > MINUTE ==> allowed
    {
      if now - lastReset > MINUTE {
        requestCounts := map[];
        lastReset := now;
      }
      var count := if user in requestCounts then requestCounts[user] else 0;
      allowed := count < MAX_PER_WINDOW;
      if !allowed {
        return;
      }
      requestCounts := requestCounts[user := count + 1];
    }
  }

  // ----- Whole runs -----

  datatype Call = Call(user: string, at: Time)

  predicate Chronological(calls: seq<Call>) {
    forall i, j | 0 <= i < j < |calls| :: calls[i].at <= calls[j].at
  }

  function WindowAfter(w: Window, calls: seq<Call>): Window {
    if calls == [] then w
    else
      var last := calls[|calls| - 1];
      After(WindowAfter(w, calls[..|calls| - 1]), last.user, last.at)
  }

  /** How many calls of `user` were allowed at times in from..to, both included. */
  function AllowedIn(w: Window, calls: seq<Call>, user: string, from: Time, to: Time): nat {
    if calls == [] then 0
    else
      var front, last := calls[..|calls| - 1], calls[|calls| - 1];
      AllowedIn(w, front, user, from, to) +
      if last.user == user && from <= last.at <= to && Allows(WindowAfter(w, front), user, last.at) then 1 else 0
  }

  /** The windows window in from..to so far. */
  function OpenedIn(w: Window, calls: seq<Call>, from: Time, to: Time): nat {
    if calls == [] then 0
    else
      var front, last := calls[..|calls| - 1], calls[|calls| - 1];
      OpenedIn(w, front, from, to) +
      if last.at - WindowAfter(w, front).lastReset > MINUTE && from <= last.at <= to then 1 else 0
  }

  /** What an interval has seen so far, if `resets` windows were window in it: nothing before it begins; one
      window's calls before the first opening; then at most five per window window before the current one and
      what the current one has counted, and five more only if the first opening came after `from`. */
  predicate Tracked(w: Window, calls: seq<Call>, user: string, from: Time, to: Time) {
    var now, resets, allowed := WindowAfter(w, calls), OpenedIn(w, calls, from, to), AllowedIn(w, calls, user, from, to);
    && CountOf(now, user) <= MAX_PER_WINDOW
    && if calls == [] then allowed == 0 && resets == 0
       else
         var at := calls[|calls| - 1].at;
         && at - now.lastReset <= MINUTE
         && (at < from ==> allowed == 0 && resets == 0)
         && (at <= to ==> FitsIn(allowed, resets, from, now.lastReset, CountOf(now, user)))
         && (resets > 0 && at <= to ==> now.lastReset <= at)
         && (at > to ==> FitsIn(allowed, resets, from, to, MAX_PER_WINDOW))
  }

  /** `resets` openings no later than `latest`, the current window having allowed `current` calls. */
  predicate FitsIn(allowed: int, resets: int, from: Time, latest: Time, current: int) {
    if resets == 0 then allowed <= current
    else
      || (from + (resets - 1) * (MINUTE + 1) <= latest && allowed <= MAX_PER_WINDOW * (resets - 1) + current)
      || (from + 1 + (resets - 1) * (MINUTE + 1) <= latest && allowed <= MAX_PER_WINDOW * resets + current)
  }

  /** What one more call adds. */
  lemma RunAfter(w: Window, calls: seq<Call>, call: Call, user: string, from: Time, to: Time)
    ensures var now, longer := WindowAfter(w, calls), calls + [call];
      && WindowAfter(w, longer) == After(now, call.user, call.at)
      && OpenedIn(w, longer, from, to) ==
         OpenedIn(w, calls, from, to) + (if call.at - now.lastReset > MINUTE && from <= call.at <= to then 1 else 0)
      && AllowedIn(w, longer, user, from, to) ==
         AllowedIn(w, calls, user, from, to) +
         (if call.user == user && from <= call.at <= to && Allows(now, user, call.at) then 1 else 0)
  {
    assert (calls + [call])[..|calls|] == calls;
  }

  /** Opening a window at `at`, which lets through one call or none. */
  lemma FitsAfterOpening(allowed: int, resets: nat, from: Time, latest: Time, current: int, at: Time, more: int)
    requires FitsIn(allowed, resets, from, latest, current) && current <= MAX_PER_WINDOW
    requires if resets == 0 then from < at || (from == at && allowed <= 0) else latest + MINUTE < at
    ensures FitsIn(allowed + more, resets + 1, from, at, more)
  {
  }

  lemma TrackedAfter(w: Window, calls: seq<Call>, call: Call, user: string, from: Time, to: Time)
    requires Tracked(w, calls, user, from, to) && CountOf(w, user) <= MAX_PER_WINDOW
    requires calls != [] ==> calls[|calls| - 1].at <= call.at
    ensures Tracked(w, calls + [call], user, from, to)
  {
    RunAfter(w, calls, call, user, from, to);
    var now := WindowAfter(w, calls);
    if call.at - now.lastReset > MINUTE && from <= call.at <= to {
      FitsAfterOpening(AllowedIn(w, calls, user, from, to), OpenedIn(w, calls, from, to), from, now.lastReset,
                       CountOf(now, user), call.at, if call.user == user then 1 else 0);
    }
  }

  lemma {:induction false} RunIsTracked(w: Window, calls: seq<Call>, user: string, from: Time, to: Time)
    requires Chronological(calls) && CountOf(w, user) <= MAX_PER_WINDOW
    ensures Tracked(w, calls, user, from, to)
  {
    if calls != [] {
      var front, last := calls[..|calls| - 1], calls[|calls| - 1];
      RunIsTracked(w, front, user, from, to);
      TrackedAfter(w, front, last, user, from, to);
      assert calls == front + [last];
    }
  }

  /** How many windows can open in an interval of this length after its first instant. */
  function Windows(length: Time): Time
    requires length >= 0
  {
    (length + MINUTE) / (MINUTE + 1)
  }

  /** Whole minutes in a length, rounded up. */
  function Minutes(length: Time): Time
    requires length > 0
  {
    (length + MINUTE - 1) / MINUTE
  }

  /** In any chronological run, for any user and any interval: at most five calls, and five more for each
      window that can open after the interval's first instant. */
  lemma AllowedAtMost(created: Time, calls: seq<Call>, user: string, from: Time, to: Time)
    requires Chronological(calls) && from <= to
    ensures AllowedIn(Window(map[], created), calls, user, from, to) <= MAX_PER_WINDOW * (Windows(to - from) + 1)
  {
    var w := Window(map[], created);
    RunIsTracked(w, calls, user, from, to);
    if calls != [] {
      FitsAtMost(AllowedIn(w, calls, user, from, to), OpenedIn(w, calls, from, to), from, to);
    }
  }

  lemma FitsAtMost(allowed: int, resets: nat, from: Time, to: Time)
    requires from <= to && FitsIn(allowed, resets, from, to, MAX_PER_WINDOW)
    ensures allowed <= MAX_PER_WINDOW * (Windows(to - from) + 1)
  {
    assert (MINUTE + 1) * Windows(to - from) >= to - from;
  }

  /** In coarser terms: at most five calls per started minute and five more. */
  lemma AllowedBound(created: Time, calls: seq<Call>, user: string, from: Time, to: Time)
    requires Chronological(calls) && from < to
    ensures AllowedIn(Window(map[], created), calls, user, from, to) <= MAX_PER_WINDOW * (Minutes(to - from) + 1)
  {
    AllowedAtMost(created, calls, user, from, to);
    assert Windows(to - from) <= Minutes(to - from);
  }

  /** "Five" does hold for every interval in which no window is window. */
  lemma FiveWithinOneWindow(created: Time, calls: seq<Call>, user: string, from: Time, to: Time)
    requires Chronological(calls) && OpenedIn(Window(map[], created), calls, from, to) == 0
    ensures AllowedIn(Window(map[], created), calls, user, from, to) <= MAX_PER_WINDOW
  {
    RunIsTracked(Window(map[], created), calls, user, from, to);
  }

  // ----- The bound is attained, by every interval -----

  function Burst(user: string, at: Time, n: nat): seq<Call> {
    seq(n, _ => Call(user, at))
  }

  /** The window with `n` more calls of the user counted. */
  function Filled(w: Window, user: string, n: nat): Window {
    w.(counts := w.counts[user := CountOf(w, user) + n])
  }

  lemma FilledAgain(w: Window, user: string, at: Time, n: nat)
    ensures var o := Opened(w, at);
      && CountOf(Filled(o, user, n), user) == CountOf(o, user) + n
      && Opened(Filled(o, user, n), at) == Filled(o, user, n)
      && Filled(Filled(o, user, n), user, 1) == Filled(o, user, n + 1)
  {
  }

  lemma OneAllowed(w: Window, before: seq<Call>, user: string, at: Time, from: Time, to: Time)
    requires from <= at <= to && CountOf(Opened(WindowAfter(w, before), at), user) < MAX_PER_WINDOW
    ensures var calls := before + [Call(user, at)];
      && AllowedIn(w, calls, user, from, to) == AllowedIn(w, before, user, from, to) + 1
      && WindowAfter(w, calls) == Filled(Opened(WindowAfter(w, before), at), user, 1)
  {
    assert (before + [Call(user, at)])[..|before|] == before;
  }

  /** `n` calls at one instant, in a window that has room for them, are all allowed. */
  lemma {:induction false} BurstAllowed(w: Window, before: seq<Call>, user: string, at: Time, n: nat, from: Time, to: Time)
    requires from <= at <= to && 1 <= n
    requires CountOf(Opened(WindowAfter(w, before), at), user) + n <= MAX_PER_WINDOW
    ensures var calls := before + Burst(user, at, n);
      && AllowedIn(w, calls, user, from, to) == AllowedIn(w, before, user, from, to) + n
      && WindowAfter(w, calls) == Filled(Opened(WindowAfter(w, before), at), user, n)
  {
    if n == 1 {
      assert before + Burst(user, at, 1) == before + [Call(user, at)];
      OneAllowed(w, before, user, at, from, to);
    } else {
      BurstAllowed(w, before, user, at, n - 1, from, to);
      FilledAgain(WindowAfter(w, before), user, at, n - 1);
      assert before + Burst(user, at, n) == (before + Burst(user, at, n - 1)) + [Call(user, at)];
      OneAllowed(w, before + Burst(user, at, n - 1), user, at, from, to);
    }
  }

  /** A burst in the first instant of a new window. */
  lemma FreshBurst(w: Window, before: seq<Call>, user: string, at: Time, from: Time, to: Time)
    requires from <= at <= to && at - WindowAfter(w, before).lastReset > MINUTE
    ensures var calls := before + Burst(user, at, MAX_PER_WINDOW);
      && AllowedIn(w, calls, user, from, to) == AllowedIn(w, before, user, from, to) + MAX_PER_WINDOW
      && WindowAfter(w, calls).lastReset == at
  {
    assert Opened(WindowAfter(w, before), at) == Window(map[], at);
    BurstAllowed(w, before, user, at, MAX_PER_WINDOW, from, to);
  }

  /** Five calls in the last instant of the first window, then five in the first instant of each of the
      next `n`. */
  function Bursts(user: string, created: Time, n: nat): seq<Call> {
    if n == 0 then Burst(user, created + MINUTE, MAX_PER_WINDOW)
    else Bursts(user, created, n - 1) + Burst(user, created + n * (MINUTE + 1), MAX_PER_WINDOW)
  }

  function LastBurst(created: Time, n: nat): Time {
    if n == 0 then created + MINUTE else created + n * (MINUTE + 1)
  }

  lemma {:induction false} BurstsAllowed(user: string, created: Time, n: nat, from: Time, to: Time)
    requires from <= created + MINUTE && LastBurst(created, n) <= to
    ensures var calls := Bursts(user, created, n);
      && AllowedIn(Window(map[], created), calls, user, from, to) == MAX_PER_WINDOW * (n + 1)
      && WindowAfter(Window(map[], created), calls).lastReset == created + n * (MINUTE + 1)
  {
    if n == 0 {
      FirstBurst(user, created, from, to);
    } else {
      var w, at, before := Window(map[], created), created + n * (MINUTE + 1), Bursts(user, created, n - 1);
      assert LastBurst(created, n - 1) <= to;
      BurstsAllowed(user, created, n - 1, from, to);
      assert at - WindowAfter(w, before).lastReset == MINUTE + 1;
      FreshBurst(w, before, user, at, from, to);
      assert Bursts(user, created, n) == before + Burst(user, at, MAX_PER_WINDOW);
    }
  }

  lemma FirstBurst(user: string, created: Time, from: Time, to: Time)
    requires from <= created + MINUTE <= to
    ensures var calls := Burst(user, created + MINUTE, MAX_PER_WINDOW);
      && AllowedIn(Window(map[], created), calls, user, from, to) == MAX_PER_WINDOW
      && WindowAfter(Window(map[], created), calls).lastReset == created
  {
    assert [] + Burst(user, created + MINUTE, MAX_PER_WINDOW) == Burst(user, created + MINUTE, MAX_PER_WINDOW);
    BurstAllowed(Window(map[], created), [], user, created + MINUTE, MAX_PER_WINDOW, from, to);
  }

  lemma {:induction false} BurstsInOrder(user: string, created: Time, n: nat)
    ensures Chronological(Bursts(user, created, n))
    ensures forall c | c in Bursts(user, created, n) :: c.at <= LastBurst(created, n)
  {
    if n > 0 {
      BurstsInOrder(user, created, n - 1);
    }
  }

  /** The bound is exact: every interval has a run that reaches it. */
  lemma AllowedAtMostIsAttained(user: string, from: Time, to: Time) returns (created: Time, calls: seq<Call>)
    requires from <= to
    ensures Chronological(calls)
    ensures AllowedIn(Window(map[], created), calls, user, from, to) == MAX_PER_WINDOW * (Windows(to - from) + 1)
  {
    var n := Windows(to - from);
    created := if n == 0 then to - MINUTE else to - n * (MINUTE + 1);
    calls := Bursts(user, created, n);
    BurstsAllowed(user, created, n, from, to);
    BurstsInOrder(user, created, n);
  }

  /** "Five per minute" fails for every interval longer than an instant: five calls in the last instant of a
      window and five in the first of the next are ten allowed within one tick. */
  lemma TenAtOnce(user: string, from: Time, to: Time)
    requires from < to
    ensures var calls := Burst(user, to - 1, 5) + Burst(user, to, 5);
      && Chronological(calls)
      && AllowedIn(Window(map[], to - MINUTE - 1), calls, user, from, to) == 10
  {
    BurstsAllowed(user, to - MINUTE - 1, 1, from, to);
    BurstsInOrder(user, to - MINUTE - 1, 1);
    assert Bursts(user, to - MINUTE - 1, 1) == Burst(user, to - 1, 5) + Burst(user, to, 5) by {
      assert Bursts(user, to - MINUTE - 1, 0) == Burst(user, to - 1, 5);
    }
  }

  ghost predicate AtMostFive(user: string, from: Time, to: Time) {
    forall created, calls | Chronological(calls) ::
      AllowedIn(Window(map[], created), calls, user, from, to) <= MAX_PER_WINDOW
  }

  /** No run allows a user more than five calls in an interval exactly when the interval is one instant. */
  lemma AtMostFiveIff(user: string, from: Time, to: Time)
    requires from <= to
    ensures AtMostFive(user, from, to) <==> from == to
  {
    if from < to {
      TenAtOnce(user, from, to);
      assert !AtMostFive(user, from, to);
    } else {
      forall created, calls | Chronological(calls)
        ensures AllowedIn(Window(map[], created), calls, user, from, to) <= MAX_PER_WINDOW
      {
        AllowedAtMost(created, calls, user, from, to);
      }
    }
  }

  // ----- Users do not share a budget -----

  /** While no new window opens, one user's call changes neither another user's count nor what that user is
      allowed; and the caller's own count grows by one exactly when the call is allowed. */
  lemma UsersAreIndependent(w: Window, user: string, other: string, now: Time, later: Time)
    requires user != other && now - w.lastReset <= MINUTE && later - w.lastReset <= MINUTE
    ensures CountOf(After(w, user, now), other) == CountOf(w, other)
    ensures Allows(After(w, user, now), other, later) <==> Allows(w, other, later)
    ensures CountOf(After(w, user, now), user) == CountOf(w, user) + if Allows(w, user, now) then 1 else 0
  {
  }

  /** In a fresh window every user has the full five, whatever the others have used. */
  lemma {:induction false} FiveForEveryUser(w: Window, calls: seq<Call>, user: string)
    requires w.counts == map[] && forall c | c in calls :: c.user != user && c.at - w.lastReset <= MINUTE
    ensures WindowAfter(w, calls).lastReset == w.lastReset && CountOf(WindowAfter(w, calls), user) == 0
  {
    if calls != [] {
      var front, last := calls[..|calls| - 1], calls[|calls| - 1];
      assert forall c | c in front :: c in calls;
      FiveForEveryUser(w, front, user);
      UsersAreIndependent(WindowAfter(w, front), last.user, user, last.at, last.at);
    }
  }
}
