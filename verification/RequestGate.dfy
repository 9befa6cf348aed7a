/** The limits every request to AniDB passes: the rate limiter, the circuit breaker, the
    ban, and what a whole run of fetches can therefore send. */
module RequestGate {
  import opened Text

  /** One reading of the clocks: wall time, monotonic time, and the calendar day. */
  datatype Instant = Instant(wall: real, mono: real, day: int)

  predicate NotBefore(a: Instant, b: Instant) {
    a.wall <= b.wall && a.mono <= b.mono && a.day <= b.day
  }

  // ------------------------------------------------------------ rate limiter

  datatype Limiter = Limiter(interval: real, cap: Option<nat>, lastCall: real, day: Option<int>, count: nat)

  function FreshLimiter(interval: real, cap: Option<nat>): Limiter {
    Limiter(interval, cap, 0.0, None, 0)
  }

  /** The counter starts over on a new day. */
  function Today(l: Limiter, day: int): Limiter {
    if l.day != Some(day) then l.(day := Some(day), count := 0) else l
  }

  function CallsToday(l: Limiter, day: int): nat {
    if l.day == Some(day) then l.count else 0
  }

  function Wait(l: Limiter, now: real): real {
    l.interval - (now - l.lastCall)
  }

  /** `acquire`, entered at `at` and, if it had to sleep, left at `woke`. */
  function Acquire(l: Limiter, at: Instant, woke: Instant): (Limiter, bool) {
    var today := Today(l, at.day);
    if today.cap.Some? && today.count >= today.cap.value then (today, false)
    else (today.(lastCall := woke.mono, count := today.count + 1), true)
  }

  /** The clocks do not run backwards and a sleep takes at least as long as asked. */
  predicate Slept(l: Limiter, at: Instant, woke: Instant) {
    NotBefore(at, woke) && woke.mono >= at.mono + Wait(l, at.mono)
  }

  /** A request let through: when, and the day it is charged to. */
  datatype Grant = Grant(at: Instant, day: int)

  function CountOn(grants: seq<Grant>, day: int): nat {
    if grants == [] then 0
    else CountOn(grants[..|grants| - 1], day) + if grants[|grants| - 1].day == day then 1 else 0
  }

  ghost predicate Spaced(grants: seq<Grant>, interval: real) {
    forall i | 0 < i < |grants| :: grants[i].at.mono - grants[i - 1].at.mono >= interval
  }

  ghost predicate WithinCap(grants: seq<Grant>, cap: Option<nat>) {
    cap.Some? ==> forall day :: CountOn(grants, day) <= cap.value
  }

  /** What the limiter's fields say about the requests it has let through. */
  ghost predicate Accounts(l: Limiter, grants: seq<Grant>) {
    && Spaced(grants, l.interval) && WithinCap(grants, l.cap)
    && (grants != [] ==> l.lastCall == grants[|grants| - 1].at.mono && l.day.Some?)
    && (l.day.Some? ==> CountOn(grants, l.day.value) == l.count && forall day | day > l.day.value :: CountOn(grants, day) == 0)
  }

  lemma CountMore(grants: seq<Grant>, g: Grant, day: int)
    ensures CountOn(grants + [g], day) == CountOn(grants, day) + if g.day == day then 1 else 0
  {
    assert (grants + [g])[..|grants|] == grants;
  }

  lemma NothingCounted(l: Limiter, grants: seq<Grant>, day: int)
    requires Accounts(l, grants) && (l.day.Some? ==> l.day.value <= day)
    ensures CountOn(grants, day) == CallsToday(l, day)
    ensures forall d | d > day :: CountOn(grants, d) == 0
  {
    if l.day.None? {
      assert grants == [];
    }
  }

  /** One more call to `acquire`, granted or not. */
  lemma AcquireAccounts(l: Limiter, grants: seq<Grant>, at: Instant, woke: Instant)
    requires Accounts(l, grants) && (l.day.Some? ==> l.day.value <= at.day) && Slept(l, at, woke)
    ensures
      var (l', ok) := Acquire(l, at, woke);
      Accounts(l', if ok then grants + [Grant(woke, at.day)] else grants) && l'.day == Some(at.day)
  {
    hide CountOn;
    NothingCounted(l, grants, at.day);
    var (l', ok) := Acquire(l, at, woke);
    if ok {
      var more := grants + [Grant(woke, at.day)];
      forall day ensures CountOn(more, day) == CountOn(grants, day) + if at.day == day then 1 else 0 {
        CountMore(grants, Grant(woke, at.day), day);
      }
      forall i | 0 < i < |more| ensures more[i].at.mono - more[i - 1].at.mono >= l.interval {
        if i < |grants| { assert more[i] == grants[i] && more[i - 1] == grants[i - 1]; }
      }
    }
  }

  /** Requests further apart in the sequence are further apart in time. */
  lemma {:induction false} SpacingAdds(grants: seq<Grant>, interval: real, i: nat, j: nat)
    requires Spaced(grants, interval) && i <= j < |grants|
    ensures grants[j].at.mono - grants[i].at.mono >= (j - i) as real * interval
    decreases j
  {
    if i < j {
      SpacingAdds(grants, interval, i, j - 1);
      assert (j - i) as real * interval == (j - 1 - i) as real * interval + interval;
    }
  }

  function InWindow(grants: seq<Grant>, from: real, length: real): set<nat> {
    set i: nat | i < |grants| && from <= grants[i].at.mono <= from + length
  }

  lemma {:induction false} RangeSize(s: set<nat>, lo: nat, n: nat)
    requires forall x | x in s :: lo <= x < lo + n
    ensures |s| <= n
    decreases n
  {
    if n == 0 {
      assert forall x :: x !in s;
      assert s == {};
    } else {
      RangeSize(s - {lo + n - 1}, lo, n - 1);
    }
  }

  lemma {:induction false} FirstOf(s: set<nat>) returns (first: nat)
    requires s != {}
    ensures first in s && forall x | x in s :: first <= x
    decreases |s|
  {
    first :| first in s;
    var rest := s - {first};
    assert s == rest + {first};
    if rest != {} {
      var other := FirstOf(rest);
      if other < first { first := other; }
    }
  }

  lemma WithinFloor(k: nat, length: real, interval: real)
    requires interval > 0.0 && k as real * interval <= length
    ensures k <= (length / interval).Floor
  {
    assert k as real == k as real * interval / interval <= length / interval;
  }

  /** No window of any length sees more requests than fit into it at the minimum interval. */
  lemma WindowBound(grants: seq<Grant>, interval: real, from: real, length: real)
    requires interval > 0.0 && length >= 0.0 && Spaced(grants, interval)
    ensures |InWindow(grants, from, length)| <= (length / interval).Floor + 1
  {
    hide Spaced;
    var inside := InWindow(grants, from, length);
    WithinFloor(0, length, interval);
    if inside != {} {
      var first := FirstOf(inside);
      forall x | x in inside ensures first <= x < first + ((length / interval).Floor + 1) {
        assert x < |grants| && first <= x;
        SpacingAdds(grants, interval, first, x);
        WithinFloor(x - first, length, interval);
      }
      RangeSize(inside, first, (length / interval).Floor + 1);
    }
  }

  // ------------------------------------------------------------ circuit breaker

  datatype Breaker = Breaker(threshold: nat, cooldown: real, failures: nat, openedAt: Option<real>)

  /** `is_open`, which closes the breaker once its time is over. */
  function Ask(b: Breaker, now: real): (Breaker, bool) {
    if b.openedAt.None? then (b, false)
    else if now - b.openedAt.value >= b.cooldown then (b.(openedAt := None, failures := 0), false)
    else (b, true)
  }

  /** `remaining_s` */
  function Remaining(b: Breaker, now: real): (Breaker, real) {
    var (b', open) := Ask(b, now);
    if !open || b'.openedAt.None? then (b', 0.0)
    else
      var left := b'.cooldown - (now - b'.openedAt.value);
      (b', if left > 0.0 then left else 0.0)
  }

  function Success(b: Breaker): Breaker {
    b.(failures := 0, openedAt := None)
  }

  function Failure(b: Breaker, now: real): Breaker {
    var failures := b.failures + 1;
    if failures >= b.threshold then b.(failures := failures, openedAt := Some(now)) else b.(failures := failures)
  }

  function FailedEach(b: Breaker, times: seq<real>): Breaker {
    if times == [] then b else Failure(FailedEach(b, times[..|times| - 1]), times[|times| - 1])
  }

  /** From closed, the breaker opens with the failure that completes the row, not before;
      every later one prolongs the pause. */
  lemma {:induction false} OpensAfterARow(b: Breaker, times: seq<real>)
    requires b.failures == 0 && b.openedAt.None? && times != []
    ensures
      var b' := FailedEach(b, times);
      && b'.failures == |times|
      && b'.openedAt == if |times| >= b.threshold then Some(times[|times| - 1]) else None
    ensures FailedEach(b, times).threshold == b.threshold && FailedEach(b, times).cooldown == b.cooldown
    ensures Success(FailedEach(b, times)) == b
    decreases |times|
  {
    if |times| > 1 { OpensAfterARow(b, times[..|times| - 1]); }
  }

  // ------------------------------------------------------------ one fetch

  datatype Gate = Gate(bannedUntil: real, banCooldown: real, breaker: Breaker, limiter: Limiter)

  datatype Reason = Ban | DailyCap | Paused

  /** `blocked`: its query of the breaker can close it. */
  function Blocked(g: Gate, now: Instant): (Gate, Option<Reason>) {
    if g.bannedUntil > now.wall then (g, Some(Ban))
    else if g.limiter.cap.Some? && CallsToday(g.limiter, now.day) >= g.limiter.cap.value then (g, Some(DailyCap))
    else
      var (b, left) := Remaining(g.breaker, now.mono);
      (g.(breaker := b), if left > 0.0 then Some(Paused) else None)
  }

  datatype Reply = HttpFailure | BanNotice | ErrorNotice | Data

  /** One turn of the retry loop: when it asks the limiter, when it is let through, and
      what comes back. */
  datatype Attempt = Attempt(at: Instant, woke: Instant, reply: Reply)

  datatype Ended = CapReached | GaveUp | Answered(reply: Reply)

  const MaxRetries: nat := 3

  /** `_request_with_retry`, from its `k`-th turn on: the requests that go out. */
  function Retry(l: Limiter, attempts: nat -> Attempt, k: nat): (Limiter, Ended, seq<Grant>)
    decreases MaxRetries - k
  {
    if k >= MaxRetries then (l, GaveUp, [])
    else
      var (l1, ok) := Acquire(l, attempts(k).at, attempts(k).woke);
      if !ok then (l1, CapReached, [])
      else
        var sent := Grant(attempts(k).woke, attempts(k).at.day);
        if !attempts(k).reply.HttpFailure? then (l1, Answered(attempts(k).reply), [sent])
        else
          var (l2, ended, more) := Retry(l1, attempts, k + 1);
          (l2, ended, [sent] + more)
  }

  datatype Outcome = Refused | Banned | Nothing | Fetched

  /** An uncached `_get_xml`: begun at `start`, its answer looked at at `done`. */
  function Fetch(g: Gate, start: Instant, attempts: nat -> Attempt, done: Instant): (Gate, Outcome, seq<Grant>) {
    if start.wall < g.bannedUntil then (g, Refused, [])
    else
      var (b, open) := Ask(g.breaker, start.mono);
      if open then (g.(breaker := b), Refused, [])
      else
        var (l, ended, sent) := Retry(g.limiter, attempts, 0);
        var g1 := g.(breaker := b, limiter := l);
        match ended
        case CapReached => (g1, Refused, sent)
        case GaveUp => (g1.(breaker := Failure(b, done.mono)), Nothing, sent)
        case Answered(BanNotice) => (g1.(bannedUntil := done.wall + g.banCooldown), Banned, sent)
        case Answered(Data) => (g1.(breaker := Success(b)), Fetched, sent)
        case Answered(_) => (g1.(breaker := Failure(b, done.mono)), Nothing, sent)
  }

  /** `blocked` reports no reason exactly when a fetch at that instant gets as far as
      sending a request; and asking first makes no difference to the fetch. */
  lemma BlockedIffNothingSent(g: Gate, now: Instant, attempts: nat -> Attempt, done: Instant)
    requires attempts(0).at == now
    ensures Blocked(g, now).1.None? <==> Fetch(g, now, attempts, done).2 != []
    ensures Fetch(Blocked(g, now).0, now, attempts, done).1 == Fetch(g, now, attempts, done).1
    ensures Fetch(Blocked(g, now).0, now, attempts, done).2 == Fetch(g, now, attempts, done).2
  {
  }

  /** A fetch sends at most three requests, and a failed one counts once. */
  lemma {:induction false} FewRequests(l: Limiter, attempts: nat -> Attempt, k: nat)
    requires k <= MaxRetries
    ensures |Retry(l, attempts, k).2| <= MaxRetries - k
    decreases MaxRetries - k
  {
    if k < MaxRetries { FewRequests(Acquire(l, attempts(k).at, attempts(k).woke).0, attempts, k + 1); }
  }

  // ------------------------------------------------------------ runs

  /** What has happened so far: the requests sent, and each ban notice and each opening of
      the breaker, with the number of requests sent before it. */
  datatype Log = Log(sent: seq<Grant>, bans: seq<(nat, real)>, pauses: seq<(nat, real)>)

  datatype Op = FetchOp(start: Instant, attempts: nat -> Attempt, done: Instant) | BlockedOp(now: Instant)

  function Step(g: Gate, log: Log, op: Op): (Gate, Log) {
    match op
    case BlockedOp(now) => (Blocked(g, now).0, log)
    case FetchOp(start, attempts, done) =>
      var (g', outcome, sent) := Fetch(g, start, attempts, done);
      var n := |log.sent| + |sent|;
      (g', Log(log.sent + sent,
               if outcome.Banned? then log.bans + [(n, done.wall)] else log.bans,
               if g'.breaker.openedAt.Some? && outcome.Nothing? then log.pauses + [(n, done.mono)] else log.pauses))
  }

  /** The clocks move on between and during the turns of the retry loop, and its sleeps
      are long enough. */
  predicate RetryTimely(l: Limiter, attempts: nat -> Attempt, k: nat, from: Instant, done: Instant)
    decreases MaxRetries - k
  {
    if k >= MaxRetries then NotBefore(from, done)
    else
      && NotBefore(from, attempts(k).at)
      && Slept(l, attempts(k).at, attempts(k).woke)
      && NotBefore(attempts(k).woke, done)
      && RetryTimely(Acquire(l, attempts(k).at, attempts(k).woke).0, attempts, k + 1, attempts(k).woke, done)
  }

  predicate Timely(g: Gate, op: Op, from: Instant) {
    match op
    case BlockedOp(now) => NotBefore(from, now)
    case FetchOp(start, attempts, done) => NotBefore(from, start) && NotBefore(start, done) && RetryTimely(g.limiter, attempts, 0, start, done)
  }

  function End(op: Op): Instant {
    match op
    case BlockedOp(now) => now
    case FetchOp(_, _, done) => done
  }

  /** No request goes out before a ban or a pause that came before it is over. */
  ghost predicate Respected(log: Log, banCooldown: real, cooldown: real) {
    && (forall b, i | b in log.bans && b.0 <= i < |log.sent| :: log.sent[i].at.wall >= b.1 + banCooldown)
    && (forall p, i | p in log.pauses && p.0 <= i < |log.sent| :: log.sent[i].at.mono >= p.1 + cooldown)
  }

  /** The gate still remembers every ban and pause that is not over. */
  ghost predicate Remembers(g: Gate, log: Log, now: Instant) {
    && (forall b | b in log.bans :: b.0 <= |log.sent| && b.1 <= now.wall && g.bannedUntil >= b.1 + g.banCooldown)
    && (forall p | p in log.pauses :: p.0 <= |log.sent| && p.1 <= now.mono
          && if g.breaker.openedAt.Some? then p.1 <= g.breaker.openedAt.value else p.1 + g.breaker.cooldown <= now.mono)
    && (g.breaker.openedAt.Some? ==> g.breaker.openedAt.value <= now.mono)
    && (g.limiter.day.Some? ==> g.limiter.day.value <= now.day)
  }

  ghost predicate Sound(g: Gate, log: Log, now: Instant) {
    Accounts(g.limiter, log.sent) && Respected(log, g.banCooldown, g.breaker.cooldown) && Remembers(g, log, now)
  }

  lemma {:induction false} RetryAccounts(l: Limiter, sent: seq<Grant>, attempts: nat -> Attempt, k: nat, from: Instant, done: Instant)
    requires Accounts(l, sent) && (l.day.Some? ==> l.day.value <= from.day) && RetryTimely(l, attempts, k, from, done)
    ensures
      var (l', ended, more) := Retry(l, attempts, k);
      && Accounts(l', sent + more) && (l'.day.Some? ==> l'.day.value <= done.day)
      && l'.interval == l.interval && l'.cap == l.cap
      && forall i | 0 <= i < |more| :: NotBefore(from, more[i].at) && NotBefore(more[i].at, done)
    decreases MaxRetries - k
  {
    hide Accounts, Slept;
    if k >= MaxRetries {
      assert sent + [] == sent;
    } else {
      var a := attempts(k);
      AcquireAccounts(l, sent, a.at, a.woke);
      SleptMovesOn(l, a.at, a.woke);
      var (l1, ok) := Acquire(l, a.at, a.woke);
      if !ok || !a.reply.HttpFailure? {
        assert sent + [] == sent;
      } else {
        var g := Grant(a.woke, a.at.day);
        RetryAccounts(l1, sent + [g], attempts, k + 1, a.woke, done);
        var more := Retry(l1, attempts, k + 1).2;
        assert sent + [g] + more == sent + ([g] + more);
      }
    }
  }

  lemma SleptMovesOn(l: Limiter, at: Instant, woke: Instant)
    requires Slept(l, at, woke)
    ensures NotBefore(at, woke)
  {
  }

  /** A fetch that sends something has found ban and pause to be over. */
  lemma FetchRespects(g: Gate, log: Log, from: Instant, start: Instant, attempts: nat -> Attempt, done: Instant)
    requires Sound(g, log, from) && Timely(g, FetchOp(start, attempts, done), from)
    ensures
      var sent := Fetch(g, start, attempts, done).2;
      && (forall i | 0 <= i < |sent| :: NotBefore(start, sent[i].at) && NotBefore(sent[i].at, done))
      && (sent != [] ==> start.wall >= g.bannedUntil && Ask(g.breaker, start.mono) == (Ask(g.breaker, start.mono).0, false))
      && Accounts(Fetch(g, start, attempts, done).0.limiter, log.sent + sent)
      && (Fetch(g, start, attempts, done).0.limiter.day.Some? ==> Fetch(g, start, attempts, done).0.limiter.day.value <= done.day)
  {
    hide Accounts, Retry, RetryTimely, Respected;
    RetryAccounts(g.limiter, log.sent, attempts, 0, start, done);
    assert log.sent + [] == log.sent;
  }

  lemma StepKeepsSound(g: Gate, log: Log, from: Instant, op: Op)
    requires Sound(g, log, from) && Timely(g, op, from)
    ensures Sound(Step(g, log, op).0, Step(g, log, op).1, End(op))
    ensures Step(g, log, op).0.banCooldown == g.banCooldown && Step(g, log, op).0.breaker.cooldown == g.breaker.cooldown
    ensures Step(g, log, op).0.limiter.interval == g.limiter.interval && Step(g, log, op).0.limiter.cap == g.limiter.cap
  {
    hide Accounts, Retry, RetryTimely;
    match op
    case BlockedOp(now) =>
    case FetchOp(start, attempts, done) =>
      FetchRespects(g, log, from, start, attempts, done);
      FetchKeepsRespect(g, log, from, start, attempts, done);
      FetchRemembers(g, log, from, start, attempts, done);
      RetryAccounts(g.limiter, log.sent, attempts, 0, start, done);
  }

  lemma FetchKeepsRespect(g: Gate, log: Log, from: Instant, start: Instant, attempts: nat -> Attempt, done: Instant)
    requires Sound(g, log, from) && Timely(g, FetchOp(start, attempts, done), from)
    ensures Respected(Step(g, log, FetchOp(start, attempts, done)).1, g.banCooldown, g.breaker.cooldown)
  {
    hide Accounts, Fetch, RetryTimely;
    FetchRespects(g, log, from, start, attempts, done);
    var sent := Fetch(g, start, attempts, done).2;
    var log' := Step(g, log, FetchOp(start, attempts, done)).1;
    forall b, i | b in log'.bans && b.0 <= i < |log'.sent| ensures log'.sent[i].at.wall >= b.1 + g.banCooldown {
      assert i < |log'.sent| == |log.sent| + |sent|;
      if i >= |log.sent| { assert log'.sent[i] == sent[i - |log.sent|]; }
    }
    forall p, i | p in log'.pauses && p.0 <= i < |log'.sent| ensures log'.sent[i].at.mono >= p.1 + g.breaker.cooldown {
      assert i < |log'.sent| == |log.sent| + |sent|;
      if i >= |log.sent| { assert log'.sent[i] == sent[i - |log.sent|]; }
    }
  }

  lemma FetchRemembers(g: Gate, log: Log, from: Instant, start: Instant, attempts: nat -> Attempt, done: Instant)
    requires Sound(g, log, from) && Timely(g, FetchOp(start, attempts, done), from)
    ensures
      var (g', log') := Step(g, log, FetchOp(start, attempts, done));
      Remembers(g', log', done) && g'.banCooldown == g.banCooldown && g'.breaker.cooldown == g.breaker.cooldown
  {
    hide Accounts, Retry, RetryTimely, Respected;
    FetchRespects(g, log, from, start, attempts, done);
  }

  ghost predicate IsRun(g: Gate, log: Log, from: Instant, ops: seq<Op>)
    decreases |ops|
  {
    ops == [] || (Timely(g, ops[0], from) && IsRun(Step(g, log, ops[0]).0, Step(g, log, ops[0]).1, End(ops[0]), ops[1..]))
  }

  ghost function After(g: Gate, log: Log, ops: seq<Op>): (Gate, Log)
    decreases |ops|
  {
    if ops == [] then (g, log) else After(Step(g, log, ops[0]).0, Step(g, log, ops[0]).1, ops[1..])
  }

  lemma {:induction false} RunKeepsSound(g: Gate, log: Log, from: Instant, ops: seq<Op>)
    requires Sound(g, log, from) && IsRun(g, log, from, ops)
    ensures
      var (g', log') := After(g, log, ops);
      && Accounts(g'.limiter, log'.sent) && Respected(log', g.banCooldown, g.breaker.cooldown)
      && g'.limiter.interval == g.limiter.interval && g'.limiter.cap == g.limiter.cap
    decreases |ops|
  {
    hide Accounts, Respected, Remembers, Step, Timely;
    if ops != [] {
      StepKeepsSound(g, log, from, ops[0]);
      RunKeepsSound(Step(g, log, ops[0]).0, Step(g, log, ops[0]).1, End(ops[0]), ops[1..]);
    }
  }

  /** Over any run of fetches and status queries, from a restart on with a ban still in
      force or none: requests keep their distance, no day is charged with more than the
      cap, and none goes out during a ban or a pause. */
  lemma RequestsAreLimited(interval: real, cap: Option<nat>, bannedUntil: real, banCooldown: real, threshold: nat, cooldown: real, from: Instant, ops: seq<Op>)
    requires
      var g := Gate(bannedUntil, banCooldown, Breaker(threshold, cooldown, 0, None), FreshLimiter(interval, cap));
      IsRun(g, Log([], [], []), from, ops)
    ensures
      var g := Gate(bannedUntil, banCooldown, Breaker(threshold, cooldown, 0, None), FreshLimiter(interval, cap));
      var log := After(g, Log([], [], []), ops).1;
      && (forall i | 0 < i < |log.sent| :: log.sent[i].at.mono - log.sent[i - 1].at.mono >= interval)
      && (forall day :: cap.Some? ==> CountOn(log.sent, day) <= cap.value)
      && (forall b, i | b in log.bans && b.0 <= i < |log.sent| :: log.sent[i].at.wall >= b.1 + banCooldown)
      && (forall p, i | p in log.pauses && p.0 <= i < |log.sent| :: log.sent[i].at.mono >= p.1 + cooldown)
  {
    hide IsRun, After;
    var g := Gate(bannedUntil, banCooldown, Breaker(threshold, cooldown, 0, None), FreshLimiter(interval, cap));
    RunKeepsSound(g, Log([], [], []), from, ops);
  }
}
