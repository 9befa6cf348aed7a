/** The provider's limiter, breaker and gate, and the watcher that resumes work after a
    block, as they run. */
module AniDbClient {
  import opened Text
  import opened RequestGate

  class RateLimiter {
    const interval: real
    const cap: Option<nat>
    var lastCall: real
    var day: Option<int>
    var count: nat

    function L(): Limiter
      reads this
    {
      Limiter(interval, cap, lastCall, day, count)
    }

    constructor (interval: real, cap: Option<nat>)
      ensures L() == FreshLimiter(interval, cap)
    {
      this.interval, this.cap := interval, cap;
      lastCall, day, count := 0.0, None, 0;
    }

    /** `acquire`, under its lock; false where it raises. */
    method Acquire(at: Instant, woke: Instant) returns (ok: bool)
      modifies this
      ensures (L(), ok) == RequestGate.Acquire(old(L()), at, woke)
    {
      if day != Some(at.day) {
        day := Some(at.day);
        count := 0;
      }
      if cap.Some? && count >= cap.value {
        return false;
      }
      lastCall := woke.mono;
      count := count + 1;
      return true;
    }
  }

  class CircuitBreaker {
    const threshold: nat
    const cooldown: real
    var failures: nat
    var openedAt: Option<real>

    function B(): Breaker
      reads this
    {
      Breaker(threshold, cooldown, failures, openedAt)
    }

    constructor (threshold: nat, cooldown: real)
      ensures B() == Breaker(threshold, cooldown, 0, None)
    {
      this.threshold, this.cooldown := threshold, cooldown;
      failures, openedAt := 0, None;
    }

    method IsOpen(now: real) returns (open: bool)
      modifies this
      ensures (B(), open) == Ask(old(B()), now)
    {
      if openedAt.None? {
        return false;
      }
      if now - openedAt.value >= cooldown {
        openedAt := None;
        failures := 0;
        return false;
      }
      return true;
    }

    method RemainingS(now: real) returns (left: real)
      modifies this
      ensures (B(), left) == Remaining(old(B()), now)
    {
      var open := IsOpen(now);
      if !open || openedAt.None? {
        return 0.0;
      }
      left := cooldown - (now - openedAt.value);
      if left <= 0.0 {
        left := 0.0;
      }
    }

    method RecordSuccess()
      modifies this
      ensures B() == Success(old(B()))
    {
      failures := 0;
      openedAt := None;
    }

    method RecordFailure(now: real)
      modifies this
      ensures B() == Failure(old(B()), now)
    {
      failures := failures + 1;
      if failures >= threshold {
        openedAt := Some(now);
      }
    }
  }

  class AniDbProvider {
    const limiter: RateLimiter
    const breaker: CircuitBreaker
    const banCooldown: real
    var bannedUntil: real
    /** The end of the last ban, as the database keeps it across a restart. */
    var stored: Option<real>

    function G(): Gate
      reads this, limiter, breaker
    {
      Gate(bannedUntil, banCooldown, breaker.B(), limiter.L())
    }

    constructor (interval: real, cap: Option<nat>, banCooldown: real, stored: Option<real>)
      ensures G() == Gate(0.0, banCooldown, Breaker(5, 600.0, 0, None), FreshLimiter(interval, cap)) && this.stored == stored
      ensures fresh(limiter) && fresh(breaker)
    {
      limiter := new RateLimiter(interval, cap);
      breaker := new CircuitBreaker(5, 600.0);
      this.banCooldown := banCooldown;
      bannedUntil := 0.0;
      this.stored := stored;
    }

    /** `load_ban_state`: a restart does not lift a ban. */
    method LoadBanState()
      modifies this`bannedUntil
      ensures G() == old(G()).(bannedUntil := if stored.Some? then stored.value else old(bannedUntil))
    {
      if stored.Some? {
        bannedUntil := stored.value;
      }
    }

    /** `blocked` */
    method IsBlocked(now: Instant) returns (reason: Option<Reason>)
      modifies breaker
      ensures (G(), reason) == Blocked(old(G()), now)
    {
      if bannedUntil > now.wall {
        return Some(Ban);
      }
      if limiter.cap.Some? && CallsToday(limiter.L(), now.day) >= limiter.cap.value {
        return Some(DailyCap);
      }
      var left := breaker.RemainingS(now.mono);
      if left > 0.0 {
        return Some(Paused);
      }
      return None;
    }

    /** `_request_with_retry` */
    method RequestWithRetry(attempts: nat -> Attempt) returns (ended: Ended, ghost sent: seq<Grant>)
      modifies limiter
      ensures (limiter.L(), ended, sent) == Retry(old(limiter.L()), attempts, 0)
    {
      ghost var l := limiter.L();
      sent := [];
      assert [] + Retry(l, attempts, 0).2 == Retry(l, attempts, 0).2;
      for k := 0 to MaxRetries
        invariant Retry(l, attempts, 0) == (Retry(limiter.L(), attempts, k).0, Retry(limiter.L(), attempts, k).1, sent + Retry(limiter.L(), attempts, k).2)
      {
        var a := attempts(k);
        ghost var more := Retry(limiter.L(), attempts, k).2;
        var ok := limiter.Acquire(a.at, a.woke);
        if !ok {
          assert sent + [] == sent;
          return CapReached, sent;
        }
        if !a.reply.HttpFailure? {
          return Answered(a.reply), sent + [Grant(a.woke, a.at.day)];
        }
        assert sent + more == (sent + [Grant(a.woke, a.at.day)]) + Retry(limiter.L(), attempts, k + 1).2;
        sent := sent + [Grant(a.woke, a.at.day)];
      }
      assert sent + [] == sent;
      return GaveUp, sent;
    }

    /** `_get_xml`: what is in the cache costs nothing; a ban is stored as soon as it is known. */
    method GetXml(cached: bool, start: Instant, attempts: nat -> Attempt, done: Instant) returns (outcome: Outcome, ghost sent: seq<Grant>)
      modifies this, limiter, breaker
      ensures cached ==> G() == old(G()) && outcome == Fetched && sent == []
      ensures !cached ==> (G(), outcome, sent) == Fetch(old(G()), start, attempts, done)
      ensures stored == if outcome == Banned then Some(bannedUntil) else old(stored)
    {
      hide Retry;
      if cached {
        return Fetched, [];
      }
      if start.wall < bannedUntil {
        return Refused, [];
      }
      var open := breaker.IsOpen(start.mono);
      if open {
        return Refused, [];
      }
      var ended: Ended;
      ended, sent := RequestWithRetry(attempts);
      match ended {
        case CapReached => return Refused, sent;
        case GaveUp =>
          breaker.RecordFailure(done.mono);
          return Nothing, sent;
        case Answered(reply) =>
          match reply {
            case BanNotice =>
              bannedUntil := done.wall + banCooldown;
              stored := Some(bannedUntil);
              return Banned, sent;
            case Data =>
              breaker.RecordSuccess();
              return Fetched, sent;
            case _ =>
              breaker.RecordFailure(done.mono);
              return Nothing, sent;
          }
      }
    }
  }

  // ------------------------------------------------------------ the block watcher

  /** What a resume callback does: it puts jobs back in the queue, or it raises. */
  datatype Resumed = Requeued(jobs: nat) | Failed

  function Jobs(results: seq<Resumed>): nat {
    if results == [] then 0
    else Jobs(results[..|results| - 1]) + if results[|results| - 1].Requeued? then results[|results| - 1].jobs else 0
  }

  /** How often a block was seen to have ended. */
  function Endings(samples: seq<bool>): nat {
    if |samples| < 2 then 0
    else Endings(samples[..|samples| - 1]) + if samples[|samples| - 2] && !samples[|samples| - 1] then 1 else 0
  }

  class BlockWatcher {
    const provider: AniDbProvider
    var wasBlocked: bool
    /** For each resume callback, how often it has been called. */
    var calls: seq<nat>
    /** What the watcher has seen, the look taken at its construction first. */
    ghost var samples: seq<bool>

    ghost predicate Valid()
      reads this
    {
      && samples != [] && samples[|samples| - 1] == wasBlocked
      && forall c | 0 <= c < |calls| :: calls[c] == Endings(samples)
    }

    constructor (provider: AniDbProvider, callbacks: nat, now: Instant)
      modifies provider.breaker
      ensures Valid() && |calls| == callbacks && this.provider == provider
      ensures samples == [Blocked(old(provider.G()), now).1.Some?]
    {
      this.provider := provider;
      calls := seq(callbacks, _ => 0);
      new;
      var reason := provider.IsBlocked(now);
      wasBlocked := reason.Some?;
      samples := [reason.Some?];
    }

    /** `check`: every callback runs exactly once for each block that ended, whichever of
        the others fail. */
    method Check(now: Instant, results: seq<Resumed>) returns (resumed: nat)
      requires Valid() && |results| == |calls|
      modifies this, provider.breaker
      ensures Valid() && samples == old(samples) + [Blocked(old(provider.G()), now).1.Some?] && |calls| == old(|calls|)
      ensures resumed == if old(wasBlocked) && !wasBlocked then Jobs(results) else 0
      ensures provider.G() == Blocked(old(provider.G()), now).0
    {
      var reason := provider.IsBlocked(now);
      var blocked := reason.Some?;
      resumed := 0;
      ghost var before := calls;
      ghost var seen := samples;
      assert (seen + [blocked])[..|seen|] == seen;
      if wasBlocked && !blocked {
        for c := 0 to |results|
          invariant |calls| == |before| && wasBlocked && samples == seen && provider.G() == Blocked(old(provider.G()), now).0
          invariant forall i | 0 <= i < |calls| :: calls[i] == if i < c then before[i] + 1 else before[i]
          invariant resumed == Jobs(results[..c])
        {
          assert results[..c + 1][..c] == results[..c];
          calls := calls[c := calls[c] + 1];
          if results[c].Requeued? {
            resumed := resumed + results[c].jobs;
          }
        }
        assert results[..|results|] == results;
      }
      samples := samples + [blocked];
      wasBlocked := blocked;
    }
  }
}
