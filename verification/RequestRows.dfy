/** When the gate in front of AniDB closes because requests have failed, and when it opens
    again: told from the replies to the requests alone. */
module RequestRows {
  import opened Text
  import opened RequestGate

  // ------------------------------------------------------------ what a fetch has seen

  /** The replies a fetch has had, in order: one for each request it has sent. */
  function Replies(g: Gate, op: Op): (r: seq<Reply>)
    requires op.FetchOp?
  {
    seq(|Sent(g, op)|, i requires 0 <= i < |Sent(g, op)| => op.attempts(i).reply)
  }

  function Sent(g: Gate, op: Op): seq<Grant> {
    match op
    case BlockedOp(_) => []
    case FetchOp(start, attempts, done) => Fetch(g, start, attempts, done).2
  }

  /** It got through to requests and had nothing but failures, three of them, or was told
      of an error. */
  predicate HasFailed(g: Gate, op: Op) {
    && op.FetchOp? && Replies(g, op) != []
    && (Replies(g, op) == [HttpFailure, HttpFailure, HttpFailure] || Replies(g, op)[|Replies(g, op)| - 1] == ErrorNotice)
  }

  predicate HasSucceeded(g: Gate, op: Op) {
    op.FetchOp? && Replies(g, op) != [] && Replies(g, op)[|Replies(g, op)| - 1] == Data
  }

  lemma {:induction false} RetryReplies(l: Limiter, attempts: nat -> Attempt, k: nat)
    requires k <= MaxRetries
    ensures
      var (l', ended, sent) := Retry(l, attempts, k);
      var n := |sent|;
      && n <= MaxRetries - k
      && (forall j: nat | k <= j < k + n - 1 :: attempts(j).reply == HttpFailure)
      && (ended == GaveUp <==> n == MaxRetries - k && (n > 0 ==> attempts(k + n - 1).reply == HttpFailure))
      && (ended == CapReached <==> n < MaxRetries - k && (n > 0 ==> attempts(k + n - 1).reply == HttpFailure))
      && (ended.Answered? <==> n > 0 && attempts(k + n - 1).reply != HttpFailure)
      && (ended.Answered? ==> ended.reply == attempts(k + n - 1).reply)
    decreases MaxRetries - k
  {
    hide Acquire;
    if k < MaxRetries {
      var (l1, ok) := Acquire(l, attempts(k).at, attempts(k).woke);
      if ok && attempts(k).reply.HttpFailure? {
        RetryReplies(l1, attempts, k + 1);
        var more := Retry(l1, attempts, k + 1).2;
        assert |Retry(l, attempts, k).2| == |more| + 1;
      }
    }
  }

  /** Every reply but the last was a failed request; the last one decides what comes of the
      fetch. One failed request more after two is given up; after fewer it is only because
      the day's cap was reached. */
  lemma LastReplyDecides(g: Gate, op: Op)
    requires op.FetchOp? && Replies(g, op) != []
    ensures
      var r := Replies(g, op);
      var last := r[|r| - 1];
      var outcome := Fetch(g, op.start, op.attempts, op.done).1;
      && |r| <= 3 && (forall i | 0 <= i < |r| - 1 :: r[i] == HttpFailure)
      && (outcome == Fetched <==> last == Data)
      && (outcome == Banned <==> last == BanNotice)
      && (outcome == Nothing <==> last == ErrorNotice || (last == HttpFailure && |r| == 3))
      && (outcome == Refused <==> last == HttpFailure && |r| < 3)
  {
    hide Retry, Ask, Failure, Success;
    RetryReplies(g.limiter, op.attempts, 0);
    var r := Replies(g, op);
  }

  // ------------------------------------------------------------ what the breaker makes of it

  /** How many of the fetches have failed. */
  function Failed(g: Gate, log: Log, ops: seq<Op>): nat
    decreases |ops|
  {
    if ops == [] then 0
    else (if HasFailed(g, ops[0]) then 1 else 0) + Failed(Step(g, log, ops[0]).0, Step(g, log, ops[0]).1, ops[1..])
  }

  /** None has brought data. */
  predicate NoneSucceeded(g: Gate, log: Log, ops: seq<Op>)
    decreases |ops|
  {
    ops == [] || (!HasSucceeded(g, ops[0]) && NoneSucceeded(Step(g, log, ops[0]).0, Step(g, log, ops[0]).1, ops[1..]))
  }

  function Begin(op: Op): Instant {
    match op
    case BlockedOp(now) => now
    case FetchOp(start, _, _) => start
  }

  /** One operation with the breaker closed. */
  lemma StepClosed(g: Gate, log: Log, op: Op)
    requires g.breaker.openedAt.None?
    ensures Step(g, log, op).0.breaker ==
      if HasSucceeded(g, op) then Success(g.breaker) else if HasFailed(g, op) then Failure(g.breaker, op.done.mono) else g.breaker
  {
    hide Retry;
    if op.FetchOp? {
      RetryReplies(g.limiter, op.attempts, 0);
      var r := Replies(g, op);
      if |r| == 3 && r[2] == HttpFailure {
        assert op.attempts(0).reply == HttpFailure && op.attempts(1).reply == HttpFailure;
        assert r == [HttpFailure, HttpFailure, HttpFailure];
      }
    }
  }

  /** One operation during the pause. */
  lemma StepPaused(g: Gate, log: Log, op: Op)
    requires g.breaker.openedAt.Some? && Begin(op).mono - g.breaker.openedAt.value < g.breaker.cooldown
    ensures Sent(g, op) == [] && Step(g, log, op).0.breaker == g.breaker
  {
    hide Retry;
  }

  // ------------------------------------------------------------ rows of failures

  /** As long as fewer fetches have failed than make a row, and none has brought data, the
      breaker stays closed and counts them. */
  lemma {:induction false} RowCounts(g: Gate, log: Log, ops: seq<Op>)
    requires g.breaker.openedAt.None? && NoneSucceeded(g, log, ops) && g.breaker.failures + Failed(g, log, ops) < g.breaker.threshold
    ensures After(g, log, ops).0.breaker == g.breaker.(failures := g.breaker.failures + Failed(g, log, ops))
    decreases |ops|
  {
    hide Step, HasFailed, HasSucceeded;
    if ops != [] {
      StepClosed(g, log, ops[0]);
      RowCounts(Step(g, log, ops[0]).0, Step(g, log, ops[0]).1, ops[1..]);
    }
  }

  /** What a run sends. */
  function AllSent(g: Gate, log: Log, ops: seq<Op>): seq<Grant>
    decreases |ops|
  {
    if ops == [] then [] else Sent(g, ops[0]) + AllSent(Step(g, log, ops[0]).0, Step(g, log, ops[0]).1, ops[1..])
  }

  predicate AllBegin(ops: seq<Op>, before: real) {
    forall i | 0 <= i < |ops| :: Begin(ops[i]).mono < before
  }

  lemma {:induction false} PauseHolds(g: Gate, log: Log, ops: seq<Op>)
    requires g.breaker.openedAt.Some? && AllBegin(ops, g.breaker.openedAt.value + g.breaker.cooldown)
    ensures AllSent(g, log, ops) == [] && After(g, log, ops).0.breaker == g.breaker
    decreases |ops|
  {
    hide Step, Sent;
    if ops != [] {
      StepPaused(g, log, ops[0]);
      PauseHolds(Step(g, log, ops[0]).0, Step(g, log, ops[0]).1, ops[1..]);
    }
  }

  /** The fetch that completes a row of failures -- as many as the threshold, with no data
      in between, counted from a fresh start, from the last data, or from the end of the last
      pause -- is followed by a pause: nothing is sent until the cooldown has passed. */
  lemma RowPauses(g: Gate, log: Log, row: seq<Op>, last: Op, rest: seq<Op>)
    requires g.breaker.openedAt.None? && g.breaker.failures == 0 && NoneSucceeded(g, log, row)
    requires Failed(g, log, row) == g.breaker.threshold - 1 && g.breaker.threshold > 0
    requires HasFailed(After(g, log, row).0, last) && AllBegin(rest, last.done.mono + g.breaker.cooldown)
    ensures
      var (g1, log1) := After(g, log, row);
      var (g2, log2) := Step(g1, log1, last);
      AllSent(g2, log2, rest) == []
  {
    hide Step, HasFailed, HasSucceeded, AllSent;
    var (g1, log1) := After(g, log, row);
    RowCounts(g, log, row);
    StepClosed(g1, log1, last);
    FailedOnly(g1, last);
    var (g2, log2) := Step(g1, log1, last);
    PauseHolds(g2, log2, rest);
  }

  lemma FailedOnly(g: Gate, op: Op)
    requires HasFailed(g, op)
    ensures !HasSucceeded(g, op) && op.FetchOp?
  {
  }

  /** Short of that the breaker lets a fetch through: only a ban or the cap can hold it. */
  lemma ShortRowLetsThrough(g: Gate, log: Log, row: seq<Op>, start: Instant, attempts: nat -> Attempt, done: Instant)
    requires g.breaker.openedAt.None? && g.breaker.failures == 0 && NoneSucceeded(g, log, row) && Failed(g, log, row) < g.breaker.threshold
    requires attempts(0).at == start
    ensures
      var g1 := After(g, log, row).0;
      Sent(g1, FetchOp(start, attempts, done)) != [] <==>
        start.wall >= g1.bannedUntil && (g1.limiter.cap.Some? ==> CallsToday(g1.limiter, start.day) < g1.limiter.cap.value)
  {
    hide Step, HasFailed, HasSucceeded;
    RowCounts(g, log, row);
    assert Retry(After(g, log, row).0.limiter, attempts, 0).2 != [] <==> Acquire(After(g, log, row).0.limiter, attempts(0).at, attempts(0).woke).1;
  }

  /** Data clears the account. */
  lemma DataClears(g: Gate, log: Log, op: Op)
    requires HasSucceeded(g, op)
    ensures Step(g, log, op).0.breaker == Breaker(g.breaker.threshold, g.breaker.cooldown, 0, None)
  {
    hide Retry;
    RetryReplies(g.limiter, op.attempts, 0);
  }

  /** When the cooldown has passed everything goes on as from a fresh start: a fetch that is
      not held by a ban is let through again, and the next row is counted from nothing. What
      is held by a ban or the cap changes nothing. */
  lemma PauseEnds(g: Gate, log: Log, op: Op)
    requires g.breaker.openedAt.Some? && Begin(op).mono - g.breaker.openedAt.value >= g.breaker.cooldown
    ensures
      var anew := g.(breaker := Breaker(g.breaker.threshold, g.breaker.cooldown, 0, None));
      && Sent(g, op) == Sent(anew, op)
      && (op.FetchOp? && op.start.wall >= g.bannedUntil ==> Step(g, log, op) == Step(anew, log, op))
      && (Step(g, log, op) == Step(anew, log, op) || Step(g, log, op) == (g, log))
  {
    hide Retry;
    assert log == log.(sent := log.sent + []);
  }

  // ------------------------------------------------------------ what is reported

  /** The time left is the time until the breaker lets a request through again, and nothing
      is left exactly if it does so now. */
  lemma TimeLeftIsExact(b: Breaker, now: real, later: real)
    requires now <= later
    ensures var left := Remaining(b, now).1; left >= 0.0 && (Ask(b, later).1 <==> later < now + left)
  {
  }

  /** The reason given is the first that holds: a ban, the cap, the pause. */
  lemma ReasonIsFirst(g: Gate, now: Instant)
    ensures
      var reason := Blocked(g, now).1;
      var banned := now.wall < g.bannedUntil;
      var capped := g.limiter.cap.Some? && CallsToday(g.limiter, now.day) >= g.limiter.cap.value;
      && (reason == Some(Ban) <==> banned)
      && (reason == Some(DailyCap) <==> !banned && capped)
      && (reason == Some(Paused) <==> !banned && !capped && Ask(g.breaker, now.mono).1)
  {
  }
}
