/** What the store's answers over a whole history amount to, told from the history alone. */
module SecurityTraces {
  import opened Text
  import opened SecurityStore

  // ------------------------------------------------------------ following one entry

  /** The entry `q` singles out, and those that stand behind it. */
  function Tracked<T>(s: seq<T>, q: T -> bool): Option<(T, seq<T>)> {
    if s == [] then None
    else if q(s[|s| - 1]) then Some((s[|s| - 1], []))
    else
      var r := Tracked(s[..|s| - 1], q);
      if r.None? then None else Some((r.value.0, r.value.1 + [s[|s| - 1]]))
  }

  predicate Once<T>(s: seq<T>, q: T -> bool) {
    forall i, j | 0 <= i < j < |s| :: !(q(s[i]) && q(s[j]))
  }

  lemma {:induction false} TrackedIsAt<T>(s: seq<T>, q: T -> bool)
    ensures Tracked(s, q).None? <==> forall x | x in s :: !q(x)
    ensures Tracked(s, q).Some? ==> var (x, b) := Tracked(s, q).value; |b| < |s| && s[|s| - 1 - |b|] == x && q(x)
    decreases |s|
  {
    if s != [] {
      TrackedIsAt(s[..|s| - 1], q);
      assert s == s[..|s| - 1] + [s[|s| - 1]];
    }
  }

  /** The entry with one more behind it. */
  function WithBehind<T>(r: Option<(T, seq<T>)>, x: T): Option<(T, seq<T>)> {
    if r.None? then None else Some((r.value.0, r.value.1 + [x]))
  }

  lemma TrackedMore<T>(s: seq<T>, x: T, q: T -> bool)
    ensures Tracked(s + [x], q) == if q(x) then Some((x, [])) else WithBehind(Tracked(s, q), x)
  {
    assert (s + [x])[..|s|] == s;
  }

  lemma KeepMore<T>(s: seq<T>, x: T, p: T -> bool)
    ensures Keep(s + [x], p) == if p(x) then Keep(s, p) + [x] else Keep(s, p)
  {
    assert (s + [x])[..|s|] == s;
    assert Keep(s, p) + [] == Keep(s, p);
  }

  lemma {:induction false} KeepTracked<T>(s: seq<T>, p: T -> bool, q: T -> bool)
    requires Once(s, q)
    ensures Once(Keep(s, p), q)
    ensures Tracked(Keep(s, p), q)
      == if Tracked(s, q).Some? && p(Tracked(s, q).value.0) then Some((Tracked(s, q).value.0, Keep(Tracked(s, q).value.1, p))) else None
    decreases |s|
  {
    hide Keep, Tracked;
    if s == [] {
      NothingKept(p, q);
      assert s == [];
    } else {
      var init, last := s[..|s| - 1], s[|s| - 1];
      assert s == init + [last];
      KeepTracked(init, p, q);
      TrackedIsAt(init, q);
      TrackedIsAt(Keep(init, p), q);
      KeepMore(init, last, p);
      TrackedMore(init, last, q);
      NothingKept(p, q);
      if p(last) {
        TrackedMore(Keep(init, p), last, q);
        AppendOnce(Keep(init, p), last, q);
      }
      if Tracked(init, q).Some? { KeepMore(Tracked(init, q).value.1, last, p); }
    }
  }

  lemma NothingKept<T>(p: T -> bool, q: T -> bool)
    ensures Keep([], p) == [] && Tracked([], q).None? && Once([], q)
  {
  }

  lemma {:induction false} SuffixTracked<T>(s: seq<T>, k: nat, q: T -> bool)
    requires k <= |s| && Once(s, q)
    ensures Once(s[k..], q)
    ensures Tracked(s[k..], q) == if Tracked(s, q).Some? && |Tracked(s, q).value.1| < |s| - k then Tracked(s, q) else None
    decreases |s|
  {
    if k < |s| {
      var init, last := s[..|s| - 1], s[|s| - 1];
      SuffixTracked(init, k, q);
      assert s[k..] == init[k..] + [last];
      TrackedMore(init[k..], last, q);
    }
  }

  /** Removing one entry is keeping all others. */
  lemma {:induction false} KeepAllBut<T>(s: seq<T>, k: nat, p: T -> bool)
    requires k < |s| && !p(s[k]) && forall i | 0 <= i < |s| && i != k :: p(s[i])
    ensures Keep(s, p) == WithoutAt(s, k)
    decreases |s|
  {
    hide Keep;
    var init, last := s[..|s| - 1], s[|s| - 1];
    assert s == init + [last];
    KeepMore(init, last, p);
    if k == |s| - 1 {
      forall x | x in init ensures p(x) { var i :| 0 <= i < |init| && init[i] == x; }
      KeepAll(init, p);
    } else {
      KeepAllBut(init, k, p);
    }
  }

  lemma {:induction false} KeepAll<T>(s: seq<T>, p: T -> bool)
    requires forall x | x in s :: p(x)
    ensures Keep(s, p) == s
    decreases |s|
  {
    hide Keep;
    if s == [] {
      NothingKept(p, p);
    } else {
      var init, last := s[..|s| - 1], s[|s| - 1];
      assert s == init + [last] && last in s;
      KeepAll(init, p);
      KeepMore(init, last, p);
    }
  }

  lemma AppendOnce<T>(s: seq<T>, x: T, q: T -> bool)
    requires Once(s, q) && (q(x) ==> Tracked(s, q).None?)
    ensures Once(s + [x], q)
  {
    TrackedIsAt(s, q);
  }

  // ------------------------------------------------------------ histories

  /** No secret is drawn twice. */
  predicate Fresh(h: seq<Event>) {
    forall i, j | 0 <= i < j < |h| :: !SameSecret(h[i].op, h[j].op)
  }

  predicate SameSecret(a: Op, b: Op) {
    match (a, b)
    case (NewChallengeOp(_, n), NewChallengeOp(_, m)) => n == m
    case (NewSessionOp(t, _, _), NewSessionOp(u, _, _)) => t == u
    case (NewPairingOp(c), NewPairingOp(d)) => CodesMatch(c, d)
    case _ => false
  }

  /** The store after a history, without its last event. */
  function Init(h: seq<Event>): seq<Event>
    requires h != []
  {
    h[..|h| - 1]
  }

  lemma LastStep(h: seq<Event>)
    requires h != []
    ensures
      var (s, right) := After(Init(h));
      var e := h[|h| - 1];
      After(h) == (Step(s, e.op, e.now).0, right && Step(s, e.op, e.now).1 == e.answer)
  {
    hide Step;
  }

  lemma InitFacts(h: seq<Event>)
    requires IsHistory(h) && Fresh(h) && h != []
    ensures IsHistory(Init(h)) && Fresh(Init(h))
    ensures After(h).0 == Step(After(Init(h)).0, h[|h| - 1].op, h[|h| - 1].now).0
    ensures h[|h| - 1].answer == Step(After(Init(h)).0, h[|h| - 1].op, h[|h| - 1].now).1
  {
    hide Step, After, SameSecret;
    LastStep(h);
    assert forall i | 0 <= i < |h| - 1 :: Init(h)[i] == h[i];
  }

  // ------------------------------------------------------------ challenges

  /** What has become of one nonce: for whom and until when it was issued, whether anyone
      has tried it, which challenges issued after it were still held when last looked at,
      and whether a new one ever found the store full of those. */
  datatype Ticket = Ticket(device: nat, expires: real, tried: bool, later: seq<Challenge>, crowdedOut: bool)

  function TicketAfter(t: Option<Ticket>, nonce: string, e: Event): Option<Ticket> {
    match e.op
    case NewChallengeOp(device, n) =>
      if n == nonce then Some(Ticket(device, e.now + 60.0, false, [], false))
      else if t.None? then None
      else
        var held := Keep(t.value.later, ChallengeLives(e.now));
        Some(t.value.(later := held + [Challenge(n, device, e.now + 60.0)], crowdedOut := t.value.crowdedOut || |held| >= 999))
    case TakeChallengeOp(n, _) =>
      if t.None? then None
      else if n == nonce then Some(t.value.(tried := true))
      else Some(t.value.(later := Keep(Keep(t.value.later, ChallengeLives(e.now)), OtherNonce(n))))
    case EndSessionsOp(_) => t
    case NewSetupOp(_) => t
    case UseSetupOp(_) => t
    case _ => if t.None? then None else Some(t.value.(later := Keep(t.value.later, ChallengeLives(e.now))))
  }

  function ChallengeTicket(h: seq<Event>, nonce: string): Option<Ticket> {
    if h == [] then None else TicketAfter(ChallengeTicket(Init(h), nonce), nonce, h[|h| - 1])
  }

  /** The challenge is good: untried, unexpired, and not crowded out. */
  predicate IsGood(t: Option<Ticket>, now: real) {
    t.Some? && !t.value.tried && now < t.value.expires && !t.value.crowdedOut
  }

  function OtherNonce(nonce: string): Challenge -> bool {
    (c: Challenge) => c.nonce != nonce
  }

  function HasNonce(nonce: string): Challenge -> bool {
    (c: Challenge) => c.nonce == nonce
  }

  predicate SortedByExpiry(s: seq<Challenge>) {
    forall i, j | 0 <= i <= j < |s| :: s[i].expires <= s[j].expires
  }

  /** What the challenges held say about one nonce's history: it is there exactly if its
      history makes it good, and behind it stand those its history says. */
  predicate ChallengesTell(cs: seq<Challenge>, t: Option<Ticket>, nonce: string, now: real) {
    var entry := Tracked(cs, HasNonce(nonce));
    && Once(cs, HasNonce(nonce))
    && (entry.Some? ==> t.Some? && !t.value.tried && !t.value.crowdedOut && entry.value == (Challenge(nonce, t.value.device, t.value.expires), t.value.later))
    && (IsGood(t, now) ==> entry.Some?)
  }

  predicate AllDistinct(cs: seq<Challenge>) {
    forall i, j | 0 <= i < j < |cs| :: cs[i].nonce != cs[j].nonce
  }

  predicate ChallengesBounded(cs: seq<Challenge>, now: real) {
    && |cs| <= MaxChallenges && SortedByExpiry(cs)
    && forall c | c in cs :: c.expires <= now + ChallengeTtl
  }

  lemma {:induction false} KeepSorted(s: seq<Challenge>, p: Challenge -> bool)
    requires SortedByExpiry(s)
    ensures SortedByExpiry(Keep(s, p))
    decreases |s|
  {
    if s != [] {
      var init, last := s[..|s| - 1], s[|s| - 1];
      KeepSorted(init, p);
      var r := Keep(init, p);
      forall c | c in r ensures c.expires <= last.expires { assert c in init; }
      forall i | 0 <= i < |r| ensures r[i].expires <= last.expires { assert r[i] in r; }
    }
  }

  lemma {:induction false} KeepDistinct(s: seq<Challenge>, p: Challenge -> bool)
    requires AllDistinct(s)
    ensures AllDistinct(Keep(s, p))
    decreases |s|
  {
    if s != [] {
      var init, last := s[..|s| - 1], s[|s| - 1];
      KeepDistinct(init, p);
      var r := Keep(init, p);
      forall c | c in r ensures c.nonce != last.nonce { assert c in init; }
      forall i | 0 <= i < |r| ensures r[i].nonce != last.nonce { assert r[i] in r; }
    }
  }

  /** What the ticket knows of those behind it, once they have been looked at. */
  function Purged(t: Option<Ticket>, now: real): Option<Ticket> {
    if t.None? then None else Some(t.value.(later := Keep(t.value.later, ChallengeLives(now))))
  }

  /** A purge forgets what has expired and nothing else. */
  lemma PurgeTells(cs: seq<Challenge>, t: Option<Ticket>, nonce: string, before: real, now: real)
    requires ChallengesTell(cs, t, nonce, before) && ChallengesBounded(cs, before) && AllDistinct(cs) && before <= now
    ensures ChallengesTell(Keep(cs, ChallengeLives(now)), Purged(t, now), nonce, now) && ChallengesBounded(Keep(cs, ChallengeLives(now)), now)
    ensures AllDistinct(Keep(cs, ChallengeLives(now)))
    ensures forall c | c in Keep(cs, ChallengeLives(now)) :: c.expires > now
  {
    hide Tracked, Once, Keep;
    KeepTracked(cs, ChallengeLives(now), HasNonce(nonce));
    KeepSorted(cs, ChallengeLives(now));
    KeepDistinct(cs, ChallengeLives(now));
  }

  function Untried(cs: seq<Challenge>, nonce: string): seq<Challenge> {
    var k := FindChallenge(cs, nonce);
    if k == |cs| then cs else WithoutAt(cs, k)
  }

  lemma UntriedIsKept(cs: seq<Challenge>, nonce: string)
    requires AllDistinct(cs)
    ensures Untried(cs, nonce) == Keep(cs, OtherNonce(nonce))
  {
    hide Keep, FindChallenge;
    var k := FindChallenge(cs, nonce);
    if k < |cs| {
      forall i | 0 <= i < |cs| ensures OtherNonce(nonce)(cs[i]) <==> i != k {
        if k < i { assert cs[k].nonce != cs[i].nonce; }
      }
      KeepAllBut(cs, k, OtherNonce(nonce));
    } else {
      forall c | c in cs ensures OtherNonce(nonce)(c) { var i :| 0 <= i < |cs| && cs[i] == c; }
      KeepAll(cs, OtherNonce(nonce));
    }
  }

  lemma TryTells(cs: seq<Challenge>, t: Option<Ticket>, nonce: string, tried: string, now: real)
    requires ChallengesTell(cs, t, nonce, now) && ChallengesBounded(cs, now) && AllDistinct(cs)
    ensures
      var t' := if t.None? then None else if tried == nonce then Some(t.value.(tried := true)) else Some(t.value.(later := Keep(t.value.later, OtherNonce(tried))));
      ChallengesTell(Untried(cs, tried), t', nonce, now)
    ensures ChallengesBounded(Untried(cs, tried), now) && AllDistinct(Untried(cs, tried))
  {
    hide Tracked, Once, Keep, Untried;
    UntriedIsKept(cs, tried);
    TrackedIsAt(cs, HasNonce(nonce));
    KeepTracked(cs, OtherNonce(tried), HasNonce(nonce));
    KeepSorted(cs, OtherNonce(tried));
    KeepDistinct(cs, OtherNonce(tried));
  }

  /** A nonce is held exactly if its history makes it good. */
  lemma HeldIffTold(cs: seq<Challenge>, t: Option<Ticket>, nonce: string, now: real)
    requires ChallengesTell(cs, t, nonce, now) && forall c | c in cs :: c.expires > now
    ensures
      var k := FindChallenge(cs, nonce);
      && (k < |cs| <==> IsGood(t, now))
      && (k < |cs| ==> cs[k] == Challenge(nonce, t.value.device, t.value.expires))
  {
    hide Tracked, FindChallenge;
    var k := FindChallenge(cs, nonce);
    TrackedIsAt(cs, HasNonce(nonce));
    if k < |cs| {
      assert HasNonce(nonce)(cs[k]);
      assert cs[k] in cs;
    }
  }

  /** Room is made for a new challenge by giving up the oldest. */
  function WithRoom(cs: seq<Challenge>): seq<Challenge> {
    if |cs| >= MaxChallenges then WithoutAt(cs, Oldest(cs)) else cs
  }

  lemma OldestIsFirst(cs: seq<Challenge>)
    requires SortedByExpiry(cs) && cs != []
    ensures Oldest(cs) == 0
  {
    assert cs[0].expires <= cs[Oldest(cs)].expires;
  }

  lemma SortedTail(cs: seq<Challenge>, k: nat, last: Challenge)
    requires k <= |cs| && SortedByExpiry(cs) && forall c | c in cs :: c.expires <= last.expires
    ensures SortedByExpiry(cs[k..] + [last])
  {
    forall i | 0 <= i < |cs| ensures cs[i].expires <= last.expires { assert cs[i] in cs; }
  }

  lemma AddBounded(cs: seq<Challenge>, device: nat, n: string, now: real)
    requires ChallengesBounded(cs, now)
    ensures ChallengesBounded(WithRoom(cs) + [Challenge(n, device, now + ChallengeTtl)], now)
  {
    hide Oldest, SortedByExpiry;
    var kept := WithRoom(cs);
    if |cs| >= MaxChallenges {
      OldestIsFirst(cs);
      assert kept == cs[1..];
    }
    assert forall c | c in kept :: c in cs;
    SortedTail(cs, |cs| - |kept|, Challenge(n, device, now + ChallengeTtl));
  }

  lemma AddDistinct(cs: seq<Challenge>, c: Challenge)
    requires AllDistinct(cs) && SortedByExpiry(cs) && forall x | x in cs :: x.nonce != c.nonce
    ensures AllDistinct(WithRoom(cs) + [c])
  {
    hide Oldest, SortedByExpiry;
    if |cs| >= MaxChallenges {
      OldestIsFirst(cs);
      assert WithRoom(cs) == cs[1..];
    }
    forall i | 0 <= i < |cs| ensures cs[i].nonce != c.nonce { assert cs[i] in cs; }
  }

  lemma AddTells(cs: seq<Challenge>, t: Option<Ticket>, nonce: string, c: Challenge, now: real)
    requires ChallengesTell(cs, t, nonce, now) && ChallengesBounded(cs, now) && (c.nonce == nonce ==> t.None?)
    ensures
      var t' := if c.nonce == nonce then Some(Ticket(c.device, c.expires, false, [], false))
                else if t.None? then None
                else Some(t.value.(later := t.value.later + [c], crowdedOut := t.value.crowdedOut || |t.value.later| >= MaxChallenges - 1));
      ChallengesTell(WithRoom(cs) + [c], t', nonce, now)
  {
    hide Tracked, Once, Oldest, SortedByExpiry;
    var q := HasNonce(nonce);
    var kept := WithRoom(cs);
    TrackedIsAt(cs, q);
    if |cs| >= MaxChallenges {
      OldestIsFirst(cs);
      assert kept == cs[1..];
      SuffixTracked(cs, 1, q);
    }
    AppendOnce(kept, c, q);
    TrackedMore(kept, c, q);
  }

  lemma OnceIsThat<T>(s: seq<T>, q: T -> bool, k: nat)
    requires Once(s, q) && k < |s| && q(s[k])
    ensures Tracked(s, q).Some? && Tracked(s, q).value.0 == s[k]
  {
    TrackedIsAt(s, q);
  }

  lemma TimePasses(cs: seq<Challenge>, t: Option<Ticket>, nonce: string, before: real, now: real)
    requires ChallengesTell(cs, t, nonce, before) && ChallengesBounded(cs, before) && before <= now
    ensures ChallengesTell(cs, t, nonce, now) && ChallengesBounded(cs, now)
  {
    hide Tracked, Once;
  }

  lemma NothingTells(nonce: string, now: real)
    ensures ChallengesTell([], None, nonce, now) && ChallengesBounded([], now) && AllDistinct([])
  {
  }

  /** The challenges after one operation. */
  function NextChallenges(cs: seq<Challenge>, op: Op, now: real): seq<Challenge> {
    var live := Keep(cs, ChallengeLives(now));
    match op
    case NewChallengeOp(device, n) => WithRoom(live) + [Challenge(n, device, now + ChallengeTtl)]
    case TakeChallengeOp(n, _) => Untried(live, n)
    case EndSessionsOp(_) => cs
    case NewSetupOp(_) => cs
    case UseSetupOp(_) => cs
    case _ => live
  }

  lemma ChallengesStep(s: Store, op: Op, now: real)
    ensures Step(s, op, now).0.challenges == NextChallenges(s.challenges, op, now)
  {
    hide Keep, FindChallenge, Oldest, FindCode, Spent, CodesMatch;
  }

  lemma NextTells(cs: seq<Challenge>, t: Option<Ticket>, nonce: string, before: real, e: Event)
    requires ChallengesTell(cs, t, nonce, before) && ChallengesBounded(cs, before) && AllDistinct(cs) && before <= e.now
    requires e.op.NewChallengeOp? && e.op.nonce == nonce ==> t.None?
    requires e.op.NewChallengeOp? ==> forall c | c in cs :: c.nonce != e.op.nonce
    ensures ChallengesTell(NextChallenges(cs, e.op, e.now), TicketAfter(t, nonce, e), nonce, e.now)
    ensures ChallengesBounded(NextChallenges(cs, e.op, e.now), e.now) && AllDistinct(NextChallenges(cs, e.op, e.now))
  {
    hide ChallengesTell, ChallengesBounded, AllDistinct, Keep, Untried, WithRoom;
    TimePasses(cs, t, nonce, before, e.now);
    PurgeTells(cs, t, nonce, before, e.now);
    var live := Keep(cs, ChallengeLives(e.now));
    match e.op
    case NewChallengeOp(device, n) =>
      var c := Challenge(n, device, e.now + ChallengeTtl);
      AddTells(live, Purged(t, e.now), nonce, c, e.now);
      AddBounded(live, device, n, e.now);
      SortedOf(live, e.now);
      AddDistinct(live, c);
    case TakeChallengeOp(n, _) => TryTells(live, Purged(t, e.now), nonce, n, e.now); ForgetLater(t, nonce, n, e.now, live);
    case _ =>
  }

  lemma SortedOf(cs: seq<Challenge>, now: real)
    requires ChallengesBounded(cs, now)
    ensures SortedByExpiry(cs)
  {
  }

  /** Of a ticket that has been tried only that counts. */
  lemma ForgetLater(t: Option<Ticket>, nonce: string, n: string, now: real, cs: seq<Challenge>)
    requires t.Some? && n == nonce ==> ChallengesTell(Untried(cs, n), Some(t.value.(later := Keep(t.value.later, ChallengeLives(now)), tried := true)), nonce, now)
    ensures t.Some? && n == nonce ==> ChallengesTell(Untried(cs, n), Some(t.value.(tried := true)), nonce, now)
  {
    hide Tracked, Once, Keep, Untried;
  }

  predicate Issued(h: seq<Event>, nonce: string) {
    exists i | 0 <= i < |h| :: h[i].op.NewChallengeOp? && h[i].op.nonce == nonce
  }

  lemma {:induction false} TicketIffIssued(h: seq<Event>, nonce: string)
    ensures ChallengeTicket(h, nonce).Some? <==> Issued(h, nonce)
    decreases |h|
  {
    if h != [] {
      TicketIffIssued(Init(h), nonce);
      IssuedStep(h, nonce);
    }
  }

  lemma IssuedStep(h: seq<Event>, nonce: string)
    requires h != []
    ensures Issued(h, nonce) <==> Issued(Init(h), nonce) || (h[|h| - 1].op.NewChallengeOp? && h[|h| - 1].op.nonce == nonce)
  {
    assert forall i | 0 <= i < |h| - 1 :: Init(h)[i] == h[i];
  }

  lemma FreshNonce(h: seq<Event>, nonce: string)
    requires Fresh(h) && h != [] && h[|h| - 1].op.NewChallengeOp? && h[|h| - 1].op.nonce == nonce
    ensures ChallengeTicket(Init(h), nonce).None?
  {
    TicketIffIssued(Init(h), nonce);
    forall i | 0 <= i < |Init(h)| ensures !(Init(h)[i].op.NewChallengeOp? && Init(h)[i].op.nonce == nonce) {
      assert Init(h)[i] == h[i] && !SameSecret(h[i].op, h[|h| - 1].op);
    }
  }

  /** The time before the last event. */
  function TimeBefore(h: seq<Event>): real
    requires h != []
  {
    if |h| == 1 then h[0].now else h[|h| - 2].now
  }

  /** Whatever is held was issued. */
  lemma {:induction false} HeldWereIssued(h: seq<Event>, c: Challenge)
    requires IsHistory(h) && Fresh(h) && c in After(h).0.challenges
    ensures Issued(h, c.nonce)
    decreases |h|
  {
    hide Step, Fresh, IsHistory, NextChallenges, Issued;
    if h != [] {
      InitFacts(h);
      ChallengesStep(After(Init(h)).0, h[|h| - 1].op, h[|h| - 1].now);
      IssuedStep(h, c.nonce);
      HeldBefore(After(Init(h)).0.challenges, h[|h| - 1].op, h[|h| - 1].now, c);
      if c in After(Init(h)).0.challenges { HeldWereIssued(Init(h), c); }
    }
  }

  lemma HeldBefore(cs: seq<Challenge>, op: Op, now: real, c: Challenge)
    requires c in NextChallenges(cs, op, now)
    ensures c in cs || (op.NewChallengeOp? && op.nonce == c.nonce)
  {
    hide Keep, FindChallenge, Oldest;
  }

  lemma NewIsNotHeld(h: seq<Event>)
    requires IsHistory(h) && Fresh(h) && h != [] && h[|h| - 1].op.NewChallengeOp?
    ensures forall c | c in After(Init(h)).0.challenges :: c.nonce != h[|h| - 1].op.nonce
  {
    hide After, IsHistory;
    InitFacts(h);
    forall c | c in After(Init(h)).0.challenges ensures c.nonce != h[|h| - 1].op.nonce {
      HeldWereIssued(Init(h), c);
      var i :| 0 <= i < |Init(h)| && Init(h)[i].op.NewChallengeOp? && Init(h)[i].op.nonce == c.nonce;
      assert Init(h)[i] == h[i] && !SameSecret(h[i].op, h[|h| - 1].op);
    }
  }

  lemma {:induction false} ChallengesTold(h: seq<Event>, nonce: string)
    requires IsHistory(h) && Fresh(h) && h != []
    ensures ChallengesTell(After(Init(h)).0.challenges, ChallengeTicket(Init(h), nonce), nonce, TimeBefore(h))
    ensures ChallengesBounded(After(Init(h)).0.challenges, TimeBefore(h)) && AllDistinct(After(Init(h)).0.challenges)
    ensures ChallengesTell(After(h).0.challenges, ChallengeTicket(h, nonce), nonce, h[|h| - 1].now)
    ensures ChallengesBounded(After(h).0.challenges, h[|h| - 1].now) && AllDistinct(After(h).0.challenges)
    decreases |h|
  {
    hide ChallengesTell, ChallengesBounded, AllDistinct, NextChallenges, Step, Fresh, IsHistory, Empty, TicketAfter;
    InitFacts(h);
    var e := h[|h| - 1];
    if |h| == 1 {
      NothingTells(nonce, e.now);
      EmptyFirst(h);
    } else {
      ChallengesTold(Init(h), nonce);
    }
    if e.op.NewChallengeOp? && e.op.nonce == nonce { FreshNonce(h, nonce); }
    if e.op.NewChallengeOp? { NewIsNotHeld(h); }
    TimesOrdered(h);
    NextTells(After(Init(h)).0.challenges, ChallengeTicket(Init(h), nonce), nonce, TimeBefore(h), e);
    ChallengesStep(After(Init(h)).0, e.op, e.now);
  }

  lemma EmptyFirst(h: seq<Event>)
    requires |h| == 1
    ensures After(Init(h)) == (Store([], [], None, []), true) && Init(h) == []
  {
  }

  lemma TimesOrdered(h: seq<Event>)
    requires IsHistory(h) && h != []
    ensures TimeBefore(h) <= h[|h| - 1].now
  {
  }

  /** A login challenge is good for one attempt, by the device it was issued to, within a
      minute: that attempt succeeds if and only if it is the first, and no new challenge has
      ever found nine hundred and ninety-nine issued after this one still held. Never are
      more than a thousand held. */
  lemma ChallengeAcceptedIff(h: seq<Event>, nonce: string, device: nat)
    requires IsHistory(h) && Fresh(h) && h != [] && h[|h| - 1].op == TakeChallengeOp(nonce, device)
    ensures
      var t := ChallengeTicket(Init(h), nonce);
      h[|h| - 1].answer <==> IsGood(t, h[|h| - 1].now) && t.value.device == device
    ensures |After(h).0.challenges| <= 1000
  {
    hide Keep, FindChallenge, Tracked, Once, AllDistinct, TicketAfter;
    ChallengesTold(h, nonce);
    InitFacts(h);
    TimesOrdered(h);
    var e := h[|h| - 1];
    var cs, t := After(Init(h)).0.challenges, ChallengeTicket(Init(h), nonce);
    PurgeTells(cs, t, nonce, TimeBefore(h), e.now);
    HeldIffTold(Keep(cs, ChallengeLives(e.now)), Purged(t, e.now), nonce, e.now);
  }

  /** Once a challenge has been tried, by whichever device, nobody gets in with it again. */
  lemma {:induction false} TriedIsTried(h: seq<Event>, more: seq<Event>, nonce: string)
    requires IsHistory(h + more) && Fresh(h + more)
    requires ChallengeTicket(h, nonce).Some? && ChallengeTicket(h, nonce).value.tried
    ensures ChallengeTicket(h + more, nonce).Some? && ChallengeTicket(h + more, nonce).value.tried
    ensures more != [] && more[|more| - 1].op.TakeChallengeOp? && more[|more| - 1].op.nonce == nonce ==> !more[|more| - 1].answer
    decreases |more|
  {
    hide IsHistory, Fresh;
    if more == [] {
      assert h + more == h;
    } else {
      var all := h + more;
      assert Init(all) == h + more[..|more| - 1];
      InitFacts(all);
      TriedIsTried(h, more[..|more| - 1], nonce);
      var e := more[|more| - 1];
      assert all[|all| - 1] == e;
      if e.op.NewChallengeOp? && e.op.nonce == nonce { FreshNonce(all, nonce); }
      if e.op.TakeChallengeOp? && e.op.nonce == nonce { ChallengeAcceptedIff(all, nonce, e.op.device); }
    }
  }
}
