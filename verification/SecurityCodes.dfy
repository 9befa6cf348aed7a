/** The store's answers about sessions, the setup code and pairing codes, told from the
    history alone. */
module SecurityCodes {
  import opened Text
  import opened SecurityStore
  import opened SecurityTraces

  // ------------------------------------------------------------ sessions

  /** What has become of one token: whose it is, until when, and whether its device has
      been logged out since. */
  datatype Lease = Lease(device: nat, isAdmin: bool, expires: real, ended: bool)

  function LeaseAfter(t: Option<Lease>, token: string, e: Event): Option<Lease> {
    match e.op
    case NewSessionOp(u, device, isAdmin) => if u == token then Some(Lease(device, isAdmin, e.now + 900.0, false)) else t
    case EndSessionsOp(device) => if t.Some? && t.value.device == device then Some(t.value.(ended := true)) else t
    case _ => t
  }

  function SessionLease(h: seq<Event>, token: string): Option<Lease> {
    if h == [] then None else LeaseAfter(SessionLease(Init(h), token), token, h[|h| - 1])
  }

  function HasToken(token: string): Session -> bool {
    (c: Session) => c.token == token
  }

  predicate SessionsTell(ss: seq<Session>, t: Option<Lease>, token: string, now: real) {
    var entry := Tracked(ss, HasToken(token));
    && Once(ss, HasToken(token))
    && (entry.Some? ==> t.Some? && !t.value.ended && entry.value.0 == Session(token, t.value.device, t.value.isAdmin, t.value.expires))
    && (t.Some? && !t.value.ended && t.value.expires > now ==> entry.Some?)
  }

  function NextSessions(ss: seq<Session>, op: Op, now: real): seq<Session> {
    var live := Keep(ss, SessionLives(now));
    match op
    case NewSessionOp(token, device, isAdmin) => live + [Session(token, device, isAdmin, now + TokenTtl)]
    case EndSessionsOp(device) => Keep(ss, OfOther(device))
    case NewSetupOp(_) => ss
    case UseSetupOp(_) => ss
    case _ => live
  }

  lemma SessionsStep(s: Store, op: Op, now: real)
    ensures Step(s, op, now).0.sessions == NextSessions(s.sessions, op, now)
  {
    hide Keep, FindChallenge, Oldest, FindCode, Spent, CodesMatch;
  }

  lemma NextSessionsTell(ss: seq<Session>, t: Option<Lease>, token: string, before: real, e: Event)
    requires SessionsTell(ss, t, token, before) && before <= e.now
    requires e.op.NewSessionOp? && e.op.token == token ==> t.None?
    ensures SessionsTell(NextSessions(ss, e.op, e.now), LeaseAfter(t, token, e), token, e.now)
  {
    hide Tracked, Once, Keep;
    var q := HasToken(token);
    KeepTracked(ss, SessionLives(e.now), q);
    var live := Keep(ss, SessionLives(e.now));
    match e.op
    case NewSessionOp(u, device, isAdmin) =>
      var added := Session(u, device, isAdmin, e.now + TokenTtl);
      AppendOnce(live, added, q);
      TrackedMore(live, added, q);
    case EndSessionsOp(device) => KeepTracked(ss, OfOther(device), q);
    case _ =>
  }

  lemma {:induction false} LeaseOfFresh(h: seq<Event>, token: string)
    requires forall i | 0 <= i < |h| :: !(h[i].op.NewSessionOp? && h[i].op.token == token)
    ensures SessionLease(h, token).None?
    decreases |h|
  {
    if h != [] { LeaseOfFresh(Init(h), token); }
  }

  lemma FreshToken(h: seq<Event>, token: string)
    requires Fresh(h) && h != [] && h[|h| - 1].op.NewSessionOp? && h[|h| - 1].op.token == token
    ensures SessionLease(Init(h), token).None?
  {
    forall i | 0 <= i < |Init(h)| ensures !(Init(h)[i].op.NewSessionOp? && Init(h)[i].op.token == token) {
      assert Init(h)[i] == h[i] && !SameSecret(h[i].op, h[|h| - 1].op);
    }
    LeaseOfFresh(Init(h), token);
  }

  lemma NoSessions(token: string, now: real)
    ensures SessionsTell([], None, token, now)
  {
  }

  lemma {:induction false} SessionsTold(h: seq<Event>, token: string)
    requires IsHistory(h) && Fresh(h) && h != []
    ensures SessionsTell(After(h).0.sessions, SessionLease(h, token), token, h[|h| - 1].now)
    decreases |h|
  {
    hide SessionsTell, NextSessions, Step, Fresh, IsHistory, LeaseAfter;
    InitFacts(h);
    var e := h[|h| - 1];
    if |h| == 1 {
      NoSessions(token, e.now);
      EmptyFirst(h);
    } else {
      SessionsTold(Init(h), token);
    }
    if e.op.NewSessionOp? && e.op.token == token { FreshToken(h, token); }
    TimesOrdered(h);
    NextSessionsTell(After(Init(h)).0.sessions, SessionLease(Init(h), token), token, TimeBefore(h), e);
    SessionsStep(After(Init(h)).0, e.op, e.now);
  }

  /** A token stands for a session exactly from its issue until it expires or its device is
      logged out, and then for the device it was issued to. */
  lemma SessionValidIff(h: seq<Event>, token: string, now: real)
    requires IsHistory(h) && Fresh(h) && h != [] && h[|h| - 1].now <= now
    ensures
      var t := SessionLease(h, token);
      SessionOf(After(h).0, token, now)
        == if t.Some? && !t.value.ended && now < t.value.expires then Some(Session(token, t.value.device, t.value.isAdmin, t.value.expires)) else None
  {
    hide FindSession, Tracked, SessionLease;
    SessionsTold(h, token);
    var ss := After(h).0.sessions;
    TrackedIsAt(ss, HasToken(token));
    var k := FindSession(ss, token);
    if k < |ss| {
      assert ss[k] in ss && HasToken(token)(ss[k]);
      OnceIsThat(ss, HasToken(token), k);
    }
  }

  // ------------------------------------------------------------ the setup code

  /** What has become of the setup code last issued: the wrong guesses since, and whether
      it has been used. */
  datatype Guesses = Guesses(code: string, wrong: nat, used: bool)

  function GuessesAfter(t: Option<Guesses>, e: Event): Option<Guesses> {
    match e.op
    case NewSetupOp(code) => Some(Guesses(code, 0, false))
    case UseSetupOp(_) => if t.None? then t else if e.answer then Some(t.value.(used := true)) else Some(t.value.(wrong := t.value.wrong + 1))
    case _ => t
  }

  function SetupGuesses(h: seq<Event>): Option<Guesses> {
    if h == [] then None else GuessesAfter(SetupGuesses(Init(h)), h[|h| - 1])
  }

  predicate SetupTells(setup: Option<Code>, t: Option<Guesses>) {
    && (setup.Some? <==> t.Some? && !t.value.used && t.value.wrong < MaxCodeAttempts)
    && (setup.Some? ==> setup.value == Code(t.value.code, 0.0, MaxCodeAttempts - t.value.wrong))
  }

  lemma {:induction false} SetupTold(h: seq<Event>)
    requires IsHistory(h) && Fresh(h)
    ensures SetupTells(After(h).0.setup, SetupGuesses(h))
    decreases |h|
  {
    hide IsHistory, Fresh, Keep, FindChallenge, Oldest, FindCode, Spent, CodesMatch;
    if h != [] {
      InitFacts(h);
      SetupTold(Init(h));
    }
  }

  /** The setup code lets a device in exactly if it is the one last issued, has not been
      used, and has not been guessed wrong five times. */
  lemma SetupAcceptedIff(h: seq<Event>, given: string)
    requires IsHistory(h) && Fresh(h) && h != [] && h[|h| - 1].op == UseSetupOp(given)
    ensures
      var t := SetupGuesses(Init(h));
      h[|h| - 1].answer <==> t.Some? && !t.value.used && t.value.wrong < 5 && CodesMatch(given, t.value.code)
  {
    hide IsHistory, Fresh, SetupGuesses, After, CodesMatch;
    InitFacts(h);
    SetupTold(Init(h));
  }

  // ------------------------------------------------------------ pairing codes

  /** What has become of one pairing code: until when it is good, the wrong guesses since
      it was issued, whether it has been used, which codes issued after it were still open
      when last looked at, and whether a new one ever found four of those. */
  datatype Pass = Pass(expires: real, wrong: nat, used: bool, later: seq<Code>, crowdedOut: bool)

  function PassAfter(p: Option<Pass>, code: string, e: Event): Option<Pass> {
    match e.op
    case NewPairingOp(c) =>
      if CodesMatch(code, c) then Some(Pass(e.now + 300.0, 0, false, [], false))
      else if p.None? then None
      else
        var open := Keep(p.value.later, CodeLives(e.now));
        Some(p.value.(later := open + [Code(c, e.now + 300.0, 5)], crowdedOut := p.value.crowdedOut || |open| >= 4))
    case UsePairingOp(given) =>
      if p.None? then None
      else
        var open := Keep(p.value.later, CodeLives(e.now));
        if !e.answer then Some(p.value.(wrong := p.value.wrong + 1, later := Spent(open)))
        else if CodesMatch(code, given) then Some(p.value.(used := true))
        else Some(p.value.(later := Keep(open, NotFor(given))))
    case EndSessionsOp(_) => p
    case NewSetupOp(_) => p
    case UseSetupOp(_) => p
    case _ => PurgedPass(p, e.now)
  }

  function PurgedPass(p: Option<Pass>, now: real): Option<Pass> {
    if p.None? then None else Some(p.value.(later := Keep(p.value.later, CodeLives(now))))
  }

  /** The code is good: unused, not guessed wrong five times since, unexpired, and not
      crowded out. */
  predicate IsOpen(p: Option<Pass>, now: real) {
    p.Some? && !p.value.used && p.value.wrong < 5 && now < p.value.expires && !p.value.crowdedOut
  }

  function NotFor(given: string): Code -> bool {
    (c: Code) => !CodesMatch(given, c.code)
  }

  function PairingPass(h: seq<Event>, code: string): Option<Pass> {
    if h == [] then None else PassAfter(PairingPass(Init(h), code), code, h[|h| - 1])
  }

  function ForCode(code: string): Code -> bool {
    (c: Code) => CodesMatch(code, c.code)
  }

  predicate CodesTell(cs: seq<Code>, p: Option<Pass>, code: string, now: real) {
    var entry := Tracked(cs, ForCode(code));
    && |cs| <= MaxPairingCodes
    && Once(cs, ForCode(code))
    && (entry.Some? ==>
        && p.Some? && !p.value.used && p.value.wrong < MaxCodeAttempts && !p.value.crowdedOut
        && entry.value.0.expires == p.value.expires && entry.value.0.left == MaxCodeAttempts - p.value.wrong
        && entry.value.1 == p.value.later)
    && (IsOpen(p, now) ==> entry.Some?)
  }

  /** No two open codes are the same as typed in. */
  predicate CodesDiffer(cs: seq<Code>) {
    forall i, j | 0 <= i < j < |cs| :: !CodesMatch(cs[i].code, cs[j].code)
  }

  lemma {:induction false} KeepDiffer(s: seq<Code>, p: Code -> bool)
    requires CodesDiffer(s)
    ensures CodesDiffer(Keep(s, p))
    decreases |s|
  {
    hide CodesMatch;
    if s != [] {
      var init, last := s[..|s| - 1], s[|s| - 1];
      KeepDiffer(init, p);
      var r := Keep(init, p);
      forall i | 0 <= i < |r| ensures !CodesMatch(r[i].code, last.code) {
        assert r[i] in r && r[i] in init;
        var j :| 0 <= j < |init| && init[j] == r[i];
        assert s[j] == r[i];
      }
    }
  }

  lemma {:induction false} SpentDiffer(s: seq<Code>)
    requires CodesDiffer(s)
    ensures CodesDiffer(Spent(s))
    ensures forall c | c in Spent(s) :: exists d :: d in s && d.code == c.code
    decreases |s|
  {
    hide CodesMatch, Spent;
    if s == [] {
      NothingSpent();
    } else {
      var init, last := s[..|s| - 1], s[|s| - 1];
      SpentDiffer(init);
      SpentMore(s);
      assert s == init + [last] && last in s;
      var r := Spent(init);
      forall c | c in r ensures !CodesMatch(c.code, last.code) && exists d :: d in s && d.code == c.code {
        var d :| d in init && d.code == c.code;
        var j :| 0 <= j < |init| && init[j] == d;
        assert s[j] == d && d in s;
      }
      forall i | 0 <= i < |r| ensures !CodesMatch(r[i].code, last.code) { assert r[i] in r; }
    }
  }

  lemma NothingSpent()
    ensures Spent([]) == []
  {
  }

  lemma {:induction false} SpentTracked(s: seq<Code>, code: string)
    requires Once(s, ForCode(code))
    ensures Once(Spent(s), ForCode(code))
    ensures
      var before := Tracked(s, ForCode(code));
      Tracked(Spent(s), ForCode(code))
        == if before.Some? && before.value.0.left > 1 then Some((before.value.0.(left := before.value.0.left - 1), Spent(before.value.1))) else None
    decreases |s|
  {
    var q := ForCode(code);
    hide Tracked, Once, Spent, CodesMatch, ForCode;
    NothingSpent();
    if s == [] {
      NothingKept(q, q);
      assert s == [];
    } else {
      var init, last := s[..|s| - 1], s[|s| - 1];
      OnceSplit(s, q);
      SpentTracked(init, code);
      TrackedIsAt(Spent(init), q);
      TrackedMore(init, last, q);
      assert s == init + [last];
      SpentMore(s);
      var less := last.(left := last.left - 1);
      SameCode(last, less, code);
      TrackedMore(Spent(init), less, q);
      if last.left > 1 { AppendOnce(Spent(init), less, q); }
      if Tracked(init, q).Some? { SpentOneMore(Tracked(init, q).value.1, last); }
    }
  }

  lemma SpentOneMore(s: seq<Code>, c: Code)
    ensures Spent(s + [c]) == if c.left > 1 then Spent(s) + [c.(left := c.left - 1)] else Spent(s)
  {
    hide Spent;
    SpentMore(s + [c]);
    assert (s + [c])[..|s|] == s;
  }

  lemma SpentMore(s: seq<Code>)
    requires s != []
    ensures
      var init, last := s[..|s| - 1], s[|s| - 1];
      Spent(s) == if last.left > 1 then Spent(init) + [last.(left := last.left - 1)] else Spent(init)
  {
    assert Spent(s[..|s| - 1]) + [] == Spent(s[..|s| - 1]);
  }

  lemma SameCode(c: Code, d: Code, code: string)
    requires c.code == d.code
    ensures ForCode(code)(c) == ForCode(code)(d)
  {
    hide CodesMatch;
  }

  lemma OnceSplit<T>(s: seq<T>, q: T -> bool)
    requires Once(s, q) && s != []
    ensures Once(s[..|s| - 1], q)
    ensures q(s[|s| - 1]) ==> Tracked(s[..|s| - 1], q).None?
  {
    TrackedIsAt(s[..|s| - 1], q);
  }

  function LastFour(cs: seq<Code>): seq<Code> {
    if |cs| <= MaxPairingCodes - 1 then cs else cs[|cs| - (MaxPairingCodes - 1)..]
  }

  function Guessed(cs: seq<Code>, given: string): seq<Code> {
    var k := FindCode(cs, given);
    if k < |cs| then WithoutAt(cs, k) else Spent(cs)
  }

  function NextCodes(cs: seq<Code>, op: Op, now: real): seq<Code> {
    var live := Keep(cs, CodeLives(now));
    match op
    case NewPairingOp(code) => LastFour(live) + [Code(code, now + PairingCodeTtl, MaxCodeAttempts)]
    case UsePairingOp(given) => Guessed(live, given)
    case EndSessionsOp(_) => cs
    case NewSetupOp(_) => cs
    case UseSetupOp(_) => cs
    case _ => live
  }

  lemma CodesStep(s: Store, op: Op, now: real)
    ensures Step(s, op, now).0.pairing == NextCodes(s.pairing, op, now)
    ensures op.UsePairingOp? ==> (Step(s, op, now).1 <==> FindCode(Keep(s.pairing, CodeLives(now)), op.given) < |Keep(s.pairing, CodeLives(now))|)
  {
    hide Keep, FindChallenge, Oldest, FindCode, Spent, CodesMatch;
  }

  lemma PurgedCodesTell(cs: seq<Code>, p: Option<Pass>, code: string, before: real, now: real)
    requires CodesTell(cs, p, code, before) && CodesDiffer(cs) && before <= now
    ensures CodesTell(cs, p, code, now)
    ensures CodesTell(Keep(cs, CodeLives(now)), PurgedPass(p, now), code, now) && CodesDiffer(Keep(cs, CodeLives(now)))
    ensures forall c | c in Keep(cs, CodeLives(now)) :: c.expires > now
  {
    hide Tracked, Once, Keep, CodesMatch, CodesDiffer;
    KeepTracked(cs, CodeLives(now), ForCode(code));
    KeepDiffer(cs, CodeLives(now));
  }

  lemma IssueTells(cs: seq<Code>, p: Option<Pass>, code: string, c: Code, now: real)
    requires CodesTell(cs, p, code, now) && (CodesMatch(code, c.code) ==> p.None?) && c.left == MaxCodeAttempts
    ensures
      var p' := if CodesMatch(code, c.code) then Some(Pass(c.expires, 0, false, [], false))
                else if p.None? then None
                else Some(p.value.(later := p.value.later + [c], crowdedOut := p.value.crowdedOut || |p.value.later| >= MaxPairingCodes - 1));
      CodesTell(LastFour(cs) + [c], p', code, now)
  {
    hide Tracked, Once, CodesMatch;
    var q := ForCode(code);
    SuffixTracked(cs, if |cs| <= MaxPairingCodes - 1 then 0 else |cs| - (MaxPairingCodes - 1), q);
    TrackedIsAt(cs, q);
    assert cs[0..] == cs;
    AppendOnce(LastFour(cs), c, q);
    TrackedMore(LastFour(cs), c, q);
  }

  lemma IssueDiffers(cs: seq<Code>, c: Code)
    requires CodesDiffer(cs) && forall x | x in cs :: !CodesMatch(x.code, c.code)
    ensures CodesDiffer(LastFour(cs) + [c])
  {
    hide CodesMatch;
    forall i | 0 <= i < |cs| ensures !CodesMatch(cs[i].code, c.code) { assert cs[i] in cs; }
  }

  /** Whether a guess is right can be read off the entry it would match. */
  lemma FoundIsTracked(cs: seq<Code>, code: string, given: string)
    requires Once(cs, ForCode(code))
    ensures
      var k := FindCode(cs, given);
      if CodesMatch(code, given) then (k < |cs| <==> Tracked(cs, ForCode(code)).Some?) && (k < |cs| ==> ForCode(code)(cs[k]))
      else k < |cs| ==> !ForCode(code)(cs[k])
  {
    hide Tracked, FindCode, NormalizeCode;
    TrackedIsAt(cs, ForCode(code));
    var k := FindCode(cs, given);
    if k < |cs| { assert cs[k] in cs; }
    forall c | c in cs && k == |cs| ensures !CodesMatch(given, c.code) {
      var i :| 0 <= i < |cs| && cs[i] == c;
    }
  }

  lemma FoundIsKept(cs: seq<Code>, given: string)
    requires CodesDiffer(cs) && FindCode(cs, given) < |cs|
    ensures Guessed(cs, given) == Keep(cs, NotFor(given))
  {
    hide Keep, FindCode, NormalizeCode;
    var k := FindCode(cs, given);
    forall i | 0 <= i < |cs| && i != k ensures NotFor(given)(cs[i]) {
      if k < i { assert !CodesMatch(cs[k].code, cs[i].code); }
    }
    KeepAllBut(cs, k, NotFor(given));
  }

  lemma GuessTells(cs: seq<Code>, p: Option<Pass>, code: string, given: string, answer: bool, now: real)
    requires CodesTell(cs, p, code, now) && CodesDiffer(cs) && (answer <==> FindCode(cs, given) < |cs|)
    ensures
      var p' := if p.None? then None
                else if !answer then Some(p.value.(wrong := p.value.wrong + 1, later := Spent(p.value.later)))
                else if CodesMatch(code, given) then Some(p.value.(used := true))
                else Some(p.value.(later := Keep(p.value.later, NotFor(given))));
      CodesTell(Guessed(cs, given), p', code, now)
    ensures CodesDiffer(Guessed(cs, given))
  {
    hide Tracked, Once, NormalizeCode, FindCode, Spent, Keep, CodesDiffer;
    var q := ForCode(code);
    FoundIsTracked(cs, code, given);
    TrackedIsAt(cs, q);
    if answer {
      FoundIsKept(cs, given);
      KeepTracked(cs, NotFor(given), q);
      KeepDiffer(cs, NotFor(given));
    } else {
      SpentTracked(cs, code);
      SpentDiffer(cs);
    }
  }

  lemma NextCodesTell(cs: seq<Code>, p: Option<Pass>, code: string, before: real, e: Event)
    requires CodesTell(cs, p, code, before) && CodesDiffer(cs) && before <= e.now
    requires e.op.NewPairingOp? && CodesMatch(code, e.op.code) ==> p.None?
    requires e.op.NewPairingOp? ==> forall c | c in cs :: !CodesMatch(c.code, e.op.code)
    requires e.op.UsePairingOp? ==> (e.answer <==> FindCode(Keep(cs, CodeLives(e.now)), e.op.given) < |Keep(cs, CodeLives(e.now))|)
    ensures CodesTell(NextCodes(cs, e.op, e.now), PassAfter(p, code, e), code, e.now) && CodesDiffer(NextCodes(cs, e.op, e.now))
  {
    hide CodesTell, Keep, CodesMatch, FindCode, LastFour, Guessed, CodesDiffer, Spent;
    PurgedCodesTell(cs, p, code, before, e.now);
    var live := Keep(cs, CodeLives(e.now));
    match e.op
    case NewPairingOp(c) =>
      IssueTells(live, PurgedPass(p, e.now), code, Code(c, e.now + PairingCodeTtl, MaxCodeAttempts), e.now);
      IssueDiffers(live, Code(c, e.now + PairingCodeTtl, MaxCodeAttempts));
    case UsePairingOp(given) =>
      GuessTells(live, PurgedPass(p, e.now), code, given, e.answer, e.now);
      ForgetLaterCodes(p, code, given, e.now, live);
    case _ =>
  }

  /** Of a code that has been used only that counts. */
  lemma ForgetLaterCodes(p: Option<Pass>, code: string, given: string, now: real, cs: seq<Code>)
    ensures p.Some? && CodesTell(Guessed(cs, given), Some(PurgedPass(p, now).value.(used := true)), code, now)
      ==> CodesTell(Guessed(cs, given), Some(p.value.(used := true)), code, now)
  {
    hide Tracked, Once, Keep, Guessed, CodesMatch;
  }

  lemma {:induction false} PassOfFresh(h: seq<Event>, code: string)
    requires forall i | 0 <= i < |h| :: !(h[i].op.NewPairingOp? && CodesMatch(code, h[i].op.code))
    ensures PairingPass(h, code).None?
    decreases |h|
  {
    hide CodesMatch;
    if h != [] { PassOfFresh(Init(h), code); }
  }

  lemma FreshCode(h: seq<Event>, code: string)
    requires Fresh(h) && h != [] && h[|h| - 1].op.NewPairingOp? && CodesMatch(code, h[|h| - 1].op.code)
    ensures PairingPass(Init(h), code).None?
  {
    hide NormalizeCode;
    forall i | 0 <= i < |Init(h)| ensures !(Init(h)[i].op.NewPairingOp? && CodesMatch(code, Init(h)[i].op.code)) {
      assert Init(h)[i] == h[i] && !SameSecret(h[i].op, h[|h| - 1].op);
    }
    PassOfFresh(Init(h), code);
  }

  lemma NoCodes(code: string, now: real)
    ensures CodesTell([], None, code, now) && CodesDiffer([])
  {
  }

  predicate CodeIssued(h: seq<Event>, code: string) {
    exists i | 0 <= i < |h| :: h[i].op.NewPairingOp? && h[i].op.code == code
  }

  lemma CodeIssuedStep(h: seq<Event>, code: string)
    requires h != [] && (CodeIssued(Init(h), code) || (h[|h| - 1].op.NewPairingOp? && h[|h| - 1].op.code == code))
    ensures CodeIssued(h, code)
  {
    assert forall i | 0 <= i < |h| - 1 :: Init(h)[i] == h[i];
  }

  lemma OpenBefore(cs: seq<Code>, op: Op, now: real, c: Code)
    requires CodesDiffer(cs) && c in NextCodes(cs, op, now)
    ensures (exists d :: d in cs && d.code == c.code) || (op.NewPairingOp? && op.code == c.code)
  {
    hide Keep, FindCode, Spent, CodesMatch, CodesDiffer;
    KeepDiffer(cs, CodeLives(now));
    SpentDiffer(Keep(cs, CodeLives(now)));
  }

  /** Whatever is open was issued. */
  lemma {:induction false} OpenWereIssued(h: seq<Event>, c: Code)
    requires IsHistory(h) && Fresh(h) && c in After(h).0.pairing
    ensures CodeIssued(h, c.code)
    decreases |h|, 0
  {
    hide Step, Fresh, IsHistory, NextCodes, CodeIssued, CodesMatch;
    if h != [] {
      InitFacts(h);
      CodesStep(After(Init(h)).0, h[|h| - 1].op, h[|h| - 1].now);
      OpenDiffer(Init(h));
      OpenBefore(After(Init(h)).0.pairing, h[|h| - 1].op, h[|h| - 1].now, c);
      if d :| d in After(Init(h)).0.pairing && d.code == c.code { OpenWereIssued(Init(h), d); }
      CodeIssuedStep(h, c.code);
    }
  }

  lemma NewIsNotOpen(h: seq<Event>)
    requires IsHistory(h) && Fresh(h) && h != [] && h[|h| - 1].op.NewPairingOp?
    ensures forall c | c in After(Init(h)).0.pairing :: !CodesMatch(c.code, h[|h| - 1].op.code)
    decreases |h|, 0
  {
    hide After, IsHistory, CodesMatch;
    InitFacts(h);
    forall c | c in After(Init(h)).0.pairing ensures !CodesMatch(c.code, h[|h| - 1].op.code) {
      OpenWereIssued(Init(h), c);
      var i :| 0 <= i < |Init(h)| && Init(h)[i].op.NewPairingOp? && Init(h)[i].op.code == c.code;
      assert Init(h)[i] == h[i] && !SameSecret(h[i].op, h[|h| - 1].op);
    }
  }

  /** No two codes open at a time are the same. */
  lemma {:induction false} OpenDiffer(h: seq<Event>)
    requires IsHistory(h) && Fresh(h)
    ensures CodesDiffer(After(h).0.pairing)
    decreases |h|, 1
  {
    hide Step, Fresh, IsHistory, NextCodes, CodesMatch, CodesDiffer;
    if h == [] {
      NoCodes("", 0.0);
    } else {
      InitFacts(h);
      OpenDiffer(Init(h));
      CodesStep(After(Init(h)).0, h[|h| - 1].op, h[|h| - 1].now);
      if h[|h| - 1].op.NewPairingOp? { NewIsNotOpen(h); }
      NextDiffer(After(Init(h)).0.pairing, h[|h| - 1].op, h[|h| - 1].now);
    }
  }

  lemma NextDiffer(cs: seq<Code>, op: Op, now: real)
    requires CodesDiffer(cs) && (op.NewPairingOp? ==> forall c | c in cs :: !CodesMatch(c.code, op.code))
    ensures CodesDiffer(NextCodes(cs, op, now))
  {
    hide Keep, CodesMatch, FindCode, LastFour, CodesDiffer, Spent;
    var live := Keep(cs, CodeLives(now));
    KeepDiffer(cs, CodeLives(now));
    match op
    case NewPairingOp(c) => IssueDiffers(live, Code(c, now + PairingCodeTtl, MaxCodeAttempts));
    case UsePairingOp(given) =>
      SpentDiffer(live);
      KeepDiffer(live, NotFor(given));
      if FindCode(live, given) < |live| { FoundIsKept(live, given); }
    case _ =>
  }

  lemma {:induction false} CodesTold(h: seq<Event>, code: string)
    requires IsHistory(h) && Fresh(h) && h != []
    ensures CodesTell(After(Init(h)).0.pairing, PairingPass(Init(h), code), code, TimeBefore(h))
    ensures CodesTell(After(h).0.pairing, PairingPass(h, code), code, h[|h| - 1].now)
    ensures CodesDiffer(After(Init(h)).0.pairing)
    decreases |h|
  {
    hide CodesTell, NextCodes, Step, Fresh, IsHistory, PassAfter, CodesMatch, CodesDiffer;
    InitFacts(h);
    var e := h[|h| - 1];
    if |h| == 1 {
      NoCodes(code, e.now);
      EmptyFirst(h);
    } else {
      CodesTold(Init(h), code);
    }
    OpenDiffer(Init(h));
    if e.op.NewPairingOp? && CodesMatch(code, e.op.code) { FreshCode(h, code); }
    if e.op.NewPairingOp? { NewIsNotOpen(h); }
    TimesOrdered(h);
    CodesStep(After(Init(h)).0, e.op, e.now);
    NextCodesTell(After(Init(h)).0.pairing, PairingPass(Init(h), code), code, TimeBefore(h), e);
  }

  /** A pairing code lets one device in exactly if that is within five minutes of its issue,
      it has not been used, there have not been five wrong guesses since, and no new code has
      ever found four issued after this one still open. Never are more than five open. */
  lemma PairingAcceptedIff(h: seq<Event>, given: string)
    requires IsHistory(h) && Fresh(h) && h != [] && h[|h| - 1].op == UsePairingOp(given)
    ensures h[|h| - 1].answer <==> IsOpen(PairingPass(Init(h), given), h[|h| - 1].now)
    ensures |After(h).0.pairing| <= 5
  {
    hide IsHistory, Fresh, Step, Tracked, Once, FindCode, Keep, NormalizeCode, PairingPass, After, CodesDiffer;
    CodesTold(h, given);
    InitFacts(h);
    TimesOrdered(h);
    var e := h[|h| - 1];
    var cs, p := After(Init(h)).0.pairing, PairingPass(Init(h), given);
    CodesStep(After(Init(h)).0, e.op, e.now);
    PurgedCodesTell(cs, p, given, TimeBefore(h), e.now);
    var live := Keep(cs, CodeLives(e.now));
    FoundIsTracked(live, given, given);
    TrackedIsAt(live, ForCode(given));
  }
}
