/** The in-memory store of short-lived secrets: login challenges, sessions, and the one-time
    codes devices are paired with. Times are seconds, secrets are given from outside. */
module SecurityStore {
  import opened Text

  const TokenTtl := 900.0
  const ChallengeTtl := 60.0
  const PairingCodeTtl := 300.0
  const MaxCodeAttempts: nat := 5
  const MaxChallenges: nat := 1000
  const MaxPairingCodes: nat := 5

  // ------------------------------------------------------------ codes as typed in

  function UpperChar(c: char): char {
    if 'a' <= c <= 'z' then (c as int - 32) as char else c
  }

  predicate IsAlnum(c: char) {
    IsDigit(c) || 'a' <= c <= 'z' || 'A' <= c <= 'Z'
  }

  /** `normalize_code` */
  function NormalizeCode(code: string): string {
    if code == "" then ""
    else NormalizeCode(code[..|code| - 1]) + if IsAlnum(UpperChar(code[|code| - 1])) then [UpperChar(code[|code| - 1])] else ""
  }

  predicate CodesMatch(given: string, expected: string) {
    NormalizeCode(given) == NormalizeCode(expected)
  }

  predicate IsCodeChar(c: char) {
    c in "23456789ABCDEFGHJKMNPQRSTUVWXYZ"
  }

  /** `new_code`, from the characters drawn: a dash after every fourth. */
  function Dashed(raw: string): string {
    if |raw| <= 4 then raw else raw[..4] + "-" + Dashed(raw[4..])
  }

  lemma {:induction false} NormalizeAppend(a: string, b: string)
    ensures NormalizeCode(a + b) == NormalizeCode(a) + NormalizeCode(b)
    decreases |b|
  {
    if b == "" {
      assert a + b == a;
    } else {
      assert (a + b)[..|a + b| - 1] == a + b[..|b| - 1];
      NormalizeAppend(a, b[..|b| - 1]);
    }
  }

  lemma {:induction false} NormalizedRaw(raw: string)
    requires forall c | c in raw :: IsCodeChar(c)
    ensures NormalizeCode(raw) == raw
    decreases |raw|
  {
    hide IsCodeChar;
    if raw != "" {
      NormalizedRaw(raw[..|raw| - 1]);
      assert IsCodeChar(raw[|raw| - 1]);
      CodeCharStays(raw[|raw| - 1]);
    }
  }

  lemma CodeCharStays(c: char)
    requires IsCodeChar(c)
    ensures UpperChar(c) == c && IsAlnum(c)
  {
    var i :| 0 <= i < 31 && "23456789ABCDEFGHJKMNPQRSTUVWXYZ"[i] == c;
    assert forall k | 0 <= k < 8 :: IsDigit("23456789"[k]);
    assert i < 8 ==> c == "23456789"[i];
  }

  /** A code is recognised as drawn, with the dashes it is shown with or without them. */
  lemma {:induction false} DashesDoNotMatter(raw: string)
    requires forall c | c in raw :: IsCodeChar(c)
    ensures NormalizeCode(Dashed(raw)) == raw
    decreases |raw|
  {
    if |raw| <= 4 {
      NormalizedRaw(raw);
    } else {
      NormalizedRaw(raw[..4]);
      DashesDoNotMatter(raw[4..]);
      NormalizeAppend(raw[..4] + "-", Dashed(raw[4..]));
      NormalizeAppend(raw[..4], "-");
      assert NormalizeCode("-") == "" by { assert "-"[..0] == ""; }
      assert raw == raw[..4] + raw[4..];
    }
  }

  /** The letters and digits of what was typed. */
  function Letters(s: string): string {
    if s == "" then ""
    else
      var c := s[|s| - 1];
      Letters(s[..|s| - 1]) + if '0' <= c <= '9' || 'a' <= c <= 'z' || 'A' <= c <= 'Z' then [c] else ""
  }

  lemma {:induction false} NormalizedLetters(s: string)
    ensures |NormalizeCode(s)| == |Letters(s)|
    ensures forall i | 0 <= i < |Letters(s)| :: NormalizeCode(s)[i] == UpperChar(Letters(s)[i])
    decreases |s|
  {
    if s != "" { NormalizedLetters(s[..|s| - 1]); }
  }

  lemma SameUpperSameLower(c: char, d: char)
    ensures UpperChar(c) == UpperChar(d) <==> LowerChar(c) == LowerChar(d)
  {
  }

  /** What is typed matches a code exactly if it has the same letters and digits, in whatever
      case, and whatever else was typed between them. */
  lemma CodesMatchIff(given: string, expected: string)
    ensures CodesMatch(given, expected) <==> Lower(Letters(given)) == Lower(Letters(expected))
  {
    NormalizedLetters(given);
    NormalizedLetters(expected);
    var a, b := Letters(given), Letters(expected);
    if |a| == |b| {
      forall i | 0 <= i < |a| ensures NormalizeCode(given)[i] == NormalizeCode(expected)[i] <==> Lower(a)[i] == Lower(b)[i] {
        SameUpperSameLower(a[i], b[i]);
      }
      if CodesMatch(given, expected) {
        forall i | 0 <= i < |a| ensures Lower(a)[i] == Lower(b)[i] { assert NormalizeCode(given)[i] == NormalizeCode(expected)[i]; }
      }
      if Lower(a) == Lower(b) {
        forall i | 0 <= i < |a| ensures NormalizeCode(given)[i] == NormalizeCode(expected)[i] { assert Lower(a)[i] == Lower(b)[i]; }
      }
    }
  }

  // ------------------------------------------------------------ the store

  datatype Challenge = Challenge(nonce: string, device: nat, expires: real)
  datatype Session = Session(token: string, device: nat, isAdmin: bool, expires: real)
  datatype Code = Code(code: string, expires: real, left: int)

  /** Python's dicts keep the order of insertion; the setup code has no expiry. */
  datatype Store = Store(sessions: seq<Session>, challenges: seq<Challenge>, setup: Option<Code>, pairing: seq<Code>)

  const Empty := Store([], [], None, [])

  /** `[x for x in s if p(x)]` */
  function Keep<T>(s: seq<T>, p: T -> bool): (r: seq<T>)
    ensures |r| <= |s|
    ensures forall x | x in r :: x in s && p(x)
  {
    if s == [] then [] else Keep(s[..|s| - 1], p) + if p(s[|s| - 1]) then [s[|s| - 1]] else []
  }

  function SessionLives(now: real): Session -> bool {
    (c: Session) => c.expires > now
  }

  function ChallengeLives(now: real): Challenge -> bool {
    (c: Challenge) => c.expires > now
  }

  function CodeLives(now: real): Code -> bool {
    (c: Code) => c.expires > now
  }

  /** `purge` */
  function Purge(s: Store, now: real): Store {
    s.(sessions := Keep(s.sessions, SessionLives(now)),
       challenges := Keep(s.challenges, ChallengeLives(now)),
       pairing := Keep(s.pairing, CodeLives(now)))
  }

  /** `min(...)`: the first of those that expire earliest. */
  function Oldest(s: seq<Challenge>): (k: nat)
    requires s != []
    ensures k < |s| && forall i | 0 <= i < |s| :: s[k].expires <= s[i].expires && (i < k ==> s[k].expires < s[i].expires)
  {
    if |s| == 1 then 0
    else
      var k := Oldest(s[..|s| - 1]);
      assert forall i | 0 <= i < |s| - 1 :: s[..|s| - 1][i] == s[i];
      if s[|s| - 1].expires < s[k].expires then |s| - 1 else k
  }

  function WithoutAt<T>(s: seq<T>, k: nat): seq<T>
    requires k < |s|
  {
    s[..k] + s[k + 1..]
  }

  /** `new_challenge` */
  function NewChallenge(s: Store, device: nat, nonce: string, now: real): Store {
    var s := Purge(s, now);
    var kept := if |s.challenges| >= MaxChallenges then WithoutAt(s.challenges, Oldest(s.challenges)) else s.challenges;
    s.(challenges := kept + [Challenge(nonce, device, now + ChallengeTtl)])
  }

  function FindChallenge(s: seq<Challenge>, nonce: string): (k: nat)
    ensures k <= |s| && (k < |s| ==> s[k].nonce == nonce)
    ensures forall i | 0 <= i < k :: s[i].nonce != nonce
  {
    if s == [] then 0 else if s[0].nonce == nonce then 0 else FindChallenge(s[1..], nonce) + 1
  }

  /** `take_challenge` */
  function TakeChallenge(s: Store, nonce: string, device: nat, now: real): (Store, bool) {
    var s := Purge(s, now);
    var k := FindChallenge(s.challenges, nonce);
    if k == |s.challenges| then (s, false)
    else (s.(challenges := WithoutAt(s.challenges, k)), s.challenges[k].device == device)
  }

  /** `new_session` */
  function NewSession(s: Store, token: string, device: nat, isAdmin: bool, now: real): Store {
    var s := Purge(s, now);
    s.(sessions := s.sessions + [Session(token, device, isAdmin, now + TokenTtl)])
  }

  function FindSession(s: seq<Session>, token: string): (k: nat)
    ensures k <= |s| && (k < |s| ==> s[k].token == token)
    ensures forall i | 0 <= i < k :: s[i].token != token
  {
    if s == [] then 0 else if s[0].token == token then 0 else FindSession(s[1..], token) + 1
  }

  /** `session` */
  function SessionOf(s: Store, token: string, now: real): Option<Session> {
    var k := FindSession(s.sessions, token);
    if k == |s.sessions| || s.sessions[k].expires <= now then None else Some(s.sessions[k])
  }

  function OfOther(device: nat): Session -> bool {
    (c: Session) => c.device != device
  }

  /** `end_sessions` */
  function EndSessions(s: Store, device: nat): Store {
    s.(sessions := Keep(s.sessions, OfOther(device)))
  }

  /** `new_setup_code` */
  function NewSetup(s: Store, code: string): Store {
    s.(setup := Some(Code(code, 0.0, MaxCodeAttempts)))
  }

  /** `use_setup_code` */
  function UseSetup(s: Store, given: string): (Store, bool) {
    if s.setup.None? then (s, false)
    else if CodesMatch(given, s.setup.value.code) then (s.(setup := None), true)
    else
      var left := s.setup.value.left - 1;
      (s.(setup := if left <= 0 then None else Some(s.setup.value.(left := left))), false)
  }

  /** `new_pairing_code`: the last four open ones stay. */
  function NewPairing(s: Store, code: string, now: real): Store {
    var s := Purge(s, now);
    var n := |s.pairing|;
    var kept := if n <= MaxPairingCodes - 1 then s.pairing else s.pairing[n - (MaxPairingCodes - 1)..];
    s.(pairing := kept + [Code(code, now + PairingCodeTtl, MaxCodeAttempts)])
  }

  function FindCode(s: seq<Code>, given: string): (k: nat)
    ensures k <= |s| && (k < |s| ==> CodesMatch(given, s[k].code))
    ensures forall i | 0 <= i < k :: !CodesMatch(given, s[i].code)
  {
    if s == [] then 0 else if CodesMatch(given, s[0].code) then 0 else FindCode(s[1..], given) + 1
  }

  /** A wrong guess costs every open code an attempt. */
  function Spent(s: seq<Code>): (r: seq<Code>)
    ensures |r| <= |s|
  {
    if s == [] then []
    else
      var last := s[|s| - 1];
      Spent(s[..|s| - 1]) + if last.left - 1 <= 0 then [] else [last.(left := last.left - 1)]
  }

  /** `use_pairing_code` */
  function UsePairing(s: Store, given: string, now: real): (Store, bool) {
    var s := Purge(s, now);
    var k := FindCode(s.pairing, given);
    if k < |s.pairing| then (s.(pairing := WithoutAt(s.pairing, k)), true)
    else (s.(pairing := Spent(s.pairing)), false)
  }

  // ------------------------------------------------------------ runs

  datatype Op =
    | NewChallengeOp(device: nat, nonce: string)
    | TakeChallengeOp(nonce: string, device: nat)
    | NewSessionOp(token: string, device: nat, isAdmin: bool)
    | EndSessionsOp(device: nat)
    | NewSetupOp(code: string)
    | UseSetupOp(given: string)
    | NewPairingOp(code: string)
    | UsePairingOp(given: string)
    | PurgeOp

  /** An operation, when it was called, and what it answered. */
  datatype Event = Event(op: Op, now: real, answer: bool)

  function Step(s: Store, op: Op, now: real): (Store, bool) {
    match op
    case NewChallengeOp(device, nonce) => (NewChallenge(s, device, nonce, now), true)
    case TakeChallengeOp(nonce, device) => TakeChallenge(s, nonce, device, now)
    case NewSessionOp(token, device, isAdmin) => (NewSession(s, token, device, isAdmin, now), true)
    case EndSessionsOp(device) => (EndSessions(s, device), true)
    case NewSetupOp(code) => (NewSetup(s, code), true)
    case UseSetupOp(given) => UseSetup(s, given)
    case NewPairingOp(code) => (NewPairing(s, code, now), true)
    case UsePairingOp(given) => UsePairing(s, given, now)
    case PurgeOp => (Purge(s, now), true)
  }

  /** The store after the events, and whether their answers are the ones it gave. */
  function After(h: seq<Event>): (Store, bool) {
    if h == [] then (Empty, true)
    else
      var last := h[|h| - 1];
      var (s, right) := After(h[..|h| - 1]);
      (Step(s, last.op, last.now).0, right && Step(s, last.op, last.now).1 == last.answer)
  }

  /** A history of the store under a clock that does not run backwards. */
  predicate IsHistory(h: seq<Event>) {
    After(h).1 && forall i, j | 0 <= i < j < |h| :: h[i].now <= h[j].now
  }
}
