/** The store as the server keeps it: fields its methods change. */
module SecurityState {
  import opened Text
  import opened SecurityStore

  class State {
    var sessions: seq<Session>
    var challenges: seq<Challenge>
    var setup: Option<Code>
    var pairing: seq<Code>

    function S(): Store
      reads this
    {
      Store(sessions, challenges, setup, pairing)
    }

    constructor ()
      ensures S() == Empty
    {
      sessions, challenges, setup, pairing := [], [], None, [];
    }

    method PurgeExpired(now: real)
      modifies this
      ensures S() == Purge(old(S()), now)
    {
      sessions := Keep(sessions, SessionLives(now));
      challenges := Keep(challenges, ChallengeLives(now));
      pairing := Keep(pairing, CodeLives(now));
    }

    method IssueChallenge(device: nat, nonce: string, now: real)
      modifies this
      ensures S() == NewChallenge(old(S()), device, nonce, now)
    {
      PurgeExpired(now);
      if |challenges| >= MaxChallenges {
        challenges := WithoutAt(challenges, Oldest(challenges));
      }
      challenges := challenges + [Challenge(nonce, device, now + ChallengeTtl)];
    }

    /** Whoever tries a nonce uses it up. */
    method TryChallenge(nonce: string, device: nat, now: real) returns (ok: bool)
      modifies this
      ensures (S(), ok) == TakeChallenge(old(S()), nonce, device, now)
    {
      PurgeExpired(now);
      var k := FindChallenge(challenges, nonce);
      if k == |challenges| {
        return false;
      }
      ok := challenges[k].device == device;
      challenges := WithoutAt(challenges, k);
    }

    method OpenSession(token: string, device: nat, isAdmin: bool, now: real)
      modifies this
      ensures S() == NewSession(old(S()), token, device, isAdmin, now)
    {
      PurgeExpired(now);
      sessions := sessions + [Session(token, device, isAdmin, now + TokenTtl)];
    }

    method LogOut(device: nat)
      modifies this
      ensures S() == EndSessions(old(S()), device)
    {
      sessions := Keep(sessions, OfOther(device));
    }

    method IssueSetupCode(code: string)
      modifies this
      ensures S() == NewSetup(old(S()), code)
    {
      setup := Some(Code(code, 0.0, MaxCodeAttempts));
    }

    method TrySetupCode(given: string) returns (ok: bool)
      modifies this
      ensures (S(), ok) == UseSetup(old(S()), given)
    {
      if setup.None? {
        return false;
      }
      if CodesMatch(given, setup.value.code) {
        setup := None;
        return true;
      }
      setup := Some(setup.value.(left := setup.value.left - 1));
      if setup.value.left <= 0 {
        setup := None;
      }
      return false;
    }

    method IssuePairingCode(code: string, now: real)
      modifies this
      ensures S() == NewPairing(old(S()), code, now)
    {
      PurgeExpired(now);
      if |pairing| > MaxPairingCodes - 1 {
        pairing := pairing[|pairing| - (MaxPairingCodes - 1)..];
      }
      pairing := pairing + [Code(code, now + PairingCodeTtl, MaxCodeAttempts)];
    }

    /** Two passes over the open codes: the first looks for the one that matches, the
        second charges a wrong guess to each. */
    method TryPairingCode(given: string, now: real) returns (ok: bool)
      modifies this
      ensures (S(), ok) == UsePairing(old(S()), given, now)
    {
      hide CodesMatch;
      PurgeExpired(now);
      ghost var purged := S();
      for i := 0 to |pairing|
        invariant S() == purged
        invariant forall j | 0 <= j < i :: !CodesMatch(given, pairing[j].code)
      {
        if CodesMatch(given, pairing[i].code) {
          assert FindCode(pairing, given) == i;
          pairing := WithoutAt(pairing, i);
          return true;
        }
      }
      assert FindCode(pairing, given) == |pairing|;
      var codes := pairing;
      var left: seq<Code> := [];
      for i := 0 to |codes|
        invariant S() == purged
        invariant left == Spent(codes[..i])
      {
        assert codes[..i + 1][..i] == codes[..i];
        var code := codes[i].(left := codes[i].left - 1);
        if code.left > 0 {
          left := left + [code];
        }
      }
      assert codes[..|codes|] == codes;
      pairing := left;
      return false;
    }
  }
}
