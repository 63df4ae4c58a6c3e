/**
  The challenge transactions as methods over the locked tables (internal/adminauth/pgstore/store.go, recovery.go and
  login.go). Writes reach the fields only when the transaction commits.
*/
module ChallengeStore {
  import opened Base
  import opened Challenges

  class Tables {
    var totpEnabled: bool
    var policyVersion: nat
    var accounts: map<nat, Account>
    var credentials: map<nat, Credential>
    var challenges: map<nat, Challenge>
    var codes: map<CodeId, Code>
    var minted: seq<Session>
    var issued: set<nat>

    ghost function Abs(): State
      reads this
    {
      State(totpEnabled, policyVersion, accounts, credentials, challenges, codes, minted, issued)
    }

    constructor ()
      ensures Initial(Abs()) && Inv(Abs()) && !totpEnabled && accounts == map[] && minted == []
    {
      totpEnabled, policyVersion := false, 1;
      accounts, credentials, challenges, codes, minted, issued := map[], map[], map[], map[], [], {};
    }

    /** The locked reads in their order: policy, challenge, account, credential, then the clock. */
    method Load(token: nat, now: int) returns (open: bool)
      ensures open == Open(Abs(), token, now)
    {
      if !totpEnabled || token !in challenges {
        return false;
      }
      var c := challenges[token];
      if c.user !in accounts || !accounts[c.user].enabled || accounts[c.user].role == Unknown {
        return false;
      }
      if c.user !in credentials {
        return false;
      }
      if c.credentialVersion != credentials[c.user].version || c.policyVersion != policyVersion
          || c.userVersion != accounts[c.user].version {
        return false;
      }
      return !c.consumed && c.created <= now < c.expires;
    }

    method CompleteTotp(token: nat, matched: Option<nat>, now: int, later: int, commit: Commit) returns (reply: Reply)
      requires Inv(Abs())
      modifies this
      ensures Inv(Abs())
      ensures (Abs(), reply) == Challenges.CompleteTotp(old(Abs()), token, matched, now, later, commit)
    {
      hide Inv, TenCodes, Records;
      StepKeepsInv(Abs(), DoTotp(token, matched, now, later, commit));
      var open := Load(token, now);
      if !open || challenges[token].attempts >= MAX_ATTEMPTS {
        return InvalidOrReplayed;
      }
      var c := challenges[token];
      var consumed := ConsumeCounter(c.user, matched, later, c);
      match consumed
      case Some(true) =>
        if commit == RolledBack {
          return Unavailable;
        }
        credentials := credentials[c.user := credentials[c.user].(lastCounter := matched.value)];
        challenges := challenges[token := c.(consumed := true)];
        minted := minted + [Session(c.user, policyVersion, accounts[c.user].version)];
        return if commit == Committed then Granted else Unavailable;
      case Some(false) =>
        if commit == RolledBack {
          return Unavailable;
        }
        var attempts := c.attempts + 1;
        challenges := challenges[token := c.(attempts := attempts, consumed := attempts >= MAX_ATTEMPTS)];
        return if commit == Committed then InvalidOrReplayed else Unavailable;
      case None =>
        return Unavailable;
    }

    /** The consumer's decision: accepted, refused, or (`None`) the whole transaction must abort. */
    method ConsumeCounter(user: nat, matched: Option<nat>, later: int, c: Challenge) returns (r: Option<bool>)
      requires user in credentials && !c.consumed && c.attempts < MAX_ATTEMPTS
      ensures r == Some(false) <==> !CounterFresh(Abs(), user, matched)
      ensures r == Some(true) <==> CounterFresh(Abs(), user, matched) && c.created <= later < c.expires
    {
      if matched.None? || matched.value > MAX_INT64 {
        return Some(false);
      }
      if credentials[user].lastCounter >= matched.value {
        return Some(false);
      }
      if c.created <= later && later < c.expires {
        return Some(true);
      }
      return None;
    }

    /** Reads the rows of one credential in slot order; anything but slots 1 to 10 is refused. */
    method ReadRecords(user: nat, version: nat) returns (records: Option<seq<Code>>)
      ensures records.Some? <==> TenCodes(Abs(), user, version)
      ensures records.Some? ==> records.value == Records(Abs(), user, version)
    {
      var found: seq<Code> := [];
      for count := 0 to CODES
        invariant |found| == count
        invariant forall slot | 1 <= slot <= count :: CodeId(user, version, slot) in codes
        invariant forall i | 0 <= i < count :: found[i] == codes[CodeId(user, version, i + 1)]
      {
        var id := CodeId(user, version, count + 1);
        if id !in codes {
          assert !TenCodes(Abs(), user, version);
          return None;
        }
        found := found + [codes[id]];
      }
      if exists k | k in codes :: k.user == user && k.version == version && !(1 <= k.slot <= CODES) {
        return None;
      }
      assert TenCodes(Abs(), user, version);
      assert found == Records(Abs(), user, version);
      return Some(found);
    }

    method Reserve(token: nat, now: int, later: int, commit: Commit) returns (attempt: Option<Attempt>, reply: Reply)
      requires Inv(Abs())
      modifies this
      ensures Inv(Abs())
      ensures (Abs(), attempt, reply) == Challenges.Reserve(old(Abs()), token, now, later, commit)
    {
      hide Inv, TenCodes, Records;
      StepKeepsInv(Abs(), DoReserve(token, now, later, commit));
      var open := Load(token, now);
      if !open || challenges[token].attempts >= MAX_ATTEMPTS {
        return None, InvalidOrReplayed;
      }
      var c := challenges[token];
      var records := ReadRecords(c.user, c.credentialVersion);
      if records.None? {
        return None, Unavailable;
      }
      if later >= c.expires {
        return None, InvalidOrReplayed;
      }
      if commit == RolledBack {
        return None, Unavailable;
      }
      challenges := challenges[token := c.(attempts := c.attempts + 1)];
      if commit == AnswerLost {
        return None, Unavailable;
      }
      attempt := Some(Attempt(token, c.user, c.credentialVersion, accounts[c.user].role, c.policyVersion,
          c.userVersion, records.value, c.attempts + 1));
      return attempt, Granted;
    }

    method Finish(a: Attempt, slot: nat, now: int, later: int, commit: Commit) returns (reply: Reply)
      requires Inv(Abs())
      modifies this
      ensures Inv(Abs())
      ensures (Abs(), reply) == Challenges.Finish(old(Abs()), a, slot, now, later, commit)
    {
      hide Inv, TenCodes, Records;
      StepKeepsInv(Abs(), DoFinish(a, slot, now, later, commit));
      if slot < 1 || slot > CODES || |a.records| != CODES || a.number < 1 || a.number > MAX_ATTEMPTS
          || a.records[slot - 1].consumed {
        return InvalidOrReplayed;
      }
      var open := Load(a.token, now);
      if !open {
        return InvalidOrReplayed;
      }
      var c := challenges[a.token];
      if c.user != a.user || c.credentialVersion != a.credentialVersion || accounts[c.user].role != a.role {
        return InvalidOrReplayed;
      }
      if c.policyVersion != a.policyVersion || c.userVersion != a.userVersion || c.attempts < a.number {
        return InvalidOrReplayed;
      }
      var id := CodeId(c.user, c.credentialVersion, slot);
      if id !in codes || codes[id].consumed || codes[id].hash != a.records[slot - 1].hash {
        return InvalidOrReplayed;
      }
      if c.attempts > MAX_ATTEMPTS || later < c.created || later >= c.expires || commit == RolledBack {
        return Unavailable;
      }
      codes := codes[id := codes[id].(consumed := true)];
      challenges := challenges[a.token := c.(consumed := true)];
      minted := minted + [Session(a.user, a.policyVersion, a.userVersion)];
      return if commit == Committed then Granted else Unavailable;
    }

    method IssueChallenge(user: nat, token: nat, at: int)
      requires Inv(Abs()) && user in accounts && user in credentials && token !in issued
      modifies this
      ensures Inv(Abs())
      ensures Abs() == Issue(old(Abs()), user, token, at)
    {
      hide Inv, TenCodes, Records;
      StepKeepsInv(Abs(), DoIssue(user, token, at));
      var closed := map t | t in challenges :: if challenges[t].user == user && !challenges[t].consumed
          then challenges[t].(consumed := true) else challenges[t];
      assert closed == Closed(Abs(), user);
      challenges := closed[token := Challenge(user, credentials[user].version, policyVersion, accounts[user].version,
          0, false, at, at + FIVE_MINUTES)];
      issued := issued + {token};
    }
  }
}
