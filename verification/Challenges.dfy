/**
  Second-factor challenges: TOTP completion (internal/adminauth/pgstore/store.go, internal/adminauth/totp.go),
  two-transaction recovery codes (recovery.go) and the counters they share with reauthentication (reauth.go).

  Every transaction is one step and the steps of any number of requests interleave freely. HMAC and Argon2 are
  abstract: a TOTP completion carries the counter its digits matched, a recovery the slot its code matched.
*/
module Challenges {
  import opened Base

  /** `Unknown` stands for a role without capabilities. */
  datatype Role = Admin | Operator | Viewer | Unknown

  datatype Account = Account(role: Role, enabled: bool, version: nat)

  datatype Credential = Credential(version: nat, lastCounter: int)

  datatype Challenge = Challenge(
    user: nat, credentialVersion: nat, policyVersion: nat, userVersion: nat,
    attempts: nat, consumed: bool, created: int, expires: int)

  datatype CodeId = CodeId(user: nat, version: nat, slot: nat)

  datatype Code = Code(hash: string, consumed: bool)

  /** What a reservation hands to the Argon2 phase: the context it read, all ten records and its number. */
  datatype Attempt = Attempt(
    token: nat, user: nat, credentialVersion: nat, role: Role, policyVersion: nat, userVersion: nat,
    records: seq<Code>, number: nat)

  datatype Session = Session(user: nat, policyVersion: nat, userVersion: nat)

  /** `minted` is every session ever inserted, `issued` every challenge token ever inserted. */
  datatype State = State(
    totpEnabled: bool, policyVersion: nat, accounts: map<nat, Account>, credentials: map<nat, Credential>,
    challenges: map<nat, Challenge>, codes: map<CodeId, Code>, minted: seq<Session>, issued: set<nat>)

  datatype Reply = Granted | InvalidOrReplayed | Unavailable

  const MAX_ATTEMPTS: nat := 5

  const CODES: nat := 10

  const MAX_INT64: int := 9223372036854775807

  const FIVE_MINUTES: int := 300 * MICROS_PER_SECOND

  /** The checks both completions make on the locked rows; the attempt budgets are their own. */
  predicate Open(s: State, token: nat, now: int) {
    && s.totpEnabled && token in s.challenges
    && (var c := s.challenges[token];
        && c.user in s.accounts && s.accounts[c.user].enabled && s.accounts[c.user].role != Unknown
        && c.user in s.credentials
        && c.credentialVersion == s.credentials[c.user].version && c.policyVersion == s.policyVersion
        && c.userVersion == s.accounts[c.user].version && !c.consumed && c.created <= now < c.expires)
  }

  // ---------------------------------------------------------------- TOTP completion

  predicate CounterFresh(s: State, user: nat, matched: Option<nat>) {
    user in s.credentials && matched.Some? && matched.value <= MAX_INT64
        && s.credentials[user].lastCounter < matched.value
  }

  function LoggedIn(s: State, token: nat, counter: nat): State
    requires token in s.challenges && s.challenges[token].user in s.credentials
  {
    var c := s.challenges[token];
    s.(credentials := s.credentials[c.user := s.credentials[c.user].(lastCounter := counter)],
       challenges := s.challenges[token := c.(consumed := true)],
       minted := s.minted + [Session(c.user, c.policyVersion, c.userVersion)])
  }

  function Missed(s: State, token: nat): State
    requires token in s.challenges
  {
    var c := s.challenges[token];
    s.(challenges := s.challenges[token := c.(attempts := c.attempts + 1, consumed := c.attempts + 1 >= MAX_ATTEMPTS)])
  }

  /** `matched` is the counter the digits matched and `later` the clock at the write. */
  function CompleteTotp(
      s: State, token: nat, matched: Option<nat>, now: int, later: int, commit: Commit): (State, Reply) {
    if !Open(s, token, now) || s.challenges[token].attempts >= MAX_ATTEMPTS then (s, InvalidOrReplayed)
    else if CounterFresh(s, s.challenges[token].user, matched) then
      if !(s.challenges[token].created <= later < s.challenges[token].expires) || commit == RolledBack
          then (s, Unavailable)
      else (LoggedIn(s, token, matched.value), if commit == Committed then Granted else Unavailable)
    else if commit == RolledBack then (s, Unavailable)
    else (Missed(s, token), if commit == Committed then InvalidOrReplayed else Unavailable)
  }

  // ---------------------------------------------------------------- recovery codes

  predicate TenCodes(s: State, user: nat, version: nat) {
    && (forall slot | 1 <= slot <= CODES :: CodeId(user, version, slot) in s.codes)
    && (forall k | k in s.codes :: k.user == user && k.version == version ==> 1 <= k.slot <= CODES)
  }

  function Records(s: State, user: nat, version: nat): seq<Code>
    requires TenCodes(s, user, version)
  {
    seq(CODES, i requires 0 <= i < CODES => s.codes[CodeId(user, version, i + 1)])
  }

  function Reserved(s: State, token: nat): State
    requires token in s.challenges
  {
    s.(challenges := s.challenges[token := s.challenges[token].(attempts := s.challenges[token].attempts + 1)])
  }

  function AttemptOn(s: State, token: nat, records: seq<Code>): Attempt
    requires token in s.challenges && s.challenges[token].user in s.accounts
  {
    var c := s.challenges[token];
    Attempt(token, c.user, c.credentialVersion, s.accounts[c.user].role, c.policyVersion, c.userVersion, records,
        c.attempts + 1)
  }

  /** The first transaction charges the shared budget before any hashing. */
  function Reserve(s: State, token: nat, now: int, later: int, commit: Commit): (State, Option<Attempt>, Reply) {
    if !Open(s, token, now) || s.challenges[token].attempts >= MAX_ATTEMPTS then (s, None, InvalidOrReplayed)
    else if !TenCodes(s, s.challenges[token].user, s.challenges[token].credentialVersion) then (s, None, Unavailable)
    else if later >= s.challenges[token].expires then (s, None, InvalidOrReplayed)
    else if commit == RolledBack then (s, None, Unavailable)
    else if commit == AnswerLost then (Reserved(s, token), None, Unavailable)
    else
      (Reserved(s, token),
       Some(AttemptOn(s, token, Records(s, s.challenges[token].user, s.challenges[token].credentialVersion))),
       Granted)
  }

  function CodeOf(a: Attempt, slot: nat): CodeId {
    CodeId(a.user, a.credentialVersion, slot)
  }

  predicate SameContext(s: State, a: Attempt)
    requires a.token in s.challenges && s.challenges[a.token].user in s.accounts
  {
    var c := s.challenges[a.token];
    && c.user == a.user && c.credentialVersion == a.credentialVersion && c.policyVersion == a.policyVersion
    && c.userVersion == a.userVersion && s.accounts[c.user].role == a.role && a.number <= c.attempts
  }

  predicate CodeReady(s: State, a: Attempt, slot: nat)
    requires 1 <= slot <= |a.records|
  {
    CodeOf(a, slot) in s.codes && s.codes[CodeOf(a, slot)] == Code(a.records[slot - 1].hash, false)
  }

  function Recovered(s: State, a: Attempt, slot: nat): State
    requires a.token in s.challenges && CodeOf(a, slot) in s.codes
  {
    s.(codes := s.codes[CodeOf(a, slot) := s.codes[CodeOf(a, slot)].(consumed := true)],
       challenges := s.challenges[a.token := s.challenges[a.token].(consumed := true)],
       minted := s.minted + [Session(a.user, a.policyVersion, a.userVersion)])
  }

  /** The second transaction checks everything again and writes code, challenge and session together. */
  function Finish(s: State, a: Attempt, slot: nat, now: int, later: int, commit: Commit): (State, Reply) {
    if !(1 <= slot <= CODES) || |a.records| != CODES || !(1 <= a.number <= MAX_ATTEMPTS)
        || a.records[slot - 1].consumed then
      (s, InvalidOrReplayed)
    else if !Open(s, a.token, now) || !SameContext(s, a) || !CodeReady(s, a, slot) then (s, InvalidOrReplayed)
    else
      var c := s.challenges[a.token];
      if c.attempts > MAX_ATTEMPTS || !(c.created <= later < c.expires) || commit == RolledBack then (s, Unavailable)
      else (Recovered(s, a, slot), if commit == Committed then Granted else Unavailable)
  }

  // ---------------------------------------------------------------- the rest of the authentication tables

  function Closed(s: State, user: nat): map<nat, Challenge> {
    map t | t in s.challenges :: if s.challenges[t].user == user then s.challenges[t].(consumed := true)
        else s.challenges[t]
  }

  /** A password login closes the user's pending challenges and inserts a new one. */
  function Issue(s: State, user: nat, token: nat, at: int): State
    requires user in s.accounts && user in s.credentials
  {
    var c := Challenge(user, s.credentials[user].version, s.policyVersion, s.accounts[user].version, 0, false, at,
        at + FIVE_MINUTES);
    s.(challenges := Closed(s, user)[token := c], issued := s.issued + {token})
  }

  /** Reauthentication consumes counters of the same credential; the flag says whether the counter was accepted. */
  function ReauthCounter(s: State, user: nat, matched: Option<nat>): (State, bool) {
    if !CounterFresh(s, user, matched) then (s, false)
    else (s.(credentials := s.credentials[user := s.credentials[user].(lastCounter := matched.value)]), true)
  }

  /** Enrollment creates the credential under the account's version, with its first counter and ten codes. */
  function Enroll(s: State, user: nat, counter: nat, hashes: seq<string>): State
    requires user in s.accounts && user !in s.credentials && |hashes| == CODES
  {
    var v := s.accounts[user].version;
    var rows := map slot | 1 <= slot <= CODES :: CodeId(user, v, slot) := Code(hashes[slot - 1], false);
    s.(credentials := s.credentials[user := Credential(v, counter)], codes := s.codes + rows,
        challenges := Closed(s, user),
       minted := s.minted + [Session(user, s.policyVersion, v)])
  }

  /** Every account change deletes its challenges and bumps its version; a reset also drops credential and codes. */
  function ChangeAccount(s: State, user: nat, role: Role, enabled: bool, reset: bool): State
    requires user in s.accounts
  {
    s.(accounts := s.accounts[user := Account(role, enabled, s.accounts[user].version + 1)],
       challenges := map t | t in s.challenges && s.challenges[t].user != user :: s.challenges[t],
       credentials := if reset then s.credentials - {user} else s.credentials,
       codes := if reset then (map k | k in s.codes && k.user != user :: s.codes[k]) else s.codes)
  }

  function ChangePolicy(s: State, enabled: bool): State {
    s.(totpEnabled := enabled, policyVersion := s.policyVersion + 1, challenges := map[])
  }

  datatype Event =
    | DoTotp(token: nat, matched: Option<nat>, now: int, later: int, commit: Commit)
    | DoReserve(token: nat, now: int, later: int, commit: Commit)
    | DoFinish(attempt: Attempt, slot: nat, now: int, later: int, commit: Commit)
    | DoIssue(user: nat, token: nat, at: int)
    | DoReauth(user: nat, matched: Option<nat>)
    | DoEnroll(user: nat, counter: nat, hashes: seq<string>)
    | DoChangeAccount(user: nat, role: Role, enabled: bool, reset: bool)
    | DoChangePolicy(enabled: bool)
    | DoAddAccount(user: nat, role: Role)

  /**
    Tokens are random, so an issued one is never drawn again. Finish takes any attempt whatsoever, so that
    repeated, reordered and raced completions are all runs.
  */
  predicate Permitted(s: State, e: Event) {
    match e
    case DoIssue(user, token, _) => user in s.accounts && user in s.credentials && token !in s.issued
    case DoEnroll(user, _, hashes) => user in s.accounts && user !in s.credentials && |hashes| == CODES
    case DoChangeAccount(user, _, _, _) => user in s.accounts
    case DoAddAccount(user, _) => user !in s.accounts
    case _ => true
  }

  function Step(s: State, e: Event): State
    requires Permitted(s, e)
  {
    match e
    case DoTotp(token, matched, now, later, commit) => CompleteTotp(s, token, matched, now, later, commit).0
    case DoReserve(token, now, later, commit) => Reserve(s, token, now, later, commit).0
    case DoFinish(a, slot, now, later, commit) => Finish(s, a, slot, now, later, commit).0
    case DoIssue(user, token, at) => Issue(s, user, token, at)
    case DoReauth(user, matched) => ReauthCounter(s, user, matched).0
    case DoEnroll(user, counter, hashes) => Enroll(s, user, counter, hashes)
    case DoChangeAccount(user, role, enabled, reset) => ChangeAccount(s, user, role, enabled, reset)
    case DoChangePolicy(enabled) => ChangePolicy(s, enabled)
    case DoAddAccount(user, role) => s.(accounts := s.accounts[user := Account(role, true, 1)])
  }

  /** `es` is a run from `s`. */
  predicate Runs(s: State, es: seq<Event>)
    decreases |es|
  {
    es == [] || (Permitted(s, es[0]) && Runs(Step(s, es[0]), es[1..]))
  }

  /** Freshly migrated tables; any accounts, no credential yet. */
  predicate Initial(s: State) {
    s.credentials == map[] && s.challenges == map[] && s.codes == map[]
  }

  // ---------------------------------------------------------------- what an observer counts along a run

  /** A guess was answered: TOTP digits were judged and the verdict returned, or recovery records were handed out. */
  predicate Answers(s: State, e: Event, token: nat) {
    match e
    case DoTotp(t, matched, now, later, commit) =>
      t == token && Open(s, t, now) && s.challenges[t].attempts < MAX_ATTEMPTS
          && CompleteTotp(s, t, matched, now, later, commit).1 != Unavailable
    case DoReserve(t, now, later, commit) => t == token && Reserve(s, t, now, later, commit).1.Some?
    case _ => false
  }

  /** A completion of `token` inserted a session, whether or not its caller learnt of it. */
  predicate Mints(s: State, e: Event, token: nat)
    requires Permitted(s, e)
  {
    ((e.DoTotp? && e.token == token) || (e.DoFinish? && e.attempt.token == token)) && |Step(s, e).minted| > |s.minted|
  }

  /** A recovery with code `k` inserted a session. */
  predicate Spends(s: State, e: Event, k: CodeId)
    requires Permitted(s, e)
  {
    e.DoFinish? && CodeOf(e.attempt, e.slot) == k && |Step(s, e).minted| > |s.minted|
  }

  function One(b: bool): nat { if b then 1 else 0 }

  function Answered(s: State, es: seq<Event>, token: nat): nat
    requires Runs(s, es)
    decreases |es|
  {
    if es == [] then 0 else One(Answers(s, es[0], token)) + Answered(Step(s, es[0]), es[1..], token)
  }

  function Minted(s: State, es: seq<Event>, token: nat): nat
    requires Runs(s, es)
    decreases |es|
  {
    if es == [] then 0 else One(Mints(s, es[0], token)) + Minted(Step(s, es[0]), es[1..], token)
  }

  function CodeUses(s: State, es: seq<Event>, k: CodeId): nat
    requires Runs(s, es)
    decreases |es|
  {
    if es == [] then 0 else One(Spends(s, es[0], k)) + CodeUses(Step(s, es[0]), es[1..], k)
  }

  predicate Alive(s: State, user: nat, version: nat) {
    user in s.credentials && s.credentials[user].version == version
  }

  /** The counter an event got accepted for the credential enrolled by `user` under `version`: by a completion that
      minted a session, a reauthentication that was let through, or the enrollment itself. */
  function CounterOf(s: State, e: Event, user: nat, version: nat): Option<int>
    requires Permitted(s, e)
  {
    match e
    case DoTotp(token, matched, _, _, _) =>
      if Mints(s, e, token) && token in s.challenges && s.challenges[token].user == user && Alive(s, user, version)
      then (if matched.Some? then Some(matched.value) else Some(0)) else None
    case DoReauth(u, matched) =>
      if u == user && Alive(s, user, version) && ReauthCounter(s, u, matched).1
      then (if matched.Some? then Some(matched.value) else Some(0)) else None
    case DoEnroll(u, counter, _) => if u == user && s.accounts[u].version == version then Some(counter) else None
    case _ => None
  }

  function Counters(s: State, es: seq<Event>, user: nat, version: nat): seq<int>
    requires Runs(s, es)
    decreases |es|
  {
    if es == [] then []
    else
      var rest := Counters(Step(s, es[0]), es[1..], user, version);
      match CounterOf(s, es[0], user, version)
      case Some(c) => [c] + rest
      case None => rest
  }

  predicate Increasing(cs: seq<int>) {
    forall i, j | 0 <= i < j < |cs| :: cs[i] < cs[j]
  }

  // ---------------------------------------------------------------- the invariant and what each step leaves

  /** Live rows are bounded by what their account and token history allow. */
  predicate Inv(s: State) {
    && (forall t | t in s.challenges :: t in s.issued && s.challenges[t].attempts <= MAX_ATTEMPTS)
    && (forall u | u in s.credentials :: u in s.accounts && s.credentials[u].version <= s.accounts[u].version)
    && (forall k | k in s.codes :: k.user in s.credentials && s.credentials[k.user].version == k.version)
  }

  lemma CompletionKeepsInv(s: State, e: Event)
    requires Inv(s) && (e.DoTotp? || e.DoReserve? || e.DoFinish?)
    ensures Inv(Step(s, e))
  {
    hide TenCodes, Records, SameContext, Issue, Enroll, ChangeAccount, ChangePolicy, ReauthCounter;
  }

  lemma MaintenanceKeepsInv(s: State, e: Event)
    requires Inv(s) && Permitted(s, e) && !(e.DoTotp? || e.DoReserve? || e.DoFinish?)
    ensures Inv(Step(s, e))
  {
    hide CompleteTotp, Reserve, Finish;
  }

  lemma StepKeepsInv(s: State, e: Event)
    requires Inv(s) && Permitted(s, e)
    ensures Inv(Step(s, e))
  {
    hide Inv, Step;
    if e.DoTotp? || e.DoReserve? || e.DoFinish? {
      CompletionKeepsInv(s, e);
    } else {
      MaintenanceKeepsInv(s, e);
    }
  }

  predicate Live(s: State, token: nat) {
    token in s.challenges && !s.challenges[token].consumed
  }

  /** Guesses a token can still have answered. */
  function GuessesLeft(s: State, token: nat): int {
    if Live(s, token) then MAX_ATTEMPTS - s.challenges[token].attempts else if token in s.issued then 0
        else MAX_ATTEMPTS
  }

  function SessionsLeft(s: State, token: nat): nat {
    if Live(s, token) || token !in s.issued then 1 else 0
  }

  /** An enrollment of `user` under `version` may still come. */
  predicate Future(s: State, user: nat, version: nat) {
    user in s.accounts ==>
        s.accounts[user].version < version || (s.accounts[user].version == version && user !in s.credentials)
  }

  function UsesLeft(s: State, k: CodeId): nat {
    if (k in s.codes && !s.codes[k].consumed) || Future(s, k.user, k.version) then 1 else 0
  }

  lemma GuessIsCharged(s: State, e: Event, token: nat)
    requires Inv(s) && Permitted(s, e)
    ensures One(Answers(s, e, token)) + GuessesLeft(Step(s, e), token) <= GuessesLeft(s, token)
  {
  }

  lemma SessionIsCharged(s: State, e: Event, token: nat)
    requires Inv(s) && Permitted(s, e)
    ensures One(Mints(s, e, token)) + SessionsLeft(Step(s, e), token) <= SessionsLeft(s, token)
  {
  }

  lemma CodeIsCharged(s: State, e: Event, k: CodeId)
    requires Inv(s) && Permitted(s, e)
    ensures One(Spends(s, e, k)) + UsesLeft(Step(s, e), k) <= UsesLeft(s, k)
  {
  }

  lemma CounterRises(s: State, e: Event, user: nat, version: nat)
    requires Inv(s) && Permitted(s, e)
    ensures var c := CounterOf(s, e, user, version); var t := Step(s, e);
            && (c.Some? ==> Alive(t, user, version) && t.credentials[user].lastCounter == c.value)
            && (c.Some? ==> Alive(s, user, version) || Future(s, user, version))
            && (c.Some? && Alive(s, user, version) ==> s.credentials[user].lastCounter < c.value)
            && (c.None? && Alive(s, user, version) && Alive(t, user, version) ==>
                t.credentials[user] == s.credentials[user])
            && (Alive(t, user, version) || Future(t, user, version) ==>
                Alive(s, user, version) || Future(s, user, version))
            && (Alive(s, user, version) ==> !Future(t, user, version))
  {
  }

  // ---------------------------------------------------------------- theorems over every run

  lemma {:induction false} RunsAreCharged(s: State, es: seq<Event>, token: nat, k: CodeId)
    requires Inv(s) && Runs(s, es)
    ensures Answered(s, es, token) <= GuessesLeft(s, token)
    ensures Minted(s, es, token) <= SessionsLeft(s, token)
    ensures CodeUses(s, es, k) <= UsesLeft(s, k)
    decreases |es|
  {
    hide Step, Inv, Answers, Mints, Spends, Permitted;
    if es != [] {
      StepKeepsInv(s, es[0]);
      GuessIsCharged(s, es[0], token);
      SessionIsCharged(s, es[0], token);
      CodeIsCharged(s, es[0], k);
      RunsAreCharged(Step(s, es[0]), es[1..], token, k);
    } else {
      assert Inv(s);
      LeftIsNatural(s, token);
    }
  }

  lemma LeftIsNatural(s: State, token: nat)
    requires Inv(s)
    ensures 0 <= GuessesLeft(s, token) <= MAX_ATTEMPTS
  {
  }

  lemma {:induction false} CountersRise(s: State, es: seq<Event>, user: nat, version: nat)
    requires Inv(s) && Runs(s, es)
    ensures var cs := Counters(s, es, user, version);
            && Increasing(cs)
            && (Alive(s, user, version) ==> forall i | 0 <= i < |cs| :: s.credentials[user].lastCounter < cs[i])
            && (!Alive(s, user, version) && !Future(s, user, version) ==> cs == [])
    decreases |es|
  {
    hide Step, Inv, Permitted, CounterOf, Future;
    if es != [] {
      StepKeepsInv(s, es[0]);
      CounterRises(s, es[0], user, version);
      CountersRise(Step(s, es[0]), es[1..], user, version);
    }
  }

  /**
    Over any interleaving of logins, recoveries, reauthentications, enrollments, account and policy changes, with
    any loss of commits: a challenge answers at most five guesses of both kinds together and mints at most one
    session, a recovery code mints at most one session ever, and a credential's accepted counters strictly rise.
  */
  lemma ChallengeTheorem(s: State, es: seq<Event>, token: nat, k: CodeId, user: nat, version: nat)
    requires Initial(s) && Runs(s, es)
    ensures Answered(s, es, token) <= MAX_ATTEMPTS
    ensures Minted(s, es, token) <= 1
    ensures CodeUses(s, es, k) <= 1
    ensures Increasing(Counters(s, es, user, version))
  {
    RunsAreCharged(s, es, token, k);
    LeftIsNatural(s, token);
    CountersRise(s, es, user, version);
  }

  function Misses(token: nat, now: int, n: nat): seq<Event> {
    if n == 0 then [] else [DoTotp(token, None, now, now, Committed)] + Misses(token, now, n - 1)
  }

  /** The budget is exact: an open challenge answers every guess it has left. */
  lemma {:induction false} EveryGuessIsAnswered(s: State, token: nat, now: int, n: nat)
    requires Open(s, token, now) && s.challenges[token].attempts + n <= MAX_ATTEMPTS
    ensures Runs(s, Misses(token, now, n)) && Answered(s, Misses(token, now, n), token) == n
    decreases n
  {
    if n > 0 {
      var e := DoTotp(token, None, now, now, Committed);
      assert Misses(token, now, n)[1..] == Misses(token, now, n - 1);
      if n > 1 {
        EveryGuessIsAnswered(Step(s, e), token, now, n - 1);
      }
    }
  }

  /** An uncontended recovery with an unused code is granted, even as the fifth guess,
      and neither code nor challenge works again. */
  lemma RecoverySucceeds(s: State, token: nat, slot: nat, now: int)
    requires Open(s, token, now) && s.challenges[token].attempts < MAX_ATTEMPTS
    requires TenCodes(s, s.challenges[token].user, s.challenges[token].credentialVersion)
    requires 1 <= slot <= CODES && !s.codes[CodeId(s.challenges[token].user, s.challenges[token].credentialVersion,
        slot)].consumed
    ensures var (t, attempt, r) := Reserve(s, token, now, now, Committed);
            && attempt.Some?
            && (var (u, granted) := Finish(t, attempt.value, slot, now, now, Committed);
                && granted == Granted && |u.minted| == |s.minted| + 1
                && u.minted[|s.minted|] == Session(s.challenges[token].user, s.policyVersion,
                    s.accounts[s.challenges[token].user].version)
                && u.codes[CodeOf(attempt.value, slot)].consumed
                && (forall k | k in s.codes && k != CodeOf(attempt.value, slot) ::
                    k in u.codes && u.codes[k] == s.codes[k])
                && (forall at: int :: !Open(u, token, at)))
  {
  }

  /** Every session a completion mints carries the versions in force when it is written. */
  lemma SessionsAreCurrent(s: State, e: Event, token: nat)
    requires Permitted(s, e) && Mints(s, e, token)
    ensures var t := Step(s, e); var m := t.minted[|s.minted|];
            && t.minted[..|s.minted|] == s.minted && |t.minted| == |s.minted| + 1
            && m.user in t.accounts && t.accounts[m.user].enabled && t.accounts[m.user].version == m.userVersion
            && m.policyVersion == t.policyVersion && t.totpEnabled && token in t.challenges
            && t.challenges[token].user == m.user
  {
  }

  /** A challenge that was replaced, revoked or outlived by its account or policy never mints again. */
  lemma {:induction false} RevokedStaysRevoked(s: State, es: seq<Event>, token: nat)
    requires Inv(s) && Runs(s, es) && token in s.issued && !Live(s, token)
    ensures Minted(s, es, token) == 0 && Answered(s, es, token) == 0
  {
    RunsAreCharged(s, es, token, CodeId(0, 0, 0));
  }

  // ---------------------------------------------------------------- what each transaction answers and writes

  /** A counter the credential has not seen: above the last accepted one and storable. */
  predicate Unused(s: State, token: nat, matched: Option<nat>)
    requires token in s.challenges
  {
    && s.challenges[token].user in s.credentials && matched.Some?
    && s.credentials[s.challenges[token].user].lastCounter + 1 <= matched.value < MAX_INT64 + 1
  }

  /**
    A TOTP completion mints a session exactly for an unused counter on an open challenge with budget left, still
    valid at the write, unless the commit is rolled back; Granted is answered exactly when that commit is known. A
    judged miss costs one attempt and nothing else, the fifth closing the challenge; all else changes nothing.
  */
  lemma TotpOutcome(s: State, token: nat, matched: Option<nat>, now: int, later: int, commit: Commit)
    ensures
      var (t, reply) := CompleteTotp(s, token, matched, now, later, commit);
      var judged := Open(s, token, now) && s.challenges[token].attempts < MAX_ATTEMPTS;
      && (|t.minted| == |s.minted| + 1 <==>
            && judged && Unused(s, token, matched) && commit != RolledBack
            && s.challenges[token].created <= later < s.challenges[token].expires)
      && (reply == Granted <==> |t.minted| == |s.minted| + 1 && commit == Committed)
      && (|t.minted| == |s.minted| + 1 ==>
            && t.credentials[s.challenges[token].user].lastCounter == matched.value && t.challenges[token].consumed
            && t.codes == s.codes)
      && (judged && !Unused(s, token, matched) && commit != RolledBack ==>
            && t == s.(challenges := t.challenges) && t.challenges.Keys == s.challenges.Keys
            && (forall x | x in s.challenges && x != token :: t.challenges[x] == s.challenges[x])
            && t.challenges[token].attempts == s.challenges[token].attempts + 1
            && t.challenges[token].consumed == (t.challenges[token].attempts == MAX_ATTEMPTS))
      && (!judged || commit == RolledBack ==> t == s)
  {
  }

  /**
    A recovery mints a session exactly when an unspent slot of the attempt still matches the stored code, in the
    context the attempt was reserved in, on an open challenge with that reservation counted, valid at the write.
  */
  lemma RecoveryOutcome(s: State, a: Attempt, slot: nat, now: int, later: int, commit: Commit)
    requires Inv(s)
    ensures
      var (t, reply) := Finish(s, a, slot, now, later, commit);
      && (|t.minted| == |s.minted| + 1 <==>
            && 1 <= slot <= CODES && |a.records| == CODES && 1 <= a.number && commit != RolledBack
            && Open(s, a.token, now) && s.challenges[a.token].user == a.user
            && s.challenges[a.token].credentialVersion == a.credentialVersion
            && s.challenges[a.token].policyVersion == a.policyVersion
            && s.challenges[a.token].userVersion == a.userVersion
            && s.accounts[a.user].role == a.role && a.number <= s.challenges[a.token].attempts
            && !a.records[slot - 1].consumed && CodeOf(a, slot) in s.codes
            && s.codes[CodeOf(a, slot)] == Code(a.records[slot - 1].hash, false)
            && s.challenges[a.token].created <= later < s.challenges[a.token].expires)
      && (reply == Granted <==> |t.minted| == |s.minted| + 1 && commit == Committed)
      && (|t.minted| != |s.minted| + 1 ==> t == s)
  {
  }

  /** A reservation is charged before anything is handed out, and hands out the stored records unchanged. */
  lemma ReservationOutcome(s: State, token: nat, now: int, later: int, commit: Commit)
    ensures
      var (t, attempt, reply) := Reserve(s, token, now, later, commit);
      && (attempt.Some? <==> reply == Granted) && (attempt.Some? ==> commit == Committed && t != s)
      && (t != s ==>
            && Open(s, token, now) && s.challenges[token].attempts < MAX_ATTEMPTS && later < s.challenges[token].expires
            && t == s.(challenges := s.challenges[token := t.challenges[token]])
            && t.challenges[token] == s.challenges[token].(attempts := s.challenges[token].attempts + 1))
      && (attempt.Some? ==>
            && attempt.value.token == token && attempt.value.number == t.challenges[token].attempts
            && attempt.value.user == s.challenges[token].user
            && attempt.value.userVersion == s.challenges[token].userVersion
            && attempt.value.policyVersion == s.challenges[token].policyVersion
            && attempt.value.role == s.accounts[attempt.value.user].role
            && TenCodes(s, attempt.value.user, attempt.value.credentialVersion)
            && attempt.value.records == Records(s, attempt.value.user, attempt.value.credentialVersion))
  {
  }

  /** Enrollment gives the account ten fresh codes and a credential that has seen its first counter. */
  lemma EnrollmentOutcome(s: State, user: nat, counter: nat, hashes: seq<string>)
    requires user in s.accounts && user !in s.credentials && |hashes| == CODES && Inv(s)
    ensures
      var t, v := Enroll(s, user, counter, hashes), s.accounts[user].version;
      && TenCodes(t, user, v) && t.credentials[user] == Credential(v, counter)
      && (forall i | 0 <= i < CODES :: Records(t, user, v)[i] == Code(hashes[i], false))
      && (forall k | k in s.codes :: k in t.codes && t.codes[k] == s.codes[k])
  {
    var t, v := Enroll(s, user, counter, hashes), s.accounts[user].version;
    forall slot | 1 <= slot <= CODES
      ensures CodeId(user, v, slot) in t.codes && t.codes[CodeId(user, v, slot)] == Code(hashes[slot - 1], false)
    {
    }
    assert forall k | k in s.codes :: k.user != user;
  }

  // ---------------------------------------------------------------- pending challenges

  /** At most one live challenge per user, each alive for five minutes from its creation. */
  predicate OnePending(s: State) {
    && (forall a, b | a in s.challenges && b in s.challenges && Live(s, a) && Live(s, b) ::
          s.challenges[a].user == s.challenges[b].user ==> a == b)
    && (forall a | a in s.challenges :: s.challenges[a].expires == s.challenges[a].created + FIVE_MINUTES)
  }

  /** Rows only disappear or close; who they belong to and when they expire stays. */
  predicate Closes(s: State, t: State) {
    forall a | a in t.challenges ::
      && a in s.challenges && t.challenges[a].user == s.challenges[a].user
      && t.challenges[a].created == s.challenges[a].created && t.challenges[a].expires == s.challenges[a].expires
      && (Live(t, a) ==> Live(s, a))
  }

  lemma OthersClose(s: State, e: Event)
    requires Permitted(s, e) && !e.DoIssue?
    ensures Closes(s, Step(s, e))
  {
    hide TenCodes, Records, SameContext, CodeReady, CounterFresh;
  }

  lemma StepKeepsOnePending(s: State, e: Event)
    requires OnePending(s) && Permitted(s, e)
    ensures OnePending(Step(s, e))
  {
    hide CompleteTotp, Reserve, Finish, ReauthCounter, Enroll, ChangeAccount, ChangePolicy;
    if !e.DoIssue? {
      OthersClose(s, e);
    }
  }

  function Run(s: State, es: seq<Event>): State
    requires Runs(s, es)
    decreases |es|
  {
    if es == [] then s else Run(Step(s, es[0]), es[1..])
  }

  lemma {:induction false} RunKeepsOnePending(s: State, es: seq<Event>)
    requires OnePending(s) && Runs(s, es)
    ensures OnePending(Run(s, es))
    decreases |es|
  {
    hide OnePending, Step, Permitted;
    if es != [] {
      StepKeepsOnePending(s, es[0]);
      RunKeepsOnePending(Step(s, es[0]), es[1..]);
    }
  }

  /** A password login replaces the user's pending challenge: in every run at most one is live per user, and it
      expires five minutes after it was issued. */
  lemma PendingTheorem(s: State, es: seq<Event>)
    requires Initial(s) && Runs(s, es)
    ensures OnePending(Run(s, es))
  {
    RunKeepsOnePending(s, es);
  }

  /** Changing an account or enrolling closes every challenge of that user; changing the policy closes all. */
  lemma RevocationCloses(s: State, e: Event, token: nat)
    requires Permitted(s, e) && token in s.challenges
    requires ((e.DoChangeAccount? || e.DoEnroll?) && s.challenges[token].user == e.user) || e.DoChangePolicy?
    ensures !Live(Step(s, e), token)
  {
  }

  // ---------------------------------------------------------------- the loops

  predicate Digits(code: string) {
    forall i | 0 <= i < |code| :: '0' <= code[i] <= '9'
  }

  /** Section 5.2 of RFC 6238 with one step of drift: the counters tried at `now`. */
  predicate InWindow(counter: int, now: int) {
    0 <= counter && Unix(now) / 30 - 1 <= counter <= Unix(now) / 30 + 1
  }

  /** `hotp` gives the digits of each counter; the newest matching counter is the one consumed. */
  method MatchCounter(hotp: nat -> string, valid: bool, code: string, now: int) returns (matched: Option<nat>)
    ensures matched.Some? <==>
            valid && |code| == 6 && Digits(code) && 0 <= Unix(now) && exists c: nat ::
                InWindow(c, now) && hotp(c) == code
    ensures matched.Some? ==> InWindow(matched.value, now) && hotp(matched.value) == code
    ensures matched.Some? ==> forall c: nat :: InWindow(c, now) && hotp(c) == code ==> c <= matched.value
  {
    if !valid || |code| != 6 || Unix(now) < 0 {
      return None;
    }
    for i := 0 to |code|
      invariant forall j | 0 <= j < i :: '0' <= code[j] <= '9'
    {
      if !('0' <= code[i] <= '9') {
        return None;
      }
    }
    var current := Unix(now) / 30;
    matched := None;
    for delta := -1 to 2
      invariant matched.Some? ==>
          InWindow(matched.value, now) && matched.value < current + delta && hotp(matched.value) == code
      invariant forall c: nat :: InWindow(c, now) && c < current + delta && hotp(c) == code ==>
          matched.Some? && c <= matched.value
    {
      if current == 0 && delta == -1 {
        continue;
      }
      if hotp(current + delta) == code {
        matched := Some(current + delta);
      }
    }
  }

  datatype MatchResult = Matched(slot: nat) | NoMatch | MatchFailed

  predicate Candidate(records: seq<Code>, verdicts: seq<Option<bool>>, i: int)
    requires |verdicts| == |records|
  {
    0 <= i < |records| && verdicts[i] == Some(true) && !records[i].consumed
  }

  /** All slots are verified; `verdicts[i]` is the hasher's answer for slot i+1, `None` its failure. */
  method MatchRecovery(records: seq<Code>, wellFormed: bool, verdicts: seq<Option<bool>>) returns (r: MatchResult)
    requires |verdicts| == |records|
    ensures r.Matched? ==> Candidate(records, verdicts, r.slot - 1) && forall i | Candidate(records, verdicts, i) ::
        i == r.slot - 1
    ensures r.Matched? ==> wellFormed && None !in verdicts
    ensures r == NoMatch <==> !wellFormed || (None !in verdicts && forall i :: !Candidate(records, verdicts, i))
    ensures r == MatchFailed <==>
            wellFormed && (None in verdicts || exists i, j ::
                i < j && Candidate(records, verdicts, i) && Candidate(records, verdicts, j))
  {
    if !wellFormed {
      return NoMatch;
    }
    var slot := 0;
    for i := 0 to |records|
      invariant 0 <= slot <= i && None !in verdicts[..i]
      invariant slot != 0 ==> Candidate(records, verdicts, slot - 1)
      invariant forall j | 0 <= j < i :: Candidate(records, verdicts, j) ==> j == slot - 1
    {
      if verdicts[i].None? {
        return MatchFailed;
      }
      if verdicts[i].value && !records[i].consumed {
        if slot != 0 {
          assert slot - 1 < i && Candidate(records, verdicts, slot - 1) && Candidate(records, verdicts, i);
          return MatchFailed;
        }
        slot := i + 1;
      }
    }
    assert verdicts[..|records|] == verdicts;
    if slot == 0 {
      return NoMatch;
    }
    return Matched(slot);
  }
}
