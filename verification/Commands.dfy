/**
  Exactly-once operator commands (internal/adminauth/pgstore/commands.go) with action-bound reauthentication
  proofs (reauth.go).

  One call of `Execute` is one transaction. Its commit may succeed, succeed with the answer lost, or be rolled
  back. SHA-256 is modelled as injective, so a fingerprint is the framed text it covers. `effects` and `issued`
  record history and are read by no operation.
*/
module Commands {
  import opened Base

  /** Draft is the saved-draft command, which shares the replay table under its own domain. */
  datatype Request =
    | Command(verb: string, action: string, target: string, ifMatch: string, raw: string)
    | Draft(ifMatch: string, raw: string)

  datatype Answer = Answer(status: int, body: string, etag: string)

  datatype Entry = Entry(request: string, created: int, expires: int, answer: Answer)

  datatype Proof = Proof(session: nat, action: string, target: string, digest: string, created: int, expires: int,
      consumed: bool)

  /** (account, idempotency key) */
  type Slot = (nat, string)

  datatype Effect = Effect(slot: Slot, request: Request, at: int, answer: Answer, proof: Option<nat>)

  datatype State = State(table: map<Slot, Entry>, proofs: map<nat, Proof>, now: int, effects: seq<Effect>,
      issued: map<nat, Proof>)

  /** What the command body reports: an internal error, or a reply to record. */
  datatype Body = BodyError | BodyDone(answer: Answer)

  /** `later` is the second clock reading, taken when the proof is consumed. `pruned` is the housekeeping choice. */
  datatype Call = Call(
    slot: Slot, session: nat, request: Request, sensitive: bool, token: Option<nat>,
    now: int, later: int, pruned: set<Slot>, body: Body, commit: Commit)

  datatype Reply =
    | Unavailable | Forbidden | Conflict | CapacityExceeded | Fresh(answer: Answer) | Replayed(answer: Answer)

  const DAY: int := DAY_SECONDS * MICROS_PER_SECOND

  const FIVE_MINUTES: int := 300 * MICROS_PER_SECOND

  const MAX_COMMANDS: nat := 10000

  const PRUNE_LIMIT: nat := 128

  const MAX_BODY: nat := 65536

  // ---------------------------------------------------------------- fingerprints

  const NUL: char := 0 as char

  /** Fields each followed by a separator, then the raw body. */
  function Framed(fields: seq<string>, separator: char, raw: string): string {
    if fields == [] then raw else fields[0] + [separator] + Framed(fields[1..], separator, raw)
  }

  function Fingerprint(r: Request): string {
    match r
    case Command(verb, action, target, ifMatch, raw) =>
        Framed(["control.command.v1", verb, action, target, ifMatch], NUL, raw)
    case Draft(ifMatch, raw) => Framed(["control.replace-draft.v1", ifMatch], NUL, raw)
  }

  function ActionDigest(verb: string, target: string, ifMatch: string, raw: string): string {
    Framed(["wr-action/v1", verb, target, ifMatch], '\n', raw)
  }

  predicate Free(s: string, separator: char) {
    forall i | 0 <= i < |s| :: s[i] != separator
  }

  predicate AllFree(fields: seq<string>, separator: char) {
    forall i | 0 <= i < |fields| :: Free(fields[i], separator)
  }

  /** A separator-free field can be read back from the front of a framed text. */
  lemma FieldIsDetermined(a: string, b: string, separator: char, x: string, y: string)
    requires Free(a, separator) && Free(b, separator) && a + [separator] + x == b + [separator] + y
    ensures a == b && x == y
  {
    var s, t := a + [separator] + x, b + [separator] + y;
    assert s[|a|] == separator && t[|b|] == separator;
    assert forall i | 0 <= i < |a| :: s[i] == a[i];
    assert forall i | 0 <= i < |b| :: t[i] == b[i];
    assert |a| == |b|;
    assert a == s[..|a|] && b == s[..|b|];
    assert x == s[|a| + 1..] && y == s[|b| + 1..];
  }

  lemma {:induction false} FramedInjective(a: seq<string>, b: seq<string>, separator: char, x: string, y: string)
    requires |a| == |b| && AllFree(a, separator) && AllFree(b, separator)
        && Framed(a, separator, x) == Framed(b, separator, y)
    ensures a == b && x == y
  {
    if a != [] {
      FieldIsDetermined(a[0], b[0], separator, Framed(a[1..], separator, x), Framed(b[1..], separator, y));
      FramedInjective(a[1..], b[1..], separator, x, y);
      assert a == [a[0]] + a[1..] && b == [b[0]] + b[1..];
    }
  }

  /** Header and route fields carry no NUL; the body may. */
  predicate WellFormed(r: Request) {
    match r
    case Command(verb, action, target, ifMatch, raw) => Free(verb, NUL) && Free(action, NUL) && Free(target, NUL)
        && Free(ifMatch, NUL)
    case Draft(ifMatch, raw) => Free(ifMatch, NUL)
  }

  lemma FingerprintDomain(r: Request)
    ensures |Fingerprint(r)| > 8 && Fingerprint(r)[8] == if r.Command? then 'c' else 'r'
  {
  }

  /** Different requests have different fingerprints, across both command domains. */
  lemma FingerprintInjective(a: Request, b: Request)
    requires WellFormed(a) && WellFormed(b) && Fingerprint(a) == Fingerprint(b)
    ensures a == b
  {
    FingerprintDomain(a);
    FingerprintDomain(b);
    match (a, b)
    case (Command(v, x, t, m, r), Command(v', x', t', m', r')) =>
      var f, g := ["control.command.v1", v, x, t, m], ["control.command.v1", v', x', t', m'];
      FramedInjective(f, g, NUL, r, r');
      assert f[1] == g[1] && f[2] == g[2] && f[3] == g[3] && f[4] == g[4];
    case (Draft(m, r), Draft(m', r')) =>
      var f, g := ["control.replace-draft.v1", m], ["control.replace-draft.v1", m'];
      FramedInjective(f, g, NUL, r, r');
      assert f[1] == g[1];
    case _ =>
  }

  lemma ActionDigestInjective(verb: string, verb': string, target: string, m: string, m': string, raw: string,
      raw': string)
    requires Free(verb, '\n') && Free(verb', '\n') && Free(target, '\n') && Free(m, '\n') && Free(m', '\n')
    requires ActionDigest(verb, target, m, raw) == ActionDigest(verb', target, m', raw')
    ensures verb == verb' && m == m' && raw == raw'
  {
    var f, g := ["wr-action/v1", verb, target, m], ["wr-action/v1", verb', target, m'];
    FramedInjective(f, g, '\n', raw, raw');
    assert f[1] == g[1] && f[3] == g[3];
  }

  // ---------------------------------------------------------------- the transaction

  function Expired(table: map<Slot, Entry>, now: int): set<Slot> {
    set k | k in table && table[k].expires <= now
  }

  /** DELETE ... WHERE expires_at <= now ORDER BY expires_at LIMIT 128. */
  predicate IsPruning(table: map<Slot, Entry>, now: int, pruned: set<Slot>) {
    && pruned <= Expired(table, now) && |pruned| <= PRUNE_LIMIT
    && (|pruned| < PRUNE_LIMIT ==> pruned == Expired(table, now))
    && (forall p, q | p in pruned && q in Expired(table, now) - pruned :: table[p].expires <= table[q].expires)
  }

  predicate ProofFits(p: Proof, c: Call) {
    && c.request.Command? && p.session == c.session && p.action == c.request.action && p.target == c.request.target
    && p.digest == ActionDigest(c.request.verb, c.request.target, c.request.ifMatch, c.request.raw)
    && !p.consumed && p.created <= c.later < p.expires
  }

  predicate ProofAccepted(s: State, c: Call) {
    c.sensitive ==> c.token.Some? && c.token.value in s.proofs && ProofFits(s.proofs[c.token.value], c)
  }

  predicate Recordable(b: Body) {
    b.BodyDone? && 200 <= b.answer.status <= 599 && 0 < |b.answer.body| <= MAX_BODY
  }

  /** The replay row this call finds alive, if any. */
  predicate Found(s: State, c: Call) {
    c.slot in s.table && c.now < s.table[c.slot].expires
  }

  /** The table housekeeping leaves behind for a call that will execute. */
  function Swept(s: State, c: Call): map<Slot, Entry> {
    s.table - {c.slot} - c.pruned
  }

  function Executed(s: State, c: Call): State
    requires c.body.BodyDone? && (c.sensitive ==> c.token.Some? && c.token.value in s.proofs)
  {
    State(
      Swept(s, c)[c.slot := Entry(Fingerprint(c.request), c.now, c.now + DAY, c.body.answer)],
      if c.sensitive then s.proofs[c.token.value := s.proofs[c.token.value].(consumed := true)] else s.proofs,
      c.now,
      s.effects + [Effect(c.slot, c.request, c.now, c.body.answer, if c.sensitive then c.token else None)],
      s.issued)
  }

  /** A first execution: capacity, proof, body, then one commit of everything. */
  function Perform(s: State, c: Call): (r: (State, Reply)) {
    var idle := s.(now := c.now);
    if |Swept(s, c)| >= MAX_COMMANDS then (idle, CapacityExceeded)
    else if !ProofAccepted(s, c) then (idle, Forbidden)
    else if !Recordable(c.body) then (idle, Unavailable)
    else
      match c.commit
      case Committed => (Executed(s, c), Fresh(c.body.answer))
      case AnswerLost => (Executed(s, c), Unavailable)
      case RolledBack => (idle, Unavailable)
  }

  /** The answer the replay table alone decides, if it does. */
  function LookUp(s: State, c: Call): Option<Reply> {
    if c.slot in s.table && c.now < s.table[c.slot].created then Some(Unavailable)
    else if !Found(s, c) then None
    else if s.table[c.slot].request != Fingerprint(c.request) then Some(Conflict)
    else if c.commit == Committed then Some(Replayed(s.table[c.slot].answer))
    else Some(Unavailable)
  }

  function Execute(s: State, c: Call): (r: (State, Reply)) {
    var known := LookUp(s, c);
    if known.Some? then (s.(now := c.now), known.value) else Perform(s, c)
  }

  // ---------------------------------------------------------------- runs

  datatype Event =
    | DoExecute(call: Call)
    | IssueProof(token: nat, proof: Proof)
    | DropProofs(tokens: set<nat>, at: int)

  function Step(s: State, e: Event): State {
    match e
    case DoExecute(c) => Execute(s, c).0
    case IssueProof(token, p) => s.(proofs := s.proofs[token := p], issued := s.issued[token := p], now := p.created)
    case DropProofs(tokens, at) => s.(proofs := s.proofs - tokens, now := at)
  }

  /** The database clock does not run backwards, new tokens are random, housekeeping follows its query. */
  predicate Permitted(s: State, e: Event) {
    match e
    case DoExecute(c) => s.now <= c.now <= c.later && IsPruning(s.table - {c.slot}, c.now, c.pruned)
    case IssueProof(token, p) => s.now <= p.created && p.expires == p.created + FIVE_MINUTES && !p.consumed
        && token !in s.issued
    case DropProofs(tokens, at) => s.now <= at && forall t | t in tokens && t in s.proofs :: s.proofs[t].expires <= at
  }

  ghost predicate Reach(s: State, es: seq<Event>, t: State)
    decreases |es|
  {
    if es == [] then t == s else Permitted(s, es[0]) && Reach(Step(s, es[0]), es[1..], t)
  }

  predicate Initial(s: State) {
    s.table == map[] && s.proofs == map[] && s.effects == [] && s.issued == map[]
  }

  // ---------------------------------------------------------------- invariant

  /** While an effect is younger than a day, its row is in the table unchanged. */
  predicate Remembered(s: State, e: Effect) {
    s.now < e.at + DAY ==>
        e.slot in s.table && s.table[e.slot] == Entry(Fingerprint(e.request), e.at, e.at + DAY, e.answer)
  }

  /** The proof an effect consumed was issued for exactly this request and stays consumed. */
  predicate ProofSpent(s: State, e: Effect) {
    e.proof.Some? ==>
      && e.proof.value in s.issued && e.request.Command?
      && (var p := s.issued[e.proof.value];
          p.action == e.request.action && p.target == e.request.target
          && p.digest == ActionDigest(e.request.verb, e.request.target, e.request.ifMatch, e.request.raw))
      && (e.proof.value in s.proofs ==> s.proofs[e.proof.value].consumed)
  }

  predicate ProofsIssued(s: State) {
    forall t | t in s.proofs :: t in s.issued && s.proofs[t].(consumed := false) == s.issued[t].(consumed := false)
  }

  predicate EffectsSpaced(effects: seq<Effect>) {
    forall i, j | 0 <= i < j < |effects| ::
      && effects[i].at <= effects[j].at
      && (effects[i].slot == effects[j].slot ==> effects[i].at + DAY <= effects[j].at)
      && (effects[i].proof.Some? ==> effects[i].proof != effects[j].proof)
  }

  predicate Recent(rows: map<Slot, Entry>, now: int) {
    forall k | k in rows :: rows[k].created <= now
  }

  predicate Inv(s: State) {
    && (forall i | 0 <= i < |s.effects| ::
        s.effects[i].at <= s.now && Remembered(s, s.effects[i]) && ProofSpent(s, s.effects[i]))
    && Recent(s.table, s.now) && ProofsIssued(s) && EffectsSpaced(s.effects) && |s.table| <= MAX_COMMANDS
  }

  lemma InitialInv(s: State)
    requires Initial(s)
    ensures Inv(s)
  {
  }

  lemma SweptKeeps(s: State, c: Call, k: Slot)
    requires Permitted(s, DoExecute(c)) && k in s.table && k != c.slot && c.now < s.table[k].expires
    ensures k in Swept(s, c) && Swept(s, c)[k] == s.table[k]
  {
  }

  /** A young effect of another key survives the housekeeping; one of this key is not young, or it would be found. */
  lemma ExecutedRemembers(s: State, c: Call, e: Effect)
    requires Remembered(s, e) && s.now <= c.now && Permitted(s, DoExecute(c)) && c.body.BodyDone?
        && ProofAccepted(s, c) && !Found(s, c)
    ensures Remembered(Executed(s, c), e)
  {
    hide Fingerprint, ProofFits, IsPruning, Swept;
    if c.now < e.at + DAY && e.slot != c.slot {
      SweptKeeps(s, c, e.slot);
    }
  }

  lemma InsertRow(rows: map<Slot, Entry>, k: Slot, row: Entry, now: int)
    requires row.created <= now && Recent(rows, now)
    ensures |rows[k := row]| <= |rows| + 1 && Recent(rows[k := row], now)
  {
    assert rows[k := row].Keys == rows.Keys + {k};
  }

  lemma SweptRecent(s: State, c: Call)
    requires Recent(s.table, c.now)
    ensures Recent(Swept(s, c), c.now)
  {
  }

  lemma ExecutedRows(s: State, c: Call)
    requires c.body.BodyDone? && ProofAccepted(s, c) && |Swept(s, c)| < MAX_COMMANDS && Recent(s.table, c.now)
    ensures |Executed(s, c).table| <= MAX_COMMANDS && Recent(Executed(s, c).table, c.now)
  {
    hide Fingerprint, ProofFits, IsPruning, Recent, Swept;
    SweptRecent(s, c);
    InsertRow(Swept(s, c), c.slot, Entry(Fingerprint(c.request), c.now, c.now + DAY, c.body.answer), c.now);
  }

  lemma ExecutedTable(s: State, c: Call)
    requires Inv(s) && Permitted(s, DoExecute(c)) && c.body.BodyDone? && ProofAccepted(s, c)
        && |Swept(s, c)| < MAX_COMMANDS
    ensures |Executed(s, c).table| <= MAX_COMMANDS
    ensures Recent(Executed(s, c).table, c.now)
    ensures forall i | 0 <= i < |s.effects| :: !Found(s, c) ==> Remembered(Executed(s, c), s.effects[i])
  {
    hide Executed, Swept, Remembered, ProofSpent, ProofFits, Found, IsPruning, EffectsSpaced, ProofsIssued;
    ExecutedRows(s, c);
    forall i | 0 <= i < |s.effects| && !Found(s, c)
      ensures Remembered(Executed(s, c), s.effects[i])
    {
      ExecutedRemembers(s, c, s.effects[i]);
    }
  }

  lemma ExecutedProofs(s: State, c: Call)
    requires ProofsIssued(s) && c.body.BodyDone? && ProofAccepted(s, c)
    ensures ProofsIssued(Executed(s, c)) && ProofSpent(Executed(s, c), Executed(s, c).effects[|s.effects|])
    ensures forall e: Effect :: ProofSpent(s, e) ==> ProofSpent(Executed(s, c), e)
    ensures forall e: Effect :: ProofSpent(s, e) && e.proof.Some? ==>
        e.proof != Executed(s, c).effects[|s.effects|].proof
  {
    hide Swept, Fingerprint, ActionDigest;
  }

  lemma ExecutedSpacing(s: State, c: Call)
    requires Inv(s) && Permitted(s, DoExecute(c)) && c.body.BodyDone? && ProofAccepted(s, c) && !Found(s, c)
    ensures EffectsSpaced(Executed(s, c).effects)
  {
    ExecutedProofs(s, c);
    hide Swept, Fingerprint, ActionDigest, IsPruning, ProofSpent, ProofsIssued, ProofAccepted;
    var t := Executed(s, c).effects;
    forall i | 0 <= i < |s.effects|
      ensures s.effects[i].at <= c.now
      ensures s.effects[i].slot == c.slot ==> s.effects[i].at + DAY <= c.now
      ensures s.effects[i].proof.Some? ==> s.effects[i].proof != t[|s.effects|].proof
    {
      assert Remembered(s, s.effects[i]) && ProofSpent(s, s.effects[i]);
    }
    assert forall i | 0 <= i < |s.effects| :: t[i] == s.effects[i];
  }

  lemma ExecutedKeepsInv(s: State, c: Call)
    requires Inv(s) && Permitted(s, DoExecute(c)) && c.body.BodyDone? && ProofAccepted(s, c)
        && |Swept(s, c)| < MAX_COMMANDS
    requires !Found(s, c)
    ensures Inv(Executed(s, c))
  {
    hide Executed, Swept, ProofSpent, ProofFits, ProofsIssued, EffectsSpaced, Found, Remembered, Permitted;
    var t, n := Executed(s, c), |s.effects|;
    ExecutedShape(s, c);
    ExecutedTable(s, c);
    ExecutedSpacing(s, c);
    ExecutedProofs(s, c);
    assert forall i | 0 <= i < n :: t.effects[i] == s.effects[i];
  }

  lemma ExecutedShape(s: State, c: Call)
    requires c.body.BodyDone? && ProofAccepted(s, c) && Permitted(s, DoExecute(c))
    ensures
      var t, n := Executed(s, c), |s.effects|;
      && |t.effects| == n + 1 && t.effects[..n] == s.effects && t.now == c.now && s.now <= c.now
      && t.effects[n].at == c.now && Remembered(t, t.effects[n])
  {
    hide Swept, Fingerprint, IsPruning, ProofFits;
  }

  /** Advancing the clock forgets nothing it should remember. */
  lemma IdleKeepsInv(s: State, now: int)
    requires Inv(s) && s.now <= now
    ensures Inv(s.(now := now))
  {
    hide Fingerprint, ActionDigest, EffectsSpaced;
    var t := s.(now := now);
    forall i | 0 <= i < |s.effects|
      ensures Remembered(t, s.effects[i]) && ProofSpent(t, s.effects[i])
    {
      assert Remembered(s, s.effects[i]) && ProofSpent(s, s.effects[i]);
    }
  }

  /** Issuing a proof under a new token, or dropping expired ones, unspends nothing. */
  lemma ProofEventsKeepEffect(s: State, e: Event, x: Effect)
    requires Permitted(s, e) && !e.DoExecute? && ProofsIssued(s) && Remembered(s, x) && ProofSpent(s, x)
    ensures Remembered(Step(s, e), x) && ProofSpent(Step(s, e), x)
  {
    hide Fingerprint, ActionDigest, IsPruning, Execute;
  }

  lemma ProofEventsKeepProofs(s: State, e: Event)
    requires Permitted(s, e) && !e.DoExecute? && ProofsIssued(s)
    ensures ProofsIssued(Step(s, e)) && Step(s, e).table == s.table && Step(s, e).effects == s.effects
        && s.now <= Step(s, e).now
  {
    hide IsPruning, Execute;
  }

  lemma ProofEventsKeepInv(s: State, e: Event)
    requires Inv(s) && Permitted(s, e) && !e.DoExecute?
    ensures Inv(Step(s, e))
  {
    hide Remembered, ProofSpent, EffectsSpaced, ProofsIssued, Permitted, Step;
    ProofEventsKeepProofs(s, e);
    forall i | 0 <= i < |s.effects|
      ensures Remembered(Step(s, e), s.effects[i]) && ProofSpent(Step(s, e), s.effects[i])
    {
      ProofEventsKeepEffect(s, e, s.effects[i]);
    }
  }

  lemma StepKeepsInv(s: State, e: Event)
    requires Inv(s) && Permitted(s, e)
    ensures Inv(Step(s, e))
  {
    hide Fingerprint, Inv, Executed, Swept;
    if e.DoExecute? {
      IdleKeepsInv(s, e.call.now);
      if !Found(s, e.call) && |Swept(s, e.call)| < MAX_COMMANDS && ProofAccepted(s, e.call) && e.call.body.BodyDone? {
        ExecutedKeepsInv(s, e.call);
      }
    } else {
      ProofEventsKeepInv(s, e);
    }
  }

  lemma {:induction false} ReachKeepsInv(s: State, es: seq<Event>, t: State)
    requires Inv(s) && Reach(s, es, t)
    ensures Inv(t)
    decreases |es|
  {
    hide Inv, Step, Permitted;
    if es != [] {
      StepKeepsInv(s, es[0]);
      ReachKeepsInv(Step(s, es[0]), es[1..], t);
    }
  }

  /** Exactly once: in every run, two effects under one account and key are at least 24 hours apart, and no two
      sensitive effects consumed the same proof. */
  lemma ExactlyOnce(s: State, es: seq<Event>, t: State, i: nat, j: nat)
    requires Initial(s) && Reach(s, es, t) && i < j < |t.effects|
    ensures t.effects[i].slot == t.effects[j].slot ==> t.effects[i].at + DAY <= t.effects[j].at
    ensures t.effects[i].proof.Some? ==> t.effects[i].proof != t.effects[j].proof
  {
    InitialInv(s);
    ReachKeepsInv(s, es, t);
  }

  /** In every run, every effect that consumed a proof consumed one issued for exactly its request, for good. */
  lemma ProofsMatchEffects(s: State, es: seq<Event>, t: State, i: nat)
    requires Initial(s) && Reach(s, es, t) && i < |t.effects|
    ensures ProofSpent(t, t.effects[i])
  {
    InitialInv(s);
    ReachKeepsInv(s, es, t);
  }

  lemma TableKeepsCap(s: State, es: seq<Event>, t: State)
    requires Initial(s) && Reach(s, es, t)
    ensures |t.table| <= MAX_COMMANDS
  {
    InitialInv(s);
    ReachKeepsInv(s, es, t);
  }

  /** Retries: after an effect, for 24 hours, every call under the same account and key changes nothing; it replays
      the recorded status, body and ETag when it repeats the request, and any other request gets a conflict. */
  lemma RetriesReplay(s: State, es: seq<Event>, t: State, i: nat, c: Call)
    requires Initial(s) && Reach(s, es, t) && i < |t.effects| && Permitted(t, DoExecute(c))
    requires c.slot == t.effects[i].slot && c.now < t.effects[i].at + DAY
    requires WellFormed(c.request) && WellFormed(t.effects[i].request)
    ensures Execute(t, c).0 == t.(now := c.now)
    ensures Execute(t, c).1 == if c.request != t.effects[i].request then Conflict
                               else if c.commit == Committed then Replayed(t.effects[i].answer) else Unavailable
  {
    InitialInv(s);
    ReachKeepsInv(s, es, t);
    assert Remembered(t, t.effects[i]);
    if Fingerprint(c.request) == Fingerprint(t.effects[i].request) {
      FingerprintInjective(c.request, t.effects[i].request);
    }
    hide Fingerprint;
  }

  /** The call executes: no reply is retained for its key, the table has room after housekeeping, a sensitive action
      brings a fitting unspent proof, and the body reports something to record. */
  predicate Executes(s: State, c: Call) {
    !Found(s, c) && |Swept(s, c)| < MAX_COMMANDS && ProofAccepted(s, c) && Recordable(c.body)
  }

  /**
    What the caller learns is what happened, on every reachable table: a fresh answer means exactly one new effect,
    that of this call with that answer, and every executing call whose commit is known is so answered; a rolled-back
    one changes nothing but the clock and is Unavailable, a lost one took effect and is Unavailable.
  */
  lemma AnswersTellTheTruth(s: State, es: seq<Event>, t: State, c: Call)
    requires Initial(s) && Reach(s, es, t) && Permitted(t, DoExecute(c))
    ensures
      var (u, reply) := Execute(t, c);
      var effect := Effect(c.slot, c.request, c.now, if c.body.BodyDone? then c.body.answer else Answer(0, "", ""),
                           if c.sensitive then c.token else None);
      && (reply.Fresh? <==> Executes(t, c) && c.commit == Committed)
      && (reply.Fresh? ==> c.body.BodyDone? && reply.answer == c.body.answer)
      && (Executes(t, c) && c.commit != RolledBack ==>
            && u.effects == t.effects + [effect] && c.slot in u.table
            && u.table[c.slot] == Entry(Fingerprint(c.request), c.now, c.now + DAY, c.body.answer)
            && (c.sensitive ==> c.token.Some? && c.token.value in u.proofs && u.proofs[c.token.value].consumed))
      && (!(Executes(t, c) && c.commit != RolledBack) ==> u == t.(now := c.now))
      && (Executes(t, c) && c.commit != Committed ==> reply == Unavailable)
  {
    InitialInv(s);
    ReachKeepsInv(s, es, t);
    RecentHere(t, c);
    hide *;
    if Found(t, c) {
      FoundNotExecuted(t, c);
    } else {
      PerformTells(t, c);
    }
  }

  lemma FoundNotExecuted(s: State, c: Call)
    requires Found(s, c)
    ensures !Executes(s, c) && Execute(s, c).0 == s.(now := c.now) && !Execute(s, c).1.Fresh?
  {
    hide Fingerprint, Perform;
  }

  lemma PerformTells(s: State, c: Call)
    requires !Found(s, c) && (c.slot in s.table ==> s.table[c.slot].created <= c.now)
    ensures
      var (u, reply) := Execute(s, c);
      var effect := Effect(c.slot, c.request, c.now, if c.body.BodyDone? then c.body.answer else Answer(0, "", ""),
                           if c.sensitive then c.token else None);
      && (reply.Fresh? <==> Executes(s, c) && c.commit == Committed)
      && (Executes(s, c) ==> c.body.BodyDone? && (reply.Fresh? ==> reply.answer == c.body.answer))
      && (Executes(s, c) && c.commit != RolledBack ==>
            && u.effects == s.effects + [effect] && c.slot in u.table
            && u.table[c.slot] == Entry(Fingerprint(c.request), c.now, c.now + DAY, c.body.answer)
            && (c.sensitive ==> c.token.Some? && c.token.value in u.proofs && u.proofs[c.token.value].consumed))
      && (!(Executes(s, c) && c.commit != RolledBack) ==> u == s.(now := c.now))
      && (Executes(s, c) && c.commit != Committed ==> reply == Unavailable)
  {
    hide Swept, ProofFits, Fingerprint;
  }

  lemma RecentHere(s: State, c: Call)
    requires Inv(s) && s.now <= c.now
    ensures c.slot in s.table ==> s.table[c.slot].created <= c.now
  {
  }

  /** Why a call that does not execute was refused. */
  lemma RefusalsAreSpecific(s: State, es: seq<Event>, t: State, c: Call)
    requires Initial(s) && Reach(s, es, t) && Permitted(t, DoExecute(c)) && !Found(t, c)
    ensures Execute(t, c).1 == CapacityExceeded <==> |Swept(t, c)| >= MAX_COMMANDS
    ensures Execute(t, c).1 == Forbidden <==> |Swept(t, c)| < MAX_COMMANDS && !ProofAccepted(t, c)
  {
    InitialInv(s);
    ReachKeepsInv(s, es, t);
    RecentHere(t, c);
    hide Inv, Swept, ProofFits, Fingerprint, IsPruning;
  }

  /** Nothing else takes effect: a step adds at most one effect, and only for a call that was answered by its body. */
  lemma EffectsComeFromBodies(s: State, e: Event)
    requires Inv(s) && Permitted(s, e) && Step(s, e).effects != s.effects
    ensures e.DoExecute? && Recordable(e.call.body) && !Found(s, e.call)
    ensures Step(s, e).effects == s.effects + [Effect(e.call.slot, e.call.request, e.call.now, e.call.body.answer,
        if e.call.sensitive then e.call.token else None)]
    ensures e.call.sensitive ==> ProofAccepted(s, e.call)
  {
    hide Fingerprint, Swept, Inv, ProofAccepted, Permitted;
  }

  // ---------------------------------------------------------------- imperative form

  class CommandStore {
    var table: map<Slot, Entry>
    var proofs: map<nat, Proof>
    ghost var clock: int
    ghost var effects: seq<Effect>
    ghost var issued: map<nat, Proof>

    ghost function Abs(): State
      reads this
    {
      State(table, proofs, clock, effects, issued)
    }

    /** A row of `left` with the least expiry. */
    method Oldest(rows: map<Slot, Entry>, left: set<Slot>) returns (k: Slot)
      requires left != {} && left <= rows.Keys
      ensures k in left && forall q | q in left :: rows[k].expires <= rows[q].expires
    {
      k :| k in left;
      var rest := left - {k};
      while rest != {}
        invariant rest <= left && k in left && forall q | q in left - rest :: rows[k].expires <= rows[q].expires
        decreases |rest|
      {
        var q :| q in rest;
        if rows[q].expires < rows[k].expires {
          k := q;
        }
        rest := rest - {q};
      }
    }

    /** Bounded housekeeping: at most 128 expired rows, oldest first. */
    method Prune(rows: map<Slot, Entry>, now: int) returns (pruned: set<Slot>)
      ensures IsPruning(rows, now, pruned)
    {
      pruned := {};
      var left := Expired(rows, now);
      while left != {} && |pruned| < PRUNE_LIMIT
        invariant pruned + left == Expired(rows, now) && pruned !! left && |pruned| <= PRUNE_LIMIT
        invariant forall p, q | p in pruned && q in left :: rows[p].expires <= rows[q].expires
        decreases |left|
      {
        var k := Oldest(rows, left);
        pruned, left := pruned + {k}, left - {k};
      }
      assert Expired(rows, now) - pruned == left;
    }

    /** consumeReauth: the proof rows once the one bound to this session, action, target and request is spent. */
    method ConsumeReauth(c: Call) returns (ok: bool, spent: map<nat, Proof>)
      ensures ok == (c.token.Some? && c.token.value in proofs && ProofFits(proofs[c.token.value], c))
      ensures spent == if ok then proofs[c.token.value := proofs[c.token.value].(consumed := true)] else proofs
    {
      if c.token.None? || c.token.value !in proofs || !ProofFits(proofs[c.token.value], c) {
        return false, proofs;
      }
      return true, proofs[c.token.value := proofs[c.token.value].(consumed := true)];
    }

    method Replay(c: Call) returns (known: Option<Reply>)
      ensures known == LookUp(Abs(), c)
    {
      hide Fingerprint;
      if c.slot in table {
        var row := table[c.slot];
        if c.now < row.created {
          return Some(Unavailable);
        }
        if c.now < row.expires {
          if row.request != Fingerprint(c.request) {
            return Some(Conflict);
          }
          return Some(if c.commit == Committed then Replayed(row.answer) else Unavailable);
        }
      }
      return None;
    }

    /** The commit of everything a first execution writes. */
    method Record(c: Call, rows: map<Slot, Entry>, spent: map<nat, Proof>)
      requires c.body.BodyDone? && ProofAccepted(Abs(), c) && rows == Swept(Abs(), c)
      requires spent == if c.sensitive then proofs[c.token.value := proofs[c.token.value].(consumed := true)]
          else proofs
      modifies this
      ensures ProofAccepted(old(Abs()), c) && Abs() == Executed(old(Abs()), c)
    {
      hide Fingerprint, ProofFits, Swept;
      table := rows[c.slot := Entry(Fingerprint(c.request), c.now, c.now + DAY, c.body.answer)];
      proofs := spent;
      clock := c.now;
      effects := effects + [Effect(c.slot, c.request, c.now, c.body.answer, if c.sensitive then c.token else None)];
    }

    /** The executing part. A rolled-back transaction leaves the rows as they were. */
    method First(c: Call) returns (reply: Reply)
      modifies this
      ensures (Abs(), reply) == Perform(old(Abs()), c)
    {
      hide ProofFits, Swept, Executed;
      var rows := SweptRows(c);
      if |rows| >= MAX_COMMANDS {
        clock := c.now;
        return CapacityExceeded;
      }
      var spent := proofs;
      if c.sensitive {
        var ok;
        ok, spent := ConsumeReauth(c);
        if !ok {
          clock := c.now;
          return Forbidden;
        }
      }
      if !Recordable(c.body) || c.commit == RolledBack {
        clock := c.now;
        return Unavailable;
      }
      Record(c, rows, spent);
      return if c.commit == Committed then Fresh(c.body.answer) else Unavailable;
    }

    method SweptRows(c: Call) returns (rows: map<Slot, Entry>)
      ensures rows == Swept(Abs(), c)
    {
      rows := table - {c.slot};
      rows := rows - c.pruned;
    }

    /** One transaction; `choice` is the housekeeping it made. */
    method Run(c: Call) returns (reply: Reply, ghost choice: set<Slot>)
      requires clock <= c.now <= c.later
      modifies this
      ensures Permitted(old(Abs()), DoExecute(c.(pruned := choice)))
      ensures (Abs(), reply) == Execute(old(Abs()), c.(pruned := choice))
    {
      hide Perform, LookUp, IsPruning;
      var pruned := Prune(table - {c.slot}, c.now);
      choice := pruned;
      var d := c.(pruned := pruned);
      var known := Replay(d);
      if known.Some? {
        clock := c.now;
        reply := known.value;
      } else {
        reply := First(d);
      }
    }
  }
}
