/**
  The signed-configuration trust gate (internal/configtrust).

  A Gate owns one store. It persists an envelope before serving it, refuses rollback, latches when a
  write is uncertain and quarantines itself when its wall clock steps back. Signatures are abstract:
  an envelope carries the public key under which its signature verifies. The payload type is a
  parameter because the gate treats the payload as opaque bytes judged by a validator.

  `GateState` and `World` are the specification; the classes `SnapshotStore` and `Gate` are the
  imperative form and are proved to follow it.
*/
module ConfigTrust {
  import opened Base

  datatype Snapshot<+P> = Snapshot(
    schemaVersion: int, installation: string, generation: nat, revision: nat,
    issuedAt: int, expiresAt: int, kid: string, payload: P)

  /** Malformed stands for every byte string that is not a canonical envelope. */
  datatype Envelope<+P> =
    | Signed(snapshot: Snapshot<P>, signer: nat, tag: nat)
    | Malformed(junk: nat)

  /** What the store holds, as seen by the next Load. */
  datatype Disk<+P> = Empty | Holds(raw: Envelope<P>) | Unreadable

  /** How one Save ends. Every outcome but Saved reports an error. */
  datatype SaveFault = Saved | LostBeforeWrite | LostAfterWrite | Torn

  datatype Error = Ok | Invalid | Unavailable | Rollback | Persistence

  datatype Reason = NoReason | SnapshotPersistence | SnapshotInvalid | ClockRollback

  /** What Open is given: trusted keys by kid, installation, generation floor and payload validator. */
  datatype Trust<!P> = Trust(keys: map<string, nat>, installation: string, minimum: nat, validate: P -> bool)

  datatype GateState<!P> = GateState(
    trust: Trust<P>, accepted: Option<Envelope<P>>, lastClock: int,
    clockHold: bool, recoveryAfter: int, failed: bool, reason: Reason)

  datatype World<!P> = World(gate: GateState<P>, disk: Disk<P>)

  datatype ClockRecovery<+P> = ClockRecovery(generation: nat, notBefore: int, digest: Envelope<P>)

  predicate SafeChar(c: char) {
    'a' <= c <= 'z' || 'A' <= c <= 'Z' || '0' <= c <= '9' || c == '_' || c == '-'
  }

  predicate SafeName(s: string) {
    1 <= |s| <= 80 && forall i | 0 <= i < |s| :: SafeChar(s[i])
  }

  predicate Structural<P>(s: Snapshot<P>) {
    && s.schemaVersion == 1 && SafeName(s.installation) && SafeName(s.kid)
    && 0 < s.generation <= MAX_SAFE_INTEGER && s.revision <= MAX_SAFE_INTEGER
    && 0 < s.issuedAt <= 253402214399 && s.issuedAt < s.expiresAt && s.expiresAt - s.issuedAt <= DAY_SECONDS
  }

  predicate TrustValid<P>(t: Trust<P>) {
    && 1 <= |t.keys| <= 8 && SafeName(t.installation) && 0 < t.minimum <= MAX_SAFE_INTEGER
    && forall kid | kid in t.keys :: SafeName(kid)
  }

  predicate Verifies<P>(t: Trust<P>, raw: Envelope<P>) {
    && raw.Signed? && Structural(raw.snapshot)
    && raw.snapshot.installation == t.installation && raw.snapshot.generation >= t.minimum
    && raw.snapshot.kid in t.keys && t.keys[raw.snapshot.kid] == raw.signer
    && t.validate(raw.snapshot.payload)
  }

  /** Generation of an accepted envelope, 0 when there is none. */
  function Gen<P>(e: Option<Envelope<P>>): nat {
    if e.Some? && e.value.Signed? then e.value.snapshot.generation else 0
  }

  function Rev<P>(e: Option<Envelope<P>>): nat {
    if e.Some? && e.value.Signed? then e.value.snapshot.revision else 0
  }

  function Clock<P>(g: GateState<P>, n: int): GateState<P> {
    if n < g.lastClock then g.(clockHold := true, recoveryAfter := g.lastClock, reason := ClockRollback)
    else g.(lastClock := n)
  }

  /** The verdict on a publication before any write; Ok together with the flag means a Save follows. */
  function Verdict<P(==)>(g: GateState<P>, raw: Envelope<P>, n: int): (v: (Error, bool)) {
    if g.failed || n < g.lastClock then (Unavailable, false)
    else if !Verifies(g.trust, raw) then (Invalid, false)
    else
      var s := raw.snapshot;
      if n < s.issuedAt || n >= s.expiresAt then (Invalid, false)
      else if s.generation < Gen(g.accepted) || s.revision < Rev(g.accepted) then (Rollback, false)
      else if g.clockHold && (s.generation <= Gen(g.accepted) || s.issuedAt < g.recoveryAfter) then (Unavailable, false)
      else if s.generation == Gen(g.accepted) then (if g.accepted == Some(raw) then Ok else Rollback, false)
      else (Ok, true)
  }

  function SaveTo<P>(disk: Disk<P>, raw: Envelope<P>, fault: SaveFault): Disk<P> {
    match fault
    case Saved => Holds(raw)
    case LostBeforeWrite => disk
    case LostAfterWrite => Holds(raw)
    case Torn => Unreadable
  }

  function Apply<P(==)>(w: World<P>, raw: Envelope<P>, n: int, fault: SaveFault): (r: (World<P>, Error)) {
    var (verdict, isNew) := Verdict(w.gate, raw, n);
    var g := if w.gate.failed then w.gate else Clock(w.gate, n);
    if !isNew then (World(g, w.disk), verdict)
    else if fault == Saved then
      (World(g.(accepted := Some(raw), clockHold := false, recoveryAfter := 0, reason := NoReason), Holds(raw)), Ok)
    else (World(g.(failed := true, reason := SnapshotPersistence), SaveTo(w.disk, raw, fault)), Persistence)
  }

  /** What Current returns at second n, without its effect on the clock. */
  function Serves<P>(g: GateState<P>, n: int): (s: Option<Snapshot<P>>) {
    if g.failed || n < g.lastClock || g.clockHold || g.accepted.None? || g.accepted.value.Malformed? then None
    else
      var s := g.accepted.value.snapshot;
      if n < s.issuedAt || n >= s.expiresAt then None else Some(s)
  }

  function Current<P>(w: World<P>, n: int): World<P> {
    if w.gate.failed then w else World(Clock(w.gate, n), w.disk)
  }

  function Closed<P>(t: Trust<P>, why: Reason): GateState<P> {
    GateState(t, None, 0, false, 0, true, why)
  }

  /** A new process: everything but the disk is lost. */
  function Open<P>(t: Trust<P>, disk: Disk<P>): World<P> {
    match disk
    case Empty => World(GateState(t, None, 0, false, 0, false, NoReason), disk)
    case Unreadable => World(Closed(t, SnapshotPersistence), disk)
    case Holds(raw) =>
      if Verifies(t, raw) then World(GateState(t, Some(raw), 0, false, 0, false, NoReason), disk)
      else World(Closed(t, SnapshotInvalid), disk)
  }

  function RecoveryRequest<P>(g: GateState<P>): (r: Option<ClockRecovery<P>>) {
    if g.failed || !g.clockHold || g.accepted.None? then None
    else Some(ClockRecovery(Gen(g.accepted), g.recoveryAfter, g.accepted.value))
  }

  // ---------------------------------------------------------------- runs

  /** Reopen is a crash at any point followed by Open, possibly with other keys. */
  datatype Event<!P> =
    | DoApply(raw: Envelope<P>, n: int, fault: SaveFault)
    | DoCurrent(n: int)
    | Reopen(trust: Trust<P>)

  function Step<P(==)>(w: World<P>, e: Event<P>): World<P> {
    match e
    case DoApply(raw, n, fault) => Apply(w, raw, n, fault).0
    case DoCurrent(n) => Current(w, n)
    case Reopen(t) => Open(t, w.disk)
  }

  function Run<P(==)>(w: World<P>, es: seq<Event<P>>): World<P>
    decreases |es|
  {
    if es == [] then w else Run(Step(w, es[0]), es[1..])
  }

  /** An open gate holds exactly what its disk holds; this is what persist-before-serve maintains. */
  predicate Coherent<P(==)>(w: World<P>) {
    !w.gate.failed ==>
      match w.disk
      case Empty => w.gate.accepted == None
      case Holds(raw) => raw.Signed? && raw.snapshot.generation > 0 && w.gate.accepted == Some(raw)
      case Unreadable => false
  }

  predicate Readable<P>(d: Disk<P>) {
    d.Empty? || (d.Holds? && d.raw.Signed? && d.raw.snapshot.generation > 0)
  }

  function OnDisk<P>(d: Disk<P>): Option<Envelope<P>> {
    if d.Holds? then Some(d.raw) else None
  }

  /** Disk contents only advance: the same envelope, a newer generation, or something no gate opens. */
  predicate Advances<P(==)>(a: Disk<P>, b: Disk<P>) {
    Readable(a) && Readable(b) ==>
      a == b || (Gen(OnDisk(a)) < Gen(OnDisk(b)) && Rev(OnDisk(a)) <= Rev(OnDisk(b)))
  }

  lemma OpenIsCoherent<P>(t: Trust<P>, disk: Disk<P>)
    ensures Coherent(Open(t, disk))
  {
  }

  /** One event keeps coherence, never moves a readable disk back, and never repairs a bad disk. */
  lemma StepAdvances<P>(w: World<P>, e: Event<P>)
    requires Coherent(w)
    ensures Coherent(Step(w, e)) && Advances(w.disk, Step(w, e).disk)
    ensures !Readable(w.disk) ==> !Readable(Step(w, e).disk)
  {
  }

  lemma {:induction false} RunAdvances<P>(w: World<P>, es: seq<Event<P>>)
    requires Coherent(w)
    ensures Coherent(Run(w, es)) && Advances(w.disk, Run(w, es).disk)
    ensures !Readable(w.disk) ==> !Readable(Run(w, es).disk)
    decreases |es|
  {
    if es != [] {
      StepAdvances(w, es[0]);
      RunAdvances(Step(w, es[0]), es[1..]);
    }
  }

  /** Durable high-water mark: after any run with failed saves, crashes and reopens, a gate is closed or
      holds at least the generation and revision of anything served before. */
  lemma HighWaterMark<P>(w: World<P>, n: int, es: seq<Event<P>>)
    requires Coherent(w) && Serves(w.gate, n).Some?
    ensures
      var served := Serves(w.gate, n).value;
      var g := Run(w, es).gate;
      g.failed || (Gen(g.accepted) >= served.generation && Rev(g.accepted) >= served.revision)
  {
    RunAdvances(w, es);
  }

  /** One generation is never accepted as two different envelopes, across processes. */
  lemma OneEnvelopePerGeneration<P>(w: World<P>, es: seq<Event<P>>)
    requires Coherent(w) && !w.gate.failed && !Run(w, es).gate.failed
    requires w.gate.accepted.Some? && Gen(w.gate.accepted) == Gen(Run(w, es).gate.accepted)
    ensures Run(w, es).gate.accepted == w.gate.accepted
  {
    RunAdvances(w, es);
  }

  /** A publication an open gate has not seen, is old enough for its clock and may replace what it holds. */
  predicate Eligible<P(==)>(g: GateState<P>, raw: Envelope<P>, n: int) {
    && Verifies(g.trust, raw) && raw.snapshot.issuedAt <= n < raw.snapshot.expiresAt
    && raw.snapshot.generation > Gen(g.accepted) && raw.snapshot.revision >= Rev(g.accepted)
    && (g.clockHold ==> raw.snapshot.issuedAt >= g.recoveryAfter)
  }

  /**
    Exactly when an open gate answers Ok: its clock did not go back, and the publication is eligible or is, outside a
    hold, the very one it holds within its validity. An eligible one is on disk, held and served at once.
  */
  lemma AppliesExactlyWhen<P>(w: World<P>, raw: Envelope<P>, n: int)
    requires Coherent(w) && !w.gate.failed
    ensures Apply(w, raw, n, Saved).1 == Ok <==>
              && w.gate.lastClock <= n
              && (|| Eligible(w.gate, raw, n)
                  || (!w.gate.clockHold && w.gate.accepted == Some(raw) && Verifies(w.gate.trust, raw)
                      && raw.snapshot.issuedAt <= n < raw.snapshot.expiresAt))
    ensures
      var w' := Apply(w, raw, n, Saved).0;
      w.gate.lastClock <= n && Eligible(w.gate, raw, n) ==>
        && w'.disk == Holds(raw) && w'.gate.accepted == Some(raw) && !w'.gate.clockHold && !w'.gate.failed
        && Serves(w'.gate, n) == Some(raw.snapshot)
    ensures Apply(w, raw, n, Saved).1 != Ok ==>
              Apply(w, raw, n, Saved).0.disk == w.disk && Apply(w, raw, n, Saved).0.gate.accepted == w.gate.accepted
  {
  }

  /** Samples and applies whose clock never goes back and whose saves succeed. */
  predicate Undisturbed<P>(es: seq<Event<P>>, from: int)
    decreases |es|
  {
    es != [] ==>
      && (es[0].DoCurrent? || (es[0].DoApply? && es[0].fault == Saved)) && from <= es[0].n
      && Undisturbed(es[1..], es[0].n)
  }

  /** An undisturbed gate never closes: whatever is delivered, it serves what it holds at every time of its validity. */
  lemma {:induction false} UndisturbedServes<P>(w: World<P>, es: seq<Event<P>>, m: int)
    requires Coherent(w) && !w.gate.failed && !w.gate.clockHold && Undisturbed(es, w.gate.lastClock)
    ensures
      var g := Run(w, es).gate;
      && !g.failed && !g.clockHold && Gen(g.accepted) >= Gen(w.gate.accepted)
      && (g.accepted.Some? ==>
            && g.accepted.value.Signed?
            && (var s := g.accepted.value.snapshot;
                g.lastClock <= m && s.issuedAt <= m < s.expiresAt ==> Serves(g, m) == Some(s)))
    decreases |es|
  {
    if es != [] {
      StepAdvances(w, es[0]);
      UndisturbedStep(w, es[0]);
      UndisturbedServes(Step(w, es[0]), es[1..], m);
    }
  }

  lemma UndisturbedStep<P>(w: World<P>, e: Event<P>)
    requires e.DoCurrent? || (e.DoApply? && e.fault == Saved)
    requires Coherent(w) && !w.gate.failed && !w.gate.clockHold && w.gate.lastClock <= e.n
    ensures
      var g := Step(w, e).gate;
      !g.failed && !g.clockHold && g.lastClock == e.n && Gen(g.accepted) >= Gen(w.gate.accepted)
  {
  }

  // ---------------------------------------------------------------- clock quarantine

  predicate SameProcess<P>(es: seq<Event<P>>) {
    forall i | 0 <= i < |es| :: !es[i].Reopen?
  }

  /** Event k durably accepted a publication newer than `floor` and issued at or after `boundary`. */
  ghost predicate Released<P>(w: World<P>, es: seq<Event<P>>, k: nat, floor: nat, boundary: int) {
    && k < |es| && es[k].DoApply? && es[k].raw.Signed?
    && es[k].raw.snapshot.generation > floor && es[k].raw.snapshot.issuedAt >= boundary
    && Apply(Run(w, es[..k]), es[k].raw, es[k].n, es[k].fault).1 == Ok
    && Run(w, es[..k + 1]).disk == Holds(es[k].raw)
  }

  lemma {:induction false} RunPrefix<P>(w: World<P>, e: Event<P>, es: seq<Event<P>>, k: nat)
    requires k <= |es|
    ensures Run(w, ([e] + es)[..k + 1]) == Run(Step(w, e), es[..k])
  {
    assert ([e] + es)[..k + 1] == [e] + es[..k];
    assert ([e] + es[..k])[1..] == es[..k];
  }

  /** While the hold lasts, nothing is served; only a release ends it inside one process. */
  lemma {:induction false} HoldUntilReleased<P>(w: World<P>, es: seq<Event<P>>, floor: nat, boundary: int)
    requires !w.gate.failed && w.gate.clockHold && w.gate.recoveryAfter >= boundary && w.gate.lastClock >= boundary
    requires Gen(w.gate.accepted) == floor && SameProcess(es)
    ensures
      var g := Run(w, es).gate;
      g.failed || (g.clockHold && Gen(g.accepted) == floor) || exists k: nat :: Released(w, es, k, floor, boundary)
    decreases |es|
  {
    if es != [] {
      var e, rest := es[0], es[1..];
      var w1 := Step(w, e);
      assert es == [e] + rest;
      if w1.gate.failed {
        FailedStaysFailed(w1, rest);
      } else if w1.gate.clockHold {
        HoldUntilReleased(w1, rest, floor, boundary);
        if k: nat :| Released(w1, rest, k, floor, boundary) {
          RunPrefix(w, e, rest, k);
          RunPrefix(w, e, rest, k + 1);
          assert Released(w, es, k + 1, floor, boundary);
        }
      } else {
        RunPrefix(w, e, rest, 0);
        assert es[..0] == [] && Run(w, es[..0]) == w;
        assert Released(w, es, 0, floor, boundary);
      }
    }
  }

  lemma {:induction false} FailedStaysFailed<P>(w: World<P>, es: seq<Event<P>>)
    requires w.gate.failed && SameProcess(es)
    ensures Run(w, es).gate.failed
    decreases |es|
  {
    if es != [] {
      FailedStaysFailed(Step(w, es[0]), es[1..]);
    }
  }

  /** Clock quarantine: once a sample n falls below the high-water mark T, whatever replays, catch-ups and
      further rollbacks follow, Current serves nothing until a strictly newer publication issued at or after
      T has been durably accepted. */
  lemma ClockQuarantine<P>(w: World<P>, n: int, es: seq<Event<P>>, later: int)
    requires !w.gate.failed && n < w.gate.lastClock && SameProcess(es)
    requires Serves(Run(Current(w, n), es).gate, later).Some?
    ensures exists k: nat :: Released(Current(w, n), es, k, Gen(w.gate.accepted), w.gate.lastClock)
  {
    HoldUntilReleased(Current(w, n), es, Gen(w.gate.accepted), w.gate.lastClock);
  }

  /** The quarantine belongs to the process: reopening under the same trust serves the held snapshot again
      exactly while it is within its own validity. */
  lemma ReopenForgetsQuarantine<P>(w: World<P>, n: int)
    requires Coherent(w) && !w.gate.failed && w.gate.clockHold && w.gate.accepted.Some?
    requires Verifies(w.gate.trust, w.gate.accepted.value) && n >= 0
    ensures
      var s := w.gate.accepted.value.snapshot;
      Serves(Step(w, Reopen(w.gate.trust)).gate, n) == (if s.issuedAt <= n < s.expiresAt then Some(s) else None)
  {
  }

  /** The process has seen the issue time of what it holds pass on its own clock, before any hold. */
  predicate SeenIssued<P>(g: GateState<P>) {
    g.accepted.Some? ==>
      && g.accepted.value.Signed? && g.accepted.value.snapshot.issuedAt <= g.lastClock
      && (g.clockHold ==> g.accepted.value.snapshot.issuedAt <= g.recoveryAfter)
  }

  /** A gate is in that state after every acceptance of its own, and stays so until it is closed or reopened. */
  lemma {:induction false} BoundaryIsNotEarly<P>(w: World<P>, es: seq<Event<P>>)
    requires SeenIssued(w.gate) && SameProcess(es)
    ensures Run(w, es).gate.failed || SeenIssued(Run(w, es).gate)
    decreases |es|
  {
    if es != [] {
      var w1 := Step(w, es[0]);
      assert !es[0].Reopen?;
      if w1.gate.failed {
        FailedStaysFailed(w1, es[1..]);
      } else {
        BoundaryIsNotEarly(w1, es[1..]);
      }
    }
  }

  lemma AcceptanceIsSeen<P>(w: World<P>, raw: Envelope<P>, n: int)
    requires Verdict(w.gate, raw, n) == (Ok, true)
    ensures SeenIssued(Apply(w, raw, n, Saved).0.gate) && Apply(w, raw, n, Saved).0.gate.accepted == Some(raw)
  {
  }

  /** Publications of one issuer in signing order. */
  predicate IssuedInOrder<P>(log: seq<Envelope<P>>) {
    && (forall i | 0 <= i < |log| :: log[i].Signed?)
    && (forall i, j | 0 <= i < j < |log| ::
          log[i].snapshot.generation < log[j].snapshot.generation
              && log[i].snapshot.revision <= log[j].snapshot.revision)
  }

  /** A gate whose accepted envelope is log[i] never answers Rollback to log[j], j >= i. */
  lemma InOrderNeverRollsBack<P>(g: GateState<P>, log: seq<Envelope<P>>, i: nat, j: nat, n: int)
    requires IssuedInOrder(log) && i <= j < |log|
    requires g.accepted == None || g.accepted == Some(log[i])
    ensures Verdict(g, log[j], n).0 != Rollback
  {
  }

  // ---------------------------------------------------------------- imperative form

  /** The store of one gate writer; the fault is the environment's choice. */
  class SnapshotStore<P(==)> {
    var disk: Disk<P>

    constructor (initial: Disk<P>)
      ensures disk == initial
    {
      disk := initial;
    }

    method Load() returns (raw: Option<Envelope<P>>, ok: bool)
      ensures ok == !disk.Unreadable?
      ensures raw == OnDisk(disk)
    {
      match disk {
        case Empty => raw, ok := None, true;
        case Holds(r) => raw, ok := Some(r), true;
        case Unreadable => raw, ok := None, false;
      }
    }

    method Save(raw: Envelope<P>, fault: SaveFault) returns (ok: bool)
      modifies this
      ensures ok == (fault == Saved) && disk == SaveTo(old(disk), raw, fault)
    {
      ok := fault == Saved;
      match fault {
        case Saved => disk := Holds(raw);
        case LostBeforeWrite =>
        case LostAfterWrite => disk := Holds(raw);
        case Torn => disk := Unreadable;
      }
    }
  }

  class Gate<P(==)> {
    const trust: Trust<P>
    const store: SnapshotStore<P>
    var current: Option<Snapshot<P>>
    var raw: Option<Envelope<P>>
    var lastClock: int
    var clockHold: bool
    var recoveryAfter: int
    var failed: bool
    var failureReason: Reason

    ghost predicate Valid()
      reads this
    {
      && (current.Some? <==> raw.Some?)
      && (raw.Some? ==> raw.value.Signed? && raw.value.snapshot == current.value && Structural(current.value))
    }

    ghost function Abs(): World<P>
      reads this, store
    {
      World(GateState(trust, raw, lastClock, clockHold, recoveryAfter, failed, failureReason), store.disk)
    }

    constructor (t: Trust<P>, s: SnapshotStore<P>)
      requires TrustValid(t)
      ensures Valid() && store == s && Abs() == Open(t, s.disk)
    {
      trust, store := t, s;
      current, raw := None, None;
      lastClock, clockHold, recoveryAfter := 0, false, 0;
      failed, failureReason := false, NoReason;
      new;
      var loaded, ok := s.Load();
      if !ok {
        failed, failureReason := true, SnapshotPersistence;
      } else if loaded.Some? {
        if Verifies(t, loaded.value) {
          current, raw := Some(loaded.value.snapshot), loaded;
        } else {
          failed, failureReason := true, SnapshotInvalid;
        }
      }
    }

    method Sample(n: int) returns (ok: bool)
      requires Valid()
      modifies this
      ensures Valid() && ok == (n >= old(lastClock))
      ensures Abs() == World(Clock(old(Abs()).gate, n), old(store.disk))
    {
      if n < lastClock {
        clockHold, recoveryAfter, failureReason := true, lastClock, ClockRollback;
        return false;
      }
      lastClock := n;
      return true;
    }

    method ApplyAt(candidate: Envelope<P>, n: int, fault: SaveFault) returns (err: Error)
      requires Valid()
      modifies this, store
      ensures Valid() && (Abs(), err) == Apply(old(Abs()), candidate, n, fault)
    {
      if failed {
        return Unavailable;
      }
      var sampled := Sample(n);
      if !sampled {
        return Unavailable;
      }
      if !Verifies(trust, candidate) {
        return Invalid;
      }
      var s := candidate.snapshot;
      if n < s.issuedAt || n >= s.expiresAt {
        return Invalid;
      }
      var generation, revision := 0, 0;
      if current.Some? {
        generation, revision := current.value.generation, current.value.revision;
      }
      if s.generation < generation || s.revision < revision {
        return Rollback;
      }
      if clockHold && (s.generation <= generation || s.issuedAt < recoveryAfter) {
        return Unavailable;
      }
      if s.generation == generation {
        return if raw == Some(candidate) then Ok else Rollback;
      }
      var saved := store.Save(candidate, fault);
      if !saved {
        failed, failureReason := true, SnapshotPersistence;
        return Persistence;
      }
      current, raw := Some(s), Some(candidate);
      clockHold, recoveryAfter, failureReason := false, 0, NoReason;
      return Ok;
    }

    method CurrentAt(n: int) returns (s: Option<Snapshot<P>>)
      requires Valid()
      modifies this
      ensures Valid() && Abs() == Current(old(Abs()), n) && s == Serves(old(Abs()).gate, n)
    {
      if failed {
        return None;
      }
      var sampled := Sample(n);
      if !sampled || clockHold || current.None? || n < current.value.issuedAt || n >= current.value.expiresAt {
        return None;
      }
      return current;
    }

    method RequestRecovery() returns (r: Option<ClockRecovery<P>>)
      requires Valid()
      ensures r == RecoveryRequest(Abs().gate)
    {
      if failed || !clockHold || current.None? {
        return None;
      }
      return Some(ClockRecovery(current.value.generation, recoveryAfter, raw.value));
    }
  }

  /** The exported Open: refuses unusable arguments, and reports a closed gate as an error. */
  method OpenGate<P(==)>(t: Trust<P>, s: SnapshotStore<P>) returns (g: Gate?<P>, err: Error)
    ensures g == null <==> !TrustValid(t)
    ensures g != null ==> g.Valid() && g.store == s && g.Abs() == Open(t, s.disk)
    ensures err == Ok <==> g != null && !g.failed
    ensures g != null && err != Ok ==> (err == Persistence <==> s.disk.Unreadable?)
  {
    if |t.keys| == 0 || |t.keys| > 8 || !SafeName(t.installation) || t.minimum == 0 || t.minimum > MAX_SAFE_INTEGER
       || exists kid | kid in t.keys :: !SafeName(kid) {
      return null, Invalid;
    }
    g := new Gate(t, s);
    err := if !g.failed then Ok else if g.failureReason == SnapshotPersistence then Persistence else Invalid;
  }
}
