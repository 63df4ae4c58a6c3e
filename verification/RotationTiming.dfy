/**
  The timing argument behind the 30 s margin and the 24 h + 30 s overlap.

  Database time is in microseconds. Every other clock (Gateway, queue) may read up to 30 s ahead of or
  behind it. A run is `Permitted` when the owner follows the managed procedure of
  internal/installer/rotation.go: all roles are stopped during an operation and are started again only
  after the operation has finished writing. Emergency revocation is one of these operations: it may drop a
  key early, but it weakens neither the bound of a later retirement nor the stability of a later claim.
*/
module RotationTiming {
  import opened Base
  import opened Keyring
  import opened Rotation

  /** What a role produced, with the database time it was made and the times it carries. */
  datatype Artifact =
    | ConfigSnapshot(keyId: string, madeAt: int, expiresAt: int)
    | ReturnEnvelope(keyId: string, madeAt: int, issued: int, expires: int)
    | AdmissionToken(keyId: string, madeAt: int, promoted: int, until: int)

  datatype State = State(world: World, now: int, made: set<Artifact>)

  datatype TimedEvent =
    | Wait(until: int)
    | Operate(event: Event)
    | MakeConfig
    | MakeReturn(issued: int, expires: int)
    | MakeAdmission(promoted: int, until: int)

  const SKEW: int := 30000

  const DAY_MILLIS: int := 86400000

  /** Longest admission a verifier accepts, in seconds. */
  const ADMISSION_SECONDS: int := 3600

  const LEEWAY_SECONDS: int := 30

  function Millis(t: int): int {
    t / 1000
  }

  /** The admission key a Coordinator running with x uses for a ticket promoted at `promoted`. */
  function AdmissionKey(x: Identity, promoted: int): Key {
    if x.keys.Some? then AdmissionAt(x.keys.value, promoted) else x.current
  }

  function TimedStep(s: State, e: TimedEvent): State {
    match e
    case Wait(t) => if t >= s.now then s.(now := t) else s
    case Operate(event) => s.(world := Step(s.world, event))
    case MakeConfig =>
      if Control !in s.world.live then s
      else s.(made := s.made + {ConfigSnapshot(s.world.live[Control].current.id, s.now, Unix(s.now) + DAY_SECONDS)})
    case MakeReturn(issued, expires) =>
      if Gateway !in s.world.live || expires > issued + DAY_MILLIS then s
      else s.(made := s.made + {ReturnEnvelope(s.world.live[Gateway].current.id, s.now, issued, expires)})
    case MakeAdmission(promoted, until) =>
      if Coordinator !in s.world.live then s
      else s.(made := s.made + {AdmissionToken(AdmissionKey(s.world.live[Coordinator], promoted).id, s.now, promoted,
          until)})
  }

  /** Every role file is the scoped form of the last journaled set. */
  predicate Settled(w: World) {
    forall role | role in w.files :: if w.written.Some? then w.files[role] == RoleFile(w.written.value, role)
        else w.files[role].keys.None?
  }

  predicate Permitted(s: State, e: TimedEvent) {
    match e
    case Operate(DoRotate(c)) => c.now == Millis(s.now) && (c.op == Status || s.world.live == map[])
    case Operate(Start(role)) => Settled(s.world)
    case MakeReturn(issued, expires) => issued <= Millis(s.now) + SKEW
    case MakeAdmission(promoted, until) => promoted <= Millis(s.now) + SKEW
    case _ => true
  }

  ghost predicate Reach(s: State, es: seq<TimedEvent>, t: State)
    decreases |es|
  {
    if es == [] then t == s else Permitted(s, es[0]) && Reach(TimedStep(s, es[0]), es[1..], t)
  }

  predicate Initial(s: State) {
    Fresh(s.world) && s.made == {}
  }

  /** A verifier whose clock reads `clock` microseconds still takes the artifact. */
  predicate Acceptable(a: Artifact, clock: int) {
    match a
    case ConfigSnapshot(_, _, expiresAt) => Unix(clock) < expiresAt
    case ReturnEnvelope(_, _, issued, expires) => issued <= Millis(clock) < expires && expires - issued <= DAY_MILLIS
    case AdmissionToken(_, _, promoted, until) =>
      && until / 1000 - promoted / 1000 <= ADMISSION_SECONDS
      && Unix(clock) < until / 1000 + LEEWAY_SECONDS
  }

  /** Made with a key that stopped signing at `since` minus the margin. */
  predicate MadeBefore(a: Artifact, since: int) {
    match a
    case ConfigSnapshot(_, madeAt, expiresAt) => Millis(madeAt) + MARGIN <= since
        && expiresAt == Unix(madeAt) + DAY_SECONDS
    case ReturnEnvelope(_, madeAt, issued, expires) => Millis(madeAt) + MARGIN <= since
        && issued <= Millis(madeAt) + SKEW
    case AdmissionToken(_, madeAt, promoted, until) => promoted <= since
  }

  /** Nothing made before the boundary is acceptable, on any clock within the skew, once a normal retirement
      is allowed at database time t. */
  lemma OldArtifactsExpired(a: Artifact, since: int, t: int, clock: int)
    requires MadeBefore(a, since) && Millis(t) >= since + OVERLAP && clock >= t - SKEW * 1000
    ensures !Acceptable(a, clock)
  {
  }

  // ---------------------------------------------------------------- invariant of permitted runs

  /** Stamps within the skew of the making time, and lifetimes the code gives. */
  predicate Stamped(a: Artifact) {
    match a
    case ConfigSnapshot(_, madeAt, expiresAt) => expiresAt == Unix(madeAt) + DAY_SECONDS
    case ReturnEnvelope(_, madeAt, issued, expires) => issued <= Millis(madeAt) + SKEW
    case AdmissionToken(_, madeAt, promoted, until) => promoted <= Millis(madeAt) + SKEW
  }

  /** Before any role file is scoped, the journal can only have staged on top of the legacy key. */
  ghost predicate LegacyStart(w: World) {
    (forall role | role in w.files :: w.files[role].keys.None?) ==> Top(w).phase != Active && Top(w).current == w.legacy
  }

  /** Running roles hold their files, which are settled. */
  ghost predicate Managed(w: World) {
    && Inv(w) && LegacyStart(w)
    && (w.live != map[] ==> Settled(w))
    && (forall role | role in w.live :: role in w.files && w.live[role] == w.files[role])
  }

  ghost predicate ArtifactsInv(made: set<Artifact>, top: Set, now: int) {
    && (forall a | a in made :: a.madeAt <= now && Stamped(a))
    && (top.phase == Active ==>
          && top.previous.Some? && top.current.since <= Millis(now) + MARGIN
          && (forall a | a in made && a.keyId == top.previous.value.id :: MadeBefore(a, top.current.since)))
  }

  ghost predicate TimedInv(s: State) {
    Managed(s.world) && ArtifactsInv(s.made, Top(s.world), s.now)
  }

  /** A running role holds the key ids of the journaled set. */
  lemma RunningIsTop(w: World, role: Role)
    requires Managed(w) && role in w.live
    ensures
      var x, top := w.live[role], Top(w);
      && x.current.id == top.current.id
      && (x.keys.Some? <==> w.written.Some?) && (x.keys.Some? ==> x.keys == Some(ForRole(top, For(role))))
      && (x.keys.None? ==> x.current.admissionPublic == top.current.admissionPublic)
  {
  }

  lemma TopPhase(w: World)
    requires Managed(w)
    ensures Top(w).phase == Active <==> Top(w).previous.Some?
  {
    hide Keyring.Keys, Settled, LegacyStart, Rotation.Lags, Rotation.WellHeld;
  }

  lemma DistinctPhases(top: Set)
    requires Validate(top, Owner) && top.previous.Some?
    ensures top.current.id != top.previous.value.id
  {
    assert Keys(top)[0] == top.current && Keys(top)[1] == top.previous.value;
  }

  lemma CurrentIsNotPrevious(w: World)
    requires Managed(w) && Top(w).phase == Active && Top(w).previous.Some?
    ensures Top(w).current.id != Top(w).previous.value.id
  {
    hide Keyring.Keys, Validate, Settled, LegacyStart, Rotation.Lags, Rotation.WellHeld;
    DistinctPhases(Top(w));
  }

  lemma MadeNow(s: State, e: TimedEvent, a: Artifact)
    requires TimedInv(s) && Permitted(s, e) && a in TimedStep(s, e).made && a !in s.made
    ensures a.madeAt == s.now && Stamped(a)
    ensures
      var top := Top(s.world);
      top.phase == Active && a.keyId == top.previous.value.id ==> MadeBefore(a, top.current.since)
  {
    hide Managed, Keyring.Keys, Validate;
    var w, top := s.world, Top(s.world);
    if top.phase == Active {
      CurrentIsNotPrevious(w);
    }
    var role := if e.MakeConfig? then Control else if e.MakeReturn? then Gateway else Coordinator;
    RunningIsTop(w, role);
  }

  /** Whatever a running role makes in an active phase is made with the new key, or is an admission that was
      promoted before the boundary. */
  lemma MakeKeepsInv(s: State, e: TimedEvent)
    requires TimedInv(s) && Permitted(s, e) && (e.MakeConfig? || e.MakeReturn? || e.MakeAdmission?)
    ensures TimedInv(TimedStep(s, e))
  {
    hide Managed, Stamped, MadeBefore;
    var top := Top(s.world);
    forall a | a in TimedStep(s, e).made - s.made
      ensures a.madeAt == s.now && Stamped(a)
      ensures top.phase == Active && a.keyId == top.previous.value.id ==> MadeBefore(a, top.current.since)
    {
      MadeNow(s, e, a);
    }
  }

  /** What an operation does to the newest journaled set; only revocation may drop the old key early. */
  ghost predicate Shape(op: Operation, before: Set, after: Set, now: int) {
    || (after.phase != Active && before.phase != Active && after.current == before.current)
    || (before.phase != Active && after.phase == Active && after.previous == Some(before.current)
        && after.current.since == now + MARGIN)
    || (before.phase == Active && after == before)
    || (before.phase == Active && after.phase == Stable && after.current == before.current
        && (op == Revoke || before.current.since + OVERLAP <= now))
  }

  lemma OperationShape(w: World, c: Call)
    requires Inv(w) && LegacyStart(w)
    ensures Shape(c.op, Top(w), Top(Rotate(w, c).0), c.now)
  {
    hide Validate, Keyring.Keys, Digest, ForRole, Inv;
    assert w.journal.Some? ==> w.journal == w.written by {
      InvJournal(w);
    }
  }

  lemma InvJournal(w: World)
    requires Inv(w)
    ensures w.journal.Some? ==> w.journal == w.written
  {
  }

  lemma OperationKeepsLegacyStart(w: World, c: Call)
    requires Inv(w) && LegacyStart(w)
    ensures LegacyStart(Rotate(w, c).0)
  {
    hide Validate, Keyring.Keys, Digest, ForRole, WellHeld, AckBacked, Lags, Sanitize;
    var w' := Rotate(w, c).0;
    if w' != w && forall role | role in w'.files :: w'.files[role].keys.None? {
      assert forall role | role in w.files :: w'.files[role] == w.files[role] by {
        forall role | role in w.files
          ensures w'.files[role] == w.files[role]
        {
          assert w'.files[role].keys.None?;
        }
      }
      var keys := StartingSet(w, c.op).value;
      if CountAcks(w, keys, c) == 2 && w.journal.Some? {
        assert Holds(w, Control, w.files[Control]) && w.files[Control].keys.None?;
        AcksPinEverything(w, c);
      }
    }
  }

  lemma ShapeKeepsArtifacts(made: set<Artifact>, op: Operation, before: Set, after: Set, now: int)
    requires ArtifactsInv(made, before, now) && Shape(op, before, after, Millis(now))
    ensures ArtifactsInv(made, after, now)
  {
  }

  /** Starts, stops, acknowledgements and journal loss leave the journaled set alone. */
  lemma OtherEventsKeepManaged(w: World, event: Event)
    requires Managed(w) && !event.DoRotate? && (event.Start? ==> Settled(w))
    ensures Managed(Step(w, event)) && Top(Step(w, event)) == Top(w)
  {
    hide Validate, Keyring.Keys, Digest, ForRole, Rotation.Inv, RoleFile;
    StepKeepsInv(w, event);
  }

  lemma RotateKeepsManaged(w: World, c: Call)
    requires Managed(w) && w.live == map[]
    ensures Managed(Rotate(w, c).0)
  {
    hide Validate, Keyring.Keys, Digest, ForRole, Rotation.Inv, LegacyStart, Rotate;
    StepKeepsInv(w, DoRotate(c));
    assert Step(w, DoRotate(c)) == Rotate(w, c).0;
    OperationKeepsLegacyStart(w, c);
    RotateKeepsLive(w, c);
  }

  lemma OperateKeepsInv(s: State, event: Event)
    requires TimedInv(s) && Permitted(s, Operate(event))
    ensures TimedInv(TimedStep(s, Operate(event)))
  {
    hide Managed, ArtifactsInv, Shape, Rotate, Settled;
    var w, w' := s.world, Step(s.world, event);
    if event.DoRotate? {
      if event.call.op == Status {
        StatusChangesNothing(w, event.call);
      } else {
        RotateKeepsManaged(w, event.call);
        ManagedShape(w, event.call);
        ShapeKeepsArtifacts(s.made, event.call.op, Top(w), Top(w'), s.now);
      }
    } else {
      OtherEventsKeepManaged(w, event);
    }
  }

  lemma ManagedShape(w: World, c: Call)
    requires Managed(w)
    ensures Shape(c.op, Top(w), Top(Rotate(w, c).0), c.now)
  {
    hide Rotation.Inv, LegacyStart, Shape, Rotate, Settled;
    OperationShape(w, c);
  }

  lemma StatusChangesNothing(w: World, c: Call)
    requires c.op == Status
    ensures Rotate(w, c).0 == w
  {
  }

  lemma RotateKeepsLive(w: World, c: Call)
    ensures Rotate(w, c).0.live == w.live
  {
  }

  lemma TimedStepKeepsInv(s: State, e: TimedEvent)
    requires TimedInv(s) && Permitted(s, e)
    ensures TimedInv(TimedStep(s, e))
  {
    hide Managed;
    match e
    case Wait(t) =>
    case Operate(event) => OperateKeepsInv(s, event);
    case _ => MakeKeepsInv(s, e);
  }

  lemma {:induction false} ReachKeepsInv(s: State, es: seq<TimedEvent>, t: State)
    requires TimedInv(s) && Reach(s, es, t)
    ensures TimedInv(t)
    decreases |es|
  {
    hide TimedInv, TimedStep, Permitted;
    if es != [] {
      TimedStepKeepsInv(s, es[0]);
      ReachKeepsInv(TimedStep(s, es[0]), es[1..], t);
    }
  }

  lemma InitialInv(s: State)
    requires Initial(s)
    ensures TimedInv(s)
  {
  }

  /** Retirement bound: in every permitted run, whenever a normal retirement is accepted, no configuration
      snapshot, return envelope or admission token made with the retired key is acceptable to any role whose
      clock is at most 30 s behind the database, then or later. */
  lemma RetirementBound(s: State, es: seq<TimedEvent>, t: State, c: Call, a: Artifact, clock: int)
    requires Initial(s) && Reach(s, es, t) && Permitted(t, Operate(DoRotate(c))) && c.op == Retire
    requires t.world.journal.Some? && t.world.journal.value.phase == Active && Rotate(t.world, c).1 != Refused
    requires a in t.made && a.keyId == t.world.journal.value.previous.value.id
    requires clock >= t.now - SKEW * 1000
    ensures !Acceptable(a, clock)
  {
    hide Validate, Keyring.Keys, Digest, ForRole, Rotation.Lags, Rotation.WellHeld, LegacyStart, Settled;
    InitialInv(s);
    ReachKeepsInv(s, es, t);
    var top := t.world.journal.value;
    assert Decide(top, CountAcks(t.world, top, c), c).Some?;
    OldArtifactsExpired(a, top.current.since, t.now, clock);
  }

  /** Some return envelope sealed at database time madeAt can still be opened when retirement first becomes
      possible, on clocks within the skew. */
  ghost predicate SomeReturnSurvives(since: int, madeAt: int) {
    exists issued: int, expires: int, clock: int ::
      && issued <= Millis(madeAt) + SKEW && expires <= issued + DAY_MILLIS
      && clock >= (since + OVERLAP) * 1000 - SKEW * 1000
      && Acceptable(ReturnEnvelope("", madeAt, issued, expires), clock)
  }

  /** The margin is exact: the bound holds for an old key if and only if its last use was at least 30 s before
      the recorded boundary. A role started on a stale file after a crashed activation falls outside it: the
      run is in RotationStale. */
  lemma MarginIsExact(since: int, madeAt: int)
    ensures !SomeReturnSurvives(since, madeAt) <==> Millis(madeAt) + MARGIN <= since
  {
    if Millis(madeAt) + MARGIN > since {
      var issued := Millis(madeAt) + SKEW;
      var clock := (if issued > since + DAY_MILLIS then issued else since + DAY_MILLIS) * 1000;
      assert Acceptable(ReturnEnvelope("", madeAt, issued, issued + DAY_MILLIS), clock);
    }
  }

  // ---------------------------------------------------------------- claim retries

  /** A ticket once promoted: both times are fixed by the queue. */
  datatype Ticket = Ticket(room: string, epoch: nat, jti: string, promotedAt: int, admissionUntil: int)

  datatype Claims = Claims(kid: string, room: string, epoch: nat, jti: string, issued: int, notBefore: int,
      expires: int)

  function ClaimsFor(x: Identity, t: Ticket): Claims {
    Claims("admission-" + AdmissionKey(x, t.promotedAt).id, t.room, t.epoch, t.jti,
           t.promotedAt / 1000, t.promotedAt / 1000, t.admissionUntil / 1000)
  }

  /** The queue's clock, under 30 s away from the database, has passed the promotion but not the expiry. */
  predicate Claimable(t: Ticket, now: int) {
    && t.promotedAt < Millis(now) + SKEW && Millis(now) - SKEW < t.admissionUntil
    && t.admissionUntil <= t.promotedAt + ADMISSION_SECONDS * 1000
  }

  predicate Revokes(e: TimedEvent) {
    e.Operate? && e.event.DoRotate? && e.event.call.op == Revoke
  }

  predicate RevokesNothing(es: seq<TimedEvent>) {
    forall i | 0 <= i < |es| :: !Revokes(es[i])
  }

  /** The key a running Coordinator picks is the journaled set's key for the promotion time. */
  lemma ChosenIsTop(w: World, p: int)
    requires Managed(w) && Coordinator in w.live
    ensures
      var k, top := AdmissionKey(w.live[Coordinator], p), AdmissionAt(Top(w), p);
      k.id == top.id && k.admissionPublic == top.admissionPublic
  {
    hide Managed;
    RunningIsTop(w, Coordinator);
    TopPhase(w);
  }

  /** One operation does not change the key of a ticket promoted by now and claimable at some later time. */
  lemma ShapeKeepsChoice(op: Operation, before: Set, after: Set, now: int, p: int)
    requires Shape(op, before, after, now) && op != Revoke
    requires before.phase == Active <==> before.previous.Some?
    requires after.phase == Active <==> after.previous.Some?
    requires p < now + SKEW && now < p + ADMISSION_SECONDS * 1000 + SKEW
    ensures AdmissionAt(after, p) == AdmissionAt(before, p)
  {
  }

  lemma StepKeepsChoice(s: State, e: TimedEvent, p: int)
    requires TimedInv(s) && Permitted(s, e) && !Revokes(e)
    requires p < Millis(s.now) + SKEW && Millis(s.now) < p + ADMISSION_SECONDS * 1000 + SKEW
    ensures AdmissionAt(Top(TimedStep(s, e).world), p) == AdmissionAt(Top(s.world), p)
  {
    hide ArtifactsInv, Managed, Rotate, Settled, Shape, AdmissionAt;
    var w := s.world;
    if e.Operate? {
      if !e.event.DoRotate? {
        OtherEventsKeepManaged(w, e.event);
      } else if e.event.call.op == Status {
        StatusChangesNothing(w, e.event.call);
      } else {
        RotateKeepsManaged(w, e.event.call);
        ManagedShape(w, e.event.call);
        TopPhase(w);
        TopPhase(Rotate(w, e.event.call).0);
        ShapeKeepsChoice(e.event.call.op, Top(w), Top(Rotate(w, e.event.call).0), Millis(s.now), p);
      }
    }
  }

  lemma {:induction false} ReachIsForward(s: State, es: seq<TimedEvent>, t: State)
    requires Reach(s, es, t)
    ensures s.now <= t.now
    decreases |es|
  {
    hide Permitted;
    if es != [] {
      ReachIsForward(TimedStep(s, es[0]), es[1..], t);
    }
  }

  lemma {:induction false} ReachKeepsChoice(s: State, es: seq<TimedEvent>, t: State, p: int)
    requires TimedInv(s) && Reach(s, es, t) && RevokesNothing(es)
    requires p < Millis(s.now) + SKEW && Millis(t.now) < p + ADMISSION_SECONDS * 1000 + SKEW
    ensures AdmissionAt(Top(t.world), p) == AdmissionAt(Top(s.world), p)
    decreases |es|
  {
    hide TimedInv, Permitted, AdmissionAt;
    if es != [] {
      var s1 := TimedStep(s, es[0]);
      ReachIsForward(s, es, t);
      StepKeepsChoice(s, es[0], p);
      TimedStepKeepsInv(s, es[0]);
      assert s.now <= s1.now;
      ReachKeepsChoice(s1, es[1..], t, p);
    }
  }

  /** What the condition on revocation excludes, exactly: a revocation moves the claims of the tickets promoted
      before the boundary of the key it keeps, and of no other ticket. */
  lemma RevocationMovesClaims(w: World, c: Call, p: int)
    requires Managed(w) && w.journal.Some? && Top(w).phase == Active && c.op == Revoke && Rotate(w, c).1.Done?
    ensures AdmissionAt(Top(Rotate(w, c).0), p).id == AdmissionAt(Top(w), p).id <==> p >= Top(w).current.since
  {
    hide Managed, Validate, Keyring.Keys, Distributed;
    ManagedJournal(w);
    TopPhase(w);
    CurrentIsNotPrevious(w);
  }

  lemma ManagedJournal(w: World)
    requires Managed(w) && w.journal.Some?
    ensures w.journal == Some(Top(w))
  {
  }

  /** Claim retry stability: for a ticket with a recorded promotion, every claim before expiry, across any
      permitted stage, activate and retire steps, is signed by the same key over identical claims, whatever
      rotations and revocations went before. */
  lemma ClaimRetryStability(s0: State, es: seq<TimedEvent>, s: State, fs: seq<TimedEvent>, u: State, t: Ticket)
    requires Initial(s0) && Reach(s0, es, s) && Reach(s, fs, u) && RevokesNothing(fs)
    requires Coordinator in s.world.live && Coordinator in u.world.live && Claimable(t, s.now) && Claimable(t, u.now)
    ensures ClaimsFor(s.world.live[Coordinator], t) == ClaimsFor(u.world.live[Coordinator], t)
    ensures AdmissionKey(s.world.live[Coordinator], t.promotedAt).admissionPublic
         == AdmissionKey(u.world.live[Coordinator], t.promotedAt).admissionPublic
  {
    hide Managed, ArtifactsInv, AdmissionAt, AdmissionKey;
    InitialInv(s0);
    ReachKeepsInv(s0, es, s);
    ReachKeepsInv(s, fs, u);
    ChosenIsTop(s.world, t.promotedAt);
    ChosenIsTop(u.world, t.promotedAt);
    ReachKeepsChoice(s, fs, u, t.promotedAt);
  }
}
