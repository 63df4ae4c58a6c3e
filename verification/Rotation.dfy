/**
  Key rotation with a journal and three role files (internal/localcontrol/rotation.go).

  Each operation writes the journal first and then the role files one by one; a crash may stop it after
  any write and the next call may be any operation at all. Roles load their file when they start and
  acknowledge the keyring they run with. Nothing here assumes that roles are stopped during an operation:
  signer and verifier compatibility is proved for files and for running processes alike.
*/
module Rotation {
  import opened Base
  import opened Keyring

  /** A role's identity.json: `keys` is absent before the first stage, `current` repeats the current key. */
  datatype Identity = Identity(keys: Option<Set>, current: Key)

  datatype Ack = Ack(generation: int, digest: Set, observedAt: int)

  /** `written` is the last journal content that reached the disk, also after the journal file is lost. */
  datatype World = World(
    legacy: Key, journal: Option<Set>, written: Option<Set>,
    files: map<Role, Identity>, live: map<Role, Identity>, acks: map<Role, Ack>)

  datatype Operation = Stage | Activate | Retire | Revoke | Status

  /** `delivered`: nodes whose acknowledged delivery is the current one. `epochAt`: last accepted new-epoch
      audit of an Admin. `writes`: how many file writes complete before a crash; 4 or more is no crash. */
  datatype Call = Call(op: Operation, now: int, made: Key, delivered: set<Role>, epochAt: Option<int>, writes: nat)

  datatype Outcome = Refused | Reported(keys: Set) | Crashed | Done(keys: Set)

  const MARGIN: int := 30000

  const ACK_AGE: int := 120000

  const EPOCH_AGE: int := 300000

  function LegacySet(legacy: Key): Set {
    Set(0, Unset, legacy, None, None)
  }

  predicate AckCounts(acks: map<Role, Ack>, keys: Set, role: Role, c: Call) {
    && role in acks && acks[role].generation == keys.generation && acks[role].digest == Digest(keys)
    && c.now - ACK_AGE < acks[role].observedAt <= c.now && role in c.delivered
  }

  function CountAcks(w: World, keys: Set, c: Call): nat {
    if keys.generation <= 0 then 0
    else
      (if AckCounts(w.acks, keys, Gateway, c) then 1 else 0)
      + (if AckCounts(w.acks, keys, Coordinator, c) then 1 else 0)
  }

  predicate EmergencyReady(keys: Set, acks: nat, c: Call) {
    && keys.phase == Active && acks == 2 && c.epochAt.Some?
    && keys.current.since <= c.epochAt.value && c.now - EPOCH_AGE < c.epochAt.value <= c.now
  }

  /** The set the operation wants in the journal; None when it is refused. */
  function Decide(keys: Set, acks: nat, c: Call): (r: Option<Set>) {
    match c.op
    case Status => None
    case Stage =>
      if keys.phase == Active then None
      else if keys.phase == Staged then Some(keys)
      else Some(keys.(next := Some(c.made), generation := keys.generation + 1, phase := Staged))
    case Activate =>
      if keys.phase == Active then Some(keys)
      else if keys.phase != Staged || acks != 2 || keys.next.None? || c.now + MARGIN <= keys.current.since then None
      else Some(keys.(previous := Some(keys.current), current := keys.next.value.(since := c.now + MARGIN),
                      next := None, generation := keys.generation + 1, phase := Active))
    case _ =>
      if keys.phase == Stable then Some(keys)
      else if keys.phase != Active || acks != 2 then None
      else if c.op == Revoke && !EmergencyReady(keys, acks, c) then None
      else if c.op != Revoke && c.now < keys.current.since + OVERLAP then None
      else Some(keys.(previous := None, generation := keys.generation + 1, phase := Stable))
  }

  function Index(role: Role): nat {
    match role
    case Control => 0
    case Gateway => 1
    case Coordinator => 2
  }

  function RoleFile(keys: Set, role: Role): Identity {
    Identity(Some(ForRole(keys, For(role))), ForRole(keys, For(role)).current)
  }

  /** The role files after `n` of them were replaced. */
  function Distributed(files: map<Role, Identity>, keys: Set, n: int): map<Role, Identity> {
    map role | role in files :: if Index(role) < n then RoleFile(keys, role) else files[role]
  }

  lemma DistributeOne(files: map<Role, Identity>, keys: Set, i: nat)
    requires i < |ROLES| && files.Keys == {Control, Gateway, Coordinator}
    ensures Distributed(files, keys, i)[ROLES[i] := RoleFile(keys, ROLES[i])] == Distributed(files, keys, i + 1)
  {
    hide RoleFile, ForRole;
    var one, all := Distributed(files, keys, i)[ROLES[i] := RoleFile(keys, ROLES[i])], Distributed(files, keys, i + 1);
    assert Index(ROLES[i]) == i;
    assert one.Keys == all.Keys;
    assert forall role | role in all :: one[role] == all[role];
  }

  lemma DistributeEnds(files: map<Role, Identity>, keys: Set, n: nat)
    requires files.Keys == {Control, Gateway, Coordinator}
    ensures Distributed(files, keys, 0) == files
    ensures n >= 3 ==> Distributed(files, keys, n) == Distributed(files, keys, 3)
  {
    hide RoleFile, ForRole;
  }

  /** The set an operation starts from; None when the journal is missing or unusable for it. */
  function StartingSet(w: World, op: Operation): Option<Set> {
    if w.journal.Some? then (if Validate(w.journal.value, Owner) then w.journal else None)
    else if op == Stage && (forall role | role in w.files :: w.files[role].keys.None?) then Some(LegacySet(w.legacy))
    else None
  }

  function Rotate(w: World, c: Call): (r: (World, Outcome)) {
    if w.journal.None? && c.op == Status then (w, Reported(LegacySet(w.legacy)))
    else
      var start := StartingSet(w, c.op);
      if start.None? then (w, Refused)
      else if c.op == Status then (w, Reported(start.value))
      else
        var next := Decide(start.value, CountAcks(w, start.value, c), c);
        if next.None? || !Validate(next.value, Owner) then (w, Refused)
        else if c.writes == 0 then (w, Crashed)
        else
          (w.(journal := next, written := next, files := Distributed(w.files, next.value, c.writes - 1)),
           if c.writes >= 4 then Done(next.value) else Crashed)
  }

  // ---------------------------------------------------------------- runs

  datatype Event =
    | DoRotate(call: Call)
    | Start(role: Role)
    | Stop(role: Role)
    | Acknowledge(role: Role, at: int)
    | LoseJournal
    | RestoreJournal

  function Generation(x: Identity): int {
    if x.keys.Some? then x.keys.value.generation else 0
  }

  /** Control accepts a key ACK only when it runs the same generation and digest; rows never go back. */
  function RecordAck(w: World, role: Role, at: int): World {
    if role == Control || Control !in w.live || role !in w.live then w
    else
      var ours, theirs := w.live[Control].keys, w.live[role].keys;
      if ours.None? || theirs.None? || ours.value.generation != theirs.value.generation
         || Digest(ours.value) != Digest(theirs.value)
         || (role in w.acks && w.acks[role].generation > theirs.value.generation) then w
      else w.(acks := w.acks[role := Ack(theirs.value.generation, Digest(theirs.value), at)])
  }

  function Step(w: World, e: Event): World {
    match e
    case DoRotate(c) => Rotate(w, c).0
    case Start(role) => if role in w.files then w.(live := w.live[role := w.files[role]]) else w
    case Stop(role) => w.(live := w.live - {role})
    case Acknowledge(role, at) => RecordAck(w, role, at)
    case LoseJournal => w.(journal := None)
    case RestoreJournal => w.(journal := w.written)
  }

  function Run(w: World, es: seq<Event>): World {
    if es == [] then w else Step(Run(w, es[..|es| - 1]), es[|es| - 1])
  }

  predicate Fresh(w: World) {
    && KeyValid(w.legacy, Owner) && w.legacy.id == "v1" && w.legacy.since == 0
    && w.journal == None && w.written == None && w.live == map[] && w.acks == map[]
    && w.files == map[Control := Identity(None, Sanitize(w.legacy, For(Control))),
                      Gateway := Identity(None, Sanitize(w.legacy, For(Gateway))),
                      Coordinator := Identity(None, Sanitize(w.legacy, For(Coordinator)))]
  }

  // ---------------------------------------------------------------- what compatibility means

  /** Kid and verification key of what a Control process signs. */
  function SigningKid(x: Identity): string {
    if x.keys.Some? then ConfigKid(x.keys.value.current) else "config-v1"
  }

  function SigningPair(x: Identity): Option<nat> {
    if x.keys.Some? then x.keys.value.current.configPrivate else x.current.configPrivate
  }

  /** The trust a Gateway or Coordinator opens its gate with. */
  function TrustSet(x: Identity): map<string, nat> {
    if x.keys.Some? then ConfigTrust(x.keys.value) else map["config-v1" := x.current.configPublic]
  }

  predicate Accepts(verifier: Identity, signer: Identity) {
    && SigningKid(signer) in TrustSet(verifier)
    && SigningPair(signer) == Some(TrustSet(verifier)[SigningKid(signer)])
  }

  /** x is what `role` has on disk or runs with. */
  predicate Holds(w: World, role: Role, x: Identity) {
    (role in w.files && w.files[role] == x) || (role in w.live && w.live[role] == x)
  }

  /** Whatever Control holds signs what every data role holds accepts. */
  ghost predicate Compatible(w: World) {
    forall signer, verifier, role | role != Control && Holds(w, Control, signer) && Holds(w, role, verifier) ::
      Accepts(verifier, signer)
  }

  // ---------------------------------------------------------------- the inductive invariant

  function Top(w: World): Set {
    if w.written.Some? then w.written.value else LegacySet(w.legacy)
  }

  /** The part of a key that decides configuration trust. */
  function ConfigPart(k: Key): (string, nat) {
    (k.id, k.configPublic)
  }

  predicate WellHeld(x: Identity, role: Role, legacy: Key) {
    match x.keys
    case None => x.current == Sanitize(legacy, For(role))
    case Some(s) => Validate(s, For(role)) && x.current == s.current
  }

  /** How far x may lag behind the newest journal: it shares the current key, except that during an active
      phase it may still be the staged set in which the new key is already listed. */
  predicate Lags(x: Identity, top: Set) {
    && Generation(x) <= top.generation
    && (Generation(x) == top.generation && x.keys.Some? ==> Digest(x.keys.value) == Digest(top))
    && (Generation(x) == top.generation && x.keys.None? ==> top.phase == Unset)
    && (top.phase != Active ==> ConfigPart(x.current) == ConfigPart(top.current))
    && (top.phase == Active && Generation(x) < top.generation ==>
          x.keys.Some? && x.keys.value.next.Some? && top.previous.Some?
          && ConfigPart(x.current) == ConfigPart(top.previous.value)
          && ConfigPart(x.keys.value.next.value) == ConfigPart(top.current))
  }

  predicate AckBacked(w: World, role: Role) {
    && role in w.acks && role in w.files && Control in w.files
    && 0 < w.acks[role].generation <= Generation(w.files[role])
    && w.acks[role].generation <= Generation(w.files[Control])
    && (role in w.live ==> w.acks[role].generation <= Generation(w.live[role]))
    && (Control in w.live ==> w.acks[role].generation <= Generation(w.live[Control]))
  }

  ghost predicate Inv(w: World) {
    && KeyValid(w.legacy, Owner) && w.legacy.id == "v1"
    && w.files.Keys == {Control, Gateway, Coordinator}
    && (w.journal.Some? ==> w.journal == w.written)
    && (w.written.Some? ==> Validate(w.written.value, Owner))
    && (forall role | role in w.files :: WellHeld(w.files[role], role, w.legacy) && Lags(w.files[role], Top(w)))
    && (forall role | role in w.live ::
          WellHeld(w.live[role], role, w.legacy) && Lags(w.live[role], Top(w))
          && role in w.files && Generation(w.live[role]) <= Generation(w.files[role]))
    && (forall role | role in w.acks :: role != Control && AckBacked(w, role))
  }

  lemma TrustsListed(s: Set, role: Role, k: Key)
    requires Validate(s, For(role)) && k in Keys(s)
    ensures ConfigKid(k) in ConfigTrust(s) && ConfigTrust(s)[ConfigKid(k)] == k.configPublic
  {
    TrustExact(Keys(s));
  }

  lemma KidOf(a: Key, b: Key)
    requires ConfigPart(a) == ConfigPart(b)
    ensures ConfigKid(a) == ConfigKid(b)
  {
  }

  /** The key a verifier must list to accept a signer; every key of x.keys, or the legacy key. */
  lemma AcceptsListed(verifier: Identity, role: Role, signer: Identity, legacy: Key, k: Key)
    requires WellHeld(verifier, role, legacy) && WellHeld(signer, Control, legacy)
    requires KeyValid(legacy, Owner) && legacy.id == "v1"
    requires if verifier.keys.Some? then k in Keys(verifier.keys.value) else k == verifier.current
    requires ConfigPart(k) == ConfigPart(signer.current)
    ensures Accepts(verifier, signer)
  {
    KidOf(k, signer.current);
    assert ConfigKid(legacy) == "config-v1";
    if verifier.keys.Some? {
      TrustsListed(verifier.keys.value, role, k);
    }
    if signer.keys.Some? {
      assert signer.keys.value.current == Keys(signer.keys.value)[0];
    }
  }

  lemma InvIsCompatible(w: World)
    requires Inv(w)
    ensures Compatible(w)
  {
    hide Inv, Accepts, WellHeld, Lags, Holds, Top;
    forall signer, verifier, role | role != Control && Holds(w, Control, signer) && Holds(w, role, verifier)
      ensures Accepts(verifier, signer)
    {
      HeldFacts(w, Control, signer);
      HeldFacts(w, role, verifier);
      HeldAccepts(verifier, role, signer, Top(w), w.legacy);
    }
  }

  lemma HeldFacts(w: World, role: Role, x: Identity)
    requires Inv(w) && Holds(w, role, x)
    ensures WellHeld(x, role, w.legacy) && Lags(x, Top(w))
    ensures KeyValid(w.legacy, Owner) && w.legacy.id == "v1" && (Top(w).phase == Active ==> Top(w).previous.Some?)
  {
    hide WellHeld, Lags, AckBacked;
  }

  lemma HeldAccepts(verifier: Identity, role: Role, signer: Identity, top: Set, legacy: Key)
    requires WellHeld(verifier, role, legacy) && WellHeld(signer, Control, legacy) && Lags(verifier, top)
        && Lags(signer, top)
    requires KeyValid(legacy, Owner) && legacy.id == "v1" && (top.phase == Active ==> top.previous.Some?)
    ensures Accepts(verifier, signer)
  {
    hide Accepts, Validate, KeyValid;
    if top.phase != Active {
      AcceptsListed(verifier, role, signer, legacy, verifier.current);
    } else {
      PickListed(verifier, role, signer, top, legacy);
    }
  }

  /** In an active phase both the old and the new key are listed by every verifier. */
  lemma PickListed(verifier: Identity, role: Role, signer: Identity, top: Set, legacy: Key)
    requires WellHeld(verifier, role, legacy) && WellHeld(signer, Control, legacy)
    requires KeyValid(legacy, Owner) && legacy.id == "v1"
    requires top.phase == Active && top.previous.Some? && Lags(verifier, top) && Lags(signer, top)
    ensures Accepts(verifier, signer)
  {
    var s := verifier.keys.value;
    var outgoing, incoming := top.previous.value, top.current;
    assert ConfigPart(signer.current) == ConfigPart(outgoing) || ConfigPart(signer.current) == ConfigPart(incoming);
    if Generation(verifier) == top.generation {
      assert Digest(s).previous == Digest(top).previous && Digest(s).current == Digest(top).current;
      var k := if ConfigPart(signer.current) == ConfigPart(incoming) then s.current else s.previous.value;
      AcceptsListed(verifier, role, signer, legacy, k);
    } else {
      var k := if ConfigPart(signer.current) == ConfigPart(outgoing) then s.current else s.next.value;
      AcceptsListed(verifier, role, signer, legacy, k);
    }
  }

  /** Two counted ACKs prove that every file and every running process holds exactly the journaled set. */
  lemma AcksPinEverything(w: World, c: Call)
    requires Inv(w) && w.written.Some? && CountAcks(w, w.written.value, c) == 2
    ensures forall role, x | Holds(w, role, x) :: x.keys.Some? && Digest(x.keys.value) == Digest(w.written.value)
  {
    hide Validate, Keyring.KeyValid, Keyring.Keys, Digest;
    var top := w.written.value;
    forall role, x | Holds(w, role, x)
      ensures x.keys.Some? && Digest(x.keys.value) == Digest(top)
    {
      assert Gateway in w.acks && Coordinator in w.acks && AckBacked(w, Gateway) && AckBacked(w, Coordinator);
      assert role in w.files;
      assert Generation(x) == top.generation;
    }
  }

  lemma LagsAfterStage(x: Identity, keys: Set, next: Set)
    requires Lags(x, keys) && keys.phase != Active && next.generation == keys.generation + 1
    requires next.phase == Staged && next.current == keys.current
    ensures Lags(x, next)
  {
  }

  lemma LagsAfterActivate(x: Identity, keys: Set, next: Set)
    requires x.keys.Some? && x.current == x.keys.value.current && Digest(x.keys.value) == Digest(keys)
        && keys.next.Some?
    requires next.generation == keys.generation + 1 && next.phase == Active && next.previous == Some(keys.current)
    requires ConfigPart(next.current) == ConfigPart(keys.next.value)
    ensures Lags(x, next)
  {
    var s := x.keys.value;
    assert s.generation == Digest(s).generation;
    assert Digest(s).current == Digest(keys).current && Digest(s).next == Digest(keys).next;
  }

  lemma LagsAfterRetire(x: Identity, keys: Set, next: Set)
    requires x.keys.Some? && x.current == x.keys.value.current && Digest(x.keys.value) == Digest(keys)
    requires next.generation == keys.generation + 1 && next.phase == Stable && next.current == keys.current
    ensures Lags(x, next)
  {
    var s := x.keys.value;
    assert s.generation == Digest(s).generation;
    assert Digest(s).current == Digest(keys).current;
  }

  lemma NewHoldingLags(next: Set, role: Role, legacy: Key)
    requires Validate(next, Owner)
    ensures WellHeld(RoleFile(next, role), role, legacy) && Lags(RoleFile(next, role), next)
    ensures Generation(RoleFile(next, role)) == next.generation
  {
    ScopedSetsAgree(next, role);
  }

  lemma LagBound(x: Identity, top: Set)
    requires Lags(x, top)
    ensures Generation(x) <= top.generation
  {
  }

  /** What a role held before an accepted operation still lags acceptably behind the new journal. */
  lemma OldHoldingLags(w: World, c: Call, keys: Set, next: Set, role: Role, x: Identity)
    requires Inv(w) && Holds(w, role, x)
    requires StartingSet(w, c.op) == Some(keys) && Decide(keys, CountAcks(w, keys, c), c) == Some(next)
    ensures WellHeld(x, role, w.legacy) && Lags(x, next)
  {
    hide Validate, Keyring.KeyValid, Keyring.Keys, Digest;
    assert role in w.files && WellHeld(x, role, w.legacy) && Lags(x, Top(w));
    if w.journal.None? {
      LegacyOnly(w, role, x);
      LagsAfterStage(x, keys, next);
    } else {
      assert Top(w) == keys;
      if next != keys {
        if c.op == Stage {
          LagsAfterStage(x, keys, next);
        } else {
          AcksPinEverything(w, c);
          if c.op == Activate {
            LagsAfterActivate(x, keys, next);
          } else {
            LagsAfterRetire(x, keys, next);
          }
        }
      }
    }
  }

  /** With no journal and no scoped file, nothing but the legacy key is in use. */
  lemma LegacyOnly(w: World, role: Role, x: Identity)
    requires Inv(w) && Holds(w, role, x) && forall r | r in w.files :: w.files[r].keys.None?
    ensures x.keys.None? && Lags(x, LegacySet(w.legacy))
  {
    assert role in w.files && Generation(w.files[role]) == 0 && Generation(x) <= 0;
    assert WellHeld(x, role, w.legacy);
    assert x.keys.Some? ==> Generation(x) >= 1;
  }

  lemma FileAfterWrite(w: World, next: Set, n: nat, role: Role)
    requires Inv(w) && Validate(next, Owner) && role in w.files && Lags(w.files[role], next)
    ensures
      var x := Distributed(w.files, next, n)[role];
      WellHeld(x, role, w.legacy) && Lags(x, next) && Generation(w.files[role]) <= Generation(x)
  {
    hide Validate, Keyring.KeyValid, Keyring.Keys, Digest, ForRole, Lags, WellHeld;
    NewHoldingLags(next, role, w.legacy);
    LagBound(w.files[role], next);
  }

  /** Writing the journal and any number of role files keeps the invariant when every holder lags acceptably. */
  lemma WriteKeepsInv(w: World, next: Set, n: nat)
    requires Inv(w) && Validate(next, Owner)
    requires forall role | role in w.files :: Lags(w.files[role], next)
    requires forall role | role in w.live :: Lags(w.live[role], next)
    ensures Inv(w.(journal := Some(next), written := Some(next), files := Distributed(w.files, next, n)))
  {
    hide Validate, Keyring.KeyValid, Keyring.Keys, Digest, ForRole, Lags, WellHeld, RoleFile;
    var w' := w.(journal := Some(next), written := Some(next), files := Distributed(w.files, next, n));
    assert w'.files.Keys == w.files.Keys;
    forall role | role in w'.files
      ensures WellHeld(w'.files[role], role, w.legacy) && Lags(w'.files[role], next)
      ensures Generation(w.files[role]) <= Generation(w'.files[role])
    {
      FileAfterWrite(w, next, n, role);
    }
    forall role | role in w'.acks
      ensures role != Control && AckBacked(w', role)
    {
      assert AckBacked(w, role);
    }
  }

  lemma RotateKeepsInv(w: World, c: Call)
    requires Inv(w)
    ensures Inv(Rotate(w, c).0)
  {
    hide Validate, Keyring.KeyValid, Keyring.Keys, Digest, Lags, WellHeld, Inv, Distributed;
    var start := StartingSet(w, c.op);
    if start.Some? && c.op != Status {
      var next := Decide(start.value, CountAcks(w, start.value, c), c);
      if next.Some? && Validate(next.value, Owner) && c.writes > 0 {
        forall role | role in w.files
          ensures Lags(w.files[role], next.value)
        {
          OldHoldingLags(w, c, start.value, next.value, role, w.files[role]);
        }
        forall role | role in w.live
          ensures Lags(w.live[role], next.value)
        {
          OldHoldingLags(w, c, start.value, next.value, role, w.live[role]);
        }
        WriteKeepsInv(w, next.value, c.writes - 1);
      }
    }
  }

  lemma AckKeepsInv(w: World, role: Role, at: int)
    requires Inv(w)
    ensures Inv(RecordAck(w, role, at))
  {
    hide Keyring.KeyValid, Keyring.Keys, Digest, Lags;
    var w' := RecordAck(w, role, at);
    forall r | r in w'.acks
      ensures r != Control && AckBacked(w', r)
    {
      if r in w.acks {
        assert AckBacked(w, r);
      }
    }
  }

  lemma StepKeepsInv(w: World, e: Event)
    requires Inv(w)
    ensures Inv(Step(w, e))
  {
    hide Validate, Keyring.KeyValid, Keyring.Keys, Digest, Lags, WellHeld, Rotate, RecordAck;
    match e
    case DoRotate(c) => RotateKeepsInv(w, c);
    case Acknowledge(role, at) => AckKeepsInv(w, role, at);
    case _ =>
      var w' := Step(w, e);
      forall r | r in w'.acks
        ensures AckBacked(w', r)
      {
        assert AckBacked(w, r);
      }
  }

  lemma {:induction false} RunKeepsInv(w: World, es: seq<Event>)
    requires Inv(w)
    ensures Inv(Run(w, es))
  {
    if es != [] {
      RunKeepsInv(w, es[..|es| - 1]);
      StepKeepsInv(Run(w, es[..|es| - 1]), es[|es| - 1]);
    }
  }

  /** Rotation crash safety: in every run of stage, activate, retire and revoke with crashes between any two
      writes, retries, restarts, lost and restored journals, the configuration key Control signs with is
      trusted by Gateway and Coordinator, on disk and in memory, even across different generations. */
  lemma RotationCrashSafety(w: World, es: seq<Event>)
    requires Fresh(w)
    ensures Compatible(Run(w, es))
  {
    RunKeepsInv(w, es);
    InvIsCompatible(Run(w, es));
  }

  // ---------------------------------------------------------------- retries and the life of a key

  /** The phase an operation leads to; repeating the operation in that phase is a retry. */
  function PhaseAfter(op: Operation): Phase {
    match op
    case Stage => Staged
    case Activate => Active
    case Status => Unset
    case _ => Stable
  }

  ghost predicate SettledOn(w: World, keys: Set) {
    && w.journal == Some(keys) && w.written == Some(keys) && w.files.Keys == {Control, Gateway, Coordinator}
    && forall role | role in w.files :: w.files[role] == RoleFile(keys, role)
  }

  /** A retry journals nothing new: it finishes writing the set that is already journaled. */
  lemma RetryRepairs(w: World, c: Call)
    requires Inv(w) && w.journal.Some? && c.op != Status && w.journal.value.phase == PhaseAfter(c.op) && c.writes >= 4
    ensures Rotate(w, c).1 == Done(w.journal.value) && SettledOn(Rotate(w, c).0, w.journal.value)
    ensures Rotate(w, c).0.live == w.live && Rotate(w, c).0.acks == w.acks
  {
    hide Validate, Keyring.KeyValid, Keyring.Keys, Digest, Lags, WellHeld, AckBacked, RoleFile;
  }

  /** Neither an operation nor the loss of the journal. */
  predicate Passive(es: seq<Event>) {
    forall i | 0 <= i < |es| :: !es[i].DoRotate? && !es[i].LoseJournal?
  }

  lemma {:induction false} PassiveKeepsJournal(w: World, es: seq<Event>)
    requires Passive(es) && w.journal.Some? && w.journal == w.written
    ensures Run(w, es).journal == w.journal && Run(w, es).written == w.written
  {
    hide RecordAck;
    if es != [] {
      PassiveKeepsJournal(w, es[..|es| - 1]);
      RecordAckKeepsJournal(Run(w, es[..|es| - 1]), es[|es| - 1]);
    }
  }

  lemma RecordAckKeepsJournal(w: World, e: Event)
    requires !e.DoRotate? && !e.LoseJournal? && w.journal == w.written
    ensures Step(w, e).journal == w.journal && Step(w, e).written == w.written
  {
  }

  /** Crash repair: in every run, whatever restarts and acknowledgements follow a crash after the journal write, one
      retry of the same operation settles the deployment on exactly the set the crashed call journaled. */
  lemma OneRetrySettles(w0: World, es: seq<Event>, c: Call, fs: seq<Event>, retry: Call)
    requires Fresh(w0) && Passive(fs) && retry.op == c.op && retry.writes >= 4 && c.writes > 0
    requires Rotate(Run(w0, es), c).1 == Crashed
    ensures
      var w := Rotate(Run(w0, es), c).0;
      && w.journal.Some? && Rotate(Run(w, fs), retry).1 == Done(w.journal.value)
      && SettledOn(Rotate(Run(w, fs), retry).0, w.journal.value)
  {
    hide Inv, Rotate, Fresh, Passive, SettledOn;
    var w := Rotate(Run(w0, es), c).0;
    FreshInv(w0);
    RunKeepsInv(w0, es);
    RotateKeepsInv(Run(w0, es), c);
    CrashedPhase(Run(w0, es), c);
    RunKeepsInv(w, fs);
    PassiveKeepsJournal(w, fs);
    RetryRepairs(Run(w, fs), retry);
  }

  lemma FreshInv(w: World)
    requires Fresh(w)
    ensures Inv(w)
  {
  }

  lemma CrashedPhase(w: World, c: Call)
    requires Rotate(w, c).1 == Crashed && c.writes > 0
    ensures
      var w' := Rotate(w, c).0;
      w'.journal.Some? && w'.journal == w'.written && c.op != Status && w'.journal.value.phase == PhaseAfter(c.op)
  {
    hide Validate, Digest, Distributed;
  }

  /** The key drawn by a stage, as a set can take it up. */
  predicate Stageable(keys: Set, made: Key) {
    KeyValid(made, Owner) && made.id != keys.current.id
  }

  /**
    Exactly when a journaled deployment accepts an operation. A first staging needs a well-formed key; activation needs
    both acknowledgements and a clock past the old key's boundary; dropping the old key needs both acknowledgements and
    either the overlap or a fresh emergency epoch; every repetition is accepted; generations must not run out.
  */
  lemma AcceptedExactlyWhen(w: World, c: Call)
    requires Inv(w) && w.journal.Some? && c.op != Status
    ensures
      var keys, acks := w.journal.value, CountAcks(w, w.journal.value, c);
      Rotate(w, c).1 != Refused <==>
        || keys.phase == PhaseAfter(c.op)
        || (keys.generation + 1 < COUNTER_CEILING &&
            match c.op
            case Stage => keys.phase == Stable && Stageable(keys, c.made)
            case Activate =>
              && keys.phase == Staged && acks == 2 && keys.current.since < c.now + MARGIN < COUNTER_CEILING
            case _ =>
              && keys.phase == Active && acks == 2
              && if c.op == Revoke then EmergencyReady(keys, acks, c) else keys.current.since + OVERLAP <= c.now)
  {
    hide CountAcks, EmergencyReady, Lags, WellHeld, AckBacked, Distributed, KeyValid;
    var keys := w.journal.value;
    var next := Decide(keys, CountAcks(w, keys, c), c);
    if next.Some? && next.value != keys {
      NextIsValid(keys, next.value, c);
    }
  }

  /** Without a journal only a first staging on unscoped files is accepted. */
  lemma FirstStageExactlyWhen(w: World, c: Call)
    requires Inv(w) && w.journal.None? && c.op != Status
    ensures Rotate(w, c).1 != Refused <==>
              && c.op == Stage && (forall role | role in w.files :: w.files[role].keys.None?)
              && Stageable(LegacySet(w.legacy), c.made)
    ensures Rotate(w, c).1.Done? ==> Rotate(w, c).1.keys == Set(1, Staged, w.legacy, None, Some(c.made))
  {
    hide Lags, WellHeld, AckBacked, Distributed;
    var next := Set(1, Staged, w.legacy, None, Some(c.made));
    assert Keys(next) == [w.legacy, c.made] && Keys(next)[1] == c.made && Keys(next)[0] == w.legacy;
    hide KeyValid;
  }

  /** The set an accepted operation moves to is valid exactly when its new parts are. */
  lemma NextIsValid(keys: Set, next: Set, c: Call)
    requires Validate(keys, Owner) && c.op != Status && next != keys
    requires exists acks: nat :: Decide(keys, acks, c) == Some(next)
    ensures Validate(next, Owner) <==>
      && keys.generation + 1 < COUNTER_CEILING && (c.op == Stage ==> Stageable(keys, c.made))
      && (c.op == Activate ==> c.now + MARGIN < COUNTER_CEILING)
  {
    var ks, ns := Keys(keys), Keys(next);
    assert ks[0] == keys.current && ns[0] == next.current;
    assert KeyValid(keys.current, Owner);
    match c.op
    case Stage => assert ns == [keys.current, c.made] && ns[1] == c.made;
    case Activate =>
      assert ks == [keys.current, keys.next.value] && KeyValid(keys.next.value, Owner);
      assert ns == [next.current, keys.current] && ks[0].id != ks[1].id && ns[1] == keys.current;
    case Status =>
    case _ => assert ns == [keys.current];
  }

  /**
    The life of a key: staging lists the drawn key beside the current one, activation makes it current from the
    margin on and keeps the old one, and retirement or revocation keeps only it.
  */
  lemma WhatOperationsDo(w: World, c: Call)
    requires Inv(w) && w.journal.Some? && Rotate(w, c).1.Done? && w.journal.value.phase != PhaseAfter(c.op)
    ensures
      var keys, next := w.journal.value, Rotate(w, c).1.keys;
      && SettledOn(Rotate(w, c).0, next) && next.generation == keys.generation + 1 && next.phase == PhaseAfter(c.op)
      && (c.op == Stage ==> next.current == keys.current && next.next == Some(c.made) && next.previous == None)
      && (c.op == Activate ==>
            && keys.next.Some? && next.current == keys.next.value.(since := c.now + MARGIN)
            && next.previous == Some(keys.current) && next.next == None)
      && (c.op == Retire || c.op == Revoke ==>
          next.current == keys.current && next.previous == None && next.next == None)
  {
    hide CountAcks, EmergencyReady, Lags, WellHeld, AckBacked, RoleFile, DistinctIds, KeyValid;
  }

  // ---------------------------------------------------------------- imperative form

  class Deployment {
    const legacy: Key
    var journal: Option<Set>
    var identities: map<Role, Identity>
    var keyAcks: map<Role, Ack>
    ghost var lastWritten: Option<Set>
    ghost var running: map<Role, Identity>

    ghost function Abs(): World
      reads this
    {
      World(legacy, journal, lastWritten, identities, running, keyAcks)
    }

    constructor (l: Key)
      requires KeyValid(l, Owner) && l.id == "v1" && l.since == 0
      ensures Fresh(Abs())
    {
      legacy := l;
      journal, keyAcks := None, map[];
      identities := map[Control := Identity(None, Sanitize(l, For(Control))),
                        Gateway := Identity(None, Sanitize(l, For(Gateway))),
                        Coordinator := Identity(None, Sanitize(l, For(Coordinator)))];
      lastWritten, running := None, map[];
    }

    method CountKeyAcks(keys: Set, c: Call) returns (count: nat)
      ensures count == CountAcks(Abs(), keys, c)
    {
      count := 0;
      if keys.generation > 0 {
        if AckCounts(keyAcks, keys, Gateway, c) {
          count := count + 1;
        }
        if AckCounts(keyAcks, keys, Coordinator, c) {
          count := count + 1;
        }
      }
    }

    /** The phase switch: edits the loaded set for the operation, or refuses it. */
    method Edit(loaded: Set, acks: nat, c: Call) returns (out: Option<Set>)
      requires c.op != Status
      ensures out == Decide(loaded, acks, c)
    {
      var keys := loaded;
      match c.op {
        case Stage =>
          if keys.phase == Active {
            return None;
          }
          if keys.phase != Staged {
            keys := keys.(next := Some(c.made), generation := keys.generation + 1, phase := Staged);
          }
        case Activate =>
          if keys.phase != Active {
            if keys.phase != Staged || acks != 2 || keys.next.None? {
              return None;
            }
            var outgoing := keys.current;
            keys := keys.(previous := Some(outgoing), current := keys.next.value, next := None);
            keys := keys.(current := keys.current.(since := c.now + MARGIN));
            if keys.current.since <= outgoing.since {
              return None;
            }
            keys := keys.(generation := keys.generation + 1, phase := Active);
          }
        case _ =>
          if keys.phase != Stable {
            if keys.phase != Active || acks != 2 {
              return None;
            }
            if c.op == Revoke && !EmergencyReady(keys, acks, c) {
              return None;
            }
            if c.op != Revoke && c.now < keys.current.since + OVERLAP {
              return None;
            }
            keys := keys.(previous := None, generation := keys.generation + 1, phase := Stable);
          }
      }
      return Some(keys);
    }

    /** Replaces the role files in order until all are written or the crash point is reached. */
    method Distribute(keys: Set, writes: nat)
      requires identities.Keys == {Control, Gateway, Coordinator}
      modifies this`identities
      ensures identities == Distributed(old(identities), keys, writes)
    {
      hide Distributed, Keyring.Keys, Sanitize;
      DistributeEnds(identities, keys, writes);
      for i := 0 to |ROLES|
        invariant i <= writes && identities == Distributed(old(identities), keys, i)
      {
        if i == writes {
          return;
        }
        DistributeOne(old(identities), keys, i);
        var scoped := ForRole(keys, For(ROLES[i]));
        identities := identities[ROLES[i] := Identity(Some(scoped), scoped.current)];
      }
    }

    method RotateKeys(c: Call) returns (out: Outcome)
      requires identities.Keys == {Control, Gateway, Coordinator}
      modifies this
      ensures (Abs(), out) == Rotate(old(Abs()), c)
    {
      hide Validate, Keyring.Keys, Digest, ForRole, Decide, Distributed;
      var keys: Set;
      if journal.None? {
        if c.op == Status {
          return Reported(LegacySet(legacy));
        }
        if c.op != Stage || exists role | role in identities :: identities[role].keys.Some? {
          return Refused;
        }
        keys := LegacySet(legacy);
      } else {
        if !Validate(journal.value, Owner) {
          return Refused;
        }
        keys := journal.value;
      }
      var acks := CountKeyAcks(keys, c);
      if c.op == Status {
        return Reported(keys);
      }
      var next := Edit(keys, acks, c);
      if next.None? || !Validate(next.value, Owner) {
        return Refused;
      }
      if c.writes == 0 {
        return Crashed;
      }
      journal, lastWritten := next, next;
      Distribute(next.value, c.writes - 1);
      return if c.writes >= 4 then Done(next.value) else Crashed;
    }
  }
}
