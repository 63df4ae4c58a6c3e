/**
  Rotation, publication and the gates together: dropping an old key must not leave a node unable to reopen.

  Open closes a gate whose disk holds an envelope of a key it no longer trusts. Retirement and revocation are gated
  on key acknowledgements of nodes that hold the current delivery; this module says when that gate is enough.
  Roles follow the managed procedure; every transaction of Control is signed with the key of the running process.
*/
module Reopening {
  import opened Base
  import opened Keyring
  import opened ControlRuntime
  import CT = ConfigTrust
  import H = PublicationHistory
  import Handshake
  import P = Publication
  import R = Rotation
  import T = RotationTiming

  /** `epochAt` is the database time, in milliseconds, of the last accepted installation-wide new epoch. */
  datatype System = System(
    world: R.World, now: int, control: P.State, nodes: map<Role, CT.World<Delivery>>, epochAt: Option<int>,
    installation: string)

  datatype Event =
    | Elapse(until: int)
    | Rotate(call: R.Call)
    | StartRole(role: Role)
    | StopRole(role: Role)
    | MoveJournal(lost: bool)
    | Commit(transaction: P.Transaction)
    | Deliver(role: Role, raw: P.Envelope, n: int, fault: CT.SaveFault)
    | Sample(role: Role, n: int)
    | Report(role: Role, metrics: seq<P.Metric>)

  function NodeOf(role: Role): P.NodeId {
    if role == Gateway then P.GatewayNode else P.CoordinatorNode
  }

  function TrustFor(installation: string, x: R.Identity): CT.Trust<Delivery> {
    CT.Trust(R.TrustSet(x), installation, 1, (d: Delivery) => DeliveryValid(d))
  }

  function SignerOf(installation: string, x: R.Identity): P.Signer {
    P.Signer(R.SigningKid(x), if R.SigningPair(x).Some? then R.SigningPair(x).value else 0, installation)
  }

  /** Control and the node run with the same keyring, or both with none. */
  predicate KeysMatch(a: R.Identity, b: R.Identity) {
    if a.keys.Some? && b.keys.Some? then
      a.keys.value.generation == b.keys.value.generation && Digest(a.keys.value) == Digest(b.keys.value)
    else a.keys.None? && b.keys.None?
  }

  /** The nodes counted by a rotation: their row is at the published generation. */
  function Delivered(y: System): set<Role> {
    set role: Role | role in {Gateway, Coordinator} && NodeOf(role) in y.control.nodes
                     && y.control.nodes[NodeOf(role)].generation == y.control.row.generation
  }

  predicate NewEpoch(t: P.Transaction) {
    t.TOperate? && t.command.action == P.NewEpoch
  }

  predicate CanReport(y: System, role: Role) {
    role in y.world.live && role in y.nodes && Control in y.world.live && !y.nodes[role].gate.failed
  }

  predicate Allowed(y: System, e: Event) {
    match e
    case Elapse(until) => y.now <= until
    case Rotate(c) =>
      && c.now == T.Millis(y.now) && (c.op == R.Status || y.world.live == map[])
      && c.delivered == Delivered(y) && c.epochAt == y.epochAt
    case StartRole(role) => T.Settled(y.world)
    case Commit(t) => Control in y.world.live && !t.TAcknowledge? && Aligned(y.control.row.document)
    case Deliver(role, raw, n, fault) =>
      && role in y.world.live && role in y.nodes
      && (CT.Verifies(y.nodes[role].gate.trust, raw) ==> raw in y.control.log)
    case Sample(role, n) => role in y.world.live && role in y.nodes
    case Report(role, metrics) => CanReport(y, role)
    case _ => true
  }

  /** A node acknowledges what its gate holds; key and delivery rows are written in one transaction. */
  function Reported(y: System, role: Role, metrics: seq<P.Metric>): System
    requires role in y.world.live && role in y.nodes && Control in y.world.live
  {
    var held := y.nodes[role].gate.accepted;
    if held.None? then y
    else
      var (s, reply) := P.Acknowledge(y.control, NodeOf(role), CT.Gen(held), held.value, metrics,
                                      KeysMatch(y.world.live[Control], y.world.live[role]), y.now);
      if reply != P.Accepted then y else y.(control := s, world := R.RecordAck(y.world, role, T.Millis(y.now)))
  }

  function Committed(y: System, t: P.Transaction): System
    requires Control in y.world.live && Aligned(y.control.row.document)
  {
    var s := P.Step(y.control, t, y.now, SignerOf(y.installation, y.world.live[Control]));
    y.(control := s,
       epochAt := if NewEpoch(t) && s.row.generation != y.control.row.generation then Some(T.Millis(y.now))
           else y.epochAt)
  }

  /** A role loads its file; a data role opens its gate on its disk with the keys it loaded. */
  function Started(y: System, role: Role): System {
    if role !in y.world.files then y
    else
      y.(world := y.world.(live := y.world.live[role := y.world.files[role]]),
         nodes := if role !in y.nodes then y.nodes
                  else y.nodes[role := CT.Open(TrustFor(y.installation, y.world.files[role]), y.nodes[role].disk)])
  }

  function Step(y: System, e: Event): System
    requires Allowed(y, e)
  {
    match e
    case Elapse(until) => y.(now := until)
    case Rotate(c) => y.(world := R.Rotate(y.world, c).0)
    case StartRole(role) => Started(y, role)
    case StopRole(role) => y.(world := R.Step(y.world, R.Stop(role)))
    case MoveJournal(lost) => y.(world := R.Step(y.world, if lost then R.LoseJournal else R.RestoreJournal))
    case Commit(t) => Committed(y, t)
    case Deliver(role, raw, n, fault) => y.(nodes := y.nodes[role := CT.Apply(y.nodes[role], raw, n, fault).0])
    case Sample(role, n) => y.(nodes := y.nodes[role := CT.Current(y.nodes[role], n)])
    case Report(role, metrics) => Reported(y, role, metrics)
  }

  ghost predicate Reach(y: System, es: seq<Event>, z: System)
    decreases |es|
  {
    if es == [] then z == y else Allowed(y, es[0]) && Reach(Step(y, es[0]), es[1..], z)
  }

  ghost predicate Initial(y: System) {
    && R.Fresh(y.world) && P.Initial(y.control) && y.epochAt == None && y.nodes.Keys == {Gateway, Coordinator}
    && (forall role | role in y.nodes :: y.nodes[role] == CT.Open(y.nodes[role].gate.trust, CT.Empty))
  }

  // ---------------------------------------------------------------- invariant

  predicate SignedBy(e: P.Envelope, k: Key) {
    e.Signed? && e.snapshot.kid == ConfigKid(k) && e.signer == k.configPublic
  }

  /** In an active phase the published envelope is the new key's, or was issued the margin before the boundary. */
  predicate RowSigned(top: Set, row: P.Row) {
    top.phase == Active && row.envelope.Some? ==>
      SignedBy(row.envelope.value, top.current) || T.Millis(row.issuedAt) + R.MARGIN <= top.current.since
  }

  predicate RowTimed(y: System) {
    var row := y.control.row;
    row.envelope.Some? ==>
      && row.issuedAt <= y.now && row.expiresAt == row.issuedAt + P.DAY_MICROS
      && row.envelope.value.Signed? && row.envelope.value.snapshot.installation == y.installation
      && (y.epochAt.Some? ==> y.epochAt.value <= T.Millis(row.issuedAt))
  }

  /** A node counted as delivered has exactly the published envelope on disk, acknowledged while it was valid. */
  predicate NodeSound(y: System, role: Role)
    requires role in y.nodes
  {
    && CT.Coherent(y.nodes[role]) && (y.nodes[role].disk.Holds? ==> y.nodes[role].disk.raw in y.control.log)
    && (role in y.world.acks ==> NodeOf(role) in y.control.nodes
                                 && y.world.acks[role].observedAt <= T.Millis(y.control.nodes[NodeOf(role)].observedAt))
    && (NodeOf(role) in y.control.nodes ==>
          var row := y.control.nodes[NodeOf(role)];
          && row.observedAt <= y.now && row.generation <= y.control.row.generation
          && (row.generation == y.control.row.generation ==>
                && y.control.row.envelope.Some? && y.nodes[role].disk == CT.Holds(y.control.row.envelope.value)
                && row.observedAt < y.control.row.expiresAt))
  }

  ghost predicate Inv(y: System) {
    && T.Managed(y.world) && H.Inv(y.control) && Handshake.WellSigned(y.control.log)
    && y.nodes.Keys == {Gateway, Coordinator} && RowSigned(R.Top(y.world), y.control.row) && RowTimed(y)
    && (y.epochAt.Some? ==> y.epochAt.value <= T.Millis(y.now))
    && (forall role | role in y.nodes :: NodeSound(y, role))
  }

  /** What a transaction of Control does to the delivery row: nothing, a signature now, or setup's withdrawal. */
  predicate RowMoves(s: P.State, t: P.State, setup: bool, now: int, signer: P.Signer) {
    && t.nodes == s.nodes
    && (|| t.row == s.row
        || (&& t.row.generation == s.row.generation + 1 && t.row.envelope.Some? && t.row.envelope.value.Signed?
            && t.row.issuedAt == now && t.row.expiresAt == now + P.DAY_MICROS
            && t.row.envelope.value.snapshot.kid == signer.kid && t.row.envelope.value.signer == signer.key
            && t.row.envelope.value.snapshot.installation == signer.installation)
        || (setup && t.row.generation == s.row.generation + 1 && t.row.envelope.None?))
  }

  lemma RowShape(s: P.State, t: P.Transaction, now: int, signer: P.Signer)
    requires Aligned(s.row.document) && !t.TAcknowledge?
    ensures RowMoves(s, P.Step(s, t, now, signer), t.TSetup?, now, signer)
  {
    hide P.Operate, P.ChangeEvent, DeliveryValid, P.NeedsDrain, P.RemovalConflict, P.TickedDelivery, P.TickedEvents,
      P.PublishedDelivery, CT.Structural, Aligned;
    if t.TOperate? {
      OperateMovesRow(s, t.roomId, t.ifMatch, t.command, now, signer);
    } else if t.TChangeEvent? {
      ChangeEventMovesRow(s, t.room, t.eventId, t.verb, t.ifMatch, t.newId, now, signer);
    }
  }

  lemma OperateMovesRow(s: P.State, roomId: string, ifMatch: int, c: P.Command, now: int, signer: P.Signer)
    requires Aligned(s.row.document)
    ensures RowMoves(s, P.Operate(s, roomId, ifMatch, c, now, signer).0, false, now, signer)
  {
    hide DeliveryValid, P.EpochDelivery, P.Operated, CT.Structural, P.PauseEvents;
  }

  lemma ChangeEventMovesRow(
      s: P.State, room: string, eventId: Option<nat>, verb: P.Verb, ifMatch: int, newId: nat, now: int,
          signer: P.Signer)
    requires Aligned(s.row.document)
    ensures RowMoves(s, P.ChangeEvent(s, room, eventId, verb, ifMatch, newId, now, signer).0, false, now, signer)
  {
    hide DeliveryValid, P.NextEvent, P.Upsert, P.MarkFor, CT.Structural;
  }

  /** A running Control signs with the journaled set's current key. */
  lemma SignerIsCurrent(y: System)
    requires T.Managed(y.world) && Control in y.world.live
    ensures
      var signer, k := SignerOf(y.installation, y.world.live[Control]), R.Top(y.world).current;
      signer.kid == ConfigKid(k) && signer.key == k.configPublic && signer.installation == y.installation
  {
    T.RunningIsTop(y.world, Control);
    RunningIsWellHeld(y.world, Control);
    hide T.Managed, T.Settled;
    var x := y.world.live[Control];
    if x.keys.Some? {
      assert Keys(x.keys.value)[0] == x.keys.value.current;
    }
  }

  lemma RunningIsWellHeld(w: R.World, role: Role)
    requires T.Managed(w) && role in w.live
    ensures R.WellHeld(w.live[role], role, w.legacy) && KeyValid(w.legacy, Owner) && w.legacy.id == "v1"
    ensures w.live[role].keys.None? ==> R.Top(w).current == w.legacy
  {
    hide R.Lags, R.AckBacked, Validate, KeyValid;
    T.RunningIsTop(w, role);
  }

  lemma CommitKeepsRow(y: System, t: P.Transaction)
    requires T.Managed(y.world) && Control in y.world.live && !t.TAcknowledge? && Aligned(y.control.row.document)
    requires RowSigned(R.Top(y.world), y.control.row) && RowTimed(y)
        && (y.epochAt.Some? ==> y.epochAt.value <= T.Millis(y.now))
    ensures
      var z := Committed(y, t);
      && RowSigned(R.Top(z.world), z.control.row) && RowTimed(z)
      && (z.epochAt.Some? ==> z.epochAt.value <= T.Millis(z.now))
  {
    hide T.Managed, H.Inv, Handshake.WellSigned, P.Step, Aligned, NodeSound, SignerOf, R.Top, ConfigKid, NewEpoch;
    RowShape(y.control, t, y.now, SignerOf(y.installation, y.world.live[Control]));
    SignerIsCurrent(y);
  }

  lemma CommitKeepsInv(y: System, t: P.Transaction)
    requires Inv(y) && Control in y.world.live && !t.TAcknowledge? && Aligned(y.control.row.document)
    ensures Inv(Committed(y, t))
  {
    hide T.Managed, H.Inv, Handshake.WellSigned, P.Step, Aligned, RowSigned, RowTimed, NodeSound, SignerOf, R.Top,
        NewEpoch;
    var signer := SignerOf(y.installation, y.world.live[Control]);
    CommitKeepsRow(y, t);
    H.StepKeepsInv(y.control, t, y.now, signer);
    Handshake.LogKeeps(y.control, t, y.now, signer);
    RowShape(y.control, t, y.now, signer);
    var z := Committed(y, t);
    forall role | role in z.nodes
      ensures NodeSound(z, role)
    {
      SoundAfterCommit(y, z, role);
    }
  }

  lemma SoundAfterCommit(y: System, z: System, role: Role)
    requires role in y.nodes && NodeSound(y, role) && z == y.(control := z.control, epochAt := z.epochAt)
    requires z.control.nodes == y.control.nodes && forall e | e in y.control.log :: e in z.control.log
    requires z.control.row == y.control.row || z.control.row.generation == y.control.row.generation + 1
    ensures NodeSound(z, role)
  {
    hide CT.Coherent;
  }

  /** Events that leave Control, the journaled set and the key acknowledgements alone. */
  lemma NodesKeepInv(y: System, z: System)
    requires Inv(y) && z.control == y.control && z.epochAt == y.epochAt && z.now >= y.now
        && z.installation == y.installation
    requires T.Managed(z.world) && R.Top(z.world) == R.Top(y.world) && z.world.acks == y.world.acks
    requires z.nodes.Keys == y.nodes.Keys
    requires forall role | role in z.nodes ::
               && CT.Coherent(z.nodes[role])
               && (z.nodes[role].disk == y.nodes[role].disk
                   || (z.nodes[role].disk.Holds? ==> z.nodes[role].disk.raw in y.control.log))
               && (NodeOf(role) in y.control.nodes
                   && y.control.nodes[NodeOf(role)].generation == y.control.row.generation ==>
                     z.nodes[role].disk == y.nodes[role].disk)
    ensures Inv(z)
  {
    hide T.Managed, H.Inv, Handshake.WellSigned, RowSigned, CT.Coherent, R.Top;
    forall role | role in z.nodes
      ensures NodeSound(z, role)
    {
      assert NodeSound(y, role);
    }
  }

  lemma RotateKeepsInv(y: System, c: R.Call)
    requires Inv(y) && Allowed(y, Rotate(c))
    ensures Inv(Step(y, Rotate(c)))
  {
    hide T.Managed, H.Inv, Handshake.WellSigned, R.Rotate, NodeSound, T.Settled;
    var w' := R.Rotate(y.world, c).0;
    AcksStay(y.world, c);
    if c.op == R.Status {
      T.StatusChangesNothing(y.world, c);
    } else {
      T.RotateKeepsManaged(y.world, c);
      T.ManagedShape(y.world, c);
    }
    var z := Step(y, Rotate(c));
    forall role | role in z.nodes
      ensures NodeSound(z, role)
    {
      SoundnessIgnoresWorld(y, z, role);
    }
  }

  lemma AcksStay(w: R.World, c: R.Call)
    ensures R.Rotate(w, c).0.acks == w.acks
  {
    hide R.Decide, R.StartingSet, R.CountAcks, Validate;
  }

  lemma SoundnessIgnoresWorld(y: System, z: System, role: Role)
    requires role in y.nodes && NodeSound(y, role) && z == y.(world := z.world) && z.world.acks == y.world.acks
    ensures NodeSound(z, role)
  {
    hide CT.Coherent;
  }

  /** A node that holds the published envelope finds nothing newer to apply. */
  lemma NothingNewer(y: System, role: Role, raw: P.Envelope, n: int, fault: CT.SaveFault)
    requires Inv(y) && role in y.nodes && (CT.Verifies(y.nodes[role].gate.trust, raw) ==> raw in y.control.log)
    requires NodeOf(role) in y.control.nodes && y.control.nodes[NodeOf(role)].generation == y.control.row.generation
    ensures CT.Apply(y.nodes[role], raw, n, fault).0.disk == y.nodes[role].disk
  {
    hide T.Managed, RowSigned, RowTimed, Handshake.WellSigned, H.Inv, CT.Verifies, CT.Apply;
    assert NodeSound(y, role);
    RowInLog(y.control);
    if CT.Verifies(y.nodes[role].gate.trust, raw) {
      LogBound(y.control, raw);
    }
    OlderIsNotSaved(y.nodes[role], y.control.row.envelope.value, raw, n, fault);
  }

  lemma OlderIsNotSaved(w: CT.World<Delivery>, e: P.Envelope, raw: P.Envelope, n: int, fault: CT.SaveFault)
    requires CT.Coherent(w) && w.disk == CT.Holds(e)
    requires CT.Verifies(w.gate.trust, raw) ==>
        raw.Signed? && e.Signed? && raw.snapshot.generation <= e.snapshot.generation
    ensures CT.Apply(w, raw, n, fault).0.disk == w.disk
  {
    hide CT.Verifies;
  }

  lemma LogBound(s: P.State, e: P.Envelope)
    requires H.Inv(s) && e in s.log
    ensures e.Signed? && e.snapshot.generation <= s.row.generation
  {
    var i :| 0 <= i < |s.log| && s.log[i] == e;
    assert H.Recorded(s.log[i], s.row.generation, s.row.document);
  }

  lemma RowInLog(s: P.State)
    requires H.Inv(s) && s.row.envelope.Some?
    ensures
      var e := s.row.envelope.value;
      e in s.log && e.Signed? && e.snapshot.generation == s.row.generation && e.snapshot.payload == s.row.document
      && DeliveryValid(s.row.document)
  {
    H.InvNotes(s);
    assert H.RowMatches(s.row, s.log);
  }

  lemma DeliverKeepsInv(y: System, role: Role, raw: P.Envelope, n: int, fault: CT.SaveFault)
    requires Inv(y) && role in y.nodes && (CT.Verifies(y.nodes[role].gate.trust, raw) ==> raw in y.control.log)
    ensures Inv(y.(nodes := y.nodes[role := CT.Apply(y.nodes[role], raw, n, fault).0]))
  {
    hide T.Managed, H.Inv, Handshake.WellSigned, RowSigned, RowTimed, CT.Apply, CT.Verifies, R.Top;
    assert NodeSound(y, role);
    CT.StepAdvances(y.nodes[role], CT.DoApply(raw, n, fault));
    SavedIsPublished(y.nodes[role], raw, n, fault);
    if NodeOf(role) in y.control.nodes && y.control.nodes[NodeOf(role)].generation == y.control.row.generation {
      NothingNewer(y, role, raw, n, fault);
    }
    var z := y.(nodes := y.nodes[role := CT.Apply(y.nodes[role], raw, n, fault).0]);
    forall r | r in z.nodes
      ensures CT.Coherent(z.nodes[r])
      ensures z.nodes[r].disk == y.nodes[r].disk || (z.nodes[r].disk.Holds? ==> z.nodes[r].disk.raw in y.control.log)
    {
      assert NodeSound(y, r);
    }
    NodesKeepInv(y, z);
  }

  /** Only what verifies reaches the disk. */
  lemma SavedIsPublished(w: CT.World<Delivery>, raw: P.Envelope, n: int, fault: CT.SaveFault)
    ensures
      var d := CT.Apply(w, raw, n, fault).0.disk;
      d == w.disk || d.Unreadable? || (d == CT.Holds(raw) && CT.Verifies(w.gate.trust, raw))
  {
    hide CT.Verifies;
  }

  /** An accepted report is of the published envelope, which is still valid and is what the node has on disk. */
  lemma ReportedShape(y: System, role: Role, metrics: seq<P.Metric>)
    requires CanReport(y, role) && NodeSound(y, role)
    ensures
      var z, row := Reported(y, role, metrics), y.control.row;
      || z == y
      || (&& z == y.(control := z.control, world := R.RecordAck(y.world, role, T.Millis(y.now)))
          && z.control == y.control.(nodes := y.control.nodes[NodeOf(role) := P.NodeRow(row.generation, y.now,
              metrics)])
          && row.envelope.Some? && y.nodes[role].disk == CT.Holds(row.envelope.value) && y.now < row.expiresAt)
  {
    hide P.MetricsMatch, KeysMatch, R.RecordAck;
  }

  lemma SoundAfterReport(y: System, z: System, role: Role, r: Role, row: P.NodeRow)
    requires role in {Gateway, Coordinator} && r in {Gateway, Coordinator} && r in y.nodes && NodeSound(y, r)
    requires z == y.(control := z.control, world := R.RecordAck(y.world, role, T.Millis(y.now)))
    requires z.control == y.control.(nodes := y.control.nodes[NodeOf(role) := row])
    requires row.generation == y.control.row.generation && row.observedAt == y.now && y.control.row.envelope.Some?
    requires role in y.nodes && y.nodes[role].disk == CT.Holds(y.control.row.envelope.value)
        && y.now < y.control.row.expiresAt
    ensures NodeSound(z, r)
  {
    hide CT.Coherent, Digest;
  }

  lemma ReportKeepsInv(y: System, role: Role, metrics: seq<P.Metric>)
    requires Inv(y) && CanReport(y, role)
    ensures Inv(Reported(y, role, metrics))
  {
    hide T.Managed, H.Inv, Handshake.WellSigned, RowSigned, T.Settled, NodeSound, Reported, R.RecordAck, R.Top;
    var z := Reported(y, role, metrics);
    ReportedShape(y, role, metrics);
    if z != y {
      T.OtherEventsKeepManaged(y.world, R.Acknowledge(role, T.Millis(y.now)));
      ReportKeepsHistory(y, role, metrics);
      forall r | r in z.nodes
        ensures NodeSound(z, r)
      {
        SoundAfterReport(y, z, role, r, P.NodeRow(y.control.row.generation, y.now, metrics));
      }
    }
  }

  lemma ReportKeepsHistory(y: System, role: Role, metrics: seq<P.Metric>)
    requires H.Inv(y.control) && CanReport(y, role)
    ensures H.Inv(Reported(y, role, metrics).control)
  {
    hide H.Inv, P.Acknowledge, KeysMatch, R.RecordAck;
    var held := y.nodes[role].gate.accepted;
    if held.Some? {
      H.AcknowledgeKeepsInv(y.control, NodeOf(role), CT.Gen(held), held.value, metrics,
                            KeysMatch(y.world.live[Control], y.world.live[role]), y.now);
    }
  }

  lemma StartKeepsInv(y: System, role: Role)
    requires Inv(y) && T.Settled(y.world)
    ensures Inv(Started(y, role))
  {
    hide Inv, T.Settled, CT.Open, TrustFor;
    if role in y.world.files {
      DeploymentKeepsInv(y, Started(y, role), R.Start(role), role, TrustFor(y.installation, y.world.files[role]));
    }
  }

  lemma OwnerStepKeepsInv(y: System, e: Event)
    requires Inv(y) && Allowed(y, e) && (e.StopRole? || e.MoveJournal?)
    ensures Inv(Step(y, e))
  {
    var z := Step(y, e);
    assert Gateway in y.nodes;
    hide Inv, R.Step;
    var event := if e.StopRole? then R.Stop(e.role) else if e.lost then R.LoseJournal else R.RestoreJournal;
    DeploymentKeepsInv(y, z, event, Gateway, y.nodes[Gateway].gate.trust);
  }

  lemma NodeStepKeepsInv(y: System, e: Event)
    requires Inv(y) && Allowed(y, e) && (e.Elapse? || e.Deliver? || e.Sample? || e.Report?)
    ensures Inv(Step(y, e))
  {
    var z := Step(y, e);
    assert Gateway in y.nodes;
    hide Inv, CT.Verifies, CT.Apply, CT.Current, Reported, CanReport;
    match e {
      case Elapse(until) => ClockKeepsInv(y, z, Gateway, 0);
      case Deliver(role, raw, n, fault) => DeliverKeepsInv(y, role, raw, n, fault);
      case Sample(role, n) => ClockKeepsInv(y, z, role, n);
      case Report(role, metrics) => ReportKeepsInv(y, role, metrics);
    }
  }

  lemma StepKeepsInv(y: System, e: Event)
    requires Inv(y) && Allowed(y, e)
    ensures Inv(Step(y, e))
  {
    hide Inv, Committed, Started, Reported, CT.Apply, CT.Current, R.Step, R.Rotate, T.Settled, CT.Verifies;
    match e
    case Rotate(c) => RotateKeepsInv(y, c);
    case Commit(t) => CommitStepKeepsInv(y, t);
    case StartRole(role) => StartKeepsInv(y, role);
    case StopRole(_) => OwnerStepKeepsInv(y, e);
    case MoveJournal(_) => OwnerStepKeepsInv(y, e);
    case _ => NodeStepKeepsInv(y, e);
  }

  lemma CommitStepKeepsInv(y: System, t: P.Transaction)
    requires Inv(y) && Allowed(y, Commit(t))
    ensures Inv(Step(y, Commit(t)))
  {
    hide Inv, Committed, Aligned;
    CommitKeepsInv(y, t);
  }

  /** Waiting, and reading a node's clock. */
  lemma ClockKeepsInv(y: System, z: System, role: Role, n: int)
    requires Inv(y) && role in y.nodes && z.now >= y.now
    requires z == y.(now := z.now) || z == y.(nodes := y.nodes[role := CT.Current(y.nodes[role], n)])
    ensures Inv(z)
  {
    hide T.Managed, H.Inv, Handshake.WellSigned, RowSigned, RowTimed, R.Top;
    forall r | r in z.nodes
      ensures CT.Coherent(z.nodes[r]) && z.nodes[r].disk == y.nodes[r].disk
    {
      assert NodeSound(y, r);
    }
    NodesKeepInv(y, z);
  }

  /** Starts, stops and moves of the journal; a start reopens the node's gate on its disk. */
  lemma DeploymentKeepsInv(y: System, z: System, e: R.Event, role: Role, t: CT.Trust<Delivery>)
    requires Inv(y) && (e.Start? || e.Stop? || e.LoseJournal? || e.RestoreJournal?) && (e.Start? ==> T.Settled(y.world))
    requires z == y.(world := R.Step(y.world, e), nodes := z.nodes)
    requires z.nodes == y.nodes || (role in y.nodes && z.nodes == y.nodes[role := CT.Open(t, y.nodes[role].disk)])
    ensures Inv(z)
  {
    hide T.Managed, H.Inv, Handshake.WellSigned, RowSigned, RowTimed, T.Settled, R.Top, CT.Verifies;
    T.OtherEventsKeepManaged(y.world, e);
    forall r | r in z.nodes
      ensures CT.Coherent(z.nodes[r]) && z.nodes[r].disk == y.nodes[r].disk
    {
      assert NodeSound(y, r);
      CT.OpenIsCoherent(t, y.nodes[r].disk);
      OpenKeepsDisk(t, y.nodes[r].disk);
    }
    hide CT.Open;
    NodesKeepInv(y, z);
  }

  lemma OpenKeepsDisk(t: CT.Trust<Delivery>, disk: CT.Disk<Delivery>)
    ensures CT.Open(t, disk).disk == disk
  {
  }

  lemma InitialInv(y: System)
    requires Initial(y)
    ensures Inv(y)
  {
    H.InitialInv(y.control);
    hide H.Inv;
  }

  lemma {:induction false} ReachKeepsInv(y: System, es: seq<Event>, z: System)
    requires Inv(y) && Reach(y, es, z)
    ensures Inv(z)
    decreases |es|
  {
    hide Inv, Step, Allowed;
    if es != [] {
      StepKeepsInv(y, es[0]);
      ReachKeepsInv(Step(y, es[0]), es[1..], z);
    }
  }

  // ---------------------------------------------------------------- dropping a key

  /** An accepted and finished retirement or revocation of the previous key. */
  ghost predicate Drops(y: System, c: R.Call) {
    && Allowed(y, Rotate(c)) && (c.op == R.Retire || c.op == R.Revoke)
    && y.world.journal.Some? && y.world.journal.value.phase == Active && R.Rotate(y.world, c).1.Done?
  }

  /** The set it leaves, and the two acknowledgements that allowed it. */
  lemma DropFacts(y: System, c: R.Call, role: Role)
    requires Inv(y) && Drops(y, c) && role in {Gateway, Coordinator}
    ensures
      var top := R.Top(y.world);
      var next := top.(previous := None, generation := top.generation + 1, phase := Stable);
      && top.phase == Active && R.Rotate(y.world, c).0.files.Keys == y.world.files.Keys && role in y.world.files
      && R.Rotate(y.world, c).0.files[role] == R.RoleFile(next, role) && next.next == None
      && role in y.world.acks && c.now - R.ACK_AGE < y.world.acks[role].observedAt <= c.now && role in Delivered(y)
      && (c.op == R.Retire ==> top.current.since + OVERLAP <= c.now)
      && (c.op == R.Revoke ==> y.epochAt.Some? && top.current.since <= y.epochAt.value)
  {
    hide H.Inv, Handshake.WellSigned, RowSigned, RowTimed, NodeSound, R.RoleFile, Keys, Digest, T.Settled,
        T.LegacyStart,
      R.WellHeld, R.Lags, R.AckBacked, KeyValid, DistinctIds, Delivered;
    T.ManagedJournal(y.world);
  }

  /** What a role trusts once only one key is left. */
  lemma TrustOfOne(next: Set, role: Role)
    requires next.previous == None && next.next == None
    ensures R.TrustSet(R.RoleFile(next, role)) == map[ConfigKid(next.current) := next.current.configPublic]
  {
    var k := ForRole(next, For(role)).current;
    assert Keys(ForRole(next, For(role))) == [k];
    assert [k][..0] == [];
    assert TrustOf([k]) == TrustOf([])[ConfigKid(k) := k.configPublic];
  }

  /** The published envelope verifies under a trust exactly when the trust lists its key. */
  lemma RowVerifies(y: System, t: CT.Trust<Delivery>)
    requires Inv(y) && y.control.row.envelope.Some?
    requires t.installation == y.installation && t.minimum == 1 && t.validate == ((d: Delivery) => DeliveryValid(d))
    ensures
      var e := y.control.row.envelope.value;
      e.Signed? && (CT.Verifies(t, e) <==> e.snapshot.kid in t.keys && t.keys[e.snapshot.kid] == e.signer)
  {
    hide T.Managed, NodeSound, RowSigned, DeliveryValid, CT.SafeName, H.DocumentInv, H.NodeInv, H.LogInv;
    RowInLog(y.control);
    hide H.Inv;
  }

  /**
    After a finished retirement or revocation, in every run: each data role has exactly the published envelope on
    disk, and its gate reopens if and only if that envelope is signed with the key that is kept.
  */
  lemma ReopensExactlyWhen(y0: System, es: seq<Event>, y: System, c: R.Call, role: Role)
    requires Initial(y0) && Reach(y0, es, y) && Drops(y, c) && role in {Gateway, Coordinator}
    ensures
      var z := Step(y, Rotate(c));
      && role in z.nodes && role in z.world.files && y.control.row.envelope.Some?
      && z.nodes[role].disk == CT.Holds(y.control.row.envelope.value)
      && (!CT.Open(TrustFor(z.installation, z.world.files[role]), z.nodes[role].disk).gate.failed <==>
            SignedBy(y.control.row.envelope.value, R.Top(y.world).current))
  {
    hide R.Rotate, R.RoleFile, R.TrustSet, CT.Verifies, Inv, R.Top, Allowed, Delivered;
    InitialInv(y0);
    ReachKeepsInv(y0, es, y);
    DropFacts(y, c, role);
    DroppedDisk(y, role);
    var top, z := R.Top(y.world), Step(y, Rotate(c));
    TrustOfOne(top.(previous := None, generation := top.generation + 1, phase := Stable), role);
    RowVerifies(y, TrustFor(z.installation, z.world.files[role]));
  }

  lemma DroppedDisk(y: System, role: Role)
    requires Inv(y) && role in {Gateway, Coordinator} && role in Delivered(y)
    ensures role in y.nodes && y.control.row.envelope.Some?
        && y.nodes[role].disk == CT.Holds(y.control.row.envelope.value)
  {
    hide T.Managed, H.Inv, RowSigned, RowTimed, R.Top, Handshake.WellSigned, CT.Coherent;
    assert NodeSound(y, role);
  }

  /** One minute more than the overlap: then an acknowledgement young enough to count cannot be of an old envelope. */
  const SAFE_OVERLAP: int := OVERLAP + 60000

  /**
    The acknowledgements are enough for every revocation, and for every retirement one minute after it is first
    allowed: no gate is left unable to reopen.
  */
  lemma DropLeavesGatesOpen(y0: System, es: seq<Event>, y: System, c: R.Call, role: Role)
    requires Initial(y0) && Reach(y0, es, y) && Drops(y, c) && role in {Gateway, Coordinator}
    requires c.op == R.Revoke || R.Top(y.world).current.since + SAFE_OVERLAP <= c.now
    ensures
      var z := Step(y, Rotate(c));
      role in z.nodes && role in z.world.files
          && !CT.Open(TrustFor(z.installation, z.world.files[role]), z.nodes[role].disk).gate.failed
  {
    hide R.Rotate, T.Managed, H.Inv, R.Top, Handshake.WellSigned, CT.Open, TrustFor, SignedBy, Allowed;
    ReopensExactlyWhen(y0, es, y, c, role);
    InitialInv(y0);
    ReachKeepsInv(y0, es, y);
    DropFacts(y, c, role);
    assert NodeSound(y, role);
    assert RowSigned(R.Top(y.world), y.control.row) && RowTimed(y);
  }
}
