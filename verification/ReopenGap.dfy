/**
  The last minute that SAFE_OVERLAP adds is needed: a run in which a retirement, accepted as soon as its own guard
  allows, leaves both gates unable to reopen. Control renews nothing for a day after activation, the nodes acknowledge
  the envelope of the old key just before it expires, and these acknowledgements are still young enough to count.
*/
module ReopenGap {
  import opened Base
  import opened Keyring
  import CR = ControlRuntime
  import opened Reopening
  import ControlConfig
  import CT = ConfigTrust
  import P = Publication
  import R = Rotation
  import RS = RotationStale
  import T = RotationTiming

  lemma {:induction false} ReachConcat(x: System, es: seq<Event>, y: System, fs: seq<Event>, z: System)
    requires Reach(x, es, y) && Reach(y, fs, z)
    ensures Reach(x, es + fs, z)
    decreases |es|
  {
    hide Allowed, Step;
    if es == [] {
      assert es + fs == fs;
    } else {
      ReachConcat(Step(x, es[0]), es[1..], y, fs, z);
      assert (es + fs)[1..] == es[1..] + fs;
    }
  }

  lemma ReachOne(y: System, e: Event)
    requires Allowed(y, e)
    ensures Reach(y, [e], Step(y, e))
  {
    hide Allowed, Step;
    assert [e][1..] == [];
    assert Reach(Step(y, e), [], Step(y, e));
  }

  lemma Then(x: System, es: seq<Event>, y: System, e: Event) returns (fs: seq<Event>)
    requires Reach(x, es, y) && Allowed(y, e)
    ensures Reach(x, fs, Step(y, e))
  {
    hide Allowed, Step;
    ReachOne(y, e);
    ReachConcat(x, es, y, [e], Step(y, e));
    fs := es + [e];
  }

  const BOTH: set<Role> := {Gateway, Coordinator}

  /** Every gate as a process opens it on its settled file. */
  function Opened(y: System, top: Set): map<Role, CT.World<CR.Delivery>>
    requires y.nodes.Keys == BOTH
  {
    map[Gateway := CT.Open(TrustFor(y.installation, R.RoleFile(top, Gateway)), y.nodes[Gateway].disk),
        Coordinator := CT.Open(TrustFor(y.installation, R.RoleFile(top, Coordinator)), y.nodes[Coordinator].disk)]
  }

  function Running(y: System, top: Set): System
    requires y.nodes.Keys == BOTH
  {
    y.(world := y.world.(live := RS.AllFiles(top)), nodes := Opened(y, top))
  }

  lemma RestIsSettled(w: R.World, top: Set)
    requires RS.AtRest(w, top)
    ensures T.Settled(w)
  {
    hide R.RoleFile, Validate;
  }

  lemma OneStart(y: System, role: Role)
    requires T.Settled(y.world) && role in y.world.files
    ensures Allowed(y, StartRole(role)) && Step(y, StartRole(role)) == Started(y, role)
        && T.Settled(Started(y, role).world)
  {
    hide CT.Open, TrustFor, R.RoleFile;
  }

  lemma Up(y: System, top: Set) returns (es: seq<Event>, z: System)
    requires RS.AtRest(y.world, top) && y.nodes.Keys == BOTH
    ensures Reach(y, es, z) && z == Running(y, top)
  {
    RestIsSettled(y.world, top);
    assert {Control, Gateway, Coordinator} == y.world.files.Keys;
    hide R.RoleFile, Validate, T.Settled, CT.Open, TrustFor, Reach, Allowed, Step, RS.AtRest, RS.AllFiles;
    var y1 := Started(y, Control);
    OneStart(y, Control);
    ReachOne(y, StartRole(Control));
    var y2 := Started(y1, Gateway);
    OneStart(y1, Gateway);
    es := Then(y, [StartRole(Control)], y1, StartRole(Gateway));
    z := Started(y2, Coordinator);
    OneStart(y2, Coordinator);
    es := Then(y, es, y2, StartRole(Coordinator));
    StartedAll(y, top);
  }

  lemma StartedAll(y: System, top: Set)
    requires RS.AtRest(y.world, top) && y.nodes.Keys == BOTH
    ensures Started(Started(Started(y, Control), Gateway), Coordinator) == Running(y, top)
  {
    hide R.RoleFile, Validate, CT.Open, TrustFor;
    var z := Started(Started(Started(y, Control), Gateway), Coordinator);
    assert z.world.live == RS.AllFiles(top);
    assert z.nodes == Opened(y, top);
  }

  lemma Down(y: System, top: Set) returns (es: seq<Event>, z: System)
    requires y.world.live == RS.AllFiles(top)
    ensures Reach(y, es, z) && z == y.(world := y.world.(live := map[]))
  {
    hide R.RoleFile, Reach;
    var a, b, c := StopRole(Control), StopRole(Gateway), StopRole(Coordinator);
    ReachOne(y, a);
    es := Then(y, [a], Step(y, a), b);
    es := Then(y, es, Step(Step(y, a), b), c);
    z := Step(Step(Step(y, a), b), c);
    assert z.world.live == map[];
  }

  /** Both nodes hold the one envelope, on disk and in their running gates. */
  ghost predicate Holding(y: System, e: P.Envelope) {
    && y.nodes.Keys == BOTH && e.Signed? && e.snapshot.generation == 1
    && forall role | role in y.nodes ::
         y.nodes[role].disk == CT.Holds(e) && !y.nodes[role].gate.failed && y.nodes[role].gate.accepted == Some(e)
  }

  predicate Published(s: P.State, e: P.Envelope, now: int) {
    && s.row.generation == 1 && s.row.envelope == Some(e) && s.row.issuedAt <= now < s.row.expiresAt
    && s.row.document.config.rooms == [] && s.row.document.runtimes == [] && s.log == [e]
    && forall n | n in s.nodes :: s.nodes[n].generation <= 1
  }

  lemma OneReport(y: System, top: Set, e: P.Envelope, role: Role)
    requires y.world.live == RS.AllFiles(top) && Validate(top, Owner) && Holding(y, e) && Published(y.control, e, y.now)
    requires role in BOTH && (role in y.world.acks ==> y.world.acks[role].generation <= top.generation)
    ensures CanReport(y, role)
    ensures Reported(y, role, []) ==
            y.(control := y.control.(nodes := y.control.nodes[NodeOf(role) := P.NodeRow(1, y.now, [])]),
               world := y.world.(acks := y.world.acks[role := R.Ack(top.generation, Digest(top), T.Millis(y.now))]))
  {
    hide Validate, Digest;
    RS.AckRecorded(y.world, top, role, T.Millis(y.now));
    ScopedSetsAgree(top, Control);
    ScopedSetsAgree(top, role);
    hide R.RecordAck;
    assert P.MetricsMatch([], y.control.row.document);
  }

  lemma BothReport(y: System, top: Set, e: P.Envelope) returns (es: seq<Event>, z: System)
    requires y.world.live == RS.AllFiles(top) && Validate(top, Owner) && Holding(y, e) && Published(y.control, e, y.now)
    requires forall role | role in y.world.acks :: y.world.acks[role].generation <= top.generation
    ensures Reach(y, es, z)
    ensures z == y.(control := y.control.(nodes := z.control.nodes), world := RS.Acked(y.world, top, T.Millis(y.now)))
    ensures
      var row := P.NodeRow(1, y.now, []);
      z.control.nodes == y.control.nodes[P.GatewayNode := row][P.CoordinatorNode := row]
  {
    hide Validate, Digest, Reach, R.RoleFile, CanReport, Reported;
    var a, b := Report(Gateway, []), Report(Coordinator, []);
    OneReport(y, top, e, Gateway);
    ReachOne(y, a);
    var y1 := Step(y, a);
    OneReport(y1, top, e, Coordinator);
    es := Then(y, [a], y1, b);
    z := Step(y1, b);
  }

  // ---------------------------------------------------------------- the run

  /** A fresh installation, a second key, and room for one generation and one boundary. */
  ghost predicate Ready(y: System, key: Key) {
    && Initial(y) && KeyValid(key, Owner) && key.id != "v1" && CT.SafeName(y.installation)
    && y.now % 1000 == 0 && 0 < Unix(y.now) <= 253402214399 && T.Millis(y.now) + R.MARGIN < COUNTER_CEILING
  }

  lemma SomethingIsReady() returns (y: System, key: Key)
    ensures Ready(y, key)
  {
    var s;
    s, key := RS.SomethingIsPlayable();
    var c := ControlConfig.Config(1, 0, ControlConfig.Standard10k, "region", []);
    var node := CT.Open(TrustFor("i", R.RoleFile(R.LegacySet(s.world.legacy), Gateway)), CT.Empty);
    var control := P.State(c, P.Row(CR.Delivery(c, []), 0, None, 0, 0), [], map[], []);
    y := System(s.world, 1000 * MICROS_PER_SECOND, control, map[Gateway := node, Coordinator := node], None, "i");
    assert CT.SafeName("i");
  }

  function Staged(y: System, key: Key): Set { RS.StagedSet(y.world.legacy, key) }

  function Activated(y: System, key: Key): Set { RS.ActiveSet(y.world.legacy, key, T.Millis(y.now) + R.MARGIN) }

  /** What Control signs first, with the key of the installation. */
  function FirstEnvelope(y: System): P.Envelope {
    var k := y.world.legacy;
    CT.Signed(P.SnapshotFor(y.control.row.document, 1, y.now, P.Signer(ConfigKid(k), k.configPublic, y.installation)),
        k.configPublic, 0)
  }

  function Call(op: R.Operation, y: System, key: Key): R.Call {
    R.Call(op, T.Millis(y.now), key, Delivered(y), y.epochAt, 4)
  }

  lemma SetsValid(y: System, key: Key)
    requires Ready(y, key)
    ensures Validate(Staged(y, key), Owner) && Validate(Activated(y, key), Owner)
    ensures Validate(RetiredSet(y, key), Owner)
  {
    RS.SetsValid(y.world.legacy, key, T.Millis(y.now) + R.MARGIN);
  }

  function RetiredSet(y: System, key: Key): Set {
    Set(3, Stable, key.(since := T.Millis(y.now) + R.MARGIN), None, None)
  }

  /** An operation of the managed procedure that finishes. */
  lemma OperationDone(y: System, c: R.Call, keys: Set, next: Set)
    requires c == Call(c.op, y, c.made) && c.op != R.Status
    requires y.world.live == map[] && y.world.files.Keys == {Control, Gateway, Coordinator}
    requires R.StartingSet(y.world, c.op) == Some(keys)
        && R.Decide(keys, R.CountAcks(y.world, keys, c), c) == Some(next)
    requires Validate(next, Owner) && forall role | role in y.world.acks ::
        y.world.acks[role].generation <= next.generation
    ensures Allowed(y, Rotate(c)) && R.Rotate(y.world, c).1 == R.Done(next) && RS.AtRest(R.Rotate(y.world, c).0, next)
    ensures Step(y, Rotate(c)) == y.(world := R.Rotate(y.world, c).0) && R.Rotate(y.world, c).0.acks == y.world.acks
  {
    hide Validate, R.Decide, R.StartingSet, R.CountAcks, R.Rotate, RS.AtRest, Delivered;
    RS.OperationDone(y.world, c, keys, next);
  }

  lemma StagePhase(y: System, key: Key) returns (es: seq<Event>, z: System)
    requires Ready(y, key)
    ensures Reach(y, es, z) && z == y.(world := z.world) && RS.AtRest(z.world, Staged(y, key)) && z.world.acks == map[]
  {
    hide Validate, R.Rotate, RS.AtRest, Reach, Delivered;
    SetsValid(y, key);
    var c := Call(R.Stage, y, key);
    OperationDone(y, c, R.LegacySet(y.world.legacy), Staged(y, key));
    ReachOne(y, Rotate(c));
    es, z := [Rotate(c)], Step(y, Rotate(c));
  }

  /** The keys a role trusts list a key of its set, private halves aside. */
  lemma TrustsKey(top: Set, role: Role, k: Key)
    requires Validate(top, Owner) && k in Keys(top)
    ensures
      var trust := R.TrustSet(R.RoleFile(top, role));
      ConfigKid(k) in trust && trust[ConfigKid(k)] == k.configPublic
  {
    ScopedSetsAgree(top, role);
    var i :| 0 <= i < |Keys(top)| && Keys(top)[i] == k;
    var r := ForRole(top, For(role));
    assert Keys(r)[i] == Sanitize(k, For(role)) && Keys(r)[i] in Keys(r);
    R.TrustsListed(r, role, Keys(r)[i]);
  }

  lemma EnvelopeFacts(y: System, key: Key)
    requires Ready(y, key)
    ensures
      var e := FirstEnvelope(y);
      && e.Signed? && CT.Structural(e.snapshot) && e.snapshot.generation == 1 && e.snapshot.issuedAt == Unix(y.now)
      && e.snapshot.issuedAt < e.snapshot.expiresAt && e.snapshot.installation == y.installation
      && CR.DeliveryValid(y.control.row.document) && e.snapshot.payload == y.control.row.document
      && e.snapshot.kid == "config-v1" && e.signer == y.world.legacy.configPublic
      && y.control.row.generation == 0 && y.control.row.envelope == None
  {
    assert Unix(y.now + P.DAY_MICROS) == Unix(y.now) + DAY_SECONDS;
    assert ConfigKid(y.world.legacy) == "config-v1";
    assert CT.SafeName("config-v1");
  }

  lemma EnvelopeVerifies(y: System, key: Key, top: Set, role: Role)
    requires Ready(y, key) && Validate(top, Owner) && y.world.legacy in Keys(top)
    ensures CT.Verifies(TrustFor(y.installation, R.RoleFile(top, role)), FirstEnvelope(y))
  {
    EnvelopeFacts(y, key);
    TrustsKey(top, role, y.world.legacy);
    hide R.TrustSet, R.RoleFile, FirstEnvelope, CT.Structural, CR.DeliveryValid, Validate, Initial;
    assert ConfigKid(y.world.legacy) == "config-v1" by {
      LegacyKid(y, key);
    }
  }

  lemma LegacyKid(y: System, key: Key)
    requires Ready(y, key)
    ensures ConfigKid(y.world.legacy) == "config-v1"
  {
  }

  /** Control, running on the staged set, signs the empty document. */
  lemma RefreshPhase(y0: System, key: Key, y: System)
    requires Ready(y0, key) && y == y0.(world := y.world, nodes := y.nodes)
    requires Control in y.world.live && y.world.live[Control] == R.RoleFile(Staged(y0, key), Control)
    ensures Allowed(y, Commit(P.TRefresh))
    ensures
      var z := Step(y, Commit(P.TRefresh));
      && z == y.(control := z.control) && z.control.nodes == map[] && Published(z.control, FirstEnvelope(y0), y.now)
      && z.control.row.issuedAt == y.now && z.control.row.expiresAt == y.now + P.DAY_MICROS
  {
    EnvelopeFacts(y0, key);
    SignerIsLegacy(y0, key);
    hide CT.Structural, R.RoleFile, CR.DeliveryValid, SignerOf;
    assert P.Step(y.control, P.TRefresh, y.now, SignerOf(y.installation, y.world.live[Control])).row.envelope ==
        Some(FirstEnvelope(y0));
  }

  lemma SignerIsLegacy(y: System, key: Key)
    requires Ready(y, key)
    ensures
      var k := y.world.legacy;
      SignerOf(y.installation, R.RoleFile(Staged(y, key), Control)) ==
          P.Signer(ConfigKid(k), k.configPublic, y.installation)
  {
  }

  function Given(y: System, role: Role, e: P.Envelope): System
    requires role in y.nodes
  {
    y.(nodes := y.nodes[role := CT.Apply(y.nodes[role], e, Unix(y.now), CT.Saved).0])
  }

  lemma OneDelivery(y: System, role: Role, e: P.Envelope)
    requires role in y.nodes && role in y.world.live && e in y.control.log
    ensures
      var d := Deliver(role, e, Unix(y.now), CT.Saved);
      Allowed(y, d) && Step(y, d) == Given(y, role, e)
  {
    hide CT.Verifies, CT.Apply;
  }

  /** A node without a snapshot accepts the first one. */
  lemma FirstDelivery(y0: System, key: Key, role: Role)
    requires Ready(y0, key)
    ensures
      var e, t := FirstEnvelope(y0), TrustFor(y0.installation, R.RoleFile(Staged(y0, key), role));
      var w := CT.Apply(CT.Open(t, CT.Empty), e, Unix(y0.now), CT.Saved).0;
      w.disk == CT.Holds(e) && !w.gate.failed && w.gate.accepted == Some(e)
  {
    hide CT.Verifies, R.RoleFile, TrustFor, FirstEnvelope, CT.Structural, CR.DeliveryValid, Validate, Initial;
    EnvelopeFacts(y0, key);
    SetsValid(y0, key);
    EnvelopeVerifies(y0, key, Staged(y0, key), role);
  }

  /** Staged, running, signed, delivered, acknowledged by both and stopped again. */
  lemma FirstDay(y0: System, key: Key) returns (es: seq<Event>, z: System)
    requires Ready(y0, key)
    ensures
      var e := FirstEnvelope(y0);
      && Reach(y0, es, z) && z == y0.(world := z.world, nodes := z.nodes, control := z.control)
      && RS.AtRest(z.world, Staged(y0, key)) && Holding(z, e) && Published(z.control, e, y0.now)
      && z.control.nodes == NodeRows(y0.now) && z.control.row.issuedAt == y0.now
      && z.control.row.expiresAt == y0.now + P.DAY_MICROS
      && z.world.acks == AckRows(Staged(y0, key), T.Millis(y0.now))
  {
    hide Validate, R.RoleFile, CT.Open, TrustFor, Reach, Allowed, Step, FirstEnvelope, Initial, CT.Apply, Digest;
    var e, top := FirstEnvelope(y0), Staged(y0, key);
    SetsValid(y0, key);
    EnvelopeFacts(y0, key);
    InitialNodes(y0);
    var y1, y2, fs;
    es, y1 := StagePhase(y0, key);
    fs, y2 := Up(y1, top);
    ReachConcat(y0, es, y1, fs, y2);
    es := es + fs;
    RefreshPhase(y0, key, y2);
    var y3 := Step(y2, Commit(P.TRefresh));
    es := Then(y0, es, y2, Commit(P.TRefresh));
    var d1, d2 := Deliver(Gateway, e, Unix(y0.now), CT.Saved), Deliver(Coordinator, e, Unix(y0.now), CT.Saved);
    OneDelivery(y3, Gateway, e);
    FirstDelivery(y0, key, Gateway);
    var y4 := Given(y3, Gateway, e);
    es := Then(y0, es, y3, d1);
    OneDelivery(y4, Coordinator, e);
    FirstDelivery(y0, key, Coordinator);
    var y5 := Given(y4, Coordinator, e);
    es := Then(y0, es, y4, d2);
    assert Holding(y5, e);
    var gs, y6 := BothReport(y5, top, e);
    ReachConcat(y0, es, y5, gs, y6);
    es := es + gs;
    fs, z := Down(y6, top);
    ReachConcat(y0, es, y6, fs, z);
    es := es + fs;
  }

  function NodeRows(now: int): map<P.NodeId, P.NodeRow> {
    map[P.GatewayNode := P.NodeRow(1, now, []), P.CoordinatorNode := P.NodeRow(1, now, [])]
  }

  function AckRows(top: Set, at: int): map<Role, R.Ack> {
    map[Gateway := R.Ack(top.generation, Digest(top), at), Coordinator := R.Ack(top.generation, Digest(top), at)]
  }

  lemma InitialNodes(y: System)
    requires Initial(y)
    ensures y.nodes.Keys == BOTH && (forall role | role in y.nodes :: y.nodes[role].disk == CT.Empty)
        && y.control.nodes == map[]
  {
  }

  lemma AcksCount(y: System, top: Set, c: R.Call, at: int)
    requires y.world.acks == AckRows(top, at) && y.control.row.generation == 1
        && y.control.nodes.Keys == NodeRows(0).Keys
    requires (forall n | n in y.control.nodes :: y.control.nodes[n].generation == 1) && top.generation > 0
    requires c.delivered == Delivered(y) && c.now - R.ACK_AGE < at <= c.now
    ensures R.CountAcks(y.world, top, c) == 2
  {
    hide Digest;
    assert Gateway in Delivered(y) && Coordinator in Delivered(y);
  }

  /** Activation on those acknowledgements; the gates then run on the set that still lists the old key. */
  lemma ActivatePhase(y0: System, key: Key, y: System) returns (es: seq<Event>, z: System)
    requires Ready(y0, key) && y == y0.(world := y.world, nodes := y.nodes, control := y.control)
    requires RS.AtRest(y.world, Staged(y0, key)) && y.world.acks == AckRows(Staged(y0, key), T.Millis(y0.now))
    requires Holding(y, FirstEnvelope(y0)) && y.control.row.generation == 1 && y.control.nodes == NodeRows(y0.now)
    ensures Reach(y, es, z) && z == y.(world := z.world) && RS.AtRest(z.world, Activated(y0, key))
        && z.world.acks == y.world.acks
  {
    hide Validate, R.Rotate, Reach, Delivered, Initial, Digest, FirstEnvelope, R.RoleFile;
    SetsValid(y0, key);
    LegacyTime(y0);
    var c := Call(R.Activate, y, key);
    AcksCount(y, Staged(y0, key), c, T.Millis(y0.now));
    OperationDone(y, c, Staged(y0, key), Activated(y0, key));
    ReachOne(y, Rotate(c));
    es, z := [Rotate(c)], Step(y, Rotate(c));
  }

  lemma LegacyTime(y: System)
    requires Initial(y)
    ensures y.world.legacy.since == 0 && y.epochAt == None
  {
  }

  /** A reopened gate that trusts the old key holds its envelope again. */
  lemma HoldingAgain(y0: System, key: Key, y: System)
    requires Ready(y0, key) && y.installation == y0.installation && Holding(y, FirstEnvelope(y0))
    ensures Holding(Running(y, Activated(y0, key)), FirstEnvelope(y0))
  {
    hide CT.Verifies, TrustFor, R.RoleFile, Validate, Initial, FirstEnvelope, CT.Open;
    SetsValid(y0, key);
    var e, top := FirstEnvelope(y0), Activated(y0, key);
    forall role | role in BOTH
      ensures
        var w := CT.Open(TrustFor(y.installation, R.RoleFile(top, role)), CT.Holds(e));
        w.disk == CT.Holds(e) && !w.gate.failed && w.gate.accepted == Some(e)
    {
      EnvelopeVerifies(y0, key, top, role);
      OpenHolds(TrustFor(y.installation, R.RoleFile(top, role)), e);
    }
  }

  lemma OpenHolds(t: CT.Trust<CR.Delivery>, e: P.Envelope)
    requires CT.Verifies(t, e)
    ensures
      var w := CT.Open(t, CT.Holds(e));
      w.disk == CT.Holds(e) && !w.gate.failed && w.gate.accepted == Some(e)
  {
  }

  /** Nothing is renewed; the roles run until a microsecond before the old envelope expires. */
  lemma WaitForExpiry(y0: System, key: Key, y: System) returns (es: seq<Event>, z: System)
    requires Ready(y0, key) && y.installation == y0.installation && y.now == y0.now
    requires RS.AtRest(y.world, Activated(y0, key)) && Holding(y, FirstEnvelope(y0))
    ensures Reach(y, es, z) && z == y.(now := y0.now + P.DAY_MICROS - 1, nodes := z.nodes, world := z.world)
    ensures z.world == y.world.(live := RS.AllFiles(Activated(y0, key))) && Holding(z, FirstEnvelope(y0))
  {
    hide Validate, R.RoleFile, CT.Open, TrustFor, Reach, Allowed, Step, FirstEnvelope, Initial, Digest, RS.AtRest;
    var top, late := Activated(y0, key), y0.now + P.DAY_MICROS - 1;
    var y1;
    es, y1 := Up(y, top);
    HoldingAgain(y0, key, y);
    Elapses(y1, late);
    es := Then(y, es, y1, Elapse(late));
    z := y1.(now := late);
    hide Running;
  }

  /** Then it is acknowledged once more, and everything is stopped until the retirement. */
  lemma SecondDay(y0: System, key: Key, y: System, delay: nat) returns (es: seq<Event>, z: System)
    requires Ready(y0, key) && y == y0.(world := y.world, nodes := y.nodes, control := y.control)
    requires RS.AtRest(y.world, Activated(y0, key)) && Holding(y, FirstEnvelope(y0))
    requires Published(y.control, FirstEnvelope(y0), y0.now) && y.control.nodes == NodeRows(y0.now)
    requires y.world.acks == AckRows(Staged(y0, key), T.Millis(y0.now))
    requires y.control.row.issuedAt == y0.now && y.control.row.expiresAt == y0.now + P.DAY_MICROS
    ensures Reach(y, es, z) && RS.AtRest(z.world, Activated(y0, key)) && z.epochAt == y0.epochAt
    ensures z.now == (T.Millis(y0.now) + R.MARGIN + OVERLAP + delay) * 1000 && z.installation == y0.installation
    ensures z.world.acks == AckRows(Activated(y0, key), T.Millis(y0.now) + T.DAY_MILLIS - 1)
    ensures z.control.row == y.control.row && z.control.nodes == NodeRows(y0.now + P.DAY_MICROS - 1)
  {
    hide Validate, R.RoleFile, Reach, Allowed, Step, FirstEnvelope, Initial, Digest, Holding;
    var e, top := FirstEnvelope(y0), Activated(y0, key);
    SetsValid(y0, key);
    var y2, y3, y4, fs;
    es, y2 := WaitForExpiry(y0, key, y);
    fs, y3 := BothReport(y2, top, e);
    ReachConcat(y, es, y2, fs, y3);
    es := es + fs;
    fs, y4 := Down(y3, top);
    ReachConcat(y, es, y3, fs, y4);
    es := es + fs;
    var end := (T.Millis(y0.now) + R.MARGIN + OVERLAP + delay) * 1000;
    Elapses(y4, end);
    es := Then(y, es, y4, Elapse(end));
    z := y4.(now := end);
    assert T.Millis(y2.now) == T.Millis(y0.now) + T.DAY_MILLIS - 1;
  }

  lemma Elapses(y: System, until: int)
    requires y.now <= until
    ensures Allowed(y, Elapse(until)) && Step(y, Elapse(until)) == y.(now := until)
  {
  }

  /** The retirement is accepted as soon as its own guard allows it, and as long as the acknowledgements count. */
  lemma RetirementIsAccepted(y0: System, key: Key, y: System, delay: nat)
    requires Ready(y0, key) && RS.AtRest(y.world, Activated(y0, key)) && y.epochAt == y0.epochAt
    requires y.now == (T.Millis(y0.now) + R.MARGIN + OVERLAP + delay) * 1000 && y.control.row.generation == 1
    requires OVERLAP + delay < SAFE_OVERLAP - 1
    requires y.world.acks == AckRows(Activated(y0, key), T.Millis(y0.now) + T.DAY_MILLIS - 1)
    requires y.control.nodes == NodeRows(y0.now + P.DAY_MICROS - 1)
    ensures Drops(y, Call(R.Retire, y, key)) && R.Top(y.world) == Activated(y0, key)
  {
    hide Validate, R.Rotate, Delivered, Initial, Digest, R.RoleFile;
    SetsValid(y0, key);
    var c := Call(R.Retire, y, key);
    AcksCount(y, Activated(y0, key), c, T.Millis(y0.now) + T.DAY_MILLIS - 1);
    OperationDone(y, c, Activated(y0, key), RetiredSet(y0, key));
  }

  /**
    The guard of retirement alone is not enough. From every fresh installation, and for every retirement time from the
    first one allowed to two milliseconds before the safe overlap, there is a run of the managed procedure at whose
    end the retirement is accepted and neither data role can reopen its gate.
  */
  lemma EarlyRetirementClosesGates(y0: System, key: Key, delay: nat) returns (es: seq<Event>, y: System, c: R.Call)
    requires Ready(y0, key) && OVERLAP + delay < SAFE_OVERLAP - 1
    ensures Reach(y0, es, y) && Drops(y, c) && c.op == R.Retire
        && c.now == R.Top(y.world).current.since + OVERLAP + delay
    ensures
      var z := Step(y, Rotate(c));
      forall role | role in BOTH ::
        role in z.nodes && role in z.world.files
            && CT.Open(TrustFor(z.installation, z.world.files[role]), z.nodes[role].disk).gate.failed
  {
    hide Reach, Initial, R.Rotate, CT.Open, TrustFor, R.TrustSet, FirstEnvelope, Delivered, Digest, Validate,
        R.RoleFile, Holding;
    var y1, y2, fs;
    es, y1 := FirstDay(y0, key);
    fs, y2 := ActivatePhase(y0, key, y1);
    ReachConcat(y0, es, y1, fs, y2);
    es := es + fs;
    HoldingStays(y1, y2, FirstEnvelope(y0));
    fs, y := SecondDay(y0, key, y2, delay);
    ReachConcat(y0, es, y2, fs, y);
    es := es + fs;
    c := Call(R.Retire, y, key);
    RetirementIsAccepted(y0, key, y, delay);
    NotTheNewKey(y0, key);
    ReopensExactlyWhen(y0, es, y, c, Gateway);
    ReopensExactlyWhen(y0, es, y, c, Coordinator);
  }

  lemma HoldingStays(y: System, z: System, e: P.Envelope)
    requires Holding(y, e) && z.nodes == y.nodes
    ensures Holding(z, e)
  {
  }

  lemma NotTheNewKey(y: System, key: Key)
    requires Ready(y, key)
    ensures !SignedBy(FirstEnvelope(y), Activated(y, key).current)
  {
    EnvelopeFacts(y, key);
    LegacyKid(y, key);
    if ConfigKid(key) == ConfigKid(y.world.legacy) {
      KidInjective(key, y.world.legacy);
    }
  }
}
