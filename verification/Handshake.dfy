/**
  Control and one data node together: the clock-recovery handshake.

  The network may deliver, replay and reorder anything. Signatures are unforgeable: an envelope that verifies
  under the gate's trust was signed by Control.
*/
module Handshake {
  import opened Base
  import opened ControlRuntime
  import ControlConfig
  import CT = ConfigTrust
  import P = Publication
  import H = PublicationHistory

  datatype System = System(control: P.State, node: CT.World<Delivery>)

  datatype Event =
    | ControlStep(transaction: P.Transaction, now: int, signer: P.Signer)
    | NodeStep(event: CT.Event<Delivery>)

  predicate Unforged(y: System, e: CT.Event<Delivery>) {
    e.DoApply? && CT.Verifies(y.node.gate.trust, e.raw) ==> e.raw in y.control.log
  }

  ghost predicate Reach(y: System, es: seq<Event>, z: System)
    decreases |es|
  {
    if es == [] then z == y
    else
      match es[0]
      case ControlStep(t, now, signer) =>
        Aligned(y.control.row.document) && Reach(y.(control := P.Step(y.control, t, now, signer)), es[1..], z)
      case NodeStep(e) => Unforged(y, e) && Reach(y.(node := CT.Step(y.node, e)), es[1..], z)
  }

  ghost predicate Initial(y: System) {
    P.Initial(y.control) && y.node == CT.Open(y.node.gate.trust, CT.Empty)
  }

  predicate WellSigned(log: seq<P.Envelope>) {
    forall e | e in log :: e.Signed? && CT.Structural(e.snapshot)
  }

  /** Whatever the disk holds was published, and the gate is coherent with its disk. */
  ghost predicate Inv(y: System) {
    && H.Inv(y.control) && CT.Coherent(y.node) && WellSigned(y.control.log)
    && y.control.row.generation < COUNTER_CEILING
    && (y.node.disk.Holds? ==> y.node.disk.raw in y.control.log)
  }

  lemma LogGrows(s: P.State, t: P.Transaction, now: int, signer: P.Signer)
    requires Aligned(s.row.document)
    ensures
      var log := P.Step(s, t, now, signer).log;
      log == s.log || exists e: P.Envelope :: log == s.log + [e] && e.Signed? && CT.Structural(e.snapshot)
    ensures P.Step(s, t, now, signer).row.generation < COUNTER_CEILING
        || P.Step(s, t, now, signer).row.generation == s.row.generation
  {
    hide DeliveryValid, P.NeedsDrain, P.RemovalConflict, P.TickedDelivery, P.TickedEvents, P.NextEvent, P.MetricsMatch,
      P.EpochDelivery, P.PublishedDelivery, P.Operated, CT.Structural;
    var log := P.Step(s, t, now, signer).log;
    assert log != s.log ==> |log| == |s.log| + 1 && log == s.log + [log[|s.log|]];
  }

  lemma LogKeeps(s: P.State, t: P.Transaction, now: int, signer: P.Signer)
    requires Aligned(s.row.document) && WellSigned(s.log)
    ensures (forall e | e in s.log :: e in P.Step(s, t, now, signer).log) && WellSigned(P.Step(s, t, now, signer).log)
    ensures s.row.generation < COUNTER_CEILING ==> P.Step(s, t, now, signer).row.generation < COUNTER_CEILING
  {
    hide P.Step, CT.Structural;
    LogGrows(s, t, now, signer);
  }

  lemma {:induction false} ReachKeepsInv(y: System, es: seq<Event>, z: System)
    requires Inv(y) && Reach(y, es, z)
    ensures Inv(z)
    decreases |es|
  {
    hide H.Inv, P.Step, WellSigned;
    if es != [] {
      match es[0]
      case ControlStep(t, now, signer) =>
        H.StepKeepsInv(y.control, t, now, signer);
        LogKeeps(y.control, t, now, signer);
        ReachKeepsInv(y.(control := P.Step(y.control, t, now, signer)), es[1..], z);
      case NodeStep(e) =>
        CT.StepAdvances(y.node, e);
        ReachKeepsInv(y.(node := CT.Step(y.node, e)), es[1..], z);
    }
  }

  lemma ReachableInv(y: System, es: seq<Event>, z: System)
    requires Initial(y) && Reach(y, es, z)
    ensures Inv(z)
  {
    H.InitialInv(y.control);
    ReachKeepsInv(y, es, z);
  }

  /** An answer names a strictly newer generation issued at or after the boundary, and never changes the document. */
  lemma AnswerIsFresh(s: P.State, req: CT.ClockRecovery<Delivery>, now: int, signer: P.Signer)
    requires H.Inv(s) && P.RecoverClock(s, req, now, signer).1.Some?
    ensures
      var (s', e) := P.RecoverClock(s, req, now, signer);
      && e.value.Signed? && e.value.snapshot.generation > req.generation && e.value.snapshot.issuedAt >= req.notBefore
      && e.value.snapshot.payload == s.row.document == s'.row.document && e.value in s'.log
      && s'.draft == s.draft && s'.events == s.events && s'.nodes == s.nodes
      && (s' == s || s'.row.generation == s.row.generation + 1)
  {
    hide DeliveryValid, H.DocumentInv, H.InOrder, H.Recorded;
  }

  /** Recovery handshake: in every reachable state of Control and a node, any answer Control gives to the node's
      own request is newer and not smaller in revision, keeps the published document, and, applied within its
      validity by a clock that has caught up, is accepted, clears the hold and is served at once. */
  lemma HandshakeProgress(y0: System, es: seq<Event>, y: System, now: int, signer: P.Signer, n: int)
    requires Initial(y0) && Reach(y0, es, y) && CT.RecoveryRequest(y.node.gate).Some?
    requires P.RecoverClock(y.control, CT.RecoveryRequest(y.node.gate).value, now, signer).1.Some?
    ensures
      var (s', answer) := P.RecoverClock(y.control, CT.RecoveryRequest(y.node.gate).value, now, signer);
      var e, g := answer.value, y.node.gate;
      && e.Signed? && s'.row.document == y.control.row.document
      && e.snapshot.generation > CT.Gen(g.accepted) && e.snapshot.revision >= CT.Rev(g.accepted)
      && e.snapshot.issuedAt >= g.recoveryAfter
      && (CT.Verifies(g.trust, e) && g.lastClock <= n && e.snapshot.issuedAt <= n < e.snapshot.expiresAt ==>
            var (w, err) := CT.Apply(y.node, e, n, CT.Saved);
            err == CT.Ok && !w.gate.clockHold && w.disk == CT.Holds(e) && CT.Serves(w.gate, n) == Some(e.snapshot))
  {
    ReachableInv(y0, es, y);
    var g := y.node.gate;
    var req := CT.RecoveryRequest(g).value;
    AnswerIsFresh(y.control, req, now, signer);
    var (s', answer) := P.RecoverClock(y.control, req, now, signer);
    H.StepKeepsInv(y.control, P.TRecoverClock(req), now, signer);
    assert s' == P.Step(y.control, P.TRecoverClock(req), now, signer).(log := s'.log);
    LogKeeps(y.control, P.TRecoverClock(req), now, signer);
    hide P.RecoverClock, DeliveryValid;
    RevisionsInLog(s', g.accepted.value, answer.value);
  }

  /** A later generation in one history carries a revision at least as large. */
  lemma RevisionsInLog(s: P.State, a: P.Envelope, b: P.Envelope)
    requires H.Inv(s) && a in s.log && b in s.log && a.Signed? && b.Signed?
        && a.snapshot.generation < b.snapshot.generation
    ensures a.snapshot.revision <= b.snapshot.revision
  {
    var i :| 0 <= i < |s.log| && s.log[i] == a;
    var j :| 0 <= j < |s.log| && s.log[j] == b;
    assert H.Recorded(a, s.row.generation, s.row.document) && H.Recorded(b, s.row.generation, s.row.document);
    assert i < j;
    assert H.Extends(a.snapshot.payload, b.snapshot.payload);
  }

  // ---------------------------------------------------------------- when Control answers

  /** The published document itself never stands in the way of a renewal. */
  lemma RenewalSucceeds(s: P.State, now: int, signer: P.Signer)
    requires H.Inv(s)
    ensures P.Sign(s, s.row.document, now, signer).Some? <==> P.CanSign(s, now, signer)
    ensures P.CanSign(s, now, signer) ==> P.Sign(s, s.row.document, now, signer).value.row.envelope.Some?
  {
    H.InvNotes(s);
    P.SignsExactlyWhen(s, s.row.document, now, signer);
    hide H.Inv, H.Uniform, DeliveryValid, CT.Structural;
  }

  /** In a reachable system a held envelope of the published generation is the published envelope. */
  lemma HeldIsPublished(y: System)
    requires Inv(y) && !y.node.gate.failed && y.node.gate.accepted.Some?
    ensures
      var e, row := y.node.gate.accepted.value, y.control.row;
      && e.Signed? && 0 < e.snapshot.generation <= row.generation && 0 < e.snapshot.issuedAt <= 253402214399
      && (row.envelope.Some? ==> row.generation > 0 && 0 < Unix(row.issuedAt) <= 253402214399)
      && (row.envelope.Some? && e.snapshot.generation == row.generation ==>
            row.envelope.value == e && e.snapshot.issuedAt == Unix(row.issuedAt))
  {
    var s, e := y.control, y.node.gate.accepted.value;
    assert e in s.log;
    var i :| 0 <= i < |s.log| && s.log[i] == e;
    assert H.Recorded(s.log[i], s.row.generation, s.row.document);
    if s.row.envelope.Some? {
      var n := |s.log| - 1;
      assert s.log[n] in s.log && H.RowMatches(s.row, s.log);
      assert i < n ==> s.log[i].snapshot.generation < s.log[n].snapshot.generation;
    }
  }

  /**
    Exactly when a node's own request is answered, in every reachable system: Control's clock has reached the
    boundary inside the published validity, and either the node lags behind a publication already issued at or after
    a positive boundary, or the boundary is not before the published issue time and Control can sign.
  */
  lemma AnswersExactlyWhen(y0: System, es: seq<Event>, y: System, now: int, signer: P.Signer)
    requires Initial(y0) && Reach(y0, es, y) && CT.RecoveryRequest(y.node.gate).Some? && y.control.row.envelope.Some?
    ensures
      var s, g := y.control, y.node.gate;
      P.RecoverClock(s, CT.RecoveryRequest(g).value, now, signer).1.Some? <==>
        && g.recoveryAfter <= Unix(now) && s.row.issuedAt <= now < s.row.expiresAt
        && (|| (CT.Gen(g.accepted) < s.row.generation && 0 < g.recoveryAfter <= Unix(s.row.issuedAt))
            || (Unix(s.row.issuedAt) <= g.recoveryAfter && P.CanSign(s, now, signer)))
  {
    ReachableInv(y0, es, y);
    HeldIsPublished(y);
    RenewalSucceeds(y.control, now, signer);
    hide H.Inv, P.Sign, WellSigned, CT.SafeName;
  }

  /** What happens to the node between two states of a run, Control's steps left out. */
  function NodeEvents(es: seq<Event>): seq<CT.Event<Delivery>> {
    if es == [] then [] else (if es[0].NodeStep? then [es[0].event] else []) + NodeEvents(es[1..])
  }

  lemma {:induction false} NodeRuns(y: System, es: seq<Event>, z: System)
    requires Reach(y, es, z)
    ensures z.node == CT.Run(y.node, NodeEvents(es))
    decreases |es|
  {
    if es != [] {
      match es[0]
      case ControlStep(t, now, signer) =>
        assert [] + NodeEvents(es[1..]) == NodeEvents(es[1..]);
        NodeRuns(y.(control := P.Step(y.control, t, now, signer)), es[1..], z);
      case NodeStep(e) =>
        assert ([e] + NodeEvents(es[1..]))[1..] == NodeEvents(es[1..]);
        NodeRuns(y.(node := CT.Step(y.node, e)), es[1..], z);
    }
  }

  /**
    A process that accepted a publication itself and now holds gets an answer: at every time inside the published
    validity and past its boundary, whatever else Control published and the network delivered in between.
  */
  lemma HeldProcessIsAnswered(
      y0: System, es: seq<Event>, y: System, fs: seq<Event>, z: System, now: int, signer: P.Signer)
    requires Initial(y0) && Reach(y0, es, y) && CT.SeenIssued(y.node.gate)
    requires Reach(y, fs, z) && CT.SameProcess(NodeEvents(fs)) && CT.RecoveryRequest(z.node.gate).Some?
    requires z.control.row.envelope.Some? && P.CanSign(z.control, now, signer)
    requires z.node.gate.recoveryAfter <= Unix(now) && z.control.row.issuedAt <= now < z.control.row.expiresAt
    ensures P.RecoverClock(z.control, CT.RecoveryRequest(z.node.gate).value, now, signer).1.Some?
  {
    hide H.Inv, P.Sign, WellSigned, CT.SafeName, CT.Run, P.RecoverClock, P.CanSign;
    ReachConcat(y0, es, y, fs, z);
    NodeRuns(y, fs, z);
    CT.BoundaryIsNotEarly(y.node, NodeEvents(fs));
    ReachableInv(y0, es + fs, z);
    HeldIsPublished(z);
    AnswersExactlyWhen(y0, es + fs, z, now, signer);
  }

  lemma {:induction false} ReachConcat(x: System, es: seq<Event>, y: System, fs: seq<Event>, z: System)
    requires Reach(x, es, y) && Reach(y, fs, z)
    ensures Reach(x, es + fs, z)
    decreases |es|
  {
    if es == [] {
      assert es + fs == fs;
    } else {
      assert (es + fs)[1..] == es[1..] + fs && (es + fs)[0] == es[0];
      match es[0]
      case ControlStep(t, now, signer) =>
        ReachConcat(x.(control := P.Step(x.control, t, now, signer)), es[1..], y, fs, z);
      case NodeStep(e) =>
        ReachConcat(x.(node := CT.Step(x.node, e)), es[1..], y, fs, z);
    }
  }

  // ---------------------------------------------------------------- a request that is never answered

  const ISSUED: int := 1000

  const SIGNER: P.Signer := P.Signer("k", 1, "i")

  function StartSystem(): System {
    var c := ControlConfig.Config(1, 0, ControlConfig.Standard10k, "region", []);
    var trust := CT.Trust(map["k" := 1], "i", 1, (d: Delivery) => true);
    System(P.State(c, P.Row(Delivery(c, []), 0, None, 0, 0), [], map[], []), CT.Open(trust, CT.Empty))
  }

  function FirstEnvelope(): P.Envelope {
    CT.Signed(P.SnapshotFor(StartSystem().control.row.document, 1, ISSUED * MICROS_PER_SECOND, SIGNER), 1, 0)
  }

  /** Control signs, the node accepts, its process restarts, and its clock reads 5 and then 3. */
  function RestartRun(): seq<Event> {
    [ControlStep(P.TRefresh, ISSUED * MICROS_PER_SECOND, SIGNER),
     NodeStep(CT.DoApply(FirstEnvelope(), ISSUED, CT.Saved)),
     NodeStep(CT.Reopen(StartSystem().node.gate.trust)), NodeStep(CT.DoCurrent(5)), NodeStep(CT.DoCurrent(3))]
  }

  lemma RefreshSigns(s: P.State)
    requires s == StartSystem().control
    ensures Aligned(s.row.document)
    ensures
      var t := P.Refresh(s, ISSUED * MICROS_PER_SECOND, SIGNER).0;
      t.row.envelope == Some(FirstEnvelope()) && t.row.generation == 1 && t.log == [FirstEnvelope()]
      && t.row.issuedAt == ISSUED * MICROS_PER_SECOND
  {
    assert CT.SafeName("k") && CT.SafeName("i");
    assert Unix(ISSUED * MICROS_PER_SECOND + P.DAY_MICROS) == ISSUED + DAY_SECONDS;
    assert DeliveryValid(s.row.document);
  }

  lemma EnvelopeVerifies(t: CT.Trust<Delivery>)
    requires t == StartSystem().node.gate.trust
    ensures CT.Verifies(t, FirstEnvelope()) && FirstEnvelope().snapshot.issuedAt == ISSUED
    ensures ISSUED < FirstEnvelope().snapshot.expiresAt && FirstEnvelope().snapshot.generation == 1
  {
    assert CT.SafeName("k") && CT.SafeName("i");
    assert Unix(ISSUED * MICROS_PER_SECOND + P.DAY_MICROS) == ISSUED + DAY_SECONDS;
  }

  /** Why the process matters: after a restart the gate's own clock may not have seen the issue time of what it
      holds. The request it then makes is refused at every time Control could look at it. */
  lemma RestartedHoldIsNeverAnswered()
    ensures
      var y := StartSystem();
      exists z: System ::
        && Initial(y) && Reach(y, RestartRun(), z) && CT.RecoveryRequest(z.node.gate).Some?
        && !CT.SeenIssued(z.node.gate)
        && forall now: int, signer: P.Signer ::
             P.RecoverClock(z.control, CT.RecoveryRequest(z.node.gate).value, now, signer).1.None?
  {
    hide P.Refresh, CT.Verifies, FirstEnvelope, Aligned, P.RecoverClock, P.Step, CT.Step, Initial, StartSystem,
        P.Initial;
    var y, es, e := StartSystem(), RestartRun(), FirstEnvelope();
    RefreshSigns(y.control);
    var y1 := y.(control := P.Step(y.control, P.TRefresh, ISSUED * MICROS_PER_SECOND, SIGNER));
    var y2 := y1.(node := CT.Step(y1.node, es[1].event));
    var y3 := y2.(node := CT.Step(y2.node, es[2].event));
    var y4 := y3.(node := CT.Step(y3.node, es[3].event));
    var z := y4.(node := CT.Step(y4.node, es[4].event));
    RefreshIsStep(y.control);
    GateRestarts(y.node);
    assert Reach(z, es[5..], z);
    assert es[4..][1..] == es[5..] && Reach(y4, es[4..], z);
    assert es[3..][1..] == es[4..] && Reach(y3, es[3..], z);
    assert es[2..][1..] == es[3..] && Reach(y2, es[2..], z);
    assert es[1..][1..] == es[2..] && Unforged(y1, es[1].event) && Reach(y1, es[1..], z);
    assert Reach(y, es, z);
    StartIsInitial();
    EarlyIsRefused(z.control, CT.RecoveryRequest(z.node.gate).value);
  }

  lemma RefreshIsStep(s: P.State)
    requires Aligned(s.row.document)
    ensures P.Step(s, P.TRefresh, ISSUED * MICROS_PER_SECOND, SIGNER) ==
        P.Refresh(s, ISSUED * MICROS_PER_SECOND, SIGNER).0
  {
    hide P.Refresh, Aligned;
  }

  lemma StartIsInitial()
    ensures Initial(StartSystem())
  {
  }

  /** Accepted at its issue time, reopened, sampled at 5 and then at 3. */
  lemma GateRestarts(w: CT.World<Delivery>)
    requires w == StartSystem().node
    ensures
      var es := RestartRun();
      var z := CT.Step(CT.Step(CT.Step(CT.Step(w, es[1].event), es[2].event), es[3].event), es[4].event);
      CT.RecoveryRequest(z.gate) == Some(CT.ClockRecovery(1, 5, FirstEnvelope())) && !CT.SeenIssued(z.gate)
  {
    EnvelopeVerifies(w.gate.trust);
    hide CT.Verifies, FirstEnvelope;
    var es := RestartRun();
    var w1 := CT.Step(w, es[1].event);
    assert w1.disk == CT.Holds(FirstEnvelope());
  }

  lemma EarlyIsRefused(s: P.State, req: CT.ClockRecovery<Delivery>)
    requires s.row.envelope.Some? && req.generation == s.row.generation && req.notBefore < Unix(s.row.issuedAt)
    ensures forall now: int, signer: P.Signer :: P.RecoverClock(s, req, now, signer).1.None?
  {
    hide P.Sign;
  }
}
