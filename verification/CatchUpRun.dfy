/**
  A run of the control plane on which a missed tick matters: one room is published, put to DRAINING and acknowledged
  as empty. A tick at once turns it OFF; a tick a minute later finds the acknowledgements stale and leaves it DRAINING.
*/
module CatchUpRun {
  import opened Base
  import opened ControlConfig
  import opened ControlRuntime
  import opened Publication
  import CT = ConfigTrust
  import H = PublicationHistory

  const NOW: int := 1000 * MICROS_PER_SECOND

  const LATER: int := NOW + 60 * MICROS_PER_SECOND

  const SIGNER: Signer := Signer("k", 1, "i")

  function TheRoom(): Room {
    Room("room", "public", "host", "https://origin", ["/shop"], [], QueuePolicy(true, 60, 600, 1), Limits(1, 1, 60),
        true, Rest("", true))
  }

  function Draft(revision: int): Config {
    Config(1, revision, Standard10k, "region", [TheRoom()])
  }

  function Start(): State {
    var c := Config(1, 0, Standard10k, "region", []);
    State(c, Row(Delivery(c, []), 0, None, 0, 0), [], map[], [])
  }

  function Document(revision: int, mode: Mode): Delivery {
    Delivery(Draft(1), [RoomRuntime("room", Runtime(revision, mode, Limits(1, 1, 60), 1, NoEvent, 0))])
  }

  lemma DraftIsValid(revision: int)
    requires 0 <= revision < COUNTER_CEILING
    ensures ConfigValid(Draft(revision))
  {
    var p := "/shop";
    assert ValidPath(p) && !ReservedPath(p) by {
      assert forall i | 0 <= i < |p| :: PathChar(p[i]);
      assert p[1..] == "shop";
    }
    assert PrefixListValid([p]);
  }

  lemma DocumentIsValid(revision: int, mode: Mode)
    requires 1 <= revision < COUNTER_CEILING
    ensures DeliveryValid(Document(revision, mode))
  {
    DraftIsValid(1);
  }

  function Signature(d: Delivery, generation: nat): Envelope {
    CT.Signed(SnapshotFor(d, generation, NOW, SIGNER), SIGNER.key, 0)
  }

  /** The state after `generation` signatures, the last one of `d`. */
  function Published(d: Delivery, generation: nat, nodes: map<NodeId, NodeRow>, log: seq<Envelope>): State {
    State(Draft(1), Row(d, generation, Some(Signature(d, generation)), NOW, NOW + DAY_MICROS), [], nodes, log)
  }

  lemma Signs(s: State, d: Delivery)
    requires DeliveryValid(d) && s.row.generation < 10 && s.draft == Draft(1) && s.events == [] && d.config == Draft(1)
    ensures Sign(s, d, NOW, SIGNER) ==
            Some(Published(d, s.row.generation + 1, s.nodes, s.log + [Signature(d, s.row.generation + 1)]))
  {
    hide DeliveryValid;
    assert CT.SafeName("k") && CT.SafeName("i");
    assert Unix(NOW + DAY_MICROS) == Unix(NOW) + DAY_SECONDS;
  }

  function DrainingDocument(): Delivery { Document(2, Draining) }

  function Log(): seq<Envelope> { [Signature(Document(1, Hold), 1), Signature(DrainingDocument(), 2)] }

  function Evidence(): seq<Metric> { [Metric("room", 2, 1, Draining, 0, 0, true, true, 0, 0, true)] }

  /** The room drained, both nodes having just acknowledged it as empty and calm. */
  function Acknowledged(): State {
    var row := NodeRow(2, NOW, Evidence());
    Published(DrainingDocument(), 2, map[GatewayNode := row, CoordinatorNode := row], Log())
  }

  lemma PublishesRoom(s: State)
    requires s == Start().(draft := Draft(1))
    ensures Aligned(s.row.document) && Publish(s, 1, NOW, SIGNER).0 ==
        Published(Document(1, Hold), 1, map[], Log()[..1])
  {
    DocumentIsValid(1, Hold);
    Signs(s, Document(1, Hold));
    hide DeliveryValid, Sign;
    assert RemovalConflict([], s.draft.rooms) == None;
    var d := PublishedDelivery(s.row.document, s.draft);
    assert d.runtimes == Document(1, Hold).runtimes;
  }

  lemma OrdersDrain(s: State)
    requires s == Published(Document(1, Hold), 1, map[], Log()[..1])
    ensures Aligned(s.row.document)
    ensures Operate(s, "room", 1, Command(SafeDrain, None, NoScope, None), NOW, SIGNER).0 ==
        Published(DrainingDocument(), 2, map[], Log())
  {
    DocumentIsValid(1, Hold);
    DocumentIsValid(2, Draining);
    Signs(s, DrainingDocument());
    hide DeliveryValid, Sign;
    assert Find(s.row.document.config.rooms, "room") == 0;
    assert PauseEvents([], Some("room")) == [];
    assert WithRuntime(s.row.document, 0, DrainingDocument().runtimes[0].runtime) == DrainingDocument();
    assert Log()[..1] + [Log()[1]] == Log();
  }

  lemma NodeAcknowledges(s: State, nodes: map<NodeId, NodeRow>, node: NodeId)
    requires s == Published(DrainingDocument(), 2, nodes, Log()) && node !in nodes
    ensures Acknowledge(s, node, 2, Signature(DrainingDocument(), 2), Evidence(), true, NOW).0
            == Published(DrainingDocument(), 2, nodes[node := NodeRow(2, NOW, Evidence())], Log())
  {
  }

  function Run(): seq<(Transaction, int, Signer)> {
    var ack := (n: NodeId) => (TAcknowledge(n, 2, Signature(DrainingDocument(), 2), Evidence(), true), NOW, SIGNER);
    [(TReplaceDraft(Draft(0), 0, true), NOW, SIGNER), (TPublish(1), NOW, SIGNER),
     (TOperate("room", 1, Command(SafeDrain, None, NoScope, None)), NOW, SIGNER), ack(GatewayNode),
         ack(CoordinatorNode)]
  }

  lemma SavesDraft()
    ensures Initial(Start()) && Aligned(Start().row.document)
    ensures ReplaceDraft(Start(), Draft(0), 0, true).0 == Start().(draft := Draft(1))
  {
    DraftIsValid(0);
    hide ConfigValid;
  }

  lemma ReachesAcknowledged()
    ensures Initial(Start()) && H.Reach(Start(), Run(), Acknowledged())
  {
    hide Initial, ConfigValid, Aligned, Publish, Operate, Acknowledge, ReplaceDraft, Document, Signature;
    var ts := Run();
    var s0 := Start();
    SavesDraft();
    var s1 := s0.(draft := Draft(1));
    PublishesRoom(s1);
    var s2 := Published(Document(1, Hold), 1, map[], Log()[..1]);
    OrdersDrain(s2);
    var s3 := Published(DrainingDocument(), 2, map[], Log());
    NodeAcknowledges(s3, map[], GatewayNode);
    var row := NodeRow(2, NOW, Evidence());
    var s4 := Published(DrainingDocument(), 2, map[GatewayNode := row], Log());
    NodeAcknowledges(s4, map[GatewayNode := row], CoordinatorNode);
    AlignedAll();
    var s5 := Acknowledged();
    assert H.Reach(s5, ts[5..], s5);
    assert ts[4..][1..] == ts[5..] && H.Reach(s4, ts[4..], s5);
    assert ts[3..][1..] == ts[4..] && H.Reach(s3, ts[3..], s5);
    assert ts[2..][1..] == ts[3..] && H.Reach(s2, ts[2..], s5);
    assert H.Reach(s1, ts[1..], s5);
  }

  lemma AlignedAll()
    ensures Aligned(Document(1, Hold)) && Aligned(DrainingDocument()) && Aligned(Document(3, Off))
  {
    DocumentIsValid(1, Hold);
    DocumentIsValid(2, Draining);
    DocumentIsValid(3, Off);
  }

  /** With the evidence fresh, the room goes OFF. */
  lemma DrainsNow()
    ensures Aligned(Acknowledged().row.document)
    ensures TickedRuntime(Acknowledged(), 0, NOW) == Document(3, Off).runtimes[0].runtime
  {
    AlignedAll();
    hide Aligned, Signature;
    var s := Acknowledged();
    assert FirstLive([], "room") == 0;
    assert LastVerdict(Evidence(), "room", DrainingDocument().runtimes[0].runtime, true);
    assert LastVerdict(Evidence(), "room", DrainingDocument().runtimes[0].runtime, false);
  }

  lemma TickSigns()
    ensures Aligned(Acknowledged().row.document) && Tick(Acknowledged(), NOW, SIGNER).1 == Accepted
    ensures Tick(Acknowledged(), NOW, SIGNER).0 ==
        Published(Document(3, Off), 3, Acknowledged().nodes, Log() + [Signature(Document(3, Off), 3)])
  {
    DrainsNow();
    DocumentIsValid(3, Off);
    var s := Acknowledged();
    Signs(s, Document(3, Off));
    hide DeliveryValid, Sign, Aligned, TickedRuntime, Signature;
    assert TickedDelivery(s, NOW).runtimes == Document(3, Off).runtimes;
    assert TickedEvents(s, NOW) == [];
  }

  /** A minute later the evidence is stale and a room in DRAINING stays so; a room already OFF stays OFF. */
  lemma NothingDrainsLater(s: State, d: Delivery)
    requires s.row.document == d && (d == DrainingDocument() || d == Document(3, Off)) && s.events == []
    requires s.nodes == Acknowledged().nodes
    ensures Aligned(d) && TickedRuntime(s, 0, LATER).mode == d.runtimes[0].runtime.mode
  {
    AlignedAll();
    hide Aligned, LastVerdict, Signature;
    assert FirstLive([], "room") == 0;
    assert s.nodes[GatewayNode].observedAt == NOW && !Applied(s, LATER);
  }

  /**
    A missed tick matters on a reachable state: ticking now and a minute later turns the room OFF, ticking only then
    leaves it DRAINING.
  */
  lemma MissedTickMatters()
    ensures
      var s := Acknowledged();
      && Initial(Start()) && H.Reach(Start(), Run(), s) && Aligned(s.row.document)
      && Tick(s, NOW, SIGNER).1 == Accepted
      && (var s1 := Tick(s, NOW, SIGNER).0;
          && Aligned(s1.row.document) && |s1.row.document.runtimes| == 1
          && TickedRuntime(s1, 0, LATER).mode == Off && TickedRuntime(s, 0, LATER).mode == Draining)
  {
    hide Aligned, Tick, TickedRuntime, Initial, H.Reach, Signature, Run;
    ReachesAcknowledged();
    TickSigns();
    NothingDrainsLater(Acknowledged(), DrainingDocument());
    NothingDrainsLater(Tick(Acknowledged(), NOW, SIGNER).0, Document(3, Off));
  }
}
