/** What every run of Control's transactions keeps: the publication history, the row and the node rows. */
module PublicationHistory {
  import opened Base
  import opened ControlConfig
  import opened ControlRuntime
  import opened Publication
  import CT = ConfigTrust

  // ---------------------------------------------------------------- how documents may follow each other

  predicate RuntimeAdvances(a: Runtime, b: Runtime) {
    a.revision <= b.revision && a.epoch <= b.epoch && (a.revision == b.revision ==> a == b)
  }

  /** Every room of d stays in e under the same public id, and its runtime only advances. */
  predicate Extends(d: Delivery, e: Delivery) {
    && |d.runtimes| == |d.config.rooms| && |e.runtimes| == |e.config.rooms| && d.config.revision <= e.config.revision
    && forall i | 0 <= i < |d.config.rooms| ::
         var j := Find(e.config.rooms, d.config.rooms[i].id);
         && j < |e.config.rooms| && e.config.rooms[j].publicId == d.config.rooms[i].publicId
         && RuntimeAdvances(d.runtimes[i].runtime, e.runtimes[j].runtime)
  }

  /** All rooms are in one installation epoch. */
  predicate Uniform(d: Delivery) {
    forall i, j | 0 <= i < |d.runtimes| && 0 <= j < |d.runtimes| ::
        d.runtimes[i].runtime.epoch == d.runtimes[j].runtime.epoch
  }

  lemma ExtendsTransitive(a: Delivery, b: Delivery, c: Delivery)
    requires Extends(a, b) && Extends(b, c)
    ensures Extends(a, c)
  {
    forall i | 0 <= i < |a.config.rooms|
      ensures
        var j := Find(c.config.rooms, a.config.rooms[i].id);
        && j < |c.config.rooms| && c.config.rooms[j].publicId == a.config.rooms[i].publicId
        && RuntimeAdvances(a.runtimes[i].runtime, c.runtimes[j].runtime)
    {
      var k := Find(b.config.rooms, a.config.rooms[i].id);
      assert b.config.rooms[k].id == a.config.rooms[i].id;
    }
  }

  /** Same rooms in the same places: only the runtimes need comparing. */
  lemma SameRoomsExtend(d: Delivery, e: Delivery)
    requires e.config.rooms == d.config.rooms && DistinctRooms(d.config.rooms) && d.config.revision <= e.config.revision
    requires |d.runtimes| == |e.runtimes| == |d.config.rooms|
    requires forall i | 0 <= i < |d.runtimes| :: RuntimeAdvances(d.runtimes[i].runtime, e.runtimes[i].runtime)
    ensures Extends(d, e)
  {
    forall i | 0 <= i < |d.config.rooms|
      ensures Find(e.config.rooms, d.config.rooms[i].id) == i
    {
      FindUnique(d.config.rooms, i);
    }
  }

  lemma {:induction false} NoRemoval(published: seq<Room>, draft: seq<Room>)
    requires RemovalConflict(published, draft).None?
    ensures forall i | 0 <= i < |published| ::
              var j := Find(draft, published[i].id); j < |draft| && draft[j].publicId == published[i].publicId
  {
    if published != [] {
      NoRemoval(published[1..], draft);
      forall i | 0 <= i < |published|
        ensures var j := Find(draft, published[i].id); j < |draft| && draft[j].publicId == published[i].publicId
      {
        if i > 0 {
          assert published[i] == published[1..][i - 1];
        }
      }
    }
  }

  lemma PublishExtends(d: Delivery, draft: Config)
    requires DeliveryValid(d) && Uniform(d) && d.config.revision <= draft.revision
    requires RemovalConflict(d.config.rooms, draft.rooms).None?
    ensures Extends(d, PublishedDelivery(d, draft)) && Uniform(PublishedDelivery(d, draft))
  {
    hide ConfigValid, RuntimeValid, RemovalConflict;
    var e := PublishedDelivery(d, draft);
    NoRemoval(d.config.rooms, draft.rooms);
    assert DistinctRooms(d.config.rooms) by {
      ConfigRoomsDistinct(d.config);
    }
    forall i | 0 <= i < |d.config.rooms|
      ensures RuntimeAdvances(d.runtimes[i].runtime, e.runtimes[Find(draft.rooms, d.config.rooms[i].id)].runtime)
    {
      FindUnique(d.config.rooms, i);
    }
    forall i | 0 <= i < |e.runtimes|
      ensures e.runtimes[i].runtime.epoch == if |d.runtimes| > 0 then d.runtimes[0].runtime.epoch else 1
    {
    }
  }

  lemma ConfigRoomsDistinct(c: Config)
    requires ConfigValid(c)
    ensures DistinctRooms(c.rooms)
  {
  }

  lemma EpochExtends(d: Delivery, until: int)
    requires DeliveryValid(d) && Uniform(d)
    ensures Extends(d, EpochDelivery(d, until)) && Uniform(EpochDelivery(d, until))
  {
    hide ConfigValid;
    ConfigRoomsDistinct(d.config);
    SameRoomsExtend(d, EpochDelivery(d, until));
  }

  lemma OneRoomExtends(d: Delivery, i: nat, r: Runtime)
    requires DeliveryValid(d) && Uniform(d) && i < |d.runtimes|
    requires r.revision == d.runtimes[i].runtime.revision + 1 && r.epoch == d.runtimes[i].runtime.epoch
    ensures Extends(d, WithRuntime(d, i, r)) && Uniform(WithRuntime(d, i, r))
  {
    hide ConfigValid;
    ConfigRoomsDistinct(d.config);
    SameRoomsExtend(d, WithRuntime(d, i, r));
  }

  lemma TickExtends(s: State, now: int)
    requires DeliveryValid(s.row.document) && Uniform(s.row.document)
    ensures Extends(s.row.document, TickedDelivery(s, now)) && Uniform(TickedDelivery(s, now))
  {
    hide ConfigValid, TickedView;
    ConfigRoomsDistinct(s.row.document.config);
    SameRoomsExtend(s.row.document, TickedDelivery(s, now));
  }

  // ---------------------------------------------------------------- the invariant

  predicate DocumentInv(s: State) {
    && ConfigValid(s.draft) && DeliveryValid(s.row.document) && Uniform(s.row.document)
    && s.row.document.config.revision <= s.draft.revision
    && (s.draft.revision == 0 ==> s.draft.rooms == [] && s.row.document.config.rooms == [])
  }

  /** A signed envelope that any later document of this installation extends. */
  predicate Recorded(e: Envelope, generation: nat, d: Delivery) {
    && e.Signed? && e.snapshot.generation <= generation && e.snapshot.revision == e.snapshot.payload.config.revision
    && Uniform(e.snapshot.payload) && Extends(e.snapshot.payload, d)
  }

  predicate InOrder(log: seq<Envelope>) {
    && (forall i | 0 <= i < |log| :: log[i].Signed?)
    && forall i, j | 0 <= i < j < |log| ::
         log[i].snapshot.generation < log[j].snapshot.generation
             && Extends(log[i].snapshot.payload, log[j].snapshot.payload)
  }

  predicate RowMatches(row: Row, log: seq<Envelope>) {
    row.envelope.Some? ==>
      && |log| > 0 && row.envelope.value == log[|log| - 1] && row.envelope.value.Signed?
      && (var e := row.envelope.value.snapshot;
          e.generation == row.generation && e.payload == row.document
          && e.issuedAt == Unix(row.issuedAt) && e.expiresAt == Unix(row.expiresAt))
  }

  predicate LogInv(s: State) {
    && (forall i | 0 <= i < |s.log| :: Recorded(s.log[i], s.row.generation, s.row.document))
    && InOrder(s.log) && RowMatches(s.row, s.log)
  }

  /** A node row at the current generation was checked against the current document. */
  predicate NodeInv(s: State) {
    forall n | n in s.nodes ::
      && s.nodes[n].generation <= s.row.generation
      && (s.nodes[n].generation == s.row.generation ==> MetricsMatch(s.nodes[n].metrics, s.row.document))
  }

  predicate Inv(s: State) {
    DocumentInv(s) && LogInv(s) && NodeInv(s)
  }

  lemma RecordedExtends(e: Envelope, g: nat, d: Delivery, g': nat, d': Delivery)
    requires Recorded(e, g, d) && g <= g' && Extends(d, d')
    ensures Recorded(e, g', d')
  {
    ExtendsTransitive(e.snapshot.payload, d, d');
  }

  lemma ExtendsSelf(d: Delivery)
    requires DeliveryValid(d)
    ensures Extends(d, d)
  {
    hide ConfigValid;
    ConfigRoomsDistinct(d.config);
    SameRoomsExtend(d, d);
  }

  /** Signing a document that extends the published one keeps the invariant; s0 may differ in its events. */
  lemma SignKeepsInv(s: State, s0: State, d: Delivery, now: int, signer: Signer)
    requires Inv(s) && s0 == s.(events := s0.events)
    requires Extends(s.row.document, d) && Uniform(d) && d.config.revision <= s.draft.revision
    requires s.draft.revision == 0 ==> d.config.rooms == []
    ensures Sign(s0, d, now, signer).Some? ==> Inv(Sign(s0, d, now, signer).value)
  {
    var r := Sign(s0, d, now, signer);
    if r.Some? {
      var t := r.value;
      assert 0 <= d.config.revision by {
        assert ConfigValid(d.config);
      }
      assert DocumentInv(t);
      hide ConfigValid, Aligned, DeliveryValid, CT.Structural;
      ExtendsSelf(d);
      SignKeepsLog(s, t, d);
    }
  }

  lemma SignKeepsLog(s: State, t: State, d: Delivery)
    requires LogInv(s) && Extends(s.row.document, d) && Extends(d, d) && Uniform(d)
    requires |t.log| == |s.log| + 1 && t.log[..|s.log|] == s.log && t.row.document == d
        && t.row.generation == s.row.generation + 1
    requires
      var e := t.log[|s.log|];
      && e.Signed? && e.snapshot.generation == t.row.generation && e.snapshot.payload == d
      && e.snapshot.revision == d.config.revision
      && t.row.envelope == Some(e) && e.snapshot.issuedAt == Unix(t.row.issuedAt)
      && e.snapshot.expiresAt == Unix(t.row.expiresAt)
    ensures LogInv(t)
  {
    hide Extends, Uniform;
    forall i | 0 <= i < |t.log|
      ensures Recorded(t.log[i], t.row.generation, d)
      ensures i < |s.log| ==> t.log[i].snapshot.generation <= s.row.generation
    {
      if i < |s.log| {
        assert t.log[i] == s.log[i];
        RecordedExtends(s.log[i], s.row.generation, s.row.document, t.row.generation, d);
      }
    }
    forall i, j | 0 <= i < j < |t.log|
      ensures t.log[i].snapshot.generation < t.log[j].snapshot.generation
          && Extends(t.log[i].snapshot.payload, t.log[j].snapshot.payload)
    {
      assert t.log[i] == s.log[i];
      if j < |s.log| {
        assert t.log[j] == s.log[j];
      }
    }
  }

  lemma InvNotes(s: State)
    requires Inv(s)
    ensures DeliveryValid(s.row.document) && Uniform(s.row.document) && Aligned(s.row.document)
    ensures |s.row.document.runtimes| == |s.row.document.config.rooms|
    ensures s.row.document.config.revision <= s.draft.revision
    ensures s.draft.revision == 0 ==> s.draft.rooms == [] && s.row.document.config.rooms == []
  {
  }

  lemma EventsDoNotMatter(s: State, events: seq<Event>)
    requires Inv(s)
    ensures Inv(s.(events := events))
  {
  }

  lemma DraftKeepsInv(s: State, t: Transaction, now: int, signer: Signer)
    requires Inv(s) && (t.TReplaceDraft? || t.TSetup?)
    ensures Inv(Step(s, t, now, signer))
  {
    hide ValidPath, RoomValid, Overlap;
    if t.TSetup? && Step(s, t, now, signer) != s {
      var s' := Step(s, t, now, signer);
      SameRoomsExtend(s.row.document, s'.row.document);
      forall i | 0 <= i < |s.log|
        ensures Recorded(s.log[i], s'.row.generation, s'.row.document)
      {
        RecordedExtends(s.log[i], s.row.generation, s.row.document, s'.row.generation, s'.row.document);
      }
    }
  }

  lemma PublishKeepsInv(s: State, ifMatch: int, now: int, signer: Signer)
    requires Inv(s)
    ensures Inv(Publish(s, ifMatch, now, signer).0)
  {
    InvNotes(s);
    hide Inv, NeedsDrain, Sign, PublishedRuntime, Extends, Uniform;
    var d := PublishedDelivery(s.row.document, s.draft);
    if RemovalConflict(s.row.document.config.rooms, s.draft.rooms).None? {
      PublishExtends(s.row.document, s.draft);
      SignKeepsInv(s, s, d, now, signer);
    }
  }

  lemma EpochSigned(s: State, events: seq<Event>, until: int, now: int, signer: Signer)
    requires Inv(s)
    ensures |s.row.document.runtimes| == |s.row.document.config.rooms|
    ensures Inv(SignOr(s.(events := events), EpochDelivery(s.row.document, until), now, signer, Failed, s).0)
  {
    InvNotes(s);
    hide Inv, Sign, Extends, Uniform, EpochDelivery;
    EpochExtends(s.row.document, until);
    EpochConfig(s.row.document, until);
    SignKeepsInv(s, s.(events := events), EpochDelivery(s.row.document, until), now, signer);
  }

  /** Replacing one runtime by its next revision and signing, together with any change of events. */
  lemma OneRoomSigned(s: State, events: seq<Event>, i: nat, r: Runtime, now: int, signer: Signer)
    requires Inv(s) && i < |s.row.document.runtimes|
    requires r.revision == s.row.document.runtimes[i].runtime.revision + 1
        && r.epoch == s.row.document.runtimes[i].runtime.epoch
    ensures Inv(SignOr(s.(events := events), WithRuntime(s.row.document, i, r), now, signer, Failed, s).0)
  {
    InvNotes(s);
    hide Inv, Sign, Extends, Uniform;
    OneRoomExtends(s.row.document, i, r);
    SignKeepsInv(s, s.(events := events), WithRuntime(s.row.document, i, r), now, signer);
  }

  lemma OrdinaryKeepsInv(s: State, i: nat, c: Command, now: int, signer: Signer)
    requires Inv(s) && i < |s.row.document.runtimes|
    ensures Aligned(s.row.document) && Inv(OrdinaryStep(s, i, c, now, signer).0)
  {
    InvNotes(s);
    hide Inv, SignOr, PauseEvents, ConfigValid, RuntimeValid;
    var runtime := s.row.document.runtimes[i].runtime;
    var next := Operated(runtime, c, s.draft.profile);
    if next.Some? {
      var roomId := s.row.document.config.rooms[i].id;
      var r := OperatedRuntime(s, roomId, runtime, next.value);
      assert r.epoch == runtime.epoch && r.revision == runtime.revision + 1;
      OneRoomSigned(s, PauseEvents(s.events, Some(roomId)), i, r, now, signer);
    }
  }

  lemma OperateKeepsInv(s: State, roomId: string, ifMatch: int, c: Command, now: int, signer: Signer)
    requires Inv(s)
    ensures Aligned(s.row.document) && Inv(Operate(s, roomId, ifMatch, c, now, signer).0)
  {
    InvNotes(s);
    hide Inv, DeliveryValid, Aligned, Uniform, OrdinaryStep, NewEpochStep;
    var i := Find(s.row.document.config.rooms, roomId);
    if i < |s.row.document.config.rooms| {
      NewEpochKeepsInv(s, i, c, now, signer);
      OrdinaryKeepsInv(s, i, c, now, signer);
    }
  }

  lemma NewEpochKeepsInv(s: State, i: nat, c: Command, now: int, signer: Signer)
    requires Inv(s) && i < |s.row.document.runtimes|
    ensures Aligned(s.row.document) && Inv(NewEpochStep(s, i, c, now, signer).0)
  {
    InvNotes(s);
    hide Inv, SignOr, EpochDelivery, PauseEvents, DeliveryValid, Aligned, Uniform;
    EpochSigned(s, PauseEvents(s.events, None), (now + 3630 * MICROS_PER_SECOND) / 1000, now, signer);
  }

  lemma EpochConfig(d: Delivery, until: int)
    requires |d.runtimes| == |d.config.rooms|
    ensures EpochDelivery(d, until).config == d.config
  {
  }

  /** An event change either leaves the state alone or signs one room's runtime at its next revision. */
  lemma ChangeEventShape(s: State, room: string, eventId: Option<nat>, verb: Verb, ifMatch: int, newId: nat, now: int,
      signer: Signer)
    returns (changed: bool, events: seq<Event>, i: nat, r: Runtime)
    requires Aligned(s.row.document)
    ensures changed ==>
              && i < |s.row.document.runtimes| && r.revision == s.row.document.runtimes[i].runtime.revision + 1
              && r.epoch == s.row.document.runtimes[i].runtime.epoch
    ensures ChangeEvent(s, room, eventId, verb, ifMatch, newId, now, signer).0 ==
            if changed then SignOr(s.(events := events), WithRuntime(s.row.document, i, r), now, signer, Failed, s).0
                else s
  {
    hide SignOr, NextEvent, Upsert, MarkFor, RuntimeValid, WithRuntime;
    var d := s.row.document;
    var at := if eventId.Some? then IndexOfId(s.events, eventId.value) else 0;
    changed, events, i, r := false, s.events, 0, Runtime(0, Off, Limits(0, 0, 0), 0, NoEvent, 0);
    if verb.Create? == eventId.None? && (eventId.None? || at < |s.events|) {
      var current := if eventId.Some? then Some(s.events[at]) else None;
      var roomId := if current.Some? then current.value.roomId else room;
      i := Find(d.config.rooms, roomId);
      if i < |d.config.rooms| && ifMatch == d.runtimes[i].runtime.revision {
        var next := NextEvent(s, roomId, d.config.rooms[i].active, current, verb, newId, now).0;
        if next.Some? && !(current.None? && IndexOfId(s.events, newId) < |s.events|) {
          changed, events, r := true, Upsert(s.events, next.value), d.runtimes[i].runtime;
          r := r.(revision := r.revision + 1, eventState := MarkFor(events, roomId, NoEvent));
        }
      }
    }
  }

  lemma ChangeEventKeepsInv(s: State, room: string, eventId: Option<nat>, verb: Verb, ifMatch: int, newId: nat,
      now: int, signer: Signer)
    requires Inv(s)
    ensures Aligned(s.row.document) && Inv(ChangeEvent(s, room, eventId, verb, ifMatch, newId, now, signer).0)
  {
    InvNotes(s);
    hide Inv, ChangeEvent, SignOr, DeliveryValid, Aligned, Uniform, WithRuntime;
    var changed, events, i, r := ChangeEventShape(s, room, eventId, verb, ifMatch, newId, now, signer);
    if changed {
      OneRoomSigned(s, events, i, r, now, signer);
    }
  }

  lemma TickKeepsInv(s: State, now: int, signer: Signer)
    requires Inv(s)
    ensures Inv(Tick(s, now, signer).0)
  {
    InvNotes(s);
    hide Inv, Sign, Extends, Uniform, TickedEvents, TickedRuntime;
    TickExtends(s, now);
    EventsDoNotMatter(s, TickedEvents(s, now));
    SignKeepsInv(s, s.(events := TickedEvents(s, now)), TickedDelivery(s, now), now, signer);
  }

  lemma RenewalKeepsInv(s: State, t: Transaction, now: int, signer: Signer)
    requires Inv(s) && (t.TRefresh? || t.TRecoverClock?) && Aligned(s.row.document)
    ensures Inv(Step(s, t, now, signer))
  {
    InvNotes(s);
    hide Inv, Sign, Extends, Uniform;
    ExtendsSelf(s.row.document);
    SignKeepsInv(s, s, s.row.document, now, signer);
  }

  lemma AcknowledgeKeepsInv(s: State, node: NodeId, generation: int, digest: Envelope, metrics: seq<Metric>,
      keysMatch: bool, now: int)
    requires Inv(s)
    ensures Inv(Acknowledge(s, node, generation, digest, metrics, keysMatch, now).0)
  {
    hide ConfigValid, Aligned, Extends, Uniform, MetricsMatch, InOrder;
  }

  lemma StepKeepsInv(s: State, t: Transaction, now: int, signer: Signer)
    requires Inv(s)
    ensures Aligned(s.row.document) && Inv(Step(s, t, now, signer))
  {
    InvNotes(s);
    hide Inv, Publish, Operate, ChangeEvent, Tick, Refresh, RecoverClock, Acknowledge;
    match t
    case TReplaceDraft(_, _, _) => DraftKeepsInv(s, t, now, signer);
    case TSetup(_, _) => DraftKeepsInv(s, t, now, signer);
    case TPublish(ifMatch) => PublishKeepsInv(s, ifMatch, now, signer);
    case TOperate(roomId, ifMatch, command) => OperateKeepsInv(s, roomId, ifMatch, command, now, signer);
    case TChangeEvent(room, eventId, verb, ifMatch, newId) =>
        ChangeEventKeepsInv(s, room, eventId, verb, ifMatch, newId, now, signer);
    case TTick => TickKeepsInv(s, now, signer);
    case TRefresh => RenewalKeepsInv(s, t, now, signer);
    case TRecoverClock(_) => RenewalKeepsInv(s, t, now, signer);
    case TAcknowledge(node, generation, digest, metrics, keysMatch) =>
      AcknowledgeKeepsInv(s, node, generation, digest, metrics, keysMatch, now);
  }

  // ---------------------------------------------------------------- whole runs

  /** s leads to t through committed transactions at any clock readings and with any signing keys. */
  ghost predicate Reach(s: State, ts: seq<(Transaction, int, Signer)>, t: State)
    decreases |ts|
  {
    if ts == [] then t == s
    else Aligned(s.row.document) && Reach(Step(s, ts[0].0, ts[0].1, ts[0].2), ts[1..], t)
  }

  lemma InitialInv(s: State)
    requires Initial(s)
    ensures Inv(s)
  {
  }

  lemma {:induction false} ReachKeepsInv(s: State, ts: seq<(Transaction, int, Signer)>, t: State)
    requires Inv(s) && Reach(s, ts, t)
    ensures Inv(t)
    decreases |ts|
  {
    hide Inv, Step;
    if ts != [] {
      StepKeepsInv(s, ts[0].0, ts[0].1, ts[0].2);
      ReachKeepsInv(Step(s, ts[0].0, ts[0].1, ts[0].2), ts[1..], t);
    }
  }

  /** Publication history: all rooms of every publication of any run share one epoch, and between any two the
      generation strictly increases, the configuration revision does not decrease, no room vanishes or changes its
      public id, each room's runtime revision and epoch do not decrease, and equal runtime revisions mean equal
      runtimes. */
  lemma PublicationHistoryTheorem(s: State, ts: seq<(Transaction, int, Signer)>, t: State, i: nat, j: nat)
    requires Initial(s) && Reach(s, ts, t) && i <= j < |t.log|
    ensures t.log[i].Signed? && t.log[j].Signed?
    ensures
      var a, b := t.log[i].snapshot, t.log[j].snapshot;
      && Uniform(a.payload) && Uniform(b.payload)
      && (i < j ==> a.generation < b.generation && a.revision <= b.revision && Extends(a.payload, b.payload))
  {
    InitialInv(s);
    ReachKeepsInv(s, ts, t);
    assert Recorded(t.log[i], t.row.generation, t.row.document) && Recorded(t.log[j], t.row.generation, t.row.document);
  }

  /** A gate that has accepted one publication of a run never reports rollback for that or a later one. */
  lemma HistoryNeverRollsBack(s: State, ts: seq<(Transaction, int, Signer)>, t: State, g: CT.GateState<Delivery>,
      i: nat, j: nat, n: int)
    requires Initial(s) && Reach(s, ts, t) && i <= j < |t.log|
    requires g.accepted == None || g.accepted == Some(t.log[i])
    ensures CT.Verdict(g, t.log[j], n).0 != CT.Rollback
  {
    InitialInv(s);
    ReachKeepsInv(s, ts, t);
    forall k, m | 0 <= k < m < |t.log|
      ensures t.log[k].snapshot.generation < t.log[m].snapshot.generation
          && t.log[k].snapshot.revision <= t.log[m].snapshot.revision
    {
      PublicationHistoryTheorem(s, ts, t, k, m);
    }
    assert CT.IssuedInOrder(t.log);
    CT.InOrderNeverRollsBack(g, t.log, i, j, n);
  }

  /** Every later publication of a run reaches an open gate: delivered within its validity to a gate that holds an
      earlier one, or none, and past the boundary of a hold, it is saved and served at once. */
  lemma HistoryIsAccepted(s: State, ts: seq<(Transaction, int, Signer)>, t: State, w: CT.World<Delivery>, i: nat,
      j: nat,
      n: int)
    requires Initial(s) && Reach(s, ts, t) && j < |t.log| && CT.Coherent(w) && !w.gate.failed
    requires w.gate.accepted == None || (i < j && w.gate.accepted == Some(t.log[i]))
    requires CT.Verifies(w.gate.trust, t.log[j]) && w.gate.lastClock <= n
    requires t.log[j].snapshot.issuedAt <= n < t.log[j].snapshot.expiresAt
    requires w.gate.clockHold ==> t.log[j].snapshot.issuedAt >= w.gate.recoveryAfter
    ensures
      var (w', err) := CT.Apply(w, t.log[j], n, CT.Saved);
      err == CT.Ok && w'.disk == CT.Holds(t.log[j]) && CT.Serves(w'.gate, n) == Some(t.log[j].snapshot)
  {
    if w.gate.accepted.Some? {
      PublicationHistoryTheorem(s, ts, t, i, j);
    }
    CT.AppliesExactlyWhen(w, t.log[j], n);
  }
}
