/**
  The imperative form of Control's publication service: one object holds the rows, and each method is one
  committed transaction. Every method is proved equal to the specification function of module Publication,
  so the theorems about runs are theorems about these methods.
*/
module PublicationService {
  import opened Base
  import opened ControlConfig
  import opened ControlRuntime
  import P = Publication
  import CT = ConfigTrust

  class Service {
    var draft: Config
    var document: Delivery
    var generation: nat
    var envelope: Option<P.Envelope>
    var issuedAt: int
    var expiresAt: int
    var events: seq<Event>
    var nodes: map<P.NodeId, P.NodeRow>
    ghost var log: seq<P.Envelope>

    ghost function Abs(): P.State
      reads this
    {
      P.State(draft, P.Row(document, generation, envelope, issuedAt, expiresAt), events, nodes, log)
    }

    /** sign, together with the event rows written earlier in the same transaction. */
    method CommitSigned(d: Delivery, newEvents: seq<Event>, now: int, signer: P.Signer) returns (ok: bool)
      modifies this
      ensures
        var r := P.Sign(old(Abs()).(events := newEvents), d, now, signer);
        ok == r.Some? && Abs() == if ok then r.value else old(Abs())
    {
      hide DeliveryValid, CT.Structural;
      var snapshot := P.SnapshotFor(d, generation + 1, now, signer);
      if !DeliveryValid(d) || !CT.Structural(snapshot) || generation + 1 >= COUNTER_CEILING {
        return false;
      }
      var e := CT.Signed(snapshot, signer.key, 0);
      document, generation, envelope, issuedAt, expiresAt := d, generation + 1, Some(e), now, now + P.DAY_MICROS;
      events := newEvents;
      log := log + [e];
      return true;
    }

    /** The first two loops of Publish: no published room may vanish or change its public id. */
    method RemovalCheck(published: seq<Room>, rooms: seq<Room>) returns (code: Option<P.Code>)
      requires DistinctRooms(rooms)
      ensures code == P.RemovalConflict(published, rooms)
    {
      var rest := published;
      while rest != []
        invariant P.RemovalConflict(published, rooms) == P.RemovalConflict(rest, rooms)
        decreases |rest|
      {
        var was := rest[0];
        var found := false;
        for i := 0 to |rooms|
          invariant found ==> Find(rooms, was.id) < i && rooms[Find(rooms, was.id)].publicId == was.publicId
          invariant !found ==> forall k | 0 <= k < i :: rooms[k].id != was.id
        {
          if rooms[i].id == was.id {
            var f := Find(rooms, was.id);
            assert f <= i && rooms[f].id == rooms[i].id;
            found := true;
            if rooms[i].publicId != was.publicId {
              return Some(P.RouteConflictCode);
            }
          }
        }
        if !found {
          return Some(P.RoomRemovalRequiresArchive);
        }
        rest := rest[1..];
      }
      return None;
    }

    method Publish(ifMatch: int, now: int, signer: P.Signer) returns (reply: P.Reply)
      requires Aligned(document) && DistinctRooms(draft.rooms)
      modifies this
      ensures (Abs(), reply) == P.Publish(old(Abs()), ifMatch, now, signer)
    {
      hide ConfigValid, RuntimeValid, P.RemovalConflict, P.Sign, P.PublishedRuntime, P.NeedsDrain, Find;
      if ifMatch != draft.revision {
        return P.Rejected(P.RevisionMismatch);
      }
      var conflict := RemovalCheck(document.config.rooms, draft.rooms);
      if conflict.Some? {
        return P.Rejected(conflict.value);
      }
      var runtimes: seq<RoomRuntime> := [];
      for i := 0 to |draft.rooms|
        invariant |runtimes| == i && Abs() == old(Abs())
        invariant forall k | 0 <= k < i ::
            runtimes[k] == RoomRuntime(draft.rooms[k].id, P.PublishedRuntime(document, draft.rooms[k]))
        invariant forall k | 0 <= k < i :: !P.NeedsDrain(document, draft.rooms[k])
      {
        var room := draft.rooms[i];
        var refused, runtime := NextRuntime(room);
        if refused {
          return P.Rejected(P.ActiveRoomChangeRequiresDrain);
        }
        runtimes := runtimes + [RoomRuntime(room.id, runtime)];
      }
      var next := Delivery(draft, runtimes);
      assert next == P.PublishedDelivery(document, draft);
      var full := DeliveryValid(next) && generation + 1 >= COUNTER_CEILING;
      assert events == old(Abs()).events && old(Abs()).(events := events) == old(Abs());
      var ok := CommitSigned(next, events, now, signer);
      return if ok then P.Accepted else if full then P.Failed else P.Rejected(P.InvalidConfigCode);
    }

    /** One room of the third loop of Publish. */
    method NextRuntime(room: Room) returns (refused: bool, runtime: Runtime)
      requires Aligned(document)
      ensures refused == P.NeedsDrain(document, room)
      ensures !refused ==> runtime == P.PublishedRuntime(document, room)
    {
      refused := false;
      runtime := InitialRuntime(room);
      if |document.runtimes| > 0 {
        runtime := runtime.(epoch := document.runtimes[0].runtime.epoch,
            recoveryUntil := document.runtimes[0].runtime.recoveryUntil);
      }
      var i := Find(document.config.rooms, room.id);
      if i < |document.config.rooms| {
        var was, prior := document.config.rooms[i], document.runtimes[i].runtime;
        if prior.mode != Off && (!room.active || was.origin != room.origin || was.hostname != room.hostname
            || was.policy != room.policy
                                 || was.protect != room.protect || was.exclude != room.exclude) {
          refused := true;
          return;
        }
        runtime := prior.(revision := prior.revision + 1, limits := room.limits);
        if !was.active && room.active {
          runtime := runtime.(mode := Hold);
        }
        if !room.active {
          runtime := runtime.(mode := Off);
        }
      }
    }

    /** The SQL UPDATE that pauses scheduled and running events, with its row count. */
    method PauseSchedule(roomId: Option<string>) returns (paused: seq<Event>, rows: nat)
      ensures paused == P.PauseEvents(events, roomId)
      ensures rows > 0 <==> exists k | 0 <= k < |events| ::
          P.Pausable(events[k]) && (roomId == None || roomId == Some(events[k].roomId))
    {
      paused, rows := [], 0;
      for i := 0 to |events|
        invariant |paused| == i
        invariant forall k | 0 <= k < i :: paused[k] == P.PauseEvents(events, roomId)[k]
        invariant rows > 0 <==> exists k | 0 <= k < i ::
            P.Pausable(events[k]) && (roomId == None || roomId == Some(events[k].roomId))
      {
        var e := events[i];
        if P.Pausable(e) && (roomId == None || roomId == Some(e.roomId)) {
          e := e.(state := Paused);
          rows := rows + 1;
        }
        paused := paused + [e];
      }
    }

    /** The new-epoch branch of Operate: one epoch and one recovery deadline for every room. */
    method ResetEpoch(i: nat, c: P.Command, now: int, signer: P.Signer) returns (reply: P.Reply)
      requires Aligned(document) && i < |document.runtimes|
      modifies this
      ensures (Abs(), reply) == P.NewEpochStep(old(Abs()), i, c, now, signer)
    {
      hide ConfigValid, RuntimeValid, P.Sign, P.PauseEvents;
      if c.scope != P.Installation || c.limits.Some? || c.generation.None? || c.generation.value < 1 {
        return P.Rejected(P.InvalidRequest);
      }
      if c.generation.value != generation {
        return P.Rejected(P.RevisionMismatch);
      }
      var epoch := document.runtimes[i].runtime.epoch;
      for k := 0 to |document.runtimes|
        invariant Abs() == old(Abs())
        invariant forall m | 0 <= m < k :: document.runtimes[m].runtime.epoch == epoch
      {
        if document.runtimes[k].runtime.epoch != epoch {
          return P.Failed;
        }
      }
      if epoch >= P.EPOCH_LIMIT {
        return P.Rejected(P.RevisionMismatch);
      }
      var until := (now + 3630 * MICROS_PER_SECOND) / 1000;
      var paused, _ := PauseSchedule(None);
      var runtimes := document.runtimes;
      for k := 0 to |runtimes|
        invariant Abs() == old(Abs()) && |runtimes| == |document.runtimes|
        invariant forall m | 0 <= m < k :: runtimes[m] == P.EpochDelivery(document, until).runtimes[m]
        invariant forall m | k <= m < |runtimes| :: runtimes[m] == document.runtimes[m]
      {
        var r := runtimes[k].runtime;
        r := r.(epoch := r.epoch + 1, revision := r.revision + 1, recoveryUntil := until);
        r := r.(mode := if document.config.rooms[k].active then Hold else Off);
        if r.eventState == EventScheduled || r.eventState == EventRunning {
          r := r.(eventState := EventPaused);
        }
        runtimes := runtimes[k := runtimes[k].(runtime := r)];
      }
      var next := document.(runtimes := runtimes);
      assert next == P.EpochDelivery(document, until);
      var ok := CommitSigned(next, paused, now, signer);
      return if ok then P.Accepted else P.Failed;
    }

    method Operate(roomId: string, ifMatch: int, c: P.Command, now: int, signer: P.Signer) returns (reply: P.Reply)
      requires Aligned(document)
      modifies this
      ensures (Abs(), reply) == P.Operate(old(Abs()), roomId, ifMatch, c, now, signer)
    {
      hide ConfigValid, RuntimeValid, LimitsValid, P.Sign, P.PauseEvents, P.NewEpochStep;
      var i := Find(document.config.rooms, roomId);
      if i == |document.config.rooms| {
        return P.Rejected(P.NotFound);
      }
      var runtime := document.runtimes[i].runtime;
      if ifMatch != runtime.revision {
        return P.Rejected(P.RevisionMismatch);
      }
      if c.action == P.NewEpoch {
        reply := ResetEpoch(i, c, now, signer);
        return;
      }
      if c.scope != P.NoScope || c.generation.Some? {
        return P.Rejected(P.InvalidRequest);
      }
      if !document.config.rooms[i].active {
        return P.Rejected(P.RoomInactive);
      }
      if c.action != P.SetLimits && c.limits.Some? {
        return P.Rejected(P.InvalidRequest);
      }
      match c.action {
        case InstantOff => runtime := runtime.(mode := Off);
        case ToAuto => runtime := runtime.(mode := Auto);
        case ToHold => runtime := runtime.(mode := Hold);
        case SafeDrain => runtime := runtime.(mode := Draining);
        case SetLimits =>
          if c.limits.None? || !LimitsValid(c.limits.value, draft.profile) {
            return P.Rejected(P.InvalidConfigCode);
          }
          runtime := runtime.(limits := c.limits.value);
        case _ => return P.Rejected(P.Forbidden);
      }
      var paused, rows := PauseSchedule(Some(roomId));
      if rows > 0 {
        runtime := runtime.(eventState := EventPaused);
      }
      runtime := runtime.(revision := runtime.revision + 1);
      var next := P.WithRuntime(document, i, runtime);
      var ok := CommitSigned(next, paused, now, signer);
      return if ok then P.Accepted else P.Failed;
    }

    /** The loop that derives a room's event mark from its rows. */
    method Mark(rows: seq<Event>, roomId: string) returns (mark: EventMark)
      ensures mark == P.MarkFor(rows, roomId, NoEvent)
    {
      mark := NoEvent;
      var rest := rows;
      while rest != []
        invariant P.MarkFor(rows, roomId, NoEvent) == P.MarkFor(rest, roomId, mark)
        decreases |rest|
      {
        var e := rest[0];
        if e.roomId == roomId {
          if e.state == Paused {
            return EventPaused;
          }
          if e.state == Running {
            return EventRunning;
          }
          if e.state == Scheduled {
            mark := EventScheduled;
          }
        }
        rest := rest[1..];
      }
    }

    method ChangeEvent(room: string, eventId: Option<nat>, verb: P.Verb, ifMatch: int, newId: nat, now: int,
        signer: P.Signer)
      returns (reply: P.Reply)
      requires Aligned(document)
      modifies this
      ensures (Abs(), reply) == P.ChangeEvent(old(Abs()), room, eventId, verb, ifMatch, newId, now, signer)
    {
      hide ConfigValid, RuntimeValid, P.Sign, P.NextEvent, P.Upsert, P.MarkFor;
      if verb.Create? != eventId.None? {
        return P.Rejected(P.InvalidRequest);
      }
      var roomId, current := room, None;
      if eventId.Some? {
        var at := P.IndexOfId(events, eventId.value);
        if at == |events| {
          return P.Rejected(P.NotFound);
        }
        roomId, current := events[at].roomId, Some(events[at]);
      }
      var i := Find(document.config.rooms, roomId);
      if i == |document.config.rooms| {
        return P.Rejected(P.NotFound);
      }
      var runtime := document.runtimes[i].runtime;
      if ifMatch != runtime.revision {
        return P.Rejected(P.RevisionMismatch);
      }
      var next, code := DecideEvent(roomId, document.config.rooms[i].active, current, verb, newId, now);
      if next.None? {
        return P.Rejected(code);
      }
      if current.None? && P.IndexOfId(events, newId) < |events| {
        return P.Failed;
      }
      var rows := P.Upsert(events, next.value);
      var mark := Mark(rows, roomId);
      runtime := runtime.(eventState := mark, revision := runtime.revision + 1);
      var ok := CommitSigned(P.WithRuntime(document, i, runtime), rows, now, signer);
      return if ok then P.Accepted else P.Failed;
    }

    /** The request checks of ChangeEvent, with the overlap loop over the room's events. */
    method DecideEvent(roomId: string, active: bool, current: Option<Event>, verb: P.Verb, newId: nat, now: int)
      returns (next: Option<Event>, code: P.Code)
      ensures (next, code) == P.NextEvent(Abs(), roomId, active, current, verb, newId, now)
    {
      code := P.EventInactive;
      if current.Some? && !Live(current.value) {
        return None, P.EventInactive;
      }
      if verb == P.Cancel {
        if current.None? {
          return None, P.InvalidRequest;
        }
        return Some(current.value.(state := Cancelled)), code;
      }
      if !active {
        return None, P.RoomInactive;
      }
      if verb == P.Resume {
        if current.None? {
          return None, P.InvalidRequest;
        }
        if current.value.state != Paused || now >= current.value.drainAt {
          return None, P.EventInactive;
        }
        return Some(current.value.(state := Scheduled)), code;
      }
      if (verb.Create? && current.Some?) || (verb.Edit? && current.None?) {
        return None, P.InvalidRequest;
      }
      var input := verb.input;
      if !InputValid(input, now) {
        return None, P.InvalidEvent;
      }
      for k := 0 to |events|
        invariant forall m | 0 <= m < k ::
            !(events[m].roomId == roomId && (current.Some? ==> events[m].id != current.value.id)
                && Overlaps(events[m], input))
      {
        var e := events[k];
        if e.roomId == roomId && (current.None? || e.id != current.value.id) && Overlaps(e, input) {
          return None, P.EventOverlap;
        }
      }
      if verb.Create? && P.CountRoom(events, roomId) >= 1000 {
        return None, P.EventCapacityExceeded;
      }
      var id := if current.Some? then current.value.id else newId;
      next := Some(Event(id, roomId, input.prequeueAt, input.admitAt, input.drainAt, Scheduled));
    }

    method Refresh(now: int, signer: P.Signer) returns (reply: P.Reply)
      modifies this
      ensures (Abs(), reply) == P.Refresh(old(Abs()), now, signer)
    {
      hide P.Sign;
      if envelope.Some? {
        if now < issuedAt {
          return P.Failed;
        }
        if now - issuedAt < P.FIVE_MINUTES && envelope.value.Signed? && envelope.value.snapshot.kid == signer.kid {
          return P.Accepted;
        }
      }
      assert old(Abs()).(events := events) == old(Abs());
      var ok := CommitSigned(document, events, now, signer);
      return if ok then P.Accepted else P.Failed;
    }

    method RecoverClock(req: CT.ClockRecovery<Delivery>, now: int, signer: P.Signer) returns (raw: Option<P.Envelope>)
      modifies this
      ensures (Abs(), raw) == P.RecoverClock(old(Abs()), req, now, signer)
    {
      hide P.Sign;
      if req.generation == 0 || req.generation >= COUNTER_CEILING || req.notBefore <= 0 || req.notBefore > 253402214399
          || envelope.None? {
        return None;
      }
      if Unix(now) < req.notBefore || now < issuedAt || now >= expiresAt || generation < req.generation {
        return None;
      }
      if generation > req.generation && Unix(issuedAt) >= req.notBefore {
        return envelope;
      }
      if (generation == req.generation && envelope.value != req.digest) || req.notBefore < Unix(issuedAt) {
        return None;
      }
      assert old(Abs()).(events := events) == old(Abs());
      var ok := CommitSigned(document, events, now, signer);
      return if ok then envelope else None;
    }

    method Acknowledge(node: P.NodeId, ackGeneration: int, digest: P.Envelope, metrics: seq<P.Metric>, keysMatch: bool,
        now: int)
      returns (reply: P.Reply)
      requires Aligned(document)
      modifies this
      ensures (Abs(), reply) == P.Acknowledge(old(Abs()), node, ackGeneration, digest, metrics, keysMatch, now)
    {
      hide ConfigValid, RuntimeValid, P.MetricMatches;
      if !keysMatch || envelope.None? || now >= expiresAt || issuedAt > now {
        return P.Failed;
      }
      if ackGeneration != generation || digest != envelope.value || |metrics| != |document.config.rooms| {
        return P.Failed;
      }
      for i := 0 to |metrics|
        invariant Abs() == old(Abs())
        invariant forall k | 0 <= k < i :: P.MetricMatches(metrics[k], document.config.rooms[k],
            document.runtimes[k].runtime)
      {
        if !P.MetricMatches(metrics[i], document.config.rooms[i], document.runtimes[i].runtime) {
          return P.Failed;
        }
      }
      if node !in nodes || nodes[node].generation <= generation {
        nodes := nodes[node := P.NodeRow(generation, now, metrics)];
      }
      return P.Accepted;
    }

    /** safeDrain: the last metric that names this room, revision and epoch in DRAINING decides for its node. */
    method SafeDrain(roomId: string, runtime: Runtime, now: int) returns (safe: bool)
      ensures safe == P.SafeToDrain(Abs(), roomId, runtime, now)
    {
      hide P.MetricFits, P.QueueEmpty, P.OriginCalm;
      var applied := ViewApplied(now);
      if !applied {
        return false;
      }
      var queueOk := NodeVerdict(nodes[P.CoordinatorNode].metrics, roomId, runtime, true);
      var originOk := NodeVerdict(nodes[P.GatewayNode].metrics, roomId, runtime, false);
      return queueOk && originOk;
    }

    /** deliveryView's state: applied only when both nodes freshly acknowledged this generation. */
    method ViewApplied(now: int) returns (applied: bool)
      ensures applied == P.Applied(Abs(), now)
    {
      if P.GatewayNode !in nodes || P.CoordinatorNode !in nodes || generation == 0 {
        return false;
      }
      forall n | n in nodes.Keys
        ensures n in {P.GatewayNode, P.CoordinatorNode}
      {
        match n
        case GatewayNode =>
        case CoordinatorNode =>
      }
      assert nodes.Keys == {P.GatewayNode, P.CoordinatorNode};
      var g, c := nodes[P.GatewayNode], nodes[P.CoordinatorNode];
      return g.generation == generation && now - P.FRESH_ACK < g.observedAt <= now
          && c.generation == generation && now - P.FRESH_ACK < c.observedAt <= now;
    }

    method NodeVerdict(metrics: seq<P.Metric>, roomId: string, runtime: Runtime, queue: bool) returns (ok: bool)
      ensures ok == P.LastVerdict(metrics, roomId, runtime, queue)
    {
      hide P.MetricFits, P.QueueEmpty, P.OriginCalm;
      ok := false;
      for i := 0 to |metrics|
        invariant ok == P.LastVerdict(metrics[..i], roomId, runtime, queue)
      {
        assert metrics[..i + 1][..i] == metrics[..i];
        var m := metrics[i];
        if P.MetricFits(m, roomId, runtime) {
          ok := if queue then P.QueueEmpty(m) else P.OriginCalm(m, runtime);
        }
      }
      assert metrics[..|metrics|] == metrics;
    }

    /** The body of the scheduler's loop for one active room: its runtime and its first live event. */
    method TickOne(roomId: string, runtime: Runtime, first: Option<Event>, now: int)
        returns (next: Runtime, moved: Option<Event>)
      requires first.Some? ==> Live(first.value)
      ensures
        var v := P.TickRoom(P.RoomView(runtime.mode, runtime.eventState, first), now,
            P.SafeToDrain(Abs(), roomId, runtime, now));
        && moved == v.first
        && next == if v.mode == runtime.mode && v.mark == runtime.eventState then runtime
                   else runtime.(mode := v.mode, eventState := v.mark, revision := runtime.revision + 1)
    {
      hide P.SafeToDrain;
      next, moved := runtime, first;
      if first.Some? {
        var mode := NextEventMode(first.value, now);
        if mode.Some? && (mode.value != next.mode || first.value.state != Running || next.eventState != EventRunning) {
          next := next.(mode := mode.value, eventState := EventRunning);
          moved := Some(first.value.(state := Running));
        }
      }
      var safe := SafeDrain(roomId, runtime, now);
      if next.mode == Draining && safe {
        next := next.(mode := Off, eventState := NoEvent);
        if first.Some? && first.value.state == Paused {
          next := next.(eventState := EventPaused);
        }
        if first.Some? && first.value.state != Paused {
          moved := Some(moved.value.(state := Completed));
        }
      }
      if next != runtime {
        next := next.(revision := next.revision + 1);
      }
    }

    /** The scheduler's loop over the rooms of the published document. */
    method TickRooms(now: int) returns (rows: seq<Event>, runtimes: seq<RoomRuntime>, changed: bool)
      requires Aligned(document) && DistinctRooms(document.config.rooms)
      ensures rows == P.TickedEvents(Abs(), now) && runtimes == P.TickedDelivery(Abs(), now).runtimes
      ensures changed <==> runtimes != document.runtimes
    {
      hide ConfigValid, RuntimeValid, P.TickRoom, P.SafeToDrain, TickProgress, P.TickedRuntime, P.TickedView;
      ghost var s := Abs();
      rows, runtimes, changed := events, document.runtimes, false;
      ProgressStart(s, now);
      for i := 0 to |document.config.rooms|
        invariant TickProgress(s, now, i, rows, runtimes) && |runtimes| == |document.runtimes|
        invariant changed <==> runtimes != document.runtimes
      {
        var room := document.config.rooms[i];
        ProgressAt(s, now, i, rows, runtimes);
        if room.active {
          var k := P.FirstLive(rows, room.id);
          var first := if k < |rows| then Some(rows[k]) else None;
          var next, moved := TickOne(room.id, runtimes[i].runtime, first, now);
          TickedViewIs(s, now, i);
          ProgressActive(s, now, i, rows, runtimes, next, moved);
          assert next == runtimes[i].runtime ==> runtimes[i := runtimes[i].(runtime := next)] == runtimes;
          if k < |rows| {
            rows := rows[k := moved.value];
          }
          if next != runtimes[i].runtime {
            changed := true;
            runtimes := runtimes[i := runtimes[i].(runtime := next)];
            assert runtimes[i] != document.runtimes[i];
          }
        } else {
          ProgressInactive(s, now, i, rows, runtimes);
        }
      }
      ProgressEnd(s, now, rows, runtimes);
    }

    method Tick(now: int, signer: P.Signer) returns (reply: P.Reply)
      requires Aligned(document) && DistinctRooms(document.config.rooms)
      modifies this
      ensures (Abs(), reply) == P.Tick(old(Abs()), now, signer)
    {
      hide ConfigValid, RuntimeValid, P.Sign, P.TickedRuntime, P.TickedEvents;
      ghost var s := Abs();
      var rows, runtimes, changed := TickRooms(now);
      assert document.(runtimes := runtimes) == P.TickedDelivery(s, now);
      if !changed {
        events := rows;
        return P.Accepted;
      }
      var ok := CommitSigned(document.(runtimes := runtimes), rows, now, signer);
      return if ok then P.Accepted else P.Failed;
    }
  }

  /** The loop state of a tick when the first i rooms are done. */
  ghost predicate TickProgress(s: P.State, now: int, i: nat, rows: seq<Event>, runtimes: seq<RoomRuntime>)
    requires Aligned(s.row.document)
  {
    var d := s.row.document;
    && |rows| == |s.events| && |runtimes| == |d.runtimes|
    && (forall k | 0 <= k < |runtimes| ::
          runtimes[k] == if k < i then d.runtimes[k].(runtime := P.TickedRuntime(s, k, now)) else d.runtimes[k])
    && (forall k | 0 <= k < |rows| ::
          rows[k] == if Find(d.config.rooms, s.events[k].roomId) < i then P.TickedEvent(s, k, now) else s.events[k])
  }

  lemma ProgressStart(s: P.State, now: int)
    requires Aligned(s.row.document)
    ensures TickProgress(s, now, 0, s.events, s.row.document.runtimes)
  {
    hide P.TickedRuntime, P.TickedEvent, RuntimeValid;
  }

  lemma ProgressAt(s: P.State, now: int, i: nat, rows: seq<Event>, runtimes: seq<RoomRuntime>)
    requires Aligned(s.row.document) && DistinctRooms(s.row.document.config.rooms) && i < |s.row.document.config.rooms|
    requires TickProgress(s, now, i, rows, runtimes)
    ensures |runtimes| == |s.row.document.runtimes| && runtimes[i] == s.row.document.runtimes[i] && |rows| == |s.events|
    ensures
      var id := s.row.document.config.rooms[i].id;
      var k := P.FirstLive(rows, id);
      k == P.FirstLive(s.events, id) && (k < |rows| ==> rows[k] == s.events[k])
  {
    hide P.TickedRuntime, P.TickedEvent, RuntimeValid, Find;
    var rooms := s.row.document.config.rooms;
    FindUnique(rooms, i);
    P.TickedEventKeepsRoom(s, now);
    P.FirstLiveCongruent(rows, s.events, rooms[i].id);
  }

  /** Events of room i are exactly those whose first matching room is i. */
  lemma FindIs(rooms: seq<Room>, i: nat, id: string)
    requires i < |rooms| && DistinctRooms(rooms)
    ensures Find(rooms, id) == i <==> id == rooms[i].id
  {
    FindUnique(rooms, i);
  }

  lemma ProgressInactive(s: P.State, now: int, i: nat, rows: seq<Event>, runtimes: seq<RoomRuntime>)
    requires Aligned(s.row.document) && DistinctRooms(s.row.document.config.rooms) && i < |s.row.document.config.rooms|
    requires TickProgress(s, now, i, rows, runtimes) && !s.row.document.config.rooms[i].active
    ensures TickProgress(s, now, i + 1, rows, runtimes)
  {
    hide RuntimeValid, Find, P.TickRoom;
    var rooms := s.row.document.config.rooms;
    forall k | 0 <= k < |rows| && Find(rooms, s.events[k].roomId) == i
      ensures P.TickedEvent(s, k, now) == s.events[k]
    {
      FindIs(rooms, i, s.events[k].roomId);
    }
  }

  lemma TickedViewIs(s: P.State, now: int, i: nat)
    requires Aligned(s.row.document) && i < |s.row.document.config.rooms| && s.row.document.config.rooms[i].active
    ensures
      var d, k := s.row.document, P.FirstLive(s.events, s.row.document.config.rooms[i].id);
      var r := d.runtimes[i].runtime;
      var first := if k < |s.events| then Some(s.events[k]) else None;
      var v := P.TickRoom(P.RoomView(r.mode, r.eventState, first), now, P.SafeToDrain(s, d.config.rooms[i].id, r, now));
      && P.TickedView(s, i, now).first == v.first
      && (k < |s.events| ==> v.first.Some?)
      && P.TickedRuntime(s, i, now) == if v.mode == r.mode && v.mark == r.eventState then r
                                       else r.(mode := v.mode, eventState := v.mark, revision := r.revision + 1)
  {
    hide RuntimeValid, P.SafeToDrain, NextEventMode;
  }

  lemma TickedEventIs(s: P.State, now: int, i: nat, k: nat)
    requires Aligned(s.row.document) && DistinctRooms(s.row.document.config.rooms) && i < |s.row.document.config.rooms|
        && k < |s.events|
    requires P.TickedView(s, i, now).first.Some?
    ensures s.events[k].roomId == s.row.document.config.rooms[i].id <==>
        Find(s.row.document.config.rooms, s.events[k].roomId) == i
    ensures s.events[k].roomId == s.row.document.config.rooms[i].id ==>
              P.TickedEvent(s, k, now) == if P.FirstLive(s.events, s.events[k].roomId) == k
                  then P.TickedView(s, i, now).first.value else s.events[k]
  {
    hide RuntimeValid, Find, P.TickedView;
    FindIs(s.row.document.config.rooms, i, s.events[k].roomId);
  }

  /** Row k once room i is done. */
  lemma RowAfter(s: P.State, now: int, i: nat, rows: seq<Event>, runtimes: seq<RoomRuntime>, k: nat)
    requires Aligned(s.row.document) && DistinctRooms(s.row.document.config.rooms) && i < |s.row.document.config.rooms|
    requires TickProgress(s, now, i, rows, runtimes) && s.row.document.config.rooms[i].active && k < |rows|
    ensures
      var rooms, first, moved := s.row.document.config.rooms, P.FirstLive(rows, s.row.document.config.rooms[i].id),
          P.TickedView(s, i, now).first;
      && (first < |rows| ==> moved.Some?)
      && (if k == first then moved.value else rows[k]) ==
         if Find(rooms, s.events[k].roomId) < i + 1 then P.TickedEvent(s, k, now) else s.events[k]
  {
    hide RuntimeValid, Find, P.TickedView, P.TickedEvent, P.TickedRuntime, P.TickRoom;
    ProgressAt(s, now, i, rows, runtimes);
    TickedViewIs(s, now, i);
    FindIs(s.row.document.config.rooms, i, s.events[k].roomId);
    if P.TickedView(s, i, now).first.Some? {
      TickedEventIs(s, now, i, k);
    } else {
      NothingLive(s, now, i, k);
    }
  }

  lemma ProgressActive(s: P.State, now: int, i: nat, rows: seq<Event>, runtimes: seq<RoomRuntime>, next: Runtime,
      moved: Option<Event>)
    requires Aligned(s.row.document) && DistinctRooms(s.row.document.config.rooms) && i < |s.row.document.config.rooms|
    requires TickProgress(s, now, i, rows, runtimes) && s.row.document.config.rooms[i].active
    requires next == P.TickedRuntime(s, i, now) && moved == P.TickedView(s, i, now).first
    ensures
      var k := P.FirstLive(rows, s.row.document.config.rooms[i].id);
      && (k < |rows| ==> moved.Some?)
      && TickProgress(s, now, i + 1, if k < |rows| then rows[k := moved.value] else rows,
                      runtimes[i := runtimes[i].(runtime := next)])
  {
    hide RuntimeValid, Find, P.TickedView, P.TickedEvent, P.TickedRuntime, P.FirstLive;
    ProgressAt(s, now, i, rows, runtimes);
    forall k | 0 <= k < |rows|
      ensures
        var first := P.FirstLive(rows, s.row.document.config.rooms[i].id);
        && (first < |rows| ==> moved.Some?)
        && (if k == first then moved.value else rows[k]) ==
           if Find(s.row.document.config.rooms, s.events[k].roomId) < i + 1 then P.TickedEvent(s, k, now)
               else s.events[k]
    {
      RowAfter(s, now, i, rows, runtimes, k);
    }
  }

  lemma NothingLive(s: P.State, now: int, i: nat, k: nat)
    requires Aligned(s.row.document) && DistinctRooms(s.row.document.config.rooms) && i < |s.row.document.config.rooms|
        && k < |s.events|
    requires P.FirstLive(s.events, s.row.document.config.rooms[i].id) == |s.events|
    ensures s.events[k].roomId == s.row.document.config.rooms[i].id ==> P.TickedEvent(s, k, now) == s.events[k]
  {
  }

  lemma ProgressEnd(s: P.State, now: int, rows: seq<Event>, runtimes: seq<RoomRuntime>)
    requires Aligned(s.row.document) && TickProgress(s, now, |s.row.document.config.rooms|, rows, runtimes)
    ensures rows == P.TickedEvents(s, now) && runtimes == P.TickedDelivery(s, now).runtimes
  {
    hide P.TickedRuntime, P.TickedView, RuntimeValid, Find;
  }
}
