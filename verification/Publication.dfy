/**
  Control's publication transactions (internal/adminauth/pgstore: publication.go, events.go, delivery.go,
  clock_recovery.go, and the draft writers of control.go and setup.go) as one state machine.

  Each committed transaction is one step. `log` records every envelope ever signed, in order; the services do
  not read it. The digest of an envelope is the envelope itself. If-Match is the revision inside the ETag.
*/
module Publication {
  import opened Base
  import opened ControlConfig
  import opened ControlRuntime
  import CT = ConfigTrust

  type Envelope = CT.Envelope<Delivery>

  datatype Signer = Signer(kid: string, key: nat, installation: string)

  /** The single control_delivery row; issuedAt and expiresAt are meaningful when the envelope is present. */
  datatype Row = Row(document: Delivery, generation: nat, envelope: Option<Envelope>, issuedAt: int, expiresAt: int)

  datatype NodeId = GatewayNode | CoordinatorNode

  /** One room of an acknowledgement. `othersValid` is the verdict on the remaining metric ranges. */
  datatype Metric = Metric(
    roomId: string, revision: int, epoch: int, mode: Mode, waiting: nat, ready: nat, originHealthy: bool,
    windowReady: bool, arrivals: int, recoveryUntil: int, othersValid: bool)

  datatype NodeRow = NodeRow(generation: nat, observedAt: int, metrics: seq<Metric>)

  datatype State = State(
    draft: Config, row: Row, events: seq<Event>, nodes: map<NodeId, NodeRow>, log: seq<Envelope>)

  datatype Code =
    | RevisionMismatch | RouteConflictCode | RoomRemovalRequiresArchive | ActiveRoomChangeRequiresDrain
    | InvalidConfigCode
    | InvalidRequest | NotFound | RoomInactive | Forbidden | EventInactive | InvalidEvent | EventOverlap
    | EventCapacityExceeded | UnsupportedCapability | ConfigCapacityExceeded | SetupConflict

  /** Rejected replies commit nothing; Failed is an internal error that rolls back. */
  datatype Reply = Accepted | Rejected(code: Code) | Failed

  const DAY_MICROS: int := DAY_SECONDS * MICROS_PER_SECOND

  const FIVE_MINUTES: int := 300 * MICROS_PER_SECOND

  const FRESH_ACK: int := 15 * MICROS_PER_SECOND

  const EPOCH_LIMIT: int := 9007199254740989

  // ---------------------------------------------------------------- signing

  function SnapshotFor(d: Delivery, generation: nat, now: int, signer: Signer): CT.Snapshot<Delivery> {
    CT.Snapshot(1, signer.installation, generation, if d.config.revision >= 0 then d.config.revision else 0,
                Unix(now), Unix(now + DAY_MICROS), signer.kid, d)
  }

  /** sign: validates, signs the next generation and replaces the row, or fails. */
  function Sign(s: State, d: Delivery, now: int, signer: Signer): (r: Option<State>) {
    var snapshot := SnapshotFor(d, s.row.generation + 1, now, signer);
    if !DeliveryValid(d) || !CT.Structural(snapshot) || s.row.generation + 1 >= COUNTER_CEILING then None
    else
      var e := CT.Signed(snapshot, signer.key, 0);
      Some(s.(row := Row(d, s.row.generation + 1, Some(e), now, now + DAY_MICROS), log := s.log + [e]))
  }

  /** What an operator can check before a signature: names the format allows, a generation left, a clock in range. */
  predicate CanSign(s: State, now: int, signer: Signer) {
    && CT.SafeName(signer.installation) && CT.SafeName(signer.kid) && s.row.generation + 1 < COUNTER_CEILING
    && 0 < Unix(now) <= 253402214399
  }

  /** A valid document never stands in the way of its signature. */
  lemma SignsExactlyWhen(s: State, d: Delivery, now: int, signer: Signer)
    requires DeliveryValid(d)
    ensures Sign(s, d, now, signer).Some? <==> CanSign(s, now, signer)
    ensures
      CanSign(s, now, signer) ==>
        var t := Sign(s, d, now, signer).value;
        && t == s.(row := t.row, log := t.log) && t.row.document == d && t.row.generation == s.row.generation + 1
        && t.row.envelope.Some? && t.row.issuedAt == now && t.row.expiresAt == now + DAY_MICROS
  {
    hide CT.SafeName, Aligned;
    assert Unix(now + DAY_MICROS) == Unix(now) + DAY_SECONDS;
  }

  function SignOr(
      s: State, d: Delivery, now: int, signer: Signer, otherwise: Reply, rolledBack: State): (State, Reply) {
    var r := Sign(s, d, now, signer);
    if r.None? then (rolledBack, otherwise) else (r.value, Accepted)
  }

  // ---------------------------------------------------------------- drafts

  function ReplaceDraft(s: State, next: Config, ifMatch: int, fits: bool): (State, Reply) {
    if ifMatch != s.draft.revision then (s, Rejected(RevisionMismatch))
    else if next.revision != s.draft.revision || next.profile != s.draft.profile
        || next.regionId != s.draft.regionId then
      (s, Rejected(UnsupportedCapability))
    else if !ConfigValid(next) then (s, Rejected(InvalidConfigCode))
    else if !fits then (s, Rejected(ConfigCapacityExceeded))
    else if next.revision + 1 >= COUNTER_CEILING then (s, Failed)
    else (s.(draft := next.(revision := next.revision + 1)), Accepted)
  }

  /** First installation only: moves an empty installation to its chosen profile and withdraws the envelope. */
  function ApplySetup(s: State, profile: Profile, regionId: string): (State, Reply) {
    if s.draft.rooms != [] || s.draft.revision != 0 || profile == OtherProfile then (s, Rejected(SetupConflict))
    else if s.row.generation + 1 >= COUNTER_CEILING then (s, Failed)
    else
      var c := s.draft.(profile := profile, regionId := regionId, revision := 1);
      (s.(draft := c,
          row := s.row.(document := s.row.document.(config := c), generation := s.row.generation + 1,
              envelope := None)),
       Accepted)
  }

  // ---------------------------------------------------------------- publish

  /** Published rooms must stay, under the same public id. */
  function RemovalConflict(published: seq<Room>, draft: seq<Room>): Option<Code> {
    if published == [] then None
    else
      var i := Find(draft, published[0].id);
      if i == |draft| then Some(RoomRemovalRequiresArchive)
      else if draft[i].publicId != published[0].publicId then Some(RouteConflictCode)
      else RemovalConflict(published[1..], draft)
  }

  predicate NeedsDrain(d: Delivery, room: Room)
    requires Aligned(d)
  {
    var i := Find(d.config.rooms, room.id);
    i < |d.config.rooms| && d.runtimes[i].runtime.mode != Off
    && (var was := d.config.rooms[i];
        !room.active || was.origin != room.origin || was.hostname != room.hostname || was.policy != room.policy
        || was.protect != room.protect || was.exclude != room.exclude)
  }

  function PublishedRuntime(d: Delivery, room: Room): Runtime
    requires Aligned(d)
  {
    var i := Find(d.config.rooms, room.id);
    if i < |d.config.rooms| then
      var prior := d.runtimes[i].runtime;
      prior.(revision := prior.revision + 1, limits := room.limits,
             mode := if !room.active then Off else if !d.config.rooms[i].active then Hold else prior.mode)
    else if |d.runtimes| > 0 then
      InitialRuntime(room).(epoch := d.runtimes[0].runtime.epoch, recoveryUntil := d.runtimes[0].runtime.recoveryUntil)
    else InitialRuntime(room)
  }

  function PublishedDelivery(d: Delivery, draft: Config): Delivery
    requires Aligned(d)
  {
    Delivery(draft, seq(|draft.rooms|, i requires 0 <= i < |draft.rooms| =>
                          RoomRuntime(draft.rooms[i].id, PublishedRuntime(d, draft.rooms[i]))))
  }

  function Publish(s: State, ifMatch: int, now: int, signer: Signer): (State, Reply)
    requires Aligned(s.row.document)
  {
    var conflict := RemovalConflict(s.row.document.config.rooms, s.draft.rooms);
    if ifMatch != s.draft.revision then (s, Rejected(RevisionMismatch))
    else if conflict.Some? then (s, Rejected(conflict.value))
    else if exists i | 0 <= i < |s.draft.rooms| :: NeedsDrain(s.row.document, s.draft.rooms[i]) then
      (s, Rejected(ActiveRoomChangeRequiresDrain))
    else
      var d := PublishedDelivery(s.row.document, s.draft);
      var otherwise :=
        if DeliveryValid(d) && s.row.generation + 1 >= COUNTER_CEILING then Failed else Rejected(InvalidConfigCode);
      SignOr(s, d, now, signer, otherwise, s)
  }

  // ---------------------------------------------------------------- operate

  datatype Action = NewEpoch | InstantOff | ToAuto | ToHold | SafeDrain | SetLimits | UnknownAction

  datatype Scope = NoScope | Installation | OtherScope

  datatype Command = Command(action: Action, limits: Option<Limits>, scope: Scope, generation: Option<int>)

  predicate Pausable(e: Event) {
    e.state == Scheduled || e.state == Running
  }

  /** paused_by_override for the due and future events of one room, or of all rooms. */
  function PauseEvents(events: seq<Event>, roomId: Option<string>): seq<Event> {
    seq(|events|, i requires 0 <= i < |events| =>
      if Pausable(events[i]) && (roomId == None || roomId == Some(events[i].roomId)) then events[i].(state := Paused)
          else events[i])
  }

  function EpochRuntime(r: Runtime, active: bool, until: int): Runtime {
    r.(epoch := r.epoch + 1, revision := r.revision + 1, recoveryUntil := until, mode := if active then Hold else Off,
       eventState := if r.eventState == EventScheduled || r.eventState == EventRunning then EventPaused
           else r.eventState)
  }

  function EpochDelivery(d: Delivery, until: int): Delivery
    requires |d.runtimes| == |d.config.rooms|
  {
    d.(runtimes := seq(|d.runtimes|, i requires 0 <= i < |d.runtimes| =>
         d.runtimes[i].(runtime := EpochRuntime(d.runtimes[i].runtime, d.config.rooms[i].active, until))))
  }

  function WithRuntime(d: Delivery, i: nat, r: Runtime): Delivery
    requires i < |d.runtimes|
  {
    d.(runtimes := d.runtimes[i := d.runtimes[i].(runtime := r)])
  }

  function NewEpochStep(s: State, i: nat, c: Command, now: int, signer: Signer): (State, Reply)
    requires Aligned(s.row.document) && i < |s.row.document.runtimes|
  {
    var d := s.row.document;
    var epoch := d.runtimes[i].runtime.epoch;
    if c.scope != Installation || c.limits.Some? || c.generation.None? || c.generation.value < 1
        then (s, Rejected(InvalidRequest))
    else if c.generation.value != s.row.generation then (s, Rejected(RevisionMismatch))
    else if exists k | 0 <= k < |d.runtimes| :: d.runtimes[k].runtime.epoch != epoch then (s, Failed)
    else if epoch >= EPOCH_LIMIT then (s, Rejected(RevisionMismatch))
    else
      SignOr(s.(events := PauseEvents(s.events, None)),
             EpochDelivery(d, (now + 3630 * MICROS_PER_SECOND) / 1000), now, signer, Failed, s)
  }

  /** Mode and limits an ordinary action asks for; None when it is refused. */
  function Operated(r: Runtime, c: Command, profile: Profile): Option<Runtime> {
    match c.action
    case InstantOff => Some(r.(mode := Off))
    case ToAuto => Some(r.(mode := Auto))
    case ToHold => Some(r.(mode := Hold))
    case SafeDrain => Some(r.(mode := Draining))
    case SetLimits => if c.limits.Some? && LimitsValid(c.limits.value, profile) then Some(r.(limits := c.limits.value))
        else None
    case _ => None
  }

  /** The runtime an accepted ordinary action signs: next revision, and the mark of an overridden schedule. */
  function OperatedRuntime(s: State, roomId: string, before: Runtime, next: Runtime): Runtime {
    var paused := exists k | 0 <= k < |s.events| :: s.events[k].roomId == roomId && Pausable(s.events[k]);
    next.(revision := before.revision + 1, eventState := if paused then EventPaused else before.eventState)
  }

  function OrdinaryStep(s: State, i: nat, c: Command, now: int, signer: Signer): (State, Reply)
    requires Aligned(s.row.document) && i < |s.row.document.runtimes|
  {
    var d := s.row.document;
    var runtime := d.runtimes[i].runtime;
    var next := Operated(runtime, c, s.draft.profile);
    if c.scope != NoScope || c.generation.Some? then (s, Rejected(InvalidRequest))
    else if !d.config.rooms[i].active then (s, Rejected(RoomInactive))
    else if c.action != SetLimits && c.limits.Some? then (s, Rejected(InvalidRequest))
    else if next.None? then (s, Rejected(if c.action == SetLimits then InvalidConfigCode else Forbidden))
    else
      var roomId := d.config.rooms[i].id;
      SignOr(s.(events := PauseEvents(s.events, Some(roomId))),
             WithRuntime(d, i, OperatedRuntime(s, roomId, runtime, next.value)), now, signer, Failed, s)
  }

  function Operate(s: State, roomId: string, ifMatch: int, c: Command, now: int, signer: Signer): (State, Reply)
    requires Aligned(s.row.document)
  {
    var d := s.row.document;
    var i := Find(d.config.rooms, roomId);
    if i == |d.config.rooms| then (s, Rejected(NotFound))
    else if ifMatch != d.runtimes[i].runtime.revision then (s, Rejected(RevisionMismatch))
    else if c.action == NewEpoch then NewEpochStep(s, i, c, now, signer)
    else OrdinaryStep(s, i, c, now, signer)
  }

  // ---------------------------------------------------------------- events

  /** ORDER BY prequeue_at, id. */
  predicate Before(a: Event, b: Event) {
    a.prequeueAt < b.prequeueAt || (a.prequeueAt == b.prequeueAt && a.id < b.id)
  }

  predicate Sorted(events: seq<Event>) {
    forall i, j | 0 <= i < j < |events| :: Before(events[i], events[j])
  }

  predicate DistinctIds(events: seq<Event>) {
    forall i, j | 0 <= i < j < |events| :: events[i].id != events[j].id
  }

  function WithoutId(events: seq<Event>, id: nat): seq<Event> {
    if events == [] then [] else (if events[0].id == id then [] else [events[0]]) + WithoutId(events[1..], id)
  }

  function InsertSorted(events: seq<Event>, e: Event): seq<Event> {
    if events == [] || Before(e, events[0]) then [e] + events else [events[0]] + InsertSorted(events[1..], e)
  }

  function Upsert(events: seq<Event>, e: Event): seq<Event> {
    InsertSorted(WithoutId(events, e.id), e)
  }

  function IndexOfId(events: seq<Event>, id: nat): (i: nat)
    ensures i <= |events| && (i < |events| ==> events[i].id == id)
    ensures forall k | 0 <= k < i :: events[k].id != id
  {
    if events == [] || events[0].id == id then 0 else 1 + IndexOfId(events[1..], id)
  }

  function CountRoom(events: seq<Event>, roomId: string): nat {
    if events == [] then 0 else (if events[0].roomId == roomId then 1 else 0) + CountRoom(events[1..], roomId)
  }

  /** The mark a room gets from its events, in listing order: the first paused or running one decides. */
  function MarkFor(events: seq<Event>, roomId: string, seen: EventMark): EventMark {
    if events == [] then seen
    else if events[0].roomId == roomId && (events[0].state == Paused || events[0].state == Running)
        then MarkOf(events[0].state)
    else MarkFor(events[1..], roomId, if events[0].roomId == roomId && events[0].state == Scheduled then EventScheduled
        else seen)
  }

  datatype Verb = Create(input: EventInput) | Edit(input: EventInput) | Resume | Cancel

  /** The event row a request writes, or the code it is refused with. */
  function NextEvent(s: State, roomId: string, active: bool, current: Option<Event>, verb: Verb, newId: nat,
      now: int): (r: (Option<Event>, Code)) {
    if current.Some? && !Live(current.value) then (None, EventInactive)
    else if verb == Cancel then
      if current.Some? then (Some(current.value.(state := Cancelled)), EventInactive) else (None, InvalidRequest)
    else if !active then (None, RoomInactive)
    else if verb == Resume then
      if current.None? then (None, InvalidRequest)
      else if current.value.state != Paused || now >= current.value.drainAt then (None, EventInactive)
      else (Some(current.value.(state := Scheduled)), EventInactive)
    else if (verb.Create? && current.Some?) || (verb.Edit? && current.None?) then (None, InvalidRequest)
    else if !InputValid(verb.input, now) then (None, InvalidEvent)
    else if exists k | 0 <= k < |s.events| ::
              s.events[k].roomId == roomId && (current.Some? ==> s.events[k].id != current.value.id)
                  && Overlaps(s.events[k], verb.input) then
      (None, EventOverlap)
    else if verb.Create? && CountRoom(s.events, roomId) >= 1000 then (None, EventCapacityExceeded)
    else
      (Some(Event(if current.Some? then current.value.id else newId, roomId,
                  verb.input.prequeueAt, verb.input.admitAt, verb.input.drainAt, Scheduled)), EventInactive)
  }

  /** eventId None addresses the room's collection; newId is the random id a creation draws. */
  function ChangeEvent(s: State, room: string, eventId: Option<nat>, verb: Verb, ifMatch: int, newId: nat, now: int,
      signer: Signer): (State, Reply)
    requires Aligned(s.row.document)
  {
    var at := if eventId.Some? then IndexOfId(s.events, eventId.value) else 0;
    if verb.Create? != eventId.None? then (s, Rejected(InvalidRequest))
    else if eventId.Some? && at == |s.events| then (s, Rejected(NotFound))
    else
      var current := if eventId.Some? then Some(s.events[at]) else None;
      var roomId := if current.Some? then current.value.roomId else room;
      var d := s.row.document;
      var i := Find(d.config.rooms, roomId);
      if i == |d.config.rooms| then (s, Rejected(NotFound))
      else if ifMatch != d.runtimes[i].runtime.revision then (s, Rejected(RevisionMismatch))
      else
        var (next, code) := NextEvent(s, roomId, d.config.rooms[i].active, current, verb, newId, now);
        if next.None? then (s, Rejected(code))
        else if current.None? && IndexOfId(s.events, newId) < |s.events| then (s, Failed)
        else
          var events := Upsert(s.events, next.value);
          var r := d.runtimes[i].runtime;
          SignOr(s.(events := events),
                 WithRuntime(d, i, r.(revision := r.revision + 1, eventState := MarkFor(events, roomId, NoEvent))),
                 now, signer, Failed, s)
  }

  // ---------------------------------------------------------------- scheduler

  /** deliveryView: both nodes acknowledged exactly this generation within the last 15 seconds. */
  predicate Applied(s: State, now: int) {
    && s.nodes.Keys == {GatewayNode, CoordinatorNode} && s.row.generation > 0
    && forall n | n in s.nodes ::
         s.nodes[n].generation == s.row.generation && now - FRESH_ACK < s.nodes[n].observedAt <= now
  }

  predicate MetricFits(m: Metric, roomId: string, r: Runtime) {
    m.roomId == roomId && m.mode == Draining && m.revision == r.revision && m.epoch == r.epoch
  }

  predicate QueueEmpty(m: Metric) {
    m.waiting == 0 && m.ready == 0 && m.recoveryUntil == 0
  }

  predicate OriginCalm(m: Metric, r: Runtime) {
    m.originHealthy && m.windowReady && m.arrivals <= r.limits.rate * 5
  }

  /** Verdict of the last fitting metric, false when there is none. */
  function LastVerdict(ms: seq<Metric>, roomId: string, r: Runtime, queue: bool): bool {
    if ms == [] then false
    else
      var m := ms[|ms| - 1];
      if MetricFits(m, roomId, r) then (if queue then QueueEmpty(m) else OriginCalm(m, r))
      else LastVerdict(ms[..|ms| - 1], roomId, r, queue)
  }

  predicate SafeToDrain(s: State, roomId: string, r: Runtime, now: int) {
    && Applied(s, now)
    && LastVerdict(s.nodes[CoordinatorNode].metrics, roomId, r, true)
    && LastVerdict(s.nodes[GatewayNode].metrics, roomId, r, false)
  }

  /** Position of the first live event of a room in listing order, or the number of events. */
  function FirstLive(events: seq<Event>, roomId: string): (i: nat)
    ensures i <= |events| && (i < |events| ==> events[i].roomId == roomId && Live(events[i]))
    ensures forall k | 0 <= k < i :: !(events[k].roomId == roomId && Live(events[k]))
  {
    if events == [] || (events[0].roomId == roomId && Live(events[0])) then 0 else 1 + FirstLive(events[1..], roomId)
  }

  /** One room of a tick: its mode, its mark and the state of its first live event. */
  datatype RoomView = RoomView(mode: Mode, mark: EventMark, first: Option<Event>)

  function StartDue(x: RoomView, now: int): RoomView {
    if x.first.None? || NextEventMode(x.first.value, now).None? then x
    else RoomView(NextEventMode(x.first.value, now).value, EventRunning, Some(x.first.value.(state := Running)))
  }

  /** `safe` is SafeToDrain; whether the event was paused is read before it was moved. */
  function TickRoom(x: RoomView, now: int, safe: bool): RoomView {
    var y := StartDue(x, now);
    if y.mode != Draining || !safe then y
    else if x.first.None? then RoomView(Off, NoEvent, None)
    else if x.first.value.state == Paused then RoomView(Off, EventPaused, y.first)
    else RoomView(Off, NoEvent, Some(y.first.value.(state := Completed)))
  }

  function ViewOf(s: State, i: nat): RoomView
    requires Aligned(s.row.document) && i < |s.row.document.runtimes|
  {
    var r := s.row.document.runtimes[i].runtime;
    var k := FirstLive(s.events, s.row.document.config.rooms[i].id);
    RoomView(r.mode, r.eventState, if k < |s.events| then Some(s.events[k]) else None)
  }

  function TickedView(s: State, i: nat, now: int): RoomView
    requires Aligned(s.row.document) && i < |s.row.document.runtimes|
  {
    var d := s.row.document;
    if !d.config.rooms[i].active then ViewOf(s, i)
    else TickRoom(ViewOf(s, i), now, SafeToDrain(s, d.config.rooms[i].id, d.runtimes[i].runtime, now))
  }

  function TickedRuntime(s: State, i: nat, now: int): Runtime
    requires Aligned(s.row.document) && i < |s.row.document.runtimes|
  {
    var r := s.row.document.runtimes[i].runtime;
    var v := TickedView(s, i, now);
    if v.mode == r.mode && v.mark == r.eventState then r
    else r.(mode := v.mode, eventState := v.mark, revision := r.revision + 1)
  }

  /** Row k of the event table after the tick: only the first live event of an active room moves. */
  function TickedEvent(s: State, k: nat, now: int): Event
    requires Aligned(s.row.document) && k < |s.events|
  {
    var i := Find(s.row.document.config.rooms, s.events[k].roomId);
    if i == |s.row.document.config.rooms| || FirstLive(s.events, s.events[k].roomId) != k then s.events[k]
    else
      var v := TickedView(s, i, now);
      if v.first.Some? then v.first.value else s.events[k]
  }

  /** The first live event of a room depends on that room's rows only. */
  lemma {:induction false} FirstLiveCongruent(a: seq<Event>, b: seq<Event>, roomId: string)
    requires |a| == |b|
    requires forall k | 0 <= k < |a| ::
        (a[k].roomId == roomId <==> b[k].roomId == roomId) && (a[k].roomId == roomId ==> a[k] == b[k])
    ensures FirstLive(a, roomId) == FirstLive(b, roomId)
  {
    if a != [] {
      FirstLiveCongruent(a[1..], b[1..], roomId);
    }
  }

  lemma TickedEventKeepsRoom(s: State, now: int)
    requires Aligned(s.row.document)
    ensures forall k | 0 <= k < |s.events| ::
              var e := TickedEvent(s, k, now); e == s.events[k].(state := e.state)
  {
    hide SafeToDrain, NextEventMode, RuntimeValid;
  }

  function TickedDelivery(s: State, now: int): Delivery
    requires Aligned(s.row.document)
  {
    s.row.document.(runtimes := seq(|s.row.document.runtimes|, i requires 0 <= i < |s.row.document.runtimes| =>
      s.row.document.runtimes[i].(runtime := TickedRuntime(s, i, now))))
  }

  function TickedEvents(s: State, now: int): seq<Event>
    requires Aligned(s.row.document)
  {
    seq(|s.events|, k requires 0 <= k < |s.events| => TickedEvent(s, k, now))
  }

  function Tick(s: State, now: int, signer: Signer): (State, Reply)
    requires Aligned(s.row.document)
  {
    var d := TickedDelivery(s, now);
    var moved := s.(events := TickedEvents(s, now));
    if d == s.row.document then (moved, Accepted) else SignOr(moved, d, now, signer, Failed, s)
  }

  // ---------------------------------------------------------------- renewal, recovery, acknowledgement

  function Refresh(s: State, now: int, signer: Signer): (State, Reply) {
    var e := s.row.envelope;
    if e.Some? && now < s.row.issuedAt then (s, Failed)
    else if e.Some? && now - s.row.issuedAt < FIVE_MINUTES && e.value.Signed? && e.value.snapshot.kid == signer.kid
        then (s, Accepted)
    else SignOr(s, s.row.document, now, signer, Failed, s)
  }

  function RecoverClock(s: State, req: CT.ClockRecovery<Delivery>, now: int,
      signer: Signer): (r: (State, Option<Envelope>)) {
    if req.generation == 0 || req.generation >= COUNTER_CEILING || req.notBefore <= 0 || req.notBefore > 253402214399
       || s.row.envelope.None? then (s, None)
    else if Unix(now) < req.notBefore || now < s.row.issuedAt || now >= s.row.expiresAt
        || s.row.generation < req.generation then (s, None)
    else if s.row.generation > req.generation && Unix(s.row.issuedAt) >= req.notBefore then (s, s.row.envelope)
    else if (s.row.generation == req.generation && s.row.envelope.value != req.digest)
        || req.notBefore < Unix(s.row.issuedAt) then (s, None)
    else
      var r := Sign(s, s.row.document, now, signer);
      if r.None? then (s, None) else (r.value, r.value.row.envelope)
  }

  predicate MetricMatches(m: Metric, room: Room, r: Runtime) {
    && m.othersValid && m.roomId == room.id && m.revision == r.revision && m.epoch == r.epoch
    && 0 <= m.arrivals <= 100000000 && 0 <= m.recoveryUntil
    && (m.mode == r.mode || m.mode == RecoveryHold)
    && (!room.active ==> m.mode == Off || m.mode == RecoveryHold)
  }

  predicate MetricsMatch(ms: seq<Metric>, d: Delivery) {
    && |ms| == |d.config.rooms| == |d.runtimes|
    && forall i | 0 <= i < |ms| :: MetricMatches(ms[i], d.config.rooms[i], d.runtimes[i].runtime)
  }

  /** `keysMatch`: the ACK names the keyring Control runs with. Rows never go back to an older generation. */
  function Acknowledge(s: State, node: NodeId, generation: int, digest: Envelope, metrics: seq<Metric>,
      keysMatch: bool, now: int): (State, Reply) {
    if !keysMatch || s.row.envelope.None? || now >= s.row.expiresAt || s.row.issuedAt > now
       || generation != s.row.generation || digest != s.row.envelope.value || !MetricsMatch(metrics, s.row.document)
           then (s, Failed)
    else if node in s.nodes && s.nodes[node].generation > s.row.generation then (s, Accepted)
    else (s.(nodes := s.nodes[node := NodeRow(s.row.generation, now, metrics)]), Accepted)
  }

  // ---------------------------------------------------------------- runs

  datatype Transaction =
    | TReplaceDraft(next: Config, ifMatch: int, fits: bool)
    | TSetup(profile: Profile, regionId: string)
    | TPublish(ifMatch: int)
    | TOperate(roomId: string, ifMatch: int, command: Command)
    | TChangeEvent(room: string, eventId: Option<nat>, verb: Verb, ifMatch: int, newId: nat)
    | TTick
    | TRefresh
    | TRecoverClock(request: CT.ClockRecovery<Delivery>)
    | TAcknowledge(node: NodeId, generation: int, digest: Envelope, metrics: seq<Metric>, keysMatch: bool)

  /** The clock and the signer are free in every step: neither monotone time nor one key is assumed. */
  function Step(s: State, t: Transaction, now: int, signer: Signer): State
    requires Aligned(s.row.document)
  {
    match t
    case TReplaceDraft(next, ifMatch, fits) => ReplaceDraft(s, next, ifMatch, fits).0
    case TSetup(profile, regionId) => ApplySetup(s, profile, regionId).0
    case TPublish(ifMatch) => Publish(s, ifMatch, now, signer).0
    case TOperate(roomId, ifMatch, command) => Operate(s, roomId, ifMatch, command, now, signer).0
    case TChangeEvent(room, eventId, verb, ifMatch, newId) =>
        ChangeEvent(s, room, eventId, verb, ifMatch, newId, now, signer).0
    case TTick => Tick(s, now, signer).0
    case TRefresh => Refresh(s, now, signer).0
    case TRecoverClock(request) => RecoverClock(s, request, now, signer).0
    case TAcknowledge(node, generation, digest, metrics, keysMatch) =>
      Acknowledge(s, node, generation, digest, metrics, keysMatch, now).0
  }

  predicate Initial(s: State) {
    && s.draft == Config(1, 0, s.draft.profile, s.draft.regionId, []) && s.draft.profile != OtherProfile
    && s.row == Row(Delivery(s.draft, []), 0, None, 0, 0)
    && s.events == [] && s.nodes == map[] && s.log == []
  }
}
