/**
  The signed desired state and the event schedule rules (internal/control/runtime.go).
  Times are database timestamps in microseconds.
*/
module ControlRuntime {
  import opened Base
  import opened ControlConfig

  datatype Mode = Off | Auto | Hold | Draining | RecoveryHold

  /** The event mark carried by a room's runtime. */
  datatype EventMark = NoEvent | EventScheduled | EventRunning | EventPaused

  datatype Runtime = Runtime(
    revision: int, mode: Mode, limits: Limits, epoch: int, eventState: EventMark, recoveryUntil: int)

  datatype RoomRuntime = RoomRuntime(roomId: string, runtime: Runtime)

  datatype Delivery = Delivery(config: Config, runtimes: seq<RoomRuntime>)

  predicate RuntimeValid(r: Runtime, profile: Profile) {
    && 0 <= r.recoveryUntil < COUNTER_CEILING && 1 <= r.revision < COUNTER_CEILING && 1 <= r.epoch < COUNTER_CEILING
    && LimitsValid(r.limits, profile)
  }

  /** Runtimes line up with the rooms and an inactive room is OFF. */
  predicate Aligned(d: Delivery) {
    && |d.runtimes| == |d.config.rooms|
    && (forall i | 0 <= i < |d.runtimes| ::
          && d.runtimes[i].roomId == d.config.rooms[i].id
          && RuntimeValid(d.runtimes[i].runtime, d.config.profile)
          && (!d.config.rooms[i].active ==> d.runtimes[i].runtime.mode == Off))
  }

  predicate DeliveryValid(d: Delivery) {
    ConfigValid(d.config) && Aligned(d)
  }

  /** Position of the first room with this id, or the number of rooms. */
  function Find(rooms: seq<Room>, id: string): (i: nat)
    ensures i <= |rooms| && (i < |rooms| ==> rooms[i].id == id)
    ensures forall k | 0 <= k < i :: rooms[k].id != id
  {
    if rooms == [] || rooms[0].id == id then 0 else 1 + Find(rooms[1..], id)
  }

  lemma FindUnique(rooms: seq<Room>, i: nat)
    requires i < |rooms| && DistinctRooms(rooms)
    ensures Find(rooms, rooms[i].id) == i
  {
    var k := Find(rooms, rooms[i].id);
    assert k <= i && rooms[k].id == rooms[i].id;
  }

  function InitialRuntime(room: Room): Runtime {
    Runtime(1, if room.active then Hold else Off, room.limits, 1, NoEvent, 0)
  }

  // ---------------------------------------------------------------- events

  datatype Stage = Scheduled | Running | Paused | Cancelled | Completed

  datatype EventInput = EventInput(prequeueAt: int, admitAt: int, drainAt: int)

  datatype Event = Event(id: nat, roomId: string, prequeueAt: int, admitAt: int, drainAt: int, state: Stage)

  const YEAR_MICROS: int := 366 * 24 * 3600 * MICROS_PER_SECOND

  predicate InputValid(e: EventInput, now: int) {
    now <= e.prequeueAt < e.admitAt < e.drainAt <= now + YEAR_MICROS
  }

  predicate Live(e: Event) {
    e.state != Cancelled && e.state != Completed
  }

  predicate Overlaps(e: Event, other: EventInput) {
    Live(e) && e.prequeueAt < other.drainAt && other.prequeueAt < e.drainAt
  }

  /** The mode an event calls for now; None when it must not act. The state it moves to is then Running. */
  function NextEventMode(e: Event, now: int): (m: Option<Mode>) {
    if e.state == Paused || !Live(e) || now < e.prequeueAt then None
    else if now >= e.drainAt then Some(Draining)
    else if now >= e.admitAt then Some(Auto)
    else Some(Hold)
  }

  function MarkOf(s: Stage): EventMark {
    match s
    case Scheduled => EventScheduled
    case Running => EventRunning
    case Paused => EventPaused
    case _ => NoEvent
  }

  /** Catch-up takes the latest due stage, whatever intermediate stages were recorded. */
  lemma CatchUp(e: Event, t1: int, t2: int)
    requires t1 <= t2 && NextEventMode(e, t1).Some?
    ensures NextEventMode(e.(state := Running), t2) == NextEventMode(e, t2)
  {
  }
}
