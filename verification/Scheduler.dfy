/** What the scheduler guarantees: safe drain, disjoint schedules, and catch-up after missed ticks. */
module Scheduler {
  import opened Base
  import opened ControlConfig
  import opened ControlRuntime
  import opened Publication
  import H = PublicationHistory

  // ---------------------------------------------------------------- safe drain

  /** The freshly acknowledged facts about room i: both roles saw exactly the published generation, revision and
      epoch in DRAINING, the queue is empty, and a full healthy arrival window is calm. */
  predicate DrainEvidence(s: State, i: nat, now: int)
    requires Aligned(s.row.document) && i < |s.row.document.runtimes|
  {
    var r := s.row.document.runtimes[i].runtime;
    && Applied(s, now)
    && i < |s.nodes[CoordinatorNode].metrics| && i < |s.nodes[GatewayNode].metrics|
    && (var m := s.nodes[CoordinatorNode].metrics[i];
        MetricFits(m, s.row.document.config.rooms[i].id, r) && QueueEmpty(m))
    && (var m := s.nodes[GatewayNode].metrics[i];
        MetricFits(m, s.row.document.config.rooms[i].id, r) && OriginCalm(m, r))
  }

  /** With one metric per room, the last fitting metric is the room's own. */
  lemma {:induction false} VerdictOfOwnMetric(ms: seq<Metric>, roomId: string, r: Runtime, queue: bool, i: nat)
    requires i < |ms| && ms[i].roomId == roomId && forall k | 0 <= k < |ms| && k != i :: ms[k].roomId != roomId
    ensures LastVerdict(ms, roomId, r, queue) ==
              (MetricFits(ms[i], roomId, r) && if queue then QueueEmpty(ms[i]) else OriginCalm(ms[i], r))
  {
    if i < |ms| - 1 {
      VerdictOfOwnMetric(ms[..|ms| - 1], roomId, r, queue, i);
    } else if !MetricFits(ms[i], roomId, r) {
      NoMetricNoVerdict(ms[..|ms| - 1], roomId, r, queue);
    }
  }

  lemma {:induction false} NoMetricNoVerdict(ms: seq<Metric>, roomId: string, r: Runtime, queue: bool)
    requires forall k | 0 <= k < |ms| :: ms[k].roomId != roomId
    ensures !LastVerdict(ms, roomId, r, queue)
  {
    if ms != [] {
      NoMetricNoVerdict(ms[..|ms| - 1], roomId, r, queue);
    }
  }

  lemma SafeMeansEvidence(s: State, i: nat, now: int)
    requires H.Inv(s) && i < |s.row.document.runtimes|
    ensures Aligned(s.row.document)
    ensures SafeToDrain(s, s.row.document.config.rooms[i].id, s.row.document.runtimes[i].runtime, now) <==>
        DrainEvidence(s, i, now)
    ensures DrainEvidence(s, i, now) ==> s.row.document.runtimes[i].runtime.mode == Draining
  {
    H.InvNotes(s);
    H.ConfigRoomsDistinct(s.row.document.config);
    if Applied(s, now) {
      var d := s.row.document;
      assert MetricsMatch(s.nodes[CoordinatorNode].metrics, d) && MetricsMatch(s.nodes[GatewayNode].metrics, d);
      hide H.Inv, ConfigValid, RuntimeValid;
      var id, r := d.config.rooms[i].id, d.runtimes[i].runtime;
      VerdictOfOwnMetric(s.nodes[CoordinatorNode].metrics, id, r, true, i);
      VerdictOfOwnMetric(s.nodes[GatewayNode].metrics, id, r, false, i);
    }
  }

  /** No event stands in the way of the drain: none is live, it is paused, it is not yet due, or its drain is due. */
  predicate DrainUnopposed(s: State, i: nat, now: int)
    requires Aligned(s.row.document) && i < |s.row.document.runtimes|
  {
    var v := ViewOf(s, i);
    v.first.None? || NextEventMode(v.first.value, now).None? || NextEventMode(v.first.value, now) == Some(Draining)
  }

  /** Safe drain: a tick turns a room that was not OFF to OFF if and only if the already published generation had
      the active room in DRAINING, the evidence for exactly that publication is complete, and no due event calls
      for another mode. In particular no tick goes from another published mode to OFF. */
  lemma SafeDrainTheorem(s: State, i: nat, now: int)
    requires H.Inv(s) && i < |s.row.document.runtimes| && s.row.document.runtimes[i].runtime.mode != Off
    ensures Aligned(s.row.document)
    ensures TickedRuntime(s, i, now).mode == Off <==>
              && s.row.document.config.rooms[i].active && s.row.document.runtimes[i].runtime.mode == Draining
              && DrainEvidence(s, i, now) && DrainUnopposed(s, i, now)
  {
    H.InvNotes(s);
    SafeMeansEvidence(s, i, now);
    hide H.Inv, ConfigValid, RuntimeValid, SafeToDrain, DrainEvidence;
  }

  /** The same for every reachable state and the document an accepted tick leaves; a failed tick leaves it alone. */
  lemma SafeDrainOverRuns(s0: State, ts: seq<(Transaction, int, Signer)>, s: State, i: nat, now: int, signer: Signer)
    requires Initial(s0) && H.Reach(s0, ts, s) && i < |s.row.document.runtimes|
    requires s.row.document.runtimes[i].runtime.mode != Off
    ensures Aligned(s.row.document)
    ensures
      var t, reply := Tick(s, now, signer).0, Tick(s, now, signer).1;
      && |t.row.document.runtimes| == |s.row.document.runtimes|
      && (reply != Accepted ==> t == s)
      && (reply == Accepted ==>
            (t.row.document.runtimes[i].runtime.mode == Off <==>
               && s.row.document.config.rooms[i].active && s.row.document.runtimes[i].runtime.mode == Draining
               && DrainEvidence(s, i, now) && DrainUnopposed(s, i, now)))
  {
    H.InitialInv(s0);
    H.ReachKeepsInv(s0, ts, s);
    SafeDrainTheorem(s, i, now);
    hide H.Inv, ConfigValid, RuntimeValid, DrainEvidence, DrainUnopposed, TickedRuntime, TickedEvents, DeliveryValid;
  }

  // ---------------------------------------------------------------- disjoint schedules

  predicate WellTimed(e: Event) {
    e.prequeueAt < e.admitAt < e.drainAt
  }

  predicate Apart(a: Event, b: Event) {
    a.drainAt <= b.prequeueAt || b.drainAt <= a.prequeueAt
  }

  predicate Clash(a: Event, b: Event) {
    a.roomId == b.roomId && Live(a) && Live(b) && !Apart(a, b)
  }

  predicate ScheduleInv(events: seq<Event>) {
    && (forall i | 0 <= i < |events| :: WellTimed(events[i]))
    && (forall i, j | 0 <= i < j < |events| :: !Clash(events[i], events[j]))
    && DistinctIds(events) && Sorted(events)
  }

  /** A change of states that revives nothing keeps the schedule. */
  lemma StatesOnly(a: seq<Event>, b: seq<Event>)
    requires ScheduleInv(a) && |a| == |b|
    requires forall k | 0 <= k < |a| :: b[k] == a[k].(state := b[k].state) && (Live(b[k]) ==> Live(a[k]))
    ensures ScheduleInv(b)
  {
    forall i, j | 0 <= i < j < |b|
      ensures !Clash(b[i], b[j]) && b[i].id != b[j].id && Before(b[i], b[j])
    {
      assert !Clash(a[i], a[j]) && a[i].id != a[j].id && Before(a[i], a[j]);
    }
  }

  predicate Precedes(e: Event, x: Event) {
    !Clash(e, x) && e.id != x.id && Before(e, x)
  }

  lemma ConsSchedule(e: Event, w: seq<Event>)
    requires ScheduleInv(w) && WellTimed(e) && forall x | x in w :: Precedes(e, x)
    ensures ScheduleInv([e] + w)
  {
    hide Clash, WellTimed, Before;
    assert forall j | 0 <= j < |w| :: w[j] in w;
  }

  lemma HeadPrecedes(events: seq<Event>)
    requires ScheduleInv(events) && events != []
    ensures WellTimed(events[0]) && ScheduleInv(events[1..]) && forall x | x in events[1..] :: Precedes(events[0], x)
  {
    hide Clash, WellTimed, Before;
  }

  lemma {:induction false} WithoutIdMembers(events: seq<Event>, id: nat)
    requires ScheduleInv(events)
    ensures ScheduleInv(WithoutId(events, id))
    ensures forall e :: e in WithoutId(events, id) <==> e in events && e.id != id
  {
    hide ScheduleInv, Precedes;
    if events == [] {
    } else {
      var rest := events[1..];
      HeadPrecedes(events);
      WithoutIdMembers(rest, id);
      assert forall e :: e in events <==> e == events[0] || e in rest;
      if events[0].id != id {
        ConsSchedule(events[0], WithoutId(rest, id));
      } else {
        assert WithoutId(events, id) == WithoutId(rest, id);
      }
    }
  }

  lemma {:induction false} InsertKeepsSchedule(events: seq<Event>, e: Event)
    requires ScheduleInv(events) && WellTimed(e)
    requires forall x | x in events :: !Clash(e, x) && x.id != e.id
    ensures ScheduleInv(InsertSorted(events, e))
    ensures forall x :: x in InsertSorted(events, e) <==> x == e || x in events
  {
    hide ScheduleInv, Clash, WellTimed;
    if events == [] {
      ConsSchedule(e, events);
    } else {
      var rest := events[1..];
      HeadPrecedes(events);
      assert forall x :: x in events <==> x == events[0] || x in rest;
      if Before(e, events[0]) {
        ConsSchedule(e, events);
      } else {
        ClashIsSymmetric(e, events[0]);
        InsertKeepsSchedule(rest, e);
        ConsSchedule(events[0], InsertSorted(rest, e));
      }
    }
  }

  lemma ClashIsSymmetric(a: Event, b: Event)
    ensures Clash(a, b) == Clash(b, a)
  {
  }

  /** Writing an event that clashes with no other row keeps the schedule. */
  lemma UpsertKeepsSchedule(events: seq<Event>, e: Event)
    requires ScheduleInv(events) && WellTimed(e)
    requires forall k | 0 <= k < |events| && events[k].id != e.id :: !Clash(e, events[k])
    ensures ScheduleInv(Upsert(events, e))
    ensures forall x :: x in Upsert(events, e) <==> x == e || (x in events && x.id != e.id)
  {
    WithoutIdMembers(events, e.id);
    hide ScheduleInv, Clash;
    InsertKeepsSchedule(WithoutId(events, e.id), e);
  }

  lemma NextEventFits(s: State, roomId: string, active: bool, at: Option<nat>, verb: Verb, newId: nat, now: int)
    requires ScheduleInv(s.events) && (at.Some? ==> at.value < |s.events| && s.events[at.value].roomId == roomId)
    requires at.None? ==> forall k | 0 <= k < |s.events| :: s.events[k].id != newId
    ensures
      var current := if at.Some? then Some(s.events[at.value]) else None;
      var next := NextEvent(s, roomId, active, current, verb, newId, now).0;
      next.Some? ==>
        && WellTimed(next.value)
        && (forall k | 0 <= k < |s.events| && s.events[k].id != next.value.id :: !Clash(next.value, s.events[k]))
  {
    var current := if at.Some? then Some(s.events[at.value]) else None;
    var next := NextEvent(s, roomId, active, current, verb, newId, now).0;
    if next.Some? && (verb.Cancel? || verb.Resume?) {
      forall k | 0 <= k < |s.events| && s.events[k].id != next.value.id
        ensures !Clash(next.value, s.events[k])
      {
        assert !Clash(s.events[at.value], s.events[k]) by {
          var lo, hi := if at.value < k then at.value else k, if at.value < k then k else at.value;
          assert !Clash(s.events[lo], s.events[hi]);
        }
      }
    }
  }

  lemma ChangeEventKeepsSchedule(s: State, room: string, eventId: Option<nat>, verb: Verb, ifMatch: int, newId: nat,
      now: int, signer: Signer)
    requires ScheduleInv(s.events) && Aligned(s.row.document)
    ensures ScheduleInv(ChangeEvent(s, room, eventId, verb, ifMatch, newId, now, signer).0.events)
  {
    hide ScheduleInv, NextEvent, Upsert, MarkFor, DeliveryValid, RuntimeValid;
    var at := if eventId.Some? then IndexOfId(s.events, eventId.value) else 0;
    if eventId.None? || at < |s.events| {
      var index := if eventId.Some? then Some(at) else None;
      var current := if eventId.Some? then Some(s.events[at]) else None;
      var roomId := if current.Some? then current.value.roomId else room;
      var d := s.row.document;
      var i := Find(d.config.rooms, roomId);
      if i < |d.config.rooms| && (current.Some? || IndexOfId(s.events, newId) == |s.events|) {
        NextEventFits(s, roomId, d.config.rooms[i].active, index, verb, newId, now);
        var next := NextEvent(s, roomId, d.config.rooms[i].active, current, verb, newId, now).0;
        if next.Some? {
          UpsertKeepsSchedule(s.events, next.value);
        }
      }
    }
  }

  /** Tick moves no event out of a finished state, and none out of a pause. */
  lemma TickRevivesNothing(s: State, now: int, k: nat)
    requires Aligned(s.row.document) && k < |s.events|
    ensures
      var e := TickedEvent(s, k, now);
      && e == s.events[k].(state := e.state) && (Live(e) ==> Live(s.events[k]))
      && (s.events[k].state == Paused ==> e == s.events[k])
      && (e.state != s.events[k].state ==> e.state == Running || e.state == Completed)
  {
    hide SafeToDrain, RuntimeValid;
  }

  lemma TickKeepsSchedule(s: State, now: int, signer: Signer)
    requires Aligned(s.row.document) && H.Inv(s) && ScheduleInv(s.events)
    ensures ScheduleInv(Tick(s, now, signer).0.events)
  {
    hide H.Inv, ScheduleInv, DeliveryValid, TickedDelivery, TickedEvent, RuntimeValid, Aligned;
    forall k | 0 <= k < |s.events|
      ensures var e := TickedEvent(s, k, now); e == s.events[k].(state := e.state) && (Live(e) ==> Live(s.events[k]))
    {
      TickRevivesNothing(s, now, k);
    }
    StatesOnly(s.events, TickedEvents(s, now));
  }

  lemma OperateKeepsSchedule(s: State, roomId: string, ifMatch: int, c: Command, now: int, signer: Signer)
    requires Aligned(s.row.document) && ScheduleInv(s.events)
    ensures ScheduleInv(Operate(s, roomId, ifMatch, c, now, signer).0.events)
  {
    hide ScheduleInv, DeliveryValid, RuntimeValid, EpochDelivery, WithRuntime;
    StatesOnly(s.events, PauseEvents(s.events, None));
    StatesOnly(s.events, PauseEvents(s.events, Some(roomId)));
  }

  /** The other transactions leave the events alone. */
  lemma OtherKeepsEvents(s: State, t: Transaction, now: int, signer: Signer)
    requires Aligned(s.row.document) && !t.TChangeEvent? && !t.TTick? && !t.TOperate?
    ensures Step(s, t, now, signer).events == s.events
  {
    hide Aligned, DeliveryValid, ConfigValid, PublishedDelivery, NeedsDrain, RemovalConflict, MetricsMatch,
        ChangeEvent, Tick, Operate;
  }

  lemma StepKeepsSchedule(s: State, t: Transaction, now: int, signer: Signer)
    requires H.Inv(s) && ScheduleInv(s.events)
    ensures Aligned(s.row.document) && ScheduleInv(Step(s, t, now, signer).events)
  {
    H.InvNotes(s);
    hide H.Inv, H.Uniform, Aligned, DeliveryValid, ScheduleInv, ChangeEvent, Tick, Operate, ReplaceDraft, ApplySetup,
        Publish, Refresh, RecoverClock, Acknowledge;
    match t
    case TChangeEvent(room, eventId, verb, ifMatch, newId) =>
      ChangeEventKeepsSchedule(s, room, eventId, verb, ifMatch, newId, now, signer);
    case TTick =>
      TickKeepsSchedule(s, now, signer);
    case TOperate(roomId, ifMatch, command) =>
      OperateKeepsSchedule(s, roomId, ifMatch, command, now, signer);
    case _ =>
      OtherKeepsEvents(s, t, now, signer);
  }

  lemma {:induction false} ReachKeepsSchedule(s: State, ts: seq<(Transaction, int, Signer)>, t: State)
    requires H.Inv(s) && ScheduleInv(s.events) && H.Reach(s, ts, t)
    ensures H.Inv(t) && ScheduleInv(t.events)
    decreases |ts|
  {
    hide H.Inv, Step, ScheduleInv;
    if ts != [] {
      H.StepKeepsInv(s, ts[0].0, ts[0].1, ts[0].2);
      StepKeepsSchedule(s, ts[0].0, ts[0].1, ts[0].2);
      ReachKeepsSchedule(Step(s, ts[0].0, ts[0].1, ts[0].2), ts[1..], t);
    }
  }

  /** Event schedule: in every run, live events of a room are pairwise disjoint, and a tick leaves every paused
      event exactly as it was. */
  lemma EventScheduleTheorem(s0: State, ts: seq<(Transaction, int, Signer)>, s: State)
    requires Initial(s0) && H.Reach(s0, ts, s)
    ensures Aligned(s.row.document)
    ensures forall i, j | 0 <= i < j < |s.events| :: !Clash(s.events[i], s.events[j])
    ensures forall k, now | 0 <= k < |s.events| && s.events[k].state == Paused :: TickedEvent(s, k, now) == s.events[k]
  {
    H.InitialInv(s0);
    ReachKeepsSchedule(s0, ts, s);
    H.InvNotes(s);
    hide H.Inv, TickedEvent;
    forall k, now | 0 <= k < |s.events| && s.events[k].state == Paused
      ensures TickedEvent(s, k, now) == s.events[k]
    {
      TickRevivesNothing(s, now, k);
    }
  }

  // ---------------------------------------------------------------- stages by the clock

  /** What an event's times alone call for: nothing before its prequeue, then HOLD, AUTO and DRAINING. */
  datatype Demand = Nothing | Prequeue | Admission | Drain

  function DemandAt(e: Event, now: int): Demand {
    if e.state == Paused || now < e.prequeueAt then Nothing
    else if e.drainAt <= now then Drain else if e.admitAt <= now then Admission else Prequeue
  }

  /** The event a tick of room i looks at: its first live one in listing order. */
  function DemandOn(s: State, i: nat, now: int): Demand
    requires Aligned(s.row.document) && i < |s.row.document.runtimes|
  {
    var k := FirstLive(s.events, s.row.document.config.rooms[i].id);
    if k < |s.events| then DemandAt(s.events[k], now) else Nothing
  }

  /** The room drains in this tick: it is or becomes DRAINING and the evidence is complete. */
  predicate Empties(s: State, i: nat, now: int)
    requires Aligned(s.row.document) && i < |s.row.document.runtimes|
  {
    && SafeToDrain(s, s.row.document.config.rooms[i].id, s.row.document.runtimes[i].runtime, now)
    && (DemandOn(s, i, now) == Drain
        || (DemandOn(s, i, now) == Nothing && s.row.document.runtimes[i].runtime.mode == Draining))
  }

  /**
    A tick of an active room, from the times of its first live event alone: HOLD from the prequeue, AUTO from the
    admission, from the drain DRAINING or, once empty, OFF; without a due event the room stays as it is unless it
    was draining and is empty. The mark follows, and nothing else of the runtime but its revision changes.
  */
  lemma StageByTheClock(s: State, i: nat, now: int)
    requires Aligned(s.row.document) && i < |s.row.document.runtimes| && s.row.document.config.rooms[i].active
    ensures
      var was, r := s.row.document.runtimes[i].runtime, TickedRuntime(s, i, now);
      var demand, k := DemandOn(s, i, now), FirstLive(s.events, s.row.document.config.rooms[i].id);
      && (demand == Prequeue ==> r.mode == Hold && r.eventState == EventRunning)
      && (demand == Admission ==> r.mode == Auto && r.eventState == EventRunning)
      && (demand == Drain && !Empties(s, i, now) ==> r.mode == Draining && r.eventState == EventRunning)
      && (demand == Nothing && !Empties(s, i, now) ==> r == was)
      && (Empties(s, i, now) ==>
            && r.mode == Off
            && r.eventState == if k < |s.events| && s.events[k].state == Paused then EventPaused else NoEvent)
      && r == was.(mode := r.mode, eventState := r.eventState, revision := r.revision)
      && r.revision == if r.mode == was.mode && r.eventState == was.eventState then was.revision else was.revision + 1
  {
    hide SafeToDrain, RuntimeValid;
  }

  /** The state that tick gives the event: running once due, completed by a drain unless it is paused. */
  lemma EventByTheClock(s: State, i: nat, now: int)
    requires H.Inv(s) && Aligned(s.row.document) && i < |s.row.document.runtimes|
        && s.row.document.config.rooms[i].active
    requires FirstLive(s.events, s.row.document.config.rooms[i].id) < |s.events|
    ensures
      var k := FirstLive(s.events, s.row.document.config.rooms[i].id);
      TickedEvent(s, k, now) ==
        if s.events[k].state == Paused then s.events[k]
        else if Empties(s, i, now) then s.events[k].(state := Completed)
        else if DemandOn(s, i, now) == Nothing then s.events[k] else s.events[k].(state := Running)
  {
    H.InvNotes(s);
    H.ConfigRoomsDistinct(s.row.document.config);
    var k := FirstLive(s.events, s.row.document.config.rooms[i].id);
    hide H.Inv, SafeToDrain, RuntimeValid, ConfigValid, DistinctRooms, H.Uniform;
    TickedRows(s, i, now, k);
    hide TickedEvent, FirstLive;
  }

  /** Both, for the document and the rows an accepted tick leaves in every reachable state; inactive rooms stay. */
  lemma StagesOverRuns(s0: State, ts: seq<(Transaction, int, Signer)>, s: State, i: nat, now: int, signer: Signer)
    requires Initial(s0) && H.Reach(s0, ts, s) && i < |s.row.document.runtimes|
    ensures Aligned(s.row.document)
    ensures
      var t, reply := Tick(s, now, signer).0, Tick(s, now, signer).1;
      var k := FirstLive(s.events, s.row.document.config.rooms[i].id);
      reply == Accepted ==>
        && |t.row.document.runtimes| == |s.row.document.runtimes| && |t.events| == |s.events|
        && (var was, r := s.row.document.runtimes[i].runtime, t.row.document.runtimes[i].runtime;
            && (!s.row.document.config.rooms[i].active ==> r == was)
            && (s.row.document.config.rooms[i].active ==>
                  && (DemandOn(s, i, now) == Prequeue ==> r.mode == Hold)
                  && (DemandOn(s, i, now) == Admission ==> r.mode == Auto)
                  && (DemandOn(s, i, now) == Drain ==> r.mode == if Empties(s, i, now) then Off else Draining)
                  && (DemandOn(s, i, now) == Nothing ==> if Empties(s, i, now) then r.mode == Off else r == was)
                  && (DemandOn(s, i, now) != Nothing && !Empties(s, i, now) ==>
                        r.eventState == EventRunning && k < |s.events|
                            && t.events[k] == s.events[k].(state := Running))))
  {
    H.InitialInv(s0);
    H.ReachKeepsInv(s0, ts, s);
    H.InvNotes(s);
    hide H.Inv, H.Uniform, DeliveryValid, RuntimeValid, Tick, TickedRuntime, TickedEvent, FirstLive, SafeToDrain;
    if Tick(s, now, signer).1 == Accepted {
      ViewAfterTick(s, i, now, signer);
      if s.row.document.config.rooms[i].active {
        StageByTheClock(s, i, now);
        if FirstLive(s.events, s.row.document.config.rooms[i].id) < |s.events| {
          EventByTheClock(s, i, now);
        }
      } else {
        InactiveStays(s, i, now);
      }
    }
  }

  lemma InactiveStays(s: State, i: nat, now: int)
    requires Aligned(s.row.document) && i < |s.row.document.runtimes| && !s.row.document.config.rooms[i].active
    ensures TickedRuntime(s, i, now) == s.row.document.runtimes[i].runtime
  {
    hide RuntimeValid;
  }

  // ---------------------------------------------------------------- catch-up after missed ticks

  /** The mode the schedule gives room i at time t, before any drain. */
  function ScheduledMode(s: State, i: nat, t: int): Mode
    requires Aligned(s.row.document) && i < |s.row.document.runtimes|
  {
    StartDue(ViewOf(s, i), t).mode
  }

  predicate Drains(s: State, i: nat, t: int)
    requires Aligned(s.row.document) && i < |s.row.document.runtimes|
  {
    && s.row.document.config.rooms[i].active && ScheduledMode(s, i, t) == Draining
    && SafeToDrain(s, s.row.document.config.rooms[i].id, s.row.document.runtimes[i].runtime, t)
  }

  /** The live event of a room after its first one. */
  function SecondLive(events: seq<Event>, roomId: string): Option<Event> {
    var k := FirstLive(events, roomId);
    if k == |events| then None
    else
      var j := FirstLive(events[k + 1..], roomId);
      if j < |events| - k - 1 then Some(events[k + 1 + j]) else None
  }

  /** The second event of the room already overtook the first by t, and so calls for DRAINING itself. */
  predicate Overtaken(s: State, i: nat, t: int)
    requires Aligned(s.row.document) && i < |s.row.document.runtimes|
  {
    var id := s.row.document.config.rooms[i].id;
    var k, f := FirstLive(s.events, id), SecondLive(s.events, id);
    k < |s.events| && s.events[k].state != Paused && f.Some? && f.value.state != Paused && f.value.drainAt <= t
  }

  lemma StartDueTwice(x: RoomView, t1: int, t2: int)
    requires t1 <= t2
    ensures StartDue(StartDue(x, t1), t2) == StartDue(x, t2)
  {
  }

  /** What a committed tick leaves of room i. */
  lemma ViewAfterTick(s: State, i: nat, t: int, signer: Signer)
    requires H.Inv(s) && i < |s.row.document.runtimes| && Aligned(s.row.document) && Tick(s, t, signer).1 == Accepted
    ensures
      var s1 := Tick(s, t, signer).0;
      && Aligned(s1.row.document) && |s1.row.document.runtimes| == |s.row.document.runtimes|
      && s1.row.document.config == s.row.document.config && s1.events == TickedEvents(s, t)
      && s1.row.document.runtimes[i].runtime == TickedRuntime(s, i, t)
  {
    hide TickedRuntime, TickedEvent, ConfigValid, RuntimeValid;
    H.TickKeepsInv(s, t, signer);
    H.InvNotes(Tick(s, t, signer).0);
    hide H.Inv;
  }

  lemma TickedModeIs(s: State, i: nat, t: int)
    requires Aligned(s.row.document) && i < |s.row.document.runtimes|
    ensures TickedRuntime(s, i, t).mode == TickedView(s, i, t).mode
        && TickedRuntime(s, i, t).eventState == TickedView(s, i, t).mark
  {
    hide TickedView;
  }

  /** The rows of room i after a tick: all but its first live event stay. */
  lemma TickedRows(s: State, i: nat, t: int, k: nat)
    requires Aligned(s.row.document) && DistinctRooms(s.row.document.config.rooms) && i < |s.row.document.runtimes|
    requires k < |s.events| && s.events[k].roomId == s.row.document.config.rooms[i].id
    ensures TickedEvent(s, k, t) == if FirstLive(s.events, s.events[k].roomId) == k && TickedView(s, i, t).first.Some?
                                    then TickedView(s, i, t).first.value else s.events[k]
  {
    FindUnique(s.row.document.config.rooms, i);
    hide TickedView, RuntimeValid;
  }

  lemma ViewWithoutDrain(s: State, i: nat, t: int, signer: Signer)
    requires H.Inv(s) && i < |s.row.document.runtimes| && Aligned(s.row.document) && Tick(s, t, signer).1 == Accepted
    requires s.row.document.config.rooms[i].active && !Drains(s, i, t)
    ensures ViewOf(Tick(s, t, signer).0, i) == StartDue(ViewOf(s, i), t)
  {
    H.InvNotes(s);
    H.ConfigRoomsDistinct(s.row.document.config);
    ViewAfterTick(s, i, t, signer);
    TickedModeIs(s, i, t);
    hide H.Inv, Tick, ConfigValid, RuntimeValid, TickedRuntime, SafeToDrain;
    var id, k := s.row.document.config.rooms[i].id, FirstLive(s.events, s.row.document.config.rooms[i].id);
    var rows := TickedEvents(s, t);
    forall m | 0 <= m < |rows|
      ensures rows[m] == TickedEvent(s, m, t) && rows[m].roomId == s.events[m].roomId
      ensures rows[m].roomId == id && m != k ==> rows[m] == s.events[m]
    {
      TickRevivesNothing(s, t, m);
      if s.events[m].roomId == id {
        TickedRows(s, i, t, m);
      }
    }
    if k < |s.events| {
      TickedRows(s, i, t, k);
    }
    hide TickedEvent;
    assert FirstLive(rows, id) == k;
  }

  /** Finishing the first live event brings up the second one. */
  lemma FirstAfterFinish(events: seq<Event>, rows: seq<Event>, id: string)
    requires |rows| == |events| && FirstLive(events, id) < |events| && !Live(rows[FirstLive(events, id)])
    requires forall m | 0 <= m < |rows| ::
               rows[m].roomId == events[m].roomId && (rows[m].roomId == id && m != FirstLive(events, id) ==>
                   rows[m] == events[m])
    ensures
      var f := FirstLive(rows, id);
      (if f < |rows| then Some(rows[f]) else None) == SecondLive(events, id)
  {
    hide FirstLive, Live;
    var k := FirstLive(events, id);
    var was := events[k + 1..];
    var j := FirstLive(was, id);
    forall m | 0 <= m < k + 1 + j
      ensures !(rows[m].roomId == id && Live(rows[m]))
    {
      if m > k {
        assert was[m - k - 1] == events[m];
      }
    }
    if j < |was| {
      assert was[j] == events[k + 1 + j];
    }
    FirstLiveIs(rows, id, k + 1 + j);
  }

  lemma FirstLiveIs(events: seq<Event>, id: string, k: nat)
    requires k <= |events| && (k < |events| ==> events[k].roomId == id && Live(events[k]))
    requires forall m | 0 <= m < k :: !(events[m].roomId == id && Live(events[m]))
    ensures FirstLive(events, id) == k
  {
  }

  lemma FirstStays(events: seq<Event>, rows: seq<Event>, id: string)
    requires |rows| == |events|
    requires forall m | 0 <= m < |rows| ::
               rows[m].roomId == events[m].roomId && (rows[m].roomId == id && m != FirstLive(events, id) ==>
                   rows[m] == events[m])
    requires FirstLive(events, id) < |events| ==> Live(rows[FirstLive(events, id)])
    ensures FirstLive(rows, id) == FirstLive(events, id)
  {
  }

  lemma TickedRowsOf(s: State, i: nat, t: int)
    requires Aligned(s.row.document) && DistinctRooms(s.row.document.config.rooms) && i < |s.row.document.runtimes|
    ensures
      var id, rows := s.row.document.config.rooms[i].id, TickedEvents(s, t);
      var k := FirstLive(s.events, id);
      && (forall m | 0 <= m < |rows| ::
          rows[m].roomId == s.events[m].roomId && (rows[m].roomId == id && m != k ==> rows[m] == s.events[m]))
      && (k < |rows| && TickedView(s, i, t).first.Some? ==> rows[k] == TickedView(s, i, t).first.value)
  {
    hide RuntimeValid, TickedView, TickedEvent;
    var id, k := s.row.document.config.rooms[i].id, FirstLive(s.events, s.row.document.config.rooms[i].id);
    forall m | 0 <= m < |s.events|
      ensures TickedEvent(s, m, t).roomId == s.events[m].roomId
      ensures s.events[m].roomId == id && m != k ==> TickedEvent(s, m, t) == s.events[m]
      ensures m == k && TickedView(s, i, t).first.Some? ==> TickedEvent(s, m, t) == TickedView(s, i, t).first.value
    {
      TickRevivesNothing(s, t, m);
      if s.events[m].roomId == id {
        TickedRows(s, i, t, m);
      }
    }
  }

  lemma DrainedView(s: State, i: nat, t: int)
    requires Aligned(s.row.document) && i < |s.row.document.runtimes| && Drains(s, i, t)
    ensures
      var v, k := TickedView(s, i, t), FirstLive(s.events, s.row.document.config.rooms[i].id);
      && v.mode == Off && (v.first.Some? <==> k < |s.events|)
      && (k < |s.events| ==> if s.events[k].state == Paused then v.first.value == s.events[k]
          else v.first.value.state == Completed)
  {
    hide SafeToDrain, RuntimeValid;
  }

  /** After a drain the room is OFF; an unpaused event is finished and the next one takes its place. */
  lemma ViewAfterDrain(s: State, i: nat, t: int, signer: Signer)
    requires H.Inv(s) && i < |s.row.document.runtimes| && Aligned(s.row.document) && Tick(s, t, signer).1 == Accepted
    requires Drains(s, i, t)
    ensures
      var id, v := s.row.document.config.rooms[i].id, ViewOf(Tick(s, t, signer).0, i);
      var k := FirstLive(s.events, id);
      && v.mode == Off
      && v.first == if k < |s.events| && s.events[k].state == Paused then Some(s.events[k])
          else SecondLive(s.events, id)
  {
    H.InvNotes(s);
    H.ConfigRoomsDistinct(s.row.document.config);
    ViewAfterTick(s, i, t, signer);
    TickedModeIs(s, i, t);
    hide H.Inv, Tick, ConfigValid, RuntimeValid, TickedRuntime, TickedView, TickedEvents, Drains, FirstLive,
        SecondLive, DistinctRooms;
    DrainedView(s, i, t);
    TickedRowsOf(s, i, t);
    var id, k := s.row.document.config.rooms[i].id, FirstLive(s.events, s.row.document.config.rooms[i].id);
    var rows := TickedEvents(s, t);
    if k == |s.events| || s.events[k].state == Paused {
      FirstStays(s.events, rows, id);
      NoFirstNoSecond(s.events, id);
    } else {
      FirstAfterFinish(s.events, rows, id);
    }
  }

  lemma NoFirstNoSecond(events: seq<Event>, id: string)
    ensures FirstLive(events, id) == |events| ==> SecondLive(events, id) == None
  {
  }

  /** A second live event starts only after the first one drains. */
  lemma SecondComesLater(events: seq<Event>, roomId: string)
    requires ScheduleInv(events) && SecondLive(events, roomId).Some?
    ensures events[FirstLive(events, roomId)].drainAt <= SecondLive(events, roomId).value.prequeueAt
    ensures Live(SecondLive(events, roomId).value) && WellTimed(SecondLive(events, roomId).value)
  {
    var k := FirstLive(events, roomId);
    var j := k + 1 + FirstLive(events[k + 1..], roomId);
    assert !Clash(events[k], events[j]) && Before(events[k], events[j]) && WellTimed(events[j]);
  }

  /** A drained room compared with the same room had it not been ticked. */
  lemma DrainedDiffers(x: RoomView, second: Option<Event>, v: RoomView, t1: int, t2: int)
    requires t1 <= t2 && StartDue(x, t1).mode == Draining && v.mode == Off
    requires x.first.Some? ==> Live(x.first.value)
    requires second.Some? ==>
        x.first.Some? && Live(second.value) && WellTimed(second.value)
        && x.first.value.drainAt <= second.value.prequeueAt
    requires x.first.Some? ==> WellTimed(x.first.value)
    requires v.first == if x.first.Some? && x.first.value.state == Paused then x.first else second
    ensures StartDue(v, t2).mode == StartDue(x, t2).mode <==>
              && x.first.Some? && x.first.value.state != Paused && second.Some? && second.value.state != Paused
              && second.value.drainAt <= t2
    ensures StartDue(v, t2).mode == Off <==>
              (x.first.Some? && x.first.value.state == Paused) || second.None? || NextEventMode(second.value, t2).None?
  {
  }

  /** After the room's present event is finished nothing calls for a mode at t: that event is paused and stays, or
      there is no next one, or the next one is paused or not yet due. */
  predicate NextIdle(s: State, i: nat, t: int)
    requires Aligned(s.row.document) && i < |s.row.document.runtimes|
  {
    var id := s.row.document.config.rooms[i].id;
    var k, f := FirstLive(s.events, id), SecondLive(s.events, id);
    (k < |s.events| && s.events[k].state == Paused) || f.None? || NextEventMode(f.value, t).None?
  }

  /** What the schedule alone gives the room at t2 after a committed tick at t1. */
  lemma ScheduleAfterTick(s: State, i: nat, t1: int, t2: int, signer: Signer)
    requires H.Inv(s) && ScheduleInv(s.events) && t1 <= t2
    requires i < |s.row.document.runtimes| && Aligned(s.row.document) && s.row.document.config.rooms[i].active
    requires Tick(s, t1, signer).1 == Accepted
    ensures Aligned(Tick(s, t1, signer).0.row.document) && i < |Tick(s, t1, signer).0.row.document.runtimes|
    ensures
      var m := ScheduledMode(Tick(s, t1, signer).0, i, t2);
      && (!Drains(s, i, t1) ==> m == ScheduledMode(s, i, t2))
      && (Drains(s, i, t1) ==>
          (m == Off <==> NextIdle(s, i, t2)) && (m == ScheduledMode(s, i, t2) <==> Overtaken(s, i, t2)))
  {
    var id := s.row.document.config.rooms[i].id;
    hide H.Inv, Tick, ScheduleInv, SafeToDrain, Aligned, StartDue, NextEventMode, FirstLive, SecondLive, Drains;
    ViewAfterTick(s, i, t1, signer);
    var x := ViewOf(s, i);
    if !Drains(s, i, t1) {
      ViewWithoutDrain(s, i, t1, signer);
      StartDueTwice(x, t1, t2);
    } else {
      ViewAfterDrain(s, i, t1, signer);
      DrainsWhenDraining(s, i, t1);
      EventsOfRoom(s, i);
      DrainedDiffers(x, SecondLive(s.events, id), ViewOf(Tick(s, t1, signer).0, i), t1, t2);
    }
  }

  lemma DrainsWhenDraining(s: State, i: nat, t: int)
    requires Aligned(s.row.document) && i < |s.row.document.runtimes| && Drains(s, i, t)
    ensures StartDue(ViewOf(s, i), t).mode == Draining
  {
    hide SafeToDrain, Aligned;
  }

  /** The first two live events of a room, in a sound schedule. */
  lemma EventsOfRoom(s: State, i: nat)
    requires Aligned(s.row.document) && i < |s.row.document.runtimes| && ScheduleInv(s.events)
    ensures
      var id, x := s.row.document.config.rooms[i].id, ViewOf(s, i);
      var second := SecondLive(s.events, id);
      && (x.first.Some? ==> Live(x.first.value) && WellTimed(x.first.value))
      && (second.Some? ==> x.first.Some? && Live(second.value) && WellTimed(second.value)
                           && x.first.value.drainAt <= second.value.prequeueAt)
  {
    var id, x := s.row.document.config.rooms[i].id, ViewOf(s, i);
    assert x.first.Some? ==> Live(x.first.value) && WellTimed(x.first.value);
    hide RuntimeValid, LimitsValid;
    NoFirstNoSecond(s.events, id);
    if SecondLive(s.events, id).Some? {
      SecondComesLater(s.events, id);
    }
  }

  lemma TickedModeOf(s: State, i: nat, t: int)
    requires Aligned(s.row.document) && i < |s.row.document.runtimes| && s.row.document.config.rooms[i].active
    ensures TickedRuntime(s, i, t).mode == if Drains(s, i, t) then Off else ScheduledMode(s, i, t)
  {
    TickedModeIs(s, i, t);
    hide SafeToDrain, RuntimeValid, TickedRuntime;
  }

  /** A tick that signs voids the acknowledgements, so no room drains at the next tick. */
  lemma SigningVoidsEvidence(s: State, i: nat, t1: int, t2: int, signer: Signer)
    requires H.Inv(s) && Aligned(s.row.document) && Tick(s, t1, signer).1 == Accepted
    requires Aligned(Tick(s, t1, signer).0.row.document) && i < |Tick(s, t1, signer).0.row.document.runtimes|
    requires Tick(s, t1, signer).0.row.generation != s.row.generation
    ensures !Drains(Tick(s, t1, signer).0, i, t2)
  {
    var s1 := Tick(s, t1, signer).0;
    assert s1.nodes == s.nodes && s1.row.generation == s.row.generation + 1;
    assert forall n | n in s.nodes :: s.nodes[n].generation <= s.row.generation;
    assert s1.nodes.Keys == {GatewayNode, CoordinatorNode} ==> GatewayNode in s1.nodes;
  }

  /** A tick that signs nothing leaves the published row, and drained nothing. */
  lemma UnsignedTick(s: State, i: nat, t1: int, signer: Signer)
    requires H.Inv(s) && i < |s.row.document.runtimes| && Aligned(s.row.document) && Tick(s, t1, signer).1 == Accepted
    requires s.row.document.config.rooms[i].active && Tick(s, t1, signer).0.row.generation == s.row.generation
    ensures Tick(s, t1, signer).0.row == s.row && Tick(s, t1, signer).0.nodes == s.nodes && !Drains(s, i, t1)
  {
    hide H.Inv, Aligned, TickedRuntime, DrainEvidence, ScheduledMode, SafeToDrain, TickedDelivery, TickedEvents,
        DeliveryValid;
    UnsignedRow(s, t1, signer);
    ViewAfterTick(s, i, t1, signer);
    TickedModeOf(s, i, t1);
    SafeMeansEvidence(s, i, t1);
  }

  lemma UnsignedRow(s: State, t: int, signer: Signer)
    requires Aligned(s.row.document) && Tick(s, t, signer).1 == Accepted
        && Tick(s, t, signer).0.row.generation == s.row.generation
    ensures Tick(s, t, signer).0 == s.(events := TickedEvents(s, t))
  {
    hide Aligned, TickedDelivery, TickedEvents, DeliveryValid;
  }

  /** Whether a drain is safe depends on the row and the node rows only. */
  lemma SafetyIgnoresEvents(s: State, events: seq<Event>, roomId: string, r: Runtime, t: int)
    ensures SafeToDrain(s.(events := events), roomId, r, t) == SafeToDrain(s, roomId, r, t)
  {
    hide LastVerdict;
  }

  /**
    Catch-up, exactly: the mode that ticking at t1 and then t2 reaches is the mode that ticking only at t2 reaches if
    and only if the first tick signed nothing, or
    - it did not drain the room and the room would not drain at t2 either, or
    - it drained the room, which would drain at t2 too, and nothing else is due by then, or
    - it drained the room, which would not drain at t2, and the next event was itself over by then.
    Signing counts for every room because it voids the acknowledgements a drain at t2 needs.
  */
  lemma CatchUpTheorem(s: State, i: nat, t1: int, t2: int, signer: Signer)
    requires H.Inv(s) && ScheduleInv(s.events) && t1 <= t2
    requires i < |s.row.document.runtimes| && Aligned(s.row.document) && s.row.document.config.rooms[i].active
    requires Tick(s, t1, signer).1 == Accepted
    ensures
      var s1 := Tick(s, t1, signer).0;
      && Aligned(s1.row.document) && i < |s1.row.document.runtimes|
      && (TickedRuntime(s1, i, t2).mode == TickedRuntime(s, i, t2).mode <==>
            || s1.row.generation == s.row.generation
            || (if !Drains(s, i, t1) then !Drains(s, i, t2)
                else if Drains(s, i, t2) then NextIdle(s, i, t2) else Overtaken(s, i, t2)))
  {
    ScheduleAfterTick(s, i, t1, t2, signer);
    ViewAfterTick(s, i, t1, signer);
    hide H.Inv, Tick, ScheduleInv, SafeToDrain, Aligned, TickedRuntime, NextIdle, Overtaken, TickedEvents,
        ScheduledMode;
    var s1 := Tick(s, t1, signer).0;
    TickedModeOf(s, i, t2);
    TickedModeOf(s1, i, t2);
    if s1.row.generation == s.row.generation {
      UnsignedTick(s, i, t1, signer);
      UnsignedRow(s, t1, signer);
      SafetyIgnoresEvents(s, s1.events, s.row.document.config.rooms[i].id, s.row.document.runtimes[i].runtime, t2);
    } else {
      SigningVoidsEvidence(s, i, t1, t2, signer);
    }
  }
}
