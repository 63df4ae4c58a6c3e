/**
  What each transaction of Control is for, said without its body: when it is accepted, what it changes, and what it
  leaves alone. Everything holds in every state that keeps the history invariant, so in every reachable one.
*/
module PublicationEffects {
  import opened Base
  import opened ControlConfig
  import opened ControlRuntime
  import opened Publication
  import H = PublicationHistory
  import S = Scheduler

  // ---------------------------------------------------------------- drafts and publishing

  /** Published rooms are all still there, under their public ids. */
  predicate RoomsKept(s: State) {
    forall r | r in s.row.document.config.rooms ::
      exists q | q in s.draft.rooms :: q.id == r.id && q.publicId == r.publicId
  }

  /** No room that takes traffic is rerouted, restricted differently or deactivated. */
  predicate NothingLiveMoves(s: State)
    requires Aligned(s.row.document)
  {
    forall i, q | 0 <= i < |s.row.document.runtimes| && q in s.draft.rooms
        && q.id == s.row.document.config.rooms[i].id ::
      s.row.document.runtimes[i].runtime.mode == Off
      || (var was := s.row.document.config.rooms[i];
          && q.active && q.origin == was.origin && q.hostname == was.hostname && q.policy == was.policy
          && q.protect == was.protect && q.exclude == was.exclude)
  }

  predicate RevisionsLeft(d: Delivery) {
    forall i | 0 <= i < |d.runtimes| :: d.runtimes[i].runtime.revision + 1 < COUNTER_CEILING
  }

  /** The runtime of a draft room: a published room keeps its state and takes the draft's limits; a room switched on
      starts in HOLD, one switched off is OFF; a new room joins the installation's epoch. */
  predicate PublishedAs(d: Delivery, q: Room, r: Runtime)
    requires |d.runtimes| == |d.config.rooms|
  {
    && r.limits == q.limits
    && (forall i | 0 <= i < |d.runtimes| && d.config.rooms[i].id == q.id ::
          var prior := d.runtimes[i].runtime;
          && r.revision == prior.revision + 1 && r.epoch == prior.epoch && r.recoveryUntil == prior.recoveryUntil
          && r.eventState == prior.eventState
          && r.mode == if !q.active then Off else if !d.config.rooms[i].active then Hold else prior.mode)
    && ((forall i | 0 <= i < |d.runtimes| :: d.config.rooms[i].id != q.id) ==>
          && r.revision == 1 && r.eventState == NoEvent && r.mode == (if q.active then Hold else Off)
          && (|d.runtimes| > 0 ==>
                r.epoch == d.runtimes[0].runtime.epoch && r.recoveryUntil == d.runtimes[0].runtime.recoveryUntil)
          && (|d.runtimes| == 0 ==> r.epoch == 1 && r.recoveryUntil == 0))
  }

  lemma {:induction false} ConflictMeans(published: seq<Room>, draft: seq<Room>)
    requires DistinctRooms(draft)
    ensures RemovalConflict(published, draft) == None <==>
              forall r | r in published :: exists q | q in draft :: q.id == r.id && q.publicId == r.publicId
  {
    if published != [] {
      ConflictMeans(published[1..], draft);
      var r, i := published[0], Find(draft, published[0].id);
      assert forall x :: x in published <==> x == r || x in published[1..];
      if i < |draft| {
        assert draft[i] in draft;
        forall q | q in draft && q.id == r.id
          ensures q == draft[i]
        {
          var j :| 0 <= j < |draft| && draft[j] == q;
          assert i == j;
        }
      }
    }
  }

  lemma DrainMeans(s: State)
    requires Aligned(s.row.document) && DistinctRooms(s.row.document.config.rooms)
    ensures (exists j | 0 <= j < |s.draft.rooms| :: NeedsDrain(s.row.document, s.draft.rooms[j])) <==>
        !NothingLiveMoves(s)
  {
    hide RuntimeValid;
    var d := s.row.document;
    if j :| 0 <= j < |s.draft.rooms| && NeedsDrain(d, s.draft.rooms[j]) {
      assert s.draft.rooms[j] in s.draft.rooms;
    }
    forall i, q | 0 <= i < |d.runtimes| && q in s.draft.rooms && q.id == d.config.rooms[i].id && !NeedsDrain(d, q)
      ensures d.runtimes[i].runtime.mode == Off || (q.active && q.origin == d.config.rooms[i].origin
              && q.hostname == d.config.rooms[i].hostname && q.policy == d.config.rooms[i].policy
              && q.protect == d.config.rooms[i].protect && q.exclude == d.config.rooms[i].exclude)
    {
      FindUnique(d.config.rooms, i);
    }
  }

  lemma RuntimePublished(d: Delivery, q: Room)
    requires Aligned(d) && DistinctRooms(d.config.rooms)
    ensures PublishedAs(d, q, PublishedRuntime(d, q))
  {
    hide RuntimeValid;
    forall i | 0 <= i < |d.runtimes| && d.config.rooms[i].id == q.id
      ensures Find(d.config.rooms, q.id) == i
    {
      FindUnique(d.config.rooms, i);
    }
  }

  /** Every room's next runtime is valid exactly while no published revision runs out. */
  lemma PublishedIsValid(s: State)
    requires H.Inv(s) && RoomsKept(s)
    ensures Aligned(s.row.document)
    ensures DeliveryValid(PublishedDelivery(s.row.document, s.draft)) <==> RevisionsLeft(s.row.document)
  {
    H.InvNotes(s);
    H.ConfigRoomsDistinct(s.row.document.config);
    DraftIsValid(s);
    var d, p := s.row.document, PublishedDelivery(s.row.document, s.draft);
    hide H.Inv, H.Uniform, ConfigValid, Overlap, PublishedRuntime;
    forall j | 0 <= j < |s.draft.rooms|
      ensures PublishedAs(d, s.draft.rooms[j], p.runtimes[j].runtime) && RoomValid(s.draft.rooms[j], s.draft.profile)
    {
      RuntimePublished(d, s.draft.rooms[j]);
    }
    if RevisionsLeft(d) {
      AllRuntimesValid(s);
    } else {
      var i :| 0 <= i < |d.runtimes| && d.runtimes[i].runtime.revision + 1 >= COUNTER_CEILING;
      var was := d.config.rooms[i];
      assert was in d.config.rooms;
      var q :| q in s.draft.rooms && q.id == was.id && q.publicId == was.publicId;
      var j :| 0 <= j < |s.draft.rooms| && s.draft.rooms[j] == q;
      assert p.runtimes[j].runtime.revision == d.runtimes[i].runtime.revision + 1;
    }
  }

  lemma DraftIsValid(s: State)
    requires H.Inv(s)
    ensures ConfigValid(s.draft) && DistinctRooms(s.draft.rooms)
    ensures forall j | 0 <= j < |s.draft.rooms| :: RoomValid(s.draft.rooms[j], s.draft.profile)
  {
  }

  lemma AllRuntimesValid(s: State)
    requires H.Inv(s) && Aligned(s.row.document) && RevisionsLeft(s.row.document)
    ensures DeliveryValid(PublishedDelivery(s.row.document, s.draft))
  {
    DraftIsValid(s);
    var d := s.row.document;
    hide H.Inv, ConfigValid, Overlap;
    forall j | 0 <= j < |s.draft.rooms|
      ensures
        var r := PublishedRuntime(d, s.draft.rooms[j]);
        RuntimeValid(r, s.draft.profile) && (!s.draft.rooms[j].active ==> r.mode == Off)
    {
      assert RoomValid(s.draft.rooms[j], s.draft.profile);
      hide PrefixListValid, PolicyValid;
    }
  }

  /**
    Publishing: accepted exactly when the draft is the one the operator saw, keeps every published room, moves nothing
    that takes traffic, and can be signed. Then the draft is the published configuration, every room's runtime is as
    promised, and drafts, events and acknowledgements stay; otherwise nothing changes.
  */
  lemma PublishOutcome(s: State, ifMatch: int, now: int, signer: Signer)
    requires H.Inv(s)
    ensures Aligned(s.row.document)
    ensures
      var (t, reply) := Publish(s, ifMatch, now, signer);
      && (reply == Accepted <==>
            && ifMatch == s.draft.revision && RoomsKept(s) && NothingLiveMoves(s) && RevisionsLeft(s.row.document)
            && CanSign(s, now, signer))
      && (reply != Accepted ==> t == s)
      && (reply == Accepted ==>
            && t == s.(row := t.row, log := t.log) && t.row.generation == s.row.generation + 1
            && t.row.document.config == s.draft && |t.row.document.runtimes| == |s.draft.rooms|
            && forall j | 0 <= j < |s.draft.rooms| ::
                 t.row.document.runtimes[j].roomId == s.draft.rooms[j].id
                 && PublishedAs(s.row.document, s.draft.rooms[j], t.row.document.runtimes[j].runtime))
  {
    H.InvNotes(s);
    hide H.Inv, H.Uniform, Aligned, DeliveryValid, NothingLiveMoves, CanSign, Sign, RevisionsLeft, RoomsKept, Publish,
      NeedsDrain, RemovalConflict, PublishedAs, PublishedRuntime;
    PublishCases(s, ifMatch, now, signer);
    ConflictsMean(s);
    RuntimesPublished(s);
    var d := PublishedDelivery(s.row.document, s.draft);
    if RoomsKept(s) {
      PublishedIsValid(s);
    }
    if DeliveryValid(d) {
      SignsExactlyWhen(s, d, now, signer);
    } else {
      InvalidIsNotSigned(s, d, now, signer);
    }
  }

  lemma PublishCases(s: State, ifMatch: int, now: int, signer: Signer)
    requires Aligned(s.row.document)
    ensures
      var (t, reply) := Publish(s, ifMatch, now, signer);
      var signed := Sign(s, PublishedDelivery(s.row.document, s.draft), now, signer);
      var ok := ifMatch == s.draft.revision && RemovalConflict(s.row.document.config.rooms, s.draft.rooms).None?
                && !(exists j | 0 <= j < |s.draft.rooms| :: NeedsDrain(s.row.document, s.draft.rooms[j]))
                && signed.Some?;
      (reply == Accepted <==> ok) && t == if ok then signed.value else s
  {
    hide Aligned, DeliveryValid, Sign, RemovalConflict, NeedsDrain, PublishedDelivery;
  }

  lemma ConflictsMean(s: State)
    requires H.Inv(s) && Aligned(s.row.document)
    ensures RemovalConflict(s.row.document.config.rooms, s.draft.rooms).None? <==> RoomsKept(s)
    ensures (exists j | 0 <= j < |s.draft.rooms| :: NeedsDrain(s.row.document, s.draft.rooms[j])) <==>
        !NothingLiveMoves(s)
  {
    H.InvNotes(s);
    H.ConfigRoomsDistinct(s.row.document.config);
    DraftIsValid(s);
    hide H.Inv, H.Uniform, Aligned, DeliveryValid, ConfigValid, RoomValid, NeedsDrain, NothingLiveMoves,
        RemovalConflict, DistinctRooms;
    ConflictMeans(s.row.document.config.rooms, s.draft.rooms);
    DrainMeans(s);
  }

  lemma RuntimesPublished(s: State)
    requires H.Inv(s) && Aligned(s.row.document)
    ensures
      var d := PublishedDelivery(s.row.document, s.draft);
      && d.config == s.draft && |d.runtimes| == |s.draft.rooms|
      && |s.row.document.runtimes| == |s.row.document.config.rooms|
      && forall j | 0 <= j < |s.draft.rooms| ::
           d.runtimes[j].roomId == s.draft.rooms[j].id
               && PublishedAs(s.row.document, s.draft.rooms[j], d.runtimes[j].runtime)
  {
    H.InvNotes(s);
    H.ConfigRoomsDistinct(s.row.document.config);
    hide H.Inv, H.Uniform, DeliveryValid, PublishedAs, PublishedRuntime, RuntimeValid, DistinctRooms;
    forall j | 0 <= j < |s.draft.rooms|
      ensures PublishedAs(s.row.document, s.draft.rooms[j], PublishedRuntime(s.row.document, s.draft.rooms[j]))
    {
      RuntimePublished(s.row.document, s.draft.rooms[j]);
    }
  }

  lemma InvalidIsNotSigned(s: State, d: Delivery, now: int, signer: Signer)
    requires !DeliveryValid(d)
    ensures Sign(s, d, now, signer).None?
  {
    hide DeliveryValid;
  }

  /**
    An edit reaches the data plane. A draft is saved exactly when it is valid, fits, carries the revision its editor
    saw and keeps the profile and the region; every other editor with that revision is then refused, and publishing
    signs exactly the saved configuration.
  */
  lemma SavedDraftIsPublished(s: State, next: Config, ifMatch: int, other: Config, fits: bool, now: int, signer: Signer)
    requires H.Inv(s)
    ensures
      var (t, reply) := ReplaceDraft(s, next, ifMatch, fits);
      && (reply == Accepted <==>
            && ifMatch == s.draft.revision && ConfigValid(next) && fits && s.draft.revision + 1 < COUNTER_CEILING
            && next == s.draft.(schemaVersion := next.schemaVersion, rooms := next.rooms))
      && (reply != Accepted ==> t == s)
      && (reply == Accepted ==>
            && t == s.(draft := next.(revision := ifMatch + 1))
            && ReplaceDraft(t, other, ifMatch, true) == (t, Rejected(RevisionMismatch))
            && H.Inv(t) && Aligned(t.row.document)
            && (Publish(t, ifMatch + 1, now, signer).1 == Accepted ==>
                  Publish(t, ifMatch + 1, now, signer).0.row.document.config == next.(revision := ifMatch + 1)))
  {
    var t := ReplaceDraft(s, next, ifMatch, fits).0;
    H.InvNotes(s);
    hide H.Inv, H.Uniform, Aligned, ConfigValid, Publish, DeliveryValid;
    if ifMatch == s.draft.revision {
      SavingKeepsInv(s, next, fits, now, signer);
      PublishOutcome(t, t.draft.revision, now, signer);
    }
    hide PublishedAs, RoomsKept, NothingLiveMoves, RevisionsLeft, CanSign;
  }

  lemma SavingKeepsInv(s: State, next: Config, fits: bool, now: int, signer: Signer)
    requires H.Inv(s)
    ensures H.Inv(ReplaceDraft(s, next, s.draft.revision, fits).0)
  {
    H.InvNotes(s);
    H.StepKeepsInv(s, TReplaceDraft(next, s.draft.revision, fits), now, signer);
    hide H.Inv, H.Uniform, Aligned, ReplaceDraft, DeliveryValid;
  }

  // ---------------------------------------------------------------- setup

  lemma DraftRises(s: State, t: Transaction, now: int, signer: Signer)
    requires H.Inv(s)
    ensures Aligned(s.row.document) && Step(s, t, now, signer).draft.revision >= s.draft.revision
    ensures s.draft.revision > 0 ==> Step(s, t, now, signer).draft.profile == s.draft.profile
  {
    H.InvNotes(s);
    OthersKeepDraft(s, t, now, signer);
    hide *;
    if t.TReplaceDraft? || t.TSetup? {
      DraftSteps(s, t, now, signer);
    }
  }

  lemma DraftSteps(s: State, t: Transaction, now: int, signer: Signer)
    requires Aligned(s.row.document) && (t.TReplaceDraft? || t.TSetup?)
    ensures Step(s, t, now, signer).draft.revision >= s.draft.revision
    ensures s.draft.revision > 0 ==> Step(s, t, now, signer).draft.profile == s.draft.profile
  {
    hide Aligned, ConfigValid;
  }

  lemma OthersKeepDraft(s: State, t: Transaction, now: int, signer: Signer)
    requires Aligned(s.row.document)
    ensures t.TReplaceDraft? || t.TSetup? || Step(s, t, now, signer).draft == s.draft
  {
    hide Aligned, DeliveryValid, NextEvent, Upsert, MarkFor, WithRuntime, PauseEvents, EpochDelivery, OperatedRuntime,
      Operated, TickedDelivery, TickedEvents, PublishedDelivery, RemovalConflict, NeedsDrain, MetricsMatch, SnapshotFor,
      CT.Structural, ChangeEvent, Find, IndexOfId;
    if t.TChangeEvent? {
      var changed, events, i, r :=
        H.ChangeEventShape(s, t.room, t.eventId, t.verb, t.ifMatch, t.newId, now, signer);
    }
  }

  lemma {:induction false} DraftRisesOverRuns(s: State, ts: seq<(Transaction, int, Signer)>, t: State)
    requires H.Inv(s) && H.Reach(s, ts, t)
    ensures t.draft.revision >= s.draft.revision && (s.draft.revision > 0 ==> t.draft.profile == s.draft.profile)
    decreases |ts|
  {
    if ts != [] {
      var (x, now, signer) := ts[0];
      H.StepKeepsInv(s, x, now, signer);
      DraftRises(s, x, now, signer);
      hide H.Inv, Step;
      DraftRisesOverRuns(Step(s, x, now, signer), ts[1..], t);
    }
  }

  /**
    Setup happens once: it succeeds exactly on an installation nobody has edited, takes the signed row out of force
    until the next signature, and after it no run ever lets a setup succeed or changes the profile again.
  */
  lemma SetupIsOnce(s: State, profile: Profile, region: string, ts: seq<(Transaction, int, Signer)>, t: State,
      again: Profile,
      elsewhere: string)
    requires H.Inv(s)
    ensures
      var (u, reply) := ApplySetup(s, profile, region);
      && (reply == Accepted <==>
            s.draft.revision == 0 && profile != OtherProfile && s.row.generation + 1 < COUNTER_CEILING)
      && (reply != Accepted ==> u == s)
      && (reply == Accepted ==>
            && u.draft == u.row.document.config == Config(s.draft.schemaVersion, 1, profile, region, [])
            && u.row.envelope == None && u.row.generation == s.row.generation + 1)
      && (reply == Accepted && H.Reach(u, ts, t) ==>
            t.draft.profile == profile && ApplySetup(t, again, elsewhere) == (t, Rejected(SetupConflict)))
  {
    var (u, reply) := ApplySetup(s, profile, region);
    H.InvNotes(s);
    H.StepKeepsInv(s, TSetup(profile, region), 0, Signer("", 0, ""));
    hide H.Inv, H.Uniform, Aligned, DeliveryValid, H.Reach;
    if reply == Accepted && H.Reach(u, ts, t) {
      DraftRisesOverRuns(u, ts, t);
    }
  }

  // ---------------------------------------------------------------- operator commands

  /** The mode an ordinary action leaves: set-limits keeps it. */
  function ModeAfter(a: Action, mode: Mode): Mode {
    match a
    case InstantOff => Off
    case ToAuto => Auto
    case ToHold => Hold
    case SafeDrain => Draining
    case _ => mode
  }

  predicate Ordinary(c: Command) {
    && c.action != NewEpoch && c.action != UnknownAction && c.scope == NoScope && c.generation == None
    && (c.limits.Some? <==> c.action == SetLimits)
  }

  /** An ordinary event of the room is about to be overridden. */
  predicate Overrides(events: seq<Event>, roomId: string) {
    exists e | e in events :: e.roomId == roomId && (e.state == Scheduled || e.state == Running)
  }

  /** The due and future events of a room, or of all, are paused; every other event stays. */
  predicate PausedIn(before: seq<Event>, after: seq<Event>, roomId: Option<string>) {
    && |after| == |before|
    && forall k | 0 <= k < |before| ::
         after[k] == if (roomId.None? || roomId.value == before[k].roomId)
                        && (before[k].state == Scheduled || before[k].state == Running)
                     then before[k].(state := Paused) else before[k]
  }

  /**
    An operator command on one room: accepted exactly when it is well formed, names the revision the operator saw of a
    published active room, and can be signed. The room takes the mode or the limits asked for at its next revision and
    carries the mark of an overridden schedule; every other room and the configuration stay; otherwise nothing changes.
  */
  lemma OperateOutcome(s: State, i: nat, ifMatch: int, c: Command, now: int, signer: Signer)
    requires H.Inv(s) && i < |s.row.document.runtimes| && c.action != NewEpoch
    ensures Aligned(s.row.document) && |s.row.document.config.rooms| == |s.row.document.runtimes|
    ensures
      var d, room := s.row.document, s.row.document.config.rooms[i];
      var (t, reply) := Operate(s, room.id, ifMatch, c, now, signer);
      var was := d.runtimes[i].runtime;
      && (reply == Accepted <==>
            && Ordinary(c) && ifMatch == was.revision && room.active && was.revision + 1 < COUNTER_CEILING
            && (c.action == SetLimits ==>
                  LimitsValid(c.limits.value, s.draft.profile) && LimitsValid(c.limits.value, d.config.profile))
            && CanSign(s, now, signer))
      && (reply != Accepted ==> t == s)
      && (reply == Accepted ==>
            && t == s.(row := t.row, log := t.log, events := t.events) && t.row.generation == s.row.generation + 1
            && PausedIn(s.events, t.events, Some(room.id)) && i < |t.row.document.runtimes|
            && t.row.document == WithRuntime(d, i, t.row.document.runtimes[i].runtime)
            && t.row.document.runtimes[i].runtime ==
               was.(mode := ModeAfter(c.action, was.mode), revision := was.revision + 1,
                    limits := if c.action == SetLimits then c.limits.value else was.limits,
                    eventState := if Overrides(s.events, room.id) then EventPaused else was.eventState))
  {
    H.InvNotes(s);
    H.ConfigRoomsDistinct(s.row.document.config);
    FindUnique(s.row.document.config.rooms, i);
    assert |s.row.document.config.rooms| == |s.row.document.runtimes|;
    hide H.Inv, H.Uniform, Aligned, DeliveryValid, DistinctRooms, CanSign, Sign, PauseEvents, Overrides, PausedIn, Find;
    PausesMean(s.events, s.row.document.config.rooms[i].id);
    OrdinaryCases(s, i, c, now, signer);
    var next := Operated(s.row.document.runtimes[i].runtime, c, s.draft.profile);
    if Ordinary(c) && next.Some? && s.row.document.config.rooms[i].active {
      var r := OperatedRuntime(s, s.row.document.config.rooms[i].id, s.row.document.runtimes[i].runtime, next.value);
      OneRuntimeSigned(s, PauseEvents(s.events, Some(s.row.document.config.rooms[i].id)), i, r, now, signer);
    }
  }

  lemma PausesMean(events: seq<Event>, roomId: string)
    ensures PausedIn(events, PauseEvents(events, Some(roomId)), Some(roomId))
        && PausedIn(events, PauseEvents(events, None), None)
    ensures Overrides(events, roomId) <==>
              exists k | 0 <= k < |events| :: events[k].roomId == roomId && Pausable(events[k])
  {
    if e :| e in events && e.roomId == roomId && (e.state == Scheduled || e.state == Running) {
      var k :| 0 <= k < |events| && events[k] == e;
      assert Pausable(events[k]);
    }
  }

  lemma OrdinaryCases(s: State, i: nat, c: Command, now: int, signer: Signer)
    requires Aligned(s.row.document) && i < |s.row.document.runtimes|
        && |s.row.document.config.rooms| == |s.row.document.runtimes|
    ensures
      var d, roomId := s.row.document, s.row.document.config.rooms[i].id;
      var next := Operated(d.runtimes[i].runtime, c, s.draft.profile);
      var ok := Ordinary(c) && d.config.rooms[i].active && next.Some?;
      && (!ok && c.action != NewEpoch ==>
            OrdinaryStep(s, i, c, now, signer).0 == s && OrdinaryStep(s, i, c, now, signer).1 != Accepted)
      && (ok ==>
            OrdinaryStep(s, i, c, now, signer) ==
            SignOr(s.(events := PauseEvents(s.events, Some(roomId))),
                   WithRuntime(d, i, OperatedRuntime(s, roomId, d.runtimes[i].runtime, next.value)), now, signer,
                       Failed, s))
      && (next.Some? <==> c.action in {InstantOff, ToAuto, ToHold, SafeDrain}
                          || (c.action == SetLimits && c.limits.Some? && LimitsValid(c.limits.value, s.draft.profile)))
  {
    hide Aligned, SignOr, PauseEvents, OperatedRuntime, WithRuntime;
  }

  /** Signing a document in which one room moved succeeds exactly when the new runtime is valid. */
  lemma OneRuntimeSigned(s: State, events: seq<Event>, i: nat, r: Runtime, now: int, signer: Signer)
    requires H.Inv(s) && Aligned(s.row.document) && i < |s.row.document.runtimes|
    requires |s.row.document.config.rooms| == |s.row.document.runtimes|
    requires s.row.document.config.rooms[i].active || r.mode == Off
    ensures
      var (t, reply) := SignOr(s.(events := events), WithRuntime(s.row.document, i, r), now, signer, Failed, s);
      && (reply == Accepted <==> RuntimeValid(r, s.row.document.config.profile) && CanSign(s, now, signer))
      && (reply != Accepted ==> t == s)
      && (reply == Accepted ==>
            && t == s.(row := t.row, log := t.log, events := events) && t.row.generation == s.row.generation + 1
            && t.row.document == WithRuntime(s.row.document, i, r))
  {
    H.InvNotes(s);
    OneRuntimeValid(s.row.document, i, r);
    hide H.Inv, H.Uniform, Aligned, DeliveryValid, CanSign, Sign, WithRuntime;
    var d := WithRuntime(s.row.document, i, r);
    assert CanSign(s.(events := events), now, signer) == CanSign(s, now, signer) by {
      SigningIgnoresEvents(s, events, now, signer);
    }
    if DeliveryValid(d) {
      SignsExactlyWhen(s.(events := events), d, now, signer);
    } else {
      InvalidIsNotSigned(s.(events := events), d, now, signer);
    }
  }

  lemma SigningIgnoresEvents(s: State, events: seq<Event>, now: int, signer: Signer)
    ensures CanSign(s.(events := events), now, signer) == CanSign(s, now, signer)
  {
  }

  lemma OneRuntimeValid(d: Delivery, i: nat, r: Runtime)
    requires DeliveryValid(d) && i < |d.runtimes| && (d.config.rooms[i].active || r.mode == Off)
    ensures DeliveryValid(WithRuntime(d, i, r)) <==> RuntimeValid(r, d.config.profile)
  {
    hide ConfigValid, RuntimeValid;
    assert WithRuntime(d, i, r).runtimes[i].runtime == r;
  }

  /** Every room enters the next epoch: HOLD or OFF, a recovery boundary, its schedule overridden. */
  predicate InNewEpoch(d: Delivery, e: Delivery, until: int)
    requires |d.runtimes| == |d.config.rooms|
  {
    && e.config == d.config && |e.runtimes| == |d.runtimes|
    && forall k | 0 <= k < |d.runtimes| ::
         var was, r := d.runtimes[k].runtime, e.runtimes[k].runtime;
         && e.runtimes[k].roomId == d.runtimes[k].roomId && r.epoch == was.epoch + 1 && r.revision == was.revision + 1
         && r.recoveryUntil == until && r.limits == was.limits
         && r.mode == (if d.config.rooms[k].active then Hold else Off)
         && r.eventState ==
            (if was.eventState == EventScheduled || was.eventState == EventRunning then EventPaused else was.eventState)
  }

  function RecoveryEnd(now: int): int {
    (now + 3630 * MICROS_PER_SECOND) / 1000
  }

  /**
    The installation-wide new epoch: accepted exactly when it names the revision of a published room and the published
    generation, and no counter runs out. Then all rooms move together and the whole schedule is paused.
  */
  lemma NewEpochOutcome(s: State, i: nat, ifMatch: int, c: Command, now: int, signer: Signer)
    requires H.Inv(s) && i < |s.row.document.runtimes| && c.action == NewEpoch
    ensures Aligned(s.row.document) && |s.row.document.config.rooms| == |s.row.document.runtimes|
    ensures
      var d := s.row.document;
      var (t, reply) := Operate(s, d.config.rooms[i].id, ifMatch, c, now, signer);
      && (reply == Accepted <==>
            && ifMatch == d.runtimes[i].runtime.revision && c.scope == Installation && c.limits == None
            && c.generation == Some(s.row.generation) && s.row.generation >= 1
            && d.runtimes[i].runtime.epoch < EPOCH_LIMIT
            && RevisionsLeft(d) && 0 <= RecoveryEnd(now) < COUNTER_CEILING && CanSign(s, now, signer))
      && (reply != Accepted ==> t == s)
      && (reply == Accepted ==>
            && t == s.(row := t.row, log := t.log, events := t.events) && t.row.generation == s.row.generation + 1
            && PausedIn(s.events, t.events, None) && InNewEpoch(d, t.row.document, RecoveryEnd(now)))
  {
    H.InvNotes(s);
    H.ConfigRoomsDistinct(s.row.document.config);
    FindUnique(s.row.document.config.rooms, i);
    assert |s.row.document.config.rooms| == |s.row.document.runtimes|;
    var d := EpochDelivery(s.row.document, RecoveryEnd(now));
    EpochMeans(s.row.document, RecoveryEnd(now));
    SameEpochs(s, i);
    hide H.Inv, H.Uniform, Aligned, DeliveryValid, DistinctRooms, CanSign, Sign, PauseEvents, PausedIn, Find,
      EpochDelivery,
      InNewEpoch, RevisionsLeft;
    PausesMean(s.events, "");
    EpochCases(s, i, c, now, signer);
    if s.row.document.runtimes[i].runtime.epoch < EPOCH_LIMIT {
      EpochSigned(s, PauseEvents(s.events, None), now, signer);
    }
  }

  lemma SameEpochs(s: State, i: nat)
    requires H.Inv(s) && i < |s.row.document.runtimes|
    ensures forall k | 0 <= k < |s.row.document.runtimes| ::
              s.row.document.runtimes[k].runtime.epoch == s.row.document.runtimes[i].runtime.epoch
  {
    H.InvNotes(s);
    hide H.Inv, DeliveryValid, Aligned;
  }

  lemma EpochMeans(d: Delivery, until: int)
    requires |d.runtimes| == |d.config.rooms|
    ensures InNewEpoch(d, EpochDelivery(d, until), until)
  {
  }

  lemma EpochCases(s: State, i: nat, c: Command, now: int, signer: Signer)
    requires Aligned(s.row.document) && i < |s.row.document.runtimes|
        && |s.row.document.config.rooms| == |s.row.document.runtimes|
    requires forall k | 0 <= k < |s.row.document.runtimes| ::
               s.row.document.runtimes[k].runtime.epoch == s.row.document.runtimes[i].runtime.epoch
    ensures
      var d := s.row.document;
      var ok := c.scope == Installation && c.limits == None && c.generation == Some(s.row.generation)
          && s.row.generation >= 1
                && d.runtimes[i].runtime.epoch < EPOCH_LIMIT;
      && (!ok ==> NewEpochStep(s, i, c, now, signer).0 == s && NewEpochStep(s, i, c, now, signer).1 != Accepted)
      && (ok ==>
            NewEpochStep(s, i, c, now, signer) ==
            SignOr(s.(events := PauseEvents(s.events, None)), EpochDelivery(d, RecoveryEnd(now)), now, signer, Failed,
                s))
  {
    hide Aligned, SignOr, PauseEvents, EpochDelivery;
  }

  lemma EpochSigned(s: State, events: seq<Event>, now: int, signer: Signer)
    requires H.Inv(s) && Aligned(s.row.document) && |s.row.document.config.rooms| == |s.row.document.runtimes|
    requires forall k | 0 <= k < |s.row.document.runtimes| :: s.row.document.runtimes[k].runtime.epoch < EPOCH_LIMIT
    ensures
      var d := EpochDelivery(s.row.document, RecoveryEnd(now));
      var (t, reply) := SignOr(s.(events := events), d, now, signer, Failed, s);
      && (s.row.document.runtimes != [] ==>
            (reply == Accepted <==>
               RevisionsLeft(s.row.document) && 0 <= RecoveryEnd(now) < COUNTER_CEILING && CanSign(s, now, signer)))
      && (reply != Accepted ==> t == s)
      && (reply == Accepted ==>
            && t == s.(row := t.row, log := t.log, events := events) && t.row.generation == s.row.generation + 1
            && t.row.document == d)
  {
    H.InvNotes(s);
    var d := EpochDelivery(s.row.document, RecoveryEnd(now));
    EpochValid(s.row.document, RecoveryEnd(now));
    hide H.Inv, H.Uniform, Aligned, DeliveryValid, CanSign, Sign, EpochDelivery, RevisionsLeft;
    SigningIgnoresEvents(s, events, now, signer);
    if DeliveryValid(d) {
      SignsExactlyWhen(s.(events := events), d, now, signer);
    } else {
      InvalidIsNotSigned(s.(events := events), d, now, signer);
    }
  }

  lemma EpochValid(d: Delivery, until: int)
    requires DeliveryValid(d) && forall k | 0 <= k < |d.runtimes| :: d.runtimes[k].runtime.epoch < EPOCH_LIMIT
    ensures |d.runtimes| == |d.config.rooms|
    ensures d.runtimes != [] ==>
              (DeliveryValid(EpochDelivery(d, until)) <==> RevisionsLeft(d) && 0 <= until < COUNTER_CEILING)
  {
    hide ConfigValid, LimitsValid;
    var e := EpochDelivery(d, until);
    assert forall k | 0 <= k < |d.runtimes| :: e.runtimes[k].runtime.revision == d.runtimes[k].runtime.revision + 1;
    if d.runtimes != [] {
      assert e.runtimes[0].runtime.recoveryUntil == until;
    }
  }

  /** An unknown room is not found, and nothing changes. */
  lemma UnknownRoom(s: State, roomId: string, ifMatch: int, c: Command, now: int, signer: Signer)
    requires Aligned(s.row.document) && forall r | r in s.row.document.config.rooms :: r.id != roomId
    ensures Operate(s, roomId, ifMatch, c, now, signer) == (s, Rejected(NotFound))
  {
    hide Aligned, NewEpochStep, OrdinaryStep;
  }

  // ---------------------------------------------------------------- events

  /** The event decides the mark: it is the room's and paused or running. */
  predicate Decides(e: Event, roomId: string) {
    e.roomId == roomId && (e.state == Paused || e.state == Running)
  }

  /** A room's mark, from its events in listing order: the first paused or running one decides; without one, a
      scheduled event shows as scheduled. */
  predicate MarkShows(events: seq<Event>, roomId: string, mark: EventMark) {
    && (forall k | 0 <= k < |events| && Decides(events[k], roomId)
        && (forall m | 0 <= m < k :: !Decides(events[m], roomId)) ::
          mark == if events[k].state == Paused then EventPaused else EventRunning)
    && ((forall k | 0 <= k < |events| :: !Decides(events[k], roomId)) ==>
          mark == if exists e | e in events :: e.roomId == roomId && e.state == Scheduled then EventScheduled
              else NoEvent)
  }

  lemma {:induction false} MarkMeans(events: seq<Event>, roomId: string, seen: EventMark)
    ensures
      var mark := MarkFor(events, roomId, seen);
      && (forall k | 0 <= k < |events| && Decides(events[k], roomId)
          && (forall m | 0 <= m < k :: !Decides(events[m], roomId)) ::
            mark == if events[k].state == Paused then EventPaused else EventRunning)
      && ((forall k | 0 <= k < |events| :: !Decides(events[k], roomId)) ==>
            mark == if exists e | e in events :: e.roomId == roomId && e.state == Scheduled then EventScheduled
                else seen)
    decreases |events|
  {
    if events != [] && !Decides(events[0], roomId) {
      var rest := events[1..];
      var next := if events[0].roomId == roomId && events[0].state == Scheduled then EventScheduled else seen;
      MarkMeans(rest, roomId, next);
      assert forall e :: e in events <==> e == events[0] || e in rest;
      forall k | 0 <= k < |events| && Decides(events[k], roomId)
          && (forall m | 0 <= m < k :: !Decides(events[m], roomId))
        ensures MarkFor(events, roomId, seen) == if events[k].state == Paused then EventPaused else EventRunning
      {
        assert rest[k - 1] == events[k] && forall m | 0 <= m < k - 1 :: rest[m] == events[m + 1];
      }
      if forall k | 0 <= k < |events| :: !Decides(events[k], roomId) {
        assert forall k | 0 <= k < |rest| :: rest[k] == events[k + 1];
      }
    }
  }

  /** No live event of the room, other than the one being changed, meets the interval. */
  predicate Clear(s: State, roomId: string, own: Option<nat>, input: EventInput) {
    forall e | e in s.events && e.roomId == roomId && (own.None? || e.id != own.value) && Live(e) ::
      e.drainAt <= input.prequeueAt || input.drainAt <= e.prequeueAt
  }

  predicate Acceptable(s: State, room: Room, current: Option<Event>, verb: Verb, now: int) {
    && (current.Some? ==> Live(current.value))
    && match verb
       case Cancel => current.Some?
       case Resume => current.Some? && room.active && current.value.state == Paused && now < current.value.drainAt
       case Create(x) =>
         && current.None? && room.active && now <= x.prequeueAt < x.admitAt < x.drainAt <= now + YEAR_MICROS
         && Clear(s, room.id, None, x) && CountRoom(s.events, room.id) < 1000
       case Edit(x) =>
         && current.Some? && room.active && now <= x.prequeueAt < x.admitAt < x.drainAt <= now + YEAR_MICROS
         && Clear(s, room.id, Some(current.value.id), x)
  }

  /** The event a request leaves behind. */
  function Written(current: Option<Event>, roomId: string, verb: Verb, newId: nat): Event
    requires verb.Create? || current.Some?
  {
    match verb
    case Cancel => current.value.(state := Cancelled)
    case Resume => current.value.(state := Scheduled)
    case Create(x) => Event(newId, roomId, x.prequeueAt, x.admitAt, x.drainAt, Scheduled)
    case Edit(x) => Event(current.value.id, roomId, x.prequeueAt, x.admitAt, x.drainAt, Scheduled)
  }

  lemma NextEventMeans(s: State, room: Room, current: Option<Event>, verb: Verb, newId: nat, now: int)
    requires current.Some? ==> current.value in s.events && current.value.roomId == room.id
    requires verb.Create? <==> current.None?
    ensures
      var next := NextEvent(s, room.id, room.active, current, verb, newId, now).0;
      (next.Some? <==> Acceptable(s, room, current, verb, now))
          && (next.Some? ==> next.value == Written(current, room.id, verb, newId))
  {
    if verb.Create? || verb.Edit? {
      var own := if current.Some? then Some(current.value.id) else None;
      if InputValid(verb.input, now) {
        OverlapMeans(s, room.id, own, verb.input);
      }
    }
  }

  lemma OverlapMeans(s: State, roomId: string, own: Option<nat>, input: EventInput)
    ensures Clear(s, roomId, own, input) <==>
              !(exists k | 0 <= k < |s.events| ::
                  s.events[k].roomId == roomId && (own.Some? ==> s.events[k].id != own.value)
                      && Overlaps(s.events[k], input))
  {
    if !Clear(s, roomId, own, input) {
      var e :| e in s.events && e.roomId == roomId && (own.None? || e.id != own.value) && Live(e)
               && !(e.drainAt <= input.prequeueAt || input.drainAt <= e.prequeueAt);
      var k :| 0 <= k < |s.events| && s.events[k] == e;
      assert Overlaps(s.events[k], input);
    } else {
      forall k | 0 <= k < |s.events|
        ensures !(s.events[k].roomId == roomId && (own.Some? ==> s.events[k].id != own.value)
            && Overlaps(s.events[k], input))
      {
        assert s.events[k] in s.events;
      }
    }
  }

  /**
    A change of a room's schedule: accepted exactly when it names the revision the operator saw, the change is
    acceptable, a new event's id is unused and the document can be signed. Exactly one event is written, the room's
    mark follows from the events that are left, its mode and every other room stay; otherwise nothing changes.
  */
  lemma ChangeEventOutcome(s: State, i: nat, at: Option<nat>, verb: Verb, ifMatch: int, newId: nat, now: int,
      signer: Signer)
    requires H.Inv(s) && S.ScheduleInv(s.events) && i < |s.row.document.runtimes| && i < |s.row.document.config.rooms|
    requires verb.Create? <==> at.None?
    requires at.Some? ==> at.value < |s.events| && s.events[at.value].roomId == s.row.document.config.rooms[i].id
    ensures Aligned(s.row.document)
    ensures
      var d, room, was := s.row.document, s.row.document.config.rooms[i], s.row.document.runtimes[i].runtime;
      var current := if at.Some? then Some(s.events[at.value]) else None;
      var id := if at.Some? then Some(s.events[at.value].id) else None;
      var (t, reply) := ChangeEvent(s, room.id, id, verb, ifMatch, newId, now, signer);
      && (reply == Accepted <==>
            && ifMatch == was.revision && Acceptable(s, room, current, verb, now)
            && (verb.Create? ==> forall e | e in s.events :: e.id != newId)
            && was.revision + 1 < COUNTER_CEILING && CanSign(s, now, signer))
      && (reply != Accepted ==> t == s)
      && (reply == Accepted ==>
            && t == s.(row := t.row, log := t.log, events := t.events) && t.row.generation == s.row.generation + 1
            && (forall e :: e in t.events <==>
                  e == Written(current, room.id, verb, newId)
                  || (e in s.events && e.id != Written(current, room.id, verb, newId).id))
            && i < |t.row.document.runtimes| && t.row.document == WithRuntime(d, i, t.row.document.runtimes[i].runtime)
            && t.row.document.runtimes[i].runtime ==
               was.(revision := was.revision + 1, eventState := t.row.document.runtimes[i].runtime.eventState)
            && MarkShows(t.events, room.id, t.row.document.runtimes[i].runtime.eventState))
  {
    hide *;
    var room := s.row.document.config.rooms[i];
    RoomFacts(s, i);
    var current := if at.Some? then Some(s.events[at.value]) else None;
    NextEventMeans(s, room, current, verb, newId, now);
    EventCases(s, i, at, verb, ifMatch, newId, now, signer);
    IdsAreUnused(s.events, newId);
    if Acceptable(s, room, current, verb, now) && (at.None? ==> IndexOfId(s.events, newId) == |s.events|) {
      EventWritten(s, room, at, verb, newId, now);
      MarkIsSigned(s, i, Upsert(s.events, Written(current, room.id, verb, newId)), now, signer);
    }
  }

  lemma RoomFacts(s: State, i: nat)
    requires H.Inv(s) && i < |s.row.document.runtimes| && i < |s.row.document.config.rooms|
    ensures Aligned(s.row.document) && |s.row.document.runtimes| == |s.row.document.config.rooms|
    ensures Find(s.row.document.config.rooms, s.row.document.config.rooms[i].id) == i
    ensures s.row.document.config.rooms[i].active || s.row.document.runtimes[i].runtime.mode == Off
  {
    H.InvNotes(s);
    H.ConfigRoomsDistinct(s.row.document.config);
    FindUnique(s.row.document.config.rooms, i);
    hide H.Inv, H.Uniform, DistinctRooms, Find, RuntimeValid, ConfigValid;
  }

  lemma EventWritten(s: State, room: Room, at: Option<nat>, verb: Verb, newId: nat, now: int)
    requires S.ScheduleInv(s.events) && (verb.Create? <==> at.None?)
    requires at.Some? ==> at.value < |s.events| && s.events[at.value].roomId == room.id
    requires at.None? ==> IndexOfId(s.events, newId) == |s.events|
    requires Acceptable(s, room, if at.Some? then Some(s.events[at.value]) else None, verb, now)
    ensures
      var next := Written(if at.Some? then Some(s.events[at.value]) else None, room.id, verb, newId);
      forall e :: e in Upsert(s.events, next) <==> e == next || (e in s.events && e.id != next.id)
  {
    var current := if at.Some? then Some(s.events[at.value]) else None;
    NextEventMeans(s, room, current, verb, newId, now);
    S.NextEventFits(s, room.id, room.active, at, verb, newId, now);
    hide S.ScheduleInv, NextEvent, Acceptable, Upsert, S.Clash, S.WellTimed, Written;
    S.UpsertKeepsSchedule(s.events, Written(current, room.id, verb, newId));
  }

  lemma MarkIsSigned(s: State, i: nat, events: seq<Event>, now: int, signer: Signer)
    requires H.Inv(s) && Aligned(s.row.document) && i < |s.row.document.runtimes| == |s.row.document.config.rooms|
    requires s.row.document.config.rooms[i].active || s.row.document.runtimes[i].runtime.mode == Off
    ensures
      var was, roomId := s.row.document.runtimes[i].runtime, s.row.document.config.rooms[i].id;
      var mark := MarkFor(events, roomId, NoEvent);
      var d := WithRuntime(s.row.document, i, was.(revision := was.revision + 1, eventState := mark));
      var (t, reply) := SignOr(s.(events := events), d, now, signer, Failed, s);
      && (reply == Accepted <==> was.revision + 1 < COUNTER_CEILING && CanSign(s, now, signer))
      && (reply != Accepted ==> t == s)
      && (reply == Accepted ==>
            && t == s.(row := t.row, log := t.log, events := events) && t.row.generation == s.row.generation + 1
            && t.row.document == d && i < |d.runtimes|
            && d.runtimes[i].runtime == was.(revision := was.revision + 1, eventState := mark)
            && MarkShows(events, roomId, mark))
  {
    var was, roomId := s.row.document.runtimes[i].runtime, s.row.document.config.rooms[i].id;
    MarkIsShown(events, roomId);
    H.InvNotes(s);
    var r := was.(revision := was.revision + 1, eventState := MarkFor(events, roomId, NoEvent));
    hide H.Inv, H.Uniform, Aligned, DeliveryValid, CanSign, Sign, MarkShows, MarkFor, SignOr;
    RuntimeStaysValid(s, i, r);
    OneRuntimeSigned(s, events, i, r, now, signer);
  }

  lemma IdsAreUnused(events: seq<Event>, id: nat)
    ensures IndexOfId(events, id) == |events| <==> forall e | e in events :: e.id != id
  {
    var k := IndexOfId(events, id);
    if k < |events| {
      assert events[k] in events;
    }
  }

  lemma MarkIsShown(events: seq<Event>, roomId: string)
    ensures MarkShows(events, roomId, MarkFor(events, roomId, NoEvent))
  {
    MarkMeans(events, roomId, NoEvent);
  }

  lemma RuntimeStaysValid(s: State, i: nat, r: Runtime)
    requires DeliveryValid(s.row.document) && i < |s.row.document.runtimes|
    requires
      var was := s.row.document.runtimes[i].runtime;
      r == was.(revision := was.revision + 1, eventState := r.eventState)
    ensures RuntimeValid(r, s.row.document.config.profile) <==> r.revision < COUNTER_CEILING
  {
    hide ConfigValid, LimitsValid;
  }

  lemma EventCases(s: State, i: nat, at: Option<nat>, verb: Verb, ifMatch: int, newId: nat, now: int, signer: Signer)
    requires Aligned(s.row.document) && i < |s.row.document.runtimes| && i < |s.row.document.config.rooms|
    requires S.ScheduleInv(s.events) && Find(s.row.document.config.rooms, s.row.document.config.rooms[i].id) == i
    requires verb.Create? <==> at.None?
    requires at.Some? ==> at.value < |s.events| && s.events[at.value].roomId == s.row.document.config.rooms[i].id
    ensures
      var d, room, was := s.row.document, s.row.document.config.rooms[i], s.row.document.runtimes[i].runtime;
      var current := if at.Some? then Some(s.events[at.value]) else None;
      var id := if at.Some? then Some(s.events[at.value].id) else None;
      var next := NextEvent(s, room.id, room.active, current, verb, newId, now).0;
      var r := ChangeEvent(s, room.id, id, verb, ifMatch, newId, now, signer);
      var ok := ifMatch == was.revision && next.Some? && (at.None? ==> IndexOfId(s.events, newId) == |s.events|);
      && (!ok ==> r.0 == s && r.1 != Accepted)
      && (ok ==>
            var events := Upsert(s.events, next.value);
            r == SignOr(s.(events := events),
                        WithRuntime(d, i, was.(revision := was.revision + 1,
                            eventState := MarkFor(events, room.id, NoEvent))),
                        now, signer, Failed, s))
  {
    hide *;
    if at.None? {
      CreationCases(s, i, verb, ifMatch, newId, now, signer);
    } else {
      FoundById(s.events, at.value);
      ChangeCases(s, i, at.value, verb, ifMatch, newId, now, signer);
    }
  }

  lemma CreationCases(s: State, i: nat, verb: Verb, ifMatch: int, newId: nat, now: int, signer: Signer)
    requires Aligned(s.row.document) && i < |s.row.document.runtimes| && i < |s.row.document.config.rooms|
    requires verb.Create? && Find(s.row.document.config.rooms, s.row.document.config.rooms[i].id) == i
    ensures
      var d, room, was := s.row.document, s.row.document.config.rooms[i], s.row.document.runtimes[i].runtime;
      var next := NextEvent(s, room.id, room.active, None, verb, newId, now).0;
      var r := ChangeEvent(s, room.id, None, verb, ifMatch, newId, now, signer);
      var ok := ifMatch == was.revision && next.Some? && IndexOfId(s.events, newId) == |s.events|;
      && (!ok ==> r.0 == s && r.1 != Accepted)
      && (ok ==>
            var events := Upsert(s.events, next.value);
            var after := was.(revision := was.revision + 1, eventState := MarkFor(events, room.id, NoEvent));
            r == SignOr(s.(events := events), WithRuntime(d, i, after), now, signer, Failed, s))
  {
    hide Aligned, SignOr, NextEvent, Upsert, MarkFor, WithRuntime, Find, IndexOfId;
  }

  lemma ChangeCases(s: State, i: nat, at: nat, verb: Verb, ifMatch: int, newId: nat, now: int, signer: Signer)
    requires Aligned(s.row.document) && i < |s.row.document.runtimes| && i < |s.row.document.config.rooms|
    requires !verb.Create? && Find(s.row.document.config.rooms, s.row.document.config.rooms[i].id) == i
    requires at < |s.events| && s.events[at].roomId == s.row.document.config.rooms[i].id
    requires IndexOfId(s.events, s.events[at].id) == at
    ensures
      var d, room, was := s.row.document, s.row.document.config.rooms[i], s.row.document.runtimes[i].runtime;
      var next := NextEvent(s, room.id, room.active, Some(s.events[at]), verb, newId, now).0;
      var r := ChangeEvent(s, room.id, Some(s.events[at].id), verb, ifMatch, newId, now, signer);
      var ok := ifMatch == was.revision && next.Some?;
      && (!ok ==> r.0 == s && r.1 != Accepted)
      && (ok ==>
            var events := Upsert(s.events, next.value);
            var after := was.(revision := was.revision + 1, eventState := MarkFor(events, room.id, NoEvent));
            r == SignOr(s.(events := events), WithRuntime(d, i, after), now, signer, Failed, s))
  {
    hide Aligned, SignOr, NextEvent, Upsert, MarkFor, WithRuntime, Find, IndexOfId;
  }

  lemma FoundById(events: seq<Event>, k: nat)
    requires S.ScheduleInv(events) && k < |events|
    ensures IndexOfId(events, events[k].id) == k
  {
    var at := IndexOfId(events, events[k].id);
    assert at == k;
  }

  // ---------------------------------------------------------------- concurrent writers

  /** The room's revision has moved, and nothing but a fresh read lets a writer in. */
  lemma StaleWriterIsRefused(s: State, i: nat, stale: int, c: Command, x: EventInput, k: Option<nat>, verb: Verb,
      newId: nat,
      now: int, signer: Signer)
    requires H.Inv(s) && i < |s.row.document.runtimes| && i < |s.row.document.config.rooms|
    requires stale != s.row.document.runtimes[i].runtime.revision && !verb.Create?
    requires k.Some? ==> k.value < |s.events| && s.events[k.value].roomId == s.row.document.config.rooms[i].id
                         && forall m | 0 <= m < k.value :: s.events[m].id != s.events[k.value].id
    ensures
      var id := s.row.document.config.rooms[i].id;
      && Aligned(s.row.document) && Operate(s, id, stale, c, now, signer) == (s, Rejected(RevisionMismatch))
      && ChangeEvent(s, id, None, Create(x), stale, newId, now, signer) == (s, Rejected(RevisionMismatch))
      && (k.Some? ==>
            ChangeEvent(s, id, Some(s.events[k.value].id), verb, stale, newId, now, signer) ==
            (s, Rejected(RevisionMismatch)))
  {
    H.InvNotes(s);
    H.ConfigRoomsDistinct(s.row.document.config);
    FindUnique(s.row.document.config.rooms, i);
    if k.Some? {
      var at := IndexOfId(s.events, s.events[k.value].id);
      assert at == k.value;
    }
    hide H.Inv, H.Uniform, Aligned, DeliveryValid, DistinctRooms, Find, NewEpochStep, OrdinaryStep, NextEvent, SignOr;
  }

  /**
    No lost update: once a command or a schedule change on a room was accepted, every other one that carries the
    revision both writers had read is refused, whatever it asks for and whoever signs.
  */
  lemma NoLostUpdate(s: State, i: nat, seen: int, c: Command, other: Command, x: EventInput, newId: nat, now: int,
      later: int,
      signer: Signer, another: Signer)
    requires H.Inv(s) && i < |s.row.document.runtimes| && i < |s.row.document.config.rooms| && Aligned(s.row.document)
    requires Operate(s, s.row.document.config.rooms[i].id, seen, c, now, signer).1 == Accepted
    ensures
      var id := s.row.document.config.rooms[i].id;
      var t := Operate(s, id, seen, c, now, signer).0;
      && Aligned(t.row.document) && Operate(t, id, seen, other, later, another) == (t, Rejected(RevisionMismatch))
      && ChangeEvent(t, id, None, Create(x), seen, newId, later, another) == (t, Rejected(RevisionMismatch))
  {
    var id := s.row.document.config.rooms[i].id;
    var t := Operate(s, id, seen, c, now, signer).0;
    RevisionMoves(s, i, seen, c, now, signer);
    assert H.Inv(t) by {
      H.StepKeepsInv(s, TOperate(id, seen, c), now, signer);
    }
    hide H.Inv, Operate, ChangeEvent, Aligned;
    StaleWriterIsRefused(t, i, seen, other, x, None, Cancel, newId, later, another);
  }

  lemma RevisionMoves(s: State, i: nat, seen: int, c: Command, now: int, signer: Signer)
    requires H.Inv(s) && i < |s.row.document.runtimes| && i < |s.row.document.config.rooms| && Aligned(s.row.document)
    requires Operate(s, s.row.document.config.rooms[i].id, seen, c, now, signer).1 == Accepted
    ensures
      var d := Operate(s, s.row.document.config.rooms[i].id, seen, c, now, signer).0.row.document;
      && d.config == s.row.document.config && |d.runtimes| == |s.row.document.runtimes|
      && seen == s.row.document.runtimes[i].runtime.revision && d.runtimes[i].runtime.revision == seen + 1
  {
    if c.action == NewEpoch {
      NewEpochOutcome(s, i, seen, c, now, signer);
    } else {
      OperateOutcome(s, i, seen, c, now, signer);
    }
    hide H.Inv, Operate, Aligned, CanSign, RevisionsLeft, PausedIn, Overrides, Ordinary, LimitsValid;
  }

  // ---------------------------------------------------------------- renewal and acknowledgement

  /** The row's signature is younger than five minutes and carries the key in use. */
  predicate FreshlySigned(s: State, now: int, signer: Signer) {
    && s.row.envelope.Some? && s.row.envelope.value.Signed? && s.row.envelope.value.snapshot.kid == signer.kid
    && s.row.issuedAt <= now < s.row.issuedAt + FIVE_MINUTES
  }

  /**
    Renewal: it succeeds exactly when the signature is still fresh or a new one can be made at a time that does not
    lie before the last; it leaves a fresh signature by the key in use over the same document, and touches neither the
    draft, the events nor the nodes.
  */
  lemma RefreshOutcome(s: State, now: int, signer: Signer)
    requires H.Inv(s)
    ensures
      var (t, reply) := Refresh(s, now, signer);
      && (reply == Accepted <==>
            FreshlySigned(s, now, signer)
            || ((s.row.envelope.Some? ==> s.row.issuedAt <= now) && CanSign(s, now, signer)))
      && (reply != Accepted ==> t == s)
      && (reply == Accepted ==>
            && FreshlySigned(t, now, signer) && t.row.document == s.row.document && t == s.(row := t.row, log := t.log)
            && (FreshlySigned(s, now, signer) <==> t == s))
  {
    H.InvNotes(s);
    SignsExactlyWhen(s, s.row.document, now, signer);
    hide DeliveryValid, Aligned, ConfigValid, CanSign, H.Uniform, CT.Structural;
    assert s.row.envelope.Some? ==> s.row.envelope.value.Signed?;
    hide H.Inv;
  }

  /** An acknowledgement counts exactly when it matches the signed row in force; the node's row then says so. */
  lemma AcknowledgeOutcome(s: State, node: NodeId, generation: int, digest: Envelope, metrics: seq<Metric>,
      keysMatch: bool, now: int)
    requires H.Inv(s)
    ensures
      var (t, reply) := Acknowledge(s, node, generation, digest, metrics, keysMatch, now);
      && (reply == Accepted <==>
            && keysMatch && s.row.envelope == Some(digest) && generation == s.row.generation
            && s.row.issuedAt <= now < s.row.expiresAt && MetricsMatch(metrics, s.row.document))
      && (reply != Accepted ==> t == s)
      && (reply == Accepted ==>
            t == s.(nodes := t.nodes) && t.nodes == s.nodes[node := NodeRow(s.row.generation, now, metrics)])
  {
    hide MetricsMatch, DeliveryValid, H.DocumentInv, H.LogInv;
  }

  /**
    The publication shows as applied exactly while both data planes' last acknowledgement of it is younger than
    fifteen seconds: the later of two acknowledgements completes it, and the older one ages it out.
  */
  lemma AppliedExactlyWhen(s: State, ms: seq<Metric>, ns: seq<Metric>, first: int, second: int, now: int)
    requires H.Inv(s) && s.row.envelope.Some? && s.row.generation > 0
    requires Acknowledge(s, GatewayNode, s.row.generation, s.row.envelope.value, ms, true, first).1 == Accepted
    requires
      var t := Acknowledge(s, GatewayNode, s.row.generation, s.row.envelope.value, ms, true, first).0;
      Acknowledge(t, CoordinatorNode, s.row.generation, s.row.envelope.value, ns, true, second).1 == Accepted
    ensures
      var t := Acknowledge(s, GatewayNode, s.row.generation, s.row.envelope.value, ms, true, first).0;
      var u := Acknowledge(t, CoordinatorNode, s.row.generation, s.row.envelope.value, ns, true, second).0;
      Applied(u, now) <==> now - FRESH_ACK < first <= now && now - FRESH_ACK < second <= now
  {
    var e := s.row.envelope.value;
    var t := Acknowledge(s, GatewayNode, s.row.generation, e, ms, true, first).0;
    var u := Acknowledge(t, CoordinatorNode, s.row.generation, e, ns, true, second).0;
    H.AcknowledgeKeepsInv(s, GatewayNode, s.row.generation, e, ms, true, first);
    AcknowledgeOutcome(s, GatewayNode, s.row.generation, e, ms, true, first);
    AcknowledgeOutcome(t, CoordinatorNode, s.row.generation, e, ns, true, second);
    hide H.Inv, Acknowledge, MetricsMatch;
    forall n | n in u.nodes
      ensures n in {GatewayNode, CoordinatorNode}
    {
      match n
      case GatewayNode =>
      case CoordinatorNode =>
    }
    assert u.nodes.Keys == {GatewayNode, CoordinatorNode};
    assert GatewayNode in u.nodes && CoordinatorNode in u.nodes;
  }
}
