/**
  Why the managed procedure keeps roles stopped until an operation has finished: one start of Control after a
  crashed activation is enough to have a retirement accepted while the retired key still has a valid snapshot.
*/
module RotationStale {
  import opened Base
  import opened Keyring
  import opened Rotation
  import opened RotationTiming

  const BOTH: set<Role> := {Gateway, Coordinator}

  function At(op: Operation, s: State, made: Key, writes: nat): Call {
    Call(op, Millis(s.now), made, BOTH, None, writes)
  }

  lemma {:induction false} ReachConcat(s: State, es: seq<TimedEvent>, t: State, fs: seq<TimedEvent>, u: State)
    requires Reach(s, es, t) && Reach(t, fs, u)
    ensures Reach(s, es + fs, u)
    decreases |es|
  {
    hide Permitted, TimedStep;
    if es == [] {
      assert es + fs == fs;
    } else {
      ReachConcat(TimedStep(s, es[0]), es[1..], t, fs, u);
      assert (es + fs)[1..] == es[1..] + fs;
    }
  }

  lemma ReachOne(s: State, e: TimedEvent)
    requires Permitted(s, e)
    ensures Reach(s, [e], TimedStep(s, e))
  {
    hide Permitted, TimedStep;
    assert [e][1..] == [];
    assert Reach(TimedStep(s, e), [], TimedStep(s, e));
  }

  function AllFiles(keys: Set): map<Role, Identity> {
    map[Control := RoleFile(keys, Control), Gateway := RoleFile(keys, Gateway),
        Coordinator := RoleFile(keys, Coordinator)]
  }

  /** All roles down, every file the scoped form of the journaled set. */
  ghost predicate AtRest(w: World, top: Set) {
    && w.live == map[] && w.journal == Some(top) && w.written == Some(top) && Validate(top, Owner)
    && w.files == AllFiles(top)
    && (forall role | role in w.acks :: w.acks[role].generation <= top.generation)
  }

  function Acked(w: World, top: Set, at: int): World {
    var a := Ack(top.generation, Digest(top), at);
    w.(acks := w.acks[Gateway := a][Coordinator := a])
  }

  lemma AckRecorded(w: World, top: Set, role: Role, at: int)
    requires Validate(top, Owner) && role != Control && Control in w.live && role in w.live
    requires w.live[Control] == RoleFile(top, Control) && w.live[role] == RoleFile(top, role)
    requires role in w.acks ==> w.acks[role].generation <= top.generation
    ensures RecordAck(w, role, at) == w.(acks := w.acks[role := Ack(top.generation, Digest(top), at)])
  {
    hide Validate, Digest;
    ScopedSetsAgree(top, Control);
    ScopedSetsAgree(top, role);
  }

  /** Roles start on their settled files, both data roles acknowledge, and everything is stopped again. */
  lemma RolesUp(s: State, top: Set) returns (es: seq<TimedEvent>, t: State)
    requires AtRest(s.world, top)
    ensures Reach(s, es, t) && t == s.(world := Acked(s.world, top, Millis(s.now))) && AtRest(t.world, top)
  {
    hide Validate, RoleFile, Digest;
    var w, at := s.world, Millis(s.now);
    var up := AllFiles(top);
    var s1 := TimedStep(s, Operate(Start(Control)));
    var s2 := TimedStep(s1, Operate(Start(Gateway)));
    var s3 := TimedStep(s2, Operate(Start(Coordinator)));
    assert s3.world.live == up;
    AckRecorded(s3.world, top, Gateway, at);
    var s4 := TimedStep(s3, Operate(Acknowledge(Gateway, at)));
    AckRecorded(s4.world, top, Coordinator, at);
    var s5 := TimedStep(s4, Operate(Acknowledge(Coordinator, at)));
    var s6 := TimedStep(s5, Operate(Stop(Control)));
    var s7 := TimedStep(s6, Operate(Stop(Gateway)));
    t := TimedStep(s7, Operate(Stop(Coordinator)));
    assert t.world.live == map[];
    assert t.world == Acked(w, top, at);
    es := [Operate(Start(Control))];
    ReachOne(s, Operate(Start(Control)));
    es := Then(s, es, s1, Operate(Start(Gateway)));
    es := Then(s, es, s2, Operate(Start(Coordinator)));
    es := Then(s, es, s3, Operate(Acknowledge(Gateway, at)));
    es := Then(s, es, s4, Operate(Acknowledge(Coordinator, at)));
    es := Then(s, es, s5, Operate(Stop(Control)));
    es := Then(s, es, s6, Operate(Stop(Gateway)));
    es := Then(s, es, s7, Operate(Stop(Coordinator)));
  }

  lemma Then(s: State, es: seq<TimedEvent>, t: State, e: TimedEvent) returns (fs: seq<TimedEvent>)
    requires Reach(s, es, t) && Permitted(t, e)
    ensures Reach(s, fs, TimedStep(t, e))
  {
    ReachOne(t, e);
    ReachConcat(s, es, t, [e], TimedStep(t, e));
    fs := es + [e];
  }

  lemma AcksCount(w: World, top: Set, c: Call)
    requires top.generation > 0 && c.delivered == BOTH
    ensures CountAcks(Acked(w, top, c.now), top, c) == 2
  {
  }

  /** An operation that is not refused and does not crash leaves everything at rest on the new set. */
  lemma OperationDone(w: World, c: Call, keys: Set, next: Set)
    requires w.live == map[] && w.files.Keys == {Control, Gateway, Coordinator} && c.op != Status && c.writes == 4
    requires StartingSet(w, c.op) == Some(keys) && Decide(keys, CountAcks(w, keys, c), c) == Some(next)
    requires Validate(next, Owner) && forall role | role in w.acks :: w.acks[role].generation <= next.generation
    ensures Rotate(w, c).1 == Done(next) && AtRest(Rotate(w, c).0, next) && Rotate(w, c).0.acks == w.acks
  {
    hide Validate, RoleFile, Decide, StartingSet, CountAcks;
    var files := Distributed(w.files, next, 3);
    assert files == AllFiles(next);
  }

  function StagedSet(legacy: Key, key: Key): Set {
    Set(1, Staged, legacy, None, Some(key))
  }

  function ActiveSet(legacy: Key, key: Key, since: int): Set {
    Set(2, Active, key.(since := since), Some(legacy), None)
  }

  /** The parameters of the run: a fresh deployment and a second key, with room for the boundary below the ceiling. */
  ghost predicate Playable(s: State, key: Key) {
    && Initial(s) && KeyValid(key, Owner) && key.id != "v1" && 0 <= s.now
    && Millis(s.now) + MARGIN < COUNTER_CEILING
  }

  lemma SomethingIsPlayable() returns (s: State, key: Key)
    ensures Playable(s, key)
  {
    var legacy := Key("v1", 0, 1, 2, Some(1), Some(2), Some(3), Some(4));
    var id := "0123456789abcdef0123456789abcdef";
    key := Key(id, 0, 5, 6, Some(5), Some(6), Some(7), Some(8));
    assert |id| == 32 && forall i | 0 <= i < |id| :: HexChar(id[i]);
    var files := map[Control := Identity(None, Sanitize(legacy, For(Control))),
                     Gateway := Identity(None, Sanitize(legacy, For(Gateway))),
                     Coordinator := Identity(None, Sanitize(legacy, For(Coordinator)))];
    s := State(World(legacy, None, None, files, map[], map[]), 0, {});
  }

  lemma SetsValid(legacy: Key, key: Key, since: int)
    requires KeyValid(legacy, Owner) && KeyValid(key, Owner) && legacy.id != key.id && legacy.since == 0
    requires 0 < since < COUNTER_CEILING
    ensures Validate(StagedSet(legacy, key), Owner) && Validate(ActiveSet(legacy, key, since), Owner)
    ensures Validate(Set(3, Stable, key.(since := since), None, None), Owner)
  {
    var a, b := Keys(StagedSet(legacy, key)), Keys(ActiveSet(legacy, key, since));
    assert a == [legacy, key] && b == [key.(since := since), legacy];
  }

  /** From a fresh deployment: stage, both ACKs, and an activation that crashes after its journal write. */
  lemma CrashAfterJournal(s: State, key: Key) returns (es: seq<TimedEvent>, t: State)
    requires Playable(s, key)
    ensures
      var legacy, staged := s.world.legacy, StagedSet(s.world.legacy, key);
      var active := ActiveSet(legacy, key, Millis(s.now) + MARGIN);
      && Reach(s, es, t) && t.now == s.now && t.made == {} && Validate(staged, Owner) && Validate(active, Owner)
      && t.world == Acked(World(legacy, Some(active), Some(active), AllFiles(staged), map[], map[]), staged,
          Millis(s.now))
  {
    hide Validate, RoleFile, Digest;
    var legacy, now := s.world.legacy, Millis(s.now);
    var staged, active := StagedSet(legacy, key), ActiveSet(legacy, key, now + MARGIN);
    SetsValid(legacy, key, now + MARGIN);
    var stage, activate := At(Stage, s, key, 4), At(Activate, s, key, 1);
    OperationDone(s.world, stage, LegacySet(legacy), staged);
    var s1 := TimedStep(s, Operate(DoRotate(stage)));
    ReachOne(s, Operate(DoRotate(stage)));
    var fs, s2 := RolesUp(s1, staged);
    ReachConcat(s, [Operate(DoRotate(stage))], s1, fs, s2);
    AcksCount(s1.world, staged, activate);
    CrashedActivation(s2.world, activate, staged, active);
    es := Then(s, [Operate(DoRotate(stage))] + fs, s2, Operate(DoRotate(activate)));
    t := TimedStep(s2, Operate(DoRotate(activate)));
  }

  lemma CrashedActivation(w: World, c: Call, keys: Set, next: Set)
    requires AtRest(w, keys) && c.op == Activate && c.writes == 1 && Validate(next, Owner)
    requires Decide(keys, CountAcks(w, keys, c), c) == Some(next)
    ensures Rotate(w, c) == (w.(journal := Some(next), written := Some(next)), Crashed)
  {
    hide Validate, RoleFile, Decide, CountAcks;
    assert Distributed(w.files, next, 0) == w.files;
  }

  /** Control comes up on its stale file, signs a snapshot at t and is stopped again. */
  lemma StaleSignature(s: State, stale: Set, t: int) returns (es: seq<TimedEvent>, u: State)
    requires s.world.live == map[Control := RoleFile(stale, Control)] && t >= s.now
    ensures Reach(s, es, u) && u.world == s.world.(live := map[]) && u.now == t
    ensures ConfigSnapshot(stale.current.id, t, Unix(t) + DAY_SECONDS) in u.made
  {
    ReachOne(s, Wait(t));
    var s1 := TimedStep(s, Wait(t));
    es := Then(s, [Wait(t)], s1, MakeConfig);
    var s2 := TimedStep(s1, MakeConfig);
    es := Then(s, es, s2, Operate(Stop(Control)));
    u := TimedStep(s2, Operate(Stop(Control)));
    assert u.world.live == map[];
  }

  /** The retry finishes writing, and at the recorded boundary plus the overlap both data roles acknowledge. */
  lemma RetryAndWait(s: State, active: Set, t: int, key: Key) returns (es: seq<TimedEvent>, u: State)
    requires s.world.live == map[] && s.world.files.Keys == {Control, Gateway, Coordinator}
    requires s.world.journal == Some(active) && active.phase == Active && Validate(active, Owner)
    requires (forall role | role in s.world.acks :: s.world.acks[role].generation <= active.generation) && t >= s.now
    ensures Reach(s, es, u) && u.now == t && u.made == s.made && AtRest(u.world, active)
    ensures u.world.acks == Acked(s.world, active, Millis(t)).acks
  {
    hide Validate, RoleFile, Digest;
    var retry := At(Activate, s, key, 4);
    OperationDone(s.world, retry, active, active);
    ReachOne(s, Operate(DoRotate(retry)));
    var s1 := TimedStep(s, Operate(DoRotate(retry)));
    es := Then(s, [Operate(DoRotate(retry))], s1, Wait(t));
    var s2 := TimedStep(s1, Wait(t));
    var fs;
    fs, u := RolesUp(s2, active);
    ReachConcat(s, es, s2, fs, u);
    es := es + fs;
  }

  /**
    One start outside the procedure defeats the bound. From every fresh deployment there is a run, permitted but for
    one start of Control on the file a crashed activation left behind, at whose end a normal retirement is permitted
    and completes while a snapshot signed with the retired key is still acceptable.
  */
  lemma StaleStartDefeatsBound(s: State, key: Key)
    returns (es: seq<TimedEvent>, before: State, fs: seq<TimedEvent>, last: State, retire: Call, stale: Artifact)
    requires Playable(s, key)
    ensures Reach(s, es, before) && !Permitted(before, Operate(Start(Control)))
    ensures Reach(TimedStep(before, Operate(Start(Control))), fs, last)
    ensures retire.op == Retire && Permitted(last, Operate(DoRotate(retire))) && Rotate(last.world, retire).1.Done?
    ensures last.world.journal.Some? && last.world.journal.value.previous.Some?
    ensures stale in last.made && stale.keyId == last.world.journal.value.previous.value.id
        && Acceptable(stale, last.now)
  {
    hide Validate, RoleFile, Digest, Reach, Fresh;
    var legacy, since := s.world.legacy, Millis(s.now) + MARGIN;
    var staged, active := StagedSet(legacy, key), ActiveSet(legacy, key, since);
    es, before := CrashAfterJournal(s, key);
    NotSettled(before.world, staged, active);
    var after := TimedStep(before, Operate(Start(Control)));
    var boundary := (since + OVERLAP) * 1000;
    var gs, mid := StaleSignature(after, staged, boundary - 3600 * MICROS_PER_SECOND);
    fs, last := RetryAndWait(mid, active, boundary, key);
    ReachConcat(after, gs, mid, fs, last);
    fs := gs + fs;
    stale := ConfigSnapshot(legacy.id, mid.now, Unix(mid.now) + DAY_SECONDS);
    retire := At(Retire, last, key, 4);
    AcksCount(mid.world, active, retire);
    StableIsValid(s, key);
    OperationDone(last.world, retire, active, Set(3, Stable, key.(since := since), None, None));
  }

  lemma NotSettled(w: World, staged: Set, active: Set)
    requires w.written == Some(active) && w.files == AllFiles(staged) && staged.generation != active.generation
    ensures !Settled(w)
  {
    assert w.files[Control] == RoleFile(staged, Control) && RoleFile(staged, Control) != RoleFile(active, Control);
  }

  lemma StableIsValid(s: State, key: Key)
    requires Playable(s, key)
    ensures Validate(Set(3, Stable, key.(since := Millis(s.now) + MARGIN), None, None), Owner)
  {
    SetsValid(s.world.legacy, key, Millis(s.now) + MARGIN);
  }
}
