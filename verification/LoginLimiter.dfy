/**
  The password-login limiter (internal/adminauth/pgstore/login.go): three anchored one-minute buckets per attempt,
  installation, source and account, and the pruning of expired rows. Fingerprints are kept as the values they
  identify. Locking the installation row first serialises reservations, so the database clock runs forward over them.
*/
module LoginLimiter {
  import opened Base

  datatype Key = Installation | Source(day: int, source: string) | Account(user: string) | Http(name: string)

  datatype Bucket = Bucket(start: int, expiry: int, used: int)

  type Buckets = map<Key, Bucket>

  const MINUTE: int := 60 * MICROS_PER_SECOND

  function Limit(k: Key): int {
    match k
    case Installation => 60
    case Source(_, _) => 20
    case Account(_) => 5
    case Http(_) => 0 // owned by the HTTP limiter; never touched here
  }

  datatype Verdict = Passed | Refused | Locked

  /** One bucket: insert, refuse, start a new minute or count. `Locked` is the refusal that is audited. */
  function Touch(b: Option<Bucket>, limit: int, now: int): (Bucket, Verdict) {
    match b
    case None => (Bucket(now, now + MINUTE, 1), Passed)
    case Some(row) =>
      if now < row.start || (now < row.expiry && row.used >= limit) then
        if row.used <= limit then (row.(used := limit + 1), Locked) else (row, Refused)
      else if now >= row.expiry then (Bucket(now, now + MINUTE, 1), Passed)
      else (row.(used := row.used + 1), Passed)
  }

  function Row(bs: Buckets, k: Key): Option<Bucket> {
    if k in bs then Some(bs[k]) else None
  }

  function Prune(bs: Buckets, at: int): Buckets {
    map k | k in bs && (k == Installation || k.Http? || bs[k].expiry > at) :: bs[k]
  }

  /** The clock readings of one reservation, in order. */
  datatype Clock = Clock(installation: int, day: int, source: int, account: int, prune: int)

  datatype Attempt = Attempt(user: string, source: string, clock: Clock, commit: Commit)

  function Keys(a: Attempt): seq<(Key, int)> {
    [(Installation, a.clock.installation), (Source(Unix(a.clock.day) / DAY_SECONDS, a.source), a.clock.source),
     (Account(a.user), a.clock.account)]
  }

  /** Touches the remaining buckets in order and stops at the first refusal. */
  function TouchAll(bs: Buckets, keys: seq<(Key, int)>): (Buckets, Verdict)
    decreases |keys|
  {
    if keys == [] then (bs, Passed)
    else
      var (k, now) := keys[0];
      var (row, verdict) := Touch(Row(bs, k), Limit(k), now);
      if verdict != Passed then (bs[k := row], verdict) else TouchAll(bs[k := row], keys[1..])
  }

  /** The transaction before its commit. */
  function Reserve(bs: Buckets, a: Attempt): (Buckets, Verdict) {
    var (touched, verdict) := TouchAll(bs, Keys(a));
    (if verdict == Passed then Prune(touched, a.clock.prune) else touched, verdict)
  }

  function Step(bs: Buckets, a: Attempt): Buckets {
    if a.commit == RolledBack then bs else Reserve(bs, a).0
  }

  /** The attempt goes on to password verification. */
  predicate Admitted(bs: Buckets, a: Attempt) {
    a.commit == Committed && Reserve(bs, a).1 == Passed
  }

  // ---------------------------------------------------------------- the log of one key along a run

  datatype Entry = Pass(at: int) | Lockout(at: int) | Refusal(at: int)

  /** What one touch leaves in the log of `k`. */
  function Mark(mine: bool, verdict: Verdict, now: int): seq<Entry> {
    if !mine then []
    else
      match verdict
      case Passed => [Pass(now)]
      case Locked => [Lockout(now)]
      case Refused => [Refusal(now)]
  }

  /** What a durable reservation did to key `k`. */
  function EntriesOf(bs: Buckets, keys: seq<(Key, int)>, k: Key): seq<Entry>
    decreases |keys|
  {
    if keys == [] then []
    else
      var (key, now) := keys[0];
      var (row, verdict) := Touch(Row(bs, key), Limit(key), now);
      var here := Mark(key == k, verdict, now);
      if verdict != Passed then here else here + EntriesOf(bs[key := row], keys[1..], k)
  }

  function Log(bs: Buckets, run: seq<Attempt>, k: Key): seq<Entry>
    decreases |run|
  {
    if run == [] then []
    else
      (if run[0].commit == RolledBack then [] else EntriesOf(bs, Keys(run[0]), k))
      + Log(Step(bs, run[0]), run[1..], k)
  }

  predicate Forward(c: Clock) {
    c.installation <= c.day <= c.source <= c.account <= c.prune
  }

  predicate ClockRuns(run: seq<Attempt>, from: int)
    decreases |run|
  {
    run != [] ==> from <= run[0].clock.installation && Forward(run[0].clock) && ClockRuns(run[1..], run[0].clock.prune)
  }

  /**
    The promise, read off a log alone: entries fall into minutes anchored at a pass. The first `limit` meetings of a
    minute pass, the next is refused and audited as its one lockout, and the rest of the minute is refused unaudited.
  */
  predicate Anchored(log: seq<Entry>, limit: int, start: int, used: int)
    decreases |log|
  {
    log != [] ==>
      match log[0]
      case Pass(t) => if t < start + MINUTE then used < limit && Anchored(log[1..], limit, start, used + 1)
          else Anchored(log[1..], limit, t, 1)
      case Lockout(t) => t < start + MINUTE && used == limit && Anchored(log[1..], limit, start, limit + 1)
      case Refusal(t) => t < start + MINUTE && used == limit + 1 && Anchored(log[1..], limit, start, limit + 1)
  }

  predicate AnchoredFrom(b: Option<Bucket>, log: seq<Entry>, limit: int) {
    match b
    case None => log != [] ==> log[0].Pass? && Anchored(log[1..], limit, log[0].at, 1)
    case Some(row) => Anchored(log, limit, row.start, row.used)
  }

  predicate Ordered(log: seq<Entry>, from: int)
    decreases |log|
  {
    log != [] ==> from <= log[0].at && Ordered(log[1..], log[0].at)
  }

  predicate BucketInv(b: Bucket, limit: int, now: int) {
    b.start <= now && b.expiry == b.start + MINUTE && 1 <= b.used <= limit + 1
  }

  predicate Inv(bs: Buckets, now: int) {
    forall k | k in bs && !k.Http? :: BucketInv(bs[k], Limit(k), now)
  }

  // ---------------------------------------------------------------- one reservation

  lemma TouchKeeps(b: Option<Bucket>, limit: int, now: int)
    requires limit >= 1 && (b.Some? ==> BucketInv(b.value, limit, now))
    ensures BucketInv(Touch(b, limit, now).0, limit, now)
  {
  }

  predicate KeysForward(keys: seq<(Key, int)>, from: int, to: int)
    decreases |keys|
  {
    if keys == [] then from <= to
    else from <= keys[0].1 && !keys[0].0.Http? && KeysForward(keys[1..], keys[0].1, to)
  }

  lemma {:induction false} TouchAllKeeps(bs: Buckets, keys: seq<(Key, int)>, from: int, to: int)
    requires Inv(bs, from) && KeysForward(keys, from, to)
    ensures Inv(TouchAll(bs, keys).0, to)
    decreases |keys|
  {
    if keys == [] {
    } else {
      var (k, now) := keys[0];
      TouchKeeps(Row(bs, k), Limit(k), now);
      var (row, verdict) := Touch(Row(bs, k), Limit(k), now);
      KeysSpan(keys, from, to);
      if verdict == Passed {
        TouchAllKeeps(bs[k := row], keys[1..], now, to);
      }
    }
  }

  lemma {:induction false} KeysSpan(keys: seq<(Key, int)>, from: int, to: int)
    requires KeysForward(keys, from, to)
    ensures from <= to && (keys != [] ==> keys[0].1 <= to)
    decreases |keys|
  {
    if keys != [] {
      KeysSpan(keys[1..], keys[0].1, to);
    }
  }

  /** Prepending what a reservation did to a key keeps the key's log anchored. */
  lemma {:induction false} ReservationIsAnchored(bs: Buckets, keys: seq<(Key, int)>, k: Key, rest: seq<Entry>,
      from: int, to: int)
    requires Inv(bs, from) && KeysForward(keys, from, to) && !k.Http?
    requires Ordered(rest, to) && AnchoredFrom(Row(TouchAll(bs, keys).0, k), rest, Limit(k))
    ensures AnchoredFrom(Row(bs, k), EntriesOf(bs, keys, k) + rest, Limit(k))
    ensures Ordered(EntriesOf(bs, keys, k) + rest, from)
    decreases |keys|
  {
    hide Touch, Anchored, AnchoredFrom, Ordered, Inv, EntriesOf, BucketInv;
    KeysSpan(keys, from, to);
    if keys == [] {
      NoEntries(bs, k, rest);
      OrderedLater(rest, from, to);
    } else {
      var (key, now) := keys[0];
      var (row, verdict) := Touch(Row(bs, key), Limit(key), now);
      InvAfterTouch(bs, key, from, now);
      if verdict == Passed {
        ReservationIsAnchored(bs[key := row], keys[1..], k, rest, now, to);
      } else {
        OrderedLater(rest, now, to);
      }
      var later := if verdict != Passed then rest else EntriesOf(bs[key := row], keys[1..], k) + rest;
      EntriesHead(bs, keys, k, rest);
      PrependEntry(Row(bs, k), Limit(k), now, from, Mark(key == k, verdict, now), later,
                   if key == k then Some(verdict) else None);
    }
  }

  lemma NoEntries(bs: Buckets, k: Key, rest: seq<Entry>)
    ensures EntriesOf(bs, [], k) + rest == rest
  {
  }

  lemma EntriesHead(bs: Buckets, keys: seq<(Key, int)>, k: Key, rest: seq<Entry>)
    requires keys != []
    ensures var (key, now) := keys[0]; var (row, verdict) := Touch(Row(bs, key), Limit(key), now);
            EntriesOf(bs, keys, k) + rest ==
            Mark(key == k, verdict, now) + (if verdict != Passed then rest
                else EntriesOf(bs[key := row], keys[1..], k) + rest)
  {
    hide Touch;
  }

  lemma InvAfterTouch(bs: Buckets, key: Key, from: int, now: int)
    requires Inv(bs, from) && from <= now && !key.Http?
    ensures Inv(bs[key := Touch(Row(bs, key), Limit(key), now).0], now)
    ensures forall k | k in bs && !k.Http? :: BucketInv(bs[k], Limit(k), now)
  {
    TouchKeeps(Row(bs, key), Limit(key), now);
    hide Touch;
  }

  lemma PrependEntry(b: Option<Bucket>, limit: int, now: int, from: int, here: seq<Entry>, later: seq<Entry>,
      verdict: Option<Verdict>)
    requires limit >= 1 && from <= now && (b.Some? ==> BucketInv(b.value, limit, now))
    requires verdict.Some? ==> verdict.value == Touch(b, limit, now).1
    requires here == Mark(verdict.Some?, if verdict.Some? then verdict.value else Refused, now)
    requires AnchoredFrom(if verdict.Some? then Some(Touch(b, limit, now).0) else b, later, limit)
        && Ordered(later, now)
    ensures AnchoredFrom(b, here + later, limit) && Ordered(here + later, from)
  {
    if here == [] {
      assert here + later == later;
    } else {
      assert (here + later)[0] == here[0] && (here + later)[1..] == later;
    }
  }

  /** Forgetting an expired row forgets nothing: the next pass anchors a new minute anyway. */
  lemma PruneForgetsNothing(bs: Buckets, at: int, k: Key, rest: seq<Entry>)
    requires Inv(bs, at) && !k.Http? && Ordered(rest, at) && AnchoredFrom(Row(Prune(bs, at), k), rest, Limit(k))
    ensures AnchoredFrom(Row(bs, k), rest, Limit(k))
  {
  }

  lemma {:induction false} RunIsAnchored(bs: Buckets, run: seq<Attempt>, k: Key, from: int)
    requires Inv(bs, from) && ClockRuns(run, from) && !k.Http?
    ensures AnchoredFrom(Row(bs, k), Log(bs, run, k), Limit(k)) && Ordered(Log(bs, run, k), from)
    decreases |run|
  {
    if run != [] {
      var a := run[0];
      var c := a.clock;
      var rest := Log(Step(bs, a), run[1..], k);
      KeysAre(a, from);
      if a.commit == RolledBack {
        assert Inv(bs, c.prune);
        RunIsAnchored(bs, run[1..], k, c.prune);
        OrderedLater(rest, from, c.prune);
        assert Log(bs, run, k) == rest;
      } else {
        TouchAllKeeps(bs, Keys(a), from, c.prune);
        RunIsAnchored(Step(bs, a), run[1..], k, c.prune);
        if Reserve(bs, a).1 == Passed {
          PruneForgetsNothing(TouchAll(bs, Keys(a)).0, c.prune, k, rest);
        }
        ReservationIsAnchored(bs, Keys(a), k, rest, from, c.prune);
      }
    }
  }

  lemma KeysAre(a: Attempt, from: int)
    requires Forward(a.clock) && from <= a.clock.installation
    ensures KeysForward(Keys(a), from, a.clock.prune)
  {
    var keys := Keys(a);
    assert keys[1..] == [keys[1], keys[2]] && keys[1..][1..] == [keys[2]] && keys[1..][1..][1..] == [];
    assert KeysForward(keys[1..][1..], a.clock.source, a.clock.prune);
    assert KeysForward(keys[1..], a.clock.installation, a.clock.prune);
  }

  lemma OrderedLater(log: seq<Entry>, from: int, to: int)
    requires from <= to && Ordered(log, to)
    ensures Ordered(log, from)
  {
  }

  // ---------------------------------------------------------------- counting in any interval of one minute

  predicate Within(t: int, x: int) {
    x <= t < x + MINUTE
  }

  function Passes(log: seq<Entry>, x: int): nat {
    if log == [] then 0 else (if log[0].Pass? && Within(log[0].at, x) then 1 else 0) + Passes(log[1..], x)
  }

  function Lockouts(log: seq<Entry>, x: int): nat {
    if log == [] then 0 else (if log[0].Lockout? && Within(log[0].at, x) then 1 else 0) + Lockouts(log[1..], x)
  }

  function Left(limit: int, used: int): int {
    if used < limit then limit - used else 0
  }

  /** An interval of a minute meets at most two anchored minutes,
      and misses the anchor of the first when it meets two. */
  lemma {:induction false} CountBound(log: seq<Entry>, limit: int, start: int, used: int, x: int)
    requires Anchored(log, limit, start, used) && Ordered(log, start) && 1 <= limit && 1 <= used <= limit + 1
    ensures x + MINUTE <= start ==> Passes(log, x) == 0 && Lockouts(log, x) == 0
    ensures x <= start ==> Passes(log, x) <= Left(limit, used) && Lockouts(log, x) <= (if used <= limit then 1 else 0)
    ensures x < start + MINUTE ==>
        Passes(log, x) <= Left(limit, used) + limit && Lockouts(log, x) <= (if used <= limit then 2 else 1)
    ensures Passes(log, x) <= 2 * limit - 1 && Lockouts(log, x) <= 2
    decreases |log|
  {
    if log != [] {
      var t := log[0].at;
      var rest := log[1..];
      if log[0].Pass? && t >= start + MINUTE {
        CountBound(rest, limit, t, 1, x);
      } else {
        OrderedLater(rest, start, t);
        CountBound(rest, limit, start, if log[0].Pass? then used + 1 else limit + 1, x);
      }
    }
  }

  lemma {:induction false} PassesConcat(a: seq<Entry>, b: seq<Entry>, x: int)
    ensures Passes(a + b, x) == Passes(a, x) + Passes(b, x)
  {
    if a == [] {
      assert a + b == b;
    } else {
      assert (a + b)[1..] == a[1..] + b;
      PassesConcat(a[1..], b, x);
    }
  }

  /** Earlier in the same minute, a lockout was audited. */
  predicate AuditedBefore(log: seq<Entry>, j: nat)
    requires j < |log|
  {
    exists i | 0 <= i < j :: log[i].Lockout? && log[j].at - MINUTE < log[i].at <= log[j].at
  }

  /** No key is shut out silently: every unaudited refusal follows an audited one of its minute. */
  lemma {:induction false} RefusalIsAudited(log: seq<Entry>, limit: int, start: int, used: int, j: nat)
    requires Anchored(log, limit, start, used) && Ordered(log, start) && 1 <= limit && j < |log| && log[j].Refusal?
    ensures (used == limit + 1 && log[j].at < start + MINUTE) || AuditedBefore(log, j)
    decreases |log|
  {
    if j > 0 {
      var rest := log[1..];
      assert rest[j - 1] == log[j];
      LaterEntries(rest, log[0].at, j - 1);
      if log[0].Pass? && log[0].at >= start + MINUTE {
        RefusalIsAudited(rest, limit, log[0].at, 1, j - 1);
      } else {
        OrderedLater(rest, start, log[0].at);
        RefusalIsAudited(rest, limit, start, if log[0].Pass? then used + 1 else limit + 1, j - 1);
      }
      if AuditedBefore(rest, j - 1) {
        var i :| 0 <= i < j - 1 && rest[i].Lockout? && rest[j - 1].at - MINUTE < rest[i].at <= rest[j - 1].at;
        assert log[i + 1] == rest[i];
      } else if log[0].Lockout? {
        assert AuditedBefore(log, j);
      }
    }
  }

  lemma {:induction false} LaterEntries(log: seq<Entry>, from: int, j: nat)
    requires Ordered(log, from) && j < |log|
    ensures from <= log[j].at
    decreases j
  {
    if j > 0 {
      LaterEntries(log[1..], log[0].at, j - 1);
    }
  }

  // ---------------------------------------------------------------- theorems

  /** The bucket still has room at this reading of the clock. */
  predicate HasRoom(bs: Buckets, k: Key, now: int) {
    k in bs && bs[k].start <= now < bs[k].expiry ==> bs[k].used < Limit(k)
  }

  /** The clock has not gone back behind the bucket's minute. */
  predicate NotBefore(bs: Buckets, k: Key, now: int) {
    k in bs ==> bs[k].start <= now
  }

  /** An attempt goes through exactly when each of its three buckets has room, whatever the others did. */
  lemma AdmittedExactlyWhen(bs: Buckets, a: Attempt)
    ensures Admitted(bs, a) <==>
              a.commit == Committed
              && forall i | 0 <= i < |Keys(a)| ::
                   HasRoom(bs, Keys(a)[i].0, Keys(a)[i].1) && NotBefore(bs, Keys(a)[i].0, Keys(a)[i].1)
  {
    var keys := Keys(a);
    assert keys[1..] == [keys[1], keys[2]] && keys[1..][1..] == [keys[2]] && keys[1..][1..][1..] == [];
    var bs1 := bs[keys[0].0 := Touch(Row(bs, keys[0].0), Limit(keys[0].0), keys[0].1).0];
    var bs2 := bs1[keys[1].0 := Touch(Row(bs1, keys[1].0), Limit(keys[1].0), keys[1].1).0];
    assert Row(bs1, keys[1].0) == Row(bs, keys[1].0) && Row(bs2, keys[2].0) == Row(bs, keys[2].0);
    PassedMeans(bs, keys[0].0, keys[0].1);
    PassedMeans(bs, keys[1].0, keys[1].1);
    PassedMeans(bs, keys[2].0, keys[2].1);
    hide Touch, HasRoom, NotBefore, Prune;
    assert |keys| == 3 && keys[1..][0] == keys[1] && keys[1..][1..][0] == keys[2];
    var last := Touch(Row(bs2, keys[2].0), Limit(keys[2].0), keys[2].1);
    assert TouchAll(bs2[keys[2].0 := last.0], []).1 == Passed;
    assert TouchAll(bs2, keys[1..][1..]).1 == last.1;
    assert TouchAll(bs1, keys[1..]).1 == Passed <==> Touch(Row(bs1, keys[1].0), Limit(keys[1].0), keys[1].1).1 == Passed
                                                     && last.1 == Passed;
  }

  lemma PassedMeans(bs: Buckets, k: Key, now: int)
    ensures Touch(Row(bs, k), Limit(k), now).1 == Passed <==> HasRoom(bs, k, now) && NotBefore(bs, k, now)
  {
  }

  /** The attempt is admitted and met the bucket of `k` inside the minute from `x`. */
  predicate AdmittedIn(bs: Buckets, a: Attempt, k: Key, x: int) {
    Admitted(bs, a) && exists i | 0 <= i < |Keys(a)| :: Keys(a)[i].0 == k && Within(Keys(a)[i].1, x)
  }

  function AdmittedCount(bs: Buckets, run: seq<Attempt>, k: Key, x: int): nat
    decreases |run|
  {
    if run == [] then 0
    else (if AdmittedIn(bs, run[0], k, x) then 1 else 0) + AdmittedCount(Step(bs, run[0]), run[1..], k, x)
  }

  /** An admitted attempt passed each of its buckets. */
  lemma {:induction false} AdmittedPasses(bs: Buckets, keys: seq<(Key, int)>, i: nat, x: int)
    requires i < |keys| && TouchAll(bs, keys).1 == Passed && Within(keys[i].1, x)
    ensures Passes(EntriesOf(bs, keys, keys[i].0), x) >= 1
    decreases |keys|
  {
    var (key, now) := keys[0];
    var (row, verdict) := Touch(Row(bs, key), Limit(key), now);
    var k := keys[i].0;
    var here := if key != k then [] else [Pass(now)];
    assert EntriesOf(bs, keys, k) == here + EntriesOf(bs[key := row], keys[1..], k);
    PassesConcat(here, EntriesOf(bs[key := row], keys[1..], k), x);
    if i > 0 {
      AdmittedPasses(bs[key := row], keys[1..], i - 1, x);
    }
  }

  lemma {:induction false} AdmittedAreLogged(bs: Buckets, run: seq<Attempt>, k: Key, x: int)
    ensures AdmittedCount(bs, run, k, x) <= Passes(Log(bs, run, k), x)
    decreases |run|
  {
    hide TouchAll, EntriesOf, Prune;
    if run != [] {
      var a := run[0];
      var here := if a.commit == RolledBack then [] else EntriesOf(bs, Keys(a), k);
      AdmittedAreLogged(Step(bs, a), run[1..], k, x);
      PassesConcat(here, Log(Step(bs, a), run[1..], k), x);
      if AdmittedIn(bs, a, k, x) {
        var i :| 0 <= i < |Keys(a)| && Keys(a)[i].0 == k && Within(Keys(a)[i].1, x);
        AdmittedPasses(bs, Keys(a), i, x);
      }
    }
  }

  /**
    Over every run on a forward clock, with rows pruned and recreated and commits lost: the log of each key is
    anchored, any minute, aligned or not, admits at most twice the limit less one and audits at most two lockouts, and
    every refusal is audited or follows an audited one of its minute.
  */
  lemma LimiterTheorem(run: seq<Attempt>, k: Key, from: int, x: int)
    requires ClockRuns(run, from) && !k.Http?
    ensures AnchoredFrom(None, Log(map[], run, k), Limit(k))
    ensures AdmittedCount(map[], run, k, x) <= 2 * Limit(k) - 1
    ensures Lockouts(Log(map[], run, k), x) <= 2
    ensures forall j | 0 <= j < |Log(map[], run, k)| && Log(map[], run, k)[j].Refusal? ::
        AuditedBefore(Log(map[], run, k), j)
  {
    var log := Log(map[], run, k);
    RunIsAnchored(map[], run, k, from);
    AdmittedAreLogged(map[], run, k, x);
    if log != [] {
      CountBound(log[1..], Limit(k), log[0].at, 1, x);
    }
    forall j | 0 <= j < |log| && log[j].Refusal?
      ensures AuditedBefore(log, j)
    {
      var rest := log[1..];
      assert rest[j - 1] == log[j];
      RefusalIsAudited(rest, Limit(k), log[0].at, 1, j - 1);
      var i :| 0 <= i < j - 1 && rest[i].Lockout? && rest[j - 1].at - MINUTE < rest[i].at <= rest[j - 1].at;
      assert log[i + 1] == rest[i];
    }
  }

  // ---------------------------------------------------------------- the bound is reached

  function At(user: string, source: string, t: int): Attempt {
    Attempt(user, source, Clock(t, t, t, t, t), Committed)
  }

  function Burst(user: string, source: string, t: int, n: nat): seq<Attempt> {
    if n == 0 then [] else [At(user, source, t)] + Burst(user, source, t, n - 1)
  }

  /** One user from one source, all three buckets anchored together on day zero. */
  function Together(user: string, source: string, start: int, used: int): Buckets {
    var row := Bucket(start, start + MINUTE, used);
    map[Installation := row, Source(0, source) := row, Account(user) := row]
  }

  lemma TogetherStep(user: string, source: string, bs: Buckets, start: int, used: int, t: int)
    requires 0 <= start <= t < 2 * MINUTE && 1 <= used
    requires bs == Together(user, source, start, used) || (bs == map[] && used == 1 && t == start)
    requires t < start + MINUTE ==> used < 5 || bs == map[]
    ensures Admitted(bs, At(user, source, t))
    ensures Step(bs, At(user, source, t)) ==
            if bs == map[] || t >= start + MINUTE then Together(user, source, t, 1)
                else Together(user, source, start, used + 1)
  {
    var a := At(user, source, t);
    var keys := Keys(a);
    assert Unix(t) / DAY_SECONDS == 0;
    assert keys[1..] == [keys[1], keys[2]] && keys[1..][1..] == [keys[2]] && keys[1..][1..][1..] == [];
    var row := Touch(Row(bs, Installation), 60, t).0;
    var bs1 := bs[Installation := row];
    var bs2 := bs1[Source(0, source) := row];
    var bs3 := bs2[Account(user) := row];
    assert TouchAll(bs2, keys[1..][1..]) == (bs3, Passed);
    assert TouchAll(bs1, keys[1..]) == (bs3, Passed);
    assert bs3 == Together(user, source, row.start, row.used);
    assert Prune(bs3, t) == bs3;
  }

  lemma {:induction false} BurstIsAdmitted(user: string, source: string, start: int, used: int, t: int, n: nat,
      rest: seq<Attempt>, x: int)
    requires 0 <= start <= t < start + MINUTE && t < 2 * MINUTE && 1 <= used && used + n <= 5
    ensures AdmittedCount(Together(user, source, start, used), Burst(user, source, t, n) + rest, Account(user), x)
            == (if Within(t, x) then n else 0) + AdmittedCount(Together(user, source, start, used + n), rest,
                Account(user), x)
    decreases n
  {
    hide Touch, TouchAll, Prune, Reserve;
    var es := Burst(user, source, t, n) + rest;
    if n == 0 {
      assert es == rest;
    } else {
      var bs := Together(user, source, start, used);
      TogetherStep(user, source, bs, start, used, t);
      assert es[0] == At(user, source, t) && es[1..] == Burst(user, source, t, n - 1) + rest;
      MeetsAccount(bs, user, source, t, x);
      assert Installation in bs && Step(bs, es[0]) == Together(user, source, start, used + 1);
      BurstIsAdmitted(user, source, start, used + 1, t, n - 1, rest, x);
    }
  }

  lemma MeetsAccount(bs: Buckets, user: string, source: string, t: int, x: int)
    requires Admitted(bs, At(user, source, t))
    ensures AdmittedIn(bs, At(user, source, t), Account(user), x) == Within(t, x)
  {
    assert Keys(At(user, source, t))[2] == (Account(user), t);
  }

  /** Five attempts around the end of one minute and five at the start of the next: nine in one minute for one
      account. */
  lemma AccountBoundIsReached(user: string, source: string)
    ensures exists run ::
        ClockRuns(run, 0) && AdmittedCount(map[], run, Account(user), MINUTE - 1) == 2 * Limit(Account(user)) - 1
  {
    hide Touch, TouchAll, Prune, Reserve, EntriesOf;
    var x := MINUTE - 1;
    var second := Burst(user, source, MINUTE, 4) + [];
    var third := [At(user, source, MINUTE)] + second;
    var first := Burst(user, source, MINUTE - 1, 4) + third;
    var run := [At(user, source, 0)] + first;
    TogetherStep(user, source, map[], 0, 1, 0);
    TogetherStep(user, source, Together(user, source, 0, 5), 0, 5, MINUTE);
    MeetsAccount(map[], user, source, 0, x);
    MeetsAccount(Together(user, source, 0, 5), user, source, MINUTE, x);
    BurstIsAdmitted(user, source, 0, 1, MINUTE - 1, 4, third, x);
    BurstIsAdmitted(user, source, MINUTE, 1, MINUTE, 4, [], x);
    assert run[1..] == first && third[1..] == second;
    BurstRuns(user, source, MINUTE, MINUTE, 4, []);
    BurstRuns(user, source, MINUTE - 1, 0, 4, third);
    assert ClockRuns(run, 0);
  }

  lemma {:induction false} BurstRuns(user: string, source: string, t: int, from: int, n: nat, rest: seq<Attempt>)
    requires from <= t && ClockRuns(rest, t)
    ensures ClockRuns(Burst(user, source, t, n) + rest, from)
    decreases n
  {
    var es := Burst(user, source, t, n) + rest;
    if n == 0 {
      assert es == rest;
    } else {
      assert es[0] == At(user, source, t) && es[1..] == Burst(user, source, t, n - 1) + rest;
      BurstRuns(user, source, t, t, n - 1, rest);
    }
  }

  // ---------------------------------------------------------------- the transaction

  class Limiter {
    var buckets: Buckets
    var audits: nat

    constructor ()
      ensures buckets == map[] && audits == 0
    {
      buckets, audits := map[], 0;
    }

    method ReserveAttempt(a: Attempt) returns (admitted: bool)
      modifies this
      ensures buckets == Step(old(buckets), a)
      ensures admitted == Admitted(old(buckets), a)
      ensures audits == old(audits) + (if a.commit != RolledBack && Reserve(old(buckets), a).1 == Locked then 1 else 0)
    {
      var rows, lockouts, allowed := buckets, 0, true;
      var keys := Keys(a);
      var i := 0;
      while i < |keys| && allowed
        invariant 0 <= i <= |keys|
        invariant allowed ==> lockouts == 0 && TouchAll(old(buckets), Keys(a)) == TouchAll(rows, keys[i..])
        invariant !allowed ==> TouchAll(old(buckets), Keys(a)) == (rows, if lockouts == 1 then Locked else Refused)
        invariant 0 <= lockouts <= 1
      {
        var (key, now) := keys[i];
        assert keys[i..][0] == keys[i] && keys[i..][1..] == keys[i + 1..];
        if key !in rows {
          rows := rows[key := Bucket(now, now + MINUTE, 1)];
        } else {
          var row := rows[key];
          if now < row.start || (now < row.expiry && row.used >= Limit(key)) {
            allowed := false;
            assert rows[key := row] == rows;
            if row.used <= Limit(key) {
              rows := rows[key := row.(used := Limit(key) + 1)];
              lockouts := 1;
            }
          } else if now >= row.expiry {
            rows := rows[key := Bucket(now, now + MINUTE, 1)];
          } else {
            rows := rows[key := row.(used := row.used + 1)];
          }
        }
        i := i + 1;
      }
      if allowed {
        rows := Prune(rows, a.clock.prune);
      }
      if a.commit == RolledBack {
        return false;
      }
      buckets, audits := rows, audits + lockouts;
      return allowed && a.commit == Committed;
    }
  }
}
