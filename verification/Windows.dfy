/**
  The sliding counters of the runtime node: HTTP errors over 60 one-second buckets
  (internal/runtimeplane/http_metrics.go) and arrivals over 300 (internal/runtimeplane/node.go).

  The reference is a plain log of observed seconds, cut at every clock rollback. The rings refine it.
*/
module Windows {
  import opened Base

  const HTTP: nat := 60

  const ARRIVALS: nat := 300

  /** Per-second ceiling of the arrival counter. */
  const PER_SECOND: nat := 333333

  /** What the control plane accepts for one room. */
  const ACCEPTED_ARRIVALS: nat := 100000000

  /** `started` and `last` as stored; `log` the seconds observed since the last reset. */
  datatype Window = Window(started: int, last: int, log: seq<int>)

  function Clamp(n: nat, cap: Option<nat>): nat {
    if cap.Some? && n > cap.value then cap.value else n
  }

  /** Observations in seconds lo up to, not including, hi, each second counted up to `cap`. */
  function Total(log: seq<int>, lo: int, hi: int, cap: Option<nat>): nat
    decreases hi - lo
  {
    if hi <= lo then 0 else Total(log, lo, hi - 1, cap) + Clamp(multiset(log)[hi - 1], cap)
  }

  // ---------------------------------------------------------------- the reference counters

  function Advance(w: Window, sec: int): Window {
    if sec < w.last || w.started == 0 then Window(sec, sec, []) else w.(last := sec)
  }

  function ErrorSeen(w: Window, sec: int): Window {
    var a := Advance(w, sec);
    a.(log := a.log + [sec])
  }

  function ArrivalSeen(w: Window, sec: int): Window {
    var a := if sec < w.last then Window(sec, sec, []) else w.(last := sec);
    Window(if a.started == 0 then sec else a.started, sec, a.log + [sec])
  }

  // ---------------------------------------------------------------- facts about totals

  lemma {:induction false} TotalSplit(log: seq<int>, lo: int, mid: int, hi: int, cap: Option<nat>)
    requires lo <= mid <= hi
    ensures Total(log, lo, hi, cap) == Total(log, lo, mid, cap) + Total(log, mid, hi, cap)
    decreases hi - mid
  {
    if mid < hi {
      TotalSplit(log, lo, mid, hi - 1, cap);
    }
  }

  /** Never above the cap in any second, so never above the accepted maximum. */
  lemma {:induction false} TotalBounded(log: seq<int>, lo: int, hi: int, cap: nat)
    requires lo <= hi
    ensures Total(log, lo, hi, Some(cap)) <= (hi - lo) * cap
    decreases hi - lo
  {
    if lo < hi {
      TotalBounded(log, lo, hi - 1, cap);
      assert (hi - lo) * cap == (hi - 1 - lo) * cap + cap;
    }
  }

  function Within(log: seq<int>, lo: int, hi: int): seq<int> {
    if log == [] then [] else (if lo <= log[0] < hi then [log[0]] else []) + Within(log[1..], lo, hi)
  }

  lemma {:induction false} TotalOfEmpty(lo: int, hi: int)
    ensures Total([], lo, hi, None) == 0
    decreases hi - lo
  {
    if lo < hi {
      TotalOfEmpty(lo, hi - 1);
    }
  }

  lemma {:induction false} TotalOfCons(t: int, rest: seq<int>, lo: int, hi: int)
    ensures Total([t] + rest, lo, hi, None) == Total(rest, lo, hi, None) + (if lo <= t < hi then 1 else 0)
    decreases hi - lo
  {
    if lo < hi {
      TotalOfCons(t, rest, lo, hi - 1);
      assert multiset([t] + rest) == multiset{t} + multiset(rest);
    }
  }

  /** Without a cap the total is the number of logged observations in the interval. */
  lemma {:induction false} TotalCounts(log: seq<int>, lo: int, hi: int)
    ensures Total(log, lo, hi, None) == |Within(log, lo, hi)|
    decreases |log|
  {
    if log == [] {
      TotalOfEmpty(lo, hi);
    } else {
      assert log == [log[0]] + log[1..];
      TotalOfCons(log[0], log[1..], lo, hi);
      TotalCounts(log[1..], lo, hi);
    }
  }

  /** The cap only ever lowers the count, and lowers it exactly when some second overflows. */
  lemma {:induction false} CapLowers(log: seq<int>, lo: int, hi: int, cap: nat)
    ensures Total(log, lo, hi, Some(cap)) <= Total(log, lo, hi, None)
    ensures Total(log, lo, hi, Some(cap)) == Total(log, lo, hi, None) <==>
        forall s | lo <= s < hi :: multiset(log)[s] <= cap
    decreases hi - lo
  {
    if lo < hi {
      CapLowers(log, lo, hi - 1, cap);
      assert Clamp(multiset(log)[hi - 1], None) == multiset(log)[hi - 1];
    }
  }

  // ---------------------------------------------------------------- the ring

  /** Buckets hold, for each residue, the latest logged second of that residue and its clamped count. */
  ghost predicate Ring(counts: seq<int>, seconds: seq<int>, log: seq<int>, cap: Option<nat>) {
    && |counts| == |seconds| > 0
    && (forall i | 0 <= i < |counts| ::
          counts[i] == if seconds[i] % |counts| == i then Clamp(multiset(log)[seconds[i]], cap) else 0)
    && (forall t | t in log ::
        t <= seconds[t % |counts|] && seconds[t % |counts|] in log && seconds[t % |counts|] % |counts| == t % |counts|)
  }

  predicate Zeros(xs: seq<int>) {
    forall i | 0 <= i < |xs| :: xs[i] == 0
  }

  lemma EmptyRing(counts: seq<int>, seconds: seq<int>, cap: Option<nat>)
    requires |counts| == |seconds| > 0 && Zeros(counts) && Zeros(seconds)
    ensures Ring(counts, seconds, [], cap)
  {
  }

  /** Writing one observation at the latest second into its bucket. */
  lemma RingObserve(counts: seq<int>, seconds: seq<int>, log: seq<int>, cap: Option<nat>, sec: int, count: int)
    requires Ring(counts, seconds, log, cap) && forall t | t in log :: t <= sec
    requires cap.Some? ==> cap.value > 0
    requires var i := sec % |counts|; var c := if seconds[i] == sec then counts[i] else 0;
             count == if cap.Some? && c >= cap.value then c else c + 1
    ensures var i := sec % |counts|; Ring(counts[i := count], seconds[i := sec], log + [sec], cap)
  {
    var n := |counts|;
    var i := sec % n;
    var longer := log + [sec];
    assert multiset(longer) == multiset(log) + multiset{sec};
    if seconds[i] != sec {
      assert sec !in log;
    }
    assert counts[i := count][i] == Clamp(multiset(longer)[sec], cap);
    forall j | 0 <= j < n && j != i
      ensures counts[j] == if seconds[j] % n == j then Clamp(multiset(longer)[seconds[j]], cap) else 0
    {
      if seconds[j] % n == j {
        assert seconds[j] != sec;
      }
    }
    var after := seconds[i := sec];
    forall t | t in longer
      ensures t <= after[t % n] && after[t % n] in longer && after[t % n] % n == t % n
    {
      if t in log {
        assert t <= seconds[t % n];
      }
    }
  }

  /** The second of residue `i` in the `n` seconds up to `sec`. */
  function SecondOf(i: int, sec: int, n: nat): int
    requires n > 0
  {
    if i <= sec % n then sec - sec % n + i else sec - sec % n + i - n
  }

  function Bucket(counts: seq<int>, seconds: seq<int>, i: int, sec: int): int
    requires |counts| == |seconds| && 0 <= i < |counts|
  {
    if sec - |counts| < seconds[i] <= sec then counts[i] else 0
  }

  lemma Multiple(d: int, n: int)
    requires n > 0
    ensures d >= 1 ==> d * n >= n
    ensures d <= -1 ==> d * n <= -n
  {
  }

  lemma SameResidue(a: int, b: int, n: nat)
    requires n > 0 && a % n == b % n && b <= a < b + n
    ensures a == b
  {
    assert a == (a / n) * n + a % n && b == (b / n) * n + b % n;
    var d := a / n - b / n;
    assert a - b == d * n;
    Multiple(d, n);
  }

  lemma SecondOfResidue(i: int, sec: int, n: nat)
    requires n > 0 && 0 <= i < n
    ensures SecondOf(i, sec, n) % n == i && sec - n < SecondOf(i, sec, n) <= sec
  {
    var q := sec / n;
    assert sec == q * n + sec % n;
    var s := SecondOf(i, sec, n);
    assert s == q * n + i || s == (q - 1) * n + i by {
      assert (q - 1) * n == q * n - n;
    }
    Residue(q, i, n);
    Residue(q - 1, i, n);
  }

  lemma Residue(q: int, i: int, n: nat)
    requires n > 0 && 0 <= i < n
    ensures (q * n + i) % n == i
  {
    var s := q * n + i;
    assert s == (s / n) * n + s % n;
    var d := s / n - q;
    assert d * n == i - s % n;
    Multiple(d, n);
  }

  /** A bucket in range holds exactly the window's second of its residue; one out of range means nothing was seen
      then. */
  lemma BucketIsSecond(counts: seq<int>, seconds: seq<int>, log: seq<int>, cap: Option<nat>, i: int, sec: int)
    requires Ring(counts, seconds, log, cap) && 0 <= i < |counts| && forall t | t in log :: t <= sec
    ensures Bucket(counts, seconds, i, sec) == Clamp(multiset(log)[SecondOf(i, sec, |counts|)], cap)
  {
    var n := |counts|;
    var s := SecondOf(i, sec, n);
    SecondOfResidue(i, sec, n);
    if s in log {
      SameResidue(seconds[i], s, n);
    } else if sec - n < seconds[i] <= sec && seconds[i] % n == i {
      if seconds[i] < s {
        SameResidue(s, seconds[i], n);
      } else {
        SameResidue(seconds[i], s, n);
      }
    }
  }

  /** The partial sum of the first `i` buckets, as seconds: first the current lap of the ring, then the previous one. */
  function Scanned(log: seq<int>, i: int, sec: int, n: nat, cap: Option<nat>): nat
    requires n > 0
  {
    var base := sec - sec % n;
    if i <= sec % n + 1 then Total(log, base, base + i, cap)
        else Total(log, base, sec + 1, cap) + Total(log, sec + 1 - n, base + i - n, cap)
  }

  lemma ScanStep(counts: seq<int>, seconds: seq<int>, log: seq<int>, cap: Option<nat>, i: int, sec: int)
    requires Ring(counts, seconds, log, cap) && 0 <= i < |counts| && forall t | t in log :: t <= sec
    ensures Scanned(log, i + 1, sec, |counts|, cap) ==
        Scanned(log, i, sec, |counts|, cap) + Bucket(counts, seconds, i, sec)
  {
    BucketIsSecond(counts, seconds, log, cap, i, sec);
  }

  lemma ScanAll(log: seq<int>, sec: int, n: nat, cap: Option<nat>)
    requires n > 0
    ensures Scanned(log, 0, sec, n, cap) == 0 && Scanned(log, n, sec, n, cap) == Total(log, sec - n + 1, sec + 1, cap)
  {
    TotalSplit(log, sec - n + 1, sec - sec % n, sec + 1, cap);
  }

  // ---------------------------------------------------------------- the two counters

  class ErrorWindow {
    var started: int
    var last: int
    const counts: array<int>
    const seconds: array<int>
    ghost var log: seq<int>

    ghost function Abs(): Window
      reads this
    {
      Window(started, last, log)
    }

    ghost predicate Valid()
      reads this, counts, seconds
    {
      && counts.Length == seconds.Length == HTTP && counts != seconds
      && Ring(counts[..], seconds[..], log, None) && forall t | t in log :: t <= last
    }

    constructor (now: int)
      ensures Valid() && Abs() == Window(now, now, []) && fresh(counts) && fresh(seconds)
    {
      started, last, log := now, now, [];
      counts := new int[HTTP](i => 0);
      seconds := new int[HTTP](i => 0);
      new;
      EmptyRing(counts[..], seconds[..], None);
    }

    method Clear()
      requires counts.Length == seconds.Length == HTTP && counts != seconds
      modifies counts, seconds, this`log
      ensures Ring(counts[..], seconds[..], log, None) && log == []
    {
      for i := 0 to HTTP
        invariant forall j | 0 <= j < i :: counts[j] == 0 && seconds[j] == 0
      {
        counts[i], seconds[i] := 0, 0;
      }
      log := [];
      EmptyRing(counts[..], seconds[..], None);
    }

    method Move(sec: int)
      requires Valid()
      modifies this, counts, seconds
      ensures Valid() && Abs() == Advance(old(Abs()), sec)
    {
      if sec < last || started == 0 {
        started := sec;
        Clear();
      }
      last := sec;
    }

    method Observe(sec: int)
      requires Valid()
      modifies this, counts, seconds
      ensures Valid() && Abs() == ErrorSeen(old(Abs()), sec)
    {
      hide Ring, Clamp;
      Move(sec);
      ghost var cs, ss := counts[..], seconds[..];
      var i := sec % HTTP;
      if seconds[i] != sec {
        seconds[i] := sec;
        counts[i] := 0;
      }
      counts[i] := counts[i] + 1;
      RingObserve(cs, ss, log, None, sec, counts[i]);
      assert counts[..] == cs[i := counts[i]] && seconds[..] == ss[i := sec];
      log := log + [sec];
    }

    method Snapshot(sec: int) returns (total: int, complete: bool)
      requires Valid()
      modifies this, counts, seconds
      ensures Valid() && Abs() == Advance(old(Abs()), sec)
      ensures total == Total(log, sec - 59, sec + 1, None) && complete == (sec - started >= 60)
    {
      Move(sec);
      total := Sum(sec);
      complete := sec - started >= 60;
    }

    method Sum(sec: int) returns (total: int)
      requires Valid() && sec == last
      ensures total == Total(log, sec - 59, sec + 1, None)
    {
      hide Ring, Scanned, Total, SecondOf;
      total := 0;
      ScanAll(log, sec, HTTP, None);
      for i := 0 to HTTP
        invariant total == Scanned(log, i, sec, HTTP, None)
      {
        ScanStep(counts[..], seconds[..], log, None, i, sec);
        if seconds[i] > sec - 60 && seconds[i] <= sec {
          total := total + counts[i];
        }
      }
    }
  }

  class ArrivalWindow {
    var started: int
    var last: int
    const counts: array<int>
    const seconds: array<int>
    ghost var log: seq<int>

    ghost function Abs(): Window
      reads this
    {
      Window(started, last, log)
    }

    ghost predicate Valid()
      reads this, counts, seconds
    {
      && counts.Length == seconds.Length == ARRIVALS && counts != seconds
      && Ring(counts[..], seconds[..], log, Some(PER_SECOND)) && forall t | t in log :: t <= last
    }

    constructor (now: int)
      ensures Valid() && Abs() == Window(now, 0, []) && fresh(counts) && fresh(seconds)
    {
      started, last, log := now, 0, [];
      counts := new int[ARRIVALS](i => 0);
      seconds := new int[ARRIVALS](i => 0);
      new;
      EmptyRing(counts[..], seconds[..], Some(PER_SECOND));
    }

    method Clear()
      requires counts.Length == seconds.Length == ARRIVALS && counts != seconds
      modifies counts, seconds, this`log
      ensures Ring(counts[..], seconds[..], log, Some(PER_SECOND)) && log == []
    {
      for i := 0 to ARRIVALS
        invariant forall j | 0 <= j < i :: counts[j] == 0 && seconds[j] == 0
      {
        counts[i], seconds[i] := 0, 0;
      }
      log := [];
      EmptyRing(counts[..], seconds[..], Some(PER_SECOND));
    }

    /** A negative second would index before the ring. */
    method Observe(sec: int)
      requires Valid() && sec >= 0
      modifies this, counts, seconds
      ensures Valid() && Abs() == ArrivalSeen(old(Abs()), sec)
    {
      hide Ring, Clamp;
      if sec < last {
        started := sec;
        Clear();
      }
      last := sec;
      if started == 0 {
        started := sec;
      }
      ghost var cs, ss := counts[..], seconds[..];
      var i := sec % ARRIVALS;
      if seconds[i] != sec {
        seconds[i] := sec;
        counts[i] := 0;
      }
      if counts[i] < PER_SECOND {
        counts[i] := counts[i] + 1;
      }
      RingObserve(cs, ss, log, Some(PER_SECOND), sec, counts[i]);
      assert counts[..] == cs[i := counts[i]] && seconds[..] == ss[i := sec];
      log := log + [sec];
    }

    method Snapshot(sec: int) returns (total: int, ready: bool)
      requires Valid()
      ensures sec < last ==> total == 0 && !ready
      ensures sec >= last ==>
          total == Total(log, sec - 299, sec + 1, Some(PER_SECOND)) && ready == (started > 0 && sec - started >= 300)
      ensures 0 <= total <= ACCEPTED_ARRIVALS
    {
      hide Ring, Scanned, Total, SecondOf;
      if sec < last {
        return 0, false;
      }
      total := 0;
      ScanAll(log, sec, ARRIVALS, Some(PER_SECOND));
      TotalBounded(log, sec - 299, sec + 1, PER_SECOND);
      for i := 0 to ARRIVALS
        invariant total == Scanned(log, i, sec, ARRIVALS, Some(PER_SECOND))
      {
        ScanStep(counts[..], seconds[..], log, Some(PER_SECOND), i, sec);
        if seconds[i] > sec - 300 && seconds[i] <= sec {
          total := total + counts[i];
        }
      }
      ready := started > 0 && sec - started >= 300;
    }
  }

  // ---------------------------------------------------------------- every run on real clocks

  /** An operation of the error window at a second: an observation or a snapshot. */
  datatype Use = Use(sec: int, error: bool)

  function Errors(uses: seq<Use>): seq<int> {
    if uses == [] then [] else Errors(uses[..|uses| - 1]) + (if uses[|uses| - 1].error then [uses[|uses| - 1].sec]
        else [])
  }

  function RunErrors(created: int, uses: seq<Use>): Window {
    if uses == [] then Window(created, created, [])
    else
      var u := uses[|uses| - 1];
      var w := RunErrors(created, uses[..|uses| - 1]);
      if u.error then ErrorSeen(w, u.sec) else Advance(w, u.sec)
  }

  function Times(created: int, uses: seq<Use>): seq<int> {
    [created] + seq(|uses|, i requires 0 <= i < |uses| => uses[i].sec)
  }

  /** `j` is where the clock last went back, or the beginning. */
  predicate LastRollback(times: seq<int>, j: nat) {
    && j < |times| && (j > 0 ==> times[j] < times[j - 1])
    && forall i | j < i < |times| :: times[i - 1] <= times[i]
  }

  /** On positive clocks the window is the log since the last rollback, and nothing else ever cuts it. */
  lemma {:induction false} ErrorsSinceRollback(created: int, uses: seq<Use>, j: nat)
    requires created > 0 && (forall i | 0 <= i < |uses| :: uses[i].sec > 0) && LastRollback(Times(created, uses), j)
    ensures var w := RunErrors(created, uses); var times := Times(created, uses);
            w == Window(times[j], times[|uses|], Errors(uses[if j == 0 then 0 else j - 1..]))
    decreases |uses|
  {
    var n := |uses|;
    if n > 0 {
      var prior := uses[..n - 1];
      var k := if j == 0 then 0 else j - 1;
      assert Times(created, prior) == Times(created, uses)[..n];
      if j < n {
        ErrorsSinceRollback(created, prior, j);
        assert uses[k..][..n - 1 - k] == prior[k..];
      } else {
        var i := FindRollback(Times(created, prior));
        ErrorsSinceRollback(created, prior, i);
        assert uses[k..] == [uses[n - 1]] && uses[k..][..0] == [];
      }
    }
  }

  /**
    A snapshot taken after any uses counts exactly the errors of the last sixty seconds seen since the last rollback,
    and is complete exactly when that rollback (or the creation) is at least sixty seconds old.
  */
  lemma ErrorCountTheorem(created: int, uses: seq<Use>, sec: int, j: nat)
    requires created > 0 && sec > 0 && forall i | 0 <= i < |uses| :: uses[i].sec > 0
    requires LastRollback(Times(created, uses + [Use(sec, false)]), j)
    ensures var all := uses + [Use(sec, false)]; var w := RunErrors(created, all);
            && Total(w.log, sec - 59, sec + 1, None) ==
                |Within(Errors(all[if j == 0 then 0 else j - 1..]), sec - 59, sec + 1)|
            && w.started == Times(created, all)[j]
  {
    var all := uses + [Use(sec, false)];
    ErrorsSinceRollback(created, all, j);
    TotalCounts(RunErrors(created, all).log, sec - 59, sec + 1);
  }

  lemma {:induction false} FindRollback(times: seq<int>) returns (j: nat)
    requires times != []
    ensures LastRollback(times, j)
    decreases |times|
  {
    var n := |times|;
    if n == 1 {
      j := 0;
    } else if times[n - 1] < times[n - 2] {
      j := n - 1;
    } else {
      j := FindRollback(times[..n - 1]);
    }
  }

  function RunArrivals(created: int, secs: seq<int>): Window {
    if secs == [] then Window(created, 0, [])
        else ArrivalSeen(RunArrivals(created, secs[..|secs| - 1]), secs[|secs| - 1])
  }

  lemma {:induction false} ArrivalsSinceRollback(created: int, secs: seq<int>, j: nat)
    requires created > 0 && (forall i | 0 <= i < |secs| :: secs[i] > 0) && LastRollback(secs, j)
    ensures RunArrivals(created, secs) == Window(if j == 0 then created else secs[j], secs[|secs| - 1], secs[j..])
    decreases |secs|
  {
    hide ArrivalSeen;
    var n := |secs|;
    var prior := secs[..n - 1];
    if n == 1 {
      FirstArrival(created, secs[0]);
      assert prior == [] && secs[j..] == [secs[0]];
    } else {
      var i := j;
      if j == n - 1 {
        i := FindRollback(prior);
      }
      ArrivalsSinceRollback(created, prior, i);
      ArrivalStep(RunArrivals(created, prior), secs, j, created, i);
    }
  }

  lemma FirstArrival(created: int, sec: int)
    requires created > 0 && sec > 0
    ensures ArrivalSeen(Window(created, 0, []), sec) == Window(created, sec, [sec])
  {
  }

  lemma ArrivalStep(w: Window, secs: seq<int>, j: nat, created: int, i: nat)
    requires |secs| > 1 && LastRollback(secs, j) && created > 0 && secs[j] > 0 && i < |secs| - 1
        && (j < |secs| - 1 ==> i == j)
    requires secs[i] > 0 && w == Window(if i == 0 then created else secs[i], secs[|secs| - 2], secs[..|secs| - 1][i..])
    ensures ArrivalSeen(w, secs[|secs| - 1]) == Window(if j == 0 then created else secs[j], secs[|secs| - 1], secs[j..])
  {
    var n := |secs|;
    if j < n - 1 {
      assert secs[..n - 1][j..] + [secs[n - 1]] == secs[j..];
    }
  }
}
