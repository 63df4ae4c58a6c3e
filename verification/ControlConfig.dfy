/**
  The operator configuration and its routing rules (internal/control/config.go), with the Gateway's
  map-ordered room search (internal/runtimeplane/node.go).

  Names, hostnames, URLs, themes and the other free-text fields of a room are one opaque value with the
  verdict of its own validators; routing never looks inside them.
*/
module ControlConfig {
  import opened Base

  datatype Profile = Standard10k | HighScale100k | OtherProfile

  datatype Limits = Limits(leases: int, rate: int, ttl: int)

  datatype QueuePolicy = QueuePolicy(fifo: bool, idleTtl: int, maxTtl: int, readyTtl: int)

  datatype Rest = Rest(text: string, valid: bool)

  datatype Room = Room(
    id: string, publicId: string, hostname: string, origin: string,
    protect: seq<string>, exclude: seq<string>, policy: QueuePolicy, limits: Limits, active: bool, rest: Rest)

  datatype Config = Config(schemaVersion: int, revision: int, profile: Profile, regionId: string, rooms: seq<Room>)

  datatype ConfigError = NoError | InvalidConfig | RouteConflict

  datatype Match = Invalid | Reserved | Excluded(roomId: string) | Protected(roomId: string) | Unprotected

  /** The parts of a parsed URL that matching reads. */
  datatype Url = Url(path: string, rawPath: string, opaquePart: string)

  // ---------------------------------------------------------------- paths

  predicate SegmentAt(p: string, k: nat, segment: string) {
    k <= |p| && segment <= p[k..] && (k + |segment| == |p| || p[k + |segment|] == '/')
  }

  predicate PathChar(c: char) {
    ' ' < c && c as int < 127 && c !in "%\\?#;"
  }

  predicate ValidPath(p: string) {
    && 0 < |p| <= 2048 && p[0] == '/'
    && (forall i | 0 <= i < |p| :: PathChar(p[i]))
    && (forall i | 0 <= i < |p| - 1 :: !(p[i] == '/' && p[i + 1] == '/'))
    && (forall i | 0 <= i < |p| && p[i] == '/' :: !SegmentAt(p, i + 1, ".") && !SegmentAt(p, i + 1, ".."))
  }

  function TrimSlash(p: string): string {
    if |p| > 0 && p[|p| - 1] == '/' then p[..|p| - 1] else p
  }

  predicate PrefixMatches(prefix: string, path: string) {
    var q := TrimSlash(prefix);
    q == "" || path == q || q + "/" <= path
  }

  predicate ReservedPath(p: string) {
    PrefixMatches("/_wr", p) || PrefixMatches("/api/admin", p)
  }

  /** The segments between slashes. */
  function Segments(p: string): (r: seq<string>)
    ensures |r| > 0
  {
    if p == "" then [""]
    else
      var rest := Segments(p[1..]);
      if p[0] == '/' then [""] + rest else [[p[0]] + rest[0]] + rest[1..]
  }

  /** A prefix covers a path exactly when the path's first segments are the prefix's, whole segment by segment. */
  lemma PrefixIsBySegments(prefix: string, path: string)
    requires path != "" && path[0] == '/'
    ensures PrefixMatches(prefix, path) <==> Segments(TrimSlash(prefix)) <= Segments(path)
  {
    SegmentPrefix(TrimSlash(prefix), path);
  }

  lemma {:induction false} SegmentPrefix(q: string, path: string)
    ensures Segments(q) <= Segments(path) <==> path == q || q + "/" <= path
  {
    FirstSegment(q);
    FirstSegment(path);
    if q != "" && path != "" {
      SegmentPrefix(q[1..], path[1..]);
      assert q == [q[0]] + q[1..] && path == [path[0]] + path[1..];
      if q[0] == path[0] {
        assert q + "/" <= path <==> q[1..] + "/" <= path[1..] by {
          assert q + "/" == [q[0]] + (q[1..] + "/");
        }
        var a, b := Segments(q[1..]), Segments(path[1..]);
        if q[0] == '/' {
          assert Segments(q) <= Segments(path) <==> a <= b by {
            assert Segments(q)[1..] == a && Segments(path)[1..] == b;
          }
        } else {
          SameHead(q[0], a, b);
        }
      } else {
        assert Segments(q)[0] != Segments(path)[0];
      }
    }
  }

  lemma FirstSegment(p: string)
    ensures Segments(p)[0] == "" <==> p == "" || p[0] == '/'
    ensures p != "" && p[0] != '/' ==> Segments(p)[0] != "" && Segments(p)[0][0] == p[0]
  {
  }

  lemma SameHead(x: char, a: seq<string>, b: seq<string>)
    requires |a| > 0 && |b| > 0
    ensures [[x] + a[0]] + a[1..] <= [[x] + b[0]] + b[1..] <==> a <= b
  {
    var m, n := [[x] + a[0]] + a[1..], [[x] + b[0]] + b[1..];
    assert forall k | 1 <= k < |a| :: m[k] == a[k];
    assert forall k | 1 <= k < |b| :: n[k] == b[k];
    assert m[0][1..] == a[0] && n[0][1..] == b[0];
    if m <= n {
      assert forall k | 0 <= k < |m| :: m[k] == n[k];
      assert forall k | 0 <= k < |a| :: a[k] == b[k];
    }
    if a <= b {
      assert forall k | 0 <= k < |a| :: a[k] == b[k];
      assert forall k | 0 <= k < |m| :: m[k] == n[k];
    }
  }

  /** Two prefixes that cover one path cover each other, which is what Validate tests for. */
  lemma CommonPathConflicts(a: string, b: string, path: string)
    requires PrefixMatches(a, path) && PrefixMatches(b, path)
    ensures PrefixMatches(a, b) || PrefixMatches(b, a)
  {
    if |TrimSlash(a)| <= |TrimSlash(b)| {
      ShorterCovers(a, b, path);
    } else {
      ShorterCovers(b, a, path);
    }
  }

  lemma ShorterCovers(a: string, b: string, path: string)
    requires PrefixMatches(a, path) && PrefixMatches(b, path) && |TrimSlash(a)| <= |TrimSlash(b)|
    ensures PrefixMatches(a, b)
  {
    var p, q := TrimSlash(a), TrimSlash(b);
    if p != "" {
      assert q <= path && p <= path;
      assert q <= b;
      if |p| == |q| {
        assert p == path[..|p|] == q;
        assert b == q || b == q + "/";
      } else {
        assert p + "/" == path[..|p| + 1];
        assert p + "/" == q[..|p| + 1] by {
          assert q == path[..|q|];
        }
        assert p + "/" <= b;
      }
    }
  }

  // ---------------------------------------------------------------- validation

  predicate LimitsValid(l: Limits, profile: Profile) {
    && profile != OtherProfile
    && 1 <= l.leases <= (if profile == HighScale100k then 100000 else 10000)
    && 1 <= l.rate <= (if profile == HighScale100k then 60000 else 6000)
    && 60 <= l.ttl <= 3600
  }

  predicate PrefixListValid(ps: seq<string>) {
    && |ps| <= 32
    && (forall i | 0 <= i < |ps| :: ValidPath(ps[i]) && !ReservedPath(ps[i]))
    && (forall i, j | 0 <= i < j < |ps| :: TrimSlash(ps[i]) != TrimSlash(ps[j]))
  }

  predicate PolicyValid(p: QueuePolicy) {
    && p.fifo && 60 <= p.idleTtl <= 600 && 600 <= p.maxTtl <= 86400 && p.idleTtl <= p.maxTtl && 1 <= p.readyTtl <= 120
  }

  predicate RoomValid(r: Room, profile: Profile) {
    && r.rest.valid && |r.protect| > 0 && PrefixListValid(r.protect) && PrefixListValid(r.exclude)
    && PolicyValid(r.policy) && LimitsValid(r.limits, profile)
  }

  predicate HeaderValid(c: Config) {
    c.schemaVersion == 1 && 0 <= c.revision < COUNTER_CEILING && |c.rooms| <= 100 && c.profile != OtherProfile
  }

  predicate Overlap(a: Room, b: Room) {
    && a.active && b.active && a.hostname == b.hostname
    && exists i, j | 0 <= i < |a.protect| && 0 <= j < |b.protect| ::
         PrefixMatches(a.protect[i], b.protect[j]) || PrefixMatches(b.protect[j], a.protect[i])
  }

  predicate DistinctRooms(rooms: seq<Room>) {
    forall i, j | 0 <= i < j < |rooms| :: rooms[i].id != rooms[j].id && rooms[i].publicId != rooms[j].publicId
  }

  predicate ConfigValid(c: Config) {
    && HeaderValid(c) && DistinctRooms(c.rooms)
    && (forall i | 0 <= i < |c.rooms| :: RoomValid(c.rooms[i], c.profile))
    && (forall i, j | 0 <= i < j < |c.rooms| :: !Overlap(c.rooms[j], c.rooms[i]))
  }

  /** The two inner loops: does some protected prefix of one active room cover one of the other? */
  method PrefixConflict(r: Room, other: Room) returns (found: bool)
    requires r.active
    ensures found == Overlap(r, other)
  {
    hide PrefixMatches;
    if !other.active || other.hostname != r.hostname {
      return false;
    }
    for a := 0 to |r.protect|
      invariant forall x, y | 0 <= x < a && 0 <= y < |other.protect| ::
          !PrefixMatches(r.protect[x], other.protect[y]) && !PrefixMatches(other.protect[y], r.protect[x])
    {
      for b := 0 to |other.protect|
        invariant forall y | 0 <= y < b ::
            !PrefixMatches(r.protect[a], other.protect[y]) && !PrefixMatches(other.protect[y], r.protect[a])
      {
        if PrefixMatches(r.protect[a], other.protect[b]) || PrefixMatches(other.protect[b], r.protect[a]) {
          return true;
        }
      }
    }
    return false;
  }

  /** The nested loops of Validate decide exactly the quantified rules, and a conflict is a real overlap. */
  method Validate(c: Config) returns (err: ConfigError)
    ensures err == NoError <==> ConfigValid(c)
    ensures err == RouteConflict ==> exists i, j | 0 <= i < j < |c.rooms| :: Overlap(c.rooms[j], c.rooms[i])
    ensures err == InvalidConfig ==>
              !HeaderValid(c) || !DistinctRooms(c.rooms) || exists i | 0 <= i < |c.rooms| ::
                  !RoomValid(c.rooms[i], c.profile)
  {
    hide RoomValid, Overlap;
    if !HeaderValid(c) {
      return InvalidConfig;
    }
    var ids: set<string>, publicIds: set<string> := {}, {};
    for i := 0 to |c.rooms|
      invariant ids == set k | 0 <= k < i :: c.rooms[k].id
      invariant publicIds == set k | 0 <= k < i :: c.rooms[k].publicId
      invariant DistinctRooms(c.rooms[..i])
      invariant forall k | 0 <= k < i :: RoomValid(c.rooms[k], c.profile)
      invariant forall k, m | 0 <= k < m < i :: !Overlap(c.rooms[m], c.rooms[k])
    {
      var r := c.rooms[i];
      if !RoomValid(r, c.profile) || r.id in ids || r.publicId in publicIds {
        return InvalidConfig;
      }
      ids, publicIds := ids + {r.id}, publicIds + {r.publicId};
      if r.active {
        for k := 0 to i
          invariant forall m | 0 <= m < k :: !Overlap(r, c.rooms[m])
        {
          var found := PrefixConflict(r, c.rooms[k]);
          if found {
            return RouteConflict;
          }
        }
      } else {
        InactiveNeverOverlaps(r);
      }
      assert c.rooms[..i + 1] == c.rooms[..i] + [r];
    }
    assert c.rooms[..|c.rooms|] == c.rooms;
    return NoError;
  }

  lemma InactiveNeverOverlaps(r: Room)
    requires !r.active
    ensures forall other :: !Overlap(r, other)
  {
  }

  // ---------------------------------------------------------------- matching

  predicate Covers(prefixes: seq<string>, path: string) {
    exists i | 0 <= i < |prefixes| :: PrefixMatches(prefixes[i], path)
  }

  predicate Excludes(r: Room, host: string, path: string) {
    r.active && r.hostname == host && Covers(r.exclude, path)
  }

  predicate Protects(r: Room, host: string, path: string) {
    r.active && r.hostname == host && Covers(r.protect, path)
  }

  function FirstExcluding(rooms: seq<Room>, host: string, path: string): Option<string> {
    if rooms == [] then None
    else if Excludes(rooms[0], host, path) then Some(rooms[0].id)
    else FirstExcluding(rooms[1..], host, path)
  }

  function FirstProtecting(rooms: seq<Room>, host: string, path: string): Option<string> {
    if rooms == [] then None
    else if Protects(rooms[0], host, path) then Some(rooms[0].id)
    else FirstProtecting(rooms[1..], host, path)
  }

  function MatchUrl(c: Config, host: string, hostValid: bool, u: Url): Match {
    if !hostValid || !ValidPath(u.path) || u.rawPath != "" || u.opaquePart != "" then Invalid
    else if ReservedPath(u.path) then Reserved
    else
      var x := FirstExcluding(c.rooms, host, u.path);
      if x.Some? then Excluded(x.value)
      else
        var p := FirstProtecting(c.rooms, host, u.path);
        if p.Some? then Protected(p.value) else Unprotected
  }

  lemma {:induction false} FirstExcludingFound(rooms: seq<Room>, host: string, path: string)
    ensures
      var f := FirstExcluding(rooms, host, path);
      && (f.Some? <==> exists r | r in rooms :: Excludes(r, host, path))
      && (f.Some? ==> exists r | r in rooms :: r.id == f.value && Excludes(r, host, path))
  {
    if rooms != [] {
      FirstExcludingFound(rooms[1..], host, path);
      assert rooms == [rooms[0]] + rooms[1..];
    }
  }

  lemma {:induction false} FirstProtectingFound(rooms: seq<Room>, host: string, path: string)
    ensures
      var f := FirstProtecting(rooms, host, path);
      && (f.Some? <==> exists r | r in rooms :: Protects(r, host, path))
      && (f.Some? ==> exists r | r in rooms :: r.id == f.value && Protects(r, host, path))
  {
    if rooms != [] {
      FirstProtectingFound(rooms[1..], host, path);
      assert rooms == [rooms[0]] + rooms[1..];
    }
  }

  /** In an accepted configuration at most one active room on a host protects a path. */
  lemma AtMostOneProtects(c: Config, host: string, path: string, a: Room, b: Room)
    requires ConfigValid(c) && a in c.rooms && b in c.rooms && Protects(a, host, path) && Protects(b, host, path)
    ensures a == b
  {
    hide Overlap, Protects, HeaderValid, RoomValid, DistinctRooms;
    var i, j :| 0 <= i < |c.rooms| && 0 <= j < |c.rooms| && a == c.rooms[i] && b == c.rooms[j];
    ProtectorsOverlap(host, path, a, b);
    ProtectorsOverlap(host, path, b, a);
  }

  lemma ProtectorsOverlap(host: string, path: string, a: Room, b: Room)
    requires Protects(a, host, path) && Protects(b, host, path)
    ensures Overlap(a, b)
  {
    hide PrefixMatches;
    var x :| 0 <= x < |a.protect| && PrefixMatches(a.protect[x], path);
    var y :| 0 <= y < |b.protect| && PrefixMatches(b.protect[y], path);
    CommonPathConflicts(a.protect[x], b.protect[y], path);
  }

  predicate SameKind(a: Match, b: Match) {
    && (a.Invalid? <==> b.Invalid?) && (a.Reserved? <==> b.Reserved?) && (a.Excluded? <==> b.Excluded?)
    && (a.Protected? <==> b.Protected?)
  }

  /** Routing is order-free: permuting the rooms of an accepted configuration changes neither the decision nor
      the protecting room. */
  lemma MatchIgnoresOrder(c: Config, rooms: seq<Room>, host: string, hostValid: bool, u: Url)
    requires ConfigValid(c) && multiset(rooms) == multiset(c.rooms)
    ensures
      var m, n := MatchUrl(c, host, hostValid, u), MatchUrl(c.(rooms := rooms), host, hostValid, u);
      SameKind(m, n) && (m.Protected? ==> m == n)
  {
    hide Covers, ConfigValid, ValidPath, ReservedPath, FirstExcluding, FirstProtecting;
    assert forall r :: r in rooms <==> r in multiset(rooms);
    assert forall r :: r in c.rooms <==> r in multiset(c.rooms);
    FirstExcludingFound(c.rooms, host, u.path);
    FirstExcludingFound(rooms, host, u.path);
    FirstProtectingFound(c.rooms, host, u.path);
    FirstProtectingFound(rooms, host, u.path);
    var m, n := FirstProtecting(c.rooms, host, u.path), FirstProtecting(rooms, host, u.path);
    if m.Some? && n.Some? {
      var a :| a in c.rooms && a.id == m.value && Protects(a, host, u.path);
      var b :| b in rooms && b.id == n.value && Protects(b, host, u.path);
      AtMostOneProtects(c, host, u.path, a, b);
    }
  }

  /** A URL the matcher decides on: a clean path that was sent unencoded on a well-formed host. */
  predicate Canonical(hostValid: bool, u: Url) {
    hostValid && ValidPath(u.path) && u.rawPath == "" && u.opaquePart == ""
  }

  /**
    What a decision means, for every accepted configuration: an unclean URL is invalid; the internal namespaces come
    before every room; an exclusion of any active room on the host wins over every protection; otherwise the request
    belongs to a room exactly when that room protects its path.
  */
  lemma MatchMeans(c: Config, host: string, hostValid: bool, u: Url)
    requires ConfigValid(c)
    ensures
      var m := MatchUrl(c, host, hostValid, u);
      var open := Canonical(hostValid, u) && !ReservedPath(u.path);
      var excluded := exists r | r in c.rooms :: Excludes(r, host, u.path);
      && (m == Invalid <==> !Canonical(hostValid, u))
      && (m == Reserved <==> Canonical(hostValid, u) && ReservedPath(u.path))
      && (m.Excluded? <==> open && excluded)
      && (m.Protected? <==> open && !excluded && exists r | r in c.rooms :: Protects(r, host, u.path))
      && (forall r | r in c.rooms && m == Excluded(r.id) :: Excludes(r, host, u.path))
      && (forall r | r in c.rooms :: m == Protected(r.id) <==> open && !excluded && Protects(r, host, u.path))
  {
    hide Covers, ValidPath, ReservedPath, FirstExcluding, FirstProtecting, RoomValid, HeaderValid, Overlap;
    FirstExcludingFound(c.rooms, host, u.path);
    FirstProtectingFound(c.rooms, host, u.path);
    var m := MatchUrl(c, host, hostValid, u);
    forall r, q | r in c.rooms && q in c.rooms && r.id == q.id
      ensures r == q
    {
      var i, j :| 0 <= i < |c.rooms| && 0 <= j < |c.rooms| && r == c.rooms[i] && q == c.rooms[j];
    }
    forall r, q | r in c.rooms && q in c.rooms && Protects(r, host, u.path) && Protects(q, host, u.path)
      ensures r == q
    {
      AtMostOneProtects(c, host, u.path, r, q);
    }
  }

  // ---------------------------------------------------------------- the Gateway's map iteration

  /** targetFor: the target routes to exactly this room. */
  predicate TargetFor(c: Config, r: Room, u: Url) {
    MatchUrl(c, r.hostname, true, u) == Protected(r.id)
  }

  /** The ticket endpoint scans a Go map, whose order is arbitrary: the result is the one matching room. */
  method SelectTicketRoom(c: Config, rooms: set<Room>, host: string, u: Url) returns (selected: Option<Room>)
    requires DistinctRooms(c.rooms) && forall r | r in rooms :: r in c.rooms
    ensures selected.None? ==> forall r | r in rooms :: !(r.hostname == host && TargetFor(c, r, u))
    ensures selected.Some? ==>
              forall r | r in rooms :: (r.hostname == host && TargetFor(c, r, u)) <==> r == selected.value
  {
    selected := None;
    var left := rooms;
    while left != {}
      invariant left <= rooms
      invariant forall r | r in rooms && r !in left :: !(r.hostname == host && TargetFor(c, r, u))
      decreases |left|
    {
      var room :| room in left;
      if room.hostname == host && TargetFor(c, room, u) {
        forall r | r in rooms && r.hostname == host && TargetFor(c, r, u)
          ensures r == room
        {
          var i, j :| 0 <= i < |c.rooms| && 0 <= j < |c.rooms| && c.rooms[i] == r && c.rooms[j] == room;
        }
        return Some(room);
      }
      left := left - {room};
    }
  }

  /** Unprotected traffic: the shared origin of the host's rooms, or nothing when they disagree, in any order. */
  method SharedOrigin(rooms: set<Room>, host: string) returns (origin: Option<string>)
    requires forall r | r in rooms :: r.origin != ""
    ensures origin.Some? <==>
              (exists r | r in rooms :: r.hostname == host)
              && (forall r, q | r in rooms && q in rooms && r.hostname == q.hostname == host :: r.origin == q.origin)
    ensures origin.Some? ==> forall r | r in rooms && r.hostname == host :: r.origin == origin.value
  {
    origin := None;
    var left := rooms;
    while left != {}
      invariant left <= rooms
      invariant origin.None? ==> forall r | r in rooms && r !in left :: r.hostname != host
      invariant origin.Some? ==> exists r | r in rooms && r !in left :: r.hostname == host && r.origin == origin.value
      invariant origin.Some? ==> forall r | r in rooms && r !in left && r.hostname == host :: r.origin == origin.value
      decreases |left|
    {
      var room :| room in left;
      left := left - {room};
      if room.hostname == host {
        if origin.Some? && origin.value != room.origin {
          return None;
        }
        origin := Some(room.origin);
      }
    }
  }
}
