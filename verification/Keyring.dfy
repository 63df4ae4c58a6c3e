/**
  Role-scoped deployment keys (internal/keyring).

  A key pair is named by one number: the public half is the number itself and holding the private half
  is `Some` of it. The SHA-256 digest of a set is modelled as the data it covers, so it is injective.
*/
module Keyring {
  import opened Base

  datatype Role = Control | Gateway | Coordinator

  /** The roles in the order their files are written. */
  const ROLES: seq<Role> := [Control, Gateway, Coordinator]

  /** Who a set is validated or scoped for; Public is the empty role used by Digest. */
  datatype Scope = Owner | For(role: Role) | Public

  datatype Key = Key(
    id: string, since: int, configPublic: nat, admissionPublic: nat,
    configPrivate: Option<nat>, admissionPrivate: Option<nat>, replay: Option<nat>, returnKey: Option<nat>)

  /** Unset stands for any other text, in particular the empty phase before the first stage. */
  datatype Phase = Unset | Stable | Staged | Active

  datatype Set = Set(generation: int, phase: Phase, current: Key, previous: Option<Key>, next: Option<Key>)

  /** 24 hours and 30 seconds, in milliseconds. */
  const OVERLAP: int := 86430000

  function Keys(s: Set): (ks: seq<Key>)
    ensures s.current in ks
    ensures s.previous.Some? ==> s.previous.value in ks
    ensures s.next.Some? ==> s.next.value in ks
  {
    [s.current]
    + (if s.previous.Some? then [s.previous.value] else [])
    + (if s.next.Some? then [s.next.value] else [])
  }

  predicate HexChar(c: char) {
    '0' <= c <= '9' || 'a' <= c <= 'f'
  }

  predicate ValidId(id: string) {
    id == "v1" || (|id| == 32 && forall i | 0 <= i < |id| :: HexChar(id[i]))
  }

  predicate PairHeld(secret: Option<nat>, public: nat, wanted: bool) {
    if wanted then secret == Some(public) else secret == None
  }

  predicate SecretHeld(secret: Option<nat>, wanted: bool) {
    if wanted then secret.Some? && secret.value != 0 else secret == None
  }

  predicate KeyValid(k: Key, scope: Scope) {
    && ValidId(k.id) && 0 <= k.since < COUNTER_CEILING
    && PairHeld(k.configPrivate, k.configPublic, scope == Owner || scope == For(Control))
    && PairHeld(k.admissionPrivate, k.admissionPublic, scope == Owner || scope == For(Coordinator))
    && SecretHeld(k.replay, scope == Owner || scope == For(Coordinator))
    && SecretHeld(k.returnKey, scope == Owner || scope == For(Gateway))
  }

  predicate DistinctIds(ks: seq<Key>) {
    forall i, j | 0 <= i < j < |ks| :: ks[i].id != ks[j].id
  }

  predicate Validate(s: Set, scope: Scope) {
    && 1 <= s.generation < COUNTER_CEILING && s.phase != Unset
    && (s.phase == Staged <==> s.next.Some?) && (s.phase == Active <==> s.previous.Some?)
    && DistinctIds(Keys(s)) && (forall i | 0 <= i < |Keys(s)| :: KeyValid(Keys(s)[i], scope))
    && (s.previous.Some? ==> s.previous.value.since < s.current.since && s.current.since != 0)
    && scope != Public
  }

  function Sanitize(k: Key, scope: Scope): Key {
    k.(configPrivate := if scope == For(Control) then k.configPrivate else None,
       admissionPrivate := if scope == For(Coordinator) then k.admissionPrivate else None,
       replay := if scope == For(Coordinator) then k.replay else None,
       returnKey := if scope == For(Gateway) then k.returnKey else None)
  }

  function SanitizeOption(k: Option<Key>, scope: Scope): Option<Key> {
    if k.Some? then Some(Sanitize(k.value, scope)) else None
  }

  function ForRole(s: Set, scope: Scope): (r: Set)
    ensures |Keys(r)| == |Keys(s)| && forall i | 0 <= i < |Keys(s)| :: Keys(r)[i] == Sanitize(Keys(s)[i], scope)
  {
    s.(current := Sanitize(s.current, scope),
       previous := SanitizeOption(s.previous, scope),
       next := SanitizeOption(s.next, scope))
  }

  function Digest(s: Set): Set {
    ForRole(s, Public)
  }

  function ConfigKid(k: Key): string {
    "config-" + k.id
  }

  function TrustOf(ks: seq<Key>): map<string, nat>
  {
    if ks == [] then map[] else TrustOf(ks[..|ks| - 1])[ConfigKid(ks[|ks| - 1]) := ks[|ks| - 1].configPublic]
  }

  function ConfigTrust(s: Set): map<string, nat> {
    TrustOf(Keys(s))
  }

  function AdmissionAt(s: Set, promoted: int): Key {
    if s.previous.Some? && promoted < s.current.since then s.previous.value else s.current
  }

  lemma KidInjective(a: Key, b: Key)
    requires ConfigKid(a) == ConfigKid(b)
    ensures a.id == b.id
  {
    assert ConfigKid(a)[7..] == a.id && ConfigKid(b)[7..] == b.id;
  }

  /** The trust map holds exactly the listed keys, each under its own kid. */
  lemma {:induction false} TrustExact(ks: seq<Key>)
    requires DistinctIds(ks)
    ensures forall i | 0 <= i < |ks| ::
        ConfigKid(ks[i]) in TrustOf(ks) && TrustOf(ks)[ConfigKid(ks[i])] == ks[i].configPublic
    ensures forall kid | kid in TrustOf(ks) :: exists i | 0 <= i < |ks| :: ConfigKid(ks[i]) == kid
  {
    if ks != [] {
      var init, last := ks[..|ks| - 1], ks[|ks| - 1];
      TrustExact(init);
      forall i | 0 <= i < |init|
        ensures ConfigKid(ks[i]) != ConfigKid(last)
      {
        if ConfigKid(ks[i]) == ConfigKid(last) {
          KidInjective(ks[i], last);
        }
      }
      forall i | 0 <= i < |ks|
        ensures ConfigKid(ks[i]) in TrustOf(ks) && TrustOf(ks)[ConfigKid(ks[i])] == ks[i].configPublic
      {
        assert i < |init| ==> init[i] == ks[i];
      }
      forall kid | kid in TrustOf(ks)
        ensures exists i | 0 <= i < |ks| :: ConfigKid(ks[i]) == kid
      {
        if kid in TrustOf(init) {
          var i :| 0 <= i < |init| && ConfigKid(init[i]) == kid;
          assert ConfigKid(ks[i]) == kid;
        } else {
          assert ConfigKid(ks[|ks| - 1]) == kid;
        }
      }
    }
  }

  /** Distribution is least-privilege and total: an owner-valid set scoped to a role is valid for that role,
      and every role reports the owner's digest. */
  lemma ScopedSetsAgree(s: Set, role: Role)
    requires Validate(s, Owner)
    ensures Validate(ForRole(s, For(role)), For(role))
    ensures Digest(ForRole(s, For(role))) == Digest(s)
    ensures ConfigTrust(ForRole(s, For(role))) == ConfigTrust(s)
  {
    hide Validate, Digest, TrustOf, Sanitize;
    var r := ForRole(s, For(role));
    ScopedIsValid(s, role);
    ScopedDigest(s, role);
    TrustSanitized(Keys(s), Keys(r), For(role));
  }

  lemma ScopedIsValid(s: Set, role: Role)
    requires Validate(s, Owner)
    ensures Validate(ForRole(s, For(role)), For(role))
  {
  }

  lemma ScopedDigest(s: Set, role: Role)
    ensures Digest(ForRole(s, For(role))) == Digest(s)
  {
  }

  lemma {:induction false} TrustSanitized(a: seq<Key>, b: seq<Key>, scope: Scope)
    requires |a| == |b| && forall i | 0 <= i < |a| :: b[i] == Sanitize(a[i], scope)
    ensures TrustOf(a) == TrustOf(b)
  {
    if a != [] {
      TrustSanitized(a[..|a| - 1], b[..|b| - 1], scope);
    }
  }
}
