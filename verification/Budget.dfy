/**
  The delivery budget (internal/control/runtime.go): a draft is accepted only if its largest possible signed delivery
  fits the 64 KiB ceiling of the wire and of the snapshot store (internal/configtrust/snapshot.go).

  Documents are JSON text. The fields of a configuration after its revision are one opaque text, `tail`.
*/
module Budget {
  import opened Base
  import opened ControlConfig
  import opened ControlRuntime
  import Decimal

  const MAX_BYTES: nat := 65536

  const MAX_ISSUED: int := 253402214399

  // ---------------------------------------------------------------- JSON text

  function Num(n: int): string {
    if n < 0 then "-" + Decimal.Text(-n) else Decimal.Text(n)
  }

  /** Identifiers, modes and marks need no escaping. */
  function Quote(s: string): string { "\"" + s + "\"" }

  function Field(name: string, value: string): string { Quote(name) + ":" + value }

  function Join(parts: seq<string>): string {
    if parts == [] then "" else if |parts| == 1 then parts[0] else parts[0] + "," + Join(parts[1..])
  }

  function Object(fields: seq<string>): string { "{" + Join(fields) + "}" }

  function ModeText(m: Mode): string {
    match m
    case Off => "OFF"
    case Auto => "AUTO"
    case Hold => "HOLD"
    case Draining => "DRAINING"
    case RecoveryHold => "RECOVERY_HOLD"
  }

  function MarkText(m: EventMark): string {
    match m
    case NoEvent => "none"
    case EventScheduled => "scheduled"
    case EventRunning => "running"
    case EventPaused => "paused_by_override"
  }

  function LimitFields(l: Limits): seq<string> {
    [Field("maxActiveAdmissionLeases", Num(l.leases)), Field("admissionsPerMinute", Num(l.rate)),
     Field("admissionTtlSeconds", Num(l.ttl))]
  }

  /** The recovery boundary is omitted when zero. */
  function RuntimeFields(r: Runtime): seq<string> {
    [Field("revision", Num(r.revision)), Field("mode", Quote(ModeText(r.mode))),
     Field("limits", Object(LimitFields(r.limits))),
     Field("epoch", Num(r.epoch)), Field("eventState", Quote(MarkText(r.eventState)))]
    + (if r.recoveryUntil == 0 then [] else [Field("recoveryUntil", Num(r.recoveryUntil))])
  }

  function RoomText(r: RoomRuntime): string {
    Object([Field("roomId", Quote(r.roomId)), Field("runtime", Object(RuntimeFields(r.runtime)))])
  }

  function RoomTexts(rs: seq<RoomRuntime>): seq<string> {
    seq(|rs|, i requires 0 <= i < |rs| => RoomText(rs[i]))
  }

  function ConfigText(c: Config, tail: string): string {
    Object([Field("schemaVersion", Num(c.schemaVersion)), Field("revision", Num(c.revision)), tail])
  }

  function DeliveryText(d: Delivery, tail: string): string {
    Object([Field("config", ConfigText(d.config, tail)), Field("runtimes", "[" + Join(RoomTexts(d.runtimes)) + "]")])
  }

  /** The envelope fields beside the payload. */
  datatype Stamp = Stamp(generation: int, issuedAt: int, expiresAt: int, kid: string, installation: string,
      signature: string)

  function SnapshotFields(payload: string, revision: int, p: Stamp): seq<string> {
    [Field("schemaVersion", Num(1)), Field("installation", Quote(p.installation)),
     Field("generation", Num(p.generation)),
     Field("revision", Num(revision)), Field("issuedAt", Num(p.issuedAt)), Field("expiresAt", Num(p.expiresAt)),
     Field("kid", Quote(p.kid)), Field("payload", payload)]
  }

  function EnvelopeText(d: Delivery, tail: string, p: Stamp): string {
    var snapshot := Object(SnapshotFields(DeliveryText(d, tail), d.config.revision, p));
    Object([Field("snapshot", snapshot), Field("signature", Quote(p.signature))])
  }

  predicate Fits(d: Delivery, tail: string, p: Stamp) {
    |DeliveryText(d, tail)| <= MAX_BYTES && |EnvelopeText(d, tail, p)| <= MAX_BYTES
  }

  // ---------------------------------------------------------------- the reservation

  function Repeat(c: char, n: nat): (s: string)
    ensures |s| == n
  {
    seq(n, i => c)
  }

  function LargestRuntime(): Runtime {
    Runtime(9007199254740989, RecoveryHold, Limits(100000, 60000, 3600), 9007199254740989, EventPaused,
        9007199254740989)
  }

  function LargestDelivery(c: Config): Delivery {
    Delivery(c.(revision := 9007199254740989),
        seq(|c.rooms|, i requires 0 <= i < |c.rooms| => RoomRuntime(c.rooms[i].id, LargestRuntime())))
  }

  function LargestStamp(): Stamp {
    Stamp(9007199254740991, 253402127999, 253402214399, Repeat('k', 80), Repeat('i', 80), Repeat('s', 86))
  }

  predicate FitsDeliveryBudget(c: Config, tail: string) {
    Fits(LargestDelivery(c), tail, LargestStamp())
  }

  /** A later publication of the draft: any revision, any valid runtimes, any structurally valid stamp. */
  predicate Publishable(c: Config, d: Delivery, p: Stamp) {
    && 1 <= d.config.revision < COUNTER_CEILING && d.config == c.(revision := d.config.revision) && Aligned(d)
    && 0 < p.generation <= MAX_SAFE_INTEGER && 0 < p.issuedAt <= MAX_ISSUED
    && p.issuedAt < p.expiresAt <= p.issuedAt + DAY_SECONDS
    && 1 <= |p.kid| <= 80 && 1 <= |p.installation| <= 80 && |p.signature| == 86
  }

  // ---------------------------------------------------------------- text length is monotone

  predicate NoLonger(a: seq<string>, b: seq<string>) {
    |a| <= |b| && forall i | 0 <= i < |a| :: |a[i]| <= |b[i]|
  }

  lemma {:induction false} JoinNoLonger(a: seq<string>, b: seq<string>)
    requires NoLonger(a, b)
    ensures |Join(a)| <= |Join(b)|
    decreases |a|
  {
    if |a| > 1 {
      assert forall i | 0 <= i < |a[1..]| :: a[1..][i] == a[i + 1] && b[1..][i] == b[i + 1];
      JoinNoLonger(a[1..], b[1..]);
    }
  }

  lemma ObjectNoLonger(a: seq<string>, b: seq<string>)
    requires NoLonger(a, b)
    ensures |Object(a)| <= |Object(b)|
  {
    JoinNoLonger(a, b);
  }

  lemma NumNoLonger(a: int, b: int)
    requires 0 <= a <= b
    ensures |Num(a)| <= |Num(b)|
  {
    Decimal.LengthMonotone(a, b);
  }

  /** Every second up to the last structurally valid expiry has at most the twelve digits reserved for it. */
  lemma TwelveDigits(t: int, reserved: int)
    requires 0 < t < 1000000000000 && 100000000000 <= reserved < 1000000000000
    ensures |Num(t)| <= |Num(reserved)|
  {
    Power12();
    Decimal.LengthExact(t, 12);
    Decimal.LengthExact(reserved, 12);
  }

  lemma Power12()
    ensures Decimal.Pow10(12) == 1000000000000 && Decimal.Pow10(11) == 100000000000
  {
    assert Decimal.Pow10(3) == 1000;
    assert Decimal.Pow10(6) == 1000000;
    assert Decimal.Pow10(9) == 1000000000;
    assert Decimal.Pow10(11) == 100000000000;
  }

  lemma RuntimeNoLonger(r: Runtime, profile: Profile)
    requires RuntimeValid(r, profile)
    ensures |Object(RuntimeFields(r))| <= |Object(RuntimeFields(LargestRuntime()))|
  {
    hide Num, Join, Object;
    var m := LargestRuntime();
    NumNoLonger(r.revision, m.revision);
    NumNoLonger(r.epoch, m.epoch);
    NumNoLonger(r.recoveryUntil, m.recoveryUntil);
    NumNoLonger(r.limits.leases, m.limits.leases);
    NumNoLonger(r.limits.rate, m.limits.rate);
    NumNoLonger(r.limits.ttl, m.limits.ttl);
    ObjectNoLonger(LimitFields(r.limits), LimitFields(m.limits));
    ObjectNoLonger(RuntimeFields(r), RuntimeFields(m));
  }

  lemma DeliveryNoLonger(c: Config, d: Delivery, p: Stamp, tail: string)
    requires Publishable(c, d, p)
    ensures |DeliveryText(d, tail)| <= |DeliveryText(LargestDelivery(c), tail)|
  {
    hide Num, Join, Object, RuntimeFields, LargestRuntime;
    var m := LargestDelivery(c);
    forall i | 0 <= i < |d.runtimes|
      ensures |RoomText(d.runtimes[i])| <= |RoomText(m.runtimes[i])|
    {
      var r, l := d.runtimes[i], m.runtimes[i];
      RuntimeNoLonger(r.runtime, c.profile);
      ObjectNoLonger([Field("roomId", Quote(r.roomId)), Field("runtime", Object(RuntimeFields(r.runtime)))],
                     [Field("roomId", Quote(l.roomId)), Field("runtime", Object(RuntimeFields(l.runtime)))]);
    }
    JoinNoLonger(RoomTexts(d.runtimes), RoomTexts(m.runtimes));
    NumNoLonger(d.config.revision, m.config.revision);
    ConfigNoLonger(d.config, m.config, tail);
    ObjectNoLonger(
      [Field("config", ConfigText(d.config, tail)), Field("runtimes", "[" + Join(RoomTexts(d.runtimes)) + "]")],
      [Field("config", ConfigText(m.config, tail)), Field("runtimes", "[" + Join(RoomTexts(m.runtimes)) + "]")]);
  }

  lemma ConfigNoLonger(a: Config, b: Config, tail: string)
    requires a.schemaVersion == b.schemaVersion && |Num(a.revision)| <= |Num(b.revision)|
    ensures |ConfigText(a, tail)| <= |ConfigText(b, tail)|
  {
    hide Num, Join, Object;
    ObjectNoLonger([Field("schemaVersion", Num(a.schemaVersion)), Field("revision", Num(a.revision)), tail],
                   [Field("schemaVersion", Num(b.schemaVersion)), Field("revision", Num(b.revision)), tail]);
  }

  lemma EnvelopeNoLonger(c: Config, d: Delivery, p: Stamp, tail: string)
    requires Publishable(c, d, p)
    ensures |EnvelopeText(d, tail, p)| <= |EnvelopeText(LargestDelivery(c), tail, LargestStamp())|
  {
    hide Num, Join, Object, DeliveryText;
    var m, l := LargestDelivery(c), LargestStamp();
    DeliveryNoLonger(c, d, p, tail);
    NumNoLonger(p.generation, l.generation);
    NumNoLonger(d.config.revision, m.config.revision);
    TwelveDigits(p.issuedAt, l.issuedAt);
    TwelveDigits(p.expiresAt, l.expiresAt);
    var a := SnapshotFields(DeliveryText(d, tail), d.config.revision, p);
    var b := SnapshotFields(DeliveryText(m, tail), m.config.revision, l);
    ObjectNoLonger(a, b);
    ObjectNoLonger([Field("snapshot", Object(a)), Field("signature", Quote(p.signature))],
                   [Field("snapshot", Object(b)), Field("signature", Quote(l.signature))]);
  }

  // ---------------------------------------------------------------- theorems

  /** A draft inside the budget can be signed after any later mode, epoch, revision, event, clock or key change. */
  lemma BudgetTheorem(c: Config, d: Delivery, p: Stamp, tail: string)
    requires FitsDeliveryBudget(c, tail) && Publishable(c, d, p)
    ensures Fits(d, tail, p)
  {
    hide Num, Join, Object, DeliveryText, EnvelopeText, Publishable, LargestDelivery, LargestStamp;
    DeliveryNoLonger(c, d, p, tail);
    EnvelopeNoLonger(c, d, p, tail);
  }

  /** For a high-scale draft whose rooms are all active the budget refuses nothing that could always be signed. */
  lemma BudgetIsExact(c: Config, tail: string)
    requires c.profile == HighScale100k && forall i | 0 <= i < |c.rooms| :: c.rooms[i].active
    ensures FitsDeliveryBudget(c, tail) <==> forall d, p | Publishable(c, d, p) :: Fits(d, tail, p)
  {
    hide Fits;
    forall d, p | FitsDeliveryBudget(c, tail) && Publishable(c, d, p)
      ensures Fits(d, tail, p)
    {
      BudgetTheorem(c, d, p, tail);
    }
    assert Publishable(c, LargestDelivery(c), LargestStamp());
  }

  method CheckBudget(c: Config, tail: string) returns (fits: bool)
    ensures fits == FitsDeliveryBudget(c, tail)
    ensures fits ==> forall d, p | Publishable(c, d, p) :: Fits(d, tail, p)
  {
    hide Num, Join, Object, RoomText, Publishable;
    var runtimes: seq<RoomRuntime> := [];
    for i := 0 to |c.rooms|
      invariant runtimes == LargestDelivery(c).runtimes[..i]
    {
      runtimes := runtimes + [RoomRuntime(c.rooms[i].id, LargestRuntime())];
    }
    var d := Delivery(c.(revision := 9007199254740989), runtimes);
    assert d == LargestDelivery(c);
    fits := |DeliveryText(d, tail)| <= MAX_BYTES && |EnvelopeText(d, tail, LargestStamp())| <= MAX_BYTES;
    if fits {
      forall d, p | Publishable(c, d, p)
        ensures Fits(d, tail, p)
      {
        BudgetTheorem(c, d, p, tail);
      }
    }
  }
}
