/** Canonical vehicles, found and completed by keyed identifiers.

    HMAC-SHA256 is modelled as an injective function: a digest is the message it was taken of. */
module VehicleRegistry {
  import opened Core
  import opened OwnershipReuse

  datatype VehicleType = Car | Bike
  datatype Field = Registration | Vin | Chassis
  datatype Digest = Digest(hashVersion: nat, field: Field, value: string)

  /** What a normalizer returns: jurisdictions are letters, digits and '-' only. */
  datatype Normalized = Normalized(
    jurisdiction: string, registration: string, vin: Option<string>, chassis: Option<string>)

  datatype Keyed = Keyed(
    jurisdiction: string, registration: Digest, vin: Option<Digest>, chassis: Option<Digest>, hashVersion: nat)

  datatype Vehicle = Vehicle(
    vehicleType: VehicleType,
    jurisdiction: Option<string>,
    registration: Option<Digest>,
    vin: Option<Digest>,
    chassis: Option<Digest>,
    hashVersion: nat,
    identityVersion: nat,
    status: VehicleStatus)

  datatype Resolution = Conflict | Resolved(vehicle: Id)

  function OptionalDigest(hashVersion: nat, field: Field, value: Option<string>): Option<Digest> {
    if value.Some? && value.value != "" then Some(Digest(hashVersion, field, value.value)) else None
  }

  function Key(n: Normalized, hashVersion: nat): Keyed {
    Keyed(n.jurisdiction,
          Digest(hashVersion, Registration, n.jurisdiction + ":" + n.registration),
          OptionalDigest(hashVersion, Vin, n.vin),
          OptionalDigest(hashVersion, Chassis, n.chassis),
          hashVersion)
  }

  ghost predicate Normal(n: Normalized) { ':' !in n.jurisdiction }

  ghost predicate IsKey(k: Keyed) {
    exists n: Normalized :: Normal(n) && k == Key(n, k.hashVersion)
  }

  predicate SharesRegistration(v: Vehicle, k: Keyed) {
    v.jurisdiction == Some(k.jurisdiction) && v.registration == Some(k.registration)
  }

  predicate Matches(v: Vehicle, k: Keyed) {
    && v.hashVersion == k.hashVersion
    && (|| SharesRegistration(v, k)
        || (k.vin.Some? && v.vin == k.vin)
        || (k.chassis.Some? && v.chassis == k.chassis))
  }

  /** `find_canonical`: the positions of all matching rows. */
  function FindCanonical(rows: seq<Vehicle>, k: Keyed): (found: seq<Id>)
    ensures forall i :: i in found <==> 0 <= i < |rows| && Matches(rows[i], k)
    ensures |found| > 1 ==> exists i, j :: i in found && j in found && i < j
  {
    if rows == [] then []
    else
      var n := |rows| - 1;
      var rest := FindCanonical(rows[..n], k);
      assert |rest| >= 1 ==> rest[0] in rest;
      if Matches(rows[n], k) then rest + [n] else rest
  }

  predicate Differs(current: Option<Digest>, supplied: Option<Digest>) {
    current.Some? && supplied.Some? && current != supplied
  }

  function OrElse<T>(current: Option<T>, supplied: Option<T>): Option<T> {
    if current.Some? then current else supplied
  }

  predicate Contradicts(v: Vehicle, vehicleType: VehicleType, k: Keyed) {
    || v.vehicleType != vehicleType
    || Differs(v.registration, Some(k.registration))
    || Differs(v.vin, k.vin)
    || Differs(v.chassis, k.chassis)
  }

  function Completed(v: Vehicle, k: Keyed): Vehicle {
    v.(jurisdiction := OrElse(v.jurisdiction, Some(k.jurisdiction)),
       registration := OrElse(v.registration, Some(k.registration)),
       vin := OrElse(v.vin, k.vin),
       chassis := OrElse(v.chassis, k.chassis))
  }

  function NewVehicle(vehicleType: VehicleType, k: Keyed): Vehicle {
    Vehicle(vehicleType, Some(k.jurisdiction), Some(k.registration), k.vin, k.chassis, k.hashVersion, 1, Active)
  }

  function Resolve(rows: seq<Vehicle>, vehicleType: VehicleType, k: Keyed): (seq<Vehicle>, Resolution) {
    var found := FindCanonical(rows, k);
    if |found| > 1 then (rows, Conflict)
    else if |found| == 0 then (rows + [NewVehicle(vehicleType, k)], Resolved(|rows|))
    else
      var i := found[0];
      assert i in found;
      if Contradicts(rows[i], vehicleType, k) then (rows, Conflict)
      else (rows[i := Completed(rows[i], k)], Resolved(i))
  }

  datatype Request = Request(vehicleType: VehicleType, key: Keyed)

  function ResolveAll(rows: seq<Vehicle>, requests: seq<Request>): seq<Vehicle>
    decreases |requests|
  {
    if requests == [] then rows
    else ResolveAll(Resolve(rows, requests[0].vehicleType, requests[0].key).0, requests[1..])
  }

  // ------------------------------------------------------------------------ invariant

  /** Rows written by this code: registration present, and taken of "jurisdiction:registration". */
  ghost predicate WellKeyed(v: Vehicle) {
    && v.jurisdiction.Some? && v.registration.Some?
    && ':' !in v.jurisdiction.value
    && exists r: string :: v.registration.value == Digest(v.hashVersion, Registration, v.jurisdiction.value + ":" + r)
  }

  /** The three unique constraints of the table. */
  ghost predicate SameKey(v: Vehicle, w: Vehicle) {
    && v.hashVersion == w.hashVersion
    && (|| (v.registration.Some? && v.jurisdiction == w.jurisdiction && v.registration == w.registration)
        || (v.vin.Some? && v.vin == w.vin)
        || (v.chassis.Some? && v.chassis == w.chassis))
  }

  ghost predicate Inv(rows: seq<Vehicle>) {
    && (forall i | 0 <= i < |rows| :: WellKeyed(rows[i]))
    && (forall i, j | 0 <= i < |rows| && 0 <= j < |rows| && i != j :: !SameKey(rows[i], rows[j]))
  }

  /** `rows` grew into `later` by appending rows and filling missing identifiers only. */
  ghost predicate Filled(v: Vehicle, w: Vehicle) {
    && w.vehicleType == v.vehicleType && w.hashVersion == v.hashVersion
    && w.identityVersion == v.identityVersion && w.status == v.status
    && (v.jurisdiction.Some? ==> w.jurisdiction == v.jurisdiction)
    && (v.registration.Some? ==> w.registration == v.registration)
    && (v.vin.Some? ==> w.vin == v.vin)
    && (v.chassis.Some? ==> w.chassis == v.chassis)
  }

  ghost predicate OnlyFills(rows: seq<Vehicle>, later: seq<Vehicle>) {
    |rows| <= |later| && forall i | 0 <= i < |rows| :: Filled(rows[i], later[i])
  }

  /** The row carries everything the request supplied. */
  ghost predicate Carries(v: Vehicle, r: Request) {
    && v.vehicleType == r.vehicleType && v.hashVersion == r.key.hashVersion
    && SharesRegistration(v, r.key)
    && (r.key.vin.Some? ==> v.vin == r.key.vin)
    && (r.key.chassis.Some? ==> v.chassis == r.key.chassis)
  }

  lemma JurisdictionIsReadable(j: string, r: string, j': string, r': string)
    requires ':' !in j && ':' !in j' && j + ":" + r == j' + ":" + r'
    ensures j == j'
  {
    var s, s' := j + ":" + r, j' + ":" + r';
    assert s[|j|] == ':' && s'[|j'|] == ':';
    assert forall m | 0 <= m < |j| :: s[m] == j[m];
    assert forall m | 0 <= m < |j'| :: s[m] == s'[m] == j'[m];
    assert j == s[..|j|] && j' == s'[..|j'|];
  }

  /** Equal registration digests name the same jurisdiction, so a row found by VIN or chassis
      alone never ends up with a registration filed under another jurisdiction. */
  lemma SameDigestSameJurisdiction(v: Vehicle, k: Keyed)
    requires WellKeyed(v) && IsKey(k) && v.registration == Some(k.registration)
    ensures SharesRegistration(v, k) && v.hashVersion == k.hashVersion
  {
    var n: Normalized :| Normal(n) && k == Key(n, k.hashVersion);
    var r: string :| v.registration.value == Digest(v.hashVersion, Registration, v.jurisdiction.value + ":" + r);
    JurisdictionIsReadable(v.jurisdiction.value, r, n.jurisdiction, n.registration);
  }

  /** One resolution: nothing but fills, and the row it names is the only one the key matches. */
  lemma ResolveStep(rows: seq<Vehicle>, r: Request)
    requires Inv(rows) && IsKey(r.key)
    ensures var (later, out) := Resolve(rows, r.vehicleType, r.key);
            && OnlyFills(rows, later)
            && (out.Conflict? ==> later == rows)
            && (out.Resolved? ==>
                  && out.vehicle < |later| && Carries(later[out.vehicle], r)
                  && (forall i | 0 <= i < |rows| :: Matches(rows[i], r.key) ==> i == out.vehicle)
                  && (later == if out.vehicle < |rows| then rows[out.vehicle := Completed(rows[out.vehicle], r.key)]
                               else rows + [NewVehicle(r.vehicleType, r.key)]))
  {
    hide IsKey;
    var found := FindCanonical(rows, r.key);
    if |found| == 1 {
      var i := found[0];
      assert i in found;
      if !Contradicts(rows[i], r.vehicleType, r.key) {
        assert WellKeyed(rows[i]);
        SameDigestSameJurisdiction(rows[i], r.key);
      }
    }
  }

  lemma NewVehicleIsWellKeyed(r: Request)
    requires IsKey(r.key)
    ensures WellKeyed(NewVehicle(r.vehicleType, r.key))
  {
    var n: Normalized :| Normal(n) && r.key == Key(n, r.key.hashVersion);
    assert NewVehicle(r.vehicleType, r.key).registration.value
        == Digest(r.key.hashVersion, Registration, n.jurisdiction + ":" + n.registration);
  }

  /** Uniqueness of all three keys is kept by every resolution, fills included. */
  lemma ResolveKeepsKeysUnique(rows: seq<Vehicle>, r: Request)
    requires Inv(rows) && IsKey(r.key)
    ensures Inv(Resolve(rows, r.vehicleType, r.key).0)
  {
    hide Resolve, IsKey, WellKeyed, OnlyFills;
    var (later, out) := Resolve(rows, r.vehicleType, r.key);
    ResolveStep(rows, r);
    if out.Resolved? {
      NewVehicleIsWellKeyed(r);
      forall i | 0 <= i < |rows| ensures WellKeyed(Completed(rows[i], r.key)) {
        CompletedIsWellKeyed(rows[i], r.key);
      }
      WellKeyedFields(rows);
      forall i, j | 0 <= i < |later| && 0 <= j < |later| && i != j ensures !SameKey(later[i], later[j]) {
        assert i < |rows| && j < |rows| ==> !SameKey(rows[i], rows[j]);
        assert i < |rows| && i != out.vehicle ==> !Matches(rows[i], r.key);
        assert j < |rows| && j != out.vehicle ==> !Matches(rows[j], r.key);
      }
    }
  }

  lemma CompletedIsWellKeyed(v: Vehicle, k: Keyed)
    requires WellKeyed(v)
    ensures WellKeyed(Completed(v, k))
  {}

  lemma WellKeyedFields(rows: seq<Vehicle>)
    requires Inv(rows)
    ensures forall i | 0 <= i < |rows| :: rows[i].registration.Some? && rows[i].jurisdiction.Some?
  {
    assert forall i | 0 <= i < |rows| :: WellKeyed(rows[i]);
  }

  ghost predicate AllKeys(requests: seq<Request>) {
    forall i | 0 <= i < |requests| :: IsKey(requests[i].key)
  }

  lemma {:induction false} ResolveAllKeepsInv(rows: seq<Vehicle>, requests: seq<Request>)
    requires Inv(rows) && AllKeys(requests)
    ensures Inv(ResolveAll(rows, requests)) && OnlyFills(rows, ResolveAll(rows, requests))
    decreases |requests|
  {
    if requests != [] {
      hide Inv, IsKey, Resolve;
      ResolveKeepsKeysUnique(rows, requests[0]);
      ResolveStep(rows, requests[0]);
      ResolveAllKeepsInv(Resolve(rows, requests[0].vehicleType, requests[0].key).0, requests[1..]);
    }
  }

  /** A row carrying the whole request is what the request resolves to, and nothing changes. */
  lemma CarriedResolves(rows: seq<Vehicle>, r: Request, i: Id)
    requires Inv(rows) && IsKey(r.key)
    requires i < |rows| && Carries(rows[i], r)
    ensures Resolve(rows, r.vehicleType, r.key) == (rows, Resolved(i))
  {
    hide IsKey, WellKeyed;
    var found := FindCanonical(rows, r.key);
    assert i in found;
    forall j | j in found ensures j == i { assert Matches(rows[j], r.key); }
    assert |found| == 1 && found[0] in found;
    assert rows[i := Completed(rows[i], r.key)] == rows;
  }

  /** Once resolved, an identity resolves to the same vehicle for ever: whatever other
      resolutions come between, the second one succeeds, agrees and writes nothing. */
  lemma ResolvedForEver(rows: seq<Vehicle>, r: Request, between: seq<Request>)
    requires Inv(rows) && IsKey(r.key) && AllKeys(between)
    requires Resolve(rows, r.vehicleType, r.key).1.Resolved?
    ensures var (first, out) := Resolve(rows, r.vehicleType, r.key);
            var later := ResolveAll(first, between);
            Resolve(later, r.vehicleType, r.key) == (later, out)
  {
    hide Resolve, ResolveAll, Inv, IsKey;
    var (first, out) := Resolve(rows, r.vehicleType, r.key);
    ResolveStep(rows, r);
    ResolveKeepsKeysUnique(rows, r);
    ResolveAllKeepsInv(first, between);
    CarriedResolves(ResolveAll(first, between), r, out.vehicle);
  }

  ghost predicate ShareIdentifier(a: Keyed, b: Keyed) {
    && a.hashVersion == b.hashVersion
    && (|| (a.jurisdiction == b.jurisdiction && a.registration == b.registration)
        || (a.vin.Some? && a.vin == b.vin)
        || (a.chassis.Some? && a.chassis == b.chassis))
  }

  /** Two accepted requests name one vehicle when they share any identifier, and requests that
      name one vehicle never disagree on an identifier both supply. */
  lemma SharedIdentifierSharedVehicle(rows: seq<Vehicle>, a: Request, between: seq<Request>, b: Request)
    requires Inv(rows) && IsKey(a.key) && IsKey(b.key) && AllKeys(between)
    requires Resolve(rows, a.vehicleType, a.key).1.Resolved?
    requires var later := ResolveAll(Resolve(rows, a.vehicleType, a.key).0, between);
             Resolve(later, b.vehicleType, b.key).1.Resolved?
    ensures var (first, outA) := Resolve(rows, a.vehicleType, a.key);
            var outB := Resolve(ResolveAll(first, between), b.vehicleType, b.key).1;
            && (ShareIdentifier(a.key, b.key) ==> outA == outB)
            && (outA == outB ==>
                  && a.vehicleType == b.vehicleType && a.key.registration == b.key.registration
                  && !Differs(a.key.vin, b.key.vin) && !Differs(a.key.chassis, b.key.chassis))
  {
    hide Resolve, ResolveAll, Inv, IsKey, WellKeyed;
    var (first, outA) := Resolve(rows, a.vehicleType, a.key);
    ResolveStep(rows, a);
    ResolveKeepsKeysUnique(rows, a);
    ResolveAllKeepsInv(first, between);
    ResolveStep(ResolveAll(first, between), b);
  }

  /** A row the request may not be resolved to, though it shares an identifier. */
  ghost predicate Disagrees(v: Vehicle, r: Request) {
    || v.vehicleType != r.vehicleType
    || (v.registration.Some? && v.registration != Some(r.key.registration))
    || (v.vin.Some? && r.key.vin.Some? && v.vin != r.key.vin)
    || (v.chassis.Some? && r.key.chassis.Some? && v.chassis != r.key.chassis)
  }

  ghost predicate Shares(v: Vehicle, k: Keyed) {
    && v.hashVersion == k.hashVersion
    && (|| (v.jurisdiction == Some(k.jurisdiction) && v.registration == Some(k.registration))
        || (k.vin.Some? && v.vin == k.vin) || (k.chassis.Some? && v.chassis == k.chassis))
  }

  ghost predicate Given(value: Option<string>) { value.Some? && value.value != "" }

  /** An identifier left out or left blank is no identifier; one that is given is told apart from every
      other, and so is the registration within its jurisdiction. */
  lemma KeysExactly(a: Normalized, b: Normalized, hashVersion: nat)
    requires Normal(a) && Normal(b)
    ensures var k, l := Key(a, hashVersion), Key(b, hashVersion);
            && (k.vin.Some? <==> Given(a.vin)) && (k.chassis.Some? <==> Given(a.chassis))
            && (Given(a.vin) ==> (k.vin == l.vin <==> a.vin == b.vin))
            && (Given(a.chassis) ==> (k.chassis == l.chassis <==> a.chassis == b.chassis))
            && (k.registration == l.registration <==>
                  a.jurisdiction == b.jurisdiction && a.registration == b.registration)
  {
    var x, y := a.jurisdiction + ":" + a.registration, b.jurisdiction + ":" + b.registration;
    if x == y {
      JurisdictionIsReadable(a.jurisdiction, a.registration, b.jurisdiction, b.registration);
      assert x[|a.jurisdiction| + 1..] == a.registration && y[|b.jurisdiction| + 1..] == b.registration;
    }
  }

  /** A request conflicts exactly when it shares identifiers with two vehicles, or with one it
      disagrees with; a new vehicle is made exactly when it shares none with any. */
  lemma ResolvedExactly(rows: seq<Vehicle>, r: Request)
    ensures var (later, out) := Resolve(rows, r.vehicleType, r.key);
            && (out.Conflict? <==>
                  || (exists i, j :: 0 <= i < j < |rows| && Shares(rows[i], r.key) && Shares(rows[j], r.key))
                  || (exists i :: 0 <= i < |rows| && Shares(rows[i], r.key) && Disagrees(rows[i], r)))
            && (out == Resolved(|rows|) <==> forall i | 0 <= i < |rows| :: !Shares(rows[i], r.key))
            && (out.Resolved? ==> out.vehicle == |rows| || (out.vehicle < |rows| && Shares(rows[out.vehicle], r.key)))
            && (out == Resolved(|rows|) ==>
                  && |later| == |rows| + 1 && later[|rows|].status == Active && later[|rows|].identityVersion == 1
                  && later[|rows|].vehicleType == r.vehicleType && later[|rows|].hashVersion == r.key.hashVersion)
  {
    var found := FindCanonical(rows, r.key);
    hide FindCanonical;
    forall i | 0 <= i < |rows| ensures Shares(rows[i], r.key) <==> i in found {}
    if |found| > 1 {
      var i, j :| i in found && j in found && i < j;
      assert Shares(rows[i], r.key) && Shares(rows[j], r.key);
    } else if |found| == 1 {
      assert found[0] in found;
      assert forall i | i in found :: i == found[0];
    }
    hide Shares;
  }
}
