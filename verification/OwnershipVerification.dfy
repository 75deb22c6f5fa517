/** Personal vehicle-ownership attempts: bound to an identity projection version and a vehicle,
    reused across listings, superseded by newer ones. */
module OwnershipVerification {
  import opened Core
  import opened OwnershipReuse
  import opened Registry = VehicleRegistry
  import Idv = IdentityVerification

  datatype Listing = Listing(
    ownerUser: Option<Id>,
    ownerOrganization: Option<Id>,
    vehicleType: VehicleType,
    vehicle: Option<Id>,
    draft: bool,
    version: nat)

  datatype Attempt = Attempt(
    listing: Id,
    owner: Id,
    vehicle: Id,
    number: nat,
    identityAttempt: Id,
    identityVersion: nat,
    vehicleIdentityVersion: nat,
    hashVersion: nat,
    basis: Basis,
    fingerprint: string,
    reference: Option<nat>,
    resultEvent: Option<nat>,
    resultVersion: Option<int>,
    status: VerificationStatus,
    failure: Option<Idv.FailureCode>,
    verifiedAt: Option<Time>,
    expiresAt: Option<Time>,
    revokedAt: Option<Time>,
    supersededAt: Option<Time>)

  /** One "ownership.verification.reused" outbox row. */
  datatype Reuse = Reuse(listing: Id, attempt: Id)

  datatype State = State(
    clock: Time,
    identity: Idv.State,
    vehicles: seq<Vehicle>,
    listings: seq<Listing>,
    attempts: seq<Attempt>,
    reuses: seq<Reuse>)

  /** Everything the material fingerprint is taken of. */
  datatype Material = Material(
    vehicle: Id,
    vehicleIdentityVersion: nat,
    owner: Id,
    identityAttempt: Id,
    identityVersion: nat,
    jurisdiction: string,
    basis: Basis,
    registration: Option<Digest>,
    vin: Option<Digest>,
    chassis: Option<Digest>,
    resultVersion: int,
    attributes: map<string, string>)

  /** Deployment constants: the reuse policy, the keyed fingerprint, the digest version. */
  datatype Config = Config(policy: Policy, fingerprint: Material -> string, hashVersion: Positive)

  /** `textsValid`: reference and event id hold 1 to 200 characters and every attribute has a key
      of 1 to 64 and a value of at most 200. */
  datatype ProviderResult = ProviderResult(
    textsValid: bool,
    reference: nat,
    event: nat,
    version: int,
    status: VerificationStatus,
    verifiedAt: Option<Time>,
    expiresAt: Option<Time>,
    failure: Idv.SuppliedCode,
    attributes: map<string, string>)

  datatype StartRequest = StartRequest(expectedVersion: nat, identity: Normalized, basis: Basis)

  datatype Refusal =
    | IdentityInvalid | NotFound | DealerUnsupported | NotDraft | VersionConflict
    | CurrentIdentityRequired | VehicleConflict

  datatype Claim = Refused(why: Refusal) | Reused(attempt: Id, fromOther: bool) | ProviderNeeded(attempt: Id)

  // -------------------------------------------------------------------- queries

  predicate InGroup(a: Attempt, owner: Id, vehicle: Id) {
    a.owner == owner && a.vehicle == vehicle
  }

  predicate Open(a: Attempt) {
    Unfinished(a.status) && a.supersededAt.None?
  }

  predicate Wanted(a: Attempt, owner: Id, vehicle: Id, openOnly: bool) {
    InGroup(a, owner, vehicle) && (openOnly ==> Open(a))
  }

  /** `get_latest` / `get_active`: the highest attempt number of the group, or of its open rows. */
  function Newest(rows: seq<Attempt>, owner: Id, vehicle: Id, openOnly: bool): (found: Option<Id>)
    ensures found.Some? ==> found.value < |rows| && Wanted(rows[found.value], owner, vehicle, openOnly)
    ensures found.Some? ==> forall i | 0 <= i < |rows| && Wanted(rows[i], owner, vehicle, openOnly) ::
                              rows[i].number <= rows[found.value].number
    ensures found.None? ==> forall i | 0 <= i < |rows| :: !Wanted(rows[i], owner, vehicle, openOnly)
  {
    if rows == [] then None
    else
      var n := |rows| - 1;
      var rest := Newest(rows[..n], owner, vehicle, openOnly);
      if Wanted(rows[n], owner, vehicle, openOnly) && (rest.None? || rows[rest.value].number <= rows[n].number)
      then Some(n) else rest
  }

  function NextNumber(rows: seq<Attempt>, owner: Id, vehicle: Id): nat {
    var latest := Newest(rows, owner, vehicle, false);
    if latest.None? then 1 else rows[latest.value].number + 1
  }

  function ByReference(rows: seq<Attempt>, reference: nat): (found: Option<Id>)
    ensures found.Some? ==> found.value < |rows| && rows[found.value].reference == Some(reference)
    ensures found.None? ==> forall i | 0 <= i < |rows| :: rows[i].reference != Some(reference)
  {
    if rows == [] then None
    else if rows[|rows| - 1].reference == Some(reference) then Some(|rows| - 1)
    else ByReference(rows[..|rows| - 1], reference)
  }

  function ByResultEvent(rows: seq<Attempt>, event: nat): (found: Option<Id>)
    ensures found.Some? ==> found.value < |rows| && rows[found.value].resultEvent == Some(event)
    ensures found.None? ==> forall i | 0 <= i < |rows| :: rows[i].resultEvent != Some(event)
  {
    if rows == [] then None
    else if rows[|rows| - 1].resultEvent == Some(event) then Some(|rows| - 1)
    else ByResultEvent(rows[..|rows| - 1], event)
  }

  function EvidenceOf(id: Id, a: Attempt): Evidence {
    Evidence(id, a.listing, a.number, a.owner, a.vehicle, a.identityAttempt, a.identityVersion,
             a.vehicleIdentityVersion, a.hashVersion, a.basis, a.fingerprint, a.resultVersion,
             a.status, a.verifiedAt, a.expiresAt, a.revokedAt, a.supersededAt)
  }

  /** `list_for_reuse`: all rows of the group. */
  function GroupEvidence(rows: seq<Attempt>, owner: Id, vehicle: Id): seq<Evidence> {
    if rows == [] then []
    else
      var n := |rows| - 1;
      var rest := GroupEvidence(rows[..n], owner, vehicle);
      if InGroup(rows[n], owner, vehicle) then [EvidenceOf(n, rows[n])] + rest else rest
  }

  // -------------------------------------------------------------------- pure rules

  predicate IdentityValid(p: Idv.Projection, now: Time) {
    && p.status == Verified
    && p.verifiedAt.Some?
    && p.expiresAt.Some? && p.expiresAt.value > now
    && p.revokedAt.None?
  }

  predicate IdentityStale(a: Attempt, p: Idv.Projection) {
    p.current != a.identityAttempt || p.version != a.identityVersion
  }

  predicate PersonalListing(l: Listing, owner: Id) {
    l.ownerUser == Some(owner) && l.ownerOrganization.None?
  }

  function ContextFor(now: Time, p: Idv.Projection, owner: Id, vehicleId: Id, v: Vehicle, l: Listing,
      basis: Basis): Context {
    Context(now, owner, vehicleId, p.current, p.version, v.identityVersion, v.hashVersion, v.status,
            basis, IdentityValid(p, now), PersonalListing(l, owner))
  }

  /** Ownership failures come from the ownership allow list. */
  function SafeFailureCode(c: Idv.SuppliedCode): Idv.FailureCode {
    if c.Listed? && c.code != Idv.IdentityMismatch then c.code else Idv.VerificationFailed
  }

  predicate ResultValid(r: ProviderResult) {
    && r.textsValid && r.version > 0
    && r.status in {ManualReview, Verified, Failed}
    && (r.status == Verified ==>
          && r.verifiedAt.Some? && r.expiresAt.Some? && r.expiresAt.value > r.verifiedAt.value
          && r.failure == Idv.Missing)
    && (r.status == Failed ==> r.failure != Idv.Missing && r.failure != Idv.Blank)
  }

  function ResultFailure(r: ProviderResult): Option<Idv.FailureCode> {
    if r.status == ManualReview then Some(Idv.ManualReviewRequired)
    else if r.status == Failed then Some(SafeFailureCode(r.failure))
    else None
  }

  predicate ResultMatches(a: Attempt, r: ProviderResult) {
    && a.resultEvent == Some(r.event)
    && a.resultVersion == Some(r.version)
    && a.status == r.status
    && a.verifiedAt == Idv.IfVerified(r.status, r.verifiedAt)
    && a.expiresAt == Idv.IfVerified(r.status, r.expiresAt)
    && a.failure == ResultFailure(r)
  }

  function MaterialOf(a: Attempt, v: Vehicle, resultVersion: int, attributes: map<string, string>): Material {
    Material(a.vehicle, v.identityVersion, a.owner, a.identityAttempt, a.identityVersion,
             if v.jurisdiction.Some? then v.jurisdiction.value else "", a.basis,
             v.registration, v.vin, v.chassis, resultVersion, attributes)
  }

  function WithResult(cfg: Config, a: Attempt, v: Vehicle, r: ProviderResult): Attempt {
    a.(resultEvent := Some(r.event),
       resultVersion := Some(r.version),
       status := r.status,
       verifiedAt := Idv.IfVerified(r.status, r.verifiedAt),
       expiresAt := Idv.IfVerified(r.status, r.expiresAt),
       revokedAt := None,
       failure := ResultFailure(r),
       fingerprint := cfg.fingerprint(MaterialOf(a, v, r.version, r.attributes)))
  }

  // -------------------------------------------------------------------- transactions

  function Supersede(rows: seq<Attempt>, id: Id, now: Time): seq<Attempt>
    requires id < |rows|
  {
    rows[id := rows[id].(supersededAt := Some(now))]
  }

  function FirstRow(cfg: Config, number: nat, listing: Id, owner: Id, vehicle: Id, v: Vehicle, p: Idv.Projection,
      basis: Basis): Attempt {
    var row := Attempt(listing, owner, vehicle, number, p.current, p.version, v.identityVersion, v.hashVersion,
                       basis, "", None, None, None, SessionPending, None, None, None, None, None);
    row.(fingerprint := cfg.fingerprint(MaterialOf(row, v, 0, map[])))
  }

  function NewAttempt(cfg: Config, rows: seq<Attempt>, now: Time, listing: Id, owner: Id, vehicle: Id, v: Vehicle,
      p: Idv.Projection, basis: Basis): seq<Attempt> {
    var latest := Newest(rows, owner, vehicle, false);
    var kept := if latest.Some? then Supersede(rows, latest.value, now) else rows;
    kept + [FirstRow(cfg, NextNumber(rows, owner, vehicle), listing, owner, vehicle, v, p, basis)]
  }

  function RequestRefusal(s: State, actor: Id, listing: Id, r: StartRequest): (refusal: Option<Refusal>)
    ensures refusal.None? ==> listing < |s.listings|
  {
    if ':' in r.identity.jurisdiction then Some(IdentityInvalid)
    else if actor >= |s.identity.users| || !s.identity.users[actor] || listing >= |s.listings| then Some(NotFound)
    else
      var l := s.listings[listing];
      if l.ownerOrganization.Some? then Some(Refusal.DealerUnsupported)
      else if l.ownerUser != Some(actor) then Some(NotFound)
      else if !l.draft then Some(NotDraft)
      else if l.version != r.expectedVersion then Some(VersionConflict)
      else
        var p := Idv.Projected(s.identity, actor);
        if p.None? || !IdentityValid(p.value, s.clock) then Some(CurrentIdentityRequired) else None
  }

  function ClaimAttempt(cfg: Config, s: State, actor: Id, listing: Id, r: StartRequest): (State, Claim) {
    var refusal := RequestRefusal(s, actor, listing, r);
    if refusal.Some? then (s, Refused(refusal.value))
    else
      var l := s.listings[listing];
      var (vehicles, resolution) := Registry.Resolve(s.vehicles, l.vehicleType, Key(r.identity, cfg.hashVersion));
      if resolution.Conflict? || l.vehicle !in {None, Some(resolution.vehicle)} then (s, Refused(VehicleConflict))
      else
        ClaimFor(cfg, Associated(s, vehicles, listing, resolution.vehicle), listing, actor, resolution.vehicle, r.basis)
  }

  /** The listing is tied to its vehicle; the first time, that is a new listing version. */
  function Associated(s: State, vehicles: seq<Vehicle>, listing: Id, vehicle: Id): State
    requires listing < |s.listings|
  {
    var l := s.listings[listing];
    s.(vehicles := vehicles,
       listings := if l.vehicle.Some? then s.listings
                   else s.listings[listing := l.(vehicle := Some(vehicle), version := l.version + 1)])
  }

  function ClaimFor(cfg: Config, s: State, listing: Id, actor: Id, vehicle: Id, basis: Basis): (State, Claim) {
    if listing >= |s.listings| || vehicle >= |s.vehicles| || Idv.Projected(s.identity, actor).None? then
      (s, Refused(NotFound))
    else
      var p := Idv.Projected(s.identity, actor).value;
      var selection := cfg.policy.Select(
        ContextFor(s.clock, p, actor, vehicle, s.vehicles[vehicle], s.listings[listing], basis),
        GroupEvidence(s.attempts, actor, vehicle), listing);
      if selection.evidence.Some? && selection.decision.eligible then
        var id := selection.evidence.value.attempt;
        var reuse := Reuse(listing, id);
        (s.(reuses := if selection.decision.reused && reuse !in s.reuses then s.reuses + [reuse] else s.reuses),
         Reused(id, selection.decision.reused))
      else
        OpenAttempt(cfg, s, listing, actor, vehicle, p, basis)
  }

  function OpenAttempt(cfg: Config, s: State, listing: Id, actor: Id, vehicle: Id, p: Idv.Projection,
      basis: Basis): (State, Claim)
    requires vehicle < |s.vehicles|
  {
    var active := Newest(s.attempts, actor, vehicle, true);
    if active.Some? && !IdentityStale(s.attempts[active.value], p) then (s, ProviderNeeded(active.value))
    else
      var kept := if active.Some? then Supersede(s.attempts, active.value, s.clock) else s.attempts;
      (s.(attempts := NewAttempt(cfg, kept, s.clock, listing, actor, vehicle, s.vehicles[vehicle], p, basis)),
       ProviderNeeded(|s.attempts|))
  }

  predicate ReferenceFree(rows: seq<Attempt>, id: Id, reference: nat) {
    ByReference(rows, reference) in {None, Some(id)}
  }

  function FinalizeSession(s: State, id: Id, reference: nat): (State, Idv.Outcome) {
    if id >= |s.attempts| then (s, Idv.NotFound)
    else
      var a := s.attempts[id];
      if a.reference.Some? && a.reference.value != reference then (s, Idv.Unavailable)
      else if a.status != SessionPending && a.status != Pending then (s, Idv.Closed)
      else if !ReferenceFree(s.attempts, id, reference) then (s, Idv.Unavailable)
      else (s.(attempts := s.attempts[id := a.(reference := Some(reference), status := Pending)]), Idv.Finalized)
  }

  function FinalizeSessionFailure(s: State, id: Id, failure: Idv.SuppliedCode): (State, Idv.Outcome) {
    if id >= |s.attempts| || s.attempts[id].status != SessionPending then (s, Idv.Ignored)
    else (s.(attempts := s.attempts[id := s.attempts[id].(status := Failed,
        failure := Some(SafeFailureCode(failure)))]),
          Idv.Finalized)
  }

  /** The world the attempt was bound to has moved on. */
  predicate IsStale(s: State, id: Id)
    requires id < |s.attempts|
  {
    var a := s.attempts[id];
    var p := Idv.Projected(s.identity, a.owner);
    || a.supersededAt.Some?
    || a.owner >= |s.identity.users| || !s.identity.users[a.owner]
    || p.None? || !IdentityValid(p.value, s.clock) || IdentityStale(a, p.value)
    || a.listing >= |s.listings| || !PersonalListing(s.listings[a.listing], a.owner)
    || s.listings[a.listing].vehicle != Some(a.vehicle)
    || a.vehicle >= |s.vehicles| || s.vehicles[a.vehicle].identityVersion != a.vehicleIdentityVersion
  }

  function Disposition(s: State, id: Id, r: ProviderResult): Idv.Outcome
    requires id < |s.attempts|
  {
    var a := s.attempts[id];
    if IsStale(s, id) then Idv.Stale
    else if a.resultEvent == Some(r.event) && ResultMatches(a, r) then Idv.Duplicate
    else if Idv.Terminal(a.status) || a.resultEvent == Some(r.event) then Idv.ResultConflict
    else if !Idv.TransitionAllowed(a.status, r.status) then Idv.ResultConflict
    else Idv.Applied
  }

  function ApplyProviderResult(cfg: Config, s: State, r: ProviderResult): (State, Idv.Outcome) {
    if !ResultValid(r) then (s, Idv.Invalid)
    else
      var target := ByReference(s.attempts, r.reference);
      if target.None? then (s, Idv.NotFound)
      else
        var id := target.value;
        var a := s.attempts[id];
        var seen := ByResultEvent(s.attempts, r.event);
        if seen.Some? then
          (s, if seen.value == id && ResultMatches(a, r) then Idv.Duplicate else Idv.ResultConflict)
        else
          match Disposition(s, id, r)
          case Stale => (s.(attempts := s.attempts[id := a.(supersededAt := if a.supersededAt.Some? then a.supersededAt
              else Some(s.clock))]), Idv.Stale)
          case Applied => (s.(attempts := s.attempts[id := WithResult(cfg, a, s.vehicles[a.vehicle], r)]), Idv.Applied)
          case other => (s, other)
  }

  // -------------------------------------------------------------------- runs

  datatype Action =
    | Identity(action: Idv.Action)
    | Begin(actor: Id, listing: Id, request: StartRequest)
    | SessionReady(attempt: Id, reference: nat)
    | SessionFailed(attempt: Id, failure: Idv.SuppliedCode)
    | Result(result: ProviderResult)
    | CreateListing(row: Listing)
    | EditListing(listing: Id)
    | Tick(seconds: nat)

  function Step(cfg: Config, s: State, a: Action): State {
    match a
    case Identity(Start(user, now)) => s.(identity := Idv.ClaimAttempt(s.identity, user, s.clock).0)
    case Identity(other) => s.(identity := Idv.Step(s.identity, other))
    case Begin(actor, listing, r) => ClaimAttempt(cfg, s, actor, listing, r).0
    case SessionReady(id, reference) => FinalizeSession(s, id, reference).0
    case SessionFailed(id, failure) => FinalizeSessionFailure(s, id, failure).0
    case Result(r) => ApplyProviderResult(cfg, s, r).0
    case CreateListing(l) => s.(listings := s.listings + [l.(vehicle := None, draft := true, version := 1)])
    case EditListing(l) => if l >= |s.listings| then s else
      s.(listings := s.listings[l := s.listings[l].(version := s.listings[l].version + 1)])
    case Tick(d) => s.(clock := s.clock + d)
  }

  function Run(cfg: Config, s: State, actions: seq<Action>): State
    decreases |actions|
  {
    if actions == [] then s else Run(cfg, Step(cfg, s, actions[0]), actions[1..])
  }

  function Initial(users: seq<bool>, clock: Time): State {
    State(clock, Idv.Initial(users), [], [], [], [])
  }

  // -------------------------------------------------------------------- invariant

  /** The table's check constraints. */
  ghost predicate EvidenceConstraints(a: Attempt) {
    && (a.status == Verified ==>
          && a.verifiedAt.Some? && a.expiresAt.Some? && a.expiresAt.value > a.verifiedAt.value
          && a.failure.None? && a.revokedAt.None?
          && a.resultVersion.Some? && a.resultVersion.value > 0)
    && (a.status == Failed ==>
          a.failure.Some? && a.verifiedAt.None? && a.expiresAt.None? && a.revokedAt.None?)
    && (a.status == ManualReview ==> a.failure.Some?)
    && (a.resultVersion.Some? ==> a.resultVersion.value > 0)
    && a.status != Expired && a.status != Revoked
    && (!Idv.Terminal(a.status) ==> a.resultEvent.None? && a.verifiedAt.None? && a.expiresAt.None? && a.revokedAt.None?)
  }

  /** The row's binding: its identity version is never ahead of the projection, and while the
      projection still has that version it is the verified one the row was opened under. */
  ghost predicate BoundTo(a: Attempt, p: Option<Idv.Projection>) {
    && p.Some?
    && a.identityVersion <= p.value.version
    && (a.identityVersion == p.value.version ==> p.value.current == a.identityAttempt && p.value.status == Verified)
  }

  ghost predicate VehicleValid(v: Vehicle) { v.identityVersion >= 1 && v.hashVersion >= 1 }

  ghost predicate RowValid(s: State, a: Attempt) {
    && a.number >= 1 && a.identityVersion >= 1 && a.vehicleIdentityVersion >= 1 && a.hashVersion >= 1
    && a.listing < |s.listings|
    && a.vehicle < |s.vehicles|
    && a.vehicleIdentityVersion == s.vehicles[a.vehicle].identityVersion
    && a.hashVersion == s.vehicles[a.vehicle].hashVersion
    && BoundTo(a, Idv.Projected(s.identity, a.owner))
    && EvidenceConstraints(a)
  }

  ghost predicate SameGroup(a: Attempt, b: Attempt) {
    a.owner == b.owner && a.vehicle == b.vehicle
  }

  ghost predicate HasNumber(rows: seq<Attempt>, owner: Id, vehicle: Id, k: nat) {
    exists i :: 0 <= i < |rows| && InGroup(rows[i], owner, vehicle) && rows[i].number == k
  }

  /** Numbered 1, 2, 3, ... per (owner, vehicle); a row that has a successor is superseded. */
  ghost predicate Chained(rows: seq<Attempt>) {
    && (forall i, j | 0 <= i < |rows| && 0 <= j < |rows| && i != j && SameGroup(rows[i], rows[j]) ::
          rows[i].number != rows[j].number)
    && (forall i, j | 0 <= i < |rows| && 0 <= j < |rows| && SameGroup(rows[i], rows[j]) ::
          rows[i].number < rows[j].number ==> rows[i].supersededAt.Some?)
    && (forall i, k: nat | 0 <= i < |rows| && 1 <= k < rows[i].number ::
          HasNumber(rows, rows[i].owner, rows[i].vehicle, k))
  }

  ghost predicate Unique(rows: seq<Attempt>) {
    forall i, j | 0 <= i < |rows| && 0 <= j < |rows| && i != j ::
      && (rows[i].reference.Some? ==> rows[i].reference != rows[j].reference)
      && (rows[i].resultEvent.Some? ==> rows[i].resultEvent != rows[j].resultEvent)
  }

  ghost predicate Inv(s: State) {
    && Idv.Inv(s.identity)
    && Registry.Inv(s.vehicles)
    && (forall v | 0 <= v < |s.vehicles| :: VehicleValid(s.vehicles[v]))
    && (forall l | 0 <= l < |s.listings| && s.listings[l].vehicle.Some? :: s.listings[l].vehicle.value < |s.vehicles|)
    && (forall i | 0 <= i < |s.attempts| :: RowValid(s, s.attempts[i]))
    && Chained(s.attempts)
    && Unique(s.attempts)
    && (forall i, j | 0 <= i < j < |s.reuses| :: s.reuses[i] != s.reuses[j])
  }

  // -------------------------------------------------------------------- what one step may do

  ghost predicate RowContinues(a: Attempt, b: Attempt) {
    && b.listing == a.listing && b.owner == a.owner && b.vehicle == a.vehicle && b.number == a.number
    && b.identityAttempt == a.identityAttempt && b.identityVersion == a.identityVersion
    && b.vehicleIdentityVersion == a.vehicleIdentityVersion && b.hashVersion == a.hashVersion && b.basis == a.basis
    && (a.supersededAt.Some? ==> b.supersededAt.Some?)
    && (a.reference.Some? ==> b.reference == a.reference)
    && (Idv.Terminal(a.status) ==> b == a.(supersededAt := b.supersededAt))
    && (a.supersededAt.Some? && b.status == Verified ==> a.status == Verified)
  }

  ghost predicate ListingContinues(l: Listing, m: Listing) {
    && m.ownerUser == l.ownerUser && m.ownerOrganization == l.ownerOrganization && m.vehicleType == l.vehicleType
    && (l.vehicle.Some? ==> m.vehicle == l.vehicle)
    && m.version >= l.version
  }

  ghost predicate RowsContinue(a: seq<Attempt>, b: seq<Attempt>) {
    |a| <= |b| && forall i | 0 <= i < |a| :: RowContinues(a[i], b[i])
  }

  ghost predicate ListingsContinue(a: seq<Listing>, b: seq<Listing>) {
    |a| <= |b| && forall l | 0 <= l < |a| :: ListingContinues(a[l], b[l])
  }

  ghost predicate Continues(s: State, t: State) {
    && s.clock <= t.clock
    && Idv.Continues(s.identity, t.identity)
    && Registry.OnlyFills(s.vehicles, t.vehicles)
    && ListingsContinue(s.listings, t.listings)
    && RowsContinue(s.attempts, t.attempts)
    && s.reuses <= t.reuses
  }

  // -------------------------------------------------------------------- attempt table lemmas

  lemma HasNumberKept(a: seq<Attempt>, b: seq<Attempt>, owner: Id, vehicle: Id, k: nat)
    requires HasNumber(a, owner, vehicle, k) && RowsContinue(a, b)
    ensures HasNumber(b, owner, vehicle, k)
  {
    var i :| 0 <= i < |a| && InGroup(a[i], owner, vehicle) && a[i].number == k;
    assert RowContinues(a[i], b[i]);
    assert InGroup(b[i], owner, vehicle);
  }

  /** Rewriting one row along `RowContinues` keeps the chain. */
  lemma UpdateKeepsChain(rows: seq<Attempt>, id: Id, a: Attempt)
    requires Chained(rows) && id < |rows| && RowContinues(rows[id], a)
    ensures Chained(rows[id := a])
  {
    var later := rows[id := a];
    assert RowsContinue(rows, later);
    forall i, k: nat | 0 <= i < |later| && 1 <= k < later[i].number
      ensures HasNumber(later, later[i].owner, later[i].vehicle, k)
    {
      HasNumberKept(rows, later, rows[i].owner, rows[i].vehicle, k);
    }
  }

  lemma SupersedeLatest(rows: seq<Attempt>, owner: Id, vehicle: Id, now: Time)
    requires Chained(rows)
    ensures var latest := Newest(rows, owner, vehicle, false);
            var kept := if latest.Some? then Supersede(rows, latest.value, now) else rows;
            && Chained(kept) && RowsContinue(rows, kept) && |kept| == |rows|
            && forall i | 0 <= i < |kept| && InGroup(kept[i], owner, vehicle) ::
                 kept[i].supersededAt.Some? && kept[i].number < NextNumber(rows, owner, vehicle)
  {
    var latest := Newest(rows, owner, vehicle, false);
    if latest.Some? {
      UpdateKeepsChain(rows, latest.value, rows[latest.value].(supersededAt := Some(now)));
      var kept := Supersede(rows, latest.value, now);
      forall i | 0 <= i < |kept| && InGroup(kept[i], owner, vehicle)
        ensures kept[i].supersededAt.Some? && kept[i].number < NextNumber(rows, owner, vehicle)
      {
        assert Wanted(rows[i], owner, vehicle, false);
        assert i == latest.value || (SameGroup(rows[i], rows[latest.value])
            && rows[i].number != rows[latest.value].number);
      }
    }
  }

  lemma AppendKeepsChain(kept: seq<Attempt>, row: Attempt)
    requires Chained(kept)
    requires forall i | 0 <= i < |kept| && InGroup(kept[i], row.owner, row.vehicle) ::
               kept[i].supersededAt.Some? && kept[i].number < row.number
    requires forall k: nat | 1 <= k < row.number :: HasNumber(kept, row.owner, row.vehicle, k)
    ensures Chained(kept + [row]) && RowsContinue(kept, kept + [row])
  {
    var later := kept + [row];
    assert RowsContinue(kept, later);
    forall i, k: nat | 0 <= i < |later| && 1 <= k < later[i].number
      ensures HasNumber(later, later[i].owner, later[i].vehicle, k)
    {
      HasNumberKept(kept, later, later[i].owner, later[i].vehicle, k);
    }
  }

  lemma AllLowerNumbersUsed(rows: seq<Attempt>, owner: Id, vehicle: Id, k: nat)
    requires Chained(rows) && 1 <= k < NextNumber(rows, owner, vehicle)
    ensures HasNumber(rows, owner, vehicle, k)
  {
    var latest := Newest(rows, owner, vehicle, false).value;
    if k == rows[latest].number { assert InGroup(rows[latest], owner, vehicle); }
  }

  lemma NewAttemptKeepsChain(
      cfg: Config, rows: seq<Attempt>, now: Time, listing: Id, owner: Id, vehicle: Id, v: Vehicle, p: Idv.Projection,
          basis: Basis)
    requires Chained(rows)
    ensures var later := NewAttempt(cfg, rows, now, listing, owner, vehicle, v, p, basis);
            Chained(later) && RowsContinue(rows, later) && |later| == |rows| + 1
  {
    hide Chained, FirstRow;
    var latest := Newest(rows, owner, vehicle, false);
    var kept := if latest.Some? then Supersede(rows, latest.value, now) else rows;
    SupersedeLatest(rows, owner, vehicle, now);
    var row := FirstRow(cfg, NextNumber(rows, owner, vehicle), listing, owner, vehicle, v, p, basis);
    assert InGroup(row, owner, vehicle) && row.number == NextNumber(rows, owner, vehicle) by {
      FirstRowFields(cfg, NextNumber(rows, owner, vehicle), listing, owner, vehicle, v, p, basis);
    }
    forall k: nat | 1 <= k < row.number ensures HasNumber(kept, owner, vehicle, k) {
      AllLowerNumbersUsed(rows, owner, vehicle, k);
      HasNumberKept(rows, kept, owner, vehicle, k);
    }
    AppendKeepsChain(kept, row);
    RowsContinueTransitive(rows, kept, kept + [row]);
  }

  lemma FirstRowFields(cfg: Config, number: nat, listing: Id, owner: Id, vehicle: Id, v: Vehicle, p: Idv.Projection,
      basis: Basis)
    ensures var row := FirstRow(cfg, number, listing, owner, vehicle, v, p, basis);
            && InGroup(row, owner, vehicle) && row.number == number && row.listing == listing
            && row.identityAttempt == p.current && row.identityVersion == p.version
            && row.vehicleIdentityVersion == v.identityVersion && row.hashVersion == v.hashVersion
            && row.reference.None? && row.resultEvent.None? && EvidenceConstraints(row)
  {}

  lemma RowsContinueTransitive(a: seq<Attempt>, b: seq<Attempt>, c: seq<Attempt>)
    requires RowsContinue(a, b) && RowsContinue(b, c)
    ensures RowsContinue(a, c)
  {
    forall i | 0 <= i < |a| ensures RowContinues(a[i], c[i]) {
      assert RowContinues(a[i], b[i]) && RowContinues(b[i], c[i]);
    }
  }

  lemma {:induction false} GroupEvidenceMeaning(rows: seq<Attempt>, owner: Id, vehicle: Id)
    ensures forall e :: e in GroupEvidence(rows, owner, vehicle) <==>
              e.attempt < |rows| && InGroup(rows[e.attempt], owner, vehicle)
                  && e == EvidenceOf(e.attempt, rows[e.attempt])
  {
    if rows != [] {
      var n := |rows| - 1;
      GroupEvidenceMeaning(rows[..n], owner, vehicle);
    }
  }

  lemma {:induction false} PrefixDistinct(rows: seq<Attempt>, n: nat, owner: Id, vehicle: Id)
    requires Chained(rows) && n <= |rows|
    ensures DistinctNumbers(GroupEvidence(rows[..n], owner, vehicle))
  {
    if n > 0 {
      assert rows[..n][..n - 1] == rows[..n - 1];
      PrefixDistinct(rows, n - 1, owner, vehicle);
      var rest := GroupEvidence(rows[..n - 1], owner, vehicle);
      GroupEvidenceMeaning(rows[..n - 1], owner, vehicle);
      if InGroup(rows[n - 1], owner, vehicle) {
        forall j | 0 <= j < |rest| ensures rest[j].number != rows[n - 1].number {
          assert rest[j] in rest;
          assert SameGroup(rows[rest[j].attempt], rows[n - 1]);
        }
      }
    }
  }

  // -------------------------------------------------------------------- one step

  /** A new attempt table is all that changed. */
  lemma AttemptsOnly(s: State, rows: seq<Attempt>)
    requires Inv(s) && RowsContinue(s.attempts, rows)
    requires Chained(rows) && Unique(rows) && forall i | 0 <= i < |rows| :: RowValid(s, rows[i])
    ensures Inv(s.(attempts := rows)) && Continues(s, s.(attempts := rows))
  {
    hide Idv.Inv, Registry.Inv, Chained, Unique, EvidenceConstraints, BoundTo;
    Idv.ContinuesReflexive(s.identity);
  }

  lemma UpdateRow(s: State, id: Id, a: Attempt)
    requires Inv(s) && id < |s.attempts| && RowContinues(s.attempts[id], a) && EvidenceConstraints(a)
    requires a.reference.Some? ==> forall i | 0 <= i < |s.attempts| && i != id :: s.attempts[i].reference != a.reference
    requires a.resultEvent.Some? ==> forall i | 0 <= i < |s.attempts| && i != id ::
        s.attempts[i].resultEvent != a.resultEvent
    ensures var t := s.(attempts := s.attempts[id := a]); Inv(t) && Continues(s, t)
  {
    var rows := s.attempts[id := a];
    InvParts(s);
    hide Inv, Continues, EvidenceConstraints, Chained, BoundTo;
    UpdateKeepsChain(s.attempts, id, a);
    UpdateKeepsUnique(s.attempts, id, a);
    assert RowValid(s, a);
    AttemptsOnly(s, rows);
  }

  lemma UpdateKeepsUnique(rows: seq<Attempt>, id: Id, a: Attempt)
    requires Unique(rows) && id < |rows|
    requires a.reference.Some? ==> forall i | 0 <= i < |rows| && i != id :: rows[i].reference != a.reference
    requires a.resultEvent.Some? ==> forall i | 0 <= i < |rows| && i != id :: rows[i].resultEvent != a.resultEvent
    ensures Unique(rows[id := a])
  {}

  lemma InvParts(s: State)
    requires Inv(s)
    ensures Idv.Inv(s.identity) && Registry.Inv(s.vehicles) && Chained(s.attempts) && Unique(s.attempts)
    ensures forall i | 0 <= i < |s.attempts| :: RowValid(s, s.attempts[i]) && EvidenceConstraints(s.attempts[i])
  {}

  lemma SupersedeRow(s: State, id: Id, now: Time)
    requires Inv(s) && id < |s.attempts|
    ensures var t := s.(attempts := Supersede(s.attempts, id, now)); Inv(t) && Continues(s, t)
  {
    InvParts(s);
    hide Inv, Continues, Chained;
    UpdateRow(s, id, s.attempts[id].(supersededAt := Some(now)));
  }

  lemma NewAttemptStep(cfg: Config, s: State, listing: Id, owner: Id, vehicle: Id, p: Idv.Projection, basis: Basis)
    requires Inv(s) && listing < |s.listings| && vehicle < |s.vehicles|
    requires Idv.Projected(s.identity, owner) == Some(p) && p.status == Verified
    ensures var t := s.(attempts := NewAttempt(cfg, s.attempts, s.clock, listing, owner, vehicle, s.vehicles[vehicle],
        p, basis));
            Inv(t) && Continues(s, t)
  {
    InvParts(s);
    hide Inv, Continues, Chained, EvidenceConstraints;
    var rows := NewAttempt(cfg, s.attempts, s.clock, listing, owner, vehicle, s.vehicles[vehicle], p, basis);
    NewAttemptKeepsChain(cfg, s.attempts, s.clock, listing, owner, vehicle, s.vehicles[vehicle], p, basis);
    FirstRowFields(cfg, NextNumber(s.attempts, owner, vehicle), listing, owner, vehicle, s.vehicles[vehicle], p, basis);
    Idv.ProjectionsAreNumbered(s.identity, owner);
    assert VehicleValid(s.vehicles[vehicle]) by { VehiclesValid(s); }
    NewAttemptRowsValid(cfg, s, listing, owner, vehicle, p, basis);
    AttemptsOnly(s, rows);
  }

  lemma VehiclesValid(s: State)
    requires Inv(s)
    ensures forall v | 0 <= v < |s.vehicles| :: VehicleValid(s.vehicles[v])
  {}

  lemma NewAttemptRowsValid(cfg: Config, s: State, listing: Id, owner: Id, vehicle: Id, p: Idv.Projection, basis: Basis)
    requires listing < |s.listings| && vehicle < |s.vehicles| && VehicleValid(s.vehicles[vehicle]) && p.version >= 1
    requires Unique(s.attempts) && forall i | 0 <= i < |s.attempts| :: RowValid(s, s.attempts[i])
    requires Idv.Projected(s.identity, owner) == Some(p) && p.status == Verified
    ensures var rows := NewAttempt(cfg, s.attempts, s.clock, listing, owner, vehicle, s.vehicles[vehicle], p, basis);
            Unique(rows) && forall i | 0 <= i < |rows| :: RowValid(s, rows[i])
  {
    hide FirstRow, Idv.Projected;
    FirstRowFields(cfg, NextNumber(s.attempts, owner, vehicle), listing, owner, vehicle, s.vehicles[vehicle], p, basis);
    var latest := Newest(s.attempts, owner, vehicle, false);
    if latest.Some? { assert RowValid(s, s.attempts[latest.value].(supersededAt := Some(s.clock))); }
  }

  lemma IdentityStep(s: State, a: Idv.Action)
    requires Inv(s)
    ensures var t := s.(identity := Idv.Step(s.identity, a)); Inv(t) && Continues(s, t)
  {
    hide Idv.Step, Idv.Inv, Registry.Inv, Chained, Unique, EvidenceConstraints;
    Idv.StepKeepsInv(s.identity, a);
    Idv.StepContinues(s.identity, a);
    var t := s.(identity := Idv.Step(s.identity, a));
    forall i | 0 <= i < |t.attempts| ensures RowValid(t, t.attempts[i]) {
      assert RowValid(s, s.attempts[i]);
      BoundKept(s.attempts[i], s.identity, t.identity);
    }
  }

  lemma BoundKept(a: Attempt, i: Idv.State, j: Idv.State)
    requires Idv.Continues(i, j) && BoundTo(a, Idv.Projected(i, a.owner))
    ensures BoundTo(a, Idv.Projected(j, a.owner))
  {
    assert Idv.ProjectionContinues(i.projections[a.owner], j.projections[a.owner]);
  }

  lemma ResolvedVehiclesValid(s: State, r: Registry.Request)
    requires Inv(s) && Registry.IsKey(r.key) && r.key.hashVersion >= 1
    ensures var vehicles := Registry.Resolve(s.vehicles, r.vehicleType, r.key).0;
            forall v | 0 <= v < |vehicles| :: VehicleValid(vehicles[v])
  {
    VehiclesValid(s);
    Registry.ResolveStep(s.vehicles, r);
    hide Inv, Registry.Inv, Registry.Resolve, Registry.IsKey;
    var vehicles := Registry.Resolve(s.vehicles, r.vehicleType, r.key).0;
    forall v | 0 <= v < |vehicles| ensures VehicleValid(vehicles[v]) {
      if v < |s.vehicles| { assert Registry.Filled(s.vehicles[v], vehicles[v]); }
    }
  }

  /** Resolving a vehicle and tying the listing to it. */
  lemma AssociateStep(s: State, r: Registry.Request, listing: Id)
    requires Inv(s) && Registry.IsKey(r.key) && r.key.hashVersion >= 1 && listing < |s.listings|
    requires var (vehicles, out) := Registry.Resolve(s.vehicles, r.vehicleType, r.key);
             out.Resolved? && s.listings[listing].vehicle in {None, Some(out.vehicle)}
    ensures var (vehicles, out) := Registry.Resolve(s.vehicles, r.vehicleType, r.key);
            var t := Associated(s, vehicles, listing, out.vehicle);
            && Inv(t) && Continues(s, t)
            && t.identity == s.identity && t.clock == s.clock && out.vehicle < |t.vehicles|
            && |t.listings| == |s.listings|
  {
    hide Registry.Resolve, Registry.Inv, Registry.IsKey, Idv.Inv, Chained, Unique, EvidenceConstraints, BoundTo;
    ResolvedVehiclesValid(s, r);
    Registry.ResolveStep(s.vehicles, r);
    Registry.ResolveKeepsKeysUnique(s.vehicles, r);
    Idv.ContinuesReflexive(s.identity);
    var (vehicles, out) := Registry.Resolve(s.vehicles, r.vehicleType, r.key);
    var t := Associated(s, vehicles, listing, out.vehicle);
    forall i | 0 <= i < |t.attempts| ensures RowValid(t, t.attempts[i]) {
      assert RowValid(s, s.attempts[i]);
      assert Registry.Filled(s.vehicles[s.attempts[i].vehicle], vehicles[s.attempts[i].vehicle]);
    }
    hide RowValid, VehicleValid;
  }

  lemma ContinuesTransitive(s: State, t: State, u: State)
    requires Continues(s, t) && Continues(t, u)
    ensures Continues(s, u)
  {
    Idv.ContinuesTransitive(s.identity, t.identity, u.identity);
    RowsContinueTransitive(s.attempts, t.attempts, u.attempts);
    hide RowsContinue, Idv.Continues;
    forall i | 0 <= i < |s.vehicles| ensures Registry.Filled(s.vehicles[i], u.vehicles[i]) {
      assert Registry.Filled(s.vehicles[i], t.vehicles[i]) && Registry.Filled(t.vehicles[i], u.vehicles[i]);
    }
    forall l | 0 <= l < |s.listings| ensures ListingContinues(s.listings[l], u.listings[l]) {
      assert ListingContinues(s.listings[l], t.listings[l]) && ListingContinues(t.listings[l], u.listings[l]);
    }
  }

  lemma OpenAttemptStep(cfg: Config, s: State, listing: Id, actor: Id, vehicle: Id, p: Idv.Projection, basis: Basis)
    requires Inv(s) && listing < |s.listings| && vehicle < |s.vehicles|
    requires Idv.Projected(s.identity, actor) == Some(p) && p.status == Verified
    ensures var t := OpenAttempt(cfg, s, listing, actor, vehicle, p, basis).0; Inv(t) && Continues(s, t)
  {
    hide Inv, Continues, NewAttempt;
    ContinuesReflexive(s);
    var active := Newest(s.attempts, actor, vehicle, true);
    if active.Some? && IdentityStale(s.attempts[active.value], p) {
      SupersedeRow(s, active.value, s.clock);
      var kept := s.(attempts := Supersede(s.attempts, active.value, s.clock));
      NewAttemptStep(cfg, kept, listing, actor, vehicle, p, basis);
      ContinuesTransitive(s, kept, OpenAttempt(cfg, s, listing, actor, vehicle, p, basis).0);
    } else if active.None? {
      NewAttemptStep(cfg, s, listing, actor, vehicle, p, basis);
    }
  }

  lemma ContinuesReflexive(s: State)
    ensures Continues(s, s)
  {
    Idv.ContinuesReflexive(s.identity);
  }

  lemma ClaimForStep(cfg: Config, s: State, listing: Id, actor: Id, vehicle: Id, basis: Basis)
    requires Inv(s)
    requires Idv.Projected(s.identity, actor).Some? ==> Idv.Projected(s.identity, actor).value.status == Verified
    ensures var t := ClaimFor(cfg, s, listing, actor, vehicle, basis).0; Inv(t) && Continues(s, t)
  {
    ContinuesReflexive(s);
    hide Inv, Continues, OpenAttempt, cfg.policy.Select, GroupEvidence, ContextFor;
    if listing < |s.listings| && vehicle < |s.vehicles| && Idv.Projected(s.identity, actor).Some? {
      var p := Idv.Projected(s.identity, actor).value;
      OpenAttemptStep(cfg, s, listing, actor, vehicle, p, basis);
      var selection := cfg.policy.Select(
        ContextFor(s.clock, p, actor, vehicle, s.vehicles[vehicle], s.listings[listing], basis),
        GroupEvidence(s.attempts, actor, vehicle), listing);
      if selection.evidence.Some? && Reuse(listing, selection.evidence.value.attempt) !in s.reuses {
        ReuseStep(s, Reuse(listing, selection.evidence.value.attempt));
      }
    }
  }

  lemma ReuseStep(s: State, reuse: Reuse)
    requires Inv(s) && reuse !in s.reuses
    ensures var t := s.(reuses := s.reuses + [reuse]); Inv(t) && Continues(s, t)
  {
    hide Idv.Inv, Registry.Inv, Chained, Unique, EvidenceConstraints, BoundTo;
    Idv.ContinuesReflexive(s.identity);
  }

  lemma BeginStep(cfg: Config, s: State, actor: Id, listing: Id, r: StartRequest)
    requires Inv(s)
    ensures var t := ClaimAttempt(cfg, s, actor, listing, r).0; Inv(t) && Continues(s, t)
  {
    ContinuesReflexive(s);
    hide Inv, Continues, ClaimFor, Associated, Registry.Resolve;
    if RequestRefusal(s, actor, listing, r).None? {
      var request := Registry.Request(s.listings[listing].vehicleType, Key(r.identity, cfg.hashVersion));
      assert Registry.Normal(r.identity) && Registry.IsKey(request.key);
      var (vehicles, out) := Registry.Resolve(s.vehicles, request.vehicleType, request.key);
      if out.Resolved? && s.listings[listing].vehicle in {None, Some(out.vehicle)} {
        AssociateStep(s, request, listing);
        var mid := Associated(s, vehicles, listing, out.vehicle);
        ClaimForStep(cfg, mid, listing, actor, out.vehicle, r.basis);
        ContinuesTransitive(s, mid, ClaimFor(cfg, mid, listing, actor, out.vehicle, r.basis).0);
      }
    }
  }

  lemma SessionReadyStep(s: State, id: Id, reference: nat)
    requires Inv(s)
    ensures var t := FinalizeSession(s, id, reference).0; Inv(t) && Continues(s, t)
  {
    ContinuesReflexive(s);
    InvParts(s);
    hide Inv, Continues, Chained;
    if id < |s.attempts| && ReferenceFree(s.attempts, id, reference) {
      var a := s.attempts[id];
      if (a.status == SessionPending || a.status == Pending) && (a.reference.Some? ==> a.reference.value == reference) {
        UpdateRow(s, id, a.(reference := Some(reference), status := Pending));
      }
    }
  }

  lemma SessionFailedStep(s: State, id: Id, failure: Idv.SuppliedCode)
    requires Inv(s)
    ensures var t := FinalizeSessionFailure(s, id, failure).0; Inv(t) && Continues(s, t)
  {
    ContinuesReflexive(s);
    InvParts(s);
    hide Inv, Continues, Chained;
    if id < |s.attempts| && s.attempts[id].status == SessionPending {
      UpdateRow(s, id, s.attempts[id].(status := Failed, failure := Some(SafeFailureCode(failure))));
    }
  }

  lemma AppliedKeeps(cfg: Config, s: State, id: Id, r: ProviderResult)
    requires Inv(s) && ResultValid(r) && id < |s.attempts| && s.attempts[id].vehicle < |s.vehicles|
    requires Disposition(s, id, r) == Idv.Applied && ByResultEvent(s.attempts, r.event).None?
    ensures var a := WithResult(cfg, s.attempts[id], s.vehicles[s.attempts[id].vehicle], r);
            var t := s.(attempts := s.attempts[id := a]);
            Inv(t) && Continues(s, t)
  {
    InvParts(s);
    hide Inv, Continues, Chained, BoundTo, ResultMatches;
    UpdateRow(s, id, WithResult(cfg, s.attempts[id], s.vehicles[s.attempts[id].vehicle], r));
  }

  /** A result leaves the state as it is, supersedes its stale row, or is applied to it. */
  lemma ResultShape(cfg: Config, s: State, r: ProviderResult)
    requires forall i | 0 <= i < |s.attempts| :: s.attempts[i].vehicle < |s.vehicles|
    ensures var t := ApplyProviderResult(cfg, s, r).0;
            var target := ByReference(s.attempts, r.reference);
            || t == s
            || (target.Some? && t == s.(attempts := Supersede(s.attempts, target.value, s.clock)))
            || (&& target.Some? && ResultValid(r) && ByResultEvent(s.attempts, r.event).None?
                && Disposition(s, target.value, r) == Idv.Applied
                && var a := s.attempts[target.value];
                   t == s.(attempts := s.attempts[target.value := WithResult(cfg, a, s.vehicles[a.vehicle], r)]))
  {
    hide ResultMatches, Disposition, WithResult, ResultValid;
    var target := ByReference(s.attempts, r.reference);
    if target.Some? { assert s.attempts[target.value := s.attempts[target.value]] == s.attempts; }
  }

  lemma ResultStep(cfg: Config, s: State, r: ProviderResult)
    requires Inv(s)
    ensures var t := ApplyProviderResult(cfg, s, r).0; Inv(t) && Continues(s, t)
  {
    ContinuesReflexive(s);
    InvParts(s);
    hide Inv, Continues, Chained, BoundTo, EvidenceConstraints, Unique, Disposition, WithResult, ResultValid, Supersede,
        ApplyProviderResult;
    ResultShape(cfg, s, r);
    var target := ByReference(s.attempts, r.reference);
    if target.Some? {
      SupersedeRow(s, target.value, s.clock);
      if ResultValid(r) && Disposition(s, target.value, r) == Idv.Applied && ByResultEvent(s.attempts, r.event).None? {
        AppliedKeeps(cfg, s, target.value, r);
      }
    }
  }

  /** Listings come and change, time passes: the attempts do not notice. */
  lemma ElsewhereStep(cfg: Config, s: State, a: Action)
    requires Inv(s) && (a.CreateListing? || a.EditListing? || a.Tick?)
    ensures Inv(Step(cfg, s, a)) && Continues(s, Step(cfg, s, a))
  {
    var t := Step(cfg, s, a);
    hide Idv.Inv, Registry.Inv, Chained, Unique, EvidenceConstraints, BoundTo, VehicleValid;
    Idv.ContinuesReflexive(s.identity);
    forall i | 0 <= i < |t.attempts| ensures RowValid(t, t.attempts[i]) { assert RowValid(s, s.attempts[i]); }
    hide RowValid, Idv.Continues;
  }

  lemma StepKeeps(cfg: Config, s: State, a: Action)
    requires Inv(s)
    ensures Inv(Step(cfg, s, a)) && Continues(s, Step(cfg, s, a))
  {
    hide Inv, Continues, ClaimAttempt, FinalizeSession, FinalizeSessionFailure, ApplyProviderResult, Idv.ClaimAttempt;
    match a
    case Identity(Start(user, now)) => IdentityStep(s, Idv.Start(user, s.clock));
    case Identity(other) => IdentityStep(s, other);
    case Begin(actor, listing, r) => BeginStep(cfg, s, actor, listing, r);
    case SessionReady(id, reference) => SessionReadyStep(s, id, reference);
    case SessionFailed(id, failure) => SessionFailedStep(s, id, failure);
    case Result(r) => ResultStep(cfg, s, r);
    case _ => ElsewhereStep(cfg, s, a);
  }

  /** Over every run: the invariant holds, and nothing ever un-supersedes, un-settles or
      un-binds a row. */
  lemma {:induction false} RunKeeps(cfg: Config, s: State, actions: seq<Action>)
    requires Inv(s)
    ensures Inv(Run(cfg, s, actions)) && Continues(s, Run(cfg, s, actions))
    decreases |actions|
  {
    hide Step, Inv, Continues;
    if actions == [] {
      ContinuesReflexive(s);
    } else {
      StepKeeps(cfg, s, actions[0]);
      RunKeeps(cfg, Step(cfg, s, actions[0]), actions[1..]);
      ContinuesTransitive(s, Step(cfg, s, actions[0]), Run(cfg, s, actions));
    }
  }

  lemma Reachable(cfg: Config, users: seq<bool>, clock: Time, actions: seq<Action>)
    ensures Inv(Run(cfg, Initial(users, clock), actions))
  {
    RunKeeps(cfg, Initial(users, clock), actions);
  }

  // -------------------------------------------------------------------- eligibility over time

  ghost predicate NewerOpen(rows: seq<Attempt>, id: Id)
    requires id < |rows|
  {
    exists j :: 0 <= j < |rows| && SameGroup(rows[j], rows[id]) && rows[j].number > rows[id].number
                && rows[j].supersededAt.None?
  }

  /** Attempt `id` proves ownership for `listing` on `basis` in state `s`, by the reuse policy. */
  ghost predicate Eligible(cfg: Config, s: State, id: Id, listing: Id, basis: Basis) {
    && id < |s.attempts| && listing < |s.listings|
    && var a := s.attempts[id];
    && var p := Idv.Projected(s.identity, a.owner);
    && p.Some? && a.vehicle < |s.vehicles|
    && cfg.policy.Refusal(
         ContextFor(s.clock, p.value, a.owner, a.vehicle, s.vehicles[a.vehicle], s.listings[listing], basis),
         EvidenceOf(id, a), NewerOpen(s.attempts, id), a.listing != listing).None?
  }

  /** What a refusal-free row says, listed without the order in which the policy asks. */
  lemma EligibleParts(cfg: Config, s: State, id: Id, listing: Id, basis: Basis)
    requires Inv(s) && id < |s.attempts| && listing < |s.listings|
    ensures var a := s.attempts[id];
            var p := Idv.Projected(s.identity, a.owner);
            Eligible(cfg, s, id, listing, basis) <==>
            && a.status == Verified && a.supersededAt.None?
            && PersonalListing(s.listings[listing], a.owner)
            && a.verifiedAt.Some? && a.expiresAt.Some? && s.clock < a.expiresAt.value
            && (a.listing != listing ==> s.clock < a.verifiedAt.value + cfg.policy.freshnessDays * 86_400)
            && p.Some? && p.value.version == a.identityVersion && IdentityValid(p.value, s.clock)
            && s.vehicles[a.vehicle].status == Active
            && a.basis == basis
            && FingerprintValid(a.fingerprint)
  {
    InvParts(s);
    var a := s.attempts[id];
    assert RowValid(s, a);
    if a.supersededAt.None? { assert !NewerOpen(s.attempts, id) by { NothingNewer(s, id); } }
    hide Inv, NewerOpen, FingerprintValid, PersonalListing, Chained, Unique;
  }

  lemma NothingNewer(s: State, id: Id)
    requires Chained(s.attempts) && id < |s.attempts| && s.attempts[id].supersededAt.None?
    ensures forall j | 0 <= j < |s.attempts| && SameGroup(s.attempts[j], s.attempts[id]) ::
              s.attempts[j].number <= s.attempts[id].number
  {
    forall j | 0 <= j < |s.attempts| && SameGroup(s.attempts[j], s.attempts[id])
      ensures s.attempts[j].number <= s.attempts[id].number
    {
      assert SameGroup(s.attempts[id], s.attempts[j]);
    }
  }

  /** If the proof counts later, it counts now: eligibility is only ever lost. */
  lemma EligibleEarlier(cfg: Config, s: State, t: State, id: Id, listing: Id, basis: Basis)
    requires cfg.policy.Valid() && Inv(s) && Inv(t) && Continues(s, t)
    requires id < |s.attempts| && s.attempts[id].status == Verified && listing < |s.listings|
    requires Eligible(cfg, t, id, listing, basis)
    ensures Eligible(cfg, s, id, listing, basis)
  {
    EligibleParts(cfg, s, id, listing, basis);
    EligibleParts(cfg, t, id, listing, basis);
    InvParts(s);
    hide Inv, Eligible, Idv.Inv, FingerprintValid, Chained, Unique;
    var a, b := s.attempts[id], t.attempts[id];
    assert RowContinues(a, b) && RowValid(s, a);
    assert ListingContinues(s.listings[listing], t.listings[listing]);
    assert Registry.Filled(s.vehicles[a.vehicle], t.vehicles[a.vehicle]);
    assert Idv.ProjectionContinues(s.identity.projections[a.owner], t.identity.projections[a.owner]);
  }

  /** Once a verified attempt no longer proves ownership for a listing on a basis, it never will
      again: through every run of identity and ownership activity, edits and passing time. */
  lemma LostEligibilityIsPermanent(cfg: Config, s: State, id: Id, listing: Id, basis: Basis, actions: seq<Action>)
    requires cfg.policy.Valid() && Inv(s)
    requires id < |s.attempts| && s.attempts[id].status == Verified && listing < |s.listings|
    requires !Eligible(cfg, s, id, listing, basis)
    ensures !Eligible(cfg, Run(cfg, s, actions), id, listing, basis)
  {
    RunKeeps(cfg, s, actions);
    var t := Run(cfg, s, actions);
    if Eligible(cfg, t, id, listing, basis) {
      EligibleEarlier(cfg, s, t, id, listing, basis);
    }
  }

  /** Whatever changes a user's identity projection ends every ownership proof the user had. */
  lemma IdentityChangeEndsProofs(cfg: Config, s: State, a: Idv.Action, id: Id, listing: Id, basis: Basis,
      actions: seq<Action>)
    requires cfg.policy.Valid() && Inv(s) && id < |s.attempts|
    requires var owner := s.attempts[id].owner;
             Idv.Projected(Step(cfg, s, Identity(a)).identity, owner) != Idv.Projected(s.identity, owner)
    ensures !Eligible(cfg, Run(cfg, Step(cfg, s, Identity(a)), actions), id, listing, basis)
  {
    var t := Step(cfg, s, Identity(a));
    StepKeeps(cfg, s, Identity(a));
    RunKeeps(cfg, t, actions);
    var u := Run(cfg, t, actions);
    InvParts(s);
    hide Inv, Step, Run, Idv.Inv, Chained, Unique, EvidenceConstraints;
    var row := s.attempts[id];
    assert RowValid(s, row) && RowContinues(row, t.attempts[id]) && RowContinues(t.attempts[id], u.attempts[id]);
    assert Idv.ProjectionContinues(s.identity.projections[row.owner], t.identity.projections[row.owner]);
    assert Idv.ProjectionContinues(t.identity.projections[row.owner], u.identity.projections[row.owner]);
    if listing < |u.listings| { EligibleParts(cfg, u, id, listing, basis); }
  }

  /** The policy run over the whole group returns a row exactly when that row is eligible; it is
      the newest of its group, and "reused" says whether it belongs to another listing. */
  lemma SelectionIsTheEligibleRow(cfg: Config, s: State, owner: Id, vehicle: Id, listing: Id, basis: Basis, id: Id)
    requires Inv(s) && listing < |s.listings| && vehicle < |s.vehicles| && Idv.Projected(s.identity, owner).Some?
    requires id < |s.attempts| && InGroup(s.attempts[id], owner, vehicle)
    ensures var c := ContextFor(s.clock, Idv.Projected(s.identity, owner).value, owner, vehicle,
                                s.vehicles[vehicle], s.listings[listing], basis);
            var sel := cfg.policy.Select(c, GroupEvidence(s.attempts, owner, vehicle), listing);
            && (sel.evidence == Some(EvidenceOf(id, s.attempts[id])) <==> Eligible(cfg, s, id, listing, basis))
            && (sel.evidence.Some? ==>
                  && sel.evidence.value.attempt < |s.attempts|
                  && Eligible(cfg, s, sel.evidence.value.attempt, listing, basis)
                  && sel.decision.reused == (s.attempts[sel.evidence.value.attempt].listing != listing)
                  && forall j | 0 <= j < |s.attempts| && InGroup(s.attempts[j], owner, vehicle) ::
                       s.attempts[j].number <= sel.evidence.value.number)
  {
    InvParts(s);
    var p := Idv.Projected(s.identity, owner).value;
    var c := ContextFor(s.clock, p, owner, vehicle, s.vehicles[vehicle], s.listings[listing], basis);
    var group := GroupEvidence(s.attempts, owner, vehicle);
    var newest := Newest(s.attempts, owner, vehicle, false).value;
    hide Inv, cfg.policy.Select, cfg.policy.Refusal, FingerprintValid, ContextFor, Idv.Projected;
    GroupEvidenceMeaning(s.attempts, owner, vehicle);
    assert s.attempts[..|s.attempts|] == s.attempts;
    PrefixDistinct(s.attempts, |s.attempts|, owner, vehicle);
    var top := EvidenceOf(newest, s.attempts[newest]);
    assert top in group;
    GroupChained(s, owner, vehicle);
    SelectLooksAtNewestOnly(cfg.policy, c, group, listing, top);
    assert id != newest ==> s.attempts[id].number < s.attempts[newest].number by {
      assert id != newest ==> SameGroup(s.attempts[id], s.attempts[newest]);
      assert Wanted(s.attempts[id], owner, vehicle, false);
    }
    RefusalNone(cfg.policy, c, EvidenceOf(id, s.attempts[id]), NewerOpen(s.attempts, id),
        s.attempts[id].listing != listing);
    RefusalNone(cfg.policy, c, top, NewerOpen(s.attempts, newest), s.attempts[newest].listing != listing);
    NewestHasNothingNewer(s, owner, vehicle, newest);
    if id != newest { assert SameGroup(s.attempts[id], s.attempts[newest]); }
  }

  lemma NewestHasNothingNewer(s: State, owner: Id, vehicle: Id, newest: Id)
    requires Newest(s.attempts, owner, vehicle, false) == Some(newest)
    ensures newest < |s.attempts| && !NewerOpen(s.attempts, newest)
    ensures forall j | 0 <= j < |s.attempts| && InGroup(s.attempts[j], owner, vehicle) ::
              s.attempts[j].number <= s.attempts[newest].number
  {
    assert forall j | 0 <= j < |s.attempts| && InGroup(s.attempts[j], owner, vehicle) ::
        Wanted(s.attempts[j], owner, vehicle, false);
    assert forall j | 0 <= j < |s.attempts| && SameGroup(s.attempts[j], s.attempts[newest]) ::
        InGroup(s.attempts[j], owner, vehicle);
  }

  /** Supersession kept by the service is what the policy's characterisation asks for. */
  lemma GroupChained(s: State, owner: Id, vehicle: Id)
    requires Chained(s.attempts)
    ensures OnlyNewestUnsuperseded(GroupEvidence(s.attempts, owner, vehicle))
    ensures var newest := Newest(s.attempts, owner, vehicle, false);
            newest.Some? ==> forall e | e in GroupEvidence(s.attempts, owner, vehicle) ::
                e.number <= s.attempts[newest.value].number
  {
    GroupEvidenceMeaning(s.attempts, owner, vehicle);
    var group := GroupEvidence(s.attempts, owner, vehicle);
    forall e, f | e in group && f in group && e.supersededAt.None? ensures f.number <= e.number {
      assert SameGroup(s.attempts[e.attempt], s.attempts[f.attempt]);
    }
    var newest := Newest(s.attempts, owner, vehicle, false);
    if newest.Some? {
      forall e | e in group ensures e.number <= s.attempts[newest.value].number {
        assert Wanted(s.attempts[e.attempt], owner, vehicle, false);
      }
    }
  }

  ghost predicate TurnsVerified(s: State, t: State, id: Id) {
    id < |s.attempts| && id < |t.attempts| && s.attempts[id].status != Verified && t.attempts[id].status == Verified
  }

  /** An attempt turns verified only while it is current, open and bound to a live identity, and
      only by a provider result, whose time it then carries. */
  lemma VerifiedOnlyWhileBound(cfg: Config, s: State, a: Action, id: Id)
    requires Inv(s) && TurnsVerified(s, Step(cfg, s, a), id)
    ensures a.Result? && s.attempts[id].status == Pending && s.attempts[id].supersededAt.None?
    ensures !IsStale(s, id) && !NewerOpen(s.attempts, id)
    ensures Step(cfg, s, a).attempts[id].verifiedAt == a.result.verifiedAt
  {
    hide Inv, ClaimAttempt, ApplyProviderResult, FinalizeSession, FinalizeSessionFailure, Idv.Step, Idv.ClaimAttempt,
        IsStale, NewerOpen;
    match a
    case Begin(actor, listing, r) => BeginNeverVerifies(cfg, s, actor, listing, r, id);
    case SessionReady(i, reference) => SessionNeverVerifies(s, i, reference, Idv.Missing, id);
    case SessionFailed(i, failure) => SessionNeverVerifies(s, i, 0, failure, id);
    case Result(r) => ResultVerifiesOnlyBound(cfg, s, r, id);
    case _ =>
  }

  lemma SessionNeverVerifies(s: State, i: Id, reference: nat, failure: Idv.SuppliedCode, id: Id)
    ensures !TurnsVerified(s, FinalizeSession(s, i, reference).0, id)
    ensures !TurnsVerified(s, FinalizeSessionFailure(s, i, failure).0, id)
  {}

  lemma ResultVerifiesOnlyBound(cfg: Config, s: State, r: ProviderResult, id: Id)
    requires Inv(s) && TurnsVerified(s, ApplyProviderResult(cfg, s, r).0, id)
    ensures s.attempts[id].status == Pending && s.attempts[id].supersededAt.None?
    ensures !IsStale(s, id) && !NewerOpen(s.attempts, id)
    ensures ApplyProviderResult(cfg, s, r).0.attempts[id].verifiedAt == r.verifiedAt
  {
    InvParts(s);
    hide Inv, Unique, Chained, EvidenceConstraints, BoundTo;
    if s.attempts[id].supersededAt.None? {
      NothingNewer(s, id);
      assert !NewerOpen(s.attempts, id);
    }
    hide NewerOpen, ResultMatches, ResultValid, Idv.Projected, IdentityValid, IdentityStale, PersonalListing;
  }

  lemma BeginNeverVerifies(cfg: Config, s: State, actor: Id, listing: Id, r: StartRequest, id: Id)
    requires id < |s.attempts|
    ensures var t := ClaimAttempt(cfg, s, actor, listing, r).0;
            id < |t.attempts| && t.attempts[id].status == s.attempts[id].status
  {
    hide cfg.policy.Select, Registry.Resolve, RequestRefusal, GroupEvidence, ContextFor, FirstRow;
  }

  /** A superseded attempt that was not verified never becomes verified, in any run. */
  lemma SupersededNeverVerified(cfg: Config, s: State, id: Id, actions: seq<Action>)
    requires Inv(s) && id < |s.attempts| && s.attempts[id].supersededAt.Some? && s.attempts[id].status != Verified
    ensures id < |Run(cfg, s, actions).attempts| && Run(cfg, s, actions).attempts[id].status != Verified
  {
    RunKeeps(cfg, s, actions);
    assert RowContinues(s.attempts[id], Run(cfg, s, actions).attempts[id]);
  }

  lemma MatchingRowAnswersDuplicate(cfg: Config, t: State, r: ProviderResult, id: Id)
    requires Inv(t) && ResultValid(r) && id < |t.attempts|
    requires t.attempts[id].reference == Some(r.reference) && ResultMatches(t.attempts[id], r)
    ensures ApplyProviderResult(cfg, t, r) == (t, Idv.Duplicate)
  {
    InvParts(t);
    hide Inv, Chained, IsStale;
    assert ByReference(t.attempts, r.reference) == Some(id);
    assert ByResultEvent(t.attempts, r.event) == Some(id);
  }

  lemma AppliedRow(cfg: Config, s: State, r: ProviderResult)
    requires Inv(s) && ApplyProviderResult(cfg, s, r).1 == Idv.Applied
    ensures ResultValid(r) && ByReference(s.attempts, r.reference).Some?
    ensures var id := ByReference(s.attempts, r.reference).value;
            var first := ApplyProviderResult(cfg, s, r).0;
            && id < |first.attempts| && first.attempts[id].reference == Some(r.reference)
            && ResultMatches(first.attempts[id], r) && Idv.Terminal(first.attempts[id].status)
  {
    InvParts(s);
    hide Inv, IsStale, Chained, Unique, EvidenceConstraints;
    var id := ByReference(s.attempts, r.reference).value;
    assert ApplyProviderResult(cfg, s, r).0.attempts[id] ==
        WithResult(cfg, s.attempts[id], s.vehicles[s.attempts[id].vehicle], r);
  }

  /** A result applied once is a duplicate for ever after, whatever happens in between. */
  lemma AppliedResultStaysDuplicate(cfg: Config, s: State, r: ProviderResult, actions: seq<Action>)
    requires Inv(s) && ApplyProviderResult(cfg, s, r).1 == Idv.Applied
    ensures var t := Run(cfg, ApplyProviderResult(cfg, s, r).0, actions);
            ApplyProviderResult(cfg, t, r) == (t, Idv.Duplicate)
  {
    hide Inv, Run, ApplyProviderResult, ResultValid;
    var first := ApplyProviderResult(cfg, s, r).0;
    AppliedRow(cfg, s, r);
    ResultStep(cfg, s, r);
    RunKeeps(cfg, first, actions);
    var t := Run(cfg, first, actions);
    var id := ByReference(s.attempts, r.reference).value;
    assert RowContinues(first.attempts[id], t.attempts[id]);
    MatchingRowAnswersDuplicate(cfg, t, r, id);
  }

  /** A superseded row that the event has not reached yet answers "stale" and is left alone. */
  lemma SupersededAnswersStale(cfg: Config, t: State, r: ProviderResult, id: Id)
    requires Unique(t.attempts) && id < |t.attempts| && t.attempts[id].reference == Some(r.reference)
    requires t.attempts[id].supersededAt.Some? && ByResultEvent(t.attempts, r.event).None?
    ensures ApplyProviderResult(cfg, t, r).0 == t
  {
    assert ByReference(t.attempts, r.reference) == Some(id);
    assert IsStale(t, id);
    assert Disposition(t, id, r) == Idv.Stale;
    hide ResultMatches, IsStale, Disposition, ResultValid, Unique;
    assert t.attempts[id := t.attempts[id]] == t.attempts;
  }

  lemma StaleReapplied(cfg: Config, s: State, r: ProviderResult)
    requires Inv(s) && ApplyProviderResult(cfg, s, r).1 == Idv.Stale
    ensures var once := ApplyProviderResult(cfg, s, r).0; ApplyProviderResult(cfg, once, r).0 == once
  {
    ResultStep(cfg, s, r);
    StaleRow(cfg, s, r);
    var once := ApplyProviderResult(cfg, s, r).0;
    InvParts(once);
    hide Inv, ApplyProviderResult, Unique, Chained;
    var id := ByReference(s.attempts, r.reference).value;
    assert forall i | 0 <= i < |once.attempts| :: once.attempts[i].resultEvent == s.attempts[i].resultEvent;
    assert ByResultEvent(once.attempts, r.event).None?;
    SupersededAnswersStale(cfg, once, r, id);
  }

  lemma StaleRow(cfg: Config, s: State, r: ProviderResult)
    requires ApplyProviderResult(cfg, s, r).1 == Idv.Stale
    ensures var target := ByReference(s.attempts, r.reference);
            var once := ApplyProviderResult(cfg, s, r).0;
            && target.Some? && ByResultEvent(s.attempts, r.event).None?
            && var before, after := s.attempts[target.value], once.attempts[target.value];
            && after.supersededAt.Some?
            && once == s.(attempts := s.attempts[target.value := before.(supersededAt := after.supersededAt)])
  {
    hide ResultMatches, IsStale, ResultValid;
  }

  /** Delivered twice in a row, a result of any kind leaves what the first delivery left. */
  lemma ReapplyChangesNothing(cfg: Config, s: State, r: ProviderResult)
    requires Inv(s)
    ensures var once := ApplyProviderResult(cfg, s, r).0; ApplyProviderResult(cfg, once, r).0 == once
  {
    var (once, outcome) := ApplyProviderResult(cfg, s, r);
    match outcome
    case Applied => AppliedResultStaysDuplicate(cfg, s, r, []);
    case Stale => StaleReapplied(cfg, s, r);
    case _ =>
  }

  lemma ClaimForReuses(cfg: Config, s: State, listing: Id, actor: Id, vehicle: Id, basis: Basis, id: Id)
    requires Inv(s) && listing < |s.listings| && vehicle < |s.vehicles|
    requires id < |s.attempts| && InGroup(s.attempts[id], actor, vehicle) && Eligible(cfg, s, id, listing, basis)
    ensures var (t, claim) := ClaimFor(cfg, s, listing, actor, vehicle, basis);
            && claim == Reused(id, s.attempts[id].listing != listing)
            && t.attempts == s.attempts
            && (t.reuses == s.reuses || (t.reuses == s.reuses + [Reuse(listing, id)]
                && Reuse(listing, id) !in s.reuses))
  {
    assert Idv.Projected(s.identity, actor).Some?;
    SelectionIsTheEligibleRow(cfg, s, actor, vehicle, listing, basis, id);
    hide Inv, Eligible, OpenAttempt, cfg.policy.Select, ContextFor, GroupEvidence;
    SelectIsConsistent(cfg.policy, ContextFor(s.clock, Idv.Projected(s.identity, actor).value, actor, vehicle,
                                              s.vehicles[vehicle], s.listings[listing], basis),
                       GroupEvidence(s.attempts, actor, vehicle), listing);
  }

  /** A start that can rely on an existing proof opens nothing: the attempt table is untouched,
      the proof itself is named, and the reuse is recorded at most once per listing. */
  lemma EligibleProofIsReused(cfg: Config, s: State, actor: Id, listing: Id, r: StartRequest, id: Id)
    requires Inv(s) && id < |s.attempts| && RequestRefusal(s, actor, listing, r).None?
    requires var out := Registry.Resolve(s.vehicles, s.listings[listing].vehicleType,
        Key(r.identity, cfg.hashVersion)).1;
             out.Resolved? && InGroup(s.attempts[id], actor, out.vehicle)
                 && s.listings[listing].vehicle in {None, Some(out.vehicle)}
    requires Eligible(cfg, s, id, listing, r.basis)
    ensures var (t, claim) := ClaimAttempt(cfg, s, actor, listing, r);
            && claim == Reused(id, s.attempts[id].listing != listing)
            && t.attempts == s.attempts
            && (t.reuses == s.reuses || (t.reuses == s.reuses + [Reuse(listing, id)]
                && Reuse(listing, id) !in s.reuses))
  {
    hide Inv, Eligible, Continues, ClaimFor, Registry.Resolve;
    var request := Registry.Request(s.listings[listing].vehicleType, Key(r.identity, cfg.hashVersion));
    var (vehicles, out) := Registry.Resolve(s.vehicles, request.vehicleType, request.key);
    assert Registry.Normal(r.identity) && Registry.IsKey(request.key);
    AssociateStep(s, request, listing);
    var mid := Associated(s, vehicles, listing, out.vehicle);
    EligibleAfterAssociation(cfg, s, mid, id, listing, r.basis);
    ClaimForReuses(cfg, mid, listing, actor, out.vehicle, r.basis, id);
  }

  lemma EligibleAfterAssociation(cfg: Config, s: State, t: State, id: Id, listing: Id, basis: Basis)
    requires Inv(s) && Inv(t) && Continues(s, t) && t.identity == s.identity && t.clock == s.clock
        && t.attempts == s.attempts
    requires Eligible(cfg, s, id, listing, basis)
    ensures Eligible(cfg, t, id, listing, basis)
  {
    EligibleParts(cfg, s, id, listing, basis);
    EligibleParts(cfg, t, id, listing, basis);
    InvParts(s);
    hide Inv, Eligible, Idv.Inv, FingerprintValid, Chained, Unique;
    assert RowValid(s, s.attempts[id]);
    assert ListingContinues(s.listings[listing], t.listings[listing]);
    assert Registry.Filled(s.vehicles[s.attempts[id].vehicle], t.vehicles[s.attempts[id].vehicle]);
  }

  // -------------------------------------------------------------------- the service

  class OwnershipVerificationService {
    const cfg: Config
    var clock: Time
    var identity: Idv.State
    var vehicles: seq<Vehicle>
    var listings: seq<Listing>
    var attempts: seq<Attempt>
    var reuses: seq<Reuse>

    ghost function Db(): State
      reads this
    {
      State(clock, identity, vehicles, listings, attempts, reuses)
    }

    constructor (cfg: Config, users: seq<bool>, clock: Time)
      ensures this.cfg == cfg && Db() == Initial(users, clock)
    {
      this.cfg := cfg;
      this.clock := clock;
      identity := Idv.Initial(users);
      vehicles, listings, attempts, reuses := [], [], [], [];
    }

    /** Fills the missing identifiers of the one matching row, or inserts a row. */
    method ResolveCanonical(vehicleType: VehicleType, key: Keyed) returns (resolution: Resolution)
      modifies `vehicles
      ensures (vehicles, resolution) == Registry.Resolve(old(vehicles), vehicleType, key)
    {
      var matches := FindCanonical(vehicles, key);
      if |matches| > 1 {
        return Conflict;
      }
      if |matches| == 0 {
        vehicles := vehicles + [NewVehicle(vehicleType, key)];
        return Resolved(|vehicles| - 1);
      }
      var id := matches[0];
      assert id in matches;
      var canonical := vehicles[id];
      if Contradicts(canonical, vehicleType, key) {
        return Conflict;
      }
      if canonical.jurisdiction.None? { canonical := canonical.(jurisdiction := Some(key.jurisdiction)); }
      if canonical.registration.None? { canonical := canonical.(registration := Some(key.registration)); }
      if canonical.vin.None? { canonical := canonical.(vin := key.vin); }
      if canonical.chassis.None? { canonical := canonical.(chassis := key.chassis); }
      vehicles := vehicles[id := canonical];
      resolution := Resolved(id);
    }

    method AddAttempt(listing: Id, owner: Id, vehicle: Id, p: Idv.Projection, basis: Basis)
      requires vehicle < |vehicles|
      modifies `attempts
      ensures attempts == NewAttempt(cfg, old(attempts), clock, listing, owner, vehicle, vehicles[vehicle], p, basis)
    {
      var canonical := vehicles[vehicle];
      var number := NextNumber(attempts, owner, vehicle);
      var latest := Newest(attempts, owner, vehicle, false);
      if latest.Some? {
        attempts := attempts[latest.value := attempts[latest.value].(supersededAt := Some(clock))];
      }
      var material := Material(vehicle, canonical.identityVersion, owner, p.current, p.version,
                               if canonical.jurisdiction.Some? then canonical.jurisdiction.value else "", basis,
                               canonical.registration, canonical.vin, canonical.chassis, 0, map[]);
      attempts := attempts + [
        Attempt(listing, owner, vehicle, number, p.current, p.version, canonical.identityVersion,
                canonical.hashVersion, basis, cfg.fingerprint(material), None, None, None, SessionPending,
                None, None, None, None, None)];
    }

    method Claim(actor: Id, listing: Id, r: StartRequest) returns (claim: Claim)
      modifies `vehicles, `listings, `attempts, `reuses
      ensures (Db(), claim) == ClaimAttempt(cfg, old(Db()), actor, listing, r)
    {
      hide RequestRefusal, ClaimFor, Registry.Resolve;
      var refusal := RequestRefusal(State(clock, identity, vehicles, listings, attempts, reuses), actor, listing, r);
      if refusal.Some? {
        return Refused(refusal.value);
      }
      var row := listings[listing];
      var unresolved := vehicles;
      var resolution := ResolveCanonical(row.vehicleType, Key(r.identity, cfg.hashVersion));
      if resolution.Conflict? || row.vehicle !in {None, Some(resolution.vehicle)} {
        vehicles := unresolved;  // the transaction is rolled back
        return Refused(VehicleConflict);
      }
      if row.vehicle.None? {
        listings := listings[listing := row.(vehicle := Some(resolution.vehicle), version := row.version + 1)];
      }
      claim := ClaimResolved(listing, actor, resolution.vehicle, r.basis);
    }

    method ClaimResolved(listing: Id, actor: Id, vehicle: Id, basis: Basis) returns (claim: Claim)
      modifies `attempts, `reuses
      ensures (Db(), claim) == ClaimFor(cfg, old(Db()), listing, actor, vehicle, basis)
    {
      var projected := Idv.Projected(identity, actor);
      if listing >= |listings| || vehicle >= |vehicles| || projected.None? {
        return Refused(NotFound);
      }
      var p := projected.value;
      var selection := cfg.policy.Select(
        ContextFor(clock, p, actor, vehicle, vehicles[vehicle], listings[listing], basis),
        GroupEvidence(attempts, actor, vehicle), listing);
      if selection.evidence.Some? && selection.decision.eligible {
        var id := selection.evidence.value.attempt;
        if selection.decision.reused && Reuse(listing, id) !in reuses {
          reuses := reuses + [Reuse(listing, id)];
        }
        return Reused(id, selection.decision.reused);
      }
      var active := Newest(attempts, actor, vehicle, true);
      if active.Some? && IdentityStale(attempts[active.value], p) {
        attempts := attempts[active.value := attempts[active.value].(supersededAt := Some(clock))];
        active := None;
      }
      if active.Some? {
        return ProviderNeeded(active.value);
      }
      claim := ProviderNeeded(|attempts|);
      AddAttempt(listing, actor, vehicle, p, basis);
    }

    method Finalize(id: Id, reference: nat) returns (outcome: Idv.Outcome)
      modifies `attempts
      ensures (Db(), outcome) == FinalizeSession(old(Db()), id, reference)
    {
      if id >= |attempts| {
        return Idv.NotFound;
      }
      var attempt := attempts[id];
      if attempt.reference.Some? && attempt.reference.value != reference {
        return Idv.Unavailable;
      }
      if attempt.status == SessionPending {
        attempt := attempt.(status := Pending);
      } else if attempt.status != Pending {
        return Idv.Closed;
      }
      if !ReferenceFree(attempts, id, reference) {
        return Idv.Unavailable;
      }
      attempts := attempts[id := attempt.(reference := Some(reference))];
      outcome := Idv.Finalized;
    }

    method FinalizeFailure(id: Id, failure: Idv.SuppliedCode) returns (outcome: Idv.Outcome)
      modifies `attempts
      ensures (Db(), outcome) == FinalizeSessionFailure(old(Db()), id, failure)
    {
      if id >= |attempts| || attempts[id].status != SessionPending {
        return Idv.Ignored;
      }
      attempts := attempts[id := attempts[id].(status := Failed, failure := Some(SafeFailureCode(failure)))];
      outcome := Idv.Finalized;
    }

    method Apply(r: ProviderResult) returns (outcome: Idv.Outcome)
      modifies `attempts
      ensures (Db(), outcome) == ApplyProviderResult(cfg, old(Db()), r)
    {
      if !ResultValid(r) {
        return Idv.Invalid;
      }
      var target := ByReference(attempts, r.reference);
      if target.None? {
        return Idv.NotFound;
      }
      var id := target.value;
      var attempt := attempts[id];
      var seen := ByResultEvent(attempts, r.event);
      if seen.Some? {
        return if seen.value == id && ResultMatches(attempt, r) then Idv.Duplicate else Idv.ResultConflict;
      }
      if IsStale(State(clock, identity, vehicles, listings, attempts, reuses), id) {
        if attempt.supersededAt.None? {
          attempt := attempt.(supersededAt := Some(clock));
        }
        attempts := attempts[id := attempt];
        return Idv.Stale;
      }
      if Idv.Terminal(attempt.status) || !Idv.TransitionAllowed(attempt.status, r.status) {
        return Idv.ResultConflict;
      }
      var canonical := vehicles[attempt.vehicle];
      attempt := attempt.(resultEvent := Some(r.event), resultVersion := Some(r.version), status := r.status);
      attempt := attempt.(verifiedAt := Idv.IfVerified(r.status, r.verifiedAt));
      attempt := attempt.(expiresAt := Idv.IfVerified(r.status, r.expiresAt), revokedAt := None);
      attempt := attempt.(failure := ResultFailure(r));
      attempt := attempt.(fingerprint := cfg.fingerprint(MaterialOf(attempt, canonical, r.version, r.attributes)));
      attempts := attempts[id := attempt];
      outcome := Idv.Applied;
    }
  }
}
