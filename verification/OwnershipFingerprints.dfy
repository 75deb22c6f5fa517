/** What a stored fingerprint is a fingerprint of: the attempt's own vehicle, owner, identity, basis
    and result, in every state any run can reach. */
module OwnershipFingerprints {
  import opened Core
  import opened OwnershipReuse
  import Registry = VehicleRegistry
  import Idv = IdentityVerification
  import opened Own = OwnershipVerification

  /** Something in the material is what the vehicle has today, or was still missing. */
  ghost predicate Known(part: Option<Registry.Digest>, whole: Option<Registry.Digest>) {
    part.Some? ==> part == whole
  }

  /** The material names this attempt's own vehicle, owner, identity, basis and result, and before
      any result no attributes. */
  ghost predicate Describes(m: Material, v: Registry.Vehicle, a: Attempt) {
    && m.vehicle == a.vehicle && m.vehicleIdentityVersion == a.vehicleIdentityVersion
    && m.owner == a.owner && m.identityAttempt == a.identityAttempt && m.identityVersion == a.identityVersion
    && m.basis == a.basis
    && m.resultVersion == (if a.resultVersion.Some? then a.resultVersion.value else 0)
    && (a.resultVersion.None? ==> m.attributes == map[])
    && (m.jurisdiction == "" || v.jurisdiction == Some(m.jurisdiction))
    && Known(m.registration, v.registration) && Known(m.vin, v.vin) && Known(m.chassis, v.chassis)
  }

  ghost predicate Fingerprinted(cfg: Config, vehicles: seq<Registry.Vehicle>, a: Attempt) {
    && a.vehicle < |vehicles|
    && exists m: Material :: Describes(m, vehicles[a.vehicle], a) && a.fingerprint == cfg.fingerprint(m)
  }

  ghost predicate AllFingerprinted(cfg: Config, vehicles: seq<Registry.Vehicle>, rows: seq<Attempt>) {
    forall i | 0 <= i < |rows| :: Fingerprinted(cfg, vehicles, rows[i])
  }

  /** The same fingerprint of the same material. */
  ghost predicate SameMaterial(a: Attempt, b: Attempt) {
    b == a.(listing := b.listing, number := b.number, hashVersion := b.hashVersion, reference := b.reference,
            resultEvent := b.resultEvent, status := b.status, failure := b.failure, verifiedAt := b.verifiedAt,
            expiresAt := b.expiresAt, revokedAt := b.revokedAt, supersededAt := b.supersededAt)
  }

  lemma StaysFingerprinted(cfg: Config, vehicles: seq<Registry.Vehicle>, later: seq<Registry.Vehicle>, a: Attempt,
      b: Attempt)
    requires Fingerprinted(cfg, vehicles, a) && Registry.OnlyFills(vehicles, later) && SameMaterial(a, b)
    ensures Fingerprinted(cfg, later, b)
  {
    var m: Material :| Describes(m, vehicles[a.vehicle], a) && a.fingerprint == cfg.fingerprint(m);
    assert Registry.Filled(vehicles[a.vehicle], later[b.vehicle]);
    assert Describes(m, later[b.vehicle], b);
  }

  /** The vehicle may have been filled in since the attempt was opened. */
  lemma ResultIsFingerprinted(cfg: Config, vehicles: seq<Registry.Vehicle>, a: Attempt, r: ProviderResult)
    requires a.vehicle < |vehicles| && vehicles[a.vehicle].identityVersion == a.vehicleIdentityVersion
    ensures Fingerprinted(cfg, vehicles, WithResult(cfg, a, vehicles[a.vehicle], r))
  {
    var v := vehicles[a.vehicle];
    var m := MaterialOf(a, v, r.version, r.attributes);
    var b := WithResult(cfg, a, v, r);
    assert b.fingerprint == cfg.fingerprint(m) && Describes(m, v, b);
  }

  lemma FirstIsFingerprinted(cfg: Config, vehicles: seq<Registry.Vehicle>, number: nat, listing: Id, owner: Id,
      vehicle: Id, p: Idv.Projection, basis: Basis)
    requires vehicle < |vehicles|
    ensures Fingerprinted(cfg, vehicles, FirstRow(cfg, number, listing, owner, vehicle, vehicles[vehicle], p, basis))
  {
    var v := vehicles[vehicle];
    var row := FirstRow(cfg, number, listing, owner, vehicle, v, p, basis);
    var m := MaterialOf(row.(fingerprint := ""), v, 0, map[]);
    assert row.fingerprint == cfg.fingerprint(m) && Describes(m, v, row);
  }

  lemma SupersededStays(cfg: Config, vehicles: seq<Registry.Vehicle>, rows: seq<Attempt>, id: Id, now: Time)
    requires AllFingerprinted(cfg, vehicles, rows) && id < |rows|
    ensures AllFingerprinted(cfg, vehicles, Supersede(rows, id, now))
  {
    NothingToFill(vehicles);
    hide Fingerprinted, Registry.OnlyFills;
    StaysFingerprinted(cfg, vehicles, vehicles, rows[id], Supersede(rows, id, now)[id]);
  }

  lemma NothingToFill(vehicles: seq<Registry.Vehicle>)
    ensures Registry.OnlyFills(vehicles, vehicles)
  {}

  lemma OpenedFingerprinted(cfg: Config, s: State, listing: Id, actor: Id, vehicle: Id, p: Idv.Projection,
      basis: Basis)
    requires vehicle < |s.vehicles| && AllFingerprinted(cfg, s.vehicles, s.attempts)
    ensures var t := OpenAttempt(cfg, s, listing, actor, vehicle, p, basis).0;
            t.vehicles == s.vehicles && AllFingerprinted(cfg, t.vehicles, t.attempts)
  {
    var active := Newest(s.attempts, actor, vehicle, true);
    var kept := if active.Some? then Supersede(s.attempts, active.value, s.clock) else s.attempts;
    if active.Some? { SupersededStays(cfg, s.vehicles, s.attempts, active.value, s.clock); }
    var latest := Newest(kept, actor, vehicle, false);
    if latest.Some? { SupersededStays(cfg, s.vehicles, kept, latest.value, s.clock); }
    FirstIsFingerprinted(cfg, s.vehicles, NextNumber(kept, actor, vehicle), listing, actor, vehicle, p, basis);
    hide Fingerprinted, FirstRow, Newest, NextNumber, Supersede;
  }

  lemma ClaimedFingerprinted(cfg: Config, s: State, listing: Id, actor: Id, vehicle: Id, basis: Basis)
    requires AllFingerprinted(cfg, s.vehicles, s.attempts)
    ensures var t := ClaimFor(cfg, s, listing, actor, vehicle, basis).0;
            t.vehicles == s.vehicles && AllFingerprinted(cfg, t.vehicles, t.attempts)
  {
    hide AllFingerprinted, OpenAttempt, cfg.policy.Select, ContextFor, GroupEvidence;
    if vehicle < |s.vehicles| && Idv.Projected(s.identity, actor).Some? {
      OpenedFingerprinted(cfg, s, listing, actor, vehicle, Idv.Projected(s.identity, actor).value, basis);
    }
  }

  lemma FilledFingerprinted(cfg: Config, vehicles: seq<Registry.Vehicle>, later: seq<Registry.Vehicle>,
      rows: seq<Attempt>)
    requires AllFingerprinted(cfg, vehicles, rows) && Registry.OnlyFills(vehicles, later)
    ensures AllFingerprinted(cfg, later, rows)
  {
    hide Fingerprinted, Registry.OnlyFills;
    forall i | 0 <= i < |rows| ensures Fingerprinted(cfg, later, rows[i]) {
      StaysFingerprinted(cfg, vehicles, later, rows[i], rows[i]);
    }
  }

  lemma BegunFingerprinted(cfg: Config, s: State, actor: Id, listing: Id, r: StartRequest)
    requires Inv(s) && AllFingerprinted(cfg, s.vehicles, s.attempts)
    ensures var t := ClaimAttempt(cfg, s, actor, listing, r).0; AllFingerprinted(cfg, t.vehicles, t.attempts)
  {
    hide Inv, AllFingerprinted, ClaimFor, Registry.Resolve, Registry.OnlyFills;
    if RequestRefusal(s, actor, listing, r).None? {
      var l := s.listings[listing];
      var request := Registry.Request(l.vehicleType, Registry.Key(r.identity, cfg.hashVersion));
      assert Registry.Normal(r.identity) && Registry.IsKey(request.key);
      InvParts(s);
      Registry.ResolveStep(s.vehicles, request);
      var (vehicles, out) := Registry.Resolve(s.vehicles, l.vehicleType, request.key);
      if out.Resolved? && l.vehicle in {None, Some(out.vehicle)} {
        FilledFingerprinted(cfg, s.vehicles, vehicles, s.attempts);
        ClaimedFingerprinted(cfg, Associated(s, vehicles, listing, out.vehicle), listing, actor, out.vehicle, r.basis);
      }
    }
  }

  /** One row rewritten to one that has its fingerprint too. */
  lemma OneRewritten(cfg: Config, vehicles: seq<Registry.Vehicle>, rows: seq<Attempt>, id: Id, a: Attempt)
    requires AllFingerprinted(cfg, vehicles, rows) && id < |rows| && Fingerprinted(cfg, vehicles, a)
    ensures AllFingerprinted(cfg, vehicles, rows[id := a])
  {
    hide Fingerprinted;
  }

  lemma AppliedFingerprinted(cfg: Config, s: State, r: ProviderResult)
    requires Inv(s) && AllFingerprinted(cfg, s.vehicles, s.attempts)
    ensures var t := ApplyProviderResult(cfg, s, r).0; AllFingerprinted(cfg, t.vehicles, t.attempts)
  {
    var target := ByReference(s.attempts, r.reference);
    if target.Some? {
      var id := target.value;
      var a := s.attempts[id];
      InvParts(s);
      assert RowValid(s, a);
      assert Fingerprinted(cfg, s.vehicles, a);
      NothingToFill(s.vehicles);
      hide Inv, AllFingerprinted, Fingerprinted, Registry.OnlyFills, ResultValid, ResultMatches, Disposition,
          WithResult;
      ResultIsFingerprinted(cfg, s.vehicles, a, r);
      OneRewritten(cfg, s.vehicles, s.attempts, id, WithResult(cfg, a, s.vehicles[a.vehicle], r));
      var stale := a.(supersededAt := if a.supersededAt.Some? then a.supersededAt else Some(s.clock));
      StaysFingerprinted(cfg, s.vehicles, s.vehicles, a, stale);
      OneRewritten(cfg, s.vehicles, s.attempts, id, stale);
    }
  }

  lemma SessionFingerprinted(cfg: Config, s: State, id: Id, reference: nat, failure: Idv.SuppliedCode)
    requires AllFingerprinted(cfg, s.vehicles, s.attempts)
    ensures var t := FinalizeSession(s, id, reference).0; AllFingerprinted(cfg, t.vehicles, t.attempts)
    ensures var t := FinalizeSessionFailure(s, id, failure).0; AllFingerprinted(cfg, t.vehicles, t.attempts)
  {
    if id < |s.attempts| {
      var a := s.attempts[id];
      assert Fingerprinted(cfg, s.vehicles, a);
      NothingToFill(s.vehicles);
      hide AllFingerprinted, Fingerprinted, Registry.OnlyFills, ReferenceFree;
      var ready := a.(reference := Some(reference), status := Pending);
      StaysFingerprinted(cfg, s.vehicles, s.vehicles, a, ready);
      OneRewritten(cfg, s.vehicles, s.attempts, id, ready);
      var failed := a.(status := Failed, failure := Some(SafeFailureCode(failure)));
      StaysFingerprinted(cfg, s.vehicles, s.vehicles, a, failed);
      OneRewritten(cfg, s.vehicles, s.attempts, id, failed);
    }
  }

  lemma StepFingerprinted(cfg: Config, s: State, a: Action)
    requires Inv(s) && AllFingerprinted(cfg, s.vehicles, s.attempts)
    ensures var t := Step(cfg, s, a); AllFingerprinted(cfg, t.vehicles, t.attempts)
  {
    hide Inv, AllFingerprinted, ClaimAttempt, FinalizeSession, FinalizeSessionFailure, ApplyProviderResult,
        Idv.ClaimAttempt, Idv.Step;
    match a
    case Begin(actor, listing, r) => BegunFingerprinted(cfg, s, actor, listing, r);
    case SessionReady(id, reference) => SessionFingerprinted(cfg, s, id, reference, Idv.Missing);
    case SessionFailed(id, failure) => SessionFingerprinted(cfg, s, id, 0, failure);
    case Result(r) => AppliedFingerprinted(cfg, s, r);
    case _ =>
  }

  /** Over every run, however vehicles are filled in, identities change and results come in. */
  lemma {:induction false} FingerprintsDescribe(cfg: Config, s: State, actions: seq<Action>)
    requires Inv(s) && AllFingerprinted(cfg, s.vehicles, s.attempts)
    ensures var t := Run(cfg, s, actions); AllFingerprinted(cfg, t.vehicles, t.attempts)
    decreases |actions|
  {
    if actions != [] {
      hide Step, Inv, Continues, AllFingerprinted;
      StepKeeps(cfg, s, actions[0]);
      StepFingerprinted(cfg, s, actions[0]);
      FingerprintsDescribe(cfg, Step(cfg, s, actions[0]), actions[1..]);
    }
  }

  /** An applied result renews the fingerprint: it is taken of the vehicle as it is now and of what
      the provider sent with the result. */
  lemma AppliedRenews(cfg: Config, s: State, r: ProviderResult, id: Id)
    requires Inv(s) && ApplyProviderResult(cfg, s, r).1 == Idv.Applied
    requires id < |s.attempts| && s.attempts[id].reference == Some(r.reference)
    ensures var t := ApplyProviderResult(cfg, s, r).0;
            && |t.attempts| == |s.attempts| && t.vehicles == s.vehicles
            && var a := t.attempts[id];
            && a.vehicle < |s.vehicles|
            && exists m: Material ::
                 && Describes(m, s.vehicles[a.vehicle], a) && a.fingerprint == cfg.fingerprint(m)
                 && m.attributes == r.attributes && m.resultVersion == r.version
                 && m.registration == s.vehicles[a.vehicle].registration
                 && m.vin == s.vehicles[a.vehicle].vin && m.chassis == s.vehicles[a.vehicle].chassis
  {
    InvParts(s);
    var a := s.attempts[id];
    assert RowValid(s, a);
    hide Inv, Chained, ResultMatches, EvidenceConstraints, BoundTo, IsStale;
    assert ByReference(s.attempts, r.reference) == Some(id);
    hide Unique, ByReference, ByResultEvent;
    var v := s.vehicles[a.vehicle];
    var m := MaterialOf(a, v, r.version, r.attributes);
    var b := WithResult(cfg, a, v, r);
    assert ApplyProviderResult(cfg, s, r).0.attempts == s.attempts[id := b];
    assert Describes(m, v, b) && b.fingerprint == cfg.fingerprint(m);
  }
}
