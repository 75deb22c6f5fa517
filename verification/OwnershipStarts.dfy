/** What an owner gets from the ownership service: who may start, which attempt a start names, and
    how that attempt becomes a proof. */
module OwnershipStarts {
  import opened Core
  import opened OwnershipReuse
  import Registry = VehicleRegistry
  import Idv = IdentityVerification
  import opened Own = OwnershipVerification

  // -------------------------------------------------------------------- who may start

  /** A verified identity that has neither expired nor been revoked. */
  ghost predicate IdentityLive(s: State, user: Id) {
    var p := Idv.Projected(s.identity, user);
    && p.Some? && p.value.status == Verified && p.value.verifiedAt.Some?
    && p.value.expiresAt.Some? && s.clock < p.value.expiresAt.value && p.value.revokedAt.None?
  }

  ghost predicate MayStart(s: State, actor: Id, listing: Id, r: StartRequest) {
    && ':' !in r.identity.jurisdiction
    && actor < |s.identity.users| && s.identity.users[actor]
    && listing < |s.listings|
    && s.listings[listing].ownerUser == Some(actor) && s.listings[listing].ownerOrganization.None?
    && s.listings[listing].draft && s.listings[listing].version == r.expectedVersion
    && IdentityLive(s, actor)
  }

  /** The vehicle the request names is one the listing may have. */
  ghost predicate VehicleFits(cfg: Config, s: State, listing: Id, r: StartRequest, vehicle: Id)
    requires listing < |s.listings|
  {
    var l := s.listings[listing];
    && Registry.Resolve(s.vehicles, l.vehicleType, Registry.Key(r.identity, cfg.hashVersion)).1
       == Registry.Resolved(vehicle)
    && l.vehicle in {None, Some(vehicle)}
  }

  lemma MayStartExactly(s: State, actor: Id, listing: Id, r: StartRequest)
    ensures RequestRefusal(s, actor, listing, r).None? <==> MayStart(s, actor, listing, r)
  {}

  lemma ClaimedFor(cfg: Config, s: State, actor: Id, listing: Id, r: StartRequest, vehicle: Id)
    requires Inv(s) && MayStart(s, actor, listing, r) && VehicleFits(cfg, s, listing, r, vehicle)
    ensures var l := s.listings[listing];
            var vehicles := Registry.Resolve(s.vehicles, l.vehicleType, Registry.Key(r.identity, cfg.hashVersion)).0;
            var mid := Associated(s, vehicles, listing, vehicle);
            && ClaimAttempt(cfg, s, actor, listing, r) == ClaimFor(cfg, mid, listing, actor, vehicle, r.basis)
            && Inv(mid) && Continues(s, mid) && mid.identity == s.identity && mid.clock == s.clock
            && mid.attempts == s.attempts && vehicle < |mid.vehicles| && listing < |mid.listings|
            && mid.listings[listing].vehicle == Some(vehicle)
            && Registry.Carries(mid.vehicles[vehicle],
                                Registry.Request(l.vehicleType, Registry.Key(r.identity, cfg.hashVersion)))
  {
    hide Inv, Continues, ClaimFor, Registry.Resolve, MayStart, Registry.Carries;
    MayStartExactly(s, actor, listing, r);
    var request := Registry.Request(s.listings[listing].vehicleType, Registry.Key(r.identity, cfg.hashVersion));
    assert Registry.Normal(r.identity) && Registry.IsKey(request.key);
    AssociateStep(s, request, listing);
    Registry.ResolveStep(s.vehicles, request) by { InvParts(s); }
  }

  /** A start is refused exactly when it is not the owner's to make, or the vehicle does not fit. */
  lemma RefusedExactly(cfg: Config, s: State, actor: Id, listing: Id, r: StartRequest)
    requires Inv(s)
    ensures var (t, claim) := ClaimAttempt(cfg, s, actor, listing, r);
            && (claim.Refused? <==>
                  !MayStart(s, actor, listing, r) || forall vehicle: Id :: !VehicleFits(cfg, s, listing, r, vehicle))
            && (claim.Refused? ==> t == s)
  {
    hide Inv, Continues, ClaimFor, Registry.Resolve, MayStart, Associated, Registry.Carries;
    MayStartExactly(s, actor, listing, r);
    if MayStart(s, actor, listing, r) {
      assert listing < |s.listings| by { MayStartExactly(s, actor, listing, r); }
      var l := s.listings[listing];
      var (vehicles, out) := Registry.Resolve(s.vehicles, l.vehicleType, Registry.Key(r.identity, cfg.hashVersion));
      if out.Resolved? && l.vehicle in {None, Some(out.vehicle)} {
        assert VehicleFits(cfg, s, listing, r, out.vehicle);
        ClaimedFor(cfg, s, actor, listing, r, out.vehicle);
        var mid := Associated(s, vehicles, listing, out.vehicle);
        assert Idv.Projected(mid.identity, actor).Some? by { MayStartExactly(s, actor, listing, r); }
        NeverRefused(cfg, mid, listing, actor, out.vehicle, r.basis);
      }
    }
  }

  lemma NeverRefused(cfg: Config, s: State, listing: Id, actor: Id, vehicle: Id, basis: Basis)
    requires listing < |s.listings| && vehicle < |s.vehicles| && Idv.Projected(s.identity, actor).Some?
    ensures !ClaimFor(cfg, s, listing, actor, vehicle, basis).1.Refused?
  {
    hide cfg.policy.Select, ContextFor, GroupEvidence;
  }

  // -------------------------------------------------------------------- the attempt a start names

  /** The one attempt worth continuing: unfinished, not superseded, the newest of its owner and
      vehicle, and bound to the owner's identity projection as it is. */
  ghost predicate Current(s: State, id: Id, owner: Id, vehicle: Id) {
    && id < |s.attempts|
    && var a := s.attempts[id];
    && a.owner == owner && a.vehicle == vehicle
    && a.status in {SessionPending, Pending, ManualReview} && a.supersededAt.None?
    && (forall j | 0 <= j < |s.attempts| && s.attempts[j].owner == owner && s.attempts[j].vehicle == vehicle ::
          s.attempts[j].number <= a.number)
    && Idv.Projected(s.identity, owner).Some?
    && Idv.Projected(s.identity, owner).value.current == a.identityAttempt
    && Idv.Projected(s.identity, owner).value.version == a.identityVersion
  }

  lemma UnsupersededIsNewest(s: State, id: Id)
    requires Inv(s) && id < |s.attempts| && s.attempts[id].supersededAt.None?
    ensures forall j | 0 <= j < |s.attempts| && SameGroup(s.attempts[j], s.attempts[id]) ::
              s.attempts[j].number <= s.attempts[id].number
  {
    InvParts(s);
    hide Inv, Chained;
    NothingNewer(s, id);
  }

  lemma KeptIsCurrent(cfg: Config, s: State, listing: Id, actor: Id, vehicle: Id, p: Idv.Projection, basis: Basis,
      id: Id)
    requires Inv(s) && vehicle < |s.vehicles| && Idv.Projected(s.identity, actor) == Some(p)
    requires Newest(s.attempts, actor, vehicle, true) == Some(id) && !IdentityStale(s.attempts[id], p)
    ensures OpenAttempt(cfg, s, listing, actor, vehicle, p, basis) == (s, ProviderNeeded(id))
    ensures Current(s, id, actor, vehicle)
  {
    hide Inv, NewAttempt;
    UnsupersededIsNewest(s, id);
    assert forall j | 0 <= j < |s.attempts| && s.attempts[j].owner == actor && s.attempts[j].vehicle == vehicle ::
        SameGroup(s.attempts[j], s.attempts[id]);
  }

  lemma LastOfNewAttempt(cfg: Config, rows: seq<Attempt>, now: Time, listing: Id, owner: Id, vehicle: Id,
      v: Registry.Vehicle, p: Idv.Projection, basis: Basis)
    ensures var later := NewAttempt(cfg, rows, now, listing, owner, vehicle, v, p, basis);
            && |later| == |rows| + 1
            && later[|rows|] == FirstRow(cfg, NextNumber(rows, owner, vehicle), listing, owner, vehicle, v, p, basis)
  {
    hide FirstRow;
  }

  lemma FreshRow(cfg: Config, number: nat, listing: Id, owner: Id, vehicle: Id, v: Registry.Vehicle,
      p: Idv.Projection, basis: Basis)
    ensures var row := FirstRow(cfg, number, listing, owner, vehicle, v, p, basis);
            && row.status == SessionPending && row.supersededAt.None? && row.owner == owner && row.vehicle == vehicle
            && row.identityAttempt == p.current && row.identityVersion == p.version && row.basis == basis
            && row.listing == listing && row.reference.None?
  {}

  lemma OpenedIsCurrent(cfg: Config, s: State, listing: Id, actor: Id, vehicle: Id, p: Idv.Projection, basis: Basis)
    requires Inv(s) && listing < |s.listings| && vehicle < |s.vehicles|
    requires Idv.Projected(s.identity, actor) == Some(p) && p.status == Verified
    ensures var (t, claim) := OpenAttempt(cfg, s, listing, actor, vehicle, p, basis);
            && claim.ProviderNeeded? && Inv(t)
            && Current(t, claim.attempt, actor, vehicle)
            && t == s.(attempts := t.attempts)
  {
    var (t, claim) := OpenAttempt(cfg, s, listing, actor, vehicle, p, basis);
    var active := Newest(s.attempts, actor, vehicle, true);
    OpenAttemptStep(cfg, s, listing, actor, vehicle, p, basis);
    hide Inv, NewAttempt, FirstRow, Continues;
    if active.Some? && !IdentityStale(s.attempts[active.value], p) {
      KeptIsCurrent(cfg, s, listing, actor, vehicle, p, basis, active.value);
    } else {
      var kept := if active.Some? then Supersede(s.attempts, active.value, s.clock) else s.attempts;
      LastOfNewAttempt(cfg, kept, s.clock, listing, actor, vehicle, s.vehicles[vehicle], p, basis);
      var id := |s.attempts|;
      FreshRow(cfg, NextNumber(kept, actor, vehicle), listing, actor, vehicle, s.vehicles[vehicle], p, basis);
      UnsupersededIsNewest(t, id);
    }
  }

  lemma ClaimForNamesCurrent(cfg: Config, s: State, listing: Id, actor: Id, vehicle: Id, basis: Basis)
    requires Inv(s) && listing < |s.listings| && vehicle < |s.vehicles|
    requires Idv.Projected(s.identity, actor).Some? && Idv.Projected(s.identity, actor).value.status == Verified
    ensures var (t, claim) := ClaimFor(cfg, s, listing, actor, vehicle, basis);
            claim.ProviderNeeded? ==>
              && Inv(t) && Current(t, claim.attempt, actor, vehicle) && t == s.(attempts := t.attempts)
  {
    hide Inv, Current, OpenAttempt, cfg.policy.Select, ContextFor, GroupEvidence;
    OpenedIsCurrent(cfg, s, listing, actor, vehicle, Idv.Projected(s.identity, actor).value, basis);
  }

  /** An attempt a start asks the provider for is current in the state the start leaves: it is not
      one whose result would be answered "stale". */
  lemma StartNamesCurrentAttempt(cfg: Config, s: State, actor: Id, listing: Id, r: StartRequest)
    requires Inv(s) && ClaimAttempt(cfg, s, actor, listing, r).1.ProviderNeeded?
    ensures var (t, claim) := ClaimAttempt(cfg, s, actor, listing, r);
            && MayStart(s, actor, listing, r) && Inv(t)
            && listing < |t.listings| && t.listings[listing].vehicle.Some?
            && VehicleFits(cfg, s, listing, r, t.listings[listing].vehicle.value)
            && Current(t, claim.attempt, actor, t.listings[listing].vehicle.value)
            && t.identity == s.identity && t.clock == s.clock
            && t.listings[listing]
               == s.listings[listing].(vehicle := t.listings[listing].vehicle, version := t.listings[listing].version)
            && t.listings[listing].vehicle.value < |t.vehicles|
            && Registry.Carries(t.vehicles[t.listings[listing].vehicle.value],
                                Registry.Request(s.listings[listing].vehicleType,
                                                 Registry.Key(r.identity, cfg.hashVersion)))
  {
    hide Inv, Continues, ClaimFor, ClaimAttempt, Registry.Resolve, Current, Registry.Carries;
    RefusedExactly(cfg, s, actor, listing, r);
    var vehicle: Id :| VehicleFits(cfg, s, listing, r, vehicle);
    ClaimedFor(cfg, s, actor, listing, r, vehicle);
    var l := s.listings[listing];
    var vehicles := Registry.Resolve(s.vehicles, l.vehicleType, Registry.Key(r.identity, cfg.hashVersion)).0;
    ClaimForNamesCurrent(cfg, Associated(s, vehicles, listing, vehicle), listing, actor, vehicle, r.basis);
  }

  // -------------------------------------------------------------------- starting again

  /** An unfinished newest attempt leaves the policy nothing to accept. */
  lemma NothingEligibleBesides(cfg: Config, s: State, id: Id, owner: Id, vehicle: Id, listing: Id, basis: Basis)
    requires Inv(s) && Current(s, id, owner, vehicle) && listing < |s.listings| && vehicle < |s.vehicles|
    ensures var c := ContextFor(s.clock, Idv.Projected(s.identity, owner).value, owner, vehicle, s.vehicles[vehicle],
                                s.listings[listing], basis);
            cfg.policy.Select(c, GroupEvidence(s.attempts, owner, vehicle), listing).evidence.None?
  {
    hide Inv, cfg.policy.Select, ContextFor, GroupEvidence, Eligible;
    SelectionIsTheEligibleRow(cfg, s, owner, vehicle, listing, basis, id);
    var c := ContextFor(s.clock, Idv.Projected(s.identity, owner).value, owner, vehicle, s.vehicles[vehicle],
                        s.listings[listing], basis);
    var sel := cfg.policy.Select(c, GroupEvidence(s.attempts, owner, vehicle), listing);
    if sel.evidence.Some? {
      var other := sel.evidence.value.attempt;
      EligibleParts(cfg, s, other, listing, basis);
      SelectIsConsistent(cfg.policy, c, GroupEvidence(s.attempts, owner, vehicle), listing);
      GroupEvidenceMeaning(s.attempts, owner, vehicle);
      SameNumberSameRow(s, id, other);
    }
  }

  lemma SameNumberSameRow(s: State, i: Id, j: Id)
    requires Inv(s) && i < |s.attempts| && j < |s.attempts| && SameGroup(s.attempts[i], s.attempts[j])
    ensures s.attempts[i].number == s.attempts[j].number ==> i == j
  {
    InvParts(s);
    hide Inv;
  }

  lemma CurrentIsNewestOpen(s: State, id: Id, owner: Id, vehicle: Id)
    requires Inv(s) && Current(s, id, owner, vehicle)
    ensures Newest(s.attempts, owner, vehicle, true) == Some(id)
  {
    hide Inv, Newest;
    assert Wanted(s.attempts[id], owner, vehicle, true);
    var active := Newest(s.attempts, owner, vehicle, true).value;
    SameNumberSameRow(s, id, active);
  }

  lemma ClaimForKeepsCurrent(cfg: Config, s: State, listing: Id, owner: Id, vehicle: Id, basis: Basis, id: Id)
    requires Inv(s) && Current(s, id, owner, vehicle) && listing < |s.listings| && vehicle < |s.vehicles|
    ensures ClaimFor(cfg, s, listing, owner, vehicle, basis) == (s, ProviderNeeded(id))
  {
    NothingEligibleBesides(cfg, s, id, owner, vehicle, listing, basis);
    CurrentIsNewestOpen(s, id, owner, vehicle);
    hide Inv, cfg.policy.Select, ContextFor, GroupEvidence, OpenAttempt;
    KeptIsCurrent(cfg, s, listing, owner, vehicle, Idv.Projected(s.identity, owner).value, basis, id);
  }

  /** While an attempt is current, a start for its vehicle answers with it, whichever listing and
      basis it is for, and writes nothing to the attempt table. */
  lemma CurrentAttemptIsKept(cfg: Config, s: State, actor: Id, listing: Id, r: StartRequest, vehicle: Id, id: Id)
    requires Inv(s) && MayStart(s, actor, listing, r) && VehicleFits(cfg, s, listing, r, vehicle)
    requires Current(s, id, actor, vehicle)
    ensures var (t, claim) := ClaimAttempt(cfg, s, actor, listing, r);
            claim == ProviderNeeded(id) && t.attempts == s.attempts
  {
    ClaimedFor(cfg, s, actor, listing, r, vehicle);
    hide Inv, Continues, ClaimFor, ClaimAttempt, Registry.Resolve, MayStart, Registry.Carries;
    var l := s.listings[listing];
    var vehicles := Registry.Resolve(s.vehicles, l.vehicleType, Registry.Key(r.identity, cfg.hashVersion)).0;
    ClaimForKeepsCurrent(cfg, Associated(s, vehicles, listing, vehicle), listing, actor, vehicle, r.basis, id);
  }

  /** A start repeated with nothing in between names the same attempt and opens nothing. */
  lemma StartIsRepeatable(cfg: Config, s: State, actor: Id, listing: Id, r: StartRequest)
    requires Inv(s) && ClaimAttempt(cfg, s, actor, listing, r).1.ProviderNeeded?
    ensures var (t, claim) := ClaimAttempt(cfg, s, actor, listing, r);
            listing < |t.listings| &&
            var (u, again) := ClaimAttempt(cfg, t, actor, listing, r.(expectedVersion := t.listings[listing].version));
            again == claim && u.attempts == t.attempts
  {
    StartNamesCurrentAttempt(cfg, s, actor, listing, r);
    var (t, claim) := ClaimAttempt(cfg, s, actor, listing, r);
    var repeated := r.(expectedVersion := t.listings[listing].version);
    var vehicle := t.listings[listing].vehicle.value;
    var request := Registry.Request(s.listings[listing].vehicleType, Registry.Key(r.identity, cfg.hashVersion));
    assert Registry.Normal(r.identity) && Registry.IsKey(request.key);
    InvParts(t);
    hide Inv, ClaimAttempt, Registry.Resolve, Registry.Carries, Registry.Inv, Registry.IsKey, Chained, Unique, RowValid;
    Registry.CarriedResolves(t.vehicles, request, vehicle);
    assert VehicleFits(cfg, t, listing, repeated, vehicle);
    CurrentAttemptIsKept(cfg, t, actor, listing, repeated, vehicle, claim.attempt);
  }

  // -------------------------------------------------------------------- from attempt to proof

  /** What a provider's answer must look like. */
  ghost predicate WellFormed(r: ProviderResult) {
    && r.textsValid && r.version >= 1
    && match r.status
       case ManualReview => true
       case Verified => r.verifiedAt.Some? && r.expiresAt.Some? && r.verifiedAt.value < r.expiresAt.value
                        && r.failure == Idv.Missing
       case Failed => r.failure != Idv.Missing && r.failure != Idv.Blank
       case _ => false
  }

  /** The world attempt `id` was opened in is still there: its owner, the owner's identity, the
      listing and its vehicle. */
  ghost predicate StillBound(s: State, id: Id)
    requires id < |s.attempts|
  {
    var a := s.attempts[id];
    && a.supersededAt.None?
    && a.owner < |s.identity.users| && s.identity.users[a.owner] && IdentityLive(s, a.owner)
    && Idv.Projected(s.identity, a.owner).value.current == a.identityAttempt
    && Idv.Projected(s.identity, a.owner).value.version == a.identityVersion
    && a.listing < |s.listings|
    && s.listings[a.listing].ownerUser == Some(a.owner) && s.listings[a.listing].ownerOrganization.None?
    && s.listings[a.listing].vehicle == Some(a.vehicle)
  }

  ghost predicate Answers(s: State, id: Id, r: ProviderResult) {
    && id < |s.attempts| && s.attempts[id].reference == Some(r.reference)
    && (s.attempts[id].status == Pending || (s.attempts[id].status == SessionPending && r.status == Failed))
    && StillBound(s, id)
  }

  /** The row as the result says. */
  ghost predicate Took(before: Attempt, after: Attempt, r: ProviderResult) {
    && after.status == r.status && after.resultEvent == Some(r.event) && after.resultVersion == Some(r.version)
    && after.verifiedAt == (if r.status == Verified then r.verifiedAt else None)
    && after.expiresAt == (if r.status == Verified then r.expiresAt else None)
    && after.failure == (match r.status
                         case Verified => None
                         case ManualReview => Some(Idv.ManualReviewRequired)
                         case _ => if r.failure.Listed? && r.failure.code != Idv.IdentityMismatch
                                   then Some(r.failure.code) else Some(Idv.VerificationFailed))
    && after == before.(status := after.status, resultEvent := after.resultEvent, resultVersion := after.resultVersion,
                        verifiedAt := after.verifiedAt, expiresAt := after.expiresAt, revokedAt := None,
                        failure := after.failure, fingerprint := after.fingerprint)
  }

  lemma StaleExactly(s: State, id: Id)
    requires Inv(s) && id < |s.attempts|
    ensures IsStale(s, id) <==> !StillBound(s, id)
  {
    InvParts(s);
    assert RowValid(s, s.attempts[id]);
    hide Inv, Chained, Unique, EvidenceConstraints;
  }

  lemma WellFormedExactly(r: ProviderResult)
    ensures ResultValid(r) <==> WellFormed(r)
  {}

  /** A provider's answer is applied exactly when it is well formed, its event is new, and it is for
      a waiting attempt whose world has not moved on; the row then says what the answer said, and
      nothing else changes. */
  lemma ResultAppliedExactly(cfg: Config, s: State, r: ProviderResult)
    requires Inv(s)
    ensures var (t, outcome) := ApplyProviderResult(cfg, s, r);
            && (outcome == Idv.Applied <==>
                  && WellFormed(r) && (forall i | 0 <= i < |s.attempts| :: s.attempts[i].resultEvent != Some(r.event))
                  && exists id: Id :: Answers(s, id, r))
            && (outcome == Idv.Applied ==>
                  forall id: Id | Answers(s, id, r) ::
                    && |t.attempts| == |s.attempts| && Took(s.attempts[id], t.attempts[id], r)
                    && t == s.(attempts := s.attempts[id := t.attempts[id]]))
  {
    InvParts(s);
    WellFormedExactly(r);
    hide Inv, Chained, EvidenceConstraints, WellFormed, ResultValid, StillBound, IsStale, RowValid;
    var target := ByReference(s.attempts, r.reference);
    forall id: Id | Answers(s, id, r) ensures target == Some(id) {}
    if target.Some? {
      StaleExactly(s, target.value);
      OneResult(cfg, s, r, target.value);
    }
    hide ApplyProviderResult, Unique, ByReference;
  }

  lemma OneResult(cfg: Config, s: State, r: ProviderResult, id: Id)
    requires Inv(s) && ByReference(s.attempts, r.reference) == Some(id) && (IsStale(s, id) <==> !StillBound(s, id))
    ensures var (t, outcome) := ApplyProviderResult(cfg, s, r);
            && (outcome == Idv.Applied <==>
                  && ResultValid(r) && (forall i | 0 <= i < |s.attempts| :: s.attempts[i].resultEvent != Some(r.event))
                  && Answers(s, id, r))
            && (outcome == Idv.Applied ==>
                  && |t.attempts| == |s.attempts| && Took(s.attempts[id], t.attempts[id], r)
                  && t == s.(attempts := s.attempts[id := t.attempts[id]]))
  {
    InvParts(s);
    assert RowValid(s, s.attempts[id]);
    TakesResult(cfg, s.attempts[id], s.vehicles[s.attempts[id].vehicle], r);
    hide Inv, Chained, Unique, StillBound, IsStale, ResultValid, WithResult, Took, ResultMatches, EvidenceConstraints;
  }

  lemma TakesResult(cfg: Config, a: Attempt, v: Registry.Vehicle, r: ProviderResult)
    ensures ResultValid(r) ==> Took(a, WithResult(cfg, a, v, r), r)
  {}

  /** The row says what the answer says, field by field. */
  ghost predicate AlreadySays(a: Attempt, r: ProviderResult) {
    && a.reference == Some(r.reference) && a.resultEvent == Some(r.event) && a.resultVersion == Some(r.version)
    && a.status == r.status
    && (if r.status == Verified then a.verifiedAt == r.verifiedAt && a.expiresAt == r.expiresAt && a.failure.None?
        else a.verifiedAt.None? && a.expiresAt.None? && a.failure.Some?)
    && (r.status == ManualReview ==> a.failure == Some(Idv.ManualReviewRequired))
    && (r.status == Failed ==>
          a.failure == Some(if r.failure.Listed? && r.failure.code != Idv.IdentityMismatch then r.failure.code
                            else Idv.VerificationFailed))
  }

  /** An event delivered before changes nothing: it is a duplicate exactly when the attempt it names
      already says all of it, and otherwise a conflict. */
  lemma RepeatedAnswerExactly(cfg: Config, s: State, r: ProviderResult)
    requires Inv(s) && WellFormed(r)
    requires exists i :: 0 <= i < |s.attempts| && s.attempts[i].reference == Some(r.reference)
    requires exists i :: 0 <= i < |s.attempts| && s.attempts[i].resultEvent == Some(r.event)
    ensures ApplyProviderResult(cfg, s, r)
            == (s, if exists i :: 0 <= i < |s.attempts| && AlreadySays(s.attempts[i], r) then Idv.Duplicate
                   else Idv.ResultConflict)
  {
    InvParts(s);
    WellFormedExactly(r);
    hide Inv, Chained, ResultValid, Disposition, WithResult;
    var id := ByReference(s.attempts, r.reference).value;
    var seen := ByResultEvent(s.attempts, r.event).value;
    assert AlreadySays(s.attempts[id], r)
        <==> (s.attempts[id].resultEvent == Some(r.event) && ResultMatches(s.attempts[id], r));
    hide ResultMatches, WellFormed;
    forall i | 0 <= i < |s.attempts| && AlreadySays(s.attempts[i], r) ensures i == id == seen {}
    assert s.attempts[id].resultEvent == Some(r.event) ==> id == seen;
  }

  lemma SessionFinalized(s: State, id: Id, reference: nat)
    requires Inv(s) && id < |s.attempts| && s.attempts[id].status == SessionPending
    requires s.attempts[id].reference.None?
    requires forall i | 0 <= i < |s.attempts| :: s.attempts[i].reference != Some(reference)
    ensures FinalizeSession(s, id, reference)
            == (s.(attempts := s.attempts[id := s.attempts[id].(reference := Some(reference), status := Pending)]),
                Idv.Finalized)
  {
    hide Inv;
  }

  lemma StillBoundWithSession(s: State, id: Id, reference: nat)
    requires id < |s.attempts|
    ensures var t := s.(attempts := s.attempts[id := s.attempts[id].(reference := Some(reference), status := Pending)]);
            StillBound(t, id) == StillBound(s, id)
  {}

  /** A verified answer makes the attempt a proof. */
  lemma VerifiedIsEligible(cfg: Config, u: State, before: Attempt, id: Id, r: ProviderResult)
    requires Inv(u) && id < |u.attempts| && StillBound(u, id) && Took(before, u.attempts[id], r) && WellFormed(r)
    requires r.status == Verified && u.clock < r.expiresAt.value && FingerprintValid(u.attempts[id].fingerprint)
    requires u.attempts[id].vehicle < |u.vehicles| && u.vehicles[u.attempts[id].vehicle].status == Active
    ensures Eligible(cfg, u, id, u.attempts[id].listing, u.attempts[id].basis)
  {
    hide Inv, FingerprintValid, Eligible;
    EligibleParts(cfg, u, id, u.attempts[id].listing, u.attempts[id].basis);
  }

  lemma AnswerCounts(cfg: Config, t: State, id: Id, r: ProviderResult)
    requires Inv(t) && Answers(t, id, r) && WellFormed(r)
    requires forall i | 0 <= i < |t.attempts| :: t.attempts[i].resultEvent != Some(r.event)
    ensures var (u, outcome) := ApplyProviderResult(cfg, t, r);
            && outcome == Idv.Applied && |u.attempts| == |t.attempts| && Inv(u) && StillBound(u, id)
            && u == t.(attempts := t.attempts[id := u.attempts[id]]) && Took(t.attempts[id], u.attempts[id], r)
  {
    hide Inv, Continues, ApplyProviderResult, WellFormed, StillBound, Took;
    ResultAppliedExactly(cfg, t, r);
    ResultStep(cfg, t, r);
    var u := ApplyProviderResult(cfg, t, r).0;
    assert Took(t.attempts[id], u.attempts[id], r);
    StillBoundAfter(t, u, id, r);
  }

  lemma SessionIsAnswered(cfg: Config, s: State, id: Id, reference: nat, r: ProviderResult)
    requires Inv(s) && id < |s.attempts| && StillBound(s, id)
    requires s.attempts[id].status == SessionPending && s.attempts[id].reference.None?
    requires forall i | 0 <= i < |s.attempts| ::
               s.attempts[i].reference != Some(reference) && s.attempts[i].resultEvent != Some(r.event)
    requires WellFormed(r) && r.reference == reference
    ensures var (t, ready) := FinalizeSession(s, id, reference);
            var (u, outcome) := ApplyProviderResult(cfg, t, r);
            && ready == Idv.Finalized && outcome == Idv.Applied && |u.attempts| == |s.attempts| && Inv(u)
            && u == s.(attempts := s.attempts[id := u.attempts[id]]) && StillBound(u, id)
            && Took(s.attempts[id].(reference := Some(reference)), u.attempts[id], r)
  {
    hide Inv, Continues, FinalizeSession, ApplyProviderResult, WellFormed, StillBound;
    SessionFinalized(s, id, reference);
    SessionReadyStep(s, id, reference);
    StillBoundWithSession(s, id, reference);
    AnswerCounts(cfg, FinalizeSession(s, id, reference).0, id, r);
  }

  /** From attempt to proof: the session is ready, the provider answers, and the answer counts. */
  lemma AProofIsObtained(cfg: Config, s: State, id: Id, reference: nat, r: ProviderResult)
    requires Inv(s) && id < |s.attempts| && StillBound(s, id)
    requires s.attempts[id].status == SessionPending && s.attempts[id].reference.None?
    requires forall i | 0 <= i < |s.attempts| ::
               s.attempts[i].reference != Some(reference) && s.attempts[i].resultEvent != Some(r.event)
    requires WellFormed(r) && r.reference == reference
    ensures var (t, ready) := FinalizeSession(s, id, reference);
            var (u, outcome) := ApplyProviderResult(cfg, t, r);
            && ready == Idv.Finalized && outcome == Idv.Applied && |u.attempts| == |s.attempts| && Inv(u)
            && u == s.(attempts := s.attempts[id := u.attempts[id]])
            && Took(s.attempts[id].(reference := Some(reference)), u.attempts[id], r)
            && (&& r.status == Verified && s.clock < r.expiresAt.value && FingerprintValid(u.attempts[id].fingerprint)
                && s.attempts[id].vehicle < |s.vehicles| && s.vehicles[s.attempts[id].vehicle].status == Active
                ==> Eligible(cfg, u, id, s.attempts[id].listing, s.attempts[id].basis))
  {
    var a := s.attempts[id];
    VerifiedHasTimes(r);
    hide Inv, Continues, FinalizeSession, ApplyProviderResult, WellFormed, Eligible, StillBound, FingerprintValid;
    SessionIsAnswered(cfg, s, id, reference, r);
    var u := ApplyProviderResult(cfg, FinalizeSession(s, id, reference).0, r).0;
    if r.status == Verified && s.clock < r.expiresAt.value && FingerprintValid(u.attempts[id].fingerprint)
       && a.vehicle < |s.vehicles| && s.vehicles[a.vehicle].status == Active {
      VerifiedIsEligible(cfg, u, a.(reference := Some(reference)), id, r);
    }
  }

  lemma StillBoundAfter(t: State, u: State, id: Id, r: ProviderResult)
    requires id < |t.attempts| == |u.attempts| && StillBound(t, id) && Took(t.attempts[id], u.attempts[id], r)
    requires u == t.(attempts := t.attempts[id := u.attempts[id]])
    ensures StillBound(u, id)
  {}

  lemma VerifiedHasTimes(r: ProviderResult)
    requires WellFormed(r)
    ensures r.status == Verified ==> r.verifiedAt.Some? && r.expiresAt.Some?
  {}

  /** The proof so obtained is what the owner's next start for that listing and basis is answered
      with: nothing is opened. */
  lemma ObtainedProofIsUsed(cfg: Config, u: State, id: Id, r: StartRequest)
    requires Inv(u) && id < |u.attempts| && u.attempts[id].listing < |u.listings|
    requires MayStart(u, u.attempts[id].owner, u.attempts[id].listing, r)
    requires VehicleFits(cfg, u, u.attempts[id].listing, r, u.attempts[id].vehicle)
    requires Eligible(cfg, u, id, u.attempts[id].listing, r.basis)
    ensures var (v, claim) := ClaimAttempt(cfg, u, u.attempts[id].owner, u.attempts[id].listing, r);
            claim == Reused(id, false) && v.attempts == u.attempts && v.reuses == u.reuses
  {
    var a := u.attempts[id];
    MayStartExactly(u, a.owner, a.listing, r);
    hide Inv, Eligible, ClaimAttempt, Registry.Resolve, MayStart;
    EligibleProofIsReused(cfg, u, a.owner, a.listing, r, id);
    ClaimedFor(cfg, u, a.owner, a.listing, r, a.vehicle);
    var l := u.listings[a.listing];
    var vehicles := Registry.Resolve(u.vehicles, l.vehicleType, Registry.Key(r.identity, cfg.hashVersion)).0;
    var mid := Associated(u, vehicles, a.listing, a.vehicle);
    assert Idv.Projected(mid.identity, a.owner).Some? by { MayStartExactly(u, a.owner, a.listing, r); }
    hide ClaimFor, Continues;
    NoReuseRow(cfg, mid, a.listing, a.owner, a.vehicle, r.basis);
  }

  lemma NoReuseRow(cfg: Config, s: State, listing: Id, actor: Id, vehicle: Id, basis: Basis)
    requires listing < |s.listings| && vehicle < |s.vehicles| && Idv.Projected(s.identity, actor).Some?
    requires ClaimFor(cfg, s, listing, actor, vehicle, basis).1.Reused?
    requires !ClaimFor(cfg, s, listing, actor, vehicle, basis).1.fromOther
    ensures ClaimFor(cfg, s, listing, actor, vehicle, basis).0.reuses == s.reuses
  {
    hide OpenAttempt, cfg.policy.Select, GroupEvidence, ContextFor;
    OpenIsNoReuse(cfg, s, listing, actor, vehicle, Idv.Projected(s.identity, actor).value, basis);
  }

  lemma OpenIsNoReuse(cfg: Config, s: State, listing: Id, actor: Id, vehicle: Id, p: Idv.Projection, basis: Basis)
    requires vehicle < |s.vehicles|
    ensures OpenAttempt(cfg, s, listing, actor, vehicle, p, basis).1.ProviderNeeded?
  {
    hide NewAttempt;
  }

  // -------------------------------------------------------------------- the rest of a start

  /** A session that could not be opened fails the attempt, and only while it waits for its session. */
  lemma SessionFailureExactly(s: State, id: Id, failure: Idv.SuppliedCode)
    ensures var (t, outcome) := FinalizeSessionFailure(s, id, failure);
            var waits := id < |s.attempts| && s.attempts[id].status == SessionPending;
            && (outcome == Idv.Finalized <==> waits) && (!waits ==> t == s)
            && (waits ==>
                  && |t.attempts| == |s.attempts| && t == s.(attempts := s.attempts[id := t.attempts[id]])
                  && t.attempts[id].failure.Some?
                  && t.attempts[id] == s.attempts[id].(status := Failed, failure := t.attempts[id].failure))
  {}

  lemma ClaimForListings(cfg: Config, s: State, listing: Id, actor: Id, vehicle: Id, basis: Basis)
    ensures var t := ClaimFor(cfg, s, listing, actor, vehicle, basis).0;
            t.listings == s.listings && t.vehicles == s.vehicles && t.identity == s.identity && t.clock == s.clock
  {
    hide cfg.policy.Select, ContextFor, GroupEvidence, NewAttempt;
  }

  /** A start that is not refused ties the listing to the vehicle, which the first time makes a new
      version of the listing, and touches no other listing. */
  lemma StartTiesListing(cfg: Config, s: State, actor: Id, listing: Id, r: StartRequest, vehicle: Id)
    requires Inv(s) && MayStart(s, actor, listing, r) && VehicleFits(cfg, s, listing, r, vehicle)
    ensures var t := ClaimAttempt(cfg, s, actor, listing, r).0;
            var l := s.listings[listing];
            && |t.listings| == |s.listings| && t.listings == s.listings[listing := t.listings[listing]]
            && t.listings[listing] == l.(vehicle := Some(vehicle),
                                         version := if l.vehicle.Some? then l.version else l.version + 1)
  {
    ClaimedFor(cfg, s, actor, listing, r, vehicle);
    var l := s.listings[listing];
    var vehicles := Registry.Resolve(s.vehicles, l.vehicleType, Registry.Key(r.identity, cfg.hashVersion)).0;
    assert s.listings[listing := s.listings[listing]] == s.listings;
    hide Inv, Continues, ClaimFor, ClaimAttempt, Registry.Resolve, MayStart, Registry.Carries;
    ClaimForListings(cfg, Associated(s, vehicles, listing, vehicle), listing, actor, vehicle, r.basis);
  }

  /** A reuse is announced exactly when the proof is another listing's and had not been announced for
      this one. */
  lemma ReuseIsAnnounced(cfg: Config, s: State, actor: Id, listing: Id, r: StartRequest)
    requires Inv(s) && ClaimAttempt(cfg, s, actor, listing, r).1.Reused?
    ensures var (t, claim) := ClaimAttempt(cfg, s, actor, listing, r);
            t.reuses == if claim.fromOther && Reuse(listing, claim.attempt) !in s.reuses
                        then s.reuses + [Reuse(listing, claim.attempt)] else s.reuses
  {
    hide Inv, Registry.Resolve, RequestRefusal, cfg.policy.Select, ContextFor, GroupEvidence, OpenAttempt;
    if RequestRefusal(s, actor, listing, r).None? {
      var l := s.listings[listing];
      var (vehicles, out) := Registry.Resolve(s.vehicles, l.vehicleType, Registry.Key(r.identity, cfg.hashVersion));
      if out.Resolved? && l.vehicle in {None, Some(out.vehicle)} {
        var mid := Associated(s, vehicles, listing, out.vehicle);
        if out.vehicle < |mid.vehicles| && Idv.Projected(mid.identity, actor).Some? {
          OpenIsNoReuse(cfg, mid, listing, actor, out.vehicle, Idv.Projected(mid.identity, actor).value, r.basis);
        }
      }
    }
  }
}
