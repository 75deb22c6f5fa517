/** Submitting a listing: gathering the evidence, judging it, recording one attempt per listing
    version and asking for moderation. */
module Submission {
  import opened Core
  import opened OwnershipReuse
  import MediaProcessing
  import Readiness
  import VehicleRegistry
  import Idv = IdentityVerification
  import Own = OwnershipVerification

  datatype MediaItem = MediaItem(id: Id, version: nat, status: MediaProcessing.MediaStatus)

  /** What the transaction reads from the profile, location, specification and media tables;
      `media` holds the listing's images that are not removed, in display order. */
  datatype Facts = Facts(sellerReady: bool, detailsComplete: bool, locationPresent: bool, media: seq<MediaItem>)

  /** The ownership row a submission would rely on, and the status it is taken to have. */
  datatype Chosen = Chosen(
    canonical: bool,
    proof: Option<Evidence>,
    status: Option<VerificationStatus>,
    reused: bool,
    policyVersion: Option<int>,
    effectiveExpiresAt: Option<Time>)

  /** `media` stands for the fingerprint of the media set. */
  datatype Attempt = Attempt(
    listing: Id,
    version: nat,
    number: nat,
    actor: Id,
    owner: Id,
    status: Readiness.SubmissionStatus,
    identityAttempt: Option<Id>,
    identityVersion: Option<nat>,
    proof: Option<Id>,
    resultVersion: Option<int>,
    fingerprint: Option<string>,
    reused: bool,
    policyVersion: Option<int>,
    effectiveExpiresAt: Option<Time>,
    media: seq<MediaItem>,
    mediaVersion: nat,
    blockerCodes: seq<Readiness.BlockerCode>,
    submittedAt: Time,
    supersededAt: Option<Time>)

  /** A "listing.moderation.requested" outbox row. */
  datatype Requested = Requested(listing: Id, version: nat)

  /** One line per committed submission. */
  datatype Recorded = Recorded(listing: Id, version: nat, status: Readiness.SubmissionStatus)

  /** The submission columns of the listing row. */
  datatype Mark = Mark(moderation: Readiness.GateState, submittedVersion: nat, submittedAt: Time)

  datatype State = State(
    own: Own.State,
    rows: seq<Attempt>,
    requested: seq<Requested>,
    history: seq<Recorded>,
    marks: map<Id, Mark>)

  datatype Refusal = ListingNotFound | DealerNotImplemented | VersionChanged
  datatype Outcome = Refused(why: Refusal) | Submitted(attempt: Id, moderation: bool)

  // -------------------------------------------------------------------- the evidence

  predicate IdentityValid(p: Idv.Projection, now: Time) {
    p.status == Verified && p.expiresAt.Some? && p.expiresAt.value > now && p.revokedAt.None?
  }

  function PreferredBasis(ordered: seq<Evidence>, listing: Id): Basis {
    var current := FirstVerified(ordered, listing, true);
    var other := FirstVerified(ordered, listing, false);
    if current.Some? then current.value.basis else if other.Some? then other.value.basis else RegisteredOwner
  }

  function LatestOf(ordered: seq<Evidence>, listing: Id): (r: Option<Evidence>)
    ensures r.Some? ==> r.value in ordered && r.value.listing == listing
    ensures r.None? ==> forall i | 0 <= i < |ordered| :: ordered[i].listing != listing
  {
    if ordered == [] then None
    else if ordered[0].listing == listing then Some(ordered[0])
    else LatestOf(ordered[1..], listing)
  }

  function BlockedStatus(code: Option<Code>, fallback: Option<VerificationStatus>): Option<VerificationStatus> {
    if code == Some(VerificationExpired) then Some(Expired)
    else if code == Some(VerificationRevoked) then Some(Revoked)
    else if code == Some(VerificationPending) then Some(Pending)
    else fallback
  }

  function ContextFor(now: Time, p: Idv.Projection, owner: Id, vehicle: Id, v: VehicleRegistry.Vehicle,
      basis: Basis): Context {
    Context(now, owner, vehicle, p.current, p.version, v.identityVersion, v.hashVersion, v.status, basis,
            IdentityValid(p, now), true)
  }

  function ChooseFrom(policy: Policy, c: Context, group: seq<Evidence>, listing: Id): Chosen {
    var selection := policy.Select(c, group, listing);
    if selection.evidence.Some? && selection.decision.eligible then
      Chosen(true, selection.evidence, Some(selection.evidence.value.status), selection.decision.reused,
             selection.decision.policyVersion, selection.decision.effectiveExpiresAt)
    else
      var latest := LatestOf(SortDescending(group), listing);
      var fallback := if latest.Some? then Some(latest.value.status) else None;
      Chosen(true, latest, BlockedStatus(selection.decision.code, fallback), false, None, None)
  }

  function GroupOf(s: Own.State, l: Own.Listing): seq<Evidence> {
    if l.ownerUser.Some? && l.vehicle.Some? then Own.GroupEvidence(s.attempts, l.ownerUser.value, l.vehicle.value)
        else []
  }

  predicate HasCanonical(s: Own.State, l: Own.Listing) {
    && l.ownerUser.Some? && l.vehicle.Some? && l.vehicle.value < |s.vehicles|
    && Idv.Projected(s.identity, l.ownerUser.value).Some?
  }

  function ContextOf(s: Own.State, l: Own.Listing, listing: Id): Context
    requires HasCanonical(s, l)
  {
    ContextFor(s.clock, Idv.Projected(s.identity, l.ownerUser.value).value, l.ownerUser.value, l.vehicle.value,
               s.vehicles[l.vehicle.value], PreferredBasis(SortDescending(GroupOf(s, l)), listing))
  }

  function Choose(policy: Policy, s: Own.State, listing: Id): Chosen
    requires listing < |s.listings|
  {
    var l := s.listings[listing];
    if !HasCanonical(s, l) then Chosen(false, None, None, false, None, None)
    else ChooseFrom(policy, ContextOf(s, l, listing), GroupOf(s, l), listing)
  }

  predicate MatchesCurrent(s: Own.State, l: Own.Listing, chosen: Chosen) {
    && HasCanonical(s, l) && chosen.proof.Some? && chosen.status == Some(Verified)
    && var p := Idv.Projected(s.identity, l.ownerUser.value).value;
    && var e := chosen.proof.value;
    && e.owner == l.ownerUser.value && e.vehicle == l.vehicle.value
    && e.identityAttempt == p.current && e.identityVersion == p.version
    && e.vehicleIdentityVersion == s.vehicles[l.vehicle.value].identityVersion
    && e.resultVersion.Some?
  }

  function Statuses(media: seq<MediaItem>): (r: seq<MediaProcessing.MediaStatus>)
    ensures |r| == |media| && forall i | 0 <= i < |media| :: r[i] == media[i].status
  {
    if media == [] then [] else Statuses(media[..|media| - 1]) + [media[|media| - 1].status]
  }

  function VersionSum(media: seq<MediaItem>): nat {
    if media == [] then 0 else VersionSum(media[..|media| - 1]) + media[|media| - 1].version
  }

  function MediaSetVersion(media: seq<MediaItem>): nat {
    if |media| + VersionSum(media) >= 1 then |media| + VersionSum(media) else 1
  }

  function SnapshotOf(s: Own.State, listing: Id, facts: Facts, chosen: Chosen,
      existing: Option<Attempt>): Readiness.Snapshot
    requires listing < |s.listings|
  {
    var l := s.listings[listing];
    var p := if l.ownerUser.Some? then Idv.Projected(s.identity, l.ownerUser.value) else None;
    Readiness.Snapshot(
      s.clock, true, facts.sellerReady, facts.detailsComplete, chosen.canonical, facts.locationPresent,
      if p.Some? then Some(p.value.status) else None,
      if p.Some? then p.value.expiresAt else None,
      if p.Some? then p.value.revokedAt else None,
      chosen.status,
      if chosen.reused then chosen.effectiveExpiresAt else if chosen.proof.Some? then chosen.proof.value.expiresAt
          else None,
      if chosen.proof.Some? then chosen.proof.value.revokedAt else None,
      MatchesCurrent(s, l, chosen),
      chosen.proof.Some? && chosen.proof.value.fingerprint != ""
        && (existing.None? || existing.value.fingerprint == Some(chosen.proof.value.fingerprint)),
      Statuses(facts.media),
      existing.Some? && existing.value.version != l.version,
      existing.Some? && existing.value.media != facts.media)
  }

  /** The transaction's evidence: the chosen proof and what the gates say. */
  function Snapshot(cfg: Own.Config, s: Own.State, listing: Id, facts: Facts,
      existing: Option<Attempt>): Readiness.Snapshot
    requires listing < |s.listings|
  {
    SnapshotOf(s, listing, facts, Choose(cfg.policy, s, listing), existing)
  }

  // -------------------------------------------------------------------- the attempt table

  predicate IsCurrent(a: Attempt, listing: Id, version: nat) {
    a.listing == listing && a.version == version && a.supersededAt.None?
  }

  function ForVersion(rows: seq<Attempt>, listing: Id, version: nat): (r: Option<Id>)
    ensures r.Some? ==> r.value < |rows| && IsCurrent(rows[r.value], listing, version)
    ensures r.None? ==> forall i | 0 <= i < |rows| :: !IsCurrent(rows[i], listing, version)
  {
    if rows == [] then None
    else if IsCurrent(rows[|rows| - 1], listing, version) then Some(|rows| - 1)
    else ForVersion(rows[..|rows| - 1], listing, version)
  }

  function HighestNumber(rows: seq<Attempt>, listing: Id): (n: nat)
    ensures forall i | 0 <= i < |rows| && rows[i].listing == listing :: rows[i].number <= n
  {
    if rows == [] then 0
    else
      var rest := HighestNumber(rows[..|rows| - 1], listing);
      if rows[|rows| - 1].listing == listing && rows[|rows| - 1].number > rest then rows[|rows| - 1].number else rest
  }

  function Superseded(a: Attempt, listing: Id, version: nat, now: Time): Attempt {
    if a.listing == listing && a.version != version && a.supersededAt.None? then a.(supersededAt := Some(now)) else a
  }

  function SupersedeOthers(rows: seq<Attempt>, listing: Id, version: nat, now: Time): (later: seq<Attempt>)
    ensures |later| == |rows| && forall i | 0 <= i < |rows| :: later[i] == Superseded(rows[i], listing, version, now)
  {
    if rows == [] then []
    else SupersedeOthers(rows[..|rows| - 1], listing, version,
        now) + [Superseded(rows[|rows| - 1], listing, version, now)]
  }

  /** The columns written on every submission, first or repeated. */
  function Filled(a: Attempt, actor: Id, now: Time, p: Option<Idv.Projection>, chosen: Chosen, facts: Facts,
      e: Readiness.Evaluation): Attempt
    requires |e.gates| > 0
  {
    a.(actor := actor,
       status := Readiness.StatusOf(e),
       identityAttempt := if p.Some? then Some(p.value.current) else None,
       identityVersion := if p.Some? then Some(p.value.version) else None,
       proof := if chosen.proof.Some? then Some(chosen.proof.value.attempt) else None,
       resultVersion := if chosen.proof.Some? then chosen.proof.value.resultVersion else None,
       fingerprint := if chosen.proof.Some? then Some(chosen.proof.value.fingerprint) else None,
       reused := chosen.reused,
       policyVersion := chosen.policyVersion,
       effectiveExpiresAt := if chosen.reused then chosen.effectiveExpiresAt else None,
       media := facts.media,
       mediaVersion := MediaSetVersion(facts.media),
       blockerCodes := Readiness.BlockerCodes(e),
       submittedAt := now)
  }

  function BlankAttempt(listing: Id, version: nat, number: nat, actor: Id, owner: Id, now: Time): Attempt {
    Attempt(listing, version, number, actor, owner, Readiness.SubmissionBlocked, None, None, None, None, None,
            false, None, None, [], 1, [], now, None)
  }

  function SubmitRefusal(s: State, actor: Id, listing: Id, expected: nat): Option<Refusal> {
    if actor >= |s.own.identity.users| || !s.own.identity.users[actor] || listing >= |s.own.listings|
        then Some(ListingNotFound)
    else
      var l := s.own.listings[listing];
      if l.ownerOrganization.Some? then Some(DealerNotImplemented)
      else if l.ownerUser != Some(actor) then Some(ListingNotFound)
      else if l.version != expected then Some(VersionChanged)
      else None
  }

  /** The row a submission leaves: the current version's, filled again, or a new one. */
  function SubmittedRow(s: State, listing: Id, actor: Id, chosen: Chosen, facts: Facts,
      e: Readiness.Evaluation): Attempt
    requires listing < |s.own.listings| && |e.gates| > 0
  {
    var version, now := s.own.listings[listing].version, s.own.clock;
    var existing := ForVersion(s.rows, listing, version);
    Filled(if existing.Some? then s.rows[existing.value]
           else BlankAttempt(listing, version, HighestNumber(s.rows, listing) + 1, actor, actor, now),
           actor, now, Idv.Projected(s.own.identity, actor), chosen, facts, e)
  }

  /** The table around the recorded row, the row's id, and whether moderation is requested. */
  function Record(s: State, listing: Id, version: nat, row: Attempt): (seq<Attempt>, Id, bool) {
    var existing := ForVersion(s.rows, listing, version);
    var rows := SupersedeOthers(s.rows, listing, version, s.own.clock);
    var request := row.status == Readiness.ModerationWaiting
                   && (existing.None? || s.rows[existing.value].status != Readiness.ModerationWaiting);
    if existing.Some? then (rows[existing.value := row], existing.value, request)
    else (rows + [row], |rows|, request)
  }

  function Commit(s: State, listing: Id, version: nat, row: Attempt, moderation: Readiness.GateState): (State,
      Outcome) {
    var (rows, id, request) := Record(s, listing, version, row);
    (State(s.own, rows,
           if request then s.requested + [Requested(listing, version)] else s.requested,
           s.history + [Recorded(listing, version, row.status)],
           s.marks[listing := Mark(moderation, version, s.own.clock)]),
     Submitted(id, request))
  }

  function Submit(cfg: Own.Config, s: State, actor: Id, listing: Id, expected: nat, facts: Facts): (State, Outcome) {
    var refusal := SubmitRefusal(s, actor, listing, expected);
    if refusal.Some? then (s, Refused(refusal.value))
    else
      var chosen := Choose(cfg.policy, s.own, listing);
      var e := Readiness.Evaluate(SnapshotOf(s.own, listing, facts, chosen, None));
      Commit(s, listing, expected, SubmittedRow(s, listing, actor, chosen, facts, e), e.moderation)
  }

  // -------------------------------------------------------------------- runs

  datatype Action =
    | Elsewhere(action: Own.Action)
    | SubmitListing(actor: Id, listing: Id, expected: nat, facts: Facts)

  function Step(cfg: Own.Config, s: State, a: Action): State {
    match a
    case Elsewhere(o) => s.(own := Own.Step(cfg, s.own, o))
    case SubmitListing(actor, listing, expected, facts) => Submit(cfg, s, actor, listing, expected, facts).0
  }

  function Run(cfg: Own.Config, s: State, actions: seq<Action>): State
    decreases |actions|
  {
    if actions == [] then s else Run(cfg, Step(cfg, s, actions[0]), actions[1..])
  }

  function Initial(users: seq<bool>, clock: Time): State {
    State(Own.Initial(users, clock), [], [], [], map[])
  }

  // -------------------------------------------------------------------- what the ownership gate says

  ghost predicate Proven(policy: Policy, s: Own.State, listing: Id)
    requires listing < |s.listings|
  {
    var l := s.listings[listing];
    HasCanonical(s, l) && policy.Select(ContextOf(s, l, listing), GroupOf(s, l), listing).evidence.Some?
  }

  /** The branch taken when the policy refuses: the listing's own latest row, on its own terms. */
  ghost predicate FallsBack(policy: Policy, s: Own.State, listing: Id)
    requires listing < |s.listings|
  {
    var l := s.listings[listing];
    && HasCanonical(s, l)
    && var selection := policy.Select(ContextOf(s, l, listing), GroupOf(s, l), listing);
    && var latest := LatestOf(SortDescending(GroupOf(s, l)), listing);
    && selection.evidence.None?
    && selection.decision.code !in {Some(VerificationExpired), Some(VerificationRevoked), Some(VerificationPending)}
    && latest.Some? && latest.value.status == Verified && latest.value.revokedAt.None?
    && latest.value.expiresAt.Some? && latest.value.expiresAt.value > s.clock
    && latest.value.fingerprint != ""
    && MatchesCurrent(s, l, Chosen(true, latest, Some(Verified), false, None, None))
  }

  lemma ChooseProven(policy: Policy, s: Own.State, listing: Id)
    requires listing < |s.listings| && HasCanonical(s, s.listings[listing])
    ensures var l := s.listings[listing];
            var selection := policy.Select(ContextOf(s, l, listing), GroupOf(s, l), listing);
            var chosen := Choose(policy, s, listing);
            && chosen.canonical
            && (Proven(policy, s, listing) ==>
                  && chosen.proof == selection.evidence && chosen.proof.value in GroupOf(s, l)
                  && chosen.status == Some(Verified)
                  && chosen.reused == (chosen.proof.value.listing != listing)
                  && policy.Refusal(ContextOf(s, l, listing), chosen.proof.value, false, chosen.reused).None?
                  && chosen.effectiveExpiresAt == policy.EffectiveExpiry(chosen.proof.value, chosen.reused)
                  && chosen.policyVersion == if chosen.reused then Some(policy.version) else None)
            && (!Proven(policy, s, listing) ==>
                  var latest := LatestOf(SortDescending(GroupOf(s, l)), listing);
                  && chosen.proof == latest && !chosen.reused && chosen.policyVersion.None?
                      && chosen.effectiveExpiresAt.None?
                  && chosen.status == BlockedStatus(selection.decision.code, if latest.Some?
                      then Some(latest.value.status) else None))
  {
    hide policy.Select, policy.Refusal, policy.EffectiveExpiry, ContextOf, GroupOf, LatestOf, SortDescending;
    var l := s.listings[listing];
    var c := ContextOf(s, l, listing);
    SelectIsConsistent(policy, c, GroupOf(s, l), listing);
    var selection := policy.Select(c, GroupOf(s, l), listing);
    if selection.evidence.Some? {
      RefusalNone(policy, c, selection.evidence.value, false, selection.decision.reused);
    }
  }

  /** What acceptance by the policy says about the row, in the gate's own terms. */
  lemma AcceptedRow(policy: Policy, s: Own.State, l: Own.Listing, listing: Id, e: Evidence, reused: bool)
    requires HasCanonical(s, l) && policy.Refusal(ContextOf(s, l, listing), e, false, reused).None?
    ensures MatchesCurrent(s, l, Chosen(true, Some(e), Some(Verified), reused, None, None))
    ensures e.revokedAt.None? && e.fingerprint != ""
    ensures var expiry := policy.EffectiveExpiry(e, reused);
            expiry.Some? && expiry.value > s.clock && (!reused ==> expiry == e.expiresAt)
  {
    assert FingerprintValid(e.fingerprint);
    hide FingerprintValid, PreferredBasis, GroupOf, SortDescending, Unfinished;
  }

  /** The ownership gate is ready exactly when the policy accepts a proof, or the fallback branch
      finds the listing's own latest row good on its own terms. */
  lemma OwnershipGateExactly(cfg: Own.Config, s: Own.State, listing: Id, facts: Facts)
    requires listing < |s.listings|
    ensures Readiness.OwnershipHolds(Snapshot(cfg, s, listing, facts, None)) <==>
            Proven(cfg.policy, s, listing) || FallsBack(cfg.policy, s, listing)
  {
    var l := s.listings[listing];
    if HasCanonical(s, l) {
      ChooseProven(cfg.policy, s, listing);
      var chosen := Choose(cfg.policy, s, listing);
      if Proven(cfg.policy, s, listing) {
        AcceptedRow(cfg.policy, s, l, listing, chosen.proof.value, chosen.reused);
      }
      hide Choose, cfg.policy.Select, cfg.policy.Refusal, cfg.policy.EffectiveExpiry, ContextOf, GroupOf,
          SortDescending, LatestOf, Statuses, HasCanonical;
    } else {
      hide cfg.policy.Select, ContextOf, GroupOf, LatestOf, SortDescending, Statuses;
    }
  }

  /** A proof the policy accepts always makes the gate ready, also when it comes from another
      listing and expires earlier for that reason. */
  lemma ProvenMakesGateReady(cfg: Own.Config, s: Own.State, listing: Id, facts: Facts)
    requires listing < |s.listings| && Proven(cfg.policy, s, listing)
    ensures Readiness.OwnershipGate(Snapshot(cfg, s, listing, facts, None)).state == Readiness.Ready
  {
    hide Snapshot, Proven;
    OwnershipGateExactly(cfg, s, listing, facts);
    Readiness.GateMeaning(Snapshot(cfg, s, listing, facts, None), 6);
  }

  // -------------------------------------------------------------------- how far the fallback reaches

  /** In every state the ownership service reaches, the fallback adds nothing for a proof that is
      still the newest of its vehicle: it only ever lets through a proof that has been superseded
      (or a vehicle or identity that other gates or nobody has cleared). */
  lemma FallbackMeansSuperseded(policy: Policy, s: Own.State, listing: Id)
    requires Own.Inv(s) && listing < |s.listings| && FallsBack(policy, s, listing)
    requires forall e | e in GroupOf(s, s.listings[listing]) :: FingerprintValid(e.fingerprint)
    requires IdentityValid(Idv.Projected(s.identity, s.listings[listing].ownerUser.value).value, s.clock)
    requires s.vehicles[s.listings[listing].vehicle.value].status == Active
    ensures Choose(policy, s, listing).proof.Some? && Choose(policy, s, listing).proof.value.supersededAt.Some?
  {
    var l := s.listings[listing];
    var group := GroupOf(s, l);
    var ordered := SortDescending(group);
    ChooseProven(policy, s, listing);
    var e := LatestOf(ordered, listing).value;
    SortKeepsElements(group);
    GroupRow(s, l, e);
    if e.supersededAt.None? {
      var c := ContextOf(s, l, listing);
      OwnBasis(s, l, listing, e);
      hide policy.Select, FingerprintValid, LatestOf, GroupOf, SortDescending, Choose, Own.Inv, ContextOf;
      CurrentRowAccepted(policy, s, l, listing, e);
      Own.GroupChained(s, l.ownerUser.value, l.vehicle.value) by { Own.InvParts(s); }
      GroupDistinct(s, l);
      assert forall f | f in group :: f.number <= e.number;
      SelectLooksAtNewestOnly(policy, c, group, listing, e);
    }
  }

  lemma GroupDistinct(s: Own.State, l: Own.Listing)
    requires Own.Inv(s) && HasCanonical(s, l)
    ensures DistinctNumbers(GroupOf(s, l)) && OnlyNewestUnsuperseded(GroupOf(s, l))
  {
    Own.InvParts(s);
    hide Own.Inv, Own.Chained, DistinctNumbers, OnlyNewestUnsuperseded;
    Own.GroupChained(s, l.ownerUser.value, l.vehicle.value);
    assert s.attempts[..|s.attempts|] == s.attempts;
    Own.PrefixDistinct(s.attempts, |s.attempts|, l.ownerUser.value, l.vehicle.value);
  }

  /** What every row of a vehicle's group satisfies in a reachable state. */
  lemma GroupRow(s: Own.State, l: Own.Listing, e: Evidence)
    requires Own.Inv(s) && HasCanonical(s, l) && e in GroupOf(s, l)
    ensures e.owner == l.ownerUser.value && e.vehicle == l.vehicle.value
    ensures e.hashVersion == s.vehicles[l.vehicle.value].hashVersion
    ensures e.vehicleIdentityVersion == s.vehicles[l.vehicle.value].identityVersion
    ensures var p := Idv.Projected(s.identity, l.ownerUser.value).value;
            e.identityVersion == p.version ==> e.identityAttempt == p.current
    ensures e.status == Verified ==>
              e.verifiedAt.Some? && e.expiresAt.Some? && e.resultVersion.Some? && e.resultVersion.value > 0
    ensures e.status != Expired && e.status != Revoked && (e.status in {Verified, Failed} ==> e.revokedAt.None?)
  {
    Own.InvParts(s);
    hide Own.Inv;
    Own.GroupEvidenceMeaning(s.attempts, l.ownerUser.value, l.vehicle.value);
    assert Own.RowValid(s, s.attempts[e.attempt]);
  }

  /** The listing's own newest verified row decides which basis is asked for. */
  lemma OwnBasis(s: Own.State, l: Own.Listing, listing: Id, e: Evidence)
    requires Own.Inv(s) && HasCanonical(s, l) && e in GroupOf(s, l)
    requires e.listing == listing && e.status == Verified && e.supersededAt.None?
    ensures PreferredBasis(SortDescending(GroupOf(s, l)), listing) == e.basis
  {
    var group := GroupOf(s, l);
    GroupDistinct(s, l);
    SortKeepsElements(group);
    SortIsDescending(group);
    hide Own.Inv, GroupOf, SortDescending, FirstVerified, HasCanonical;
    OrderedIsKeyed(group, SortDescending(group));
    FirstVerifiedIsNewest(SortDescending(group), listing, true, e);
  }

  lemma CurrentRowAccepted(policy: Policy, s: Own.State, l: Own.Listing, listing: Id, e: Evidence)
    requires HasCanonical(s, l) && s.vehicles[l.vehicle.value].status == Active
    requires IdentityValid(Idv.Projected(s.identity, l.ownerUser.value).value, s.clock)
    requires MatchesCurrent(s, l, Chosen(true, Some(e), Some(Verified), false, None, None))
    requires e.hashVersion == s.vehicles[l.vehicle.value].hashVersion && e.resultVersion.value > 0 && e.verifiedAt.Some?
    requires e.status == Verified && e.supersededAt.None? && e.revokedAt.None? && FingerprintValid(e.fingerprint)
    requires e.expiresAt.Some? && e.expiresAt.value > s.clock
    requires ContextOf(s, l, listing).basis == e.basis
    ensures policy.Refusal(ContextOf(s, l, listing), e, false, false).None?
  {
    hide FingerprintValid, GroupOf, SortDescending, PreferredBasis;
  }

  // -------------------------------------------------------------------- the gate in facts of the tables

  ghost predicate NewestOfListing(group: seq<Evidence>, listing: Id, e: Evidence) {
    && e in group && e.listing == listing
    && forall f | f in group && f.listing == listing :: f.number <= e.number
  }

  ghost predicate IdentityLive(s: Own.State, l: Own.Listing)
    requires HasCanonical(s, l)
  {
    IdentityValid(Idv.Projected(s.identity, l.ownerUser.value).value, s.clock)
  }

  /** The basis to ask for is the row's own: no newer verified row of the submitted listing says
      otherwise. */
  ghost predicate BasisAgrees(group: seq<Evidence>, listing: Id, n: Evidence) {
    n.listing != listing ==> forall f | NewestCandidate(group, listing, true, f) :: f.basis == n.basis
  }

  /** The newest row of the vehicle is a proof the policy accepts. */
  ghost predicate NewestAccepted(policy: Policy, s: Own.State, listing: Id, n: Evidence)
    requires listing < |s.listings| && HasCanonical(s, s.listings[listing])
  {
    var l := s.listings[listing];
    && n.status == Verified && n.supersededAt.None?
    && InForce(policy.freshnessDays, n, n.listing != listing, s.clock)
    && IdentityLive(s, l) && n.identityVersion == Idv.Projected(s.identity, l.ownerUser.value).value.version
    && s.vehicles[l.vehicle.value].status == Active
    && FingerprintValid(n.fingerprint)
    && BasisAgrees(GroupOf(s, l), listing, n)
  }

  /** The listing's own newest row is verified, unexpired by its own expiry and bound to the
      present identity version. Nothing is said about supersession. */
  ghost predicate OwnRowStillGood(s: Own.State, l: Own.Listing, e: Evidence)
    requires HasCanonical(s, l)
  {
    && e.status == Verified && e.expiresAt.Some? && e.expiresAt.value > s.clock
    && e.identityVersion == Idv.Projected(s.identity, l.ownerUser.value).value.version
    && e.fingerprint != ""
  }

  /** The refusal is not "expired" and not "pending": an unsuperseded newest proof of another listing
      must not have outlived the reuse window, and if there is no proof of another listing at all
      the newest row must be settled. */
  ghost predicate RefusalIsMild(policy: Policy, s: Own.State, listing: Id, n: Evidence)
    requires listing < |s.listings|
  {
    if Candidate(n, listing, false) then
      n.supersededAt.Some? || InForce(policy.freshnessDays, n, true, s.clock)
    else
      ProofElsewhere(GroupOf(s, s.listings[listing]), listing) || !Unfinished(n.status)
  }

  lemma {:induction false} LatestIsFirst(ordered: seq<Evidence>, listing: Id)
    requires LatestOf(ordered, listing).Some?
    ensures exists k :: 0 <= k < |ordered| && ordered[k] == LatestOf(ordered, listing).value
                        && forall j | 0 <= j < k :: ordered[j].listing != listing
  {
    if ordered[0].listing != listing {
      LatestIsFirst(ordered[1..], listing);
      var k :| 0 <= k < |ordered[1..]| && ordered[1..][k] == LatestOf(ordered[1..], listing).value
               && forall j | 0 <= j < k :: ordered[1..][j].listing != listing;
      assert forall j | 0 <= j < k + 1 :: j == 0 || ordered[j] == ordered[1..][j - 1];
      assert ordered[k + 1] == LatestOf(ordered, listing).value;
    } else {
      assert ordered[0] == LatestOf(ordered, listing).value;
    }
  }

  lemma LatestInOrder(ordered: seq<Evidence>, listing: Id, e: Evidence)
    requires Descending(ordered) && NumberIsKey(ordered)
    ensures LatestOf(ordered, listing) == Some(e) <==> NewestOfListing(ordered, listing, e)
  {
    hide LatestOf;
    var latest := LatestOf(ordered, listing);
    if latest.Some? {
      LatestIsFirst(ordered, listing);
      var k :| 0 <= k < |ordered| && ordered[k] == latest.value
               && forall j | 0 <= j < k :: ordered[j].listing != listing;
      forall f | f in ordered && f.listing == listing ensures f.number <= latest.value.number {
        var j :| 0 <= j < |ordered| && ordered[j] == f;
      }
    }
  }

  lemma LatestIsNewest(group: seq<Evidence>, listing: Id, e: Evidence)
    requires DistinctNumbers(group)
    ensures LatestOf(SortDescending(group), listing) == Some(e) <==> NewestOfListing(group, listing, e)
  {
    var ordered := SortDescending(group);
    SortKeepsElements(group);
    SortIsDescending(group);
    OrderedIsKeyed(group, ordered);
    hide SortDescending, DistinctNumbers, LatestOf, Descending, NumberIsKey;
    LatestInOrder(ordered, listing, e);
  }

  lemma BasisMeaning(group: seq<Evidence>, listing: Id, n: Evidence)
    requires DistinctNumbers(group) && NewestIn(group, n) && n.status == Verified
    ensures PreferredBasis(SortDescending(group), listing) == n.basis <==> BasisAgrees(group, listing, n)
  {
    var ordered := SortDescending(group);
    SortKeepsElements(group);
    SortIsDescending(group);
    OrderedIsKeyed(group, ordered);
    hide SortDescending, DistinctNumbers, FirstVerified;
    var current, other := FirstVerified(ordered, listing, true), FirstVerified(ordered, listing, false);
    if current.Some? { FirstVerifiedIsNewest(ordered, listing, true, current.value); }
    FirstVerifiedIsNewest(ordered, listing, true, n);
    FirstVerifiedIsNewest(ordered, listing, false, n);
    if n.listing != listing {
      forall f | NewestCandidate(group, listing, true, f) ensures current == Some(f) {
        FirstVerifiedIsNewest(ordered, listing, true, f);
      }
      assert current.Some? ==> NewestCandidate(group, listing, true, current.value);
    }
  }

  /** The policy's refusal of a row of the group, condition by condition. */
  lemma RefusalFacts(policy: Policy, s: Own.State, listing: Id, n: Evidence, reuse: bool)
    requires Own.Inv(s) && listing < |s.listings| && HasCanonical(s, s.listings[listing])
    requires n in GroupOf(s, s.listings[listing]) && n.status == Verified
    ensures var l := s.listings[listing];
            var c := ContextOf(s, l, listing);
            var live := InForce(policy.freshnessDays, n, reuse, s.clock);
            && (policy.Refusal(c, n, false, reuse).None? <==>
                  && n.supersededAt.None? && live && IdentityLive(s, l)
                  && n.identityVersion == Idv.Projected(s.identity, l.ownerUser.value).value.version
                  && s.vehicles[l.vehicle.value].status == Active && FingerprintValid(n.fingerprint)
                  && n.basis == c.basis)
            && (policy.Refusal(c, n, false, reuse) == Some(VerificationExpired) <==>
                  n.supersededAt.None? && !live)
            && policy.Refusal(c, n, false, reuse) !in {Some(VerificationRevoked), Some(VerificationPending)}
  {
    GroupRow(s, s.listings[listing], n);
    hide FingerprintValid, GroupOf, SortDescending, PreferredBasis, Own.Inv;
  }

  /** A proof is accepted exactly when the newest row of the vehicle is. */
  lemma ProvenExactly(policy: Policy, s: Own.State, listing: Id, n: Evidence)
    requires Own.Inv(s) && listing < |s.listings| && HasCanonical(s, s.listings[listing])
    requires NewestIn(GroupOf(s, s.listings[listing]), n)
    ensures Proven(policy, s, listing) <==> NewestAccepted(policy, s, listing, n)
  {
    var l := s.listings[listing];
    var group := GroupOf(s, l);
    var c := ContextOf(s, l, listing);
    GroupDistinct(s, l);
    hide Own.Inv, FingerprintValid, BasisAgrees, IdentityLive, DistinctNumbers, OnlyNewestUnsuperseded, policy.Select,
        policy.EffectiveExpiry, policy.Refusal, SortDescending, PreferredBasis, GroupOf;
    SelectLooksAtNewestOnly(policy, c, group, listing, n);
    RefusalNone(policy, c, n, false, n.listing != listing);
    if n.status == Verified {
      RefusalFacts(policy, s, listing, n, n.listing != listing);
      BasisMeaning(group, listing, n);
    }
  }

  /** The same gate in facts of the tables: `n` is the newest row of the owner and the vehicle, and
      the listing's own newest row may do if the policy refuses `n`. */
  ghost predicate GateFacts(policy: Policy, s: Own.State, listing: Id, n: Evidence)
    requires listing < |s.listings| && HasCanonical(s, s.listings[listing])
  {
    var l := s.listings[listing];
    && NewestIn(GroupOf(s, l), n)
    && (NewestAccepted(policy, s, listing, n)
        || (RefusalIsMild(policy, s, listing, n)
            && exists e :: NewestOfListing(GroupOf(s, l), listing, e) && OwnRowStillGood(s, l, e)))
  }

  /** What the fallback branch asks of the row, apart from the refusal. */
  lemma RowFallsBack(s: Own.State, l: Own.Listing, e: Evidence)
    requires Own.Inv(s) && HasCanonical(s, l) && e in GroupOf(s, l)
    ensures (&& e.status == Verified && e.revokedAt.None? && e.expiresAt.Some? && e.expiresAt.value > s.clock
             && e.fingerprint != ""
             && MatchesCurrent(s, l, Chosen(true, Some(e), Some(Verified), false, None, None)))
            <==> OwnRowStillGood(s, l, e)
  {
    GroupRow(s, l, e);
    hide Own.Inv, GroupOf;
  }

  /** Refused for a reason that is not "expired", "revoked" or "pending". */
  lemma MildRefusal(policy: Policy, s: Own.State, listing: Id, n: Evidence)
    requires Own.Inv(s) && listing < |s.listings| && HasCanonical(s, s.listings[listing])
    requires NewestIn(GroupOf(s, s.listings[listing]), n) && !Proven(policy, s, listing)
    ensures var l := s.listings[listing];
            policy.Select(ContextOf(s, l, listing), GroupOf(s, l), listing).decision.code
              !in {Some(VerificationExpired), Some(VerificationRevoked), Some(VerificationPending)}
            <==> RefusalIsMild(policy, s, listing, n)
  {
    var l := s.listings[listing];
    var c := ContextOf(s, l, listing);
    var group := GroupOf(s, l);
    GroupDistinct(s, l);
    forall f | f in group && f.status == Verified ensures f.revokedAt.None? { GroupRow(s, l, f); }
    GroupRow(s, l, n);
    if Candidate(n, listing, false) { RefusalFacts(policy, s, listing, n, true); }
    assert c.personalListing;
    hide Own.Inv, DistinctNumbers, OnlyNewestUnsuperseded, policy.Select, policy.EffectiveExpiry, policy.Refusal,
        SortDescending, PreferredBasis, GroupOf, ContextOf, ProofElsewhere;
    RefusalCode(policy, c, group, listing, n);
  }

  lemma FallsBackExactly(policy: Policy, s: Own.State, listing: Id, n: Evidence)
    requires Own.Inv(s) && listing < |s.listings| && HasCanonical(s, s.listings[listing])
    requires NewestIn(GroupOf(s, s.listings[listing]), n) && !Proven(policy, s, listing)
    ensures var l := s.listings[listing];
            FallsBack(policy, s, listing) <==>
              RefusalIsMild(policy, s, listing, n)
              && exists e :: NewestOfListing(GroupOf(s, l), listing, e) && OwnRowStillGood(s, l, e)
  {
    var l := s.listings[listing];
    var group := GroupOf(s, l);
    MildRefusal(policy, s, listing, n);
    GroupDistinct(s, l);
    var latest := LatestOf(SortDescending(group), listing);
    if latest.Some? {
      LatestIsNewest(group, listing, latest.value);
      RowFallsBack(s, l, latest.value);
    }
    forall e | NewestOfListing(group, listing, e) ensures latest == Some(e) { LatestIsNewest(group, listing, e); }
    hide Own.Inv, DistinctNumbers, OnlyNewestUnsuperseded, policy.Select, SortDescending, GroupOf, ContextOf,
        LatestOf, RefusalIsMild, MatchesCurrent, OwnRowStillGood, HasCanonical;
  }

  lemma SomeNewest(s: Own.State, l: Own.Listing) returns (n: Evidence)
    requires Own.Inv(s) && HasCanonical(s, l) && GroupOf(s, l) != []
    ensures NewestIn(GroupOf(s, l), n)
  {
    var group := GroupOf(s, l);
    SortKeepsElements(group);
    SortIsDescending(group);
    hide SortDescending, GroupOf, Own.Inv, HasCanonical;
    assert group[0] in SortDescending(group);
    n := SortDescending(group)[0];
  }

  /** Without a vehicle, an identity projection or any proof row the gate is not ready. */
  lemma NothingToRelyOn(cfg: Own.Config, s: Own.State, listing: Id, facts: Facts)
    requires listing < |s.listings|
    requires !HasCanonical(s, s.listings[listing]) || GroupOf(s, s.listings[listing]) == []
    ensures !Readiness.OwnershipHolds(Snapshot(cfg, s, listing, facts, None))
  {
    OwnershipGateExactly(cfg, s, listing, facts);
    var l := s.listings[listing];
    if HasCanonical(s, l) {
      SelectIsConsistent(cfg.policy, ContextOf(s, l, listing), GroupOf(s, l), listing);
      hide Snapshot, cfg.policy.Select, ContextOf;
      assert SortDescending(GroupOf(s, l)) == [];
    } else {
      hide Snapshot;
    }
  }

  /** The ownership gate of a submission, in every state the service reaches and for every listing:
      ready exactly when the vehicle's newest row is a proof the policy accepts, or the policy
      refuses mildly and the listing's own newest row, superseded or not, is still good. */
  lemma GateReadyExactly(cfg: Own.Config, s: Own.State, listing: Id, facts: Facts)
    requires Own.Inv(s) && listing < |s.listings|
    ensures Readiness.OwnershipHolds(Snapshot(cfg, s, listing, facts, None)) <==>
            HasCanonical(s, s.listings[listing]) && exists n :: GateFacts(cfg.policy, s, listing, n)
  {
    var l := s.listings[listing];
    if HasCanonical(s, l) && GroupOf(s, l) != [] {
      OwnershipGateExactly(cfg, s, listing, facts);
      var newest := SomeNewest(s, l);
      forall n | NewestIn(GroupOf(s, l), n)
        ensures Proven(cfg.policy, s, listing) || FallsBack(cfg.policy, s, listing)
                <==> GateFacts(cfg.policy, s, listing, n)
      {
        GateAtNewest(cfg.policy, s, listing, n);
      }
      hide Own.Inv, Snapshot, Proven, FallsBack, NewestAccepted, RefusalIsMild, GroupOf, HasCanonical, OwnRowStillGood;
      assert GateFacts(cfg.policy, s, listing, newest)
             <==> Proven(cfg.policy, s, listing) || FallsBack(cfg.policy, s, listing);
    } else {
      NothingToRelyOn(cfg, s, listing, facts);
      hide Own.Inv, Snapshot, NewestAccepted, RefusalIsMild, GroupOf, HasCanonical, OwnRowStillGood;
    }
  }

  lemma GateAtNewest(policy: Policy, s: Own.State, listing: Id, n: Evidence)
    requires Own.Inv(s) && listing < |s.listings| && HasCanonical(s, s.listings[listing])
    requires NewestIn(GroupOf(s, s.listings[listing]), n)
    ensures Proven(policy, s, listing) || FallsBack(policy, s, listing) <==> GateFacts(policy, s, listing, n)
  {
    ProvenExactly(policy, s, listing, n);
    if !Proven(policy, s, listing) { FallsBackExactly(policy, s, listing, n); }
    hide Own.Inv, Proven, FallsBack, NewestAccepted, RefusalIsMild, GroupOf, HasCanonical, OwnRowStillGood,
        NewestIn, NewestOfListing;
  }

  // -------------------------------------------------------------------- invariant of the attempt table

  /** The table's reuse-evidence check constraint. */
  ghost predicate ReuseEvidenceValid(a: Attempt) {
    || (!a.reused && a.policyVersion.None? && a.effectiveExpiresAt.None?)
    || (a.reused && a.proof.Some? && a.policyVersion.Some? && a.policyVersion.value > 0 && a.effectiveExpiresAt.Some?)
  }

  ghost predicate RowValid(own: Own.State, a: Attempt) {
    && a.listing < |own.listings|
    && a.number >= 1
    && a.version <= own.listings[a.listing].version
    && ReuseEvidenceValid(a)
    && |a.blockerCodes| <= 10
  }

  ghost predicate HasOpen(rows: seq<Attempt>, listing: Id) {
    exists i :: 0 <= i < |rows| && rows[i].listing == listing && rows[i].supersededAt.None?
  }

  /** Numbers are distinct, and an open row is ahead of every other row of its listing. */
  ghost predicate InOrder(a: Attempt, b: Attempt) {
    a.listing == b.listing ==>
      && a.number != b.number
      && (a.supersededAt.None? ==> b.supersededAt.Some? && b.number < a.number && b.version < a.version)
  }

  ghost predicate Ahead(rows: seq<Attempt>) {
    forall i, j | 0 <= i < |rows| && 0 <= j < |rows| && i != j :: InOrder(rows[i], rows[j])
  }

  /** Exactly one open row per listing that was ever submitted. */
  ghost predicate OneOpenPerListing(rows: seq<Attempt>) {
    Ahead(rows) && forall i | 0 <= i < |rows| :: HasOpen(rows, rows[i].listing)
  }

  function LastStatus(history: seq<Recorded>, listing: Id, version: nat): Option<Readiness.SubmissionStatus> {
    if history == [] then None
    else
      var last := history[|history| - 1];
      if last.listing == listing && last.version == version then Some(last.status)
      else LastStatus(history[..|history| - 1], listing, version)
  }

  /** Submission number `n` moved its listing version into "moderation pending". */
  predicate Enters(history: seq<Recorded>, n: nat)
    requires n < |history|
  {
    && history[n].status == Readiness.ModerationWaiting
    && LastStatus(history[..n], history[n].listing, history[n].version) != Some(Readiness.ModerationWaiting)
  }

  function Transitions(history: seq<Recorded>): seq<Requested> {
    if history == [] then []
    else
      var n := |history| - 1;
      Transitions(history[..n]) + (if Enters(history, n) then [Requested(history[n].listing, history[n].version)]
          else [])
  }

  ghost predicate HasRow(rows: seq<Attempt>, listing: Id, version: nat) {
    exists i :: 0 <= i < |rows| && rows[i].listing == listing && rows[i].version == version
  }

  ghost predicate LogAgrees(s: State) {
    && s.requested == Transitions(s.history)
    && (forall i | 0 <= i < |s.rows| && s.rows[i].supersededAt.None? ::
          LastStatus(s.history, s.rows[i].listing, s.rows[i].version) == Some(s.rows[i].status))
    && (forall k | 0 <= k < |s.history| :: HasRow(s.rows, s.history[k].listing, s.history[k].version))
  }

  ghost predicate Inv(s: State) {
    && Own.Inv(s.own)
    && (forall i | 0 <= i < |s.rows| :: RowValid(s.own, s.rows[i]))
    && OneOpenPerListing(s.rows)
    && LogAgrees(s)
  }

  lemma {:induction false} LastStatusNone(history: seq<Recorded>, listing: Id, version: nat)
    requires forall k | 0 <= k < |history| :: history[k].listing != listing || history[k].version != version
    ensures LastStatus(history, listing, version).None?
  {
    if history != [] { LastStatusNone(history[..|history| - 1], listing, version); }
  }

  // -------------------------------------------------------------------- one submission

  /** A superseded row is behind the open one, so the current version has no row but the open one. */
  lemma NoOtherRowOfCurrentVersion(s: State, listing: Id)
    requires Inv(s) && listing < |s.own.listings|
    requires ForVersion(s.rows, listing, s.own.listings[listing].version).None?
    ensures forall i | 0 <= i < |s.rows| && s.rows[i].listing == listing ::
        s.rows[i].version < s.own.listings[listing].version
  {
    forall i | 0 <= i < |s.rows| && s.rows[i].listing == listing
        ensures s.rows[i].version < s.own.listings[listing].version {
      assert HasOpen(s.rows, s.rows[i].listing) && RowValid(s.own, s.rows[i]);
      var j :| 0 <= j < |s.rows| && s.rows[j].listing == listing && s.rows[j].supersededAt.None?;
      assert RowValid(s.own, s.rows[j]);
      assert !IsCurrent(s.rows[j], listing, s.own.listings[listing].version);
    }
  }

  lemma ChosenReuse(policy: Policy, s: Own.State, listing: Id)
    requires listing < |s.listings| && policy.Valid()
    ensures var chosen := Choose(policy, s, listing);
            if chosen.reused then chosen.proof.Some? && chosen.effectiveExpiresAt.Some?
                && chosen.policyVersion == Some(policy.version)
            else chosen.policyVersion.None?
  {
    if HasCanonical(s, s.listings[listing]) {
      ChooseProven(policy, s, listing);
      hide policy.Select, Choose, ContextOf, GroupOf, LatestOf, SortDescending;
      var chosen := Choose(policy, s, listing);
      if Proven(policy, s, listing) {
        AcceptedRow(policy, s, s.listings[listing], listing, chosen.proof.value, chosen.reused);
      }
    }
  }

  lemma FilledValid(s: State, before: Attempt, listing: Id, actor: Id, chosen: Chosen, facts: Facts,
      snapshot: Readiness.Snapshot)
    requires listing < |s.own.listings|
    requires if chosen.reused then chosen.proof.Some? && chosen.effectiveExpiresAt.Some? && chosen.policyVersion.Some?
        && chosen.policyVersion.value > 0
             else chosen.policyVersion.None?
    requires before.listing == listing && before.version <= s.own.listings[listing].version && before.number >= 1
    ensures var e := Readiness.Evaluate(snapshot);
            && |e.gates| > 0
            && RowValid(s.own, Filled(before, actor, s.own.clock, Idv.Projected(s.own.identity, actor), chosen, facts,
                e))
  {
    Readiness.BlockerCodesExplainGates(snapshot);
    hide Readiness.Evaluate, Readiness.BlockerCodes, Readiness.StatusOf;
  }

  lemma NothingToSupersede(rows: seq<Attempt>, id: Id, listing: Id, version: nat, now: Time)
    requires Ahead(rows) && id < |rows| && IsCurrent(rows[id], listing, version)
    ensures SupersedeOthers(rows, listing, version, now) == rows
  {
    var same := SupersedeOthers(rows, listing, version, now);
    forall i | 0 <= i < |rows| ensures same[i] == rows[i] {
      assert i != id ==> InOrder(rows[id], rows[i]);
    }
  }

  /** Replacing the open row of the current version. */
  lemma ReplaceOpen(rows: seq<Attempt>, id: Id, row: Attempt, listing: Id, version: nat)
    requires OneOpenPerListing(rows) && id < |rows| && IsCurrent(rows[id], listing, version)
    requires IsCurrent(row, listing, version) && row.number == rows[id].number
    ensures OneOpenPerListing(rows[id := row])
  {
    var later := rows[id := row];
    forall i, j | 0 <= i < |later| && 0 <= j < |later| && i != j ensures InOrder(later[i], later[j]) {
      assert InOrder(rows[i], rows[j]);
    }
    hide Ahead, InOrder;
    forall i | 0 <= i < |later| ensures HasOpen(later, later[i].listing) {
      assert HasOpen(rows, rows[i].listing);
      var j :| 0 <= j < |rows| && rows[j].listing == rows[i].listing && rows[j].supersededAt.None?;
      assert later[j].listing == later[i].listing && later[j].supersededAt.None?;
    }
  }

  /** Appending the first row of a new version. */
  lemma AppendOpen(rows: seq<Attempt>, row: Attempt, now: Time)
    requires OneOpenPerListing(rows) && row.supersededAt.None?
    requires forall i | 0 <= i < |rows| && rows[i].listing == row.listing ::
        rows[i].version < row.version && rows[i].number < row.number
    ensures OneOpenPerListing(SupersedeOthers(rows, row.listing, row.version, now) + [row])
  {
    var kept := SupersedeOthers(rows, row.listing, row.version, now);
    var later := kept + [row];
    assert forall i | 0 <= i < |rows| && rows[i].listing == row.listing :: kept[i].supersededAt.Some?;
    AppendAhead(rows, kept, row);
    hide Ahead, InOrder;
    forall i | 0 <= i < |later| ensures HasOpen(later, later[i].listing) { AppendOpenHasOpen(rows, kept, row, i); }
  }

  lemma AppendAhead(rows: seq<Attempt>, kept: seq<Attempt>, row: Attempt)
    requires Ahead(rows) && |kept| == |rows| && row.supersededAt.None?
    requires forall i | 0 <= i < |rows| :: kept[i] == rows[i].(supersededAt := kept[i].supersededAt)
    requires forall i | 0 <= i < |rows| && rows[i].supersededAt.Some? :: kept[i].supersededAt.Some?
    requires forall i | 0 <= i < |rows| && rows[i].listing == row.listing ::
               kept[i].supersededAt.Some? && rows[i].version < row.version && rows[i].number < row.number
    ensures Ahead(kept + [row])
  {
    var later := kept + [row];
    forall i, j | 0 <= i < |later| && 0 <= j < |later| && i != j ensures InOrder(later[i], later[j]) {
      if i < |rows| && j < |rows| { assert InOrder(rows[i], rows[j]); }
    }
  }

  lemma AppendOpenHasOpen(rows: seq<Attempt>, kept: seq<Attempt>, row: Attempt, i: nat)
    requires |kept| == |rows| && i <= |rows| && row.supersededAt.None?
    requires forall j | 0 <= j < |rows| :: kept[j].listing == rows[j].listing && HasOpen(rows, rows[j].listing)
    requires forall j | 0 <= j < |rows| && rows[j].listing != row.listing :: kept[j] == rows[j]
    ensures HasOpen(kept + [row], (kept + [row])[i].listing)
  {
    var later := kept + [row];
    if later[i].listing == row.listing {
      assert later[|kept|] == row;
    } else {
      assert HasOpen(rows, rows[i].listing);
      var j :| 0 <= j < |rows| && rows[j].listing == rows[i].listing && rows[j].supersededAt.None?;
      assert later[j] == rows[j];
    }
  }

  /** What one submission does to the attempt table, whatever the evidence said. */
  ghost predicate RowsAfter(s: State, rows: seq<Attempt>, id: Id, listing: Id, version: nat) {
    && id <= |s.rows| && |rows| == (if id < |s.rows| then |s.rows| else |s.rows| + 1)
    && IsCurrent(rows[id], listing, version)
    && (forall i | 0 <= i < |s.rows| && i != id :: rows[i] == Superseded(s.rows[i], listing, version, s.own.clock))
    && (if id < |s.rows| then IsCurrent(s.rows[id], listing, version) && s.rows[id].number == rows[id].number
        else ForVersion(s.rows, listing, version).None?)
  }

  lemma RecordAgain(s: State, listing: Id, version: nat, id: Id, row: Attempt)
    requires OneOpenPerListing(s.rows) && id < |s.rows|
    requires IsCurrent(s.rows[id], listing, version) && IsCurrent(row, listing, version)
        && row.number == s.rows[id].number
    ensures var rows := SupersedeOthers(s.rows, listing, version, s.own.clock)[id := row];
            OneOpenPerListing(rows) && RowsAfter(s, rows, id, listing, version)
  {
    NothingToSupersede(s.rows, id, listing, version, s.own.clock);
    ReplaceOpen(s.rows, id, row, listing, version);
    hide OneOpenPerListing;
  }

  lemma RecordFirst(s: State, listing: Id, version: nat, row: Attempt)
    requires Inv(s) && listing < |s.own.listings| && version == s.own.listings[listing].version
    requires ForVersion(s.rows, listing, version).None? && IsCurrent(row, listing, version)
    requires row.number == HighestNumber(s.rows, listing) + 1
    ensures var rows := SupersedeOthers(s.rows, listing, version, s.own.clock) + [row];
            OneOpenPerListing(rows) && RowsAfter(s, rows, |s.rows|, listing, version)
  {
    NoOtherRowOfCurrentVersion(s, listing);
    InvRows(s);
    hide Inv, RowValid, OneOpenPerListing;
    AppendOpen(s.rows, row, s.own.clock);
  }

  lemma RecordKeepsRows(s: State, listing: Id, version: nat, row: Attempt)
    requires Inv(s) && listing < |s.own.listings| && version == s.own.listings[listing].version
    requires IsCurrent(row, listing, version)
    requires var existing := ForVersion(s.rows, listing, version);
             row.number == if existing.Some? then s.rows[existing.value].number else HighestNumber(s.rows, listing) + 1
    ensures var (rows, id, request) := Record(s, listing, version, row);
            OneOpenPerListing(rows) && RowsAfter(s, rows, id, listing, version) && id < |rows| && rows[id] == row
  {
    InvRows(s);
    hide Inv, OneOpenPerListing, RowValid;
    var existing := ForVersion(s.rows, listing, version);
    if existing.Some? {
      RecordAgain(s, listing, version, existing.value, row);
    } else {
      RecordFirst(s, listing, version, row);
    }
  }

  lemma InvRows(s: State)
    requires Inv(s)
    ensures Own.Inv(s.own) && OneOpenPerListing(s.rows) && LogAgrees(s)
    ensures forall i | 0 <= i < |s.rows| :: RowValid(s.own, s.rows[i])
  {}

  /** The row written satisfies the table's constraints and belongs to the current version. */
  lemma SubmittedRowValid(s: State, listing: Id, actor: Id, chosen: Chosen, facts: Facts, snapshot: Readiness.Snapshot)
    requires Inv(s) && listing < |s.own.listings|
    requires if chosen.reused then chosen.proof.Some? && chosen.effectiveExpiresAt.Some? && chosen.policyVersion.Some?
        && chosen.policyVersion.value > 0
             else chosen.policyVersion.None?
    ensures var e := Readiness.Evaluate(snapshot);
            var version := s.own.listings[listing].version;
            var existing := ForVersion(s.rows, listing, version);
            && |e.gates| > 0
            && var row := SubmittedRow(s, listing, actor, chosen, facts, e);
            && RowValid(s.own, row) && IsCurrent(row, listing, version) && row.status == Readiness.StatusOf(e)
            && (existing.Some? ==> row.owner == s.rows[existing.value].owner)
            && row.number == if existing.Some? then s.rows[existing.value].number
                else HighestNumber(s.rows, listing) + 1
  {
    InvRows(s);
    var version := s.own.listings[listing].version;
    var existing := ForVersion(s.rows, listing, version);
    var before := if existing.Some? then s.rows[existing.value]
                  else BlankAttempt(listing, version, HighestNumber(s.rows, listing) + 1, actor, actor, s.own.clock);
    assert existing.Some? ==> RowValid(s.own, s.rows[existing.value]);
    FilledValid(s, before, listing, actor, chosen, facts, snapshot);
    hide Inv, Readiness.Evaluate, Readiness.BlockerCodes, Readiness.StatusOf, RowValid, OneOpenPerListing, LogAgrees,
        Own.Inv;
    var e := Readiness.Evaluate(snapshot);
    FilledKeeps(before, actor, s.own.clock, Idv.Projected(s.own.identity, actor), chosen, facts, e);
    hide Filled, Idv.Projected;
  }

  lemma FilledKeeps(a: Attempt, actor: Id, now: Time, p: Option<Idv.Projection>, chosen: Chosen, facts: Facts,
      e: Readiness.Evaluation)
    requires |e.gates| > 0
    ensures var b := Filled(a, actor, now, p, chosen, facts, e);
            && b.listing == a.listing && b.version == a.version && b.number == a.number
            && b.owner == a.owner && b.supersededAt == a.supersededAt && b.status == Readiness.StatusOf(e)
  {}

  // -------------------------------------------------------------------- the log of submissions

  lemma LastAppended(history: seq<Recorded>, r: Recorded)
    ensures LastStatus(history + [r], r.listing, r.version) == Some(r.status)
    ensures forall l: Id, v: nat :: (l, v) != (r.listing, r.version) ==>
        LastStatus(history + [r], l, v) == LastStatus(history, l, v)
    ensures Transitions(history + [r]) == Transitions(history)
              + (if r.status == Readiness.ModerationWaiting
                  && LastStatus(history, r.listing, r.version) != Some(Readiness.ModerationWaiting)
                 then [Requested(r.listing, r.version)] else [])
  {
    assert (history + [r])[..|history|] == history;
  }

  /** What was recorded last for the version about to be submitted is the open row's status. */
  lemma LastOfCurrent(s: State, listing: Id, version: nat)
    requires Inv(s) && listing < |s.own.listings| && version == s.own.listings[listing].version
    ensures var existing := ForVersion(s.rows, listing, version);
            LastStatus(s.history, listing, version) == if existing.Some? then Some(s.rows[existing.value].status)
                else None
  {
    var existing := ForVersion(s.rows, listing, version);
    if existing.None? {
      NoOtherRowOfCurrentVersion(s, listing);
      InvRows(s);
      hide Inv, Own.Inv, OneOpenPerListing, RowValid;
      forall k | 0 <= k < |s.history| ensures s.history[k].listing != listing || s.history[k].version != version {
        assert HasRow(s.rows, s.history[k].listing, s.history[k].version);
      }
      LastStatusNone(s.history, listing, version);
    }
  }

  lemma RowsStayKnown(s: State, rows: seq<Attempt>, id: Id, listing: Id, version: nat, k: nat)
    requires RowsAfter(s, rows, id, listing, version) && LogAgrees(s) && k < |s.history|
    ensures HasRow(rows, s.history[k].listing, s.history[k].version)
  {
    hide Transitions, LastStatus;
    assert HasRow(s.rows, s.history[k].listing, s.history[k].version);
    var i :| 0 <= i < |s.rows| && s.rows[i].listing == s.history[k].listing
             && s.rows[i].version == s.history[k].version;
    assert rows[i].listing == s.history[k].listing && rows[i].version == s.history[k].version;
  }

  lemma CommitKeepsStatuses(s: State, rows: seq<Attempt>, id: Id, listing: Id, version: nat)
    requires LogAgrees(s) && RowsAfter(s, rows, id, listing, version) && Ahead(rows)
    ensures var history := s.history + [Recorded(listing, version, rows[id].status)];
            forall i | 0 <= i < |rows| && rows[i].supersededAt.None? ::
              LastStatus(history, rows[i].listing, rows[i].version) == Some(rows[i].status)
  {
    hide Transitions, LastStatus, Ahead;
    LastAppended(s.history, Recorded(listing, version, rows[id].status));
    var history := s.history + [Recorded(listing, version, rows[id].status)];
    forall i | 0 <= i < |rows| && rows[i].supersededAt.None?
      ensures LastStatus(history, rows[i].listing, rows[i].version) == Some(rows[i].status)
    {
      if i != id {
        assert InOrder(rows[id], rows[i]) by { assert Ahead(rows); AheadAt(rows, id, i); }
        assert rows[i] == s.rows[i];
      }
    }
  }

  lemma AheadAt(rows: seq<Attempt>, i: Id, j: Id)
    requires Ahead(rows) && i < |rows| && j < |rows| && i != j
    ensures InOrder(rows[i], rows[j])
  {}

  /** Requests are appended exactly for the transitions of the history. */
  lemma CommitRequests(s: State, listing: Id, version: nat, row: Attempt, moderation: Readiness.GateState)
    requires Inv(s) && listing < |s.own.listings| && version == s.own.listings[listing].version
    ensures var t := Commit(s, listing, version, row, moderation).0; t.requested == Transitions(t.history)
  {
    InvRows(s);
    LastOfCurrent(s, listing, version);
    LastAppended(s.history, Recorded(listing, version, row.status));
    hide Inv, Own.Inv, RowValid, Transitions, LastStatus, OneOpenPerListing, SupersedeOthers;
  }

  lemma CommitKeepsLog(s: State, listing: Id, version: nat, row: Attempt, moderation: Readiness.GateState)
    requires Inv(s) && listing < |s.own.listings| && version == s.own.listings[listing].version
    requires var (t, out) := Commit(s, listing, version, row, moderation);
             out.attempt < |t.rows| && t.rows[out.attempt] == row
             && RowsAfter(s, t.rows, out.attempt, listing, version) && OneOpenPerListing(t.rows)
    ensures LogAgrees(Commit(s, listing, version, row, moderation).0)
  {
    hide Inv, RowValid, Transitions, LastStatus, OneOpenPerListing, Ahead, RowsAfter, Record;
    CommitRequests(s, listing, version, row, moderation);
    InvRows(s);
    var (t, out) := Commit(s, listing, version, row, moderation);
    assert t.history == s.history + [Recorded(listing, version, row.status)];
    hide Commit;
    OneOpenIsAhead(t.rows);
    CommitKeepsStatuses(s, t.rows, out.attempt, listing, version);
    RowsKnown(s, t.rows, out.attempt, listing, version);
    hide HasRow;
  }

  lemma RowsKnown(s: State, rows: seq<Attempt>, id: Id, listing: Id, version: nat)
    requires RowsAfter(s, rows, id, listing, version) && LogAgrees(s)
    ensures HasRow(rows, listing, version)
    ensures forall k | 0 <= k < |s.history| :: HasRow(rows, s.history[k].listing, s.history[k].version)
  {
    assert IsCurrent(rows[id], listing, version);
    hide LogAgrees, HasRow, RowsAfter;
    forall k | 0 <= k < |s.history| ensures HasRow(rows, s.history[k].listing, s.history[k].version) {
      RowsStayKnown(s, rows, id, listing, version, k);
    }
  }

  lemma OneOpenIsAhead(rows: seq<Attempt>)
    requires OneOpenPerListing(rows)
    ensures Ahead(rows)
  {}

  // -------------------------------------------------------------------- what one step may do

  /** Attempts are never deleted, never reopened, and a superseded one never changes. */
  ghost predicate AttemptContinues(a: Attempt, b: Attempt) {
    && b.listing == a.listing && b.version == a.version && b.number == a.number && b.owner == a.owner
    && (a.supersededAt.Some? ==> b == a)
  }

  ghost predicate Continues(s: State, t: State) {
    && Own.Continues(s.own, t.own)
    && |s.rows| <= |t.rows| && (forall i | 0 <= i < |s.rows| :: AttemptContinues(s.rows[i], t.rows[i]))
    && s.requested <= t.requested && s.history <= t.history
  }

  lemma CommitStep(s: State, listing: Id, version: nat, row: Attempt, moderation: Readiness.GateState)
    requires Inv(s) && listing < |s.own.listings| && version == s.own.listings[listing].version
    requires RowValid(s.own, row) && IsCurrent(row, listing, version)
    requires var existing := ForVersion(s.rows, listing, version);
             && row.number == (if existing.Some? then s.rows[existing.value].number
                 else HighestNumber(s.rows, listing) + 1)
             && (existing.Some? ==> row.owner == s.rows[existing.value].owner)
    ensures var (t, out) := Commit(s, listing, version, row, moderation);
            && Inv(t) && Continues(s, t)
            && out.attempt < |t.rows| && t.rows[out.attempt] == row
                && RowsAfter(s, t.rows, out.attempt, listing, version)
  {
    InvRows(s);
    RecordKeepsRows(s, listing, version, row);
    SupersededValid(s.own, s.rows, listing, version);
    CommitKeepsLog(s, listing, version, row, moderation);
    Own.ContinuesReflexive(s.own);
    var (t, out) := Commit(s, listing, version, row, moderation);
    CommitContinues(s, listing, version, row, moderation);
    hide OneOpenPerListing, LogAgrees, Own.Inv, Own.Continues, RowValid, Continues;
  }

  lemma CommitContinues(s: State, listing: Id, version: nat, row: Attempt, moderation: Readiness.GateState)
    requires IsCurrent(row, listing, version)
    requires var existing := ForVersion(s.rows, listing, version);
             existing.Some? ==> row.number == s.rows[existing.value].number && row.owner == s.rows[existing.value].owner
    ensures Continues(s, Commit(s, listing, version, row, moderation).0)
  {
    Own.ContinuesReflexive(s.own);
    hide Own.Continues;
  }

  lemma SupersededValid(own: Own.State, rows: seq<Attempt>, listing: Id, version: nat)
    requires forall i | 0 <= i < |rows| :: RowValid(own, rows[i])
    ensures forall i | 0 <= i < |rows| :: RowValid(own, Superseded(rows[i], listing, version, own.clock))
  {}

  /** The row a submission writes, and the evaluation it stands for. */
  function Judged(cfg: Own.Config, s: State, actor: Id, listing: Id, facts: Facts): Attempt
    requires listing < |s.own.listings|
  {
    SubmittedRow(s, listing, actor, Choose(cfg.policy, s.own, listing), facts,
                 Readiness.Evaluate(Snapshot(cfg, s.own, listing, facts, None)))
  }

  lemma JudgedRow(cfg: Own.Config, s: State, actor: Id, listing: Id, expected: nat, facts: Facts)
    requires Inv(s) && cfg.policy.Valid() && SubmitRefusal(s, actor, listing, expected).None?
    ensures var row := Judged(cfg, s, actor, listing, facts);
            var existing := ForVersion(s.rows, listing, expected);
            var e := Readiness.Evaluate(Snapshot(cfg, s.own, listing, facts, None));
            && RowValid(s.own, row) && IsCurrent(row, listing, expected)
            && row.status == Readiness.StatusOf(e)
            && row.number == (if existing.Some? then s.rows[existing.value].number
                else HighestNumber(s.rows, listing) + 1)
            && (existing.Some? ==> row.owner == s.rows[existing.value].owner)
            && Submit(cfg, s, actor, listing, expected, facts) == Commit(s, listing, expected, row, e.moderation)
  {
    ChosenReuse(cfg.policy, s.own, listing);
    hide Inv, Choose, SnapshotOf, Readiness.Evaluate, Readiness.StatusOf, RowValid, SubmittedRow, Commit;
    SubmittedRowValid(s, listing, actor, Choose(cfg.policy, s.own, listing), facts,
        Snapshot(cfg, s.own, listing, facts, None));
  }

  lemma SubmitStep(cfg: Own.Config, s: State, actor: Id, listing: Id, expected: nat, facts: Facts)
    requires Inv(s) && cfg.policy.Valid()
    ensures var t := Submit(cfg, s, actor, listing, expected, facts).0; Inv(t) && Continues(s, t)
  {
    Own.ContinuesReflexive(s.own);
    if SubmitRefusal(s, actor, listing, expected).None? {
      JudgedRow(cfg, s, actor, listing, expected, facts);
      hide Submit, Commit, Judged, Inv, Continues, RowValid, Readiness.Evaluate;
      CommitStep(s, listing, expected, Judged(cfg, s, actor, listing, facts),
                 Readiness.Evaluate(Snapshot(cfg, s.own, listing, facts, None)).moderation);
    }
  }

  lemma ElsewhereStep(cfg: Own.Config, s: State, o: Own.Action)
    requires Inv(s)
    ensures Inv(s.(own := Own.Step(cfg, s.own, o))) && Continues(s, s.(own := Own.Step(cfg, s.own, o)))
  {
    hide *;
    var own := Own.Step(cfg, s.own, o);
    Own.StepKeeps(cfg, s.own, o) by { InvOwn(s); }
    OwnMovesOn(s, own);
  }

  lemma InvOwn(s: State)
    requires Inv(s)
    ensures Own.Inv(s.own)
  {}

  /** Nothing a submission recorded depends on what else happens to the ownership tables. */
  lemma OwnMovesOn(s: State, own: Own.State)
    requires Inv(s) && Own.Inv(own) && Own.Continues(s.own, own)
    ensures Inv(s.(own := own)) && Continues(s, s.(own := own))
  {
    hide Own.Inv, OneOpenPerListing, ReuseEvidenceValid, Transitions, LastStatus, HasRow, Own.Continues;
    forall i | 0 <= i < |s.rows| ensures RowValid(own, s.rows[i]) {
      assert RowValid(s.own, s.rows[i]);
      ListingVersionGrows(s.own, own, s.rows[i].listing);
    }
  }

  lemma ListingVersionGrows(s: Own.State, t: Own.State, listing: Id)
    requires Own.Continues(s, t) && listing < |s.listings|
    ensures listing < |t.listings| && s.listings[listing].version <= t.listings[listing].version
  {
    hide Idv.Continues, VehicleRegistry.OnlyFills, Own.RowsContinue;
    assert Own.ListingContinues(s.listings[listing], t.listings[listing]);
  }

  lemma StepKeeps(cfg: Own.Config, s: State, a: Action)
    requires Inv(s) && cfg.policy.Valid()
    ensures Inv(Step(cfg, s, a)) && Continues(s, Step(cfg, s, a))
  {
    hide Inv, Continues, Submit, Own.Step;
    match a
    case Elsewhere(o) => ElsewhereStep(cfg, s, o);
    case SubmitListing(actor, listing, expected, facts) => SubmitStep(cfg, s, actor, listing, expected, facts);
  }

  lemma ContinuesTransitive(s: State, t: State, u: State)
    requires Continues(s, t) && Continues(t, u)
    ensures Continues(s, u)
  {
    Own.ContinuesTransitive(s.own, t.own, u.own);
    hide Own.Continues;
    forall i | 0 <= i < |s.rows| ensures AttemptContinues(s.rows[i], u.rows[i]) {
      assert AttemptContinues(s.rows[i], t.rows[i]) && AttemptContinues(t.rows[i], u.rows[i]);
    }
  }

  lemma {:induction false} RunKeeps(cfg: Own.Config, s: State, actions: seq<Action>)
    requires Inv(s) && cfg.policy.Valid()
    ensures Inv(Run(cfg, s, actions)) && Continues(s, Run(cfg, s, actions))
    decreases |actions|
  {
    hide Step, Inv, Continues;
    if actions == [] {
      assert Continues(s, s) by { Unchanged(s); }
    } else {
      StepKeeps(cfg, s, actions[0]);
      RunKeeps(cfg, Step(cfg, s, actions[0]), actions[1..]);
      ContinuesTransitive(s, Step(cfg, s, actions[0]), Run(cfg, s, actions));
    }
  }

  lemma Unchanged(s: State)
    ensures Continues(s, s)
  {
    Own.ContinuesReflexive(s.own);
  }

  lemma StartHolds(cfg: Own.Config, users: seq<bool>, clock: Time)
    ensures Inv(Initial(users, clock))
  {
    Own.Reachable(cfg, users, clock, []);
    hide Own.Inv;
  }

  /** In every state the services reach: each recorded attempt satisfies the reuse-evidence
      constraint, a submitted listing has exactly one open attempt, and moderation has been
      requested exactly for the submissions that entered "moderation pending". */
  lemma Reachable(cfg: Own.Config, users: seq<bool>, clock: Time, actions: seq<Action>)
    requires cfg.policy.Valid()
    ensures var s := Run(cfg, Initial(users, clock), actions);
            && (forall i | 0 <= i < |s.rows| :: ReuseEvidenceValid(s.rows[i]) && |s.rows[i].blockerCodes| <= 10)
            && (forall i | 0 <= i < |s.rows| :: HasOpen(s.rows, s.rows[i].listing))
            && (forall i, j | 0 <= i < |s.rows| && 0 <= j < |s.rows| && i != j
                && s.rows[i].listing == s.rows[j].listing ::
                  s.rows[i].supersededAt.Some? || s.rows[j].supersededAt.Some?)
            && s.requested == Transitions(s.history)
  {
    var start := Initial(users, clock);
    StartHolds(cfg, users, clock);
    hide Run, Inv, Own.Inv, Transitions, LastStatus, HasOpen, Continues, ReuseEvidenceValid;
    RunKeeps(cfg, start, actions);
    var s := Run(cfg, start, actions);
    InvRows(s);
    forall i | 0 <= i < |s.rows| ensures ReuseEvidenceValid(s.rows[i]) && |s.rows[i].blockerCodes| <= 10 {
      assert RowValid(s.own, s.rows[i]);
    }
    forall i, j | 0 <= i < |s.rows| && 0 <= j < |s.rows| && i != j && s.rows[i].listing == s.rows[j].listing
      ensures s.rows[i].supersededAt.Some? || s.rows[j].supersededAt.Some?
    {
      assert InOrder(s.rows[i], s.rows[j]);
    }
  }

  // -------------------------------------------------------------------- what a submission means

  /** Moderation is requested exactly when every fact of the snapshot holds and this listing
      version was not already waiting for it. */
  lemma ModerationRequestedExactly(cfg: Own.Config, s: State, actor: Id, listing: Id, expected: nat, facts: Facts)
    requires Inv(s) && cfg.policy.Valid() && SubmitRefusal(s, actor, listing, expected).None?
    ensures var (t, out) := Submit(cfg, s, actor, listing, expected, facts);
            var existing := ForVersion(s.rows, listing, expected);
            && out.moderation ==
               (Readiness.Publishable(Snapshot(cfg, s.own, listing, facts, None))
                && (existing.None? || s.rows[existing.value].status != Readiness.ModerationWaiting))
            && t.requested == s.requested + (if out.moderation then [Requested(listing, expected)] else [])
  {
    JudgedRow(cfg, s, actor, listing, expected, facts);
    Readiness.ModerationExactlyWhenPublishable(Snapshot(cfg, s.own, listing, facts, None));
    hide Submit, Judged, Inv, RowValid, Readiness.Evaluate, Readiness.Publishable, Readiness.BlockerCodes, Snapshot,
        SupersedeOthers;
  }

  /** Between two moderation requests for one listing version lies a submission of that version
      that was not ready. */
  lemma RequestsAreSeparated(history: seq<Recorded>, i: nat, j: nat)
    requires i < j < |history| && Enters(history, i) && Enters(history, j)
    requires history[i].listing == history[j].listing && history[i].version == history[j].version
    ensures exists k :: i < k < j && history[k].listing == history[i].listing
                        && history[k].version == history[i].version
                        && history[k].status != Readiness.ModerationWaiting
  {
    LastStatusIsAt(history[..j], history[i].listing, history[i].version, i);
    var k :| i <= k < j && history[..j][k].listing == history[i].listing
             && history[..j][k].version == history[i].version
             && LastStatus(history[..j], history[i].listing, history[i].version) == Some(history[..j][k].status);
    assert k != i;
    assert history[k] == history[..j][k];
  }

  lemma {:induction false} LastStatusIsAt(history: seq<Recorded>, listing: Id, version: nat, i: nat)
    requires i < |history| && history[i].listing == listing && history[i].version == version
    ensures exists k :: i <= k < |history| && history[k].listing == listing && history[k].version == version
                        && LastStatus(history, listing, version) == Some(history[k].status)
  {
    var n := |history| - 1;
    if history[n].listing == listing && history[n].version == version {
      assert LastStatus(history, listing, version) == Some(history[n].status);
    } else {
      LastStatusIsAt(history[..n], listing, version, i);
      var k :| i <= k < n && history[..n][k].listing == listing && history[..n][k].version == version
               && LastStatus(history[..n], listing, version) == Some(history[..n][k].status);
      assert history[k] == history[..n][k];
    }
  }

  /** Everything a submission that reaches moderation relies on, in a reachable state: a live
      identity, complete media, and a proof of ownership which the policy accepts, or one of
      this very listing that has since been superseded. */
  lemma ModerationReliesOn(cfg: Own.Config, s: State, listing: Id, facts: Facts)
    requires Inv(s) && listing < |s.own.listings|
    requires Readiness.Publishable(Snapshot(cfg, s.own, listing, facts, None))
    requires forall e | e in GroupOf(s.own, s.own.listings[listing]) :: FingerprintValid(e.fingerprint)
    requires forall v | 0 <= v < |s.own.vehicles| :: s.own.vehicles[v].status == Active
    ensures var l := s.own.listings[listing];
            var chosen := Choose(cfg.policy, s.own, listing);
            && HasCanonical(s.own, l)
            && IdentityValid(Idv.Projected(s.own.identity, l.ownerUser.value).value, s.own.clock)
            && facts.sellerReady && facts.detailsComplete && facts.locationPresent
            && |facts.media| > 0 && (forall i | 0 <= i < |facts.media| ::
                facts.media[i].status == MediaProcessing.ModerationPending)
            && chosen.proof.Some?
            && (Proven(cfg.policy, s.own, listing)
                || (chosen.proof.value.supersededAt.Some? && chosen.proof.value.listing == listing))
  {
    var snapshot := Snapshot(cfg, s.own, listing, facts, None);
    OwnershipGateExactly(cfg, s.own, listing, facts);
    InvRows(s);
    hide Inv, Own.Inv, Proven, FallsBack, FingerprintValid, Readiness.OwnershipHolds;
    assert HasCanonical(s.own, s.own.listings[listing]) by { hide GroupOf; }
    assert forall i | 0 <= i < |facts.media| :: Readiness.Sanitized(snapshot.mediaStatuses[i]);
    ChooseProven(cfg.policy, s.own, listing);
    if FallsBack(cfg.policy, s.own, listing) {
      FallbackMeansSuperseded(cfg.policy, s.own, listing);
      assert !Proven(cfg.policy, s.own, listing) by { NotBoth(cfg.policy, s.own, listing); }
    }
    hide Choose, ContextOf, GroupOf, SortDescending, cfg.policy.Select, cfg.policy.Refusal, cfg.policy.EffectiveExpiry,
        LatestOf;
  }

  lemma NotBoth(policy: Policy, s: Own.State, listing: Id)
    requires listing < |s.listings| && FallsBack(policy, s, listing)
    ensures !Proven(policy, s, listing)
  {
    hide policy.Select, ContextOf, GroupOf, LatestOf, SortDescending, MatchesCurrent;
  }

  /** The readiness view, which compares with the latest submission, agrees with a fresh submission
      exactly as long as listing version, media set and proof are the submitted ones. */
  lemma ReadinessViewExactly(cfg: Own.Config, s: Own.State, listing: Id, facts: Facts, row: Attempt)
    requires listing < |s.listings|
    ensures Readiness.Publishable(Snapshot(cfg, s, listing, facts, Some(row))) <==>
            && Readiness.Publishable(Snapshot(cfg, s, listing, facts, None))
            && row.version == s.listings[listing].version
            && row.media == facts.media
            && Choose(cfg.policy, s, listing).proof.Some?
            && row.fingerprint == Some(Choose(cfg.policy, s, listing).proof.value.fingerprint)
  {
    hide Choose, MatchesCurrent, Statuses;
  }

  // -------------------------------------------------------------------- the service

  lemma {:induction false} NumbersKept(rows: seq<Attempt>, listing: Id, version: nat, now: Time)
    ensures HighestNumber(SupersedeOthers(rows, listing, version, now), listing) == HighestNumber(rows, listing)
  {
    if rows != [] {
      var n := |rows| - 1;
      NumbersKept(rows[..n], listing, version, now);
      assert SupersedeOthers(rows, listing, version, now)[..n] == SupersedeOthers(rows[..n], listing, version, now);
    }
  }

  class ListingSubmissionService {
    const cfg: Own.Config
    var own: Own.State
    var rows: seq<Attempt>
    var requested: seq<Requested>
    var history: seq<Recorded>
    var marks: map<Id, Mark>

    ghost function Db(): State
      reads this
    {
      State(own, rows, requested, history, marks)
    }

    constructor (cfg: Own.Config, users: seq<bool>, clock: Time)
      ensures this.cfg == cfg && Db() == Initial(users, clock)
    {
      this.cfg := cfg;
      own := Own.Initial(users, clock);
      rows, requested, history, marks := [], [], [], map[];
    }

    /** UPDATE ... SET superseded_at over the open rows of the listing's other versions. */
    method SupersedeOtherVersions(listing: Id, version: nat)
      modifies `rows
      ensures rows == SupersedeOthers(old(rows), listing, version, own.clock)
    {
      var i := 0;
      while i < |rows|
        invariant 0 <= i <= |rows| == |old(rows)|
        invariant forall k | 0 <= k < i :: rows[k] == Superseded(old(rows)[k], listing, version, own.clock)
        invariant forall k | i <= k < |rows| :: rows[k] == old(rows)[k]
      {
        if rows[i].listing == listing && rows[i].version != version && rows[i].supersededAt.None? {
          rows := rows[i := rows[i].(supersededAt := Some(own.clock))];
        }
        i := i + 1;
      }
    }

    method RecordAttempt(listing: Id, actor: Id, existing: Option<Id>, chosen: Chosen, facts: Facts,
        e: Readiness.Evaluation)
      returns (id: Id, request: bool)
      requires listing < |own.listings| && |e.gates| > 0
      requires existing == ForVersion(rows, listing, own.listings[listing].version)
      modifies `rows
      ensures var row := SubmittedRow(old(Db()), listing, actor, chosen, facts, e);
              (rows, id, request) == Record(old(Db()), listing, own.listings[listing].version, row)
              && id < |rows| && rows[id] == row
    {
      hide Filled, BlankAttempt, Idv.Projected, HighestNumber;
      var version, now := own.listings[listing].version, own.clock;
      var p := Idv.Projected(own.identity, actor);
      var previous := if existing.Some? then Some(rows[existing.value].status) else None;
      NumbersKept(rows, listing, version, now);
      SupersedeOtherVersions(listing, version);
      var attempt: Attempt;
      if existing.None? {
        attempt := BlankAttempt(listing, version, HighestNumber(rows, listing) + 1, actor, actor, now);
      } else {
        attempt := rows[existing.value];
        assert attempt == Superseded(old(rows)[existing.value], listing, version, now) == old(rows)[existing.value];
      }
      attempt := Filled(attempt, actor, now, p, chosen, facts, e);
      if existing.None? {
        id := |rows|;
        rows := rows + [attempt];
      } else {
        id := existing.value;
        rows := rows[id := attempt];
      }
      request := attempt.status == Readiness.ModerationWaiting && previous != Some(Readiness.ModerationWaiting);
    }

    method SubmitListing(actor: Id, listing: Id, expected: nat, facts: Facts) returns (outcome: Outcome)
      modifies `rows, `requested, `history, `marks
      ensures (Db(), outcome) == Submit(cfg, old(Db()), actor, listing, expected, facts)
    {
      if actor >= |own.identity.users| || !own.identity.users[actor] || listing >= |own.listings| {
        return Refused(ListingNotFound);
      }
      var l := own.listings[listing];
      if l.ownerOrganization.Some? {
        return Refused(DealerNotImplemented);
      }
      if l.ownerUser != Some(actor) {
        return Refused(ListingNotFound);
      }
      if l.version != expected {
        return Refused(VersionChanged);
      }
      var existing := ForVersion(rows, listing, l.version);
      var chosen := Choose(cfg.policy, own, listing);
      var e := Readiness.Evaluate(SnapshotOf(own, listing, facts, chosen, None));
      var id, request := RecordAttempt(listing, actor, existing, chosen, facts, e);
      marks := marks[listing := Mark(e.moderation, l.version, own.clock)];
      if request {
        requested := requested + [Requested(listing, l.version)];
      }
      history := history + [Recorded(listing, l.version, rows[id].status)];
      outcome := Submitted(id, request);
    }
  }
}
