/** Publication readiness: nine gates in a fixed order, then the moderation gate. */
module Readiness {
  import opened Core
  import opened OwnershipReuse
  import MediaProcessing

  type MediaStatus = MediaProcessing.MediaStatus

  datatype GateName =
    | AccountOwner | SellerReadiness | ListingDetails | CanonicalVehicle | Location
    | IdentityVerification | OwnershipVerification | SanitizedMedia | MediaModerationQueue | ModerationApproval

  datatype GateState = Ready | Blocked | Waiting | Stale | NotStarted

  datatype BlockerCode =
    | SellerRestricted | ListingVersionChanged | ListingDetailsIncomplete | OwnershipRequired | LocationRequired
    | IdentityRequired | IdentityPending | IdentityFailed | IdentityExpired
    | OwnershipExpired | OwnershipMismatch | OwnershipPending | OwnershipRevoked | OwnershipFailed
    | MediaIncomplete | ModerationPending

  datatype Gate = Gate(name: GateName, state: GateState, code: Option<BlockerCode>)

  datatype Snapshot = Snapshot(
    now: Time,
    accountAuthorized: bool,
    sellerReady: bool,
    detailsComplete: bool,
    canonicalAssociated: bool,
    locationPresent: bool,
    identityStatus: Option<VerificationStatus>,
    identityExpiresAt: Option<Time>,
    identityRevokedAt: Option<Time>,
    ownershipStatus: Option<VerificationStatus>,
    ownershipExpiresAt: Option<Time>,
    ownershipRevokedAt: Option<Time>,
    ownershipMatchesCurrent: bool,
    ownershipFingerprintMatches: bool,
    mediaStatuses: seq<MediaStatus>,
    listingEvidenceStale: bool,
    mediaEvidenceStale: bool)

  datatype SubmissionStatus = SubmissionBlocked | VerificationWaiting | ModerationWaiting

  /** `moderation`: Waiting ("pending") or NotStarted. */
  datatype Evaluation = Evaluation(gates: seq<Gate>, moderation: GateState)

  function Simple(name: GateName, ready: bool, code: BlockerCode): Gate {
    Gate(name, if ready then Ready else Blocked, if ready then None else Some(code))
  }

  function DetailsGate(s: Snapshot): Gate {
    if s.listingEvidenceStale then Gate(ListingDetails, Stale, Some(ListingVersionChanged))
    else Simple(ListingDetails, s.detailsComplete, ListingDetailsIncomplete)
  }

  function IdentityGate(s: Snapshot): Gate {
    if s.identityStatus.None? then Gate(IdentityVerification, Blocked, Some(IdentityRequired))
    else
      var status := s.identityStatus.value;
      if Unfinished(status) then Gate(IdentityVerification, Waiting, Some(IdentityPending))
      else if status == Expired || (status == Verified
          && (s.identityExpiresAt.None? || s.identityExpiresAt.value <= s.now))
      then Gate(IdentityVerification, Blocked, Some(IdentityExpired))
      else if status == Verified && s.identityRevokedAt.None? then Gate(IdentityVerification, Ready, None)
      else Gate(IdentityVerification, Blocked, Some(IdentityFailed))
  }

  function OwnershipGate(s: Snapshot): Gate {
    if s.ownershipStatus == Some(Verified) && s.ownershipRevokedAt.None? then
      if s.ownershipExpiresAt.None? || s.ownershipExpiresAt.value <= s.now
      then Gate(OwnershipVerification, Blocked, Some(OwnershipExpired))
      else if !s.ownershipMatchesCurrent then Gate(OwnershipVerification, Blocked, Some(OwnershipRequired))
      else if !s.ownershipFingerprintMatches then Gate(OwnershipVerification, Stale, Some(OwnershipMismatch))
      else Gate(OwnershipVerification, Ready, None)
    else if s.ownershipStatus.None? then Gate(OwnershipVerification, Blocked, Some(OwnershipRequired))
    else
      var status := s.ownershipStatus.value;
      if Unfinished(status) then Gate(OwnershipVerification, Waiting, Some(OwnershipPending))
      else if status == Expired then Gate(OwnershipVerification, Blocked, Some(OwnershipExpired))
      else if status == Revoked || s.ownershipRevokedAt.Some?
          then Gate(OwnershipVerification, Blocked, Some(OwnershipRevoked))
      else Gate(OwnershipVerification, Blocked, Some(OwnershipFailed))
  }

  predicate Sanitized(status: MediaStatus) { status == MediaProcessing.ModerationPending }

  function SanitizedMediaGate(statuses: seq<MediaStatus>): Gate {
    Simple(SanitizedMedia, exists i :: 0 <= i < |statuses| && Sanitized(statuses[i]), MediaIncomplete)
  }

  function MediaQueueGate(s: Snapshot): Gate {
    if s.mediaEvidenceStale then Gate(MediaModerationQueue, Stale, Some(ListingVersionChanged))
    else
      var ready := |s.mediaStatuses| > 0 && forall i | 0 <= i < |s.mediaStatuses| :: Sanitized(s.mediaStatuses[i]);
      Gate(MediaModerationQueue, if ready then Ready else Waiting, if ready then None else Some(MediaIncomplete))
  }

  predicate AllReady(gates: seq<Gate>) {
    forall i | 0 <= i < |gates| :: gates[i].state == Ready
  }

  function FirstGates(s: Snapshot): (gates: seq<Gate>)
    ensures |gates| == 9
  {
    [Simple(AccountOwner, s.accountAuthorized, SellerRestricted),
     Simple(SellerReadiness, s.sellerReady, SellerRestricted),
     DetailsGate(s),
     Simple(CanonicalVehicle, s.canonicalAssociated, OwnershipRequired),
     Simple(Location, s.locationPresent, LocationRequired),
     IdentityGate(s),
     OwnershipGate(s),
     SanitizedMediaGate(s.mediaStatuses),
     MediaQueueGate(s)]
  }

  function Evaluate(s: Snapshot): Evaluation {
    var gates := FirstGates(s);
    var ready := AllReady(gates);
    var state := if ready then Waiting else NotStarted;
    Evaluation(gates + [Gate(ModerationApproval, state, if ready then Some(ModerationPending) else None)], state)
  }

  function Codes(gates: seq<Gate>): seq<BlockerCode> {
    if gates == [] then []
    else
      var n := |gates| - 1;
      Codes(gates[..n]) + (if gates[n].code.Some? then [gates[n].code.value] else [])
  }

  function BlockerCodes(e: Evaluation): seq<BlockerCode> {
    Deduplicated(Codes(e.gates))
  }

  predicate VerificationGate(g: Gate) {
    g.name in {IdentityVerification, OwnershipVerification}
  }

  function StatusOf(e: Evaluation): SubmissionStatus
    requires |e.gates| > 0
  {
    var first := e.gates[..|e.gates| - 1];
    if exists i :: 0 <= i < |first| && VerificationGate(first[i]) && first[i].state != Ready then VerificationWaiting
    else if !AllReady(first) then SubmissionBlocked
    else ModerationWaiting
  }

  // ---------------------------------------------------------------- what an evaluation means

  /** Nothing about gates: the facts a submission needs before it may go to moderation. */
  ghost predicate Publishable(s: Snapshot) {
    && s.accountAuthorized && s.sellerReady && s.detailsComplete && !s.listingEvidenceStale
    && s.canonicalAssociated && s.locationPresent
    && IdentityHolds(s)
    && OwnershipHolds(s)
    && |s.mediaStatuses| > 0 && (forall i | 0 <= i < |s.mediaStatuses| :: Sanitized(s.mediaStatuses[i]))
    && !s.mediaEvidenceStale
  }

  ghost predicate IdentityHolds(s: Snapshot) {
    && s.identityStatus == Some(Verified) && s.identityRevokedAt.None?
    && s.identityExpiresAt.Some? && s.identityExpiresAt.value > s.now
  }

  ghost predicate OwnershipHolds(s: Snapshot) {
    && s.ownershipStatus == Some(Verified) && s.ownershipRevokedAt.None?
    && s.ownershipExpiresAt.Some? && s.ownershipExpiresAt.value > s.now
    && s.ownershipMatchesCurrent && s.ownershipFingerprintMatches
  }

  /** The fact gate number `i` stands for. */
  ghost predicate Fact(s: Snapshot, i: nat) {
    match i
    case 0 => s.accountAuthorized
    case 1 => s.sellerReady
    case 2 => s.detailsComplete && !s.listingEvidenceStale
    case 3 => s.canonicalAssociated
    case 4 => s.locationPresent
    case 5 => IdentityHolds(s)
    case 6 => OwnershipHolds(s)
    case 7 => exists i :: 0 <= i < |s.mediaStatuses| && Sanitized(s.mediaStatuses[i])
    case _ => |s.mediaStatuses| > 0 && (forall i | 0 <= i < |s.mediaStatuses| ::
        Sanitized(s.mediaStatuses[i])) && !s.mediaEvidenceStale
  }

  ghost predicate Tells(g: Gate, fact: bool) {
    && (g.state == Ready <==> fact)
    && (g.state == Ready <==> g.code.None?)
    && g.code != Some(ModerationPending)
  }

  lemma GateMeaning(s: Snapshot, i: nat)
    requires i < 9
    ensures Tells(FirstGates(s)[i], Fact(s, i))
  {
    if i == 5 { assert Tells(IdentityGate(s), IdentityHolds(s)); }
    if i == 6 { assert Tells(OwnershipGate(s), OwnershipHolds(s)); }
    hide IdentityGate, OwnershipGate;
  }

  lemma PublishableIsEveryFact(s: Snapshot)
    ensures Publishable(s) <==> forall i: nat | i < 9 :: Fact(s, i)
  {
    hide IdentityHolds, OwnershipHolds;
    if forall i: nat | i < 9 :: Fact(s, i) {
      assert Fact(s, 0) && Fact(s, 1) && Fact(s, 2) && Fact(s, 3) && Fact(s, 4) && Fact(s, 5) && Fact(s, 6)
          && Fact(s, 8);
    }
    if Publishable(s) { assert Sanitized(s.mediaStatuses[0]); }
  }

  lemma FirstGatesReady(s: Snapshot)
    ensures AllReady(FirstGates(s)) <==> Publishable(s)
    ensures forall i | 0 <= i < 9 :: FirstGates(s)[i].state == Ready <==> FirstGates(s)[i].code.None?
    ensures forall i | 0 <= i < 9 :: FirstGates(s)[i].code != Some(ModerationPending)
  {
    hide FirstGates, Fact, Publishable;
    PublishableIsEveryFact(s);
    forall i: nat | i < 9 ensures Tells(FirstGates(s)[i], Fact(s, i)) { GateMeaning(s, i); }
  }

  lemma {:induction false} CodesMeaning(gates: seq<Gate>)
    ensures forall c :: c in Codes(gates) <==> exists i :: 0 <= i < |gates| && gates[i].code == Some(c)
    ensures |Codes(gates)| <= |gates|
    ensures (forall i | 0 <= i < |gates| :: gates[i].code.None?) ==> Codes(gates) == []
  {
    if gates != [] {
      var n := |gates| - 1;
      CodesMeaning(gates[..n]);
      forall c ensures c in Codes(gates) <==> exists i :: 0 <= i < |gates| && gates[i].code == Some(c) {
        if c in Codes(gates[..n]) {
          var i :| 0 <= i < n && gates[..n][i].code == Some(c);
          assert gates[i].code == Some(c);
        }
        if i :| 0 <= i < |gates| && gates[i].code == Some(c) {
          if i < n { assert gates[..n][i].code == Some(c); }
        }
      }
      assert (forall i | 0 <= i < |gates| :: gates[i].code.None?) ==> forall i | 0 <= i < n :: gates[..n][i].code.None?;
    }
  }

  lemma FirstOf(s: Snapshot)
    ensures |Evaluate(s).gates| == 10 && Evaluate(s).gates[..9] == FirstGates(s)
    ensures Evaluate(s).gates == FirstGates(s) + [Evaluate(s).gates[9]]
    ensures Evaluate(s).gates[9].code == if AllReady(FirstGates(s)) then Some(ModerationPending) else None
  {
    hide FirstGates;
  }

  lemma OnlyModerationCode(s: Snapshot)
    ensures BlockerCodes(Evaluate(s)) == [ModerationPending] <==> Publishable(s)
  {
    var e := Evaluate(s);
    var first := FirstGates(s);
    FirstOf(s);
    FirstGatesReady(s);
    hide FirstGates, Publishable, Deduplicated, Codes, Evaluate;
    CodesMeaning(e.gates);
    CodesMeaning(first);
    DeduplicatedMeaning(Codes(e.gates), 0);
    if Publishable(s) {
      CodesOfLast(first, e.gates[9]);
      OneCode(ModerationPending);
    } else {
      var i :| 0 <= i < 9 && first[i].state != Ready;
      assert e.gates[i] == first[i] && first[i].code.Some?;
      assert first[i].code.value in BlockerCodes(e);
    }
  }

  /** A submission waits for moderation exactly when every fact holds; then, and only then, the
      moderation gate is pending and "moderation pending" is the one code reported. */
  lemma ModerationExactlyWhenPublishable(s: Snapshot)
    ensures StatusOf(Evaluate(s)) == ModerationWaiting <==> Publishable(s)
    ensures Evaluate(s).moderation == Waiting <==> Publishable(s)
    ensures BlockerCodes(Evaluate(s)) == [ModerationPending] <==> Publishable(s)
  {
    OnlyModerationCode(s);
    FirstOf(s);
    FirstGatesReady(s);
    hide FirstGates, Publishable, BlockerCodes;
  }

  lemma CodesOfLast(first: seq<Gate>, last: Gate)
    requires Codes(first) == [] && last.code.Some?
    ensures Codes(first + [last]) == [last.code.value]
  {
    assert (first + [last])[..|first|] == first;
  }

  lemma OneCode(c: BlockerCode)
    ensures Deduplicated([c]) == [c]
  {
    assert [c][..0] == [];
    assert Deduplicated<BlockerCode>([]) == [];
  }

  /** The stored blocker codes: no repetition, at most ten (the table's bound), and exactly the
      codes of the gates; each gate that is not ready contributes one, no ready gate does. */
  lemma BlockerCodesExplainGates(s: Snapshot)
    ensures var e := Evaluate(s);
            && |e.gates| == 10 && |BlockerCodes(e)| <= 10
            && (forall i, j | 0 <= i < j < |BlockerCodes(e)| :: BlockerCodes(e)[i] != BlockerCodes(e)[j])
            && (forall i | 0 <= i < 9 :: e.gates[i].state != Ready <==> e.gates[i].code.Some?)
            && (forall i | 0 <= i < 9 && e.gates[i].state != Ready :: e.gates[i].code.value in BlockerCodes(e))
            && (forall c | c in BlockerCodes(e) && c != ModerationPending ::
                  exists i :: 0 <= i < 9 && e.gates[i].state != Ready && e.gates[i].code == Some(c))
  {
    var e := Evaluate(s);
    FirstGatesReady(s);
    hide FirstGates, Deduplicated, Codes;
    CodesMeaning(e.gates);
    DeduplicatedMeaning(Codes(e.gates), 0);
    assert forall i | 0 <= i < 9 :: e.gates[i] == FirstGates(s)[i];
    forall c | c in BlockerCodes(e) && c != ModerationPending
      ensures exists i :: 0 <= i < 9 && e.gates[i].state != Ready && e.gates[i].code == Some(c)
    {
      var i :| 0 <= i < |e.gates| && e.gates[i].code == Some(c);
      assert i < 9;
    }
  }

  /** The fact a stored code stands for. */
  ghost predicate Reason(s: Snapshot, c: BlockerCode) {
    var owned := s.ownershipStatus == Some(Verified) && s.ownershipRevokedAt.None?;
    var ownedInTime := owned && s.ownershipExpiresAt.Some? && s.now < s.ownershipExpiresAt.value;
    match c
    case SellerRestricted => !s.accountAuthorized || !s.sellerReady
    case ListingVersionChanged => s.listingEvidenceStale || s.mediaEvidenceStale
    case ListingDetailsIncomplete => !s.listingEvidenceStale && !s.detailsComplete
    case LocationRequired => !s.locationPresent
    case IdentityRequired => s.identityStatus.None?
    case IdentityPending => s.identityStatus in {Some(SessionPending), Some(Pending), Some(ManualReview)}
    case IdentityExpired =>
      || s.identityStatus == Some(Expired)
      || (s.identityStatus == Some(Verified) && !(s.identityExpiresAt.Some? && s.now < s.identityExpiresAt.value))
    case IdentityFailed =>
      || s.identityStatus in {Some(Failed), Some(Revoked)}
      || (s.identityStatus == Some(Verified) && s.identityRevokedAt.Some?
          && s.identityExpiresAt.Some? && s.now < s.identityExpiresAt.value)
    case OwnershipRequired =>
      !s.canonicalAssociated || s.ownershipStatus.None? || (ownedInTime && !s.ownershipMatchesCurrent)
    case OwnershipExpired => s.ownershipStatus == Some(Expired) || (owned && !ownedInTime)
    case OwnershipMismatch => ownedInTime && s.ownershipMatchesCurrent && !s.ownershipFingerprintMatches
    case OwnershipPending => s.ownershipStatus in {Some(SessionPending), Some(Pending), Some(ManualReview)}
    case OwnershipRevoked =>
      || s.ownershipStatus == Some(Revoked)
      || (s.ownershipStatus in {Some(Verified), Some(Failed)} && s.ownershipRevokedAt.Some?)
    case OwnershipFailed => s.ownershipStatus == Some(Failed) && s.ownershipRevokedAt.None?
    case MediaIncomplete =>
      || (forall i | 0 <= i < |s.mediaStatuses| :: !Sanitized(s.mediaStatuses[i]))
      || (!s.mediaEvidenceStale && exists i :: 0 <= i < |s.mediaStatuses| && !Sanitized(s.mediaStatuses[i]))
    case ModerationPending => Publishable(s)
  }

  ghost predicate AtGate(s: Snapshot, i: nat, c: BlockerCode)
    requires i < 9
  {
    FirstGates(s)[i].code == Some(c)
  }

  lemma AtSomeGate(s: Snapshot, c: BlockerCode)
    ensures c in BlockerCodes(Evaluate(s)) <==>
              (AllReady(FirstGates(s)) && c == ModerationPending) || exists i: nat :: i < 9 && AtGate(s, i, c)
  {
    var e := Evaluate(s);
    FirstOf(s);
    hide FirstGates, AllReady, Evaluate, Deduplicated, Codes;
    CodesMeaning(e.gates);
    DeduplicatedMeaning(Codes(e.gates), 0);
    if i: nat :| i < 9 && AtGate(s, i, c) { assert e.gates[i].code == Some(c); }
    if c in BlockerCodes(e) {
      var i :| 0 <= i < |e.gates| && e.gates[i].code == Some(c);
      if i < 9 { assert AtGate(s, i, c); }
    }
    if AllReady(FirstGates(s)) && c == ModerationPending { assert e.gates[9].code == Some(c); }
  }

  lemma IdentityReasons(s: Snapshot, c: BlockerCode)
    ensures AtGate(s, 5, c) <==> c in {IdentityRequired, IdentityPending, IdentityExpired, IdentityFailed}
                                 && Reason(s, c)
  {
    assert FirstGates(s)[5] == IdentityGate(s);
    hide FirstGates, Publishable;
  }

  lemma OwnershipReasons(s: Snapshot, c: BlockerCode)
    ensures AtGate(s, 6, c) || (!s.canonicalAssociated && c == OwnershipRequired) <==>
              c in {OwnershipRequired, OwnershipExpired, OwnershipMismatch, OwnershipPending, OwnershipRevoked,
                    OwnershipFailed} && Reason(s, c)
  {
    assert FirstGates(s)[6] == OwnershipGate(s);
    hide FirstGates, Publishable;
  }

  lemma OtherReasons(s: Snapshot, c: BlockerCode)
    ensures (AtGate(s, 0, c) || AtGate(s, 1, c) || AtGate(s, 2, c) || AtGate(s, 4, c) || AtGate(s, 7, c)
             || AtGate(s, 8, c)) <==>
              c in {SellerRestricted, ListingVersionChanged, ListingDetailsIncomplete, LocationRequired,
                    MediaIncomplete} && Reason(s, c)
    ensures AtGate(s, 3, c) <==> !s.canonicalAssociated && c == OwnershipRequired
  {
    var gates := FirstGates(s);
    hide IdentityGate, OwnershipGate, Publishable;
  }

  /** What is stored says exactly why: each code is there exactly when its fact is. */
  lemma CodesExactly(s: Snapshot, c: BlockerCode)
    ensures c in BlockerCodes(Evaluate(s)) <==> Reason(s, c)
  {
    AtSomeGate(s, c);
    FirstGatesReady(s);
    IdentityReasons(s, c);
    OwnershipReasons(s, c);
    OtherReasons(s, c);
    assert Reason(s, ModerationPending) == Publishable(s);
    assert forall i: nat | i < 9 && AtGate(s, i, c) :: c != ModerationPending;
    hide FirstGates, AllReady, Evaluate, BlockerCodes, Reason, AtGate, Publishable;
    if i: nat :| i < 9 && AtGate(s, i, c) {
      assert i == 0 || i == 1 || i == 2 || i == 3 || i == 4 || i == 5 || i == 6 || i == 7 || i == 8;
    }
  }

  function NameOf(i: nat): GateName
    requires i < 9
  {
    [AccountOwner, SellerReadiness, ListingDetails, CanonicalVehicle, Location, IdentityVerification,
     OwnershipVerification, SanitizedMedia, MediaModerationQueue][i]
  }

  ghost predicate Waits(s: Snapshot, i: nat) {
    || (i == 5 && Reason(s, IdentityPending))
    || (i == 6 && Reason(s, OwnershipPending))
    || (i == 8 && !s.mediaEvidenceStale && !Fact(s, 8))
  }

  ghost predicate OutOfDate(s: Snapshot, i: nat) {
    || (i == 2 && s.listingEvidenceStale)
    || (i == 6 && Reason(s, OwnershipMismatch))
    || (i == 8 && s.mediaEvidenceStale)
  }

  ghost predicate Reports(s: Snapshot, i: nat, g: Gate)
    requires i < 9
  {
    && g.name == NameOf(i)
    && g.state == if Fact(s, i) then Ready else if Waits(s, i) then Waiting else if OutOfDate(s, i) then Stale
                  else Blocked
  }

  lemma IdentityReports(s: Snapshot)
    ensures Reports(s, 5, IdentityGate(s))
  {
    hide Publishable;
  }

  lemma OwnershipReports(s: Snapshot)
    ensures Reports(s, 6, OwnershipGate(s))
  {
    hide Publishable;
  }

  lemma OtherReports(s: Snapshot, i: nat)
    requires i < 9 && i != 5 && i != 6
    ensures Reports(s, i, FirstGates(s)[i])
  {
    hide Publishable, IdentityGate, OwnershipGate, Reason;
  }

  /** Gates keep their names and places; one waits, or is out of date, for the reasons given here and
      is blocked for any other. */
  lemma StatesExactly(s: Snapshot, i: nat)
    requires i < 9
    ensures Reports(s, i, Evaluate(s).gates[i])
  {
    FirstOf(s);
    assert FirstGates(s)[5] == IdentityGate(s) && FirstGates(s)[6] == OwnershipGate(s);
    assert Evaluate(s).gates[i] == FirstGates(s)[i];
    hide FirstGates, Evaluate, Reports, IdentityGate, OwnershipGate;
    if i == 5 {
      IdentityReports(s);
    } else if i == 6 {
      OwnershipReports(s);
    } else {
      OtherReports(s, i);
    }
  }

  /** "Verification pending" wins over every other reason: it is reported exactly when the
      identity or the ownership facts do not hold. */
  lemma VerificationIsReportedFirst(s: Snapshot)
    ensures StatusOf(Evaluate(s)) == VerificationWaiting <==> !IdentityHolds(s) || !OwnershipHolds(s)
    ensures StatusOf(Evaluate(s)) == SubmissionBlocked <==> IdentityHolds(s) && OwnershipHolds(s) && !Publishable(s)
  {
    var first := FirstGates(s);
    FirstOf(s);
    FirstGatesReady(s);
    GateMeaning(s, 5);
    GateMeaning(s, 6);
    GateNames(s);
    hide Publishable, FirstGates, IdentityHolds, OwnershipHolds, Evaluate;
    assert VerificationGate(first[5]) && VerificationGate(first[6]);
  }

  lemma GateNames(s: Snapshot)
    ensures forall i | 0 <= i < 9 :: VerificationGate(FirstGates(s)[i]) <==> i == 5 || i == 6
  {
    var first := FirstGates(s);
    assert first[0].name == AccountOwner && first[1].name == SellerReadiness && first[2].name == ListingDetails
        && first[3].name == CanonicalVehicle && first[4].name == Location && first[5].name == IdentityVerification
        && first[6].name == OwnershipVerification && first[7].name == SanitizedMedia
            && first[8].name == MediaModerationQueue;
  }

  /** Waiting never helps: what is publishable later is publishable now. */
  lemma ReadinessOnlyExpires(s: Snapshot, later: Time)
    requires s.now <= later && StatusOf(Evaluate(s.(now := later))) == ModerationWaiting
    ensures StatusOf(Evaluate(s)) == ModerationWaiting
  {
    hide Evaluate, StatusOf;
    ModerationExactlyWhenPublishable(s);
    ModerationExactlyWhenPublishable(s.(now := later));
  }
}
