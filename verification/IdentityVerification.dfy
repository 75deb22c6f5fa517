/** Identity verification attempts and the per-user projection that follows the latest one. */
module IdentityVerification {
  import opened Core
  import opened OwnershipReuse

  datatype Assurance = Basic | Standard | Enhanced

  datatype FailureCode =
    | IdentityMismatch | OwnershipMismatch | ManualReviewRequired | ProviderRejected
    | ProviderUnavailable | QualityInsufficient | VerificationFailed

  /** A failure code as a provider sends it: absent, empty, on the allow list, or anything else. */
  datatype SuppliedCode = Missing | Blank | Listed(code: FailureCode) | Unlisted

  datatype Attempt = Attempt(
    user: Id,
    number: nat,
    reference: Option<nat>,
    resultEvent: Option<nat>,
    status: VerificationStatus,
    assurance: Option<Assurance>,
    failure: Option<FailureCode>,
    verifiedAt: Option<Time>,
    expiresAt: Option<Time>,
    revokedAt: Option<Time>,
    supersededAt: Option<Time>)

  datatype Projection = Projection(
    current: Id,
    status: VerificationStatus,
    assurance: Option<Assurance>,
    failure: Option<FailureCode>,
    verifiedAt: Option<Time>,
    expiresAt: Option<Time>,
    revokedAt: Option<Time>,
    version: nat)

  datatype Emitted = Emitted(user: Id, attempt: Id, version: nat, status: VerificationStatus)

  /** `users[u]` says whether the account is active; projections run parallel to users. */
  datatype State = State(
    users: seq<bool>,
    attempts: seq<Attempt>,
    projections: seq<Option<Projection>>,
    events: seq<Emitted>)

  /** `textsValid`: provider reference and event id both hold 1 to 200 characters. */
  datatype ProviderResult = ProviderResult(
    textsValid: bool,
    reference: nat,
    event: nat,
    status: VerificationStatus,
    assurance: Option<Assurance>,
    verifiedAt: Option<Time>,
    expiresAt: Option<Time>,
    failure: SuppliedCode)

  datatype Claim = UserNotFound | InReview | Claimed(attempt: Id)

  datatype Outcome =
    | NotFound | AttemptSuperseded | Unavailable | Closed | Ignored | Finalized
    | Invalid | ResultConflict | Stale | Duplicate | Applied

  // -------------------------------------------------------------------- queries

  predicate Terminal(status: VerificationStatus) {
    status in {ManualReview, Verified, Failed, Expired, Revoked}
  }

  predicate Selected(a: Attempt, user: Id, unfinishedOnly: bool) {
    a.user == user && (unfinishedOnly ==> Unfinished(a.status))
  }

  /** ORDER BY attempt_number DESC LIMIT 1, over all rows of the user or the unfinished ones. */
  function Newest(rows: seq<Attempt>, user: Id, unfinishedOnly: bool): (found: Option<Id>)
    ensures found.Some? ==> found.value < |rows| && Selected(rows[found.value], user, unfinishedOnly)
    ensures found.Some? ==> forall i | 0 <= i < |rows| && Selected(rows[i], user, unfinishedOnly) ::
                              rows[i].number <= rows[found.value].number
    ensures found.None? ==> forall i | 0 <= i < |rows| :: !Selected(rows[i], user, unfinishedOnly)
  {
    if rows == [] then None
    else
      var n := |rows| - 1;
      var rest := Newest(rows[..n], user, unfinishedOnly);
      if Selected(rows[n], user, unfinishedOnly) && (rest.None? || rows[rest.value].number <= rows[n].number)
      then Some(n) else rest
  }

  function NextNumber(rows: seq<Attempt>, user: Id): nat {
    var latest := Newest(rows, user, false);
    if latest.None? then 1 else rows[latest.value].number + 1
  }

  function ByReference(rows: seq<Attempt>, reference: nat): (found: Option<Id>)
    ensures found.Some? ==> found.value < |rows| && rows[found.value].reference == Some(reference)
    ensures found.None? ==> forall i | 0 <= i < |rows| :: rows[i].reference != Some(reference)
  {
    if rows == [] then None
    else if rows[|rows| - 1].reference == Some(reference) then Some(|rows| - 1)
    else ByReference(rows[..|rows| - 1], reference)
  }

  function ByResultEvent(rows: seq<Attempt>, event: nat): (found: Option<Id>)
    ensures found.Some? ==> found.value < |rows| && rows[found.value].resultEvent == Some(event)
    ensures found.None? ==> forall i | 0 <= i < |rows| :: rows[i].resultEvent != Some(event)
  {
    if rows == [] then None
    else if rows[|rows| - 1].resultEvent == Some(event) then Some(|rows| - 1)
    else ByResultEvent(rows[..|rows| - 1], event)
  }

  function Projected(s: State, user: Id): Option<Projection> {
    if user < |s.projections| then s.projections[user] else None
  }

  // -------------------------------------------------------------------- pure rules

  function SafeFailureCode(c: SuppliedCode): FailureCode {
    if c.Listed? && c.code != OwnershipMismatch then c.code else VerificationFailed
  }

  predicate ResultValid(r: ProviderResult) {
    && r.textsValid
    && r.status in {ManualReview, Verified, Failed}
    && (r.status == Verified ==>
          && r.assurance.Some? && r.verifiedAt.Some? && r.expiresAt.Some?
          && r.expiresAt.value > r.verifiedAt.value && r.failure == Missing)
    && (r.status == Failed ==> r.failure != Missing && r.failure != Blank)
  }

  function ResultFailure(status: VerificationStatus, failure: SuppliedCode): Option<FailureCode> {
    if status == ManualReview then Some(ManualReviewRequired)
    else if status == Failed then Some(SafeFailureCode(failure))
    else None
  }

  function IfVerified<T>(status: VerificationStatus, value: Option<T>): Option<T> {
    if status == Verified then value else None
  }

  predicate ResultMatches(a: Attempt, r: ProviderResult) {
    && a.resultEvent == Some(r.event)
    && a.status == r.status
    && a.assurance == IfVerified(r.status, r.assurance)
    && a.verifiedAt == IfVerified(r.status, r.verifiedAt)
    && a.expiresAt == IfVerified(r.status, r.expiresAt)
    && a.failure == ResultFailure(r.status, r.failure)
  }

  predicate TransitionAllowed(current: VerificationStatus, target: VerificationStatus) {
    || current == target
    || (current == SessionPending && target in {Pending, Failed})
    || (current == Pending && target in {ManualReview, Verified, Failed})
  }

  function Mirror(id: Id, a: Attempt, version: nat): Projection {
    Projection(id, a.status, a.assurance, a.failure, a.verifiedAt, a.expiresAt, a.revokedAt, version)
  }

  function WithResult(a: Attempt, r: ProviderResult): Attempt {
    a.(resultEvent := Some(r.event),
       status := r.status,
       assurance := IfVerified(r.status, r.assurance),
       verifiedAt := IfVerified(r.status, r.verifiedAt),
       expiresAt := IfVerified(r.status, r.expiresAt),
       revokedAt := None,
       failure := ResultFailure(r.status, r.failure))
  }

  // -------------------------------------------------------------------- transactions

  function NewAttempt(s: State, user: Id, now: Time): State
    requires user < |s.projections|
  {
    var latest := Newest(s.attempts, user, false);
    var kept := if latest.Some? then s.attempts[latest.value := s.attempts[latest.value].(supersededAt := Some(now))]
                else s.attempts;
    var added := Attempt(user, NextNumber(s.attempts, user), None, None, SessionPending, None, None, None, None, None,
        None);
    var version := if s.projections[user].None? then 1 else s.projections[user].value.version + 1;
    s.(attempts := kept + [added],
       projections := s.projections[user := Some(Mirror(|s.attempts|, added, version))])
  }

  function ClaimAttempt(s: State, user: Id, now: Time): (State, Claim) {
    if user >= |s.users| || user >= |s.projections| || !s.users[user] then (s, UserNotFound)
    else
      var active := Newest(s.attempts, user, true);
      if active.Some? then
        (s, if s.attempts[active.value].status == ManualReview then InReview else Claimed(active.value))
      else (NewAttempt(s, user, now), Claimed(|s.attempts|))
  }

  /** The attempt row changes, the projection mirrors it one version later, one event goes out. */
  function Publish(s: State, id: Id, a: Attempt): State
    requires id < |s.attempts| && a.user < |s.projections| && s.projections[a.user].Some?
  {
    var version := s.projections[a.user].value.version + 1;
    s.(attempts := s.attempts[id := a],
       projections := s.projections[a.user := Some(Mirror(id, a, version))],
       events := s.events + [Emitted(a.user, id, version, a.status)])
  }

  predicate IsCurrent(s: State, id: Id) {
    id < |s.attempts| && Projected(s, s.attempts[id].user).Some?
        && Projected(s, s.attempts[id].user).value.current == id
  }

  predicate ReferenceFree(rows: seq<Attempt>, id: Id, reference: nat) {
    ByReference(rows, reference) in {None, Some(id)}
  }

  function FinalizeSession(s: State, id: Id, reference: nat): (State, Outcome) {
    if id >= |s.attempts| then (s, NotFound)
    else if !IsCurrent(s, id) then (s, AttemptSuperseded)
    else
      var a := s.attempts[id];
      if a.reference.Some? && a.reference.value != reference then (s, Unavailable)
      else if a.status != SessionPending && a.status != Pending then (s, Closed)
      else if !ReferenceFree(s.attempts, id, reference) then (s, Unavailable)
      else if a.status == Pending then
        (s.(attempts := s.attempts[id := a.(reference := Some(reference))]), Finalized)
      else (Publish(s, id, a.(reference := Some(reference), status := Pending)), Finalized)
  }

  function FinalizeSessionFailure(s: State, id: Id, failure: SuppliedCode): (State, Outcome) {
    if id >= |s.attempts| || s.attempts[id].status != SessionPending || !IsCurrent(s, id) then (s, Ignored)
    else (Publish(s, id, s.attempts[id].(status := Failed, failure := Some(SafeFailureCode(failure)))), Finalized)
  }

  function Disposition(s: State, id: Id, r: ProviderResult): Outcome
    requires id < |s.attempts|
  {
    var a := s.attempts[id];
    if a.supersededAt.Some? || !IsCurrent(s, id) then Stale
    else if a.resultEvent == Some(r.event) && ResultMatches(a, r) then Duplicate
    else if Terminal(a.status) || a.resultEvent == Some(r.event) then ResultConflict
    else if !TransitionAllowed(a.status, r.status) then ResultConflict
    else Applied
  }

  function ApplyProviderResult(s: State, r: ProviderResult): (State, Outcome) {
    if !ResultValid(r) then (s, Invalid)
    else
      var target := ByReference(s.attempts, r.reference);
      if target.None? || Projected(s, s.attempts[target.value].user).None? then (s, NotFound)
      else
        var id := target.value;
        var seen := ByResultEvent(s.attempts, r.event);
        if seen.Some? then
          (s, if seen.value == id && ResultMatches(s.attempts[id], r) then Duplicate else ResultConflict)
        else
          var d := Disposition(s, id, r);
          if d == Applied then (Publish(s, id, WithResult(s.attempts[id], r)), Applied) else (s, d)
  }

  // -------------------------------------------------------------------- runs

  datatype Action =
    | Start(user: Id, now: Time)
    | SessionReady(attempt: Id, reference: nat)
    | SessionFailed(attempt: Id, failure: SuppliedCode)
    | Result(result: ProviderResult)

  function Step(s: State, a: Action): State {
    match a
    case Start(user, now) => ClaimAttempt(s, user, now).0
    case SessionReady(id, reference) => FinalizeSession(s, id, reference).0
    case SessionFailed(id, failure) => FinalizeSessionFailure(s, id, failure).0
    case Result(r) => ApplyProviderResult(s, r).0
  }

  function Run(s: State, actions: seq<Action>): State
    decreases |actions|
  {
    if actions == [] then s else Run(Step(s, actions[0]), actions[1..])
  }

  function Initial(users: seq<bool>): State {
    State(users, [], seq(|users|, i => None), [])
  }

  // -------------------------------------------------------------------- invariant

  /** The table's check constraints on what a verified, failed or reviewed row must carry. */
  ghost predicate EvidenceConstraints(a: Attempt) {
    && (a.status == Verified ==>
          && a.verifiedAt.Some? && a.expiresAt.Some? && a.expiresAt.value > a.verifiedAt.value
          && a.assurance.Some? && a.failure.None? && a.revokedAt.None?)
    && (a.status == Failed ==>
          a.failure.Some? && a.verifiedAt.None? && a.expiresAt.None? && a.revokedAt.None?)
    && a.status != Expired && a.status != Revoked
    && (!Terminal(a.status) ==> a.resultEvent.None? && a.verifiedAt.None? && a.expiresAt.None? && a.revokedAt.None?)
  }

  ghost predicate HasNumber(rows: seq<Attempt>, user: Id, k: nat) {
    exists i :: 0 <= i < |rows| && rows[i].user == user && rows[i].number == k
  }

  ghost predicate Rows(s: State) {
    && |s.projections| == |s.users|
    && (forall i | 0 <= i < |s.attempts| ::
          && s.attempts[i].user < |s.users|
          && s.attempts[i].number >= 1
          && EvidenceConstraints(s.attempts[i]))
  }

  /** 1, 2, 3, ... per user, without gaps or repetition. */
  ghost predicate Contiguous(rows: seq<Attempt>) {
    && (forall i, j | 0 <= i < |rows| && 0 <= j < |rows| && i != j && rows[i].user == rows[j].user ::
          rows[i].number != rows[j].number)
    && (forall i, k: nat | 0 <= i < |rows| && 1 <= k < rows[i].number :: HasNumber(rows, rows[i].user, k))
  }

  /** The projection is a copy of the newest attempt, the only one not superseded; older
      attempts are settled. */
  ghost predicate Follows(s: State, user: Id)
    requires user < |s.projections|
  {
    match s.projections[user]
    case None => forall i | 0 <= i < |s.attempts| :: s.attempts[i].user != user
    case Some(p) =>
      && p.current < |s.attempts|
      && s.attempts[p.current].user == user
      && p == Mirror(p.current, s.attempts[p.current], p.version)
      && p.version >= 1
      && s.attempts[p.current].supersededAt.None?
      && forall i | 0 <= i < |s.attempts| && s.attempts[i].user == user && i != p.current ::
           && s.attempts[i].number < s.attempts[p.current].number
           && s.attempts[i].supersededAt.Some?
           && s.attempts[i].status in {Verified, Failed}
  }

  ghost predicate Unique(rows: seq<Attempt>) {
    forall i, j | 0 <= i < |rows| && 0 <= j < |rows| && i != j ::
      && (rows[i].reference.Some? ==> rows[i].reference != rows[j].reference)
      && (rows[i].resultEvent.Some? ==> rows[i].resultEvent != rows[j].resultEvent)
  }

  /** Emitted projection versions strictly increase per user and never run ahead. */
  ghost predicate EventsIncrease(s: State) {
    && (forall i | 0 <= i < |s.events| ::
          && s.events[i].user < |s.projections| && s.projections[s.events[i].user].Some?
          && s.events[i].version <= s.projections[s.events[i].user].value.version)
    && (forall i, j | 0 <= i < j < |s.events| && s.events[i].user == s.events[j].user ::
          s.events[i].version < s.events[j].version)
  }

  ghost predicate Inv(s: State) {
    && Rows(s)
    && Contiguous(s.attempts)
    && (forall u | 0 <= u < |s.projections| :: Follows(s, u))
    && Unique(s.attempts)
    && EventsIncrease(s)
  }

  // -------------------------------------------------------------------- one step

  lemma HasNumberKept(a: seq<Attempt>, b: seq<Attempt>, user: Id, k: nat)
    requires HasNumber(a, user, k) && |a| <= |b|
    requires forall i | 0 <= i < |a| :: b[i].user == a[i].user && b[i].number == a[i].number
    ensures HasNumber(b, user, k)
  {
    var i :| 0 <= i < |a| && a[i].user == user && a[i].number == k;
    assert b[i].user == user;
  }

  lemma PublishKeepsInv(s: State, id: Id, a: Attempt)
    requires Inv(s) && IsCurrent(s, id)
    requires a.user == s.attempts[id].user && a.number == s.attempts[id].number
    requires a.supersededAt == s.attempts[id].supersededAt && EvidenceConstraints(a)
    requires a.reference.Some? ==> forall i | 0 <= i < |s.attempts| && i != id :: s.attempts[i].reference != a.reference
    requires a.resultEvent.Some? ==> forall i | 0 <= i < |s.attempts| && i != id ::
        s.attempts[i].resultEvent != a.resultEvent
    ensures Inv(Publish(s, id, a))
  {
    hide EvidenceConstraints;
    var t := Publish(s, id, a);
    assert Contiguous(t.attempts) by {
      forall i, k: nat | 0 <= i < |t.attempts| && 1 <= k < t.attempts[i].number
        ensures HasNumber(t.attempts, t.attempts[i].user, k)
      {
        HasNumberKept(s.attempts, t.attempts, s.attempts[i].user, k);
      }
    }
    assert forall u | 0 <= u < |t.projections| :: Follows(s, u) ==> Follows(t, u);
  }

  lemma NewAttemptKeepsInv(s: State, user: Id, now: Time)
    requires Inv(s) && user < |s.users|
    requires Newest(s.attempts, user, true).None?
    ensures Inv(NewAttempt(s, user, now))
  {
    var t := NewAttempt(s, user, now);
    NewAttemptRows(s, user, now);
    NewAttemptContiguous(s, user, now);
    NewAttemptFollows(s, user, now);
    hide Newest, Contiguous, Rows, EvidenceConstraints;
    assert Follows(s, user);
  }

  lemma NewAttemptRows(s: State, user: Id, now: Time)
    requires Rows(s) && Unique(s.attempts) && user < |s.users|
    ensures var t := NewAttempt(s, user, now); Rows(t) && Unique(t.attempts)
  {}

  lemma NewAttemptContiguous(s: State, user: Id, now: Time)
    requires Rows(s) && Contiguous(s.attempts) && user < |s.users|
    ensures Contiguous(NewAttempt(s, user, now).attempts)
  {
    hide EvidenceConstraints;
    var t := NewAttempt(s, user, now);
    var latest := Newest(s.attempts, user, false);
    forall i, k: nat | 0 <= i < |t.attempts| && 1 <= k < t.attempts[i].number
      ensures HasNumber(t.attempts, t.attempts[i].user, k)
    {
      if i < |s.attempts| || k < s.attempts[latest.value].number {
        HasNumberKept(s.attempts, t.attempts, t.attempts[i].user, k);
      } else {
        assert t.attempts[latest.value].user == user;
      }
    }
  }

  lemma NewAttemptFollows(s: State, user: Id, now: Time)
    requires Rows(s) && user < |s.users| && forall u | 0 <= u < |s.projections| :: Follows(s, u)
    requires Newest(s.attempts, user, true).None?
    ensures var t := NewAttempt(s, user, now); forall u | 0 <= u < |t.projections| :: Follows(t, u)
  {
    var t := NewAttempt(s, user, now);
    assert Follows(s, user);
    var latest := Newest(s.attempts, user, false);
    assert latest.Some? <==> s.projections[user].Some?;
    assert latest.Some? ==> latest.value == s.projections[user].value.current;
    assert forall i | 0 <= i < |s.attempts| :: EvidenceConstraints(s.attempts[i]);
    assert Follows(t, user);
    forall u | 0 <= u < |t.projections| && u != user ensures Follows(t, u) {
      assert Follows(s, u);
    }
  }

  lemma StepKeepsInv(s: State, a: Action)
    requires Inv(s)
    ensures Inv(Step(s, a))
  {
    hide Inv, Publish, NewAttempt, EventsIncrease;
    match a
    case Start(user, now) =>
      assert |s.projections| == |s.users| by { InvParts(s); }
      if user < |s.users| && s.users[user] && Newest(s.attempts, user, true).None? {
        NewAttemptKeepsInv(s, user, now);
      }
    case SessionReady(id, reference) => SessionReadyKeepsInv(s, id, reference);
    case SessionFailed(id, failure) =>
      if id < |s.attempts| {
        InvParts(s);
        if s.attempts[id].status == SessionPending && IsCurrent(s, id) {
          PublishKeepsInv(s, id, s.attempts[id].(status := Failed, failure := Some(SafeFailureCode(failure))));
        }
      }
    case Result(r) =>
      InvParts(s);
      var target := ByReference(s.attempts, r.reference);
      if target.Some? && ByResultEvent(s.attempts, r.event).None? && Disposition(s, target.value, r) == Applied
          && ResultValid(r) {
        PublishKeepsInv(s, target.value, WithResult(s.attempts[target.value], r));
      }
  }

  lemma InvParts(s: State)
    requires Inv(s)
    ensures |s.projections| == |s.users| && Unique(s.attempts)
    ensures forall i | 0 <= i < |s.attempts| :: s.attempts[i].user < |s.users| && EvidenceConstraints(s.attempts[i])
  {}

  lemma SessionReadyKeepsInv(s: State, id: Id, reference: nat)
    requires Inv(s)
    ensures Inv(FinalizeSession(s, id, reference).0)
  {
    hide Publish, EventsIncrease, EvidenceConstraints;
    if id < |s.attempts| && IsCurrent(s, id) && ReferenceFree(s.attempts, id, reference) {
      var a := s.attempts[id];
      forall i | 0 <= i < |s.attempts| && i != id ensures s.attempts[i].reference != Some(reference) {
        if ByReference(s.attempts, reference) == Some(id) { assert Unique(s.attempts); }
      }
      if a.status == SessionPending {
        assert EvidenceConstraints(a.(reference := Some(reference), status := Pending)) by {
          SessionOpened(a, reference);
        }
        PublishKeepsInv(s, id, a.(reference := Some(reference), status := Pending));
      } else if a.status == Pending {
        ReferenceOnly(s, id, reference);
      }
    }
  }

  lemma SessionOpened(a: Attempt, reference: nat)
    requires EvidenceConstraints(a) && a.status == SessionPending
    ensures EvidenceConstraints(a.(reference := Some(reference), status := Pending))
  {}

  lemma ReferenceOnly(s: State, id: Id, reference: nat)
    requires Inv(s) && id < |s.attempts|
    requires forall i | 0 <= i < |s.attempts| && i != id :: s.attempts[i].reference != Some(reference)
    ensures Inv(s.(attempts := s.attempts[id := s.attempts[id].(reference := Some(reference))]))
  {
    hide EventsIncrease;
    var t := s.(attempts := s.attempts[id := s.attempts[id].(reference := Some(reference))]);
    assert EventsIncrease(t) by { SameEvents(s, t); }
    forall i, k: nat | 0 <= i < |t.attempts| && 1 <= k < t.attempts[i].number
      ensures HasNumber(t.attempts, t.attempts[i].user, k)
    {
      HasNumberKept(s.attempts, t.attempts, s.attempts[i].user, k);
    }
    assert forall u | 0 <= u < |t.projections| :: Follows(s, u) ==> Follows(t, u);
  }

  lemma SameEvents(s: State, t: State)
    requires EventsIncrease(s) && t.events == s.events && t.projections == s.projections
    ensures EventsIncrease(t)
  {}

  // -------------------------------------------------------------------- whole runs

  /** What may happen to a row: it can be superseded and, until settled, progress. */
  ghost predicate RowContinues(a: Attempt, b: Attempt) {
    && b.user == a.user && b.number == a.number
    && (a.supersededAt.Some? ==> b.supersededAt.Some?)
    && (a.reference.Some? ==> b.reference == a.reference)
    && (a.resultEvent.Some? ==> b.resultEvent == a.resultEvent)
    && (Terminal(a.status) ==> b == a.(supersededAt := b.supersededAt))
  }

  /** A projection is replaced only by one with a greater version. */
  ghost predicate ProjectionContinues(p: Option<Projection>, q: Option<Projection>) {
    p.Some? ==> q.Some? && (q == p || q.value.version > p.value.version)
  }

  ghost predicate Continues(s: State, t: State) {
    && t.users == s.users
    && |s.attempts| <= |t.attempts| && |t.projections| == |s.projections|
    && (forall i | 0 <= i < |s.attempts| :: RowContinues(s.attempts[i], t.attempts[i]))
    && (forall u | 0 <= u < |s.projections| :: ProjectionContinues(s.projections[u], t.projections[u]))
    && s.events <= t.events
  }

  lemma PublishContinues(s: State, id: Id, a: Attempt)
    requires IsCurrent(s, id) && a.user == s.attempts[id].user && RowContinues(s.attempts[id], a)
    ensures Continues(s, Publish(s, id, a))
  {}

  lemma ClaimContinues(s: State, user: Id, now: Time)
    ensures Continues(s, ClaimAttempt(s, user, now).0)
  {}

  lemma FinalizeContinues(s: State, id: Id, reference: nat)
    ensures Continues(s, FinalizeSession(s, id, reference).0)
  {
    hide Publish;
    if id < |s.attempts| && IsCurrent(s, id) && s.attempts[id].status == SessionPending {
      var r := s.attempts[id].(reference := Some(reference), status := Pending);
      if RowContinues(s.attempts[id], r) { PublishContinues(s, id, r); }
    }
  }

  lemma ApplyContinues(s: State, r: ProviderResult)
    requires Inv(s)
    ensures Continues(s, ApplyProviderResult(s, r).0)
  {
    InvParts(s);
    hide Inv, Publish, ResultValid, ResultMatches;
    ContinuesReflexive(s);
    var target := ByReference(s.attempts, r.reference);
    if target.Some? && IsCurrent(s, target.value) && Disposition(s, target.value, r) == Applied {
      hide Continues;
      PublishContinues(s, target.value, WithResult(s.attempts[target.value], r));
    }
  }

  lemma StepContinues(s: State, a: Action)
    requires Inv(s)
    ensures Continues(s, Step(s, a))
  {
    match a
    case Start(user, now) =>
      hide Continues, Inv, ClaimAttempt, FinalizeSession, ApplyProviderResult;
      ClaimContinues(s, user, now);
    case SessionReady(id, reference) =>
      hide Continues, Inv, ClaimAttempt, FinalizeSession, ApplyProviderResult;
      FinalizeContinues(s, id, reference);
    case SessionFailed(id, failure) =>
      hide Publish, Inv;
      if id < |s.attempts| && IsCurrent(s, id) && s.attempts[id].status == SessionPending {
        PublishContinues(s, id, s.attempts[id].(status := Failed, failure := Some(SafeFailureCode(failure))));
      }
    case Result(r) => hide Continues, Inv, ClaimAttempt, FinalizeSession, ApplyProviderResult; ApplyContinues(s, r);
  }

  lemma ContinuesTransitive(s: State, t: State, u: State)
    requires Continues(s, t) && Continues(t, u)
    ensures Continues(s, u)
  {
    forall i | 0 <= i < |s.attempts| ensures RowContinues(s.attempts[i], u.attempts[i]) {
      assert RowContinues(s.attempts[i], t.attempts[i]) && RowContinues(t.attempts[i], u.attempts[i]);
    }
    forall i | 0 <= i < |s.projections| ensures ProjectionContinues(s.projections[i], u.projections[i]) {
      assert ProjectionContinues(s.projections[i], t.projections[i])
          && ProjectionContinues(t.projections[i], u.projections[i]);
    }
  }

  /** Every run keeps the invariant, never rewrites a settled attempt, never clears a
      supersession and only ever raises projection versions. */
  lemma {:induction false} RunKeeps(s: State, actions: seq<Action>)
    requires Inv(s)
    ensures Inv(Run(s, actions)) && Continues(s, Run(s, actions))
    decreases |actions|
  {
    hide Step, Inv, Continues;
    if actions == [] {
      ContinuesReflexive(s);
    } else {
      StepKeepsInv(s, actions[0]);
      StepContinues(s, actions[0]);
      RunKeeps(Step(s, actions[0]), actions[1..]);
      ContinuesTransitive(s, Step(s, actions[0]), Run(s, actions));
    }
  }

  lemma ContinuesReflexive(s: State)
    ensures Continues(s, s)
  {}

  /** The projection mirrors the newest attempt in every state the service can reach. */
  lemma Reachable(users: seq<bool>, actions: seq<Action>)
    ensures Inv(Run(Initial(users), actions))
  {
    RunKeeps(Initial(users), actions);
  }

  lemma ProjectionsAreNumbered(s: State, user: Id)
    requires Inv(s) && Projected(s, user).Some?
    ensures Projected(s, user).value.version >= 1
  {
    hide Contiguous, Unique, EventsIncrease, Rows;
    assert Follows(s, user);
  }

  lemma AtMostOneUnfinished(s: State, i: Id, j: Id)
    requires Inv(s) && i < |s.attempts| && j < |s.attempts|
    requires s.attempts[i].user == s.attempts[j].user
    requires Unfinished(s.attempts[i].status) && Unfinished(s.attempts[j].status)
    ensures i == j && Projected(s, s.attempts[i].user).Some?
    ensures Projected(s, s.attempts[i].user).value.current == i
  {
    assert Follows(s, s.attempts[i].user);
  }

  ghost predicate InReviewNow(s: State, user: Id) {
    Projected(s, user).Some? && Projected(s, user).value.status == ManualReview
  }

  lemma ManualReviewStep(s: State, user: Id, a: Action)
    requires Inv(s) && InReviewNow(s, user)
    ensures Projected(Step(s, a), user) == Projected(s, user)
    ensures ClaimAttempt(s, user, 0).1 in {InReview, UserNotFound}
  {
    hide Contiguous, Unique, EventsIncrease, EvidenceConstraints;
    assert Follows(s, user);
    var active := Newest(s.attempts, user, true);
    var current := Projected(s, user).value.current;
    assert Selected(s.attempts[current], user, true);
    AtMostOneUnfinished(s, active.value, current);
  }

  /** A user whose projection says "manual review" stays there in every run: no start, session
      outcome or provider result moves it, and every start is answered "under review". */
  lemma {:induction false} ManualReviewIsAbsorbing(s: State, user: Id, actions: seq<Action>)
    requires Inv(s) && InReviewNow(s, user)
    ensures Projected(Run(s, actions), user) == Projected(s, user)
    ensures ClaimAttempt(Run(s, actions), user, 0).1 in {InReview, UserNotFound}
    decreases |actions|
  {
    hide Step, Inv, ClaimAttempt;
    if actions == [] {
      ManualReviewStep(s, user, Start(user, 0));
    } else {
      ManualReviewStep(s, user, actions[0]);
      StepKeepsInv(s, actions[0]);
      ManualReviewIsAbsorbing(Step(s, actions[0]), user, actions[1..]);
    }
  }

  lemma AppliedRow(s: State, r: ProviderResult)
    requires Inv(s) && ApplyProviderResult(s, r).1 == Applied
    ensures var t := ApplyProviderResult(s, r).0;
            exists id :: 0 <= id < |t.attempts| && t.attempts[id].reference == Some(r.reference)
                         && ResultMatches(t.attempts[id], r) && Terminal(t.attempts[id].status)
  {
    var id := ByReference(s.attempts, r.reference).value;
    assert ApplyProviderResult(s, r).0.attempts[id] == WithResult(s.attempts[id], r);
  }

  lemma MatchingRowAnswersDuplicate(t: State, r: ProviderResult, id: Id)
    requires Inv(t) && ResultValid(r) && id < |t.attempts|
    requires t.attempts[id].reference == Some(r.reference) && ResultMatches(t.attempts[id], r)
    ensures ApplyProviderResult(t, r) == (t, Duplicate)
  {
    hide Contiguous, EventsIncrease, EvidenceConstraints;
    assert Follows(t, t.attempts[id].user);
    assert ByReference(t.attempts, r.reference) == Some(id);
    assert ByResultEvent(t.attempts, r.event) == Some(id);
  }

  /** Once applied, a provider result can be delivered again after any further activity, also
      after supersession: it is answered as a duplicate and changes nothing. */
  lemma AppliedResultStaysDuplicate(s: State, r: ProviderResult, actions: seq<Action>)
    requires Inv(s) && ApplyProviderResult(s, r).1 == Applied
    ensures var t := Run(ApplyProviderResult(s, r).0, actions);
            ApplyProviderResult(t, r) == (t, Duplicate)
  {
    hide Inv, ApplyProviderResult, ResultMatches, ResultValid;
    var first := ApplyProviderResult(s, r).0;
    AppliedRow(s, r);
    assert ResultValid(r) by { AppliedIsValid(s, r); }
    assert first == Step(s, Result(r));
    StepKeepsInv(s, Result(r));
    RunKeeps(first, actions);
    var t := Run(first, actions);
    var id :| 0 <= id < |first.attempts| && first.attempts[id].reference == Some(r.reference)
              && ResultMatches(first.attempts[id], r) && Terminal(first.attempts[id].status);
    assert RowContinues(first.attempts[id], t.attempts[id]);
    MatchesIgnoresSupersession(first.attempts[id], t.attempts[id], r);
    MatchingRowAnswersDuplicate(t, r, id);
  }

  lemma AppliedIsValid(s: State, r: ProviderResult)
    requires ApplyProviderResult(s, r).1 == Applied
    ensures ResultValid(r)
  {}

  lemma MatchesIgnoresSupersession(a: Attempt, b: Attempt, r: ProviderResult)
    requires ResultMatches(a, r) && b == a.(supersededAt := b.supersededAt)
    ensures ResultMatches(b, r)
  {}

  // -------------------------------------------------------------------- the service

  class IdentityVerificationService {
    var users: seq<bool>
    var attempts: seq<Attempt>
    var projections: seq<Option<Projection>>
    var events: seq<Emitted>

    ghost function Db(): State
      reads this
    {
      State(users, attempts, projections, events)
    }

    constructor (users: seq<bool>)
      ensures Db() == Initial(users)
    {
      this.users := users;
      attempts := [];
      projections := seq(|users|, i => None);
      events := [];
    }

    method AddAttempt(user: Id, now: Time)
      requires user < |projections|
      modifies this
      ensures Db() == NewAttempt(old(Db()), user, now)
    {
      var number := NextNumber(attempts, user);
      var latest := Newest(attempts, user, false);
      var id := |attempts|;
      if latest.Some? {
        attempts := attempts[latest.value := attempts[latest.value].(supersededAt := Some(now))];
      }
      attempts := attempts + [Attempt(user, number, None, None, SessionPending, None, None, None, None, None, None)];
      if projections[user].None? {
        projections := projections[user := Some(Projection(id, SessionPending, None, None, None, None, None, 1))];
      } else {
        var state := projections[user].value;
        state := state.(current := id, status := SessionPending);
        state := state.(assurance := None, verifiedAt := None, expiresAt := None, revokedAt := None, failure := None);
        state := state.(version := state.version + 1);
        projections := projections[user := Some(state)];
      }
    }

    method Claim(user: Id, now: Time) returns (claim: Claim)
      modifies this
      ensures (Db(), claim) == ClaimAttempt(old(Db()), user, now)
    {
      if user >= |users| || user >= |projections| || !users[user] {
        return UserNotFound;
      }
      var active := Newest(attempts, user, true);
      if active.Some? && attempts[active.value].status == ManualReview {
        return InReview;
      }
      if active.Some? {
        return Claimed(active.value);
      }
      claim := Claimed(|attempts|);
      AddAttempt(user, now);
    }

    /** Copies the attempt into the projection, raises its version and emits the change. */
    method MirrorAndEmit(id: Id)
      requires id < |attempts| && attempts[id].user < |projections| && projections[attempts[id].user].Some?
      modifies `projections, `events
      ensures Db() == Publish(old(Db()), id, attempts[id])
    {
      var attempt := attempts[id];
      var state := projections[attempt.user].value;
      state := state.(current := id, status := attempt.status, assurance := attempt.assurance);
      state := state.(verifiedAt := attempt.verifiedAt, expiresAt := attempt.expiresAt, revokedAt := attempt.revokedAt);
      state := state.(failure := attempt.failure, version := state.version + 1);
      projections := projections[attempt.user := Some(state)];
      events := events + [Emitted(attempt.user, id, state.version, attempt.status)];
      assert attempts[id := attempt] == attempts;
    }

    method Finalize(id: Id, reference: nat) returns (outcome: Outcome)
      modifies this
      ensures (Db(), outcome) == FinalizeSession(old(Db()), id, reference)
    {
      if id >= |attempts| {
        return NotFound;
      }
      var attempt := attempts[id];
      if attempt.user >= |projections| || projections[attempt.user].None?
          || projections[attempt.user].value.current != id {
        return AttemptSuperseded;
      }
      if attempt.reference.Some? && attempt.reference.value != reference {
        return Unavailable;
      }
      if attempt.status != SessionPending && attempt.status != Pending {
        return Closed;
      }
      if !ReferenceFree(attempts, id, reference) {
        return Unavailable;
      }
      attempt := attempt.(reference := Some(reference));
      if attempt.status == SessionPending {
        attempts := attempts[id := attempt.(status := Pending)];
        MirrorAndEmit(id);
      } else {
        attempts := attempts[id := attempt];
      }
      outcome := Finalized;
    }

    method FinalizeFailure(id: Id, failure: SuppliedCode) returns (outcome: Outcome)
      modifies this
      ensures (Db(), outcome) == FinalizeSessionFailure(old(Db()), id, failure)
    {
      if id >= |attempts| || attempts[id].status != SessionPending {
        return Ignored;
      }
      var attempt := attempts[id];
      if attempt.user >= |projections| || projections[attempt.user].None?
          || projections[attempt.user].value.current != id {
        return Ignored;
      }
      attempts := attempts[id := attempt.(status := Failed, failure := Some(SafeFailureCode(failure)))];
      MirrorAndEmit(id);
      outcome := Finalized;
    }

    method Apply(r: ProviderResult) returns (outcome: Outcome)
      modifies this
      ensures (Db(), outcome) == ApplyProviderResult(old(Db()), r)
    {
      if !ResultValid(r) {
        return Invalid;
      }
      var target := ByReference(attempts, r.reference);
      if target.None? {
        return NotFound;
      }
      var id := target.value;
      var attempt := attempts[id];
      if attempt.user >= |projections| || projections[attempt.user].None? {
        return NotFound;
      }
      var seen := ByResultEvent(attempts, r.event);
      if seen.Some? {
        return if seen.value == id && ResultMatches(attempt, r) then Duplicate else ResultConflict;
      }
      if attempt.supersededAt.Some? || projections[attempt.user].value.current != id {
        return Stale;
      }
      if Terminal(attempt.status) || !TransitionAllowed(attempt.status, r.status) {
        return ResultConflict;
      }
      attempt := attempt.(resultEvent := Some(r.event), status := r.status);
      attempt := attempt.(assurance := IfVerified(r.status, r.assurance));
      attempt := attempt.(verifiedAt := IfVerified(r.status, r.verifiedAt));
      attempt := attempt.(expiresAt := IfVerified(r.status, r.expiresAt), revokedAt := None);
      attempt := attempt.(failure := ResultFailure(r.status, r.failure));
      attempts := attempts[id := attempt];
      MirrorAndEmit(id);
      outcome := Applied;
    }
  }
}
