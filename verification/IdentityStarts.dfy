/** What a user gets from the identity service: which attempt a start names, when a provider's
    answer counts, and what the user's projection then says. */
module IdentityStarts {
  import opened Core
  import opened OwnershipReuse
  import opened Idv = IdentityVerification

  /** The user's projection says so, field by field. */
  ghost predicate Shows(s: State, user: Id, id: Id, a: Attempt, version: nat) {
    && user < |s.projections| && s.projections[user].Some?
    && var p := s.projections[user].value;
    && p.current == id && p.version == version && p.status == a.status && p.assurance == a.assurance
    && p.failure == a.failure && p.verifiedAt == a.verifiedAt && p.expiresAt == a.expiresAt
    && p.revokedAt == a.revokedAt
  }

  function VersionOf(s: State, user: Id): nat {
    if Projected(s, user).Some? then Projected(s, user).value.version else 0
  }

  lemma NewestUnfinished(s: State, user: Id)
    requires Inv(s) && user < |s.users|
    ensures var active := Newest(s.attempts, user, true);
            var p := Projected(s, user);
            && (active.Some? <==> p.Some? && p.value.status in {SessionPending, Pending, ManualReview})
            && (active.Some? ==> active.value == p.value.current && s.attempts[active.value].status == p.value.status)
  {
    hide Contiguous, Unique, EventsIncrease, EvidenceConstraints, Newest;
    assert Follows(s, user);
    var active := Newest(s.attempts, user, true);
    if active.Some? { AtMostOneUnfinished(s, active.value, active.value); }
    var p := Projected(s, user);
    if p.Some? && Unfinished(p.value.status) { assert Selected(s.attempts[p.value.current], user, true); }
  }

  /** Every start, by what the user's projection says: an attempt under way is named again, one in
      review is reported, and in any other case a new attempt is opened, projected one version on. */
  lemma StartExactly(s: State, user: Id, now: Time)
    requires Inv(s)
    ensures var (t, claim) := ClaimAttempt(s, user, now);
            var p := Projected(s, user);
            if user >= |s.users| || !s.users[user] then (t, claim) == (s, UserNotFound)
            else if p.Some? && p.value.status == ManualReview then (t, claim) == (s, InReview)
            else if p.Some? && p.value.status in {SessionPending, Pending} then
              (t, claim) == (s, Claimed(p.value.current))
            else
              && claim == Claimed(|s.attempts|) && |t.attempts| == |s.attempts| + 1
              && t.attempts[|s.attempts|].user == user && t.attempts[|s.attempts|].status == SessionPending
              && t.attempts[|s.attempts|].reference.None? && t.attempts[|s.attempts|].resultEvent.None?
              && t.attempts[|s.attempts|].supersededAt.None?
              && (p.Some? ==> p.value.current < |s.attempts|
                              && t.attempts[p.value.current].supersededAt == Some(now))
              && Shows(t, user, |s.attempts|, t.attempts[|s.attempts|], VersionOf(s, user) + 1)
              && (forall other: Id | other < |s.projections| && other != user ::
                    t.projections[other] == s.projections[other])
              && t.events == s.events
  {
    if user < |s.users| {
      assert Follows(s, user);
      NewestUnfinished(s, user);
      if Newest(s.attempts, user, true).None? { LatestIsProjected(s, user); }
    }
    hide Inv, Newest, NextNumber;
  }

  lemma LatestIsProjected(s: State, user: Id)
    requires Inv(s) && user < |s.users|
    ensures var latest := Newest(s.attempts, user, false);
            var p := Projected(s, user);
            && |s.projections| == |s.users|
            && (latest.Some? <==> p.Some?) && (latest.Some? ==> latest.value == p.value.current < |s.attempts|)
  {
    hide Contiguous, Unique, EventsIncrease, EvidenceConstraints, Newest;
    assert Follows(s, user);
    var p := Projected(s, user);
    var latest := Newest(s.attempts, user, false);
    if p.Some? {
      assert Selected(s.attempts[p.value.current], user, false);
      assert latest.Some?;
    }
  }

  // -------------------------------------------------------------------- when an answer counts

  ghost predicate WellFormed(r: ProviderResult) {
    && r.textsValid
    && match r.status
       case ManualReview => true
       case Verified => r.assurance.Some? && r.verifiedAt.Some? && r.expiresAt.Some?
                        && r.verifiedAt.value < r.expiresAt.value && r.failure == Missing
       case Failed => r.failure != Missing && r.failure != Blank
       case _ => false
  }

  ghost predicate Answers(s: State, id: Id, r: ProviderResult) {
    && id < |s.attempts| && s.attempts[id].reference == Some(r.reference)
    && (s.attempts[id].status == Pending || (s.attempts[id].status == SessionPending && r.status == Failed))
    && Projected(s, s.attempts[id].user).Some? && Projected(s, s.attempts[id].user).value.current == id
  }

  ghost predicate Took(before: Attempt, after: Attempt, r: ProviderResult) {
    && after.status == r.status && after.resultEvent == Some(r.event)
    && after.assurance == (if r.status == Verified then r.assurance else None)
    && after.verifiedAt == (if r.status == Verified then r.verifiedAt else None)
    && after.expiresAt == (if r.status == Verified then r.expiresAt else None)
    && after.failure == (match r.status
                         case Verified => None
                         case ManualReview => Some(ManualReviewRequired)
                         case _ => if r.failure.Listed? && r.failure.code != OwnershipMismatch
                                   then Some(r.failure.code) else Some(VerificationFailed))
    && after == before.(status := after.status, resultEvent := after.resultEvent, assurance := after.assurance,
                        verifiedAt := after.verifiedAt, expiresAt := after.expiresAt, revokedAt := None,
                        failure := after.failure)
  }

  lemma WellFormedExactly(r: ProviderResult)
    ensures ResultValid(r) <==> WellFormed(r)
  {}

  lemma TakesResult(a: Attempt, r: ProviderResult)
    requires WellFormed(r)
    ensures Took(a, WithResult(a, r), r)
  {}

  lemma OneResult(s: State, r: ProviderResult, id: Id)
    requires Inv(s) && ByReference(s.attempts, r.reference) == Some(id)
    ensures var (t, outcome) := ApplyProviderResult(s, r);
            && (outcome == Applied <==>
                  && WellFormed(r) && (forall i | 0 <= i < |s.attempts| :: s.attempts[i].resultEvent != Some(r.event))
                  && Answers(s, id, r))
            && (outcome == Applied ==>
                  && Projected(s, s.attempts[id].user).Some?
                  && t == Publish(s, id, WithResult(s.attempts[id], r)))
  {
    WellFormedExactly(r);
    assert Follows(s, s.attempts[id].user);
    hide Contiguous, Unique, EventsIncrease, WellFormed, ResultValid, WithResult, Publish, ResultMatches;
  }

  /** A provider's answer is applied exactly when it is well formed, its event is new and it is for
      the user's projected, waiting attempt. The attempt and the projection then say what the answer
      said, the projection one version on, and that is announced; nothing else changes. */
  lemma ResultAppliedExactly(s: State, r: ProviderResult)
    requires Inv(s)
    ensures var (t, outcome) := ApplyProviderResult(s, r);
            && (outcome == Applied <==>
                  && WellFormed(r) && (forall i | 0 <= i < |s.attempts| :: s.attempts[i].resultEvent != Some(r.event))
                  && exists id: Id :: Answers(s, id, r))
            && (outcome == Applied ==>
                  forall id: Id | Answers(s, id, r) ::
                    var user := s.attempts[id].user;
                    && |t.attempts| == |s.attempts| && Took(s.attempts[id], t.attempts[id], r)
                    && t.attempts == s.attempts[id := t.attempts[id]]
                    && Shows(t, user, id, t.attempts[id], VersionOf(s, user) + 1)
                    && t.events == s.events + [Emitted(user, id, VersionOf(s, user) + 1, r.status)]
                    && (forall other: Id | other < |s.projections| && other != user ::
                          t.projections[other] == s.projections[other]))
  {
    var target := ByReference(s.attempts, r.reference);
    assert forall id: Id | Answers(s, id, r) :: target == Some(id);
    hide ApplyProviderResult, WellFormed, Took, WithResult, Inv, ByReference;
    if target.Some? {
      OneResult(s, r, target.value);
      if WellFormed(r) { TakesResult(s.attempts[target.value], r); }
    } else {
      NoTarget(s, r);
    }
  }

  /** The row says what the answer says, field by field. */
  ghost predicate AlreadySays(a: Attempt, r: ProviderResult) {
    && a.reference == Some(r.reference) && a.resultEvent == Some(r.event) && a.status == r.status
    && (if r.status == Verified then
          && a.assurance == r.assurance && a.verifiedAt == r.verifiedAt && a.expiresAt == r.expiresAt
          && a.failure.None?
        else a.assurance.None? && a.verifiedAt.None? && a.expiresAt.None? && a.failure.Some?)
    && (r.status == ManualReview ==> a.failure == Some(ManualReviewRequired))
    && (r.status == Failed ==>
          a.failure == Some(if r.failure.Listed? && r.failure.code != OwnershipMismatch then r.failure.code
                            else VerificationFailed))
  }

  /** An event delivered before changes nothing: it is a duplicate exactly when the attempt it names
      already says all of it, and otherwise a conflict. */
  lemma RepeatedAnswerExactly(s: State, r: ProviderResult)
    requires Inv(s) && WellFormed(r)
    requires exists i :: 0 <= i < |s.attempts| && s.attempts[i].reference == Some(r.reference)
    requires exists i :: 0 <= i < |s.attempts| && s.attempts[i].resultEvent == Some(r.event)
    ensures ApplyProviderResult(s, r)
            == (s, if exists i :: 0 <= i < |s.attempts| && AlreadySays(s.attempts[i], r) then Duplicate
                   else ResultConflict)
  {
    WellFormedExactly(r);
    var id := ByReference(s.attempts, r.reference).value;
    assert Follows(s, s.attempts[id].user);
    hide Contiguous, EventsIncrease, ResultValid, WithResult, Publish;
    var seen := ByResultEvent(s.attempts, r.event).value;
    assert AlreadySays(s.attempts[id], r)
        <==> (s.attempts[id].resultEvent == Some(r.event) && ResultMatches(s.attempts[id], r));
    hide ResultMatches, WellFormed;
    forall i | 0 <= i < |s.attempts| && AlreadySays(s.attempts[i], r) ensures i == id == seen {}
    assert s.attempts[id].resultEvent == Some(r.event) ==> id == seen;
  }

  lemma NoTarget(s: State, r: ProviderResult)
    requires ByReference(s.attempts, r.reference).None?
    ensures ApplyProviderResult(s, r).1 in {Invalid, NotFound}
  {
    hide ResultValid;
  }

  /** Manual review is really entered: a well-formed answer that asks for it, for the projected
      waiting attempt, is applied, and from then on every start in every run is told so. */
  lemma ManualReviewIsEntered(s: State, id: Id, r: ProviderResult, actions: seq<Action>)
    requires Inv(s) && Answers(s, id, r) && WellFormed(r) && r.status == ManualReview
    requires forall i | 0 <= i < |s.attempts| :: s.attempts[i].resultEvent != Some(r.event)
    requires s.attempts[id].user < |s.users| && s.users[s.attempts[id].user]
    ensures var (t, outcome) := ApplyProviderResult(s, r);
            var u := Run(t, actions);
            && outcome == Applied
            && Projected(u, s.attempts[id].user).Some?
            && Projected(u, s.attempts[id].user).value.status == ManualReview
            && ClaimAttempt(u, s.attempts[id].user, 0) == (u, InReview)
  {
    var user := s.attempts[id].user;
    var t := ApplyProviderResult(s, r).0;
    ResultAppliedExactly(s, r);
    StepKeepsInv(s, Result(r));
    hide Inv, Run, ApplyProviderResult, ClaimAttempt, Continues;
    ManualReviewIsAbsorbing(t, user, actions);
    RunKeeps(t, actions);
    StepContinues(s, Result(r));
    var u := Run(t, actions);
    StartExactly(u, user, 0);
    UsersKept(s, t);
    UsersKept(t, u);
  }

  lemma UsersKept(s: State, t: State)
    requires Continues(s, t)
    ensures t.users == s.users
  {}

  // -------------------------------------------------------------------- from start to projection

  lemma SessionFinalized(s: State, id: Id, reference: nat)
    requires Inv(s) && id < |s.attempts| && IsCurrent(s, id)
    requires s.attempts[id].status == SessionPending && s.attempts[id].reference.None?
    requires forall i | 0 <= i < |s.attempts| :: s.attempts[i].reference != Some(reference)
    ensures var (t, outcome) := FinalizeSession(s, id, reference);
            var user := s.attempts[id].user;
            && outcome == Finalized && |t.attempts| == |s.attempts| && user < |s.users|
            && t.attempts == s.attempts[id := s.attempts[id].(reference := Some(reference), status := Pending)]
            && Shows(t, user, id, t.attempts[id], VersionOf(s, user) + 1) && t.users == s.users
  {
    hide Contiguous, Unique, EventsIncrease, EvidenceConstraints;
    assert Follows(s, s.attempts[id].user);
  }

  lemma SessionIsAnswered(t: State, id: Id, reference: nat, r: ProviderResult)
    requires Inv(t) && id < |t.attempts| && IsCurrent(t, id)
    requires t.attempts[id].status == SessionPending && t.attempts[id].reference.None?
    requires forall i | 0 <= i < |t.attempts| ::
               t.attempts[i].reference != Some(reference) && t.attempts[i].resultEvent != Some(r.event)
    requires WellFormed(r) && r.reference == reference
    ensures var (u, ready) := FinalizeSession(t, id, reference);
            var (v, outcome) := ApplyProviderResult(u, r);
            var user := t.attempts[id].user;
            && ready == Finalized && outcome == Applied
            && id < |v.attempts| && Took(t.attempts[id].(reference := Some(reference)), v.attempts[id], r)
            && Shows(v, user, id, v.attempts[id], VersionOf(t, user) + 2)
  {
    SessionFinalized(t, id, reference);
    StepKeepsInv(t, SessionReady(id, reference));
    hide Inv, FinalizeSession, ApplyProviderResult, WellFormed;
    var u := FinalizeSession(t, id, reference).0;
    assert Answers(u, id, r);
    assert forall i | 0 <= i < |u.attempts| :: u.attempts[i].resultEvent == t.attempts[i].resultEvent;
    ResultAppliedExactly(u, r);
  }

  /** An active user with nothing under way gets verified: start, session, verified answer; and the
      projection then carries the answer's times, three versions on. */
  lemma IdentityIsObtained(s: State, user: Id, now: Time, reference: nat, r: ProviderResult)
    requires Inv(s) && user < |s.users| && s.users[user]
    requires Projected(s, user).None? || Projected(s, user).value.status in {Verified, Failed, Expired, Revoked}
    requires forall i | 0 <= i < |s.attempts| ::
               s.attempts[i].reference != Some(reference) && s.attempts[i].resultEvent != Some(r.event)
    requires WellFormed(r) && r.reference == reference
    ensures var id := |s.attempts|;
            var (t, claim) := ClaimAttempt(s, user, now);
            var (u, ready) := FinalizeSession(t, id, reference);
            var (v, outcome) := ApplyProviderResult(u, r);
            && claim == Claimed(id) && ready == Finalized && outcome == Applied
            && id < |v.attempts| && v.attempts[id].status == r.status
            && Shows(v, user, id, v.attempts[id], VersionOf(s, user) + 3)
            && (r.status == Verified ==> v.attempts[id].verifiedAt == r.verifiedAt
                                         && v.attempts[id].expiresAt == r.expiresAt)
  {
    var id := |s.attempts|;
    StartExactly(s, user, now);
    StepKeepsInv(s, Start(user, now));
    var t := ClaimAttempt(s, user, now).0;
    StartLeavesRest(s, user, now);
    hide Inv, ClaimAttempt, FinalizeSession, ApplyProviderResult, WellFormed;
    SessionIsAnswered(t, id, reference, r);
  }

  /** No other attempt gets a reference or a result by a start. */
  lemma StartLeavesRest(s: State, user: Id, now: Time)
    ensures var t := ClaimAttempt(s, user, now).0;
            && |s.attempts| <= |t.attempts|
            && forall i | 0 <= i < |s.attempts| ::
                 && t.attempts[i].reference == s.attempts[i].reference
                 && t.attempts[i].resultEvent == s.attempts[i].resultEvent
  {
    hide Newest, NextNumber;
  }

  /** A session that could not be opened fails the projected attempt, and only while it waits for its
      session; the owner may then start again. */
  lemma SessionFailureExactly(s: State, id: Id, failure: SuppliedCode)
    requires Inv(s)
    ensures var (t, outcome) := FinalizeSessionFailure(s, id, failure);
            var waits := id < |s.attempts| && s.attempts[id].status == SessionPending
                         && Projected(s, s.attempts[id].user).Some?
                         && Projected(s, s.attempts[id].user).value.current == id;
            && (outcome == Finalized <==> waits) && (!waits ==> t == s)
            && (waits ==>
                  var user := s.attempts[id].user;
                  && |t.attempts| == |s.attempts| && t.attempts == s.attempts[id := t.attempts[id]]
                  && t.attempts[id].status == Failed && t.attempts[id].failure.Some?
                  && Shows(t, user, id, t.attempts[id], VersionOf(s, user) + 1))
  {
    if id < |s.attempts| { assert Follows(s, s.attempts[id].user); }
    hide Contiguous, Unique, EventsIncrease, EvidenceConstraints;
  }
}
