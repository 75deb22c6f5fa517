/** Who may submit a listing, what is recorded, and what it takes to reach moderation, in facts of the
    tables. */
module SubmissionPromises {
  import opened Core
  import opened OwnershipReuse
  import opened Submission
  import MediaProcessing
  import Readiness
  import Idv = IdentityVerification
  import Own = OwnershipVerification

  // -------------------------------------------------------------------- who, and which version

  ghost predicate MaySubmit(s: State, actor: Id, listing: Id, expected: nat) {
    && actor < |s.own.identity.users| && s.own.identity.users[actor]
    && listing < |s.own.listings|
    && s.own.listings[listing].ownerUser == Some(actor) && s.own.listings[listing].ownerOrganization.None?
    && s.own.listings[listing].version == expected
  }

  lemma MaySubmitExactly(s: State, actor: Id, listing: Id, expected: nat)
    ensures SubmitRefusal(s, actor, listing, expected).None? <==> MaySubmit(s, actor, listing, expected)
  {}

  /** A submission is refused, and leaves everything as it was, exactly when it is not the owner's to
      make or not of the present version; otherwise one line is added to the history. */
  lemma SubmittedExactly(cfg: Own.Config, s: State, actor: Id, listing: Id, expected: nat, facts: Facts)
    requires Inv(s) && cfg.policy.Valid()
    ensures var (t, out) := Submit(cfg, s, actor, listing, expected, facts);
            && (out.Refused? <==> !MaySubmit(s, actor, listing, expected))
            && (out.Refused? ==> t == s)
            && (out.Submitted? ==>
                  && t.own == s.own && out.attempt < |t.rows|
                  && var row := t.rows[out.attempt];
                  && row.listing == listing && row.version == expected && row.supersededAt.None?
                  && row.actor == actor && row.submittedAt == s.own.clock
                  && t.history == s.history + [Recorded(listing, expected, row.status)])
  {
    MaySubmitExactly(s, actor, listing, expected);
    if SubmitRefusal(s, actor, listing, expected).None? {
      JudgedRow(cfg, s, actor, listing, expected, facts);
      JudgedActor(cfg, s, actor, listing, facts);
      hide Inv, Judged, RowValid, Readiness.Evaluate, Readiness.StatusOf, Submit, SupersedeOthers;
    }
  }

  lemma JudgedActor(cfg: Own.Config, s: State, actor: Id, listing: Id, facts: Facts)
    requires listing < |s.own.listings|
    ensures var row := Judged(cfg, s, actor, listing, facts);
            && row.actor == actor && row.submittedAt == s.own.clock
            && (ForVersion(s.rows, listing, s.own.listings[listing].version).None? ==> row.owner == actor)
  {
    hide Choose, SnapshotOf, Readiness.Evaluate, Readiness.StatusOf, Readiness.BlockerCodes, Idv.Projected,
        MediaSetVersion, HighestNumber;
  }

  /** Every recorded attempt is of the listing's owner, and was made by the owner. */
  ghost predicate OwnersOnly(s: State) {
    forall i | 0 <= i < |s.rows| ::
      && s.rows[i].listing < |s.own.listings|
      && s.own.listings[s.rows[i].listing].ownerUser == Some(s.rows[i].actor)
      && s.rows[i].owner == s.rows[i].actor
  }

  lemma OwnersOnlyElsewhere(cfg: Own.Config, s: State, o: Own.Action)
    requires Inv(s) && OwnersOnly(s)
    ensures OwnersOnly(s.(own := Own.Step(cfg, s.own, o)))
  {
    var t := Own.Step(cfg, s.own, o);
    InvOwn(s);
    hide Inv, Own.Step, Own.Inv, Own.Continues;
    Own.StepKeeps(cfg, s.own, o);
    OwnersStay(s.own, t);
  }

  lemma CommitKeepsOwners(s: State, listing: Id, version: nat, row: Attempt, moderation: Readiness.GateState)
    requires OwnersOnly(s) && listing < |s.own.listings| && row.listing == listing
    requires s.own.listings[listing].ownerUser == Some(row.actor) && row.owner == row.actor
    ensures OwnersOnly(Commit(s, listing, version, row, moderation).0)
  {
    CommittedRows(s, listing, version, row, moderation);
    hide Commit;
  }

  lemma OwnersOnlySubmit(cfg: Own.Config, s: State, actor: Id, listing: Id, expected: nat, facts: Facts)
    requires Inv(s) && cfg.policy.Valid() && OwnersOnly(s)
    ensures OwnersOnly(Submit(cfg, s, actor, listing, expected, facts).0)
  {
    if SubmitRefusal(s, actor, listing, expected).None? {
      MaySubmitExactly(s, actor, listing, expected);
      var row := Judged(cfg, s, actor, listing, facts);
      hide Inv, Judged, RowValid, Readiness.Evaluate, Readiness.StatusOf, Submit, SubmitRefusal, Commit, Snapshot;
      JudgedRow(cfg, s, actor, listing, expected, facts);
      JudgedActor(cfg, s, actor, listing, facts);
      hide ForVersion;
      CommitKeepsOwners(s, listing, expected, row,
                        Readiness.Evaluate(Snapshot(cfg, s.own, listing, facts, None)).moderation);
    }
  }

  lemma OwnersOnlyStep(cfg: Own.Config, s: State, a: Action)
    requires Inv(s) && cfg.policy.Valid() && OwnersOnly(s)
    ensures OwnersOnly(Step(cfg, s, a))
  {
    hide Inv, OwnersOnly, Own.Step, Submit;
    match a
    case Elsewhere(o) => OwnersOnlyElsewhere(cfg, s, o);
    case SubmitListing(actor, listing, expected, facts) => OwnersOnlySubmit(cfg, s, actor, listing, expected, facts);
  }

  /** After a commit each row is the committed one, or one there was, at most superseded. */
  lemma CommittedRows(s: State, listing: Id, version: nat, row: Attempt, moderation: Readiness.GateState)
    ensures var (t, out) := Commit(s, listing, version, row, moderation);
            && t.own == s.own && |s.rows| <= |t.rows| && out.Submitted?
            && forall i | 0 <= i < |t.rows| ::
                 t.rows[i] == row || (i < |s.rows| && t.rows[i] == s.rows[i].(supersededAt := t.rows[i].supersededAt))
  {
    hide ForVersion;
  }

  lemma OwnersStay(s: Own.State, t: Own.State)
    requires Own.Continues(s, t)
    ensures |s.listings| <= |t.listings|
    ensures forall l | 0 <= l < |s.listings| :: t.listings[l].ownerUser == s.listings[l].ownerUser
  {
    hide Idv.Continues, Own.RowsContinue;
    forall l | 0 <= l < |s.listings| ensures t.listings[l].ownerUser == s.listings[l].ownerUser {
      assert Own.ListingContinues(s.listings[l], t.listings[l]);
    }
  }

  /** Line number `n` of the history was written by this step, by the listing's active owner, under
      the version the listing had then. */
  ghost predicate WrittenAt(cfg: Own.Config, s: State, actions: seq<Action>, k: nat, n: nat, line: Recorded)
    requires k < |actions|
  {
    var before := Run(cfg, s, actions[..k]);
    && |before.history| == n && actions[k].SubmitListing? && actions[k].listing == line.listing
    && line.version == actions[k].expected
    && MaySubmit(before, actions[k].actor, line.listing, line.version)
  }

  /** Over every run: each submission recorded was made by the listing's owner of its then-current
      version, and every attempt is the owner's. */
  lemma {:induction false} RecordedForOwnersOnly(cfg: Own.Config, s: State, actions: seq<Action>, n: nat)
    requires Inv(s) && cfg.policy.Valid() && OwnersOnly(s)
    requires |s.history| <= n < |Run(cfg, s, actions).history|
    ensures exists k :: 0 <= k < |actions| && WrittenAt(cfg, s, actions, k, n, Run(cfg, s, actions).history[n])
    decreases |actions|
  {
    var next := Step(cfg, s, actions[0]);
    var last := Run(cfg, s, actions);
    assert last == Run(cfg, next, actions[1..]);
    hide *;
    StepKeeps(cfg, s, actions[0]);
    OwnersOnlyStep(cfg, s, actions[0]);
    RunKeeps(cfg, next, actions[1..]);
    HistoryGrows(next, last);
    if n < |next.history| {
      WrittenFirst(cfg, s, actions, n);
      assert last.history[n] == next.history[n];
    } else {
      RecordedForOwnersOnly(cfg, next, actions[1..], n);
      var k :| 0 <= k < |actions[1..]| && WrittenAt(cfg, next, actions[1..], k, n, last.history[n]);
      WrittenLater(cfg, s, actions, k, n, last.history[n]);
    }
  }

  lemma WrittenFirst(cfg: Own.Config, s: State, actions: seq<Action>, n: nat)
    requires Inv(s) && cfg.policy.Valid() && actions != []
    requires |s.history| <= n < |Step(cfg, s, actions[0]).history|
    ensures WrittenAt(cfg, s, actions, 0, n, Step(cfg, s, actions[0]).history[n])
  {
    HistoryStep(cfg, s, actions[0]);
    assert actions[..0] == [];
    hide Inv, Step, MaySubmit;
  }

  lemma WrittenLater(cfg: Own.Config, s: State, actions: seq<Action>, k: nat, n: nat, line: Recorded)
    requires k + 1 < |actions| && WrittenAt(cfg, Step(cfg, s, actions[0]), actions[1..], k, n, line)
    ensures WrittenAt(cfg, s, actions, k + 1, n, line)
  {
    assert actions[..k + 1][0] == actions[0] && actions[..k + 1][1..] == actions[1..][..k];
    assert actions[1..][k] == actions[k + 1];
    hide Step, MaySubmit;
  }

  lemma HistoryGrows(s: State, t: State)
    requires Continues(s, t)
    ensures s.history <= t.history
  {}

  /** One step adds at most one line, and only as a permitted submission. */
  lemma HistoryStep(cfg: Own.Config, s: State, a: Action)
    requires Inv(s) && cfg.policy.Valid()
    ensures var t := Step(cfg, s, a);
            || t.history == s.history
            || (a.SubmitListing? && MaySubmit(s, a.actor, a.listing, a.expected) && |t.history| == |s.history| + 1
                && s.history <= t.history && t.history[|s.history|].listing == a.listing
                && t.history[|s.history|].version == a.expected)
  {
    if a.SubmitListing? {
      SubmittedExactly(cfg, s, a.actor, a.listing, a.expected, a.facts);
      hide Submit, Inv;
    }
  }

  // -------------------------------------------------------------------- what it takes

  /** Everything a listing needs to go to moderation, in facts of the tables. */
  ghost predicate Complete(cfg: Own.Config, s: Own.State, listing: Id, facts: Facts)
    requires listing < |s.listings|
  {
    var l := s.listings[listing];
    && facts.sellerReady && facts.detailsComplete && facts.locationPresent
    && facts.media != [] && (forall i | 0 <= i < |facts.media| ::
                               facts.media[i].status == MediaProcessing.ModerationPending)
    && HasCanonical(s, l)
    && var p := Idv.Projected(s.identity, l.ownerUser.value).value;
    && p.status == Verified && p.expiresAt.Some? && s.clock < p.expiresAt.value && p.revokedAt.None?
    && exists n :: GateFacts(cfg.policy, s, listing, n)
  }

  lemma CompleteExactly(cfg: Own.Config, s: Own.State, listing: Id, facts: Facts)
    requires Own.Inv(s) && listing < |s.listings|
    ensures Readiness.Publishable(Snapshot(cfg, s, listing, facts, None)) <==> Complete(cfg, s, listing, facts)
  {
    GateReadyExactly(cfg, s, listing, facts);
    if HasCanonical(s, s.listings[listing]) { ChooseProven(cfg.policy, s, listing); }
    hide Own.Inv, GateFacts, Choose, MatchesCurrent, Readiness.OwnershipHolds, cfg.policy.Select, ContextOf, GroupOf,
        LatestOf, SortDescending;
    var snapshot := Snapshot(cfg, s, listing, facts, None);
    assert |snapshot.mediaStatuses| == |facts.media|;
    assert forall i | 0 <= i < |facts.media| :: snapshot.mediaStatuses[i] == facts.media[i].status;
  }

  /** From the owner's submission to moderation, both ways: the attempt waits for moderation, the
      listing is marked so, and the request goes out unless it already had, exactly when everything
      is there; and only then is "moderation pending" the one thing reported. */
  lemma ReachesModerationExactly(cfg: Own.Config, s: State, actor: Id, listing: Id, expected: nat, facts: Facts)
    requires Inv(s) && cfg.policy.Valid() && MaySubmit(s, actor, listing, expected)
    ensures var (t, out) := Submit(cfg, s, actor, listing, expected, facts);
            var complete := Complete(cfg, s.own, listing, facts);
            var existing := ForVersion(s.rows, listing, expected);
            && out.Submitted? && out.attempt < |t.rows|
            && (t.rows[out.attempt].status == Readiness.ModerationWaiting <==> complete)
            && listing in t.marks && t.marks[listing].submittedVersion == expected
            && (t.marks[listing].moderation == Readiness.Waiting <==> complete)
            && (t.requested == s.requested + [Requested(listing, expected)]
                <==> complete && (existing.None? || s.rows[existing.value].status != Readiness.ModerationWaiting))
  {
    hide Inv, Judged, RowValid, Readiness.Evaluate, Readiness.StatusOf, Submit, Complete, Readiness.Publishable,
        Readiness.BlockerCodes, SubmitRefusal, Snapshot, ForVersion, SupersedeOthers;
    MaySubmitExactly(s, actor, listing, expected);
    CompleteExactly(cfg, s.own, listing, facts) by { InvOwn(s); }
    ModerationRequestedExactly(cfg, s, actor, listing, expected, facts);
    JudgedRow(cfg, s, actor, listing, expected, facts);
    Readiness.ModerationExactlyWhenPublishable(Snapshot(cfg, s.own, listing, facts, None));
    CommitMarks(s, listing, expected, Judged(cfg, s, actor, listing, facts),
                Readiness.Evaluate(Snapshot(cfg, s.own, listing, facts, None)).moderation);
    hide Commit;
  }

  lemma CommitMarks(s: State, listing: Id, version: nat, row: Attempt, moderation: Readiness.GateState)
    ensures var (t, out) := Commit(s, listing, version, row, moderation);
            && out.Submitted? && out.attempt < |t.rows| && t.rows[out.attempt] == row
            && listing in t.marks && t.marks[listing].moderation == moderation
            && t.marks[listing].submittedVersion == version
  {
    hide SupersedeOthers, ForVersion;
  }

  // -------------------------------------------------------------------- what is recorded

  /** The time at which the proof stops being in force. */
  ghost predicate RunsUntil(freshnessDays: int, e: Evidence, reuse: bool, expiry: Time) {
    forall later: Time :: later < expiry <==> InForce(freshnessDays, e, reuse, later)
  }

  /** The proof a submission is recorded with is an ownership row of that owner and vehicle. */
  lemma ChosenProof(policy: Policy, s: Own.State, listing: Id)
    requires Own.Inv(s) && listing < |s.listings|
    ensures var l := s.listings[listing];
            var chosen := Choose(policy, s, listing);
            chosen.proof.Some? ==>
              && HasCanonical(s, l)
              && chosen.proof.value.attempt < |s.attempts|
              && chosen.proof.value == Own.EvidenceOf(chosen.proof.value.attempt,
                                                      s.attempts[chosen.proof.value.attempt])
              && chosen.proof.value.owner == l.ownerUser.value && chosen.proof.value.vehicle == l.vehicle.value
              && (chosen.reused <==> chosen.proof.value.listing != listing)
  {
    var l := s.listings[listing];
    if HasCanonical(s, l) {
      hide Own.Inv, Choose, Proven, policy.Select, policy.Refusal, policy.EffectiveExpiry, ContextOf, SortDescending,
          HasCanonical;
      ChooseProven(policy, s, listing);
      assert l.ownerUser.Some? && l.vehicle.Some? by { CanonicalParts(s, l); }
      Own.GroupEvidenceMeaning(s.attempts, l.ownerUser.value, l.vehicle.value);
      SortKeepsElements(GroupOf(s, l));
    }
  }

  lemma CanonicalParts(s: Own.State, l: Own.Listing)
    requires HasCanonical(s, l)
    ensures l.ownerUser.Some? && l.vehicle.Some?
  {}

  /** If the policy accepts the vehicle's newest row, that is the one, until the time recorded. */
  lemma AcceptedIsChosen(policy: Policy, s: Own.State, listing: Id, n: Evidence)
    requires Own.Inv(s) && listing < |s.listings| && HasCanonical(s, s.listings[listing])
    requires NewestIn(GroupOf(s, s.listings[listing]), n) && NewestAccepted(policy, s, listing, n)
    ensures var chosen := Choose(policy, s, listing);
            && chosen.proof == Some(n) && chosen.effectiveExpiresAt.Some?
            && RunsUntil(policy.freshnessDays, n, n.listing != listing, chosen.effectiveExpiresAt.value)
  {
    var l := s.listings[listing];
    var c := ContextOf(s, l, listing);
    ProvenExactly(policy, s, listing, n);
    ChooseProven(policy, s, listing);
    GroupDistinct(s, l);
    ExpiryInForce(policy, n, n.listing != listing);
    assert n.verifiedAt.Some? && n.expiresAt.Some?;
    hide Own.Inv, Choose, policy.Select, policy.Refusal, policy.EffectiveExpiry, ContextOf, GroupOf, SortDescending,
        NewestAccepted, InForce, DistinctNumbers, OnlyNewestUnsuperseded, Supports;
    SelectLooksAtNewestOnly(policy, c, GroupOf(s, l), listing, n);
  }

  /** The row says on what evidence the submission was judged. */
  lemma RecordedEvidence(cfg: Own.Config, s: State, actor: Id, listing: Id, expected: nat, facts: Facts)
    requires Inv(s) && cfg.policy.Valid() && MaySubmit(s, actor, listing, expected)
    ensures var (t, out) := Submit(cfg, s, actor, listing, expected, facts);
            && out.Submitted? && out.attempt < |t.rows|
            && var row := t.rows[out.attempt];
            var p := Idv.Projected(s.own.identity, actor);
            var chosen := Choose(cfg.policy, s.own, listing);
            && row.identityAttempt == (if p.Some? then Some(p.value.current) else None)
            && row.identityVersion == (if p.Some? then Some(p.value.version) else None)
            && row.media == facts.media && row.mediaVersion >= |facts.media|
            && row.proof == (if chosen.proof.Some? then Some(chosen.proof.value.attempt) else None)
            && (row.proof.Some? ==>
                  && row.proof.value < |s.own.attempts|
                  && row.resultVersion == s.own.attempts[row.proof.value].resultVersion
                  && row.fingerprint == Some(s.own.attempts[row.proof.value].fingerprint)
                  && (row.reused <==> s.own.attempts[row.proof.value].listing != listing)
                  && (row.reused ==> row.effectiveExpiresAt == chosen.effectiveExpiresAt))
  {
    MaySubmitExactly(s, actor, listing, expected);
    ChosenProof(cfg.policy, s.own, listing) by { InvOwn(s); }
    JudgedEvidence(cfg, s, actor, listing, facts);
    hide Inv, Judged, RowValid, Readiness.Evaluate, Readiness.StatusOf, Submit, SubmitRefusal, Snapshot, Commit, Choose,
        GroupOf, NewestAccepted, InForce, HasCanonical;
    JudgedRow(cfg, s, actor, listing, expected, facts);
    CommitMarks(s, listing, expected, Judged(cfg, s, actor, listing, facts),
                Readiness.Evaluate(Snapshot(cfg, s.own, listing, facts, None)).moderation);
  }

  lemma JudgedEvidence(cfg: Own.Config, s: State, actor: Id, listing: Id, facts: Facts)
    requires listing < |s.own.listings|
    ensures var row := Judged(cfg, s, actor, listing, facts);
            var p := Idv.Projected(s.own.identity, actor);
            var chosen := Choose(cfg.policy, s.own, listing);
            && row.identityAttempt == (if p.Some? then Some(p.value.current) else None)
            && row.identityVersion == (if p.Some? then Some(p.value.version) else None)
            && row.media == facts.media && row.mediaVersion >= |facts.media| && row.reused == chosen.reused
            && row.proof == (if chosen.proof.Some? then Some(chosen.proof.value.attempt) else None)
            && (chosen.proof.Some? ==> row.resultVersion == chosen.proof.value.resultVersion
                                       && row.fingerprint == Some(chosen.proof.value.fingerprint))
            && (row.reused ==> row.effectiveExpiresAt == chosen.effectiveExpiresAt)
  {
    hide Choose, Snapshot, Readiness.Evaluate, Readiness.StatusOf, Readiness.BlockerCodes, Idv.Projected, VersionSum,
        HighestNumber, ForVersion;
  }

  lemma JudgedReasons(cfg: Own.Config, s: State, actor: Id, listing: Id, facts: Facts)
    requires listing < |s.own.listings|
    ensures Judged(cfg, s, actor, listing, facts).blockerCodes
            == Readiness.BlockerCodes(Readiness.Evaluate(Snapshot(cfg, s.own, listing, facts, None)))
  {
    hide Choose, SnapshotOf, Readiness.Evaluate, Readiness.StatusOf, Readiness.BlockerCodes, Idv.Projected,
        MediaSetVersion, HighestNumber, ForVersion;
  }

  /** And it says why, in codes without repetition: one is there exactly when its fact is. */
  lemma RecordedReasons(cfg: Own.Config, s: State, actor: Id, listing: Id, expected: nat, facts: Facts,
      c: Readiness.BlockerCode)
    requires Inv(s) && cfg.policy.Valid() && MaySubmit(s, actor, listing, expected)
    ensures var (t, out) := Submit(cfg, s, actor, listing, expected, facts);
            && out.Submitted? && out.attempt < |t.rows|
            && var codes := t.rows[out.attempt].blockerCodes;
            && (c in codes <==> Readiness.Reason(Snapshot(cfg, s.own, listing, facts, None), c))
            && (forall i, j | 0 <= i < j < |codes| :: codes[i] != codes[j])
  {
    MaySubmitExactly(s, actor, listing, expected);
    JudgedReasons(cfg, s, actor, listing, facts);
    var snapshot := Snapshot(cfg, s.own, listing, facts, None);
    Readiness.CodesExactly(snapshot, c);
    Readiness.BlockerCodesExplainGates(snapshot);
    hide Inv, Judged, RowValid, Readiness.Evaluate, Readiness.StatusOf, Submit, SubmitRefusal, Snapshot, Commit, Choose,
        GroupOf, Readiness.Reason, Readiness.BlockerCodes;
    JudgedRow(cfg, s, actor, listing, expected, facts);
    CommitMarks(s, listing, expected, Judged(cfg, s, actor, listing, facts),
                Readiness.Evaluate(snapshot).moderation);
  }

  // -------------------------------------------------------------------- numbering

  function Attempts(rows: seq<Attempt>, listing: Id): nat {
    if rows == [] then 0
    else Attempts(rows[..|rows| - 1], listing) + (if rows[|rows| - 1].listing == listing then 1 else 0)
  }

  /** The attempts of a listing are numbered 1, 2, 3, ... as they were made. */
  ghost predicate Numbered(rows: seq<Attempt>) {
    forall i | 0 <= i < |rows| :: rows[i].number == Attempts(rows[..i], rows[i].listing) + 1
  }

  lemma {:induction false} HighestCounts(rows: seq<Attempt>, listing: Id)
    requires Numbered(rows)
    ensures HighestNumber(rows, listing) == Attempts(rows, listing)
  {
    if rows != [] {
      var n := |rows| - 1;
      assert forall i | 0 <= i < n :: rows[..n][..i] == rows[..i];
      HighestCounts(rows[..n], listing);
    }
  }

  lemma {:induction false} SameListingsSameCount(a: seq<Attempt>, b: seq<Attempt>, listing: Id)
    requires |a| == |b| && forall i | 0 <= i < |a| :: a[i].listing == b[i].listing
    ensures Attempts(a, listing) == Attempts(b, listing)
  {
    if a != [] { SameListingsSameCount(a[..|a| - 1], b[..|b| - 1], listing); }
  }

  lemma RewrittenStaysNumbered(a: seq<Attempt>, b: seq<Attempt>)
    requires Numbered(a) && |a| == |b|
    requires forall i | 0 <= i < |a| :: a[i].listing == b[i].listing && a[i].number == b[i].number
    ensures Numbered(b) && forall listing: Id :: Attempts(b, listing) == Attempts(a, listing)
  {
    forall i | 0 <= i < |b| ensures b[i].number == Attempts(b[..i], b[i].listing) + 1 {
      SameListingsSameCount(a[..i], b[..i], b[i].listing);
    }
    forall listing: Id ensures Attempts(b, listing) == Attempts(a, listing) { SameListingsSameCount(a, b, listing); }
  }

  lemma JudgedNumber(cfg: Own.Config, s: State, actor: Id, listing: Id, facts: Facts)
    requires listing < |s.own.listings|
    ensures var row := Judged(cfg, s, actor, listing, facts);
            var existing := ForVersion(s.rows, listing, s.own.listings[listing].version);
            && row.listing == listing
            && row.number == if existing.Some? then s.rows[existing.value].number
                             else HighestNumber(s.rows, listing) + 1
  {
    hide Choose, SnapshotOf, Readiness.Evaluate, Readiness.StatusOf, Readiness.BlockerCodes, Idv.Projected,
        MediaSetVersion, HighestNumber;
  }

  lemma AppendedStaysNumbered(rows: seq<Attempt>, row: Attempt)
    requires Numbered(rows) && row.number == Attempts(rows, row.listing) + 1
    ensures Numbered(rows + [row])
  {
    var later := rows + [row];
    forall i | 0 <= i < |later| ensures later[i].number == Attempts(later[..i], later[i].listing) + 1 {
      if i < |rows| { assert later[..i] == rows[..i]; } else { assert later[..i] == rows; }
    }
  }

  lemma NumberedCommit(s: State, listing: Id, version: nat, row: Attempt, moderation: Readiness.GateState)
    requires Numbered(s.rows)
    requires var existing := ForVersion(s.rows, listing, version);
             && row.listing == listing
             && row.number == if existing.Some? then s.rows[existing.value].number
                              else HighestNumber(s.rows, listing) + 1
    ensures Numbered(Commit(s, listing, version, row, moderation).0.rows)
  {
    var existing := ForVersion(s.rows, listing, version);
    var kept := SupersedeOthers(s.rows, listing, version, s.own.clock);
    assert Commit(s, listing, version, row, moderation).0.rows
        == if existing.Some? then kept[existing.value := row] else kept + [row];
    hide Numbered, Commit, SupersedeOthers, ForVersion;
    HighestCounts(s.rows, listing);
    if existing.Some? {
      RewrittenStaysNumbered(s.rows, kept[existing.value := row]);
    } else {
      RewrittenStaysNumbered(s.rows, kept);
      AppendedStaysNumbered(kept, row);
    }
  }

  lemma NumberedSubmit(cfg: Own.Config, s: State, actor: Id, listing: Id, expected: nat, facts: Facts)
    requires Numbered(s.rows)
    ensures Numbered(Submit(cfg, s, actor, listing, expected, facts).0.rows)
  {
    if SubmitRefusal(s, actor, listing, expected).None? {
      MaySubmitExactly(s, actor, listing, expected);
      JudgedNumber(cfg, s, actor, listing, facts);
      hide Numbered, Judged, Choose, Readiness.Evaluate, Commit, HighestNumber, SnapshotOf;
      NumberedCommit(s, listing, expected, Judged(cfg, s, actor, listing, facts),
                     Readiness.Evaluate(SnapshotOf(s.own, listing, facts, Choose(cfg.policy, s.own, listing),
                                                   None)).moderation);
    }
  }

  /** Over every run. */
  lemma {:induction false} AttemptsAreNumbered(cfg: Own.Config, s: State, actions: seq<Action>)
    requires Numbered(s.rows)
    ensures Numbered(Run(cfg, s, actions).rows)
    decreases |actions|
  {
    if actions != [] {
      hide Numbered, Submit, Own.Step;
      if actions[0].SubmitListing? {
        NumberedSubmit(cfg, s, actions[0].actor, actions[0].listing, actions[0].expected, actions[0].facts);
      }
      AttemptsAreNumbered(cfg, Step(cfg, s, actions[0]), actions[1..]);
    }
  }

  // -------------------------------------------------------------------- why the ownership gate waits

  /** What the gate reports when the policy refuses: that a proof has expired, been revoked or is
      pending, if that is the refusal; and otherwise what the listing's own newest row says. */
  lemma BlockedReason(cfg: Own.Config, s: Own.State, listing: Id, facts: Facts)
    requires Own.Inv(s) && listing < |s.listings| && HasCanonical(s, s.listings[listing])
    requires !Proven(cfg.policy, s, listing) && !FallsBack(cfg.policy, s, listing)
    ensures var l := s.listings[listing];
            var code := cfg.policy.Select(ContextOf(s, l, listing), GroupOf(s, l), listing).decision.code;
            var latest := LatestOf(SortDescending(GroupOf(s, l)), listing);
            var gate := Readiness.OwnershipGate(Snapshot(cfg, s, listing, facts, None));
            && gate.state != Readiness.Ready
            && (code == Some(VerificationExpired) ==> gate.code == Some(Readiness.OwnershipExpired))
            && (code == Some(VerificationRevoked) ==> gate.code == Some(Readiness.OwnershipRevoked))
            && (code == Some(VerificationPending) ==> gate.code == Some(Readiness.OwnershipPending)
                                                      && gate.state == Readiness.Waiting)
            && (code in {Some(ReuseConflict), Some(ReuseNotAvailable), Some(VerificationRequired)} ==>
                  && (latest.None? ==> gate.code == Some(Readiness.OwnershipRequired))
                  && (latest.Some? && latest.value.status in {SessionPending, Pending, ManualReview} ==>
                        gate.code == Some(Readiness.OwnershipPending))
                  && (latest.Some? && latest.value.status == Failed ==> gate.code == Some(Readiness.OwnershipFailed)))
  {
    var l := s.listings[listing];
    ChooseProven(cfg.policy, s, listing);
    OwnershipGateExactly(cfg, s, listing, facts);
    Readiness.GateMeaning(Snapshot(cfg, s, listing, facts, None), 6);
    var latest := LatestOf(SortDescending(GroupOf(s, l)), listing);
    SortKeepsElements(GroupOf(s, l));
    if latest.Some? { GroupRow(s, l, latest.value); }
    hide Own.Inv, Choose, Proven, FallsBack, cfg.policy.Select, ContextOf, GroupOf, LatestOf, SortDescending,
        MatchesCurrent, Statuses, HasCanonical;
  }
}
