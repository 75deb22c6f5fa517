/** One run of the services at the end of which a listing is sent to moderation on an ownership
    proof that has been superseded. */
module SupersededProof {
  import opened Core
  import opened OwnershipReuse
  import opened Submission
  import MediaProcessing
  import Readiness
  import Registry = VehicleRegistry
  import Idv = IdentityVerification
  import Own = OwnershipVerification

  // -------------------------------------------------------------------- the run

  function Ask(basis: Basis): Own.StartRequest {
    Own.StartRequest(1, Registry.Normalized("XX", "1", None, None), basis)
  }

  function Draft(): Own.Listing { Own.Listing(Some(0), None, Registry.Car, None, true, 1) }

  function PersonConfirmed(): Idv.ProviderResult {
    Idv.ProviderResult(true, 1, 1, Verified, Some(Idv.Basic), Some(0), Some(1000), Idv.Missing)
  }

  function ProofAccepted(): Own.ProviderResult {
    Own.ProviderResult(true, 1, 1, 1, Verified, Some(0), Some(900), Idv.Missing, map[])
  }

  function ProofRejected(): Own.ProviderResult {
    Own.ProviderResult(true, 2, 2, 1, Failed, None, None, Idv.Listed(Idv.ProviderRejected), map[])
  }

  /** The owner proves the vehicle for listing 0, asks again for listing 1 on another basis, and
      is refused. */
  function Dealings(): seq<Own.Action> {
    [Own.Identity(Idv.Start(0, 0)), Own.Identity(Idv.SessionReady(0, 1)), Own.Identity(Idv.Result(PersonConfirmed())),
     Own.CreateListing(Draft()), Own.CreateListing(Draft()),
     Own.Begin(0, 0, Ask(RegisteredOwner)), Own.SessionReady(0, 1), Own.Result(ProofAccepted()),
     Own.Begin(0, 1, Ask(Inherited)), Own.SessionReady(1, 2), Own.Result(ProofRejected())]
  }

  // -------------------------------------------------------------------- the states on the way

  function Person(n: nat): Idv.Attempt {
    var begun := Idv.Attempt(0, 1, None, None, SessionPending, None, None, None, None, None, None);
    if n <= 1 then begun
    else if n == 2 then begun.(reference := Some(1), status := Pending)
    else Idv.WithResult(begun.(reference := Some(1)), PersonConfirmed())
  }

  function Events(n: nat): seq<Idv.Emitted> {
    if n <= 1 then []
    else if n == 2 then [Idv.Emitted(0, 0, 2, Pending)]
    else [Idv.Emitted(0, 0, 2, Pending), Idv.Emitted(0, 0, 3, Verified)]
  }

  function People(n: nat): Idv.State {
    if n == 0 then Idv.State([true], [], [None], [])
    else Idv.State([true], [Person(n)], [Some(Idv.Mirror(0, Person(n), if n < 3 then n else 3))], Events(n))
  }

  function Plated(cfg: Own.Config): Registry.Vehicle {
    Registry.NewVehicle(Registry.Car, Registry.Key(Ask(Inherited).identity, cfg.hashVersion))
  }

  function Tied(l: Own.Listing): Own.Listing { l.(vehicle := Some(0), version := 2) }

  function Listings(n: nat): seq<Own.Listing> {
    if n < 4 then [] else if n < 5 then [Draft()] else if n < 6 then [Draft(), Draft()]
    else if n < 9 then [Tied(Draft()), Draft()] else [Tied(Draft()), Tied(Draft())]
  }

  function Opened(cfg: Own.Config, number: nat, basis: Basis): Own.Attempt
    requires number >= 1
  {
    Own.FirstRow(cfg, number, number - 1, 0, 0, Plated(cfg), Idv.Mirror(0, Person(3), 3), basis)
  }

  function First(cfg: Own.Config, n: nat): Own.Attempt {
    var a := Opened(cfg, 1, RegisteredOwner);
    if n < 7 then a
    else
      var ready := a.(reference := Some(1), status := Pending);
      if n < 8 then ready
      else
        var done := Own.WithResult(cfg, ready, Plated(cfg), ProofAccepted());
        if n < 9 then done else done.(supersededAt := Some(0))
  }

  function Second(cfg: Own.Config, n: nat): Own.Attempt {
    var a := Opened(cfg, 2, Inherited);
    if n < 10 then a
    else
      var ready := a.(reference := Some(2), status := Pending);
      if n < 11 then ready else Own.WithResult(cfg, ready, Plated(cfg), ProofRejected())
  }

  function Proofs(cfg: Own.Config, n: nat): seq<Own.Attempt> {
    if n < 6 then [] else if n < 9 then [First(cfg, n)] else [First(cfg, n), Second(cfg, n)]
  }

  /** The tables after `n` of the dealings, written out. */
  function Stage(cfg: Own.Config, n: nat): Own.State {
    Own.State(0, People(n), if n < 6 then [] else [Plated(cfg)], Listings(n), Proofs(cfg, n), [])
  }

  lemma PeopleStep(n: nat)
    requires 1 <= n <= 3
    ensures Idv.Step(People(n - 1), Dealings()[n - 1].action) == People(n)
  {
  }

  lemma FirstClaim(cfg: Own.Config)
    ensures Own.ClaimAttempt(cfg, Stage(cfg, 5), 0, 0, Ask(RegisteredOwner)).0 == Stage(cfg, 6)
  {
    var s := Stage(cfg, 5);
    assert Own.RequestRefusal(s, 0, 0, Ask(RegisteredOwner)).None?;
    assert Registry.FindCanonical(s.vehicles, Registry.Key(Ask(RegisteredOwner).identity, cfg.hashVersion)) == [];
    var claimed := Own.Associated(s, [Plated(cfg)], 0, 0);
    assert claimed == Stage(cfg, 6).(attempts := []);
    NothingToReuse(cfg, claimed);
    assert Own.Newest([], 0, 0, true).None? && Own.Newest([], 0, 0, false).None?;
    hide cfg.policy.Select;
  }

  lemma NothingToReuse(cfg: Own.Config, s: Own.State)
    requires s.attempts == []
    ensures forall c: Context, l: Id :: cfg.policy.Select(c, Own.GroupEvidence(s.attempts, 0, 0), l).evidence.None?
  {}

  lemma SessionStep(cfg: Own.Config, n: nat)
    requires n == 7 || n == 10
    ensures Own.Step(cfg, Stage(cfg, n - 1), Dealings()[n - 1]) == Stage(cfg, n)
  {
    var rows := Stage(cfg, n - 1).attempts;
    var id := |rows| - 1;
    assert rows[..id] == if n == 7 then [] else [First(cfg, 9)];
    assert Own.ReferenceFree(rows, id, if n == 7 then 1 else 2);
    assert rows[id := Proofs(cfg, n)[id]] == Proofs(cfg, n);
    hide Own.FirstRow, Own.WithResult, Own.ReferenceFree;
  }

  lemma FirstResult(cfg: Own.Config)
    ensures Own.ApplyProviderResult(cfg, Stage(cfg, 7), ProofAccepted()).0 == Stage(cfg, 8)
  {
    var s := Stage(cfg, 7);
    assert Own.ByReference(s.attempts, 1) == Some(0) && Own.ByResultEvent(s.attempts, 1) == None;
    assert !Own.IsStale(s, 0);
    assert s.attempts[0 := First(cfg, 8)] == [First(cfg, 8)];
    hide Own.FirstRow, Own.WithResult, Own.IsStale, Own.ByReference, Own.ByResultEvent;
  }

  lemma SecondResult(cfg: Own.Config)
    ensures Own.ApplyProviderResult(cfg, Stage(cfg, 10), ProofRejected()).0 == Stage(cfg, 11)
  {
    var s := Stage(cfg, 10);
    var rows := s.attempts;
    assert rows[..1] == [rows[0]];
    assert Own.ByReference(rows, 2) == Some(1) && Own.ByResultEvent(rows[..1], 2) == None;
    assert Own.ByResultEvent(rows, 2) == None;
    assert !Own.IsStale(s, 1);
    assert rows[1 := Second(cfg, 11)] == [First(cfg, 11), Second(cfg, 11)];
    hide Own.FirstRow, Own.WithResult, Own.IsStale, Own.ByReference, Own.ByResultEvent;
  }

  /** The proof of listing 0 is for another basis, so the policy refuses it and a new attempt
      supersedes it. */
  lemma SecondClaim(cfg: Own.Config)
    ensures Own.ClaimAttempt(cfg, Stage(cfg, 8), 0, 1, Ask(Inherited)).0 == Stage(cfg, 9)
  {
    var s := Stage(cfg, 8);
    var key := Registry.Key(Ask(Inherited).identity, cfg.hashVersion);
    assert Own.RequestRefusal(s, 0, 1, Ask(Inherited)).None?;
    KnownVehicle(cfg);
    var claimed := Own.Associated(s, s.vehicles, 1, 0);
    assert claimed == s.(listings := [Tied(Draft()), Tied(Draft())]);
    OtherBasis(cfg, claimed);
    var rows := s.attempts;
    assert rows[..0] == [];
    assert Own.Newest(rows, 0, 0, true).None? && Own.Newest(rows, 0, 0, false) == Some(0);
    assert rows[0 := First(cfg, 9)] == [First(cfg, 9)];
    hide cfg.policy.Select, Registry.Resolve, Own.RequestRefusal, Own.Newest, Own.FirstRow, Own.WithResult;
  }

  lemma KnownVehicle(cfg: Own.Config)
    ensures Registry.Resolve([Plated(cfg)], Registry.Car, Registry.Key(Ask(Inherited).identity, cfg.hashVersion))
            == ([Plated(cfg)], Registry.Resolved(0))
  {
    var key := Registry.Key(Ask(Inherited).identity, cfg.hashVersion);
    assert [Plated(cfg)][..0] == [];
    assert Registry.FindCanonical([Plated(cfg)], key) == [0];
    assert Registry.Completed(Plated(cfg), key) == Plated(cfg);
    assert [Plated(cfg)][0 := Plated(cfg)] == [Plated(cfg)];
  }

  lemma OtherBasis(cfg: Own.Config, s: Own.State)
    requires s.attempts == [First(cfg, 8)]
    ensures forall c: Context, l: Id | c.basis == Inherited ::
              cfg.policy.Select(c, Own.GroupEvidence(s.attempts, 0, 0), l).evidence.None?
  {
    var e := Own.EvidenceOf(0, First(cfg, 8));
    assert Own.GroupEvidence(s.attempts[..0], 0, 0) == [];
    assert Own.GroupEvidence(s.attempts, 0, 0) == [e];
    forall c: Context, l: Id | c.basis == Inherited ensures cfg.policy.Select(c, [e], l).evidence.None? {
      SelectIsConsistent(cfg.policy, c, [e], l);
      hide cfg.policy.Select;
    }
  }

  lemma StageStep(cfg: Own.Config, n: nat)
    requires 1 <= n <= 11
    ensures Own.Step(cfg, Stage(cfg, n - 1), Dealings()[n - 1]) == Stage(cfg, n)
  {
    if n <= 3 { PeopleStep(n); }
    else if n == 6 { FirstClaim(cfg); }
    else if n == 7 || n == 10 { SessionStep(cfg, n); }
    else if n == 8 { FirstResult(cfg); }
    else if n == 9 { SecondClaim(cfg); }
    else if n == 11 { SecondResult(cfg); }
    hide Own.FirstRow, Own.WithResult, Own.ClaimAttempt, Idv.Step, Own.ApplyProviderResult, Own.FinalizeSession;
  }

  // -------------------------------------------------------------------- the run ends in moderation

  function Elsewheres(actions: seq<Own.Action>): (lifted: seq<Action>)
    ensures |lifted| == |actions|
  {
    if actions == [] then [] else [Elsewhere(actions[0])] + Elsewheres(actions[1..])
  }

  /** The dealings, and then the owner submits listing 0. */
  function Schedule(facts: Facts): seq<Action> {
    Elsewheres(Dealings()) + [SubmitListing(0, 0, 2, facts)]
  }

  lemma {:induction false} RunElsewhere(cfg: Own.Config, s: State, actions: seq<Own.Action>, last: Action)
    ensures Run(cfg, s, Elsewheres(actions) + [last]) == Step(cfg, s.(own := Own.Run(cfg, s.own, actions)), last)
    decreases |actions|
  {
    var all := Elsewheres(actions) + [last];
    hide Own.Step, Submit;
    if actions == [] {
      assert all == [last] && all[1..] == [];
      assert Run(cfg, Step(cfg, s, last), []) == Step(cfg, s, last);
    } else {
      assert all[0] == Elsewhere(actions[0]) && all[1..] == Elsewheres(actions[1..]) + [last];
      RunElsewhere(cfg, Step(cfg, s, all[0]), actions[1..], last);
    }
  }

  lemma {:induction false} RunFrom(cfg: Own.Config, n: nat)
    requires n <= 11
    ensures Own.Run(cfg, Stage(cfg, n), Dealings()[n..]) == Stage(cfg, 11)
    decreases 11 - n
  {
    if n < 11 {
      StageStep(cfg, n + 1);
      RunFrom(cfg, n + 1);
      assert Dealings()[n..][0] == Dealings()[n] && Dealings()[n..][1..] == Dealings()[n + 1..];
      hide Stage, Dealings, Own.Step;
    }
  }

  lemma Dealt(cfg: Own.Config)
    ensures Own.Run(cfg, Own.Initial([true], 0), Dealings()) == Stage(cfg, 11) && Own.Inv(Stage(cfg, 11))
  {
    assert Own.Initial([true], 0) == Stage(cfg, 0);
    assert Dealings()[0..] == Dealings();
    RunFrom(cfg, 0);
    Own.Reachable(cfg, [true], 0, Dealings());
    hide Stage, Dealings, Own.Run, Own.Inv;
  }

  function Rejected(cfg: Own.Config): Evidence { Own.EvidenceOf(1, Second(cfg, 11)) }
  function Accepted(cfg: Own.Config): Evidence { Own.EvidenceOf(0, First(cfg, 11)) }

  lemma Rows(cfg: Own.Config)
    ensures var s := Stage(cfg, 11);
            && HasCanonical(s, s.listings[0])
            && GroupOf(s, s.listings[0]) == [Rejected(cfg), Accepted(cfg)]
  {
    var rows := Stage(cfg, 11).attempts;
    assert rows[..1] == [rows[0]] && rows[..1][..0] == [];
    assert Own.GroupEvidence(rows[..1], 0, 0) == [Accepted(cfg)];
    assert Own.GroupEvidence(rows, 0, 0) == [Rejected(cfg)] + [Accepted(cfg)];
  }

  lemma RowFacts(cfg: Own.Config)
    requires forall m: Own.Material :: cfg.fingerprint(m) != ""
    ensures var newest, own := Rejected(cfg), Accepted(cfg);
            && newest.listing == 1 && newest.number == 2 && newest.status == Failed
            && own.listing == 0 && own.number == 1 && own.status == Verified && own.identityVersion == 3
            && own.expiresAt == Some(900) && own.fingerprint != "" && own.attempt == 0 && own.supersededAt.Some?
  {}

  lemma GateFactsHold(policy: Policy, s: Own.State, newest: Evidence, own: Evidence)
    requires |s.listings| > 0 && HasCanonical(s, s.listings[0]) && GroupOf(s, s.listings[0]) == [newest, own]
    requires Idv.Projected(s.identity, s.listings[0].ownerUser.value).value.version == 3 && s.clock == 0
    requires newest.listing == 1 && newest.number == 2 && newest.status == Failed
    requires own.listing == 0 && own.number == 1 && own.status == Verified && own.identityVersion == 3
    requires own.expiresAt == Some(900) && own.fingerprint != ""
    ensures NewestIn([newest, own], newest) && !NewestAccepted(policy, s, 0, newest)
    ensures NewestOfListing([newest, own], 0, own)
    ensures GateFacts(policy, s, 0, newest)
  {
    hide GroupOf, HasCanonical;
    var group := [newest, own];
    assert group[0] in group && group[1] in group;
    assert NewestOfListing(group, 0, own) && OwnRowStillGood(s, s.listings[0], own);
    assert RefusalIsMild(policy, s, 0, newest);
  }

  lemma Setting(cfg: Own.Config)
    ensures var s := Stage(cfg, 11);
            && |s.listings| == 2 && |s.attempts| == 2 && |s.identity.users| == 1 && s.identity.users[0]
            && s.clock == 0 && s.listings[0] == Tied(Draft())
            && var p := Idv.Projected(s.identity, 0);
            && p.Some? && p.value.version == 3 && p.value.status == Verified
            && p.value.expiresAt == Some(1000) && p.value.revokedAt.None?
            && s.attempts[0].supersededAt.Some? && s.attempts[0].listing == 0
  {}

  /** The policy accepts nothing, and the gate is ready on the superseded proof of listing 0. */
  lemma GateIsReady(cfg: Own.Config, facts: Facts)
    requires forall m: Own.Material :: cfg.fingerprint(m) != ""
    ensures var s := Stage(cfg, 11);
            && |s.listings| == 2
            && !Proven(cfg.policy, s, 0)
            && Readiness.OwnershipHolds(Snapshot(cfg, s, 0, facts, None))
            && Choose(cfg.policy, s, 0).canonical && Choose(cfg.policy, s, 0).proof == Some(Accepted(cfg))
  {
    hide Own.Inv, Snapshot, Choose, GroupOf, NewestIn, RefusalIsMild, NewestOfListing, OwnRowStillGood, NewestAccepted,
        Accepted, Rejected, Stage, HasCanonical, Proven, DistinctNumbers, OnlyNewestUnsuperseded, GateFacts, Dealings,
        SortDescending, LatestOf, cfg.policy.Select, ContextOf, Own.Run, Readiness.OwnershipHolds;
    var s := Stage(cfg, 11);
    var newest, own := Rejected(cfg), Accepted(cfg);
    Dealt(cfg);
    Setting(cfg);
    Rows(cfg);
    RowFacts(cfg);
    GateFactsHold(cfg.policy, s, newest, own);
    GateReadyExactly(cfg, s, 0, facts);
    ProvenExactly(cfg.policy, s, 0, newest);
    ChooseProven(cfg.policy, s, 0);
    GroupDistinct(s, s.listings[0]);
    LatestIsNewest([newest, own], 0, own);
  }

  function ReadyFacts(): Facts {
    Facts(true, true, true, [MediaItem(0, 1, MediaProcessing.ModerationPending)])
  }

  lemma SubmissionPasses(cfg: Own.Config)
    requires forall m: Own.Material :: cfg.fingerprint(m) != ""
    ensures var s := Stage(cfg, 11);
            |s.listings| == 2 && Readiness.Publishable(Snapshot(cfg, s, 0, ReadyFacts(), None))
  {
    GateIsReady(cfg, ReadyFacts());
    Setting(cfg);
    hide Stage, Choose, MatchesCurrent, Proven, Readiness.OwnershipHolds, Accepted;
  }

  /** Moderation of listing 0 has been asked for, resting on proof 0, which is superseded and
      which the policy does not accept. */
  ghost predicate RestsOnSuperseded(policy: Policy, s: State) {
    && s.requested == [Requested(0, 2)]
    && |s.rows| == 1 && s.rows[0].listing == 0 && s.rows[0].proof == Some(0)
    && |s.own.attempts| == 2 && s.own.attempts[0].supersededAt.Some? && s.own.attempts[0].listing == 0
    && |s.own.listings| == 2 && !Proven(policy, s.own, 0)
  }

  /** A first submission that is publishable asks for moderation on the chosen proof. */
  lemma FirstSubmission(cfg: Own.Config, s: State, facts: Facts)
    requires s.rows == [] && s.requested == [] && SubmitRefusal(s, 0, 0, 2).None? && |s.own.listings| > 0
    requires Readiness.Publishable(Snapshot(cfg, s.own, 0, facts, None))
    ensures var (t, out) := Submit(cfg, s, 0, 0, 2, facts);
            var proof := Choose(cfg.policy, s.own, 0).proof;
            && t.own == s.own && t.requested == [Requested(0, 2)] && |t.rows| == 1 && t.rows[0].listing == 0
            && t.rows[0].proof == if proof.Some? then Some(proof.value.attempt) else None
  {
    Readiness.ModerationExactlyWhenPublishable(Snapshot(cfg, s.own, 0, facts, None));
    hide Choose, Readiness.Publishable, Readiness.Evaluate, Readiness.StatusOf, SnapshotOf, Readiness.BlockerCodes,
        MediaSetVersion, Idv.Projected;
  }

  lemma LastStep(cfg: Own.Config, s: State)
    requires forall m: Own.Material :: cfg.fingerprint(m) != ""
    requires s == State(Stage(cfg, 11), [], [], [], map[])
    ensures RestsOnSuperseded(cfg.policy, Step(cfg, s, SubmitListing(0, 0, 2, ReadyFacts())))
  {
    hide Stage, Choose, Proven, Accepted, Readiness.Publishable, Snapshot, Readiness.OwnershipHolds, ReadyFacts, Submit;
    Setting(cfg);
    GateIsReady(cfg, ReadyFacts());
    RowFacts(cfg);
    SubmissionPasses(cfg);
    FirstSubmission(cfg, s, ReadyFacts());
  }

  /** "Only a proof the policy accepts reaches moderation" is false: this run of the services,
      from empty tables, ends with a request that rests on a superseded proof. */
  lemma SupersededProofCanPass(cfg: Own.Config)
    requires forall m: Own.Material :: cfg.fingerprint(m) != ""
    ensures RestsOnSuperseded(cfg.policy, Run(cfg, Initial([true], 0), Schedule(ReadyFacts())))
  {
    hide Dealings, Stage, RestsOnSuperseded, Run, Step, Own.Run, Own.Initial;
    var start := Initial([true], 0);
    RunElsewhere(cfg, start, Dealings(), SubmitListing(0, 0, 2, ReadyFacts()));
    Dealt(cfg);
    LastStep(cfg, start.(own := Stage(cfg, 11)));
  }
}
