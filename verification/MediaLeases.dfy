/** What a lease on an image is worth to the worker that holds it, and when others get a turn. */
module MediaLeases {
  import opened Core
  import opened MediaProcessing

  ghost predicate AwaitsWork(s: State, r: Request) {
    && r.media < |s.media| && s.media[r.media].listing == r.listing && s.media[r.media].version == r.version
    && s.media[r.media].status in {Processing, Scanning}
  }

  /** Claim `token` is on this image version and its lease, counted from the claim, still runs. */
  ghost predicate InForce(cfg: Settings, s: State, token: Id, key: Key) {
    HoldsClaim(s, token) && s.claims[token].key == key && s.clock < s.claims[token].claimedAt + cfg.leaseSeconds
  }

  lemma TokenOfRow(cfg: Settings, s: State, key: Key)
    requires Inv(cfg, s) && key in s.evidence
    ensures s.evidence[key].token.Some? ==>
              var token := s.evidence[key].token.value;
              && token < |s.claims| && s.claims[token].key == key
              && s.evidence[key].leaseExpiresAt == s.claims[token].claimedAt + cfg.leaseSeconds
    ensures s.evidence[key].status == Processing && s.evidence[key].token.None? ==>
              s.evidence[key].leaseExpiresAt <= s.clock
  {
    assert RowClaimed(cfg, s, key);
    if s.evidence[key].token.Some? { assert ClaimValid(cfg, s, s.claims[s.evidence[key].token.value]); }
    hide MediaAgrees, EventsAgree, DerivativesAgree;
  }

  lemma AwaitedIsOpen(cfg: Settings, s: State, r: Request)
    requires Inv(cfg, s) && AwaitsWork(s, r) && Key(r.media, r.version) in s.evidence
    ensures s.evidence[Key(r.media, r.version)].status == Processing
  {
    assert RowAgrees(s, Key(r.media, r.version));
    hide ClaimsAgree, EventsAgree, DerivativesAgree;
  }

  /** Every answer to a request for work, in every reachable state: "in progress" exactly while some
      claim on the image version is in force, a claim at any other time the image awaits work. */
  lemma ClaimExactly(cfg: Settings, s: State, r: Request)
    requires Inv(cfg, s)
    ensures var (t, result) := ClaimMedia(cfg, s, r);
            if !AwaitsWork(s, r) then (t, result) == (s, StaleRequest)
            else if exists token: Id :: InForce(cfg, s, token, Key(r.media, r.version)) then
              (t, result) == (s, InProgress)
            else result == Claimed(|s.claims|)
  {
    var key := Key(r.media, r.version);
    if AwaitsWork(s, r) && key in s.evidence {
      AwaitedIsOpen(cfg, s, r);
      TokenOfRow(cfg, s, key);
      hide Inv;
      var row := s.evidence[key];
      if row.token.Some? && s.clock < row.leaseExpiresAt { assert InForce(cfg, s, row.token.value, key); }
    } else {
      hide Inv;
    }
  }

  lemma FreeIsClaimed(cfg: Settings, s: State, r: Request)
    requires Inv(cfg, s) && AwaitsWork(s, r)
    requires forall token: Id :: !(HoldsClaim(s, token) && s.claims[token].key == Key(r.media, r.version))
    ensures ClaimMedia(cfg, s, r).1 == Claimed(|s.claims|)
  {
    hide Inv, ClaimMedia, AwaitsWork;
    ClaimExactly(cfg, s, r);
  }

  /** A claim that is granted is in force, from now until the lease is over. */
  lemma ClaimIsGranted(cfg: Settings, s: State, r: Request)
    requires Inv(cfg, s) && ClaimMedia(cfg, s, r).1.Claimed?
    ensures var (t, result) := ClaimMedia(cfg, s, r);
            && HoldsClaim(t, result.token) && t.claims[result.token].key == Key(r.media, r.version)
            && t.claims[result.token].claimedAt == s.clock == t.clock && Inv(cfg, t)
  {
    StepKeeps(cfg, s, TakeClaim(r));
    hide Inv, Continues;
  }

  /** The holder ends its claim, or the image is removed. */
  predicate Ends(a: Action, token: Id, media: Id) {
    match a
    case Remove(id) => id == media
    case Succeed(t, _, _, _, _) => t == token
    case Reject(t, _, _) => t == token
    case GiveUp(t, _, _) => t == token
    case Trouble(t, _, _, _) => t == token
    case _ => false
  }

  lemma KeptThroughStep(cfg: Settings, s: State, token: Id, a: Action)
    requires Inv(cfg, s) && HoldsClaim(s, token) && !Ends(a, token, s.claims[token].key.media)
    requires Step(cfg, s, a).clock < s.claims[token].claimedAt + cfg.leaseSeconds
    ensures var t := Step(cfg, s, a); HoldsClaim(t, token) && t.claims[token] == s.claims[token]
    ensures token < |s.claims| && token < |Step(cfg, s, a).claims|
  {
    TokenOfRow(cfg, s, s.claims[token].key);
    hide Inv, DerivativeRows;
    if a.Succeed? || a.Reject? || a.GiveUp? || a.Trouble? { KeptBesideWorker(cfg, s, token, a); }
    hide FinalizeSuccess, FinalizeFailure, RetryOrFail;
  }

  lemma KeptBesideWorker(cfg: Settings, s: State, token: Id, a: Action)
    requires HoldsClaim(s, token) && (a.Succeed? || a.Reject? || a.GiveUp? || a.Trouble?) && a.token != token
    ensures var t := Step(cfg, s, a); HoldsClaim(t, token) && t.claims[token] == s.claims[token]
  {
    OtherHolder(s, token, a.token);
    hide DerivativeRows;
  }

  /** Two claims that both hold are on different images. */
  lemma OtherHolder(s: State, token: Id, other: Id)
    requires token != other
    ensures HoldsClaim(s, token) && HoldsClaim(s, other) ==> s.claims[other].key.media != s.claims[token].key.media
  {}

  ghost predicate Undisturbed(actions: seq<Action>, token: Id, media: Id) {
    forall i | 0 <= i < |actions| :: !Ends(actions[i], token, media)
  }

  lemma UndisturbedRest(actions: seq<Action>, token: Id, media: Id)
    requires Undisturbed(actions, token, media) && actions != []
    ensures !Ends(actions[0], token, media) && Undisturbed(actions[1..], token, media)
  {
    hide Ends;
  }

  lemma {:induction false} LeaseIsHeld(cfg: Settings, s: State, token: Id, actions: seq<Action>)
    requires Inv(cfg, s) && HoldsClaim(s, token) && token < |s.claims|
    requires Undisturbed(actions, token, s.claims[token].key.media)
    requires Run(cfg, s, actions).clock < s.claims[token].claimedAt + cfg.leaseSeconds
    ensures var t := Run(cfg, s, actions);
            Inv(cfg, t) && HoldsClaim(t, token) && token < |t.claims| && t.claims[token] == s.claims[token]
    decreases |actions|
  {
    if actions != [] {
      var next := Step(cfg, s, actions[0]);
      assert Run(cfg, s, actions) == Run(cfg, next, actions[1..]);
      hide *;
      UndisturbedRest(actions, token, s.claims[token].key.media);
      StepKeeps(cfg, s, actions[0]);
      RunKeeps(cfg, next, actions[1..]);
      ClockGrows(next, Run(cfg, next, actions[1..]));
      KeptThroughStep(cfg, s, token, actions[0]);
      LeaseIsHeld(cfg, next, token, actions[1..]);
    }
  }

  /** Through every run that ends before the lease does: whoever else asks, crashes, is late or comes
      back, the holder keeps the claim, and the same request is answered "in progress". */
  lemma LeaseIsKept(cfg: Settings, s: State, r: Request, actions: seq<Action>)
    requires Inv(cfg, s) && ClaimMedia(cfg, s, r).1.Claimed?
    requires Undisturbed(actions, |s.claims|, r.media)
    requires Run(cfg, ClaimMedia(cfg, s, r).0, actions).clock < s.clock + cfg.leaseSeconds
    ensures var t := Run(cfg, ClaimMedia(cfg, s, r).0, actions);
            && ClaimMedia(cfg, s, r).1 == Claimed(|s.claims|) && HoldsClaim(t, |s.claims|)
            && ClaimMedia(cfg, t, r) == (t, InProgress)
  {
    var token := |s.claims|;
    ClaimExactly(cfg, s, r);
    ClaimIsGranted(cfg, s, r);
    var first := ClaimMedia(cfg, s, r).0;
    StillListed(cfg, s, r, actions);
    hide Inv, Run, ClaimMedia, HoldsClaim;
    LeaseIsHeld(cfg, first, token, actions);
    var t := Run(cfg, first, actions);
    assert InForce(cfg, t, token, Key(r.media, r.version));
    ClaimExactly(cfg, t, r);
  }

  lemma StillListed(cfg: Settings, s: State, r: Request, actions: seq<Action>)
    requires Inv(cfg, s) && ClaimMedia(cfg, s, r).1.Claimed?
    ensures var t := Run(cfg, ClaimMedia(cfg, s, r).0, actions);
            r.media < |t.media| && (HoldsClaim(t, |s.claims|) && t.claims[|s.claims|].key == Key(r.media, r.version)
                                    ==> AwaitsWork(t, r))
  {
    var first := ClaimMedia(cfg, s, r).0;
    StepKeeps(cfg, s, TakeClaim(r));
    assert MediaContinues(s.media[r.media], first.media[r.media]);
    hide Inv, ClaimMedia;
    RunKeeps(cfg, first, actions);
    assert MediaContinues(first.media[r.media], Run(cfg, first, actions).media[r.media]);
    hide Run, Continues;
  }

  lemma ClockGrows(s: State, t: State)
    requires Continues(s, t)
    ensures s.clock <= t.clock
  {}

  /** And no longer: once the lease is over, the image can be claimed again. */
  lemma LeaseRunsOut(cfg: Settings, s: State, token: Id, r: Request)
    requires Inv(cfg, s) && HoldsClaim(s, token) && s.claims[token].key == Key(r.media, r.version) && AwaitsWork(s, r)
    requires s.claims[token].claimedAt + cfg.leaseSeconds <= s.clock
    ensures ClaimMedia(cfg, s, r).1 == Claimed(|s.claims|)
  {
    ClaimExactly(cfg, s, r);
    hide Inv, ClaimMedia, AwaitsWork;
    forall other: Id | InForce(cfg, s, other, Key(r.media, r.version)) ensures false {
      OtherHolder(s, token, other);
    }
  }

  // -------------------------------------------------------------------- what comes of a claim

  /** The image version is settled: media row, evidence and announcement agree on the outcome, its
      reason and its time, the token is spent, and nothing of any other image moved. */
  ghost predicate Settled(s: State, t: State, key: Key, state: MediaStatus, failure: Option<nat>, details: nat) {
    && key.media < |s.media| == |t.media| && key in s.evidence && key in t.evidence
    && t.media[key.media] == s.media[key.media].(status := state, failure := failure, processedAt := Some(s.clock))
    && t.evidence[key] == s.evidence[key].(status := state, token := None, failure := failure,
                                           details := Some(details), completedAt := Some(s.clock))
    && t.events == s.events + [Terminal(key, state)]
    && (forall m | 0 <= m < |s.media| && m != key.media :: t.media[m] == s.media[m])
    && (forall k | k != key :: (k in t.evidence <==> k in s.evidence) && (k in s.evidence ==>
          t.evidence[k] == s.evidence[k]))
    && t.claims == s.claims && t.clock == s.clock
  }

  /** Done by the holder, the work settles the image, success with one derivative of each size; done
      by anyone else it changes nothing. */
  lemma WorkIsRecorded(cfg: Settings, s: State, token: Id, details: nat, thumbnail: nat, medium: nat, large: nat,
      failure: nat)
    ensures var (t, ok) := FinalizeSuccess(s, token, details, Sanitized(thumbnail, medium, large));
            && ok == HoldsClaim(s, token) && (!ok ==> t == s)
            && (ok ==>
                  var key := s.claims[token].key;
                  && Settled(s, t, key, ModerationPending, None, details)
                  && t.derivatives == s.derivatives + [Derivative(key, Thumbnail, thumbnail),
                                                       Derivative(key, Medium, medium), Derivative(key, Large, large)])
    ensures forall state | state in {Rejected, Failed} ::
              var (t, ok) := FinalizeFailure(s, token, details, state, failure);
              && ok == HoldsClaim(s, token) && (!ok ==> t == s)
              && (ok ==>
                    var key := s.claims[token].key;
                    && Settled(s, t, key, state, Some(failure), details)
                    && t.derivatives == s.derivatives)
  {
    if HoldsClaim(s, token) {
      var key := s.claims[token].key;
      ThreeRows(key, thumbnail, medium, large);
      hide DerivativeRows;
    }
  }

  lemma ThreeRows(key: Key, thumbnail: nat, medium: nat, large: nat)
    ensures DerivativeRows(key, Sanitized(thumbnail, medium, large))
            == [Derivative(key, Thumbnail, thumbnail), Derivative(key, Medium, medium), Derivative(key, Large, large)]
  {
    var all := Sanitized(thumbnail, medium, large);
    assert all[..2] == [all[0], all[1]] && all[..2][..1] == [all[0]] && all[..2][..1][..0] == [];
    assert DerivativeRows(key, []) == [];
    assert DerivativeRows(key, [all[0]]) == [] + [Derivative(key, Thumbnail, thumbnail)];
    assert DerivativeRows(key, all[..2]) == DerivativeRows(key, [all[0]]) + [Derivative(key, Medium, medium)];
  }

  lemma TroubleReleases(cfg: Settings, s: State, token: Id, details: nat, r: Request)
    requires HoldsClaim(s, token) && s.claims[token].key == Key(r.media, r.version) && AwaitsWork(s, r)
    ensures var t := Release(s, token, details);
            && t.events == s.events && t.derivatives == s.derivatives && |t.claims| == |s.claims| && AwaitsWork(t, r)
            && forall other: Id :: !(HoldsClaim(t, other) && t.claims[other].key == Key(r.media, r.version))
  {
    var t := Release(s, token, details);
    assert t.evidence[s.claims[token].key].token.None?;
    hide Inv;
  }

  lemma TroubleRetries(cfg: Settings, s: State, token: Id, details: nat, receiveCount: nat, failure: nat, r: Request)
    requires Inv(cfg, s) && HoldsClaim(s, token) && s.claims[token].key == Key(r.media, r.version) && AwaitsWork(s, r)
    requires s.claims[token].attempt < cfg.maxAttempts && receiveCount < cfg.maxAttempts
    ensures var (t, result) := RetryOrFail(cfg, s, token, details, receiveCount, failure);
            && result == Retry && t.events == s.events && t.derivatives == s.derivatives
            && ClaimMedia(cfg, t, r).1 == Claimed(|s.claims|)
  {
    var t := RetryOrFail(cfg, s, token, details, receiveCount, failure).0;
    assert t == Release(s, token, details) && RetryOrFail(cfg, s, token, details, receiveCount, failure).1 == Retry;
    assert t == Step(cfg, s, Trouble(token, details, receiveCount, failure));
    hide *;
    TroubleReleases(cfg, s, token, details, r);
    StepKeeps(cfg, s, Trouble(token, details, receiveCount, failure));
    FreeIsClaimed(cfg, t, r);
  }

  lemma TroubleFails(cfg: Settings, s: State, token: Id, details: nat, receiveCount: nat, failure: nat, r: Request)
    requires Inv(cfg, s) && HoldsClaim(s, token) && s.claims[token].key == Key(r.media, r.version) && AwaitsWork(s, r)
    requires s.claims[token].attempt >= cfg.maxAttempts || receiveCount >= cfg.maxAttempts
    ensures var (t, result) := RetryOrFail(cfg, s, token, details, receiveCount, failure);
            && result == Retry
            && Settled(s, t, s.claims[token].key, Failed, Some(failure), details)
            && ClaimMedia(cfg, t, r) == (t, StaleRequest)
  {
    assert token < |s.claims|;
    var t := RetryOrFail(cfg, s, token, details, receiveCount, failure).0;
    WorkIsRecorded(cfg, s, token, details, 0, 0, 0, failure);
    assert t == FinalizeFailure(s, token, details, Failed, failure).0;
    hide Inv, Finish, HoldsClaim, FinalizeFailure;
  }

  /** A holder in trouble gives the claim back, and the image can be claimed at once, as long as
      neither its attempts nor the deliveries of its message have reached the maximum; when either
      has, the image is failed for good. */
  lemma TroubleExactly(cfg: Settings, s: State, token: Id, details: nat, receiveCount: nat, failure: nat, r: Request)
    requires Inv(cfg, s) && HoldsClaim(s, token) && s.claims[token].key == Key(r.media, r.version) && AwaitsWork(s, r)
    ensures var (t, result) := RetryOrFail(cfg, s, token, details, receiveCount, failure);
            && result == Retry
            && (if s.claims[token].attempt < cfg.maxAttempts && receiveCount < cfg.maxAttempts then
                  && t.events == s.events && t.derivatives == s.derivatives
                  && ClaimMedia(cfg, t, r).1 == Claimed(|s.claims|)
                else
                  && Settled(s, t, s.claims[token].key, Failed, Some(failure), details)
                  && ClaimMedia(cfg, t, r) == (t, StaleRequest))
  {
    assert token < |s.claims|;
    hide *;
    if s.claims[token].attempt < cfg.maxAttempts && receiveCount < cfg.maxAttempts {
      TroubleRetries(cfg, s, token, details, receiveCount, failure, r);
    } else {
      TroubleFails(cfg, s, token, details, receiveCount, failure, r);
    }
  }

  /** An upload is completed exactly once, in time and as declared; then it awaits work and the first
      request for it is granted. */
  lemma UploadAwaitsWork(cfg: Settings, s: State, id: Id, matches: bool)
    requires Inv(cfg, s)
    ensures var (t, ok) := CompleteUpload(s, id, matches);
            && (ok <==> id < |s.media| && s.media[id].status == IntentCreated && s.clock < s.media[id].expiresAt
                        && matches)
            && (!ok ==> t == s)
            && (ok ==> ClaimMedia(cfg, t, Request(id, s.media[id].listing, s.media[id].version)).1
                       == Claimed(|s.claims|))
  {
    var (t, ok) := CompleteUpload(s, id, matches);
    if ok {
      var key := Key(id, s.media[id].version);
      StepKeeps(cfg, s, Complete(id, matches));
      NoEvidenceBefore(cfg, s, key);
      hide Inv, Continues;
    }
  }

  lemma NoEvidenceBefore(cfg: Settings, s: State, key: Key)
    requires Inv(cfg, s) && key.media < |s.media| && s.media[key.media].status == IntentCreated
    ensures key !in s.evidence
  {
    assert forall k | k in s.evidence :: RowAgrees(s, k);
    hide ClaimsAgree, EventsAgree, DerivativesAgree;
  }

  /** A removed image is out of reach at once: no request for it is granted and no holder can settle
      it; other images are as they were. */
  lemma RemovalExactly(cfg: Settings, s: State, id: Id, r: Request, token: Id)
    requires id < |s.media|
    ensures var t := RemoveMedia(s, id);
            && |t.media| == |s.media| && t.media[id].status == Removed && t == s.(media := t.media)
            && t.media[id] == (if s.media[id].status == Removed then s.media[id]
                               else s.media[id].(status := Removed, removedAt := Some(s.clock)))
            && (forall m | 0 <= m < |s.media| && m != id :: t.media[m] == s.media[m])
            && (r.media == id ==> ClaimMedia(cfg, t, r) == (t, StaleRequest))
            && (token < |s.claims| && s.claims[token].key.media == id ==> !HoldsClaim(t, token))
  {}
}
