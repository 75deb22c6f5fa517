/** Leased processing of uploaded listing images by competing workers.

    Workers claim a media row under a lease, work outside any transaction, and come back with a
    claim token. Every claim ever handed out is kept in `claims` (its index is its token), so
    that late, crashed and repeated workers are part of the model. */
module MediaProcessing {
  import opened Core

  datatype MediaStatus =
    IntentCreated | Processing | Scanning | ModerationPending | Rejected | Removed | Expired | Failed

  datatype Kind = Thumbnail | Medium | Large

  /** Evidence and derivative rows are unique per media row and processing version. */
  datatype Key = Key(media: Id, version: nat)

  datatype Media = Media(
    listing: Id,
    expiresAt: Time,
    version: nat,
    status: MediaStatus,
    failure: Option<nat>,
    completedAt: Option<Time>,
    processedAt: Option<Time>,
    removedAt: Option<Time>)

  datatype Evidence = Evidence(
    status: MediaStatus,
    attemptCount: nat,
    token: Option<Id>,
    claimedAt: Time,
    leaseExpiresAt: Time,
    details: Option<nat>,
    failure: Option<nat>,
    completedAt: Option<Time>)

  datatype Rendition = Rendition(kind: Kind, content: nat)
  datatype Derivative = Derivative(key: Key, kind: Kind, content: nat)

  /** A "media.sanitization.<state>" outbox row. */
  datatype Terminal = Terminal(key: Key, state: MediaStatus)

  /** `until` is when the claim stopped or stops excluding others: its lease, or its release. */
  datatype Claim = Claim(key: Key, attempt: nat, claimedAt: Time, until: Time, released: bool)

  datatype State = State(
    clock: Time,
    media: seq<Media>,
    evidence: map<Key, Evidence>,
    derivatives: seq<Derivative>,
    events: seq<Terminal>,
    claims: seq<Claim>)

  datatype Settings = Settings(leaseSeconds: nat, maxAttempts: nat)

  datatype Request = Request(media: Id, listing: Id, version: nat)
  datatype ClaimResult = Claimed(token: Id) | StaleRequest | InProgress
  datatype WorkerResult = Completed | Stale | Retry

  predicate IsTerminal(status: MediaStatus) {
    status in {ModerationPending, Rejected, Failed}
  }

  // -------------------------------------------------------------------- transactions

  function CompleteUpload(s: State, id: Id, matches: bool): (State, bool) {
    if id >= |s.media| then (s, false)
    else
      var m := s.media[id];
      if m.status != IntentCreated || m.expiresAt <= s.clock || !matches then (s, false)
      else (s.(media := s.media[id := m.(status := Processing, completedAt := Some(s.clock))]), true)
  }

  function RemoveMedia(s: State, id: Id): State {
    if id >= |s.media| || s.media[id].status == Removed then s
    else s.(media := s.media[id := s.media[id].(status := Removed, removedAt := Some(s.clock))])
  }

  predicate RequestIsCurrent(s: State, r: Request) {
    && r.media < |s.media|
    && s.media[r.media].listing == r.listing
    && s.media[r.media].version == r.version
    && s.media[r.media].status in {Processing, Scanning}
  }

  function ClaimMedia(cfg: Settings, s: State, r: Request): (State, ClaimResult) {
    var key := Key(r.media, r.version);
    if !RequestIsCurrent(s, r) then (s, StaleRequest)
    else if key in s.evidence && s.evidence[key].status != Processing then (s, StaleRequest)
    else if key in s.evidence && s.evidence[key].leaseExpiresAt > s.clock then (s, InProgress)
    else
      var token := |s.claims|;
      var until := s.clock + cfg.leaseSeconds;
      var row := if key in s.evidence
                 then s.evidence[key].(attemptCount := s.evidence[key].attemptCount + 1, token := Some(token),
                                       claimedAt := s.clock, leaseExpiresAt := until)
                 else Evidence(Processing, 1, Some(token), s.clock, until, None, None, None);
      (s.(media := s.media[r.media := s.media[r.media].(status := Scanning)],
          evidence := s.evidence[key := row],
          claims := s.claims + [Claim(key, row.attemptCount, s.clock, until, false)]),
       Claimed(token))
  }

  /** `_lock_current_claim`: the token is still the one on the evidence row. */
  predicate HoldsClaim(s: State, token: Id) {
    && token < |s.claims|
    && var key := s.claims[token].key;
    && key.media < |s.media| && s.media[key.media].version == key.version
    && s.media[key.media].status in {Processing, Scanning}
    && key in s.evidence && s.evidence[key].status == Processing && s.evidence[key].token == Some(token)
  }

  function DerivativeRows(key: Key, sanitized: seq<Rendition>): seq<Derivative> {
    if sanitized == [] then []
    else DerivativeRows(key, sanitized[..|sanitized| - 1])
         + [Derivative(key, sanitized[|sanitized| - 1].kind, sanitized[|sanitized| - 1].content)]
  }

  /** Evidence, media row and outbox move together. */
  function Finish(s: State, key: Key, state: MediaStatus, failure: Option<nat>, details: nat,
      rows: seq<Derivative>): State
    requires key in s.evidence && key.media < |s.media|
  {
    s.(media := s.media[key.media := s.media[key.media].(status := state, failure := failure,
        processedAt := Some(s.clock))],
       evidence := s.evidence[key := s.evidence[key].(status := state, failure := failure, details := Some(details),
                                                      token := None, completedAt := Some(s.clock))],
       derivatives := s.derivatives + rows,
       events := s.events + [Terminal(key, state)])
  }

  function FinalizeSuccess(s: State, token: Id, details: nat, sanitized: seq<Rendition>): (State, bool) {
    if !HoldsClaim(s, token) then (s, false)
    else
      var key := s.claims[token].key;
      (Finish(s, key, ModerationPending, None, details, DerivativeRows(key, sanitized)), true)
  }

  function FinalizeFailure(s: State, token: Id, details: nat, state: MediaStatus, failure: nat): (State, bool) {
    if !HoldsClaim(s, token) then (s, false)
    else (Finish(s, s.claims[token].key, state, Some(failure), details, []), true)
  }

  function Max(a: int, b: int): int { if a >= b then a else b }

  /** Gives the claim back before its lease is over. */
  function Release(s: State, token: Id, details: nat): State
    requires HoldsClaim(s, token)
  {
    var c := s.claims[token];
    s.(media := s.media[c.key.media := s.media[c.key.media].(status := Processing)],
       evidence := s.evidence[c.key := s.evidence[c.key].(details := Some(details), token := None,
           leaseExpiresAt := s.clock)],
       claims := s.claims[token := c.(until := s.clock, released := true)])
  }

  function RetryOrFail(cfg: Settings, s: State, token: Id, details: nat, receiveCount: nat, failure: nat): (State,
      WorkerResult) {
    if token >= |s.claims| then (s, Stale)
    else if Max(s.claims[token].attempt, receiveCount) >= cfg.maxAttempts then
      (FinalizeFailure(s, token, details, Failed, failure).0, Retry)
    else if !HoldsClaim(s, token) then (s, Stale)
    else (Release(s, token, details), Retry)
  }

  // -------------------------------------------------------------------- runs

  datatype Action =
    | CreateIntent(row: Media)
    | Complete(id: Id, matches: bool)
    | Remove(id: Id)
    | TakeClaim(request: Request)
    | Succeed(token: Id, details: nat, thumbnail: nat, medium: nat, large: nat)
    | Reject(token: Id, details: nat, failure: nat)
    | GiveUp(token: Id, details: nat, failure: nat)
    | Trouble(token: Id, details: nat, receiveCount: nat, failure: nat)
    | Tick(seconds: nat)

  /** What the sanitizer returns: one rendition of each size, smallest first. */
  function Sanitized(thumbnail: nat, medium: nat, large: nat): seq<Rendition> {
    [Rendition(Thumbnail, thumbnail), Rendition(Medium, medium), Rendition(Large, large)]
  }

  function Step(cfg: Settings, s: State, a: Action): State {
    match a
    case CreateIntent(m) => s.(media := s.media + [m.(status := IntentCreated)])
    case Complete(id, matches) => CompleteUpload(s, id, matches).0
    case Remove(id) => RemoveMedia(s, id)
    case TakeClaim(r) => ClaimMedia(cfg, s, r).0
    case Succeed(token, details, t, m, l) => FinalizeSuccess(s, token, details, Sanitized(t, m, l)).0
    case Reject(token, details, failure) => FinalizeFailure(s, token, details, Rejected, failure).0
    case GiveUp(token, details, failure) => FinalizeFailure(s, token, details, Failed, failure).0
    case Trouble(token, details, count, failure) => RetryOrFail(cfg, s, token, details, count, failure).0
    case Tick(d) => s.(clock := s.clock + d)
  }

  function Run(cfg: Settings, s: State, actions: seq<Action>): State
    decreases |actions|
  {
    if actions == [] then s else Run(cfg, Step(cfg, s, actions[0]), actions[1..])
  }

  function Initial(clock: Time): State {
    State(clock, [], map[], [], [], [])
  }

  // -------------------------------------------------------------------- invariant

  ghost predicate RowAgrees(s: State, k: Key)
    requires k in s.evidence
  {
    && k.media < |s.media|
    && s.media[k.media].version == k.version
    && var status := s.evidence[k].status;
    && (status == Processing || IsTerminal(status))
    && (IsTerminal(status) ==> s.media[k.media].status in {status, Removed} && s.evidence[k].token.None?)
    && (status == Processing ==> s.media[k.media].status in {Processing, Scanning, Removed})
  }

  ghost predicate MediaAgrees(s: State) {
    && (forall k | k in s.evidence :: RowAgrees(s, k))
    && (forall m | 0 <= m < |s.media| && IsTerminal(s.media[m].status) :: Key(m, s.media[m].version) in s.evidence)
  }

  /** The row's token names the latest claim; a released row may be tried again. */
  ghost predicate RowClaimed(cfg: Settings, s: State, k: Key)
    requires k in s.evidence
  {
    && var row := s.evidence[k];
    && row.attemptCount >= 1
    && (forall i | 0 <= i < |s.claims| && s.claims[i].key == k ::
          && 1 <= s.claims[i].attempt <= row.attemptCount
          && (row.status == Processing ==> s.claims[i].until <= row.leaseExpiresAt))
    && (row.token.Some? ==>
          && row.token.value < |s.claims| && s.claims[row.token.value].key == k
          && s.claims[row.token.value].attempt == row.attemptCount && !s.claims[row.token.value].released
          && s.claims[row.token.value].until == row.leaseExpiresAt)
    && (row.status == Processing && row.token.None? ==>
          row.attemptCount < cfg.maxAttempts && row.leaseExpiresAt <= s.clock)
  }

  ghost predicate ClaimValid(cfg: Settings, s: State, c: Claim) {
    && c.key in s.evidence && c.claimedAt <= s.clock && c.claimedAt <= c.until
    && (if c.released then c.attempt < cfg.maxAttempts && c.until <= s.clock
        else c.until == c.claimedAt + cfg.leaseSeconds)
  }

  /** Claims on one row exclude each other in time and are numbered in order. */
  ghost predicate Exclusive(claims: seq<Claim>) {
    forall i, j | 0 <= i < j < |claims| && claims[i].key == claims[j].key ::
      claims[i].attempt < claims[j].attempt && claims[i].until <= claims[j].claimedAt
  }

  ghost predicate ClaimsAgree(cfg: Settings, s: State) {
    && (forall k | k in s.evidence :: RowClaimed(cfg, s, k))
    && (forall i | 0 <= i < |s.claims| :: ClaimValid(cfg, s, s.claims[i]))
    && Exclusive(s.claims)
  }

  ghost predicate HasEvent(events: seq<Terminal>, k: Key, state: MediaStatus) {
    exists i :: 0 <= i < |events| && events[i] == Terminal(k, state)
  }

  /** One terminal event per settled row, none for any other. */
  ghost predicate EventsAgree(s: State) {
    && (forall i | 0 <= i < |s.events| ::
          && s.events[i].key in s.evidence && IsTerminal(s.events[i].state)
          && s.evidence[s.events[i].key].status == s.events[i].state)
    && (forall i, j | 0 <= i < |s.events| && 0 <= j < |s.events| && i != j :: s.events[i].key != s.events[j].key)
    && (forall k | k in s.evidence && IsTerminal(s.evidence[k].status) :: HasEvent(s.events, k, s.evidence[k].status))
  }

  ghost predicate HasDerivative(rows: seq<Derivative>, k: Key, kind: Kind) {
    exists i :: 0 <= i < |rows| && rows[i].key == k && rows[i].kind == kind
  }

  /** Either no derivative row at all, or one of each kind, the latter exactly for images that
      reached moderation. */
  ghost predicate DerivativesAgree(s: State) {
    && (forall i | 0 <= i < |s.derivatives| ::
          s.derivatives[i].key in s.evidence && s.evidence[s.derivatives[i].key].status == ModerationPending)
    && (forall i, j | 0 <= i < |s.derivatives| && 0 <= j < |s.derivatives| && i != j ::
          s.derivatives[i].key != s.derivatives[j].key || s.derivatives[i].kind != s.derivatives[j].kind)
    && (forall k, kind | k in s.evidence && s.evidence[k].status == ModerationPending ::
        HasDerivative(s.derivatives, k, kind))
  }

  ghost predicate Inv(cfg: Settings, s: State) {
    MediaAgrees(s) && ClaimsAgree(cfg, s) && EventsAgree(s) && DerivativesAgree(s)
  }

  // -------------------------------------------------------------------- what one step may do

  ghost predicate ClaimContinues(c: Claim, d: Claim) {
    d == c || (!c.released && d == c.(until := d.until, released := true))
  }

  ghost predicate MediaContinues(m: Media, n: Media) {
    && n.listing == m.listing && n.version == m.version
    && (m.status == Removed ==> n == m)
    && (IsTerminal(m.status) ==> n.status in {m.status, Removed})
  }

  ghost predicate EvidenceContinues(a: map<Key, Evidence>, b: map<Key, Evidence>) {
    forall k | k in a :: k in b && a[k].attemptCount <= b[k].attemptCount && (IsTerminal(a[k].status) ==> b[k] == a[k])
  }

  /** New terminal events concern images that had not been removed. */
  ghost predicate EventsContinue(s: State, t: State) {
    && s.events <= t.events
    && forall i | |s.events| <= i < |t.events| && t.events[i].key.media < |s.media| ::
         s.media[t.events[i].key.media].status != Removed
  }

  ghost predicate Continues(s: State, t: State) {
    && s.clock <= t.clock
    && |s.media| <= |t.media| && (forall m | 0 <= m < |s.media| :: MediaContinues(s.media[m], t.media[m]))
    && EvidenceContinues(s.evidence, t.evidence)
    && s.derivatives <= t.derivatives
    && EventsContinue(s, t)
    && |s.claims| <= |t.claims| && (forall i | 0 <= i < |s.claims| :: ClaimContinues(s.claims[i], t.claims[i]))
  }

  // -------------------------------------------------------------------- one step

  lemma FinishStep(cfg: Settings, s: State, key: Key, state: MediaStatus, failure: Option<nat>, details: nat,
      rows: seq<Derivative>)
    requires Inv(cfg, s) && key in s.evidence && s.evidence[key].status == Processing && IsTerminal(state)
    requires key.media < |s.media| && s.media[key.media].version == key.version
    requires s.media[key.media].status in {Processing, Scanning}
    requires state != ModerationPending ==> rows == []
    requires state == ModerationPending ==>
               && |rows| == 3 && (forall i | 0 <= i < 3 :: rows[i].key == key)
               && rows[0].kind == Thumbnail && rows[1].kind == Medium && rows[2].kind == Large
    ensures Inv(cfg, Finish(s, key, state, failure, details, rows))
    ensures Continues(s, Finish(s, key, state, failure, details, rows))
  {
    FinishClaims(cfg, s, key, state, failure, details, rows);
    FinishEvents(s, key, state, failure, details, rows);
    FinishDerivatives(s, key, state, failure, details, rows);
    FinishMedia(s, key, state, failure, details, rows);
    hide ClaimsAgree, EventsAgree, DerivativesAgree, MediaAgrees, Continues, Finish;
  }

  lemma FinishMedia(s: State, key: Key, state: MediaStatus, failure: Option<nat>, details: nat, rows: seq<Derivative>)
    requires MediaAgrees(s) && key in s.evidence && s.evidence[key].status == Processing && IsTerminal(state)
    requires key.media < |s.media| && s.media[key.media].version == key.version
    requires s.media[key.media].status in {Processing, Scanning}
    ensures MediaAgrees(Finish(s, key, state, failure, details, rows))
    ensures Continues(s, Finish(s, key, state, failure, details, rows))
  {
    var t := Finish(s, key, state, failure, details, rows);
    assert MediaAgrees(t) by {
      hide Continues;
      forall k | k in t.evidence ensures RowAgrees(t, k) { assert RowAgrees(s, k); }
    }
    hide MediaAgrees;
  }

  lemma FinishClaims(cfg: Settings, s: State, key: Key, state: MediaStatus, failure: Option<nat>, details: nat,
      rows: seq<Derivative>)
    requires ClaimsAgree(cfg, s) && key in s.evidence && key.media < |s.media| && IsTerminal(state)
    ensures ClaimsAgree(cfg, Finish(s, key, state, failure, details, rows))
  {
    var t := Finish(s, key, state, failure, details, rows);
    hide Exclusive;
    forall k | k in t.evidence ensures RowClaimed(cfg, t, k) { assert RowClaimed(cfg, s, k); }
    forall i | 0 <= i < |t.claims| ensures ClaimValid(cfg, t, t.claims[i]) { assert ClaimValid(cfg, s, s.claims[i]); }
  }

  lemma FinishEvents(s: State, key: Key, state: MediaStatus, failure: Option<nat>, details: nat, rows: seq<Derivative>)
    requires EventsAgree(s) && key in s.evidence && s.evidence[key].status == Processing && key.media < |s.media|
        && IsTerminal(state)
    ensures EventsAgree(Finish(s, key, state, failure, details, rows))
  {
    var t := Finish(s, key, state, failure, details, rows);
    forall k | k in t.evidence && IsTerminal(t.evidence[k].status) ensures HasEvent(t.events, k, t.evidence[k].status) {
      if k == key {
        assert t.events[|s.events|] == Terminal(k, state);
      } else {
        var i :| 0 <= i < |s.events| && s.events[i] == Terminal(k, s.evidence[k].status);
        assert t.events[i] == s.events[i];
      }
    }
  }

  lemma FinishDerivatives(s: State, key: Key, state: MediaStatus, failure: Option<nat>, details: nat,
      rows: seq<Derivative>)
    requires DerivativesAgree(s) && key in s.evidence && s.evidence[key].status == Processing && key.media < |s.media|
    requires state != ModerationPending ==> rows == []
    requires state == ModerationPending ==>
               && |rows| == 3 && (forall i | 0 <= i < 3 :: rows[i].key == key)
               && rows[0].kind == Thumbnail && rows[1].kind == Medium && rows[2].kind == Large
    ensures DerivativesAgree(Finish(s, key, state, failure, details, rows))
  {
    var t := Finish(s, key, state, failure, details, rows);
    var n := |s.derivatives|;
    forall k, kind | k in t.evidence && t.evidence[k].status == ModerationPending
        ensures HasDerivative(t.derivatives, k, kind) {
      if k == key {
        assert t.derivatives[n] == rows[0] && t.derivatives[n + 1] == rows[1] && t.derivatives[n + 2] == rows[2];
      } else {
        assert HasDerivative(s.derivatives, k, kind);
        var i :| 0 <= i < |s.derivatives| && s.derivatives[i].key == k && s.derivatives[i].kind == kind;
        assert t.derivatives[i] == s.derivatives[i];
      }
    }
  }

  lemma ClaimStep(cfg: Settings, s: State, r: Request)
    requires Inv(cfg, s)
    ensures Inv(cfg, ClaimMedia(cfg, s, r).0) && Continues(s, ClaimMedia(cfg, s, r).0)
  {
    hide ClaimsAgree, EventsAgree, DerivativesAgree, MediaAgrees, Continues, RequestIsCurrent;
    ContinuesReflexive(s);
    var t := ClaimMedia(cfg, s, r).0;
    if ClaimMedia(cfg, s, r).1.Claimed? {
      ClaimKeepsClaims(cfg, s, r);
      ClaimKeepsMedia(cfg, s, r);
      OutputsKept(s, t);
    }
  }

  lemma ContinuesReflexive(s: State)
    ensures Continues(s, s)
  {}

  /** Events and derivatives depend on nothing but the status of the evidence rows. */
  ghost predicate SameOutputs(s: State, t: State) {
    && t.events == s.events && t.derivatives == s.derivatives
    && (forall k | k in s.evidence :: k in t.evidence && t.evidence[k].status == s.evidence[k].status)
    && (forall k | k in t.evidence && k !in s.evidence :: t.evidence[k].status == Processing)
  }

  lemma OutputsKept(s: State, t: State)
    requires EventsAgree(s) && DerivativesAgree(s) && SameOutputs(s, t)
    ensures EventsAgree(t) && DerivativesAgree(t)
  {
    assert EventsAgree(t) by { hide DerivativesAgree; }
    hide EventsAgree;
  }

  lemma ClaimKeepsMedia(cfg: Settings, s: State, r: Request)
    requires MediaAgrees(s) && ClaimMedia(cfg, s, r).1.Claimed?
    ensures MediaAgrees(ClaimMedia(cfg, s, r).0) && Continues(s, ClaimMedia(cfg, s, r).0)
    ensures SameOutputs(s, ClaimMedia(cfg, s, r).0)
  {
    var t := ClaimMedia(cfg, s, r).0;
    assert MediaAgrees(t) by {
      hide Continues;
      forall k | k in t.evidence ensures RowAgrees(t, k) { assert k != Key(r.media, r.version) ==> RowAgrees(s, k); }
    }
    hide MediaAgrees;
  }

  /** What the rows and claims of a key look like just before it is claimed. */
  lemma ClaimableKey(cfg: Settings, s: State, r: Request)
    requires ClaimsAgree(cfg, s) && ClaimMedia(cfg, s, r).1.Claimed?
    ensures var key := Key(r.media, r.version);
            && (key in s.evidence ==> s.evidence[key].status == Processing && s.evidence[key].leaseExpiresAt <= s.clock)
            && forall i | 0 <= i < |s.claims| && s.claims[i].key == key ::
                 key in s.evidence && 1 <= s.claims[i].attempt <= s.evidence[key].attemptCount
                     && s.claims[i].until <= s.clock
  {
    var key := Key(r.media, r.version);
    if key in s.evidence { assert RowClaimed(cfg, s, key); }
    forall i | 0 <= i < |s.claims| && s.claims[i].key == key ensures key in s.evidence {
      assert ClaimValid(cfg, s, s.claims[i]);
    }
  }

  /** A claim adds itself and renews its row. */
  lemma ClaimAdds(cfg: Settings, s: State, r: Request)
    requires ClaimMedia(cfg, s, r).1.Claimed?
    ensures var t := ClaimMedia(cfg, s, r).0;
            var key := Key(r.media, r.version);
            && key in t.evidence
            && var row := t.evidence[key];
            && t.clock == s.clock && t.evidence == s.evidence[key := row]
            && t.claims == s.claims + [Claim(key, row.attemptCount, s.clock, s.clock + cfg.leaseSeconds, false)]
            && row.status == Processing && row.token == Some(|s.claims|)
            && row.leaseExpiresAt == s.clock + cfg.leaseSeconds
            && row.attemptCount == (if key in s.evidence then s.evidence[key].attemptCount + 1 else 1)
  {}

  lemma ClaimKeepsRows(cfg: Settings, s: State, r: Request)
    requires (forall k | k in s.evidence :: RowClaimed(cfg, s, k)) && ClaimMedia(cfg, s, r).1.Claimed?
    requires forall i | 0 <= i < |s.claims| && s.claims[i].key == Key(r.media, r.version) ::
               && s.claims[i].key in s.evidence && s.claims[i].until <= s.clock
               && 1 <= s.claims[i].attempt <= s.evidence[s.claims[i].key].attemptCount
    ensures var t := ClaimMedia(cfg, s, r).0; forall k | k in t.evidence :: RowClaimed(cfg, t, k)
  {
    ClaimAdds(cfg, s, r);
    hide ClaimMedia;
    var t := ClaimMedia(cfg, s, r).0;
    forall k | k in t.evidence ensures RowClaimed(cfg, t, k) {
      assert k in s.evidence ==> RowClaimed(cfg, s, k);
    }
  }

  lemma ClaimKeepsClaims(cfg: Settings, s: State, r: Request)
    requires ClaimsAgree(cfg, s) && ClaimMedia(cfg, s, r).1.Claimed?
    ensures ClaimsAgree(cfg, ClaimMedia(cfg, s, r).0)
  {
    var t := ClaimMedia(cfg, s, r).0;
    ClaimAdds(cfg, s, r);
    ClaimableKey(cfg, s, r);
    ClaimKeepsRows(cfg, s, r);
    hide ClaimMedia, RowClaimed;
    assert Exclusive(t.claims) by { hide ClaimValid; }
    hide Exclusive;
    forall i | 0 <= i < |t.claims| ensures ClaimValid(cfg, t, t.claims[i]) {
      assert i < |s.claims| ==> ClaimValid(cfg, s, s.claims[i]);
    }
  }

  lemma ReleaseStep(cfg: Settings, s: State, token: Id, details: nat)
    requires Inv(cfg, s) && HoldsClaim(s, token) && s.claims[token].attempt < cfg.maxAttempts
    ensures Inv(cfg, Release(s, token, details)) && Continues(s, Release(s, token, details))
  {
    ReleaseKeepsClaims(cfg, s, token, details);
    ReleaseKeepsMedia(cfg, s, token, details);
    hide ClaimsAgree, EventsAgree, DerivativesAgree, MediaAgrees, Continues, HoldsClaim, Release;
    OutputsKept(s, Release(s, token, details));
  }

  lemma ReleaseKeepsMedia(cfg: Settings, s: State, token: Id, details: nat)
    requires MediaAgrees(s) && ClaimsAgree(cfg, s) && HoldsClaim(s, token)
    ensures MediaAgrees(Release(s, token, details)) && Continues(s, Release(s, token, details))
    ensures SameOutputs(s, Release(s, token, details))
  {
    assert !s.claims[token].released by {
      hide MediaAgrees, Continues, SameOutputs, Release;
      assert RowClaimed(cfg, s, s.claims[token].key);
    }
    hide ClaimsAgree;
    ReleaseContinues(s, token, details);
    hide Continues, SameOutputs;
    var t := Release(s, token, details);
    forall k | k in t.evidence ensures RowAgrees(t, k) { assert RowAgrees(s, k); }
  }

  lemma ReleaseContinues(s: State, token: Id, details: nat)
    requires HoldsClaim(s, token) && !s.claims[token].released
    ensures Continues(s, Release(s, token, details)) && SameOutputs(s, Release(s, token, details))
  {}

  lemma ReleaseKeepsClaims(cfg: Settings, s: State, token: Id, details: nat)
    requires ClaimsAgree(cfg, s) && HoldsClaim(s, token) && s.claims[token].attempt < cfg.maxAttempts
    ensures ClaimsAgree(cfg, Release(s, token, details))
  {
    var t := Release(s, token, details);
    var key := s.claims[token].key;
    assert RowClaimed(cfg, s, key) && ClaimValid(cfg, s, s.claims[token]);
    forall i | 0 <= i < |t.claims| ensures ClaimValid(cfg, t, t.claims[i]) { assert ClaimValid(cfg, s, s.claims[i]); }
    forall i | 0 <= i < |s.claims| && s.claims[i].key == key ensures i <= token {
      assert s.claims[i].attempt <= s.evidence[key].attemptCount;
    }
    forall k | k in t.evidence ensures RowClaimed(cfg, t, k) { assert RowClaimed(cfg, s, k); }
  }

  lemma FinalizeStep(cfg: Settings, s: State, token: Id, details: nat, state: MediaStatus, failure: Option<nat>,
      sanitized: seq<Rendition>)
    requires Inv(cfg, s) && HoldsClaim(s, token) && IsTerminal(state)
    requires if state == ModerationPending then
               && |sanitized| == 3
               && sanitized[0].kind == Thumbnail && sanitized[1].kind == Medium && sanitized[2].kind == Large
             else sanitized == []
    ensures var t := Finish(s, s.claims[token].key, state, failure, details,
        DerivativeRows(s.claims[token].key, sanitized));
            Inv(cfg, t) && Continues(s, t)
  {
    hide Inv, Continues, Finish, DerivativeRows;
    DerivativeRowsMatch(s.claims[token].key, sanitized);
    FinishStep(cfg, s, s.claims[token].key, state, failure, details, DerivativeRows(s.claims[token].key, sanitized));
  }

  lemma {:induction false} DerivativeRowsMatch(key: Key, sanitized: seq<Rendition>)
    ensures var rows := DerivativeRows(key, sanitized);
            |rows| == |sanitized| && forall i | 0 <= i < |rows| ::
                rows[i] == Derivative(key, sanitized[i].kind, sanitized[i].content)
  {
    if sanitized != [] { DerivativeRowsMatch(key, sanitized[..|sanitized| - 1]); }
  }

  lemma UploadKeepsMedia(s: State, id: Id, m: Media)
    requires MediaAgrees(s) && id < |s.media| && m.version == s.media[id].version
    requires m.status == Removed || (s.media[id].status == IntentCreated && m.status == Processing)
    ensures MediaAgrees(s.(media := s.media[id := m]))
  {
    var t := s.(media := s.media[id := m]);
    forall k | k in t.evidence ensures RowAgrees(t, k) { assert RowAgrees(s, k); }
  }

  lemma UploadStep(cfg: Settings, s: State, id: Id, m: Media)
    requires Inv(cfg, s) && id < |s.media| && m.listing == s.media[id].listing && m.version == s.media[id].version
    requires s.media[id].status != Removed && (m.status == Removed
        || (s.media[id].status == IntentCreated && m.status == Processing))
    ensures Inv(cfg, s.(media := s.media[id := m])) && Continues(s, s.(media := s.media[id := m]))
  {
    var t := s.(media := s.media[id := m]);
    SameClaims(cfg, s, t);
    OutputsKept(s, t);
    UploadKeepsMedia(s, id, m);
    hide ClaimsAgree, EventsAgree, DerivativesAgree, MediaAgrees;
  }

  lemma SameClaims(cfg: Settings, s: State, t: State)
    requires ClaimsAgree(cfg, s) && t.claims == s.claims && t.evidence == s.evidence && s.clock <= t.clock
    ensures ClaimsAgree(cfg, t)
  {
    forall k | k in t.evidence ensures RowClaimed(cfg, t, k) { assert RowClaimed(cfg, s, k); }
    forall i | 0 <= i < |t.claims| ensures ClaimValid(cfg, t, t.claims[i]) { assert ClaimValid(cfg, s, s.claims[i]); }
  }

  lemma TickStep(cfg: Settings, s: State, seconds: nat)
    requires Inv(cfg, s)
    ensures Inv(cfg, s.(clock := s.clock + seconds)) && Continues(s, s.(clock := s.clock + seconds))
  {
    var t := s.(clock := s.clock + seconds);
    SameClaims(cfg, s, t);
    hide ClaimsAgree;
    OutputsKept(s, t);
    hide EventsAgree, DerivativesAgree;
    assert forall k | k in s.evidence :: RowAgrees(s, k);
  }

  lemma IntentStep(cfg: Settings, s: State, m: Media)
    requires Inv(cfg, s) && m.status == IntentCreated
    ensures Inv(cfg, s.(media := s.media + [m])) && Continues(s, s.(media := s.media + [m]))
  {
    var t := s.(media := s.media + [m]);
    SameClaims(cfg, s, t);
    hide ClaimsAgree;
    OutputsKept(s, t);
    hide EventsAgree, DerivativesAgree;
    assert forall k | k in s.evidence :: RowAgrees(s, k);
  }

  lemma WorkerStep(cfg: Settings, s: State, a: Action)
    requires Inv(cfg, s) && (a.Succeed? || a.Reject? || a.GiveUp? || a.Trouble?)
    ensures Inv(cfg, Step(cfg, s, a)) && Continues(s, Step(cfg, s, a))
  {
    hide Inv, Continues, Finish, Release, DerivativeRows;
    ContinuesReflexive(s);
    if a.token < |s.claims| && HoldsClaim(s, a.token) {
      assert DerivativeRows(s.claims[a.token].key, []) == [] by { DerivativeRowsMatch(s.claims[a.token].key, []); }
      match a
      case Succeed(token, details, t, m, l) =>
        FinalizeStep(cfg, s, token, details, ModerationPending, None, Sanitized(t, m, l));
      case Reject(token, details, failure) => FinalizeStep(cfg, s, token, details, Rejected, Some(failure), []);
      case GiveUp(token, details, failure) => FinalizeStep(cfg, s, token, details, Failed, Some(failure), []);
      case Trouble(token, details, count, failure) =>
        if s.claims[token].attempt < cfg.maxAttempts { ReleaseStep(cfg, s, token, details); }
        FinalizeStep(cfg, s, token, details, Failed, Some(failure), []);
    }
  }

  lemma StepKeeps(cfg: Settings, s: State, a: Action)
    requires Inv(cfg, s)
    ensures Inv(cfg, Step(cfg, s, a)) && Continues(s, Step(cfg, s, a))
  {
    hide Inv, Continues, ClaimMedia, FinalizeSuccess, FinalizeFailure, RetryOrFail;
    ContinuesReflexive(s);
    match a
    case CreateIntent(m) => IntentStep(cfg, s, m.(status := IntentCreated));
    case Complete(id, matches) =>
      if CompleteUpload(s, id, matches).1 {
        UploadStep(cfg, s, id, s.media[id].(status := Processing, completedAt := Some(s.clock)));
      }
    case Remove(id) =>
      if id < |s.media| && s.media[id].status != Removed {
        UploadStep(cfg, s, id, s.media[id].(status := Removed, removedAt := Some(s.clock)));
      }
    case TakeClaim(r) => ClaimStep(cfg, s, r);
    case Tick(d) => TickStep(cfg, s, d);
    case _ => WorkerStep(cfg, s, a);
  }

  lemma ContinuesTransitive(s: State, t: State, u: State)
    requires Continues(s, t) && Continues(t, u)
    ensures Continues(s, u)
  {
    forall m | 0 <= m < |s.media| ensures MediaContinues(s.media[m], u.media[m]) {
      assert MediaContinues(s.media[m], t.media[m]) && MediaContinues(t.media[m], u.media[m]);
    }
    forall i | 0 <= i < |s.claims| ensures ClaimContinues(s.claims[i], u.claims[i]) {
      assert ClaimContinues(s.claims[i], t.claims[i]) && ClaimContinues(t.claims[i], u.claims[i]);
    }
    assert EventsContinue(s, u) by {
      forall i | |s.events| <= i < |u.events| && u.events[i].key.media < |s.media|
        ensures s.media[u.events[i].key.media].status != Removed
      {
        assert MediaContinues(s.media[u.events[i].key.media], t.media[u.events[i].key.media]);
        assert i < |t.events| ==> t.events[i] == u.events[i];
      }
    }
  }

  /** Every interleaving of claims, crashes (a worker that never comes back takes no step), lease
      expiries, removals and late finalizations keeps the invariant and rewrites nothing final. */
  lemma {:induction false} RunKeeps(cfg: Settings, s: State, actions: seq<Action>)
    requires Inv(cfg, s)
    ensures Inv(cfg, Run(cfg, s, actions)) && Continues(s, Run(cfg, s, actions))
    decreases |actions|
  {
    hide Step, Inv, Continues;
    if actions == [] {
      ContinuesReflexive(s);
    } else {
      StepKeeps(cfg, s, actions[0]);
      RunKeeps(cfg, Step(cfg, s, actions[0]), actions[1..]);
      ContinuesTransitive(s, Step(cfg, s, actions[0]), Run(cfg, s, actions));
    }
  }

  lemma Reachable(cfg: Settings, clock: Time, actions: seq<Action>)
    ensures Inv(cfg, Run(cfg, Initial(clock), actions))
  {
    RunKeeps(cfg, Initial(clock), actions);
  }

  // -------------------------------------------------------------------- what a reader may rely on

  /** At most one terminal event per image version; the evidence it reports never changes again. */
  lemma TerminalOnce(cfg: Settings, clock: Time, before: seq<Action>, after: seq<Action>, i: nat, j: nat)
    requires var s := Run(cfg, Initial(clock), before); i < |s.events|
    requires var t := Run(cfg, Run(cfg, Initial(clock), before), after); j < |t.events|
    ensures var s := Run(cfg, Initial(clock), before);
            var t := Run(cfg, s, after);
            && (t.events[j].key == s.events[i].key ==> i == j && t.events[j] == s.events[i])
            && s.events[i].key in s.evidence && s.events[i].key in t.evidence
                && t.evidence[s.events[i].key] == s.evidence[s.events[i].key]
            && t.evidence[s.events[i].key].status == s.events[i].state
  {
    var s := Run(cfg, Initial(clock), before);
    Reachable(cfg, clock, before);
    RunKeeps(cfg, s, after);
    hide Run, ClaimsAgree, DerivativesAgree, MediaAgrees;
    var t := Run(cfg, s, after);
    assert EventsAgree(s) && EventsAgree(t);
    assert t.events[i] == s.events[i];
  }

  /** An image removed before it settled is never reported afterwards, whatever workers still do. */
  lemma RemovedStaysSilent(cfg: Settings, s: State, id: Id, actions: seq<Action>)
    requires Inv(cfg, s) && id < |s.media| && s.media[id].status == Removed
    ensures var t := Run(cfg, s, actions);
            && id < |t.media| && t.media[id] == s.media[id]
            && s.events <= t.events
            && forall i | |s.events| <= i < |t.events| :: t.events[i].key.media != id
  {
    RunKeeps(cfg, s, actions);
    assert MediaContinues(s.media[id], Run(cfg, s, actions).media[id]);
  }

  /** Once a later claim on the same row exists, the earlier worker can change nothing. */
  lemma LateWorkerIsFenced(cfg: Settings, s: State, token: Id, later: Id, a: Action)
    requires Inv(cfg, s) && token < later < |s.claims| && s.claims[token].key == s.claims[later].key
    requires (a.Succeed? || a.Reject? || a.GiveUp? || a.Trouble?) && a.token == token
    ensures Step(cfg, s, a) == s
  {
    hide EventsAgree, DerivativesAgree, MediaAgrees;
    var key := s.claims[token].key;
    assert ClaimValid(cfg, s, s.claims[token]) && RowClaimed(cfg, s, key);
    assert s.claims[later].attempt <= s.evidence[key].attemptCount;
    hide ClaimsAgree, RowClaimed;
    assert !HoldsClaim(s, token);
    hide HoldsClaim;
  }

  function Releases(claims: seq<Claim>, key: Key): nat {
    if claims == [] then 0
    else
      var last := claims[|claims| - 1];
      Releases(claims[..|claims| - 1], key) + (if last.key == key && last.released then 1 else 0)
  }

  /** Releases are counted by the attempt numbers they carry. */
  lemma {:induction false} ReleasesBelow(claims: seq<Claim>, key: Key, bound: nat)
    requires Exclusive(claims)
    requires forall i | 0 <= i < |claims| && claims[i].key == key :: claims[i].attempt >= 1
    requires forall i | 0 <= i < |claims| && claims[i].key == key && claims[i].released :: claims[i].attempt < bound
    requires bound >= 1
    ensures Releases(claims, key) <= bound - 1
    decreases |claims|
  {
    if claims != [] {
      var n := |claims| - 1;
      var last := claims[n];
      var rest := claims[..n];
      if last.key == key && last.released {
        forall i | 0 <= i < |rest| && rest[i].key == key && rest[i].released ensures rest[i].attempt < last.attempt {
          assert claims[i].key == claims[n].key;
        }
        ReleasesBelow(rest, key, last.attempt);
      } else {
        ReleasesBelow(rest, key, bound);
      }
    }
  }

  /** A claim on one row is given back for another try fewer times than the maximum number of
      attempts. (The worker also answers "retry" when it has just failed the row for good.) */
  lemma RetriesAreBounded(cfg: Settings, clock: Time, actions: seq<Action>, key: Key)
    requires cfg.maxAttempts >= 1
    ensures Releases(Run(cfg, Initial(clock), actions).claims, key) <= cfg.maxAttempts - 1
  {
    Reachable(cfg, clock, actions);
    var s := Run(cfg, Initial(clock), actions);
    hide Run, EventsAgree, DerivativesAgree, MediaAgrees;
    forall i | 0 <= i < |s.claims|
      ensures s.claims[i].attempt >= 1 && (s.claims[i].released ==> s.claims[i].attempt < cfg.maxAttempts)
    {
      assert ClaimValid(cfg, s, s.claims[i]);
      assert RowClaimed(cfg, s, s.claims[i].key);
    }
    ReleasesBelow(s.claims, key, cfg.maxAttempts);
  }

  /** Two claims on one image version never exclude at the same moment: the earlier one's lease
      had run out, or it had been given back, when the later one was taken. */
  lemma LeasesAreDisjoint(cfg: Settings, clock: Time, actions: seq<Action>, i: nat, j: nat, at: Time)
    requires var s := Run(cfg, Initial(clock), actions);
             i < |s.claims| && j < |s.claims| && i != j && s.claims[i].key == s.claims[j].key
    ensures var s := Run(cfg, Initial(clock), actions);
            !(s.claims[i].claimedAt <= at < s.claims[i].until && s.claims[j].claimedAt <= at < s.claims[j].until)
  {
    Reachable(cfg, clock, actions);
    hide Run, EventsAgree, DerivativesAgree, MediaAgrees;
  }

  // -------------------------------------------------------------------- the worker and the upload service

  class MediaProcessor {
    const cfg: Settings
    var clock: Time
    var media: seq<Media>
    var evidence: map<Key, Evidence>
    var derivatives: seq<Derivative>
    var events: seq<Terminal>
    var claims: seq<Claim>

    ghost function Db(): State
      reads this
    {
      State(clock, media, evidence, derivatives, events, claims)
    }

    constructor (cfg: Settings, clock: Time)
      ensures this.cfg == cfg && Db() == Initial(clock)
    {
      this.cfg := cfg;
      this.clock := clock;
      media, evidence, derivatives, events, claims := [], map[], [], [], [];
    }

    method CompleteUploaded(id: Id, matches: bool) returns (ok: bool)
      modifies `media
      ensures (Db(), ok) == CompleteUpload(old(Db()), id, matches)
    {
      if id >= |media| || media[id].status != IntentCreated || media[id].expiresAt <= clock {
        return false;
      }
      if !matches {
        return false;
      }
      media := media[id := media[id].(status := Processing, completedAt := Some(clock))];
      ok := true;
    }

    method Remove(id: Id)
      modifies `media
      ensures Db() == RemoveMedia(old(Db()), id)
    {
      if id < |media| && media[id].status != Removed {
        media := media[id := media[id].(status := Removed, removedAt := Some(clock))];
      }
    }

    method TakeClaim(r: Request) returns (result: ClaimResult)
      modifies `media, `evidence, `claims
      ensures (Db(), result) == ClaimMedia(cfg, old(Db()), r)
    {
      if r.media >= |media| || media[r.media].listing != r.listing || media[r.media].version != r.version
         || media[r.media].status !in {Processing, Scanning} {
        return StaleRequest;
      }
      var key := Key(r.media, r.version);
      var row: Evidence;
      var token := |claims|;
      if key in evidence {
        row := evidence[key];
        if row.status != Processing {
          return StaleRequest;
        }
        if row.leaseExpiresAt > clock {
          return InProgress;
        }
        row := row.(attemptCount := row.attemptCount + 1, token := Some(token));
        row := row.(claimedAt := clock, leaseExpiresAt := clock + cfg.leaseSeconds);
      } else {
        row := Evidence(Processing, 1, Some(token), clock, clock + cfg.leaseSeconds, None, None, None);
      }
      evidence := evidence[key := row];
      media := media[r.media := media[r.media].(status := Scanning)];
      claims := claims + [Claim(key, row.attemptCount, clock, clock + cfg.leaseSeconds, false)];
      result := Claimed(token);
    }

    method LockCurrentClaim(token: Id) returns (current: bool)
      ensures current == HoldsClaim(Db(), token)
    {
      if token >= |claims| {
        return false;
      }
      var key := claims[token].key;
      if key.media >= |media| || key !in evidence || media[key.media].version != key.version {
        return false;
      }
      var row := evidence[key];
      current := media[key.media].status in {Processing, Scanning} && row.status == Processing
          && row.token == Some(token);
    }

    /** Writes the outcome to the evidence and media rows and emits the terminal event. */
    method Settle(key: Key, state: MediaStatus, failure: Option<nat>, details: nat)
      requires key in evidence && key.media < |media|
      modifies `media, `evidence, `events
      ensures Db() == Finish(old(Db()), key, state, failure, details, [])
    {
      var row := evidence[key];
      row := row.(details := Some(details));
      row := row.(status := state, failure := failure, token := None, completedAt := Some(clock));
      evidence := evidence[key := row];
      media := media[key.media := media[key.media].(status := state, failure := failure, processedAt := Some(clock))];
      events := events + [Terminal(key, state)];
    }

    method Succeed(token: Id, details: nat, sanitized: seq<Rendition>) returns (ok: bool)
      modifies `media, `evidence, `derivatives, `events
      ensures (Db(), ok) == FinalizeSuccess(old(Db()), token, details, sanitized)
    {
      ok := LockCurrentClaim(token);
      if ok {
        var key := claims[token].key;
        var i := 0;
        while i < |sanitized|
          invariant 0 <= i <= |sanitized|
          invariant derivatives == old(derivatives) + DerivativeRows(key, sanitized[..i])
          invariant media == old(media) && evidence == old(evidence) && events == old(events)
        {
          assert sanitized[..i + 1][..i] == sanitized[..i];
          derivatives := derivatives + [Derivative(key, sanitized[i].kind, sanitized[i].content)];
          i := i + 1;
        }
        assert sanitized[..i] == sanitized;
        Settle(key, ModerationPending, None, details);
      }
    }

    method Fail(token: Id, details: nat, state: MediaStatus, failure: nat) returns (ok: bool)
      modifies `media, `evidence, `events
      ensures (Db(), ok) == FinalizeFailure(old(Db()), token, details, state, failure)
    {
      ok := LockCurrentClaim(token);
      if ok {
        Settle(claims[token].key, state, Some(failure), details);
      }
    }

    method RetryOrGiveUp(token: Id, details: nat, receiveCount: nat, failure: nat) returns (result: WorkerResult)
      modifies `media, `evidence, `events, `claims
      ensures (Db(), result) == RetryOrFail(cfg, old(Db()), token, details, receiveCount, failure)
    {
      if token >= |claims| {
        return Stale;
      }
      var claim := claims[token];
      if Max(claim.attempt, receiveCount) >= cfg.maxAttempts {
        var ok := Fail(token, details, Failed, failure);
        return Retry;
      }
      var current := LockCurrentClaim(token);
      if !current {
        return Stale;
      }
      var row := evidence[claim.key];
      row := row.(details := Some(details), token := None, leaseExpiresAt := clock);
      evidence := evidence[claim.key := row];
      media := media[claim.key.media := media[claim.key.media].(status := Processing)];
      claims := claims[token := claim.(until := clock, released := true)];
      result := Retry;
    }
  }
}
