/** Password logins, rotating refresh tokens, password changes and recovery.

    Argon2 hashing is salted, so every computed hash is a new row of `hashes`; a row remembers the
    password it was made of. Login and password change work in two transactions with hashing in
    between: what they saw first is kept in `guesses` and `changes`. A refresh token is the
    position of its row (token digests are unique). Times come from one clock. */
module Sessions {
  import opened Core

  datatype AccountStatus = ActiveAccount | SuspendedAccount | DeletedAccount

  /** `failed`, `lockedUntil`: the lockout columns. `resetAt` and `lastFailureAt` record when the
      counter was last zeroed and last raised; no transaction reads them. */
  datatype User = User(
    status: AccountStatus,
    hash: Id,
    failed: nat,
    lockedUntil: Option<Time>,
    authorizationVersion: nat,
    resetAt: Time,
    lastFailureAt: Time)

  /** `epoch` counts the user's password changes and resets; a rehash keeps it. */
  datatype Hash = Hash(user: Id, password: nat, epoch: nat)

  /** `epoch` and `password` record what the login was verified against; no transaction reads them. */
  datatype Family = Family(
    user: Id,
    createdAt: Time,
    lastUsedAt: Time,
    expiresAt: Time,
    revokedAt: Option<Time>,
    reuseDetectedAt: Option<Time>,
    epoch: nat,
    password: nat)

  datatype Session = Session(
    family: Id,
    parent: Option<Id>,
    createdAt: Time,
    expiresAt: Time,
    usedAt: Option<Time>,
    revokedAt: Option<Time>)

  /** `attempts` is never raised by any code. */
  datatype Recovery = Recovery(
    user: Id, expiresAt: Time, consumedAt: Option<Time>, attempts: nat, maxAttempts: nat)

  /** A login between its two transactions. `rehash`: the hash parameters are outdated. */
  datatype Guess = Guess(user: Id, password: nat, hash: Option<Id>, rehash: bool)

  /** A password change between its two transactions. */
  datatype Change = Change(user: Id, current: nat, hash: Option<Id>, replacement: nat)

  datatype State = State(
    clock: Time,
    users: seq<User>,
    hashes: seq<Hash>,
    families: seq<Family>,
    sessions: seq<Session>,
    recoveries: seq<Recovery>,
    guesses: seq<Guess>,
    changes: seq<Change>)

  datatype Settings = Settings(refreshSeconds: nat, threshold: nat, lockSeconds: nat) {
    /** The bounds the settings class enforces. */
    ghost predicate Valid() { 3 <= threshold <= 20 && 60 <= lockSeconds <= 86_400 }
  }

  datatype LoginResult = LoginFailed | LoggedIn(family: Id, token: Id)
  datatype RefreshResult = RefreshInvalid | Replayed | Rotated(token: Id)

  /** What an access token carries once its signature has been checked. */
  datatype Claims = Claims(user: Id, family: Id, expiresAt: Time)

  // -------------------------------------------------------------------- row updates

  function RevokedRow(c: Session, now: Time): Session {
    if c.revokedAt.None? then c.(revokedAt := Some(now)) else c
  }

  function RevokeSessionsOf(rows: seq<Session>, family: Id, now: Time): (later: seq<Session>)
    ensures |later| == |rows|
    ensures forall i | 0 <= i < |rows| :: later[i] == if rows[i].family == family then RevokedRow(rows[i], now)
        else rows[i]
  {
    if rows == [] then []
    else
      var n := |rows| - 1;
      RevokeSessionsOf(rows[..n], family, now) + [if rows[n].family == family then RevokedRow(rows[n], now)
          else rows[n]]
  }

  predicate LiveFamilyOf(families: seq<Family>, family: Id, user: Id) {
    family < |families| && families[family].user == user && families[family].revokedAt.None?
  }

  function RevokeUserSessionRows(rows: seq<Session>, families: seq<Family>, user: Id, now: Time): (later: seq<Session>)
    ensures |later| == |rows|
    ensures forall i | 0 <= i < |rows| ::
              later[i] == if LiveFamilyOf(families, rows[i].family, user) then RevokedRow(rows[i], now) else rows[i]
  {
    if rows == [] then []
    else
      var n := |rows| - 1;
      RevokeUserSessionRows(rows[..n], families, user, now)
      + [if LiveFamilyOf(families, rows[n].family, user) then RevokedRow(rows[n], now) else rows[n]]
  }

  function RevokedFamily(f: Family, user: Id, now: Time): Family {
    if f.user == user && f.revokedAt.None? then f.(revokedAt := Some(now)) else f
  }

  function RevokeUserFamilies(rows: seq<Family>, user: Id, now: Time): (later: seq<Family>)
    ensures |later| == |rows| && forall i | 0 <= i < |rows| :: later[i] == RevokedFamily(rows[i], user, now)
  {
    if rows == [] then []
    else RevokeUserFamilies(rows[..|rows| - 1], user, now) + [RevokedFamily(rows[|rows| - 1], user, now)]
  }

  function RevokeUser(s: State, user: Id): State {
    s.(sessions := RevokeUserSessionRows(s.sessions, s.families, user, s.clock),
       families := RevokeUserFamilies(s.families, user, s.clock))
  }

  function RevokeFamily(s: State, family: Id, reuse: bool): State
    requires family < |s.families|
  {
    var f := s.families[family];
    s.(sessions := RevokeSessionsOf(s.sessions, family, s.clock),
       families := s.families[family := f.(
         revokedAt := if f.revokedAt.Some? then f.revokedAt else Some(s.clock),
         reuseDetectedAt := if reuse && f.reuseDetectedAt.None? then Some(s.clock) else f.reuseDetectedAt)])
  }

  // -------------------------------------------------------------------- login

  /** First half: read the hash, let go of the row, verify. */
  function StartLogin(s: State, user: Id, password: nat, rehash: bool): State {
    s.(guesses := s.guesses + [Guess(user, password, if user < |s.users| then Some(s.users[user].hash)
        else None, rehash)])
  }

  predicate Verified(s: State, hash: Option<Id>, password: nat) {
    hash.Some? && hash.value < |s.hashes| && s.hashes[hash.value].password == password
  }

  predicate Locked(u: User, now: Time) {
    u.lockedUntil.Some? && u.lockedUntil.value > now
  }

  predicate LoginValid(s: State, g: Guess) {
    && Verified(s, g.hash, g.password)
    && g.user < |s.users|
    && s.users[g.user].hash == g.hash.value
    && s.users[g.user].status == ActiveAccount
    && !Locked(s.users[g.user], s.clock)
  }

  function Failed(cfg: Settings, u: User, now: Time): User {
    if Locked(u, now) then u
    else u.(failed := u.failed + 1,
            lockedUntil := if u.failed + 1 >= cfg.threshold then Some(now + cfg.lockSeconds) else u.lockedUntil,
            lastFailureAt := now)
  }

  function FinishLogin(cfg: Settings, s: State, guess: Id): (State, LoginResult) {
    if guess >= |s.guesses| then (s, LoginFailed)
    else
      var g := s.guesses[guess];
      if !LoginValid(s, g) then
        (if g.user < |s.users| then s.(users := s.users[g.user := Failed(cfg, s.users[g.user], s.clock)])
            else s, LoginFailed)
      else
        var was := s.hashes[g.hash.value];
        var hash := if g.rehash then |s.hashes| else g.hash.value;
        var expiry := s.clock + cfg.refreshSeconds;
        (s.(users := s.users[g.user := s.users[g.user].(failed := 0, lockedUntil := None, hash := hash,
                                                       resetAt := s.clock, lastFailureAt := s.clock)],
            hashes := if g.rehash then s.hashes + [Hash(g.user, g.password, was.epoch)] else s.hashes,
            families := s.families + [Family(g.user, s.clock, s.clock, expiry, None, None, was.epoch, g.password)],
            sessions := s.sessions + [Session(|s.families|, None, s.clock, expiry, None, None)]),
         LoggedIn(|s.families|, |s.sessions|))
  }

  // -------------------------------------------------------------------- refresh and access

  predicate Rotatable(s: State, token: Id) {
    && token < |s.sessions|
    && var c := s.sessions[token];
    && c.family < |s.families| && s.families[c.family].user < |s.users|
    && c.usedAt.None? && c.revokedAt.None? && c.expiresAt > s.clock
    && s.families[c.family].revokedAt.None? && s.families[c.family].expiresAt > s.clock
    && s.users[s.families[c.family].user].status == ActiveAccount
  }

  function Refresh(s: State, token: Id): (State, RefreshResult) {
    if token >= |s.sessions| || s.sessions[token].family >= |s.families|
       || s.families[s.sessions[token].family].user >= |s.users| then (s, RefreshInvalid)
    else
      var c := s.sessions[token];
      var f := s.families[c.family];
      if c.usedAt.Some? then (RevokeFamily(s, c.family, true), Replayed)
      else if !Rotatable(s, token) then
        (if s.users[f.user].status != ActiveAccount && f.revokedAt.None? then RevokeFamily(s, c.family, false) else s,
         RefreshInvalid)
      else
        (s.(sessions := s.sessions[token := c.(usedAt := Some(s.clock))]
                        + [Session(c.family, Some(token), s.clock, f.expiresAt, None, None)],
            families := s.families[c.family := f.(lastUsedAt := s.clock)]),
         Rotated(|s.sessions|))
  }

  predicate Accepts(s: State, c: Claims) {
    && c.expiresAt > s.clock
    && c.user < |s.users| && s.users[c.user].status == ActiveAccount
    && c.family < |s.families| && s.families[c.family].user == c.user
    && s.families[c.family].revokedAt.None? && s.families[c.family].expiresAt > s.clock
  }

  /** `logout` and `revoke_session`. */
  function RevokeOwn(s: State, user: Id, family: Id): State {
    if family < |s.families| && s.families[family].user == user && s.families[family].revokedAt.None?
    then RevokeFamily(s, family, false) else s
  }

  // -------------------------------------------------------------------- password change and recovery

  function StartChange(s: State, user: Id, current: nat, replacement: nat): State {
    s.(changes := s.changes + [Change(user, current, if user < |s.users| then Some(s.users[user].hash)
        else None, replacement)])
  }

  /** New hash of a new epoch, counters zeroed, authorization version raised, every session ended. */
  function WithPassword(s: State, user: Id, password: nat): State
    requires user < |s.users|
  {
    var u := s.users[user];
    var epoch := if u.hash < |s.hashes| then s.hashes[u.hash].epoch + 1 else 0;
    RevokeUser(
      s.(users := s.users[user := u.(hash := |s.hashes|, failed := 0, lockedUntil := None, resetAt := s.clock,
                                     lastFailureAt := s.clock, authorizationVersion := u.authorizationVersion + 1)],
         hashes := s.hashes + [Hash(user, password, epoch)]),
      user)
  }

  function FinishChange(s: State, change: Id): (State, bool) {
    if change >= |s.changes| then (s, false)
    else
      var c := s.changes[change];
      if Verified(s, c.hash, c.current) && c.user < |s.users| && s.users[c.user].status == ActiveAccount
          && s.users[c.user].hash == c.hash.value
      then (WithPassword(s, c.user, c.replacement), true) else (s, false)
  }

  function Consumed(r: Recovery, user: Id, now: Time): Recovery {
    if r.user == user && r.consumedAt.None? then r.(consumedAt := Some(now)) else r
  }

  function ConsumeOpen(rows: seq<Recovery>, user: Id, now: Time): (later: seq<Recovery>)
    ensures |later| == |rows| && forall i | 0 <= i < |rows| :: later[i] == Consumed(rows[i], user, now)
  {
    if rows == [] then [] else ConsumeOpen(rows[..|rows| - 1], user, now) + [Consumed(rows[|rows| - 1], user, now)]
  }

  function RequestRecovery(s: State, user: Id, ttl: nat): State {
    if user >= |s.users| || s.users[user].status == DeletedAccount then s
    else s.(recoveries := ConsumeOpen(s.recoveries, user, s.clock) + [Recovery(user, s.clock + ttl, None, 0, 5)])
  }

  predicate RecoveryUsable(s: State, challenge: Id) {
    && challenge < |s.recoveries|
    && s.recoveries[challenge].consumedAt.None? && s.recoveries[challenge].expiresAt > s.clock
    && s.recoveries[challenge].attempts < s.recoveries[challenge].maxAttempts
    && s.recoveries[challenge].user < |s.users|
    && s.users[s.recoveries[challenge].user].status != DeletedAccount
  }

  function ResetPassword(s: State, challenge: Id, password: nat): (State, bool) {
    if !RecoveryUsable(s, challenge) then (s, false)
    else
      var r := s.recoveries[challenge];
      (WithPassword(s.(recoveries := s.recoveries[challenge := r.(consumedAt := Some(s.clock))]), r.user, password),
          true)
  }

  // -------------------------------------------------------------------- runs

  datatype Action =
    | Register(password: nat, status: AccountStatus)
    | BeginLogin(user: Id, password: nat, rehash: bool)
    | CommitLogin(guess: Id)
    | UseToken(token: Id)
    | Logout(user: Id, family: Id)
    | LogoutAll(user: Id)
    | BeginChange(user: Id, current: nat, replacement: nat)
    | CommitChange(change: Id)
    | AskRecovery(user: Id, ttl: nat)
    | Recover(challenge: Id, password: nat)
    | Tick(seconds: nat)

  function Step(cfg: Settings, s: State, a: Action): State {
    match a
    case Register(password, status) =>
      s.(users := s.users + [User(status, |s.hashes|, 0, None, 1, s.clock, s.clock)],
         hashes := s.hashes + [Hash(|s.users|, password, 0)])
    case BeginLogin(user, password, rehash) => StartLogin(s, user, password, rehash)
    case CommitLogin(guess) => FinishLogin(cfg, s, guess).0
    case UseToken(token) => Refresh(s, token).0
    case Logout(user, family) => RevokeOwn(s, user, family)
    case LogoutAll(user) => RevokeUser(s, user)
    case BeginChange(user, current, replacement) => StartChange(s, user, current, replacement)
    case CommitChange(change) => FinishChange(s, change).0
    case AskRecovery(user, ttl) => RequestRecovery(s, user, ttl)
    case Recover(challenge, password) => ResetPassword(s, challenge, password).0
    case Tick(d) => s.(clock := s.clock + d)
  }

  function Run(cfg: Settings, s: State, actions: seq<Action>): State
    decreases |actions|
  {
    if actions == [] then s else Run(cfg, Step(cfg, s, actions[0]), actions[1..])
  }

  function Initial(clock: Time): State {
    State(clock, [], [], [], [], [], [], [])
  }

  // -------------------------------------------------------------------- invariant

  ghost predicate UserValid(s: State, u: Id)
    requires u < |s.users|
  {
    && s.users[u].hash < |s.hashes|
    && s.hashes[s.users[u].hash].user == u
  }

  /** `threshold` free failures, then one per lock period; the lock starts at the last failure. */
  ghost predicate LockoutValid(cfg: Settings, u: User, now: Time) {
    && u.resetAt <= u.lastFailureAt <= now
    && cfg.lockSeconds * (u.failed - cfg.threshold) <= u.lastFailureAt - u.resetAt
    && (if u.failed >= cfg.threshold then u.lockedUntil == Some(u.lastFailureAt + cfg.lockSeconds)
        else u.lockedUntil.None?)
  }

  /** A family that is not revoked was opened with the user's present password. */
  ghost predicate FamilyValid(s: State, f: Family) {
    && f.user < |s.users| && s.users[f.user].hash < |s.hashes|
    && (f.revokedAt.None? ==>
          && f.epoch == s.hashes[s.users[f.user].hash].epoch
          && f.password == s.hashes[s.users[f.user].hash].password)
  }

  /** What was read at the start of a login still names a hash of that user. */
  ghost predicate SnapshotValid(s: State, user: Id, hash: Option<Id>) {
    hash.Some? ==> user < |s.users| && hash.value < |s.hashes| && s.hashes[hash.value].user == user
  }

  ghost predicate HasChild(rows: seq<Session>, i: Id) {
    exists j :: 0 <= j < |rows| && rows[j].parent == Some(i)
  }

  ghost predicate SessionValid(s: State, i: Id)
    requires i < |s.sessions|
  {
    var c := s.sessions[i];
    && c.family < |s.families|
    && c.expiresAt == s.families[c.family].expiresAt
    && (c.parent.Some? ==> c.parent.value < i && s.sessions[c.parent.value].family == c.family
                           && s.sessions[c.parent.value].usedAt.Some?)
    && (c.usedAt.Some? ==> HasChild(s.sessions, i))
  }

  /** Two tokens of one family: the earlier one is used, and only the very next one is its child. */
  ghost predicate Linked(rows: seq<Session>, i: Id, j: Id)
    requires i < j < |rows|
  {
    rows[i].family == rows[j].family ==>
      && rows[i].usedAt.Some?
      && rows[j].parent.Some? && rows[j].parent.value >= i
  }

  ghost predicate Chains(s: State) {
    && (forall i | 0 <= i < |s.sessions| :: SessionValid(s, i))
    && (forall i, j | 0 <= i < j < |s.sessions| :: Linked(s.sessions, i, j))
  }

  ghost predicate Accounts(cfg: Settings, s: State) {
    && (forall u | 0 <= u < |s.users| :: UserValid(s, u) && LockoutValid(cfg, s.users[u], s.clock))
    && (forall f | 0 <= f < |s.families| :: FamilyValid(s, s.families[f]))
    && (forall g | 0 <= g < |s.guesses| :: SnapshotValid(s, s.guesses[g].user, s.guesses[g].hash))
    && (forall c | 0 <= c < |s.changes| :: SnapshotValid(s, s.changes[c].user, s.changes[c].hash))
  }

  /** Only the newest recovery challenge of a user can be open. */
  ghost predicate Recoveries(s: State) {
    && (forall r | 0 <= r < |s.recoveries| :: s.recoveries[r].user < |s.users|)
    && (forall i, j | 0 <= i < j < |s.recoveries| && s.recoveries[i].user == s.recoveries[j].user ::
        s.recoveries[i].consumedAt.Some?)
  }

  ghost predicate Inv(cfg: Settings, s: State) {
    Accounts(cfg, s) && Chains(s) && Recoveries(s)
  }

  // -------------------------------------------------------------------- what one step may do

  ghost predicate FamilyContinues(a: Family, b: Family) {
    && b.user == a.user && b.expiresAt == a.expiresAt && b.createdAt == a.createdAt
    && b.epoch == a.epoch && b.password == a.password
    && (a.revokedAt.Some? ==> b.revokedAt == a.revokedAt)
  }

  ghost predicate SessionContinues(a: Session, b: Session) {
    && b.family == a.family && b.parent == a.parent && b.expiresAt == a.expiresAt
    && (a.usedAt.Some? ==> b.usedAt == a.usedAt)
    && (a.revokedAt.Some? ==> b.revokedAt == a.revokedAt)
  }

  ghost predicate RecoveryContinues(a: Recovery, b: Recovery) {
    b.user == a.user && b.expiresAt == a.expiresAt && (a.consumedAt.Some? ==> b == a)
  }

  ghost predicate FamiliesContinue(a: seq<Family>, b: seq<Family>) {
    |a| <= |b| && forall f | 0 <= f < |a| :: FamilyContinues(a[f], b[f])
  }

  ghost predicate SessionsContinue(a: seq<Session>, b: seq<Session>) {
    |a| <= |b| && forall c | 0 <= c < |a| :: SessionContinues(a[c], b[c])
  }

  ghost predicate Continues(s: State, t: State) {
    && s.clock <= t.clock
    && |s.users| <= |t.users| && (forall u | 0 <= u < |s.users| ::
        s.users[u].authorizationVersion <= t.users[u].authorizationVersion && t.users[u].status == s.users[u].status)
    && s.hashes <= t.hashes
    && FamiliesContinue(s.families, t.families)
    && SessionsContinue(s.sessions, t.sessions)
    && |s.recoveries| <= |t.recoveries| && (forall r | 0 <= r < |s.recoveries| ::
        RecoveryContinues(s.recoveries[r], t.recoveries[r]))
    && s.guesses <= t.guesses && s.changes <= t.changes
  }

  lemma ContinuesReflexive(s: State)
    ensures Continues(s, s)
  {}

  lemma ContinuesTransitive(s: State, t: State, u: State)
    requires Continues(s, t) && Continues(t, u)
    ensures Continues(s, u)
  {
    forall f | 0 <= f < |s.families| ensures FamilyContinues(s.families[f], u.families[f]) {
      assert FamilyContinues(s.families[f], t.families[f]) && FamilyContinues(t.families[f], u.families[f]);
    }
    forall c | 0 <= c < |s.sessions| ensures SessionContinues(s.sessions[c], u.sessions[c]) {
      assert SessionContinues(s.sessions[c], t.sessions[c]) && SessionContinues(t.sessions[c], u.sessions[c]);
    }
    forall r | 0 <= r < |s.recoveries| ensures RecoveryContinues(s.recoveries[r], u.recoveries[r]) {
      assert RecoveryContinues(s.recoveries[r], t.recoveries[r]) && RecoveryContinues(t.recoveries[r], u.recoveries[r]);
    }
  }

  // -------------------------------------------------------------------- token chains

  /** Revoking rows moves no token. */
  ghost predicate OnlyRevokes(a: seq<Session>, b: seq<Session>) {
    |a| == |b| && forall i | 0 <= i < |a| :: b[i] == a[i].(revokedAt := b[i].revokedAt) && (a[i].revokedAt.Some? ==>
        b[i] == a[i])
  }

  ghost predicate SameFamilies(a: seq<Family>, b: seq<Family>) {
    |a| <= |b| && forall f | 0 <= f < |a| :: b[f].expiresAt == a[f].expiresAt
  }

  lemma RevokeKeepsChains(s: State, t: State)
    requires Chains(s) && OnlyRevokes(s.sessions, t.sessions) && SameFamilies(s.families, t.families)
    ensures Chains(t)
  {
    forall i | 0 <= i < |t.sessions| ensures SessionValid(t, i) {
      assert SessionValid(s, i);
      if s.sessions[i].usedAt.Some? {
        var j :| 0 <= j < |s.sessions| && s.sessions[j].parent == Some(i);
        assert t.sessions[j].parent == Some(i);
      }
    }
    hide SessionValid;
    forall i, j | 0 <= i < j < |t.sessions| ensures Linked(t.sessions, i, j) { assert Linked(s.sessions, i, j); }
  }

  /** A first token of a new family. */
  lemma NewFamilyKeepsChains(s: State, t: State, root: Session)
    requires Chains(s) && t.sessions == s.sessions + [root]
    requires |t.families| == |s.families| + 1 && SameFamilies(s.families, t.families)
    requires root.family == |s.families| && root.parent.None? && root.usedAt.None?
        && root.expiresAt == t.families[|s.families|].expiresAt
    ensures Chains(t)
  {
    forall i | 0 <= i < |t.sessions| ensures SessionValid(t, i) {
      if i < |s.sessions| {
        assert SessionValid(s, i);
        if s.sessions[i].usedAt.Some? {
          assert HasChild(s.sessions, i);
          var j :| 0 <= j < |s.sessions| && s.sessions[j].parent == Some(i);
          assert t.sessions[j].parent == Some(i);
        }
      }
    }
    forall i, j | 0 <= i < j < |t.sessions| ensures Linked(t.sessions, i, j) {
      assert SessionValid(s, i);
      if j < |s.sessions| { assert Linked(s.sessions, i, j); }
    }
  }

  /** The tip of a chain is used and gets its one child. */
  lemma RotateKeepsChains(s: State, t: State, token: Id, now: Time)
    requires Chains(s) && token < |s.sessions| && s.sessions[token].usedAt.None?
    requires SameFamilies(s.families, t.families) && s.sessions[token].family < |s.families|
    requires var c := s.sessions[token];
             t.sessions == s.sessions[token := c.(usedAt := Some(now))]
                           + [Session(c.family, Some(token), now, s.families[c.family].expiresAt, None, None)]
    ensures Chains(t)
  {
    forall i | 0 <= i < |t.sessions| ensures SessionValid(t, i) { RotateKeepsSession(s, t, token, now, i); }
    hide SessionValid;
    forall i, j | 0 <= i < j < |t.sessions| ensures Linked(t.sessions, i, j) {
      if j < |s.sessions| {
        assert Linked(s.sessions, i, j);
      } else if i != token {
        if i < token { assert Linked(s.sessions, i, token); } else { assert Linked(s.sessions, token, i); }
      }
    }
  }

  lemma RotateKeepsSession(s: State, t: State, token: Id, now: Time, i: Id)
    requires Chains(s) && token < |s.sessions| && i < |t.sessions|
    requires SameFamilies(s.families, t.families) && s.sessions[token].family < |s.families|
    requires var c := s.sessions[token];
             t.sessions == s.sessions[token := c.(usedAt := Some(now))]
                           + [Session(c.family, Some(token), now, s.families[c.family].expiresAt, None, None)]
    ensures SessionValid(t, i)
  {
    hide Linked;
    if i < |s.sessions| {
      assert SessionValid(s, i);
      if i == token {
        assert t.sessions[|s.sessions|].parent == Some(i);
      } else if s.sessions[i].usedAt.Some? {
        var j :| 0 <= j < |s.sessions| && s.sessions[j].parent == Some(i);
        assert t.sessions[j].parent == Some(i);
      }
    }
  }

  // -------------------------------------------------------------------- steps: the token side

  /** Only sessions and families change, and families only by being used or revoked. */
  lemma TokensOnly(cfg: Settings, s: State, t: State)
    requires Inv(cfg, s) && t == s.(sessions := t.sessions, families := t.families)
    requires |t.families| == |s.families| && FamiliesContinue(s.families, t.families) && Chains(t)
    ensures Inv(cfg, t)
  {
    hide Chains, LockoutValid;
    forall f | 0 <= f < |t.families| ensures FamilyValid(t, t.families[f]) {
      assert FamilyValid(s, s.families[f]) && FamilyContinues(s.families[f], t.families[f]);
    }
    forall u | 0 <= u < |t.users| ensures UserValid(t, u) { assert UserValid(s, u); }
  }

  lemma RevokeFamilyStep(cfg: Settings, s: State, family: Id, reuse: bool)
    requires Inv(cfg, s) && family < |s.families|
    ensures Inv(cfg, RevokeFamily(s, family, reuse)) && Continues(s, RevokeFamily(s, family, reuse))
  {
    var t := RevokeFamily(s, family, reuse);
    RevokeKeepsChains(s, t);
    hide Chains, Accounts, Recoveries;
    TokensOnly(cfg, s, t);
  }

  lemma RevokeUserStep(cfg: Settings, s: State, user: Id)
    requires Inv(cfg, s)
    ensures Inv(cfg, RevokeUser(s, user)) && Continues(s, RevokeUser(s, user))
  {
    var t := RevokeUser(s, user);
    RevokeKeepsChains(s, t);
    hide Chains, Accounts, Recoveries;
    TokensOnly(cfg, s, t);
  }

  lemma RefreshStep(cfg: Settings, s: State, token: Id)
    requires Inv(cfg, s)
    ensures Inv(cfg, Refresh(s, token).0) && Continues(s, Refresh(s, token).0)
  {
    ContinuesReflexive(s);
    var t := Refresh(s, token).0;
    if Refresh(s, token).1.Rotated? {
      RotateKeepsChains(s, t, token, s.clock);
      hide Chains, Accounts, Recoveries;
      TokensOnly(cfg, s, t);
    } else if token < |s.sessions| && s.sessions[token].family < |s.families| {
      hide Inv, Continues, RevokeFamily, Rotatable;
      RevokeFamilyStep(cfg, s, s.sessions[token].family, true);
      RevokeFamilyStep(cfg, s, s.sessions[token].family, false);
    }
  }

  // -------------------------------------------------------------------- steps: the account side

  lemma InvParts(cfg: Settings, s: State)
    requires Inv(cfg, s)
    ensures Accounts(cfg, s) && Chains(s) && Recoveries(s)
    ensures forall u | 0 <= u < |s.users| :: UserValid(s, u) && LockoutValid(cfg, s.users[u], s.clock)
    ensures forall f | 0 <= f < |s.families| :: FamilyValid(s, s.families[f])
    ensures forall c | 0 <= c < |s.sessions| :: s.sessions[c].family < |s.families|
  {
    forall c | 0 <= c < |s.sessions| ensures s.sessions[c].family < |s.families| { assert SessionValid(s, c); }
  }

  lemma SameChains(s: State, t: State)
    requires Chains(s) && t.sessions == s.sessions && SameFamilies(s.families, t.families)
    ensures Chains(t)
  {
    RevokeKeepsChains(s, t);
  }

  /** A failed login: at most the counter and the lock of one user move. */
  lemma FailureKeepsLockout(cfg: Settings, u: User, now: Time)
    requires cfg.Valid() && LockoutValid(cfg, u, now)
    ensures LockoutValid(cfg, Failed(cfg, u, now), now)
  {
    if !Locked(u, now) {
      var v := Failed(cfg, u, now);
      if u.failed >= cfg.threshold {
        assert u.lastFailureAt + cfg.lockSeconds <= now;
        assert cfg.lockSeconds * (v.failed - cfg.threshold) ==
            cfg.lockSeconds * (u.failed - cfg.threshold) + cfg.lockSeconds;
      } else {
        NoMoreThanFree(cfg, v.failed);
      }
    }
  }

  lemma NoMoreThanFree(cfg: Settings, failed: nat)
    requires failed <= cfg.threshold
    ensures cfg.lockSeconds * (failed - cfg.threshold) <= 0
  {}

  lemma LaterLockout(cfg: Settings, u: User, now: Time, later: Time)
    requires LockoutValid(cfg, u, now) && now <= later
    ensures LockoutValid(cfg, u, later)
  {}

  lemma SnapshotKept(s: State, t: State, user: Id, hash: Option<Id>)
    requires SnapshotValid(s, user, hash) && s.hashes <= t.hashes && |s.users| <= |t.users|
    ensures SnapshotValid(t, user, hash)
  {
    assert hash.Some? ==> t.hashes[hash.value] == s.hashes[hash.value];
  }

  /** Snapshots survive everything: hashes are only ever added. */
  lemma SnapshotsKept(cfg: Settings, s: State, t: State)
    requires Accounts(cfg, s) && s.hashes <= t.hashes && |s.users| <= |t.users|
    requires t.guesses == s.guesses && t.changes == s.changes
    ensures forall g | 0 <= g < |t.guesses| :: SnapshotValid(t, t.guesses[g].user, t.guesses[g].hash)
    ensures forall c | 0 <= c < |t.changes| :: SnapshotValid(t, t.changes[c].user, t.changes[c].hash)
  {
    forall g | 0 <= g < |t.guesses| ensures SnapshotValid(t, t.guesses[g].user, t.guesses[g].hash) {
      SnapshotKept(s, t, s.guesses[g].user, s.guesses[g].hash);
    }
    forall c | 0 <= c < |t.changes| ensures SnapshotValid(t, t.changes[c].user, t.changes[c].hash) {
      SnapshotKept(s, t, s.changes[c].user, s.changes[c].hash);
    }
  }

  lemma FailureStep(cfg: Settings, s: State, user: Id)
    requires cfg.Valid() && Inv(cfg, s) && user < |s.users|
    ensures var t := s.(users := s.users[user := Failed(cfg, s.users[user], s.clock)]); Inv(cfg, t) && Continues(s, t)
  {
    var t := s.(users := s.users[user := Failed(cfg, s.users[user], s.clock)]);
    InvParts(cfg, s);
    FailureKeepsLockout(cfg, s.users[user], s.clock);
    SameChains(s, t);
    SnapshotsKept(cfg, s, t);
    hide LockoutValid, Chains, SnapshotValid;
    forall f | 0 <= f < |t.families| ensures FamilyValid(t, t.families[f]) { assert FamilyValid(s, s.families[f]); }
    forall u | 0 <= u < |t.users| ensures UserValid(t, u) && LockoutValid(cfg, t.users[u], t.clock) {
      assert UserValid(s, u);
    }
  }

  /** What a verified login knows: the password it was given is the user's present one. */
  lemma VerifiedIsPresent(cfg: Settings, s: State, g: Guess)
    requires Inv(cfg, s) && LoginValid(s, g)
    ensures var now := s.hashes[s.users[g.user].hash];
            now == s.hashes[g.hash.value] && now.password == g.password && now.user == g.user
  {
    assert UserValid(s, g.user);
  }

  lemma SuccessStep(cfg: Settings, s: State, guess: Id)
    requires Inv(cfg, s) && cfg.Valid() && guess < |s.guesses| && LoginValid(s, s.guesses[guess])
    ensures Inv(cfg, FinishLogin(cfg, s, guess).0) && Continues(s, FinishLogin(cfg, s, guess).0)
  {
    var t := FinishLogin(cfg, s, guess).0;
    var g := s.guesses[guess];
    VerifiedIsPresent(cfg, s, g);
    InvParts(cfg, s);
    NewFamilyKeepsChains(s, t, t.sessions[|s.sessions|]);
    SnapshotsKept(cfg, s, t);
    SuccessUsers(cfg, s, guess);
    SuccessFamilies(cfg, s, guess);
    hide LockoutValid, Chains, SnapshotValid, UserValid, FamilyValid, LoginValid;
  }

  lemma SuccessUsers(cfg: Settings, s: State, guess: Id)
    requires Accounts(cfg, s) && cfg.Valid() && guess < |s.guesses| && LoginValid(s, s.guesses[guess])
    ensures var t := FinishLogin(cfg, s, guess).0;
            forall u | 0 <= u < |t.users| :: UserValid(t, u) && LockoutValid(cfg, t.users[u], t.clock)
  {
    var t := FinishLogin(cfg, s, guess).0;
    hide FamilyValid, SnapshotValid;
    NoMoreThanFree(cfg, 0);
    forall u | 0 <= u < |t.users| ensures UserValid(t, u) && LockoutValid(cfg, t.users[u], t.clock) {
      assert UserValid(s, u) && LockoutValid(cfg, s.users[u], s.clock);
    }
  }

  lemma SuccessFamilies(cfg: Settings, s: State, guess: Id)
    requires Accounts(cfg, s) && guess < |s.guesses| && LoginValid(s, s.guesses[guess])
    ensures var t := FinishLogin(cfg, s, guess).0;
            forall f | 0 <= f < |t.families| :: FamilyValid(t, t.families[f])
  {
    var t := FinishLogin(cfg, s, guess).0;
    hide LockoutValid, SnapshotValid;
    assert UserValid(s, s.guesses[guess].user);
    forall f | 0 <= f < |t.families| ensures FamilyValid(t, t.families[f]) {
      if f < |s.families| {
        assert FamilyValid(s, s.families[f]) && UserValid(s, s.families[f].user);
      }
    }
  }

  lemma LoginStep(cfg: Settings, s: State, guess: Id)
    requires Inv(cfg, s) && cfg.Valid()
    ensures Inv(cfg, FinishLogin(cfg, s, guess).0) && Continues(s, FinishLogin(cfg, s, guess).0)
  {
    ContinuesReflexive(s);
    hide Inv, Continues, LoginValid;
    if guess < |s.guesses| {
      if LoginValid(s, s.guesses[guess]) {
        SuccessStep(cfg, s, guess);
      } else if s.guesses[guess].user < |s.users| {
        FailureStep(cfg, s, s.guesses[guess].user);
      }
    }
  }

  /** A new password: the families it would orphan are revoked in the same transaction. */
  lemma PasswordStep(cfg: Settings, s: State, user: Id, password: nat)
    requires Inv(cfg, s) && cfg.Valid() && user < |s.users|
    ensures Inv(cfg, WithPassword(s, user, password)) && Continues(s, WithPassword(s, user, password))
  {
    var t := WithPassword(s, user, password);
    InvParts(cfg, s);
    RevokeKeepsChains(s, t);
    SnapshotsKept(cfg, s, t);
    PasswordUsers(cfg, s, user, password);
    PasswordFamilies(cfg, s, user, password);
    hide LockoutValid, Chains, SnapshotValid, UserValid, FamilyValid;
  }

  lemma PasswordUsers(cfg: Settings, s: State, user: Id, password: nat)
    requires Accounts(cfg, s) && cfg.Valid() && user < |s.users|
    ensures var t := WithPassword(s, user, password);
            forall u | 0 <= u < |t.users| :: UserValid(t, u) && LockoutValid(cfg, t.users[u], t.clock)
  {
    var t := WithPassword(s, user, password);
    hide FamilyValid, SnapshotValid;
    NoMoreThanFree(cfg, 0);
    forall u | 0 <= u < |t.users| ensures UserValid(t, u) && LockoutValid(cfg, t.users[u], t.clock) {
      assert UserValid(s, u) && LockoutValid(cfg, s.users[u], s.clock);
    }
  }

  lemma PasswordFamilies(cfg: Settings, s: State, user: Id, password: nat)
    requires Accounts(cfg, s) && user < |s.users|
    ensures var t := WithPassword(s, user, password);
            forall f | 0 <= f < |t.families| :: FamilyValid(t, t.families[f])
  {
    var t := WithPassword(s, user, password);
    hide LockoutValid, SnapshotValid;
    forall f | 0 <= f < |t.families| ensures FamilyValid(t, t.families[f]) {
      assert FamilyValid(s, s.families[f]) && UserValid(s, s.families[f].user);
      assert t.families[f] == RevokedFamily(s.families[f], user, s.clock);
    }
  }

  lemma ChangeStep(cfg: Settings, s: State, change: Id)
    requires Inv(cfg, s) && cfg.Valid()
    ensures Inv(cfg, FinishChange(s, change).0) && Continues(s, FinishChange(s, change).0)
  {
    ContinuesReflexive(s);
    hide Inv, Continues, WithPassword;
    if FinishChange(s, change).1 { PasswordStep(cfg, s, s.changes[change].user, s.changes[change].replacement); }
  }

  /** Recovery rows alone change. */
  lemma RecoveriesOnly(cfg: Settings, s: State, rows: seq<Recovery>)
    requires Inv(cfg, s) && Recoveries(s.(recoveries := rows))
    requires |s.recoveries| <= |rows| && forall r | 0 <= r < |s.recoveries| ::
        RecoveryContinues(s.recoveries[r], rows[r])
    ensures Inv(cfg, s.(recoveries := rows)) && Continues(s, s.(recoveries := rows))
  {
    var t := s.(recoveries := rows);
    InvParts(cfg, s);
    SameChains(s, t);
    SnapshotsKept(cfg, s, t);
    hide LockoutValid, Chains, SnapshotValid, Recoveries;
    assert forall u | 0 <= u < |t.users| :: UserValid(s, u);
    assert forall f | 0 <= f < |t.families| :: FamilyValid(s, s.families[f]);
  }

  lemma AskStep(cfg: Settings, s: State, user: Id, ttl: nat)
    requires Inv(cfg, s)
    ensures Inv(cfg, RequestRecovery(s, user, ttl)) && Continues(s, RequestRecovery(s, user, ttl))
  {
    ContinuesReflexive(s);
    if user < |s.users| {
      var rows := RequestRecovery(s, user, ttl).recoveries;
      assert Recoveries(s.(recoveries := rows)) by { hide Accounts, Chains, Continues; }
      hide Inv, Continues;
      RecoveriesOnly(cfg, s, rows);
    }
  }

  lemma RecoverStep(cfg: Settings, s: State, challenge: Id, password: nat)
    requires Inv(cfg, s) && cfg.Valid()
    ensures Inv(cfg, ResetPassword(s, challenge, password).0) && Continues(s, ResetPassword(s, challenge, password).0)
  {
    ContinuesReflexive(s);
    if RecoveryUsable(s, challenge) {
      var r := s.recoveries[challenge];
      var rows := s.recoveries[challenge := r.(consumedAt := Some(s.clock))];
      assert Recoveries(s.(recoveries := rows)) by { hide Accounts, Chains, Continues; }
      hide Inv, Continues, WithPassword;
      RecoveriesOnly(cfg, s, rows);
      PasswordStep(cfg, s.(recoveries := rows), r.user, password);
      ContinuesTransitive(s, s.(recoveries := rows), ResetPassword(s, challenge, password).0);
    }
  }

  lemma RegisterStep(cfg: Settings, s: State, password: nat, status: AccountStatus)
    requires Inv(cfg, s) && cfg.Valid()
    ensures var t := Step(cfg, s, Register(password, status)); Inv(cfg, t) && Continues(s, t)
  {
    var t := Step(cfg, s, Register(password, status));
    InvParts(cfg, s);
    SameChains(s, t);
    SnapshotsKept(cfg, s, t);
    NoMoreThanFree(cfg, 0);
    hide Chains, SnapshotValid;
    forall u | 0 <= u < |t.users| ensures UserValid(t, u) && LockoutValid(cfg, t.users[u], t.clock) {
      if u < |s.users| { assert UserValid(s, u) && LockoutValid(cfg, s.users[u], s.clock); }
    }
    hide LockoutValid;
    forall f | 0 <= f < |t.families| ensures FamilyValid(t, t.families[f]) { assert FamilyValid(s, s.families[f]); }
  }

  lemma StartsStep(cfg: Settings, s: State, user: Id, first: nat, second: nat, rehash: bool)
    requires Inv(cfg, s)
    ensures var t := StartLogin(s, user, first, rehash); Inv(cfg, t) && Continues(s, t)
    ensures var t := StartChange(s, user, first, second); Inv(cfg, t) && Continues(s, t)
  {
    InvParts(cfg, s);
    if user < |s.users| { assert UserValid(s, user); }
    hide LockoutValid;
    StartKeeps(cfg, s, StartLogin(s, user, first, rehash));
    StartKeeps(cfg, s, StartChange(s, user, first, second));
  }

  lemma StartKeeps(cfg: Settings, s: State, t: State)
    requires Inv(cfg, s) && t == s.(guesses := t.guesses, changes := t.changes)
    requires s.guesses <= t.guesses && s.changes <= t.changes
    requires forall g | 0 <= g < |t.guesses| :: SnapshotValid(t, t.guesses[g].user, t.guesses[g].hash)
    requires forall c | 0 <= c < |t.changes| :: SnapshotValid(t, t.changes[c].user, t.changes[c].hash)
    ensures Inv(cfg, t) && Continues(s, t)
  {
    InvParts(cfg, s);
    SameChains(s, t);
    hide LockoutValid, Chains, SnapshotValid;
    assert forall u | 0 <= u < |t.users| :: UserValid(s, u);
    assert forall f | 0 <= f < |t.families| :: FamilyValid(s, s.families[f]);
  }

  lemma TickStep(cfg: Settings, s: State, seconds: nat)
    requires Inv(cfg, s)
    ensures Inv(cfg, s.(clock := s.clock + seconds)) && Continues(s, s.(clock := s.clock + seconds))
  {
    var t := s.(clock := s.clock + seconds);
    InvParts(cfg, s);
    SameChains(s, t);
    SnapshotsKept(cfg, s, t);
    forall u | 0 <= u < |t.users| ensures UserValid(t, u) && LockoutValid(cfg, t.users[u], t.clock) {
      LaterLockout(cfg, s.users[u], s.clock, t.clock);
      assert UserValid(s, u);
    }
    hide LockoutValid, Chains, SnapshotValid;
    assert forall f | 0 <= f < |t.families| :: FamilyValid(s, s.families[f]);
  }

  lemma StepKeeps(cfg: Settings, s: State, a: Action)
    requires Inv(cfg, s) && cfg.Valid()
    ensures Inv(cfg, Step(cfg, s, a)) && Continues(s, Step(cfg, s, a))
  {
    hide Inv, Continues, FinishLogin, Refresh, FinishChange, ResetPassword, RequestRecovery, RevokeUser, RevokeFamily,
        StartLogin, StartChange;
    ContinuesReflexive(s);
    match a
    case Register(password, status) => RegisterStep(cfg, s, password, status);
    case BeginLogin(user, password, rehash) => StartsStep(cfg, s, user, password, 0, rehash);
    case CommitLogin(guess) => LoginStep(cfg, s, guess);
    case UseToken(token) => RefreshStep(cfg, s, token);
    case Logout(user, family) => if family < |s.families| { RevokeFamilyStep(cfg, s, family, false); }
    case LogoutAll(user) => RevokeUserStep(cfg, s, user);
    case BeginChange(user, current, replacement) => StartsStep(cfg, s, user, current, replacement, false);
    case CommitChange(change) => ChangeStep(cfg, s, change);
    case AskRecovery(user, ttl) => AskStep(cfg, s, user, ttl);
    case Recover(challenge, password) => RecoverStep(cfg, s, challenge, password);
    case Tick(d) => TickStep(cfg, s, d);
  }

  lemma {:induction false} RunKeeps(cfg: Settings, s: State, actions: seq<Action>)
    requires Inv(cfg, s) && cfg.Valid()
    ensures Inv(cfg, Run(cfg, s, actions)) && Continues(s, Run(cfg, s, actions))
    decreases |actions|
  {
    hide Step, Inv, Continues;
    if actions == [] {
      ContinuesReflexive(s);
    } else {
      StepKeeps(cfg, s, actions[0]);
      RunKeeps(cfg, Step(cfg, s, actions[0]), actions[1..]);
      ContinuesTransitive(s, Step(cfg, s, actions[0]), Run(cfg, s, actions));
    }
  }

  lemma Reachable(cfg: Settings, clock: Time, actions: seq<Action>)
    requires cfg.Valid()
    ensures Inv(cfg, Run(cfg, Initial(clock), actions))
  {
    RunKeeps(cfg, Initial(clock), actions);
  }

  // -------------------------------------------------------------------- what a reader may rely on

  /** The login-time record of the family equals the user's password now. */
  ghost predicate OpenedWithPresentPassword(s: State, family: Id)
    requires family < |s.families|
  {
    var f := s.families[family];
    && f.user < |s.users| && s.users[f.user].hash < |s.hashes|
    && f.epoch == s.hashes[s.users[f.user].hash].epoch
    && f.password == s.hashes[s.users[f.user].hash].password
  }

  /** However logins, changes and resets interleave, a session that works was opened with the
      password the user has now: any access token accepted and any refresh token rotated. */
  lemma WorkingSessionsKnowThePassword(cfg: Settings, clock: Time, actions: seq<Action>, c: Claims, token: Id)
    requires cfg.Valid()
    ensures var s := Run(cfg, Initial(clock), actions);
            && (Accepts(s, c) ==> OpenedWithPresentPassword(s, c.family))
            && (Refresh(s, token).1.Rotated? ==> OpenedWithPresentPassword(s, s.sessions[token].family))
  {
    Reachable(cfg, clock, actions);
    var s := Run(cfg, Initial(clock), actions);
    InvParts(cfg, s);
    hide Run, Inv, LockoutValid, Chains, UserValid, SnapshotValid;
    if Accepts(s, c) { assert FamilyValid(s, s.families[c.family]); }
    if Refresh(s, token).1.Rotated? { assert FamilyValid(s, s.families[s.sessions[token].family]); }
  }

  /** A login whose snapshot was overtaken by a password change or reset cannot be committed. */
  lemma OvertakenLoginFails(cfg: Settings, s: State, guess: Id, actions: seq<Action>)
    requires cfg.Valid() && Inv(cfg, s) && guess < |s.guesses| && s.guesses[guess].hash.Some?
    requires var t := Run(cfg, s, actions);
             var g := s.guesses[guess];
             && guess < |t.guesses| && t.guesses[guess] == g && g.user < |t.users| && t.users[g.user].hash < |t.hashes|
             && g.hash.value < |s.hashes| && t.hashes[t.users[g.user].hash].epoch != s.hashes[g.hash.value].epoch
    ensures FinishLogin(cfg, Run(cfg, s, actions), guess).1 == LoginFailed
  {
    RunKeeps(cfg, s, actions);
    hide Run, Inv;
  }

  lemma RevokedForEver(cfg: Settings, s: State, family: Id, actions: seq<Action>, token: Id, c: Claims)
    requires cfg.Valid() && Inv(cfg, s) && family < |s.families| && s.families[family].revokedAt.Some?
    ensures var t := Run(cfg, s, actions);
            && (c.family == family ==> !Accepts(t, c))
            && (token < |t.sessions| && t.sessions[token].family == family ==> !Refresh(t, token).1.Rotated?)
  {
    RunKeeps(cfg, s, actions);
    var t := Run(cfg, s, actions);
    assert FamilyContinues(s.families[family], t.families[family]);
    hide Run, Inv;
  }

  /** Presenting any used token ends its family: from then on no token of the family, old or new,
      is ever rotated and no access token for it is ever accepted. */
  lemma ReplayEndsFamily(cfg: Settings, s: State, used: Id, actions: seq<Action>, token: Id, c: Claims)
    requires cfg.Valid() && Inv(cfg, s) && used < |s.sessions| && s.sessions[used].usedAt.Some?
    ensures var family := s.sessions[used].family;
            var t := Run(cfg, Refresh(s, used).0, actions);
            && Refresh(s, used).1 == Replayed
            && (c.family == family ==> !Accepts(t, c))
            && (token < |t.sessions| && t.sessions[token].family == family ==> !Refresh(t, token).1.Rotated?)
  {
    InvParts(cfg, s);
    assert FamilyValid(s, s.families[s.sessions[used].family]);
    RefreshStep(cfg, s, used);
    hide Inv, Run, Accounts, Chains, Recoveries, FamilyValid, LockoutValid, UserValid;
    RevokedForEver(cfg, Refresh(s, used).0, s.sessions[used].family, actions, token, c);
  }

  /** A committed password change ends every session the user had. */
  lemma ChangeEndsSessions(cfg: Settings, s: State, change: Id, family: Id, actions: seq<Action>, token: Id, c: Claims)
    requires cfg.Valid() && Inv(cfg, s) && FinishChange(s, change).1
    requires family < |s.families| && s.families[family].user == s.changes[change].user
    ensures var t := Run(cfg, FinishChange(s, change).0, actions);
            && (c.family == family ==> !Accepts(t, c))
            && (token < |t.sessions| && t.sessions[token].family == family ==> !Refresh(t, token).1.Rotated?)
  {
    ChangeStep(cfg, s, change);
    hide Inv, Run;
    RevokedForEver(cfg, FinishChange(s, change).0, family, actions, token, c);
  }

  ghost predicate NothingBetween(rows: seq<Session>, i: Id, j: Id)
    requires i < j < |rows|
  {
    forall k | i < k < j :: rows[k].family != rows[i].family
  }

  /** A family is one chain: neighbours are parent and child, everything but the tip is used,
      so at most one token of a family can be rotated, and none outlives the login's expiry. */
  lemma FamilyIsAChain(cfg: Settings, s: State, i: Id, j: Id)
    requires Inv(cfg, s) && i < j < |s.sessions| && s.sessions[i].family == s.sessions[j].family
    ensures s.sessions[i].usedAt.Some?
    ensures NothingBetween(s.sessions, i, j) ==> s.sessions[j].parent == Some(i)
    ensures !Rotatable(s, i)
    ensures s.sessions[j].family < |s.families|
    ensures s.sessions[i].expiresAt == s.sessions[j].expiresAt == s.families[s.sessions[j].family].expiresAt
  {
    hide Accounts, Recoveries;
    assert Linked(s.sessions, i, j) && SessionValid(s, j) && SessionValid(s, i);
  }

  /** Rotation never prolongs a login: whatever token of a family exists later expires when the
      family was to expire from the start. */
  lemma RefreshNeverExtends(cfg: Settings, s: State, family: Id, actions: seq<Action>, token: Id)
    requires cfg.Valid() && Inv(cfg, s) && family < |s.families|
    requires var t := Run(cfg, s, actions); token < |t.sessions| && t.sessions[token].family == family
    ensures Run(cfg, s, actions).sessions[token].expiresAt == s.families[family].expiresAt
  {
    RunKeeps(cfg, s, actions);
    var t := Run(cfg, s, actions);
    assert FamilyContinues(s.families[family], t.families[family]);
    hide Run, Accounts, Recoveries;
    assert SessionValid(t, token);
  }

  /** Counted failures since the counter was last zeroed: `threshold` for free, after that at most
      one per lock period. */
  lemma GuessesAreBounded(cfg: Settings, clock: Time, actions: seq<Action>, user: Id)
    requires cfg.Valid() && user < |Run(cfg, Initial(clock), actions).users|
    ensures var u := Run(cfg, Initial(clock), actions).users[user];
            && cfg.lockSeconds * (u.failed - cfg.threshold) <= u.lastFailureAt - u.resetAt
            && u.failed <= cfg.threshold + (u.lastFailureAt - u.resetAt) / cfg.lockSeconds
  {
    Reachable(cfg, clock, actions);
    var s := Run(cfg, Initial(clock), actions);
    InvParts(cfg, s);
    hide Run, Inv;
    QuotientBound(cfg.lockSeconds, s.users[user].failed - cfg.threshold,
        s.users[user].lastFailureAt - s.users[user].resetAt);
  }

  lemma QuotientBound(lock: int, n: int, elapsed: int)
    requires lock > 0 && lock * n <= elapsed
    ensures n <= elapsed / lock
  {
    if n > elapsed / lock {
      assert lock * n >= lock * (elapsed / lock + 1) by { MonotoneProduct(lock, elapsed / lock + 1, n); }
    }
  }

  lemma MonotoneProduct(a: int, b: int, c: int)
    requires a > 0 && b <= c
    ensures a * b <= a * c
  {}

  /** While the account is locked nothing gets in and nothing is counted, right password or not. */
  lemma LockedMeansLocked(cfg: Settings, s: State, guess: Id)
    requires guess < |s.guesses| && s.guesses[guess].user < |s.users| && Locked(s.users[s.guesses[guess].user], s.clock)
    ensures FinishLogin(cfg, s, guess) == (s, LoginFailed)
  {
    assert s.users[s.guesses[guess].user := s.users[s.guesses[guess].user]] == s.users;
  }

  /** A recovery challenge resets at most one password, ever. */
  lemma RecoveryWorksOnce(cfg: Settings, s: State, challenge: Id, password: nat, actions: seq<Action>, again: nat)
    requires cfg.Valid() && Inv(cfg, s) && ResetPassword(s, challenge, password).1
    ensures !ResetPassword(Run(cfg, ResetPassword(s, challenge, password).0, actions), challenge, again).1
  {
    var first := ResetPassword(s, challenge, password).0;
    RecoverStep(cfg, s, challenge, password);
    RunKeeps(cfg, first, actions);
    hide Run, Inv;
    assert RecoveryContinues(first.recoveries[challenge], Run(cfg, first, actions).recoveries[challenge]);
  }

  /** Asking again disarms every earlier challenge of the user. */
  lemma OnlyNewestChallengeWorks(cfg: Settings, s: State, challenge: Id, newer: Id, password: nat)
    requires Inv(cfg, s) && challenge < newer < |s.recoveries|
    requires s.recoveries[challenge].user == s.recoveries[newer].user
    ensures !ResetPassword(s, challenge, password).1
  {
    hide Accounts, Chains;
    assert Recoveries(s);
  }

  // -------------------------------------------------------------------- the service

  class SessionService {
    const cfg: Settings
    var clock: Time
    var users: seq<User>
    var hashes: seq<Hash>
    var families: seq<Family>
    var sessions: seq<Session>
    var recoveries: seq<Recovery>
    var guesses: seq<Guess>
    var changes: seq<Change>

    ghost function Db(): State
      reads this
    {
      State(clock, users, hashes, families, sessions, recoveries, guesses, changes)
    }

    constructor (cfg: Settings, clock: Time)
      ensures this.cfg == cfg && Db() == Initial(clock)
    {
      this.cfg := cfg;
      this.clock := clock;
      users, hashes, families, sessions, recoveries, guesses, changes := [], [], [], [], [], [], [];
    }

    /** The two bulk updates of `revoke_user_sessions`: tokens first, then families. */
    method RevokeUserSessions(user: Id)
      modifies `families, `sessions
      ensures Db() == RevokeUser(old(Db()), user)
    {
      var i := 0;
      while i < |sessions|
        invariant 0 <= i <= |sessions| == |old(sessions)| && families == old(families)
        invariant forall k | 0 <= k < i :: sessions[k] == RevokeUserSessionRows(old(sessions), families, user, clock)[k]
        invariant forall k | i <= k < |sessions| :: sessions[k] == old(sessions)[k]
      {
        if LiveFamilyOf(families, sessions[i].family, user) && sessions[i].revokedAt.None? {
          sessions := sessions[i := sessions[i].(revokedAt := Some(clock))];
        }
        i := i + 1;
      }
      assert sessions == RevokeUserSessionRows(old(sessions), families, user, clock);
      i := 0;
      while i < |families|
        invariant 0 <= i <= |families| == |old(families)|
        invariant sessions == RevokeUserSessionRows(old(sessions), old(families), user, clock)
        invariant forall k | 0 <= k < i :: families[k] == RevokedFamily(old(families)[k], user, clock)
        invariant forall k | i <= k < |families| :: families[k] == old(families)[k]
      {
        if families[i].user == user && families[i].revokedAt.None? {
          families := families[i := families[i].(revokedAt := Some(clock))];
        }
        i := i + 1;
      }
      assert families == RevokeUserFamilies(old(families), user, clock);
    }

    method RevokeOneFamily(family: Id, reuse: bool)
      requires family < |families|
      modifies `families, `sessions
      ensures Db() == RevokeFamily(old(Db()), family, reuse)
    {
      var i := 0;
      while i < |sessions|
        invariant 0 <= i <= |sessions| == |old(sessions)| && families == old(families)
        invariant forall k | 0 <= k < i :: sessions[k] == RevokeSessionsOf(old(sessions), family, clock)[k]
        invariant forall k | i <= k < |sessions| :: sessions[k] == old(sessions)[k]
      {
        if sessions[i].family == family && sessions[i].revokedAt.None? {
          sessions := sessions[i := sessions[i].(revokedAt := Some(clock))];
        }
        i := i + 1;
      }
      assert sessions == RevokeSessionsOf(old(sessions), family, clock);
      var row := families[family];
      if row.revokedAt.None? {
        row := row.(revokedAt := Some(clock));
      }
      if reuse && row.reuseDetectedAt.None? {
        row := row.(reuseDetectedAt := Some(clock));
      }
      families := families[family := row];
    }

    method CommitLogin(guess: Id) returns (result: LoginResult)
      modifies `users, `hashes, `families, `sessions
      ensures (Db(), result) == FinishLogin(cfg, old(Db()), guess)
    {
      if guess >= |guesses| {
        return LoginFailed;
      }
      var g := guesses[guess];
      if g.user >= |users| {
        return LoginFailed;
      }
      var user := users[g.user];
      var locked := user.lockedUntil.Some? && user.lockedUntil.value > clock;
      var verified := g.hash.Some? && g.hash.value < |hashes| && hashes[g.hash.value].password == g.password;
      if !verified || g.hash != Some(user.hash) || user.status != ActiveAccount || locked {
        if !locked {
          user := user.(failed := user.failed + 1, lastFailureAt := clock);
          if user.failed >= cfg.threshold {
            user := user.(lockedUntil := Some(clock + cfg.lockSeconds));
          }
        }
        users := users[g.user := user];
        return LoginFailed;
      }
      var epoch := hashes[user.hash].epoch;
      user := user.(failed := 0, lockedUntil := None, resetAt := clock, lastFailureAt := clock);
      if g.rehash {
        user := user.(hash := |hashes|);
        hashes := hashes + [Hash(g.user, g.password, epoch)];
      }
      users := users[g.user := user];
      var expiry := clock + cfg.refreshSeconds;
      result := LoggedIn(|families|, |sessions|);
      sessions := sessions + [Session(|families|, None, clock, expiry, None, None)];
      families := families + [Family(g.user, clock, clock, expiry, None, None, epoch, g.password)];
    }

    method UseToken(token: Id) returns (result: RefreshResult)
      modifies `families, `sessions
      ensures (Db(), result) == Refresh(old(Db()), token)
    {
      if token >= |sessions| || sessions[token].family >= |families|
          || families[sessions[token].family].user >= |users| {
        return RefreshInvalid;
      }
      var current := sessions[token];
      var family := families[current.family];
      var active := users[family.user].status == ActiveAccount;
      if current.usedAt.Some? {
        RevokeOneFamily(current.family, true);
        return Replayed;
      }
      if current.revokedAt.Some? || current.expiresAt <= clock || family.revokedAt.Some? || family.expiresAt <= clock
          || !active {
        if !active && family.revokedAt.None? {
          RevokeOneFamily(current.family, false);
        }
        return RefreshInvalid;
      }
      sessions := sessions[token := current.(usedAt := Some(clock))];
      families := families[current.family := family.(lastUsedAt := clock)];
      result := Rotated(|sessions|);
      sessions := sessions + [Session(current.family, Some(token), clock, family.expiresAt, None, None)];
    }

    method SetPassword(user: Id, password: nat)
      requires user < |users|
      modifies `users, `hashes, `families, `sessions
      ensures Db() == WithPassword(old(Db()), user, password)
    {
      var row := users[user];
      var epoch := if row.hash < |hashes| then hashes[row.hash].epoch + 1 else 0;
      row := row.(hash := |hashes|, authorizationVersion := row.authorizationVersion + 1);
      row := row.(failed := 0, lockedUntil := None, resetAt := clock, lastFailureAt := clock);
      hashes := hashes + [Hash(user, password, epoch)];
      users := users[user := row];
      RevokeUserSessions(user);
    }

    method CommitChange(change: Id) returns (ok: bool)
      modifies `users, `hashes, `families, `sessions
      ensures (Db(), ok) == FinishChange(old(Db()), change)
    {
      if change >= |changes| {
        return false;
      }
      var c := changes[change];
      if c.user >= |users| || c.hash.None? || c.hash.value >= |hashes| || hashes[c.hash.value].password != c.current {
        return false;
      }
      if users[c.user].status != ActiveAccount || users[c.user].hash != c.hash.value {
        return false;
      }
      SetPassword(c.user, c.replacement);
      ok := true;
    }

    method Recover(challenge: Id, password: nat) returns (ok: bool)
      modifies `users, `hashes, `families, `sessions, `recoveries
      ensures (Db(), ok) == ResetPassword(old(Db()), challenge, password)
    {
      if challenge >= |recoveries| || recoveries[challenge].consumedAt.Some? || recoveries[challenge].expiresAt <= clock
         || recoveries[challenge].attempts >= recoveries[challenge].maxAttempts
         || recoveries[challenge].user >= |users|
         || users[recoveries[challenge].user].status == DeletedAccount {
        return false;
      }
      var row := recoveries[challenge];
      recoveries := recoveries[challenge := row.(consumedAt := Some(clock))];
      SetPassword(row.user, password);
      ok := true;
    }
  }
}
