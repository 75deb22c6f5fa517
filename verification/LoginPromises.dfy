/** What the session service promises its users: which logins succeed, how long what they open works,
    and what a new password does. */
module LoginPromises {
  import opened Core
  import opened Sessions

  // -------------------------------------------------------------------- tokens and their families

  /** A token is revoked together with its family, never alone. */
  ghost predicate Together(s: State) {
    forall c | 0 <= c < |s.sessions| ::
      && s.sessions[c].family < |s.families|
      && (s.sessions[c].revokedAt.Some? <==> s.families[s.sessions[c].family].revokedAt.Some?)
  }

  lemma RevokedTogether(s: State, user: Id, family: Id, reuse: bool)
    requires Together(s)
    ensures Together(RevokeUser(s, user))
    ensures family < |s.families| ==> Together(RevokeFamily(s, family, reuse))
  {}

  lemma TogetherStep(cfg: Settings, s: State, a: Action)
    requires Inv(cfg, s) && Together(s)
    ensures Together(Step(cfg, s, a))
  {
    hide Inv, RevokeUser, RevokeFamily, LoginValid, Rotatable, Verified;
    match a
    case UseToken(token) =>
      if token < |s.sessions| {
        RevokedTogether(s, 0, s.sessions[token].family, true);
        RevokedTogether(s, 0, s.sessions[token].family, false);
      }
      RotateTogether(s, token);
    case Logout(user, family) => RevokedTogether(s, user, family, false);
    case LogoutAll(user) => RevokedTogether(s, user, 0, false);
    case CommitChange(change) =>
      if change < |s.changes| { PasswordTogether(s, s.changes[change].user, s.changes[change].replacement); }
    case Recover(challenge, password) =>
      if RecoveryUsable(s, challenge) {
        var r := s.recoveries[challenge];
        var spent := s.recoveries[challenge := r.(consumedAt := Some(s.clock))];
        PasswordTogether(s.(recoveries := spent), r.user, password);
      }
    case _ =>
  }

  lemma RotateTogether(s: State, token: Id)
    requires Together(s)
    ensures Refresh(s, token).1.Rotated? ==> Together(Refresh(s, token).0)
  {
    hide RevokeFamily;
  }

  lemma PasswordTogether(s: State, user: Id, password: nat)
    requires Together(s)
    ensures user < |s.users| ==> Together(WithPassword(s, user, password))
  {
    if user < |s.users| {
      var u := s.users[user];
      var t := WithPassword(s, user, password);
      RevokedTogether(s.(users := t.users, hashes := t.hashes), user, 0, false);
    }
  }

  lemma {:induction false} RunTogether(cfg: Settings, s: State, actions: seq<Action>)
    requires Inv(cfg, s) && cfg.Valid() && Together(s)
    ensures Inv(cfg, Run(cfg, s, actions)) && Together(Run(cfg, s, actions))
    decreases |actions|
  {
    if actions != [] {
      hide Step, Inv, Together, Continues;
      StepKeeps(cfg, s, actions[0]);
      TogetherStep(cfg, s, actions[0]);
      RunTogether(cfg, Step(cfg, s, actions[0]), actions[1..]);
    }
  }

  /** In every reachable state a token can be rotated exactly when it is unused and its family's login
      still stands: not revoked, not expired, and the account active. */
  lemma RotatableExactly(cfg: Settings, s: State, token: Id)
    requires Inv(cfg, s) && Together(s)
    ensures Refresh(s, token).1.Rotated? <==>
              && token < |s.sessions| && s.sessions[token].usedAt.None?
              && var f := s.families[s.sessions[token].family];
              && f.revokedAt.None? && s.clock < f.expiresAt
              && f.user < |s.users| && s.users[f.user].status == ActiveAccount
  {
    if token < |s.sessions| {
      InvParts(cfg, s);
      assert SessionValid(s, token);
      assert FamilyValid(s, s.families[s.sessions[token].family]);
    }
    hide Inv, RevokeFamily, Chains, Accounts;
  }

  /** And then the token that replaces it can be rotated in turn, and only that one. */
  lemma RefreshGoesOn(cfg: Settings, s: State, token: Id)
    requires Inv(cfg, s) && Together(s) && Refresh(s, token).1.Rotated?
    ensures var (t, result) := Refresh(s, token);
            && result == Rotated(|s.sessions|) && |t.sessions| == |s.sessions| + 1
            && t.sessions[|s.sessions|].family == s.sessions[token].family
            && Refresh(t, |s.sessions|).1.Rotated?
            && Refresh(t, token).1 == Replayed
            && (forall c | 0 <= c < |s.sessions| :: t.sessions[c] == if c == token
                  then s.sessions[c].(usedAt := Some(s.clock)) else s.sessions[c])
            && |t.families| == |s.families|
            && (forall f | 0 <= f < |s.families| :: t.families[f] == if f == s.sessions[token].family
                  then s.families[f].(lastUsedAt := s.clock) else s.families[f])
  {
    hide Inv, RevokeFamily;
  }

  /** A family is ended now, with its tokens; every other family is as it was. */
  ghost predicate EndsOnly(s: State, t: State, family: Id) {
    && family < |s.families| == |t.families| && |s.sessions| == |t.sessions|
    && t.families[family].revokedAt.Some?
    && (forall f | 0 <= f < |s.families| && f != family :: t.families[f] == s.families[f])
    && (forall c | 0 <= c < |s.sessions| ::
          if s.sessions[c].family == family then t.sessions[c].revokedAt.Some? else t.sessions[c] == s.sessions[c])
    && t == s.(families := t.families, sessions := t.sessions)
  }

  /** What a refused refresh does: a used token ends its family, and so does any token of an account
      that is no longer active; otherwise nothing happens. */
  lemma RefusedRefreshExactly(cfg: Settings, s: State, token: Id)
    requires Inv(cfg, s) && Together(s) && !Refresh(s, token).1.Rotated?
    ensures var (t, result) := Refresh(s, token);
            if token >= |s.sessions| then t == s && result == RefreshInvalid
            else
              var family := s.sessions[token].family;
              && family < |s.families| && s.families[family].user < |s.users|
              && (result == Replayed <==> s.sessions[token].usedAt.Some?)
              && (if result == Replayed then
                    EndsOnly(s, t, family) && t.families[family].reuseDetectedAt.Some?
                  else if s.users[s.families[family].user].status != ActiveAccount
                          && s.families[family].revokedAt.None? then
                    EndsOnly(s, t, family) && t.families[family].reuseDetectedAt == s.families[family].reuseDetectedAt
                  else t == s)
  {
    if token < |s.sessions| {
      InvParts(cfg, s);
      assert SessionValid(s, token);
      assert FamilyValid(s, s.families[s.sessions[token].family]);
    }
    hide Inv, Chains, Accounts;
  }

  // -------------------------------------------------------------------- logging in

  /** The lock of the account has not run out. */
  ghost predicate LockedOut(s: State, user: Id)
    requires user < |s.users|
  {
    s.users[user].lockedUntil.Some? && s.clock < s.users[user].lockedUntil.value
  }

  /** The password is the one the user's hash was made of. */
  ghost predicate Knows(s: State, user: Id, password: nat) {
    && user < |s.users| && s.users[user].hash < |s.hashes|
    && s.hashes[s.users[user].hash].password == password
  }

  lemma SnapshotTaken(cfg: Settings, s: State, user: Id, password: nat, rehash: bool, actions: seq<Action>)
    requires cfg.Valid() && Inv(cfg, s) && user < |s.users|
    ensures var t := Run(cfg, StartLogin(s, user, password, rehash), actions);
            && Inv(cfg, t) && user < |t.users| && |s.guesses| < |t.guesses|
            && t.guesses[|s.guesses|] == Guess(user, password, Some(s.users[user].hash), rehash)
            && s.users[user].hash < |s.hashes| && s.hashes <= t.hashes
            && t.users[user].status == s.users[user].status
  {
    var first := StartLogin(s, user, password, rehash);
    InvParts(cfg, s);
    assert UserValid(s, user);
    StepKeeps(cfg, s, BeginLogin(user, password, rehash));
    hide Inv;
    RunKeeps(cfg, first, actions);
    hide Run;
  }

  /** Whatever runs between the two halves of a login: as long as the user's hash stays, the login
      succeeds exactly with the right password, for an active account that is not locked when it is
      committed. */
  lemma LoginExactly(cfg: Settings, s: State, user: Id, password: nat, rehash: bool, actions: seq<Action>)
    requires cfg.Valid() && Inv(cfg, s) && user < |s.users|
    requires var t := Run(cfg, StartLogin(s, user, password, rehash), actions);
             user < |t.users| && t.users[user].hash == s.users[user].hash
    ensures var t := Run(cfg, StartLogin(s, user, password, rehash), actions);
            FinishLogin(cfg, t, |s.guesses|).1
            == if Knows(s, user, password) && s.users[user].status == ActiveAccount && !LockedOut(t, user)
               then LoggedIn(|t.families|, |t.sessions|) else LoginFailed
  {
    SnapshotTaken(cfg, s, user, password, rehash, actions);
    hide Inv, Run;
  }

  /** What a login opens: until it is revoked, the family's access claims are accepted and its newest
      token is rotated up to the second the login's term is over, and never after. */
  lemma LoginOpens(cfg: Settings, t: State, guess: Id, actions: seq<Action>, c: Claims)
    requires cfg.Valid() && Inv(cfg, t) && Together(t) && FinishLogin(cfg, t, guess).1.LoggedIn?
    ensures var (u, result) := FinishLogin(cfg, t, guess);
            var v := Run(cfg, u, actions);
            var ends := t.clock + cfg.refreshSeconds;
            && guess < |t.guesses| && result.family < |u.families| && result.token < |u.sessions|
            && u.families[result.family].user == t.guesses[guess].user
            && u.families[result.family].revokedAt.None? && u.sessions[result.token].usedAt.None?
            && result.family < |v.families| && result.token < |v.sessions|
            && (v.families[result.family].revokedAt.None? ==>
                  && (c.family == result.family && c.user == t.guesses[guess].user ==>
                        (Accepts(v, c) <==> v.clock < c.expiresAt && v.clock < ends))
                  && (v.sessions[result.token].usedAt.None? ==>
                        (Refresh(v, result.token).1.Rotated? <==> v.clock < ends)))
  {
    var (u, result) := FinishLogin(cfg, t, guess);
    StepKeeps(cfg, t, CommitLogin(guess));
    TogetherStep(cfg, t, CommitLogin(guess));
    assert u.users[t.guesses[guess].user].status == ActiveAccount;
    hide Inv, FinishLogin, Refresh, LoginValid, Together;
    RunKeeps(cfg, u, actions);
    RunTogether(cfg, u, actions);
    var v := Run(cfg, u, actions);
    hide Run;
    assert FamilyContinues(u.families[result.family], v.families[result.family]);
    assert SessionContinues(u.sessions[result.token], v.sessions[result.token]);
    hide Continues;
    RotatableExactly(cfg, v, result.token);
  }

  /** What a login writes: counters and lock cleared, one family and one token opened, and, when the
      hash is out of date, a new hash of the same password; nothing of anybody else. */
  lemma LoginWrites(cfg: Settings, t: State, guess: Id)
    requires cfg.Valid() && Inv(cfg, t) && FinishLogin(cfg, t, guess).1.LoggedIn?
    ensures guess < |t.guesses| && t.guesses[guess].user < |t.users|
    ensures var g := t.guesses[guess];
            var u := FinishLogin(cfg, t, guess).0;
            && u.users == t.users[g.user := u.users[g.user]]
            && u.users[g.user].failed == 0 && u.users[g.user].lockedUntil.None?
            && u.users[g.user].status == t.users[g.user].status
            && u.users[g.user].authorizationVersion == t.users[g.user].authorizationVersion
            && (if g.rehash then
                  && |u.hashes| == |t.hashes| + 1 && t.hashes <= u.hashes && u.users[g.user].hash == |t.hashes|
                  && u.hashes[|t.hashes|].user == g.user
                else u.hashes == t.hashes && u.users[g.user].hash == t.users[g.user].hash)
            && Knows(u, g.user, g.password)
            && |u.families| == |t.families| + 1 && t.families <= u.families
            && |u.sessions| == |t.sessions| + 1 && t.sessions <= u.sessions
  {
    hide Inv;
  }

  /** A failed login counts once and locks from the threshold on, for the whole lock period; while
      locked it does not count; and it touches nobody else and no session. */
  lemma FailureExactly(cfg: Settings, t: State, guess: Id)
    requires guess < |t.guesses| && t.guesses[guess].user < |t.users| && FinishLogin(cfg, t, guess).1 == LoginFailed
    ensures var user := t.guesses[guess].user;
            var u := FinishLogin(cfg, t, guess).0;
            && |u.users| == |t.users| && u == t.(users := t.users[user := u.users[user]])
            && (LockedOut(t, user) ==> u == t)
            && (!LockedOut(t, user) ==>
                  && u.users[user].failed == t.users[user].failed + 1
                  && u.users[user].lockedUntil == (if t.users[user].failed + 1 >= cfg.threshold
                                                   then Some(t.clock + cfg.lockSeconds) else t.users[user].lockedUntil)
                  && u.users[user].hash == t.users[user].hash && u.users[user].status == t.users[user].status)
  {
    var user := t.guesses[guess].user;
    assert t.users[user := t.users[user]] == t.users;
    hide LoginValid;
  }

  // -------------------------------------------------------------------- a new password

  /** Alone, from start to commit. */
  function LogIn(cfg: Settings, s: State, user: Id, password: nat): LoginResult {
    FinishLogin(cfg, StartLogin(s, user, password, false), |s.guesses|).1
  }

  lemma LogInExactly(cfg: Settings, s: State, user: Id, password: nat)
    requires cfg.Valid() && Inv(cfg, s) && user < |s.users|
    ensures LogIn(cfg, s, user, password).LoggedIn? <==>
            Knows(s, user, password) && s.users[user].status == ActiveAccount && !LockedOut(s, user)
  {
    LoginExactly(cfg, s, user, password, false, []);
    assert Run(cfg, StartLogin(s, user, password, false), []) == StartLogin(s, user, password, false);
    hide Inv, FinishLogin;
  }

  /** A registered account's password gets in from the start if the account is active, and no other. */
  lemma RegisteredLogsIn(cfg: Settings, s: State, password: nat, status: AccountStatus, tried: nat)
    requires cfg.Valid() && Inv(cfg, s)
    ensures var t := Step(cfg, s, Register(password, status));
            && |t.users| == |s.users| + 1 && s.users <= t.users
            && (LogIn(cfg, t, |s.users|, tried).LoggedIn? <==> tried == password && status == ActiveAccount)
  {
    StepKeeps(cfg, s, Register(password, status));
    hide Inv, Continues, LogIn;
    LogInExactly(cfg, Step(cfg, s, Register(password, status)), |s.users|, tried);
  }

  /** The new password gets in at once, whatever lock there was, and no other password does. */
  lemma OnlyTheNewPassword(cfg: Settings, s: State, user: Id, password: nat, tried: nat)
    requires cfg.Valid() && Inv(cfg, s) && user < |s.users|
    ensures var t := WithPassword(s, user, password);
            && user < |t.users| && t.users == s.users[user := t.users[user]]
            && t.users[user].status == s.users[user].status
            && t.users[user].authorizationVersion == s.users[user].authorizationVersion + 1
            && (LogIn(cfg, t, user, tried).LoggedIn? <==> tried == password && s.users[user].status == ActiveAccount)
  {
    PasswordStep(cfg, s, user, password);
    var t := WithPassword(s, user, password);
    assert Knows(t, user, tried) <==> tried == password;
    hide Inv, Continues, LogIn;
    LogInExactly(cfg, t, user, tried);
  }

  /** A change of password is made exactly with the current one, by an active account whose hash did
      not change meanwhile; then only the new password gets in. */
  lemma ChangeExactly(cfg: Settings, s: State, user: Id, current: nat, replacement: nat, actions: seq<Action>,
      tried: nat)
    requires cfg.Valid() && Inv(cfg, s) && user < |s.users|
    requires var t := Run(cfg, StartChange(s, user, current, replacement), actions);
             user < |t.users| && t.users[user].hash == s.users[user].hash
    ensures var t := Run(cfg, StartChange(s, user, current, replacement), actions);
            var (u, changed) := FinishChange(t, |s.changes|);
            && (changed <==> Knows(s, user, current) && s.users[user].status == ActiveAccount)
            && (!changed ==> u == t)
            && (changed ==>
                  && user < |u.users| && u.users == t.users[user := u.users[user]]
                  && u.users[user].authorizationVersion == t.users[user].authorizationVersion + 1
                  && (LogIn(cfg, u, user, tried).LoggedIn? <==> tried == replacement))
  {
    var first := StartChange(s, user, current, replacement);
    InvParts(cfg, s);
    assert UserValid(s, user);
    StepKeeps(cfg, s, BeginChange(user, current, replacement));
    hide Inv, WithPassword, LogIn;
    RunKeeps(cfg, first, actions);
    var t := Run(cfg, first, actions);
    hide Run;
    assert t.changes[|s.changes|] == Change(user, current, Some(s.users[user].hash), replacement);
    OnlyTheNewPassword(cfg, t, user, replacement, tried);
  }

  /** A recovery challenge resets the password exactly while it is open, in time and within its tries,
      for an account that has not been deleted; then only the new password gets in. */
  lemma ResetExactly(cfg: Settings, s: State, challenge: Id, password: nat, tried: nat)
    requires cfg.Valid() && Inv(cfg, s)
    ensures var (t, done) := ResetPassword(s, challenge, password);
            && (done <==>
                  && challenge < |s.recoveries| && s.recoveries[challenge].consumedAt.None?
                  && s.clock < s.recoveries[challenge].expiresAt
                  && s.recoveries[challenge].attempts < s.recoveries[challenge].maxAttempts
                  && s.recoveries[challenge].user < |s.users|
                  && s.users[s.recoveries[challenge].user].status != DeletedAccount)
            && (!done ==> t == s)
            && (done ==>
                  var user := s.recoveries[challenge].user;
                  && user < |t.users| && t.users == s.users[user := t.users[user]]
                  && t.users[user].authorizationVersion == s.users[user].authorizationVersion + 1
                  && (LogIn(cfg, t, user, tried).LoggedIn? <==>
                        tried == password && s.users[user].status == ActiveAccount))
  {
    if ResetPassword(s, challenge, password).1 {
      var r := s.recoveries[challenge];
      var rows := s.recoveries[challenge := r.(consumedAt := Some(s.clock))];
      assert Recoveries(s.(recoveries := rows)) by { hide Accounts, Chains, Continues; }
      hide Inv, Continues, WithPassword, LogIn, Recoveries;
      RecoveriesOnly(cfg, s, rows);
      OnlyTheNewPassword(cfg, s.(recoveries := rows), r.user, password, tried);
    }
  }

  /** Asked for, a challenge is good at once, and for its whole term if nothing else is done. */
  lemma RecoveryIsObtained(cfg: Settings, s: State, user: Id, ttl: nat, later: Time, password: nat)
    requires cfg.Valid() && Inv(cfg, s) && user < |s.users| && s.users[user].status != DeletedAccount
    requires s.clock <= later
    ensures var t := RequestRecovery(s, user, ttl).(clock := later);
            |t.recoveries| == |s.recoveries| + 1
            && (ResetPassword(t, |s.recoveries|, password).1 <==> later < s.clock + ttl)
  {
    hide Inv, WithPassword;
  }

  // -------------------------------------------------------------------- logging out

  /** Ending all sessions of a user ends all of that user's, and nobody else's. */
  lemma LogoutAllExactly(s: State, user: Id)
    ensures var t := RevokeUser(s, user);
            && t == s.(families := t.families, sessions := t.sessions)
            && |t.families| == |s.families|
            && forall f | 0 <= f < |s.families| ::
                 if s.families[f].user == user then t.families[f].revokedAt.Some? else t.families[f] == s.families[f]
  {}

  /** One's own session ends by logging out; for anybody else's it is as if nothing was asked. */
  lemma LogoutExactly(s: State, user: Id, family: Id)
    ensures var t := RevokeOwn(s, user, family);
            && (family < |s.families| && s.families[family].user == user ==>
                  family < |t.families| && t.families[family].revokedAt.Some?)
            && (family < |s.families| && s.families[family].user != user ==> t == s)
            && |t.families| == |s.families|
            && forall f | 0 <= f < |s.families| && f != family :: t.families[f] == s.families[f]
  {}
}
