/** Everything that writes what a user's capabilities depend on, running beside the readers of the
    capability cache: dealer transactions lock by lock, email and phone challenges, seller
    profiles, sign-ups and password changes. */
module CapabilityWriters {
  import opened Core
  import Authz = AuthorizationCache
  import D = Dealers

  datatype Kind = Email | Phone

  /** `secret` stands for the digest of the code that was sent. */
  datatype Challenge = Challenge(
    user: Id, kind: Kind, secret: nat, attempts: nat, maxAttempts: nat, expiresAt: Time, consumedAt: Option<Time>)

  /** The rest of the account, one row per user. */
  datatype Profile = Profile(deleted: bool, seller: Option<Authz.Seller>)

  datatype Tables = Tables(dealers: D.State, profiles: seq<Profile>, challenges: seq<Challenge>)

  datatype Outcome = Failed | Waits | Done

  // -------------------------------------------------------------------- the writers

  /** No dealer transaction holds the user's row: a transaction that wants it need not wait. */
  predicate Free(t: Tables, u: Id) { D.UserRow(u) !in t.dealers.locks }

  function WithUser(t: Tables, u: Id, row: D.User): Tables
    requires u < |t.dealers.users|
  {
    t.(dealers := t.dealers.(users := t.dealers.users[u := row]))
  }

  predicate Usable(c: Challenge, kind: Kind, now: Time) {
    c.kind == kind && c.consumedAt.None? && c.expiresAt > now && c.attempts < c.maxAttempts
  }

  function Confirmed(u: D.User, kind: Kind): D.User {
    match kind
    case Email => D.Bumped(u).(emailVerified := true)
    case Phone => D.Bumped(u).(phoneVerified := true)
  }

  function VerifyChallenge(t: Tables, id: Id, kind: Kind, code: nat, now: Time): (Tables, Outcome) {
    if id >= |t.challenges| || !Usable(t.challenges[id], kind, now) then (t, Failed)
    else
      var c := t.challenges[id];
      if code != c.secret then
        (t.(challenges := t.challenges[id := c.(attempts := c.attempts + 1)]), Failed)
      else if c.user >= |t.dealers.users| || c.user >= |t.profiles| then (t, Failed)
      else if !Free(t, c.user) then (t, Waits)
      else if t.profiles[c.user].deleted then (t, Failed)
      else
        (WithUser(t, c.user, Confirmed(t.dealers.users[c.user], kind))
           .(challenges := t.challenges[id := c.(consumedAt := Some(now))]),
         Done)
  }

  function CreateSellerProfile(t: Tables, u: Id): (Tables, Outcome) {
    if u >= |t.dealers.users| || u >= |t.profiles| then (t, Failed)
    else if !Free(t, u) then (t, Waits)
    else if !t.dealers.users[u].active then (t, Failed)
    else if t.profiles[u].seller.Some? then (t, Done)
    else
      (WithUser(t, u, D.Bumped(t.dealers.users[u]))
         .(profiles := t.profiles[u := t.profiles[u].(seller := Some(Authz.Seller(false, false)))]),
       Done)
  }

  /** What a password change or reset means for the user's row here: a new version. */
  function NewPassword(t: Tables, u: Id): Tables {
    if u >= |t.dealers.users| || !Free(t, u) then t else WithUser(t, u, D.Bumped(t.dealers.users[u]))
  }

  /** Registration opens an email challenge, and one for the phone if a number was given. */
  function SignUp(t: Tables, emailCode: nat, phoneCode: Option<nat>, expiresAt: Time): Tables {
    var u := |t.dealers.users|;
    Tables(D.Step(t.dealers, D.Register(D.User(true, false, false, 1))),
           t.profiles + [Profile(false, None)],
           t.challenges + [Challenge(u, Email, emailCode, 0, 5, expiresAt, None)]
           + (if phoneCode.Some? then [Challenge(u, Phone, phoneCode.value, 0, 5, expiresAt, None)] else []))
  }

  datatype Write =
    | Dealer(action: D.Action)
    | Register(emailCode: nat, phoneCode: Option<nat>, expiresAt: Time)
    | Verify(challenge: Id, kind: Kind, code: nat, now: Time)
    | Sell(user: Id)
    | Password(user: Id)

  /** The tables after one step of a writer; a waiting one leaves them as they are. */
  function Written(t: Tables, w: Write): Tables {
    match w
    case Dealer(a) => if a.Register? then t else t.(dealers := D.Step(t.dealers, a))
    case Register(emailCode, phoneCode, expiresAt) => SignUp(t, emailCode, phoneCode, expiresAt)
    case Verify(id, kind, code, now) => VerifyChallenge(t, id, kind, code, now).0
    case Sell(u) => CreateSellerProfile(t, u).0
    case Password(u) => NewPassword(t, u)
  }

  // -------------------------------------------------------------------- what the cache is told

  function InputsOf(t: Tables, u: Id): Authz.Inputs
    requires u < |t.dealers.users|
  {
    D.InputsOf(t.dealers, u).(seller := if u < |t.profiles| then t.profiles[u].seller else None)
  }

  function FirstInputs(t: Tables, n: nat): (inputs: seq<Authz.Inputs>)
    requires n <= |t.dealers.users|
    ensures |inputs| == n && forall u: Id | u < n :: inputs[u] == InputsOf(t, u)
  {
    if n == 0 then [] else FirstInputs(t, n - 1) + [InputsOf(t, n - 1)]
  }

  function AllInputs(t: Tables): seq<Authz.Inputs> { FirstInputs(t, |t.dealers.users|) }

  // -------------------------------------------------------------------- the writers' invariant

  ghost predicate ChallengeValid(t: Tables, c: Challenge) {
    c.user < |t.dealers.users| && c.attempts <= c.maxAttempts
  }

  ghost predicate TablesInv(t: Tables) {
    && D.Inv(t.dealers)
    && |t.profiles| == |t.dealers.users|
    && forall c | 0 <= c < |t.challenges| :: ChallengeValid(t, t.challenges[c])
  }

  /** The row of a user nobody has locked may be rewritten: no transaction has a copy of it. */
  lemma FreeRowWritten(s: D.State, u: Id, row: D.User)
    requires D.Inv(s) && u < |s.users| && D.UserRow(u) !in s.locks
    ensures D.Inv(s.(users := s.users[u := row]))
  {
    var later := s.(users := s.users[u := row]);
    forall t: Id | t < |later.transactions| ensures D.Current(later, t) {
      assert D.Current(s, t);
      hide D.Tables, D.HasOtherOwner;
    }
    hide D.Current;
  }

  lemma OtherInputs(t: Tables, later: Tables, u: Id, v: Id)
    requires v < |t.dealers.users| <= |later.dealers.users| && v != u
    requires later.dealers.organizations == t.dealers.organizations && later.dealers.members == t.dealers.members
    requires later.dealers.users[v] == t.dealers.users[v] && v < |t.profiles| <= |later.profiles|
    requires later.profiles[v] == t.profiles[v]
    ensures InputsOf(later, v) == InputsOf(t, v)
  {}

  /** A commit that rewrites one user's row under a greater version and nothing of anyone else. */
  lemma OneUserBumps(t: Tables, later: Tables, u: Id)
    requires TablesInv(t) && u < |t.dealers.users| == |later.dealers.users| && |later.profiles| == |t.profiles|
    requires later.dealers == t.dealers.(users := t.dealers.users[u := later.dealers.users[u]])
    requires t.dealers.users[u].authorizationVersion < later.dealers.users[u].authorizationVersion
    requires later.profiles == t.profiles[u := later.profiles[u]]
    ensures Authz.Bumps(AllInputs(t), AllInputs(later))
  {
    hide D.Inv, D.JoinedMembers, ChallengeValid;
    forall v: Id | v < |t.dealers.users| ensures Authz.Bumped(InputsOf(t, v), InputsOf(later, v)) {
      if v != u { OtherInputs(t, later, u, v); }
    }
  }

  lemma VerifyBumps(t: Tables, id: Id, kind: Kind, code: nat, now: Time)
    requires TablesInv(t)
    ensures var later := VerifyChallenge(t, id, kind, code, now).0;
            TablesInv(later) && Authz.Bumps(AllInputs(t), AllInputs(later))
  {
    var (later, outcome) := VerifyChallenge(t, id, kind, code, now);
    if outcome == Done {
      var u := t.challenges[id].user;
      FreeRowWritten(t.dealers, u, Confirmed(t.dealers.users[u], kind));
      hide D.Inv, D.JoinedMembers;
      OneUserBumps(t, later, u);
    } else {
      hide D.Inv, D.JoinedMembers;
      SameInputs(t, later);
    }
  }

  lemma SameInputs(t: Tables, later: Tables)
    requires TablesInv(t) && later.dealers == t.dealers && later.profiles == t.profiles
    ensures Authz.Bumps(AllInputs(t), AllInputs(later))
  {
    hide D.Inv, D.InputsOf, ChallengeValid;
  }

  lemma SellBumps(t: Tables, u: Id)
    requires TablesInv(t)
    ensures var later := CreateSellerProfile(t, u).0;
            TablesInv(later) && Authz.Bumps(AllInputs(t), AllInputs(later))
  {
    var later := CreateSellerProfile(t, u).0;
    if later != t {
      FreeRowWritten(t.dealers, u, D.Bumped(t.dealers.users[u]));
      hide D.Inv, D.JoinedMembers;
      OneUserBumps(t, later, u);
    } else {
      hide D.Inv, D.JoinedMembers;
      SameInputs(t, later);
    }
  }

  lemma PasswordBumps(t: Tables, u: Id)
    requires TablesInv(t)
    ensures TablesInv(NewPassword(t, u)) && Authz.Bumps(AllInputs(t), AllInputs(NewPassword(t, u)))
  {
    var later := NewPassword(t, u);
    if later != t {
      FreeRowWritten(t.dealers, u, D.Bumped(t.dealers.users[u]));
      hide D.Inv, D.JoinedMembers;
      OneUserBumps(t, later, u);
    } else {
      hide D.Inv, D.JoinedMembers;
      SameInputs(t, later);
    }
  }

  lemma SignUpBumps(t: Tables, emailCode: nat, phoneCode: Option<nat>, expiresAt: Time)
    requires TablesInv(t)
    ensures var later := SignUp(t, emailCode, phoneCode, expiresAt);
            TablesInv(later) && Authz.Bumps(AllInputs(t), AllInputs(later))
  {
    var later := SignUp(t, emailCode, phoneCode, expiresAt);
    D.StepKeeps(t.dealers, D.Register(D.User(true, false, false, 1)));
    hide D.Inv, D.Continues, D.JoinedMembers;
    forall c | 0 <= c < |later.challenges| ensures ChallengeValid(later, later.challenges[c]) {
      if c < |t.challenges| { assert ChallengeValid(t, t.challenges[c]); }
    }
    forall v: Id | v < |t.dealers.users| ensures Authz.Bumped(InputsOf(t, v), InputsOf(later, v)) {
      OtherInputs(t, later, |t.dealers.users|, v);
    }
  }

  lemma DealerBumps(t: Tables, a: D.Action)
    requires TablesInv(t) && !a.Register?
    ensures var later := t.(dealers := D.Step(t.dealers, a));
            TablesInv(later) && Authz.Bumps(AllInputs(t), AllInputs(later))
  {
    var later := t.(dealers := D.Step(t.dealers, a));
    NoNewUser(t.dealers, a);
    D.StepKeeps(t.dealers, a);
    D.StepBumps(t.dealers, a);
    hide D.Inv, D.Continues, D.Step, D.InputsOf;
    var before, after := D.AllInputs(t.dealers, |t.dealers.users|), D.AllInputs(later.dealers, |later.dealers.users|);
    forall v: Id | v < |t.dealers.users| ensures Authz.Bumped(InputsOf(t, v), InputsOf(later, v)) {
      assert Authz.Bumped(before[v], after[v]);
    }
    forall c | 0 <= c < |t.challenges| ensures ChallengeValid(later, t.challenges[c]) {
      assert ChallengeValid(t, t.challenges[c]);
    }
  }

  lemma NoNewUser(s: D.State, a: D.Action)
    requires !a.Register?
    ensures |D.Step(s, a).users| == |s.users|
  {}

  /** Every step of every writer raises the version of whoever's inputs it changes. */
  lemma WriteBumps(t: Tables, w: Write)
    requires TablesInv(t)
    ensures TablesInv(Written(t, w)) && Authz.Bumps(AllInputs(t), AllInputs(Written(t, w)))
  {
    hide TablesInv, AllInputs, VerifyChallenge, CreateSellerProfile, NewPassword, SignUp, Authz.Bumps, D.Step;
    match w
    case Dealer(a) => if a.Register? { SameInputs(t, t); } else { DealerBumps(t, a); }
    case Register(emailCode, phoneCode, expiresAt) => SignUpBumps(t, emailCode, phoneCode, expiresAt);
    case Verify(id, kind, code, now) => VerifyBumps(t, id, kind, code, now);
    case Sell(u) => SellBumps(t, u);
    case Password(u) => PasswordBumps(t, u);
  }

  // -------------------------------------------------------------------- writers and readers together

  /** Everything but a commit: readers' queries and cache operations, deletions, expiry. */
  type CacheMove = a: Authz.Action | !a.Commit? witness Authz.Forget(0)

  datatype Action = Writes(write: Write) | Cache(move: CacheMove)

  /** The tables, and what the readers of the cache see of them. */
  datatype State = State(tables: Tables, cache: Authz.State)

  function CacheAction(s: State, a: Action): Authz.Action {
    match a
    case Writes(w) => Authz.Commit(AllInputs(Written(s.tables, w)))
    case Cache(m) => m
  }

  function Step(s: State, a: Action): State
    requires |s.cache.log| > 0
  {
    State(if a.Writes? then Written(s.tables, a.write) else s.tables, Authz.Step(s.cache, CacheAction(s, a)))
  }

  function Run(s: State, actions: seq<Action>): (t: State)
    requires |s.cache.log| > 0
    ensures |t.cache.log| > 0
    decreases |actions|
  {
    if actions == [] then s else Run(Step(s, actions[0]), actions[1..])
  }

  /** The same run as the cache sees it. */
  function CacheActions(s: State, actions: seq<Action>): seq<Authz.Action>
    requires |s.cache.log| > 0
    decreases |actions|
  {
    if actions == [] then [] else [CacheAction(s, actions[0])] + CacheActions(Step(s, actions[0]), actions[1..])
  }

  /** The last commit the readers see is what the tables hold. */
  ghost predicate InSync(s: State) {
    |s.cache.log| > 0 && s.cache.log[|s.cache.log| - 1] == AllInputs(s.tables)
  }

  ghost predicate Inv(s: State) {
    TablesInv(s.tables) && InSync(s) && Authz.Inv(s.cache)
  }

  function Initial(t: Tables): State { State(t, Authz.Initial(AllInputs(t))) }

  lemma InitialInv(t: Tables)
    requires TablesInv(t)
    ensures Inv(Initial(t))
  {
    hide TablesInv, AllInputs, Authz.Inv;
    Authz.InitialInv(AllInputs(t));
  }

  lemma StepKeeps(s: State, a: Action)
    requires Inv(s)
    ensures Inv(Step(s, a))
    ensures CacheAction(s, a).Commit? ==> Authz.Bumps(s.cache.log[Authz.Now(s.cache)], CacheAction(s, a).tables)
  {
    hide TablesInv, AllInputs, Authz.Inv, Written, Authz.Bumps, Authz.Moved;
    if a.Writes? { WriteBumps(s.tables, a.write); }
    Authz.StepKeepsInv(s.cache, CacheAction(s, a));
  }

  /** Any run of dealer, challenge, profile, sign-up and password steps, with readers, deletions
      and expiry in between, is a run in which every commit bumps what it changes. */
  lemma {:induction false} RunsBehave(s: State, actions: seq<Action>)
    requires Inv(s)
    ensures Authz.WellBehaved(s.cache, CacheActions(s, actions))
    ensures Run(s, actions).cache == Authz.Run(s.cache, CacheActions(s, actions))
    ensures Inv(Run(s, actions))
    decreases |actions|
  {
    if actions != [] {
      var a := CacheAction(s, actions[0]);
      var next := Step(s, actions[0]);
      var rest := CacheActions(next, actions[1..]);
      StepKeeps(s, actions[0]);
      RunsBehave(next, actions[1..]);
      assert ([a] + rest)[0] == a && ([a] + rest)[1..] == rest;
      hide Inv, CacheAction, Authz.Step, Authz.Bumps;
    }
  }

  /** What a hit is worth in every such run. It equals recomputation at the moment its version was
      read exactly when the fill behind it was consistent, which a fill is during which the user's
      version stood still. In any case no part of it is older than that moment. */
  lemma HitsOfRuns(s: State, actions: seq<Action>, r: Id) returns (user: nat, seller: nat, members: nat)
    requires Inv(s)
    requires var readers := Run(s, actions).cache.readers; r < |readers| && readers[r].Answered? && readers[r].hit
    ensures var log := Run(s, actions).cache.log;
            var a := Run(s, actions).cache.readers[r];
            var f := a.entry.filledAt;
            && Authz.Known(log, a.userAt, a.user) && log[a.userAt][a.user].version == a.version
            && Authz.Known(log, f.0, a.user) && Authz.Known(log, f.1, a.user) && Authz.Known(log, f.2, a.user)
            && (a.entry.projection == Authz.Recomputed(log[a.userAt][a.user]) <==> Authz.FillConsistent(log, a.user, f))
            && (log[f.0][a.user].version == log[f.2][a.user].version ==> Authz.FillConsistent(log, a.user, f))
            && Authz.SeenSince(log, a.user, a.userAt, a.gotAt, user)
            && Authz.SeenSince(log, a.user, a.userAt, a.gotAt, seller)
            && Authz.SeenSince(log, a.user, a.userAt, a.gotAt, members)
            && a.entry.projection == Authz.Project(log[user][a.user].account, log[seller][a.user].seller,
                                                   log[members][a.user].members)
  {
    RunsBehave(s, actions);
    var cache := Run(s, actions).cache;
    hide Run, TablesInv, InSync, Authz.Project, Authz.Recomputed, Authz.SeenSince, Authz.FillConsistent, CacheActions;
    Authz.AnswerKnown(cache, r);
    Authz.HitExactly(cache, r);
    user, seller, members := Authz.HitIsNeverStale(cache, r);
  }

  // -------------------------------------------------------------------- what challenges are worth

  /** Consumed between the two: it was open or did not exist, and is spent now. */
  ghost predicate Spent(t: Tables, later: Tables, c: Id, u: Id, kind: Kind) {
    && c < |later.challenges| && later.challenges[c].user == u && later.challenges[c].kind == kind
    && later.challenges[c].consumedAt.Some? && (c < |t.challenges| ==> t.challenges[c].consumedAt.None?)
  }

  predicate Shown(u: D.User, kind: Kind) { if kind == Email then u.emailVerified else u.phoneVerified }

  /** Challenges stay; a spent one never changes. An address shown verified stays so, and became
      so by spending a challenge of that user and kind. */
  ghost predicate Continues(t: Tables, later: Tables) {
    && |t.dealers.users| <= |later.dealers.users| && |t.challenges| <= |later.challenges|
    && (forall c | 0 <= c < |t.challenges| :: ChallengeContinues(t.challenges[c], later.challenges[c]))
    && (forall u: Id, kind | u < |t.dealers.users| ::
          && (Shown(t.dealers.users[u], kind) ==> Shown(later.dealers.users[u], kind))
          && (Shown(later.dealers.users[u], kind) ==>
                Shown(t.dealers.users[u], kind) || exists c :: Spent(t, later, c, u, kind)))
  }

  ghost predicate ChallengeContinues(a: Challenge, b: Challenge) {
    && b == a.(attempts := b.attempts, consumedAt := b.consumedAt) && a.attempts <= b.attempts
    && (a.consumedAt.Some? ==> b == a)
  }

  lemma DealersKeepAccounts(s: D.State, a: D.Action, u: Id)
    requires D.Inv(s) && u < |s.users|
    ensures u < |D.Step(s, a).users| && D.UserContinues(s.users[u], D.Step(s, a).users[u])
  {
    D.StepKeeps(s, a);
    hide D.Inv, D.Step;
  }

  lemma DealerContinues(t: Tables, a: D.Action)
    requires TablesInv(t) && !a.Register?
    ensures Continues(t, t.(dealers := D.Step(t.dealers, a)))
  {
    var later := D.Step(t.dealers, a);
    NoNewUser(t.dealers, a);
    hide D.Step, ChallengeValid;
    forall u: Id | u < |t.dealers.users| ensures D.UserContinues(t.dealers.users[u], later.users[u]) {
      DealersKeepAccounts(t.dealers, a, u);
    }
    hide D.Inv;
  }

  lemma WriteContinues(t: Tables, w: Write)
    requires TablesInv(t)
    ensures Continues(t, Written(t, w))
  {
    var later := Written(t, w);
    if w.Dealer? && !w.action.Register? { DealerContinues(t, w.action); }
    hide D.Inv, ChallengeValid;
    if w.Verify? && VerifyChallenge(t, w.challenge, w.kind, w.code, w.now).1 == Done {
      assert Spent(t, later, w.challenge, t.challenges[w.challenge].user, w.kind);
    }
    if w.Dealer? { hide D.Step; }
  }

  lemma SpentLater(t: Tables, mid: Tables, later: Tables, c: Id, u: Id, kind: Kind)
    requires Continues(t, mid) && Continues(mid, later)
    requires Spent(t, mid, c, u, kind) || Spent(mid, later, c, u, kind)
    ensures Spent(t, later, c, u, kind)
  {
    if c < |mid.challenges| { assert ChallengeContinues(mid.challenges[c], later.challenges[c]); }
    if c < |t.challenges| { assert ChallengeContinues(t.challenges[c], mid.challenges[c]); }
  }

  lemma ContinuesTransitive(t: Tables, mid: Tables, later: Tables)
    requires Continues(t, mid) && Continues(mid, later)
    ensures Continues(t, later)
  {
    forall c | 0 <= c < |t.challenges| ensures ChallengeContinues(t.challenges[c], later.challenges[c]) {
      assert ChallengeContinues(t.challenges[c], mid.challenges[c]);
      assert ChallengeContinues(mid.challenges[c], later.challenges[c]);
    }
    forall u: Id, kind | u < |t.dealers.users|
      ensures Shown(t.dealers.users[u], kind) ==> Shown(later.dealers.users[u], kind)
      ensures Shown(later.dealers.users[u], kind) ==>
                Shown(t.dealers.users[u], kind) || exists c :: Spent(t, later, c, u, kind)
    {
      if !Shown(mid.dealers.users[u], kind) && Shown(later.dealers.users[u], kind) {
        var c :| Spent(mid, later, c, u, kind);
        SpentLater(t, mid, later, c, u, kind);
      } else if !Shown(t.dealers.users[u], kind) && Shown(mid.dealers.users[u], kind) {
        var c :| Spent(t, mid, c, u, kind);
        SpentLater(t, mid, later, c, u, kind);
      }
    }
  }

  lemma {:induction false} RunContinues(s: State, actions: seq<Action>)
    requires Inv(s)
    ensures Continues(s.tables, Run(s, actions).tables)
    decreases |actions|
  {
    if actions != [] {
      var next := Step(s, actions[0]);
      if actions[0].Writes? { WriteContinues(s.tables, actions[0].write); }
      StepKeeps(s, actions[0]);
      RunContinues(next, actions[1..]);
      hide Inv, Continues, Written, Authz.Step, CacheAction, TablesInv;
      if actions[0].Writes? { ContinuesTransitive(s.tables, next.tables, Run(s, actions).tables); }
    }
  }

  /** An address is shown verified only after a challenge of that user and kind was spent, and
      then no code is accepted for that challenge again. */
  lemma VerifiedByOneChallenge(s: State, actions: seq<Action>, u: Id, kind: Kind) returns (c: Id)
    requires Inv(s) && u < |s.tables.dealers.users| && !Shown(s.tables.dealers.users[u], kind)
    requires var t := Run(s, actions).tables; u < |t.dealers.users| && Shown(t.dealers.users[u], kind)
    ensures var t := Run(s, actions).tables;
            && Spent(s.tables, t, c, u, kind)
            && forall code, now :: VerifyChallenge(t, c, kind, code, now) == (t, Failed)
  {
    RunContinues(s, actions);
    var t := Run(s, actions).tables;
    hide Inv, Run;
    c :| Spent(s.tables, t, c, u, kind);
  }

  /** A spent challenge stays spent in every run: no code is accepted, none is counted. */
  lemma ChallengeWorksOnce(s: State, actions: seq<Action>, c: Id, kind: Kind, code: nat, now: Time)
    requires Inv(s) && c < |s.tables.challenges| && s.tables.challenges[c].consumedAt.Some?
    ensures var t := Run(s, actions).tables; VerifyChallenge(t, c, kind, code, now) == (t, Failed)
  {
    RunContinues(s, actions);
    assert ChallengeContinues(s.tables.challenges[c], Run(s, actions).tables.challenges[c]);
    hide Inv, Run;
  }

  /** A code confirms an address exactly when it is the one sent, for a challenge of that kind that is
      unspent, in time and within its tries, of an account not deleted; then that address is shown
      verified and the other one as it was. */
  lemma ConfirmedExactly(t: Tables, c: Id, kind: Kind, code: nat, now: Time)
    requires TablesInv(t)
    ensures var (later, outcome) := VerifyChallenge(t, c, kind, code, now);
            var usable := c < |t.challenges| && t.challenges[c].kind == kind && t.challenges[c].consumedAt.None?
                          && now < t.challenges[c].expiresAt && t.challenges[c].attempts < t.challenges[c].maxAttempts
                          && code == t.challenges[c].secret;
            && (outcome == Done <==>
                  usable && Free(t, t.challenges[c].user) && !t.profiles[t.challenges[c].user].deleted)
            && (outcome == Waits <==> usable && !Free(t, t.challenges[c].user))
            && (outcome == Done ==>
                  var u := t.challenges[c].user;
                  && |later.dealers.users| == |t.dealers.users| && later.challenges[c].consumedAt == Some(now)
                  && forall v: Id, k | v < |t.dealers.users| ::
                       Shown(later.dealers.users[v], k) <==> Shown(t.dealers.users[v], k) || (v == u && k == kind))
  {
    if c < |t.challenges| { assert ChallengeValid(t, t.challenges[c]); }
    hide D.Inv;
  }

  /** A new account has both addresses unconfirmed, and one challenge for each it gave. */
  lemma SignedUpExactly(t: Tables, emailCode: nat, phoneCode: Option<nat>, expiresAt: Time)
    requires TablesInv(t)
    ensures var later := SignUp(t, emailCode, phoneCode, expiresAt);
            var u := |t.dealers.users|;
            && |later.dealers.users| == u + 1 && later.dealers.users[u].active
            && !Shown(later.dealers.users[u], Email) && !Shown(later.dealers.users[u], Phone)
            && |later.challenges| == |t.challenges| + (if phoneCode.Some? then 2 else 1)
            && Usable(later.challenges[|t.challenges|], Email, expiresAt - 1)
            && later.challenges[|t.challenges|].user == u && later.challenges[|t.challenges|].secret == emailCode
            && (phoneCode.Some? ==>
                  var c := later.challenges[|t.challenges| + 1];
                  Usable(c, Phone, expiresAt - 1) && c.user == u && c.secret == phoneCode.value)
  {
    hide TablesInv;
  }

  /** A new password, and nothing but that, is one version more; capabilities stay what they were. */
  lemma PasswordExactly(t: Tables, u: Id)
    requires TablesInv(t) && u < |t.dealers.users| && Free(t, u)
    ensures var later := NewPassword(t, u);
            && InputsOf(later, u).version == InputsOf(t, u).version + 1
            && Authz.Recomputed(InputsOf(later, u)) == Authz.Recomputed(InputsOf(t, u))
            && forall v: Id | v < |t.dealers.users| && v != u :: later.dealers.users[v] == t.dealers.users[v]
  {
    hide TablesInv, D.JoinedMembers, Authz.Project;
  }

  /** An active user gets a seller profile, once; it is pending and not ready. */
  lemma SellerExactly(t: Tables, u: Id)
    requires TablesInv(t)
    ensures var (later, outcome) := CreateSellerProfile(t, u);
            && (outcome == Done <==> u < |t.dealers.users| && Free(t, u) && t.dealers.users[u].active)
            && (outcome == Done ==>
                  && u < |later.profiles|
                  && later.profiles[u].seller == (if t.profiles[u].seller.Some? then t.profiles[u].seller
                                                  else Some(Authz.Seller(false, false)))
                  && forall v: Id | v < |t.profiles| && v != u :: later.profiles[v] == t.profiles[v])
            && (outcome != Done ==> later == t)
  {
    hide D.Inv;
  }

  // -------------------------------------------------------------------- guesses

  /** This step compares a code with challenge `c` and finds it wrong. */
  predicate WrongGuess(t: Tables, w: Write, c: Id) {
    && w.Verify? && w.challenge == c && c < |t.challenges|
    && Usable(t.challenges[c], w.kind, w.now) && w.code != t.challenges[c].secret
  }

  function WrongGuesses(s: State, actions: seq<Action>, c: Id): nat
    requires |s.cache.log| > 0
    decreases |actions|
  {
    if actions == [] then 0
    else
      (if actions[0].Writes? && WrongGuess(s.tables, actions[0].write, c) then 1 else 0)
      + WrongGuesses(Step(s, actions[0]), actions[1..], c)
  }

  lemma GuessCounted(t: Tables, w: Write, c: Id)
    requires c < |t.challenges|
    ensures var later := Written(t, w);
            && c < |later.challenges| && later.challenges[c].maxAttempts == t.challenges[c].maxAttempts
            && later.challenges[c].attempts == t.challenges[c].attempts + if WrongGuess(t, w, c) then 1 else 0
  {
    hide D.Step, Free;
  }

  /** Over any run, however many callers guess: no more wrong codes are ever compared with a
      challenge than its limit leaves. */
  lemma {:induction false} GuessesAreBounded(s: State, actions: seq<Action>, c: Id)
    requires Inv(s) && c < |s.tables.challenges|
    ensures s.tables.challenges[c].attempts + WrongGuesses(s, actions, c) <= s.tables.challenges[c].maxAttempts
    decreases |actions|
  {
    assert ChallengeValid(s.tables, s.tables.challenges[c]);
    if actions != [] {
      if actions[0].Writes? { GuessCounted(s.tables, actions[0].write, c); }
      StepKeeps(s, actions[0]);
      GuessesAreBounded(Step(s, actions[0]), actions[1..], c);
      hide Inv, Written, Authz.Step, CacheAction, WrongGuess;
    }
  }

  // -------------------------------------------------------------------- the services

  /** The tables the identity and profile services write, with their rows updated in place. */
  class AccountServices {
    var users: seq<D.User>
    var profiles: seq<Profile>
    var challenges: seq<Challenge>

    ghost predicate Holds(t: Tables)
      reads this
    {
      users == t.dealers.users && profiles == t.profiles && challenges == t.challenges
    }

    constructor (t: Tables)
      ensures Holds(t)
    {
      users, profiles, challenges := t.dealers.users, t.profiles, t.challenges;
    }

    /** `FOR UPDATE` on the user's row has been granted. */
    method Verify(ghost t: Tables, id: Id, kind: Kind, code: nat, now: Time) returns (verified: Option<Id>)
      requires Holds(t) && |t.profiles| == |t.dealers.users|
      requires id < |t.challenges| ==> Free(t, t.challenges[id].user)
      modifies this
      ensures Holds(VerifyChallenge(t, id, kind, code, now).0)
      ensures verified.Some? <==> VerifyChallenge(t, id, kind, code, now).1 == Done
      ensures verified.Some? ==> id < |t.challenges| && verified.value == t.challenges[id].user
    {
      if id >= |challenges| {
        return None;
      }
      var challenge := challenges[id];
      if challenge.kind != kind || challenge.consumedAt.Some? || challenge.expiresAt <= now
          || challenge.attempts >= challenge.maxAttempts {
        return None;
      }
      if code != challenge.secret {
        challenges := challenges[id := challenge.(attempts := challenge.attempts + 1)];
        return None;
      }
      if challenge.user >= |users| || profiles[challenge.user].deleted {
        return None;
      }
      challenges := challenges[id := challenge.(consumedAt := Some(now))];
      var user := users[challenge.user];
      if kind == Email {
        user := user.(emailVerified := true);
      } else {
        user := user.(phoneVerified := true);
      }
      user := user.(authorizationVersion := user.authorizationVersion + 1);
      users := users[challenge.user := user];
      verified := Some(challenge.user);
    }

    method CreateSeller(ghost t: Tables, actor: Id) returns (found: bool)
      requires Holds(t) && |t.profiles| == |t.dealers.users| && Free(t, actor)
      modifies this
      ensures Holds(CreateSellerProfile(t, actor).0)
      ensures found <==> CreateSellerProfile(t, actor).1 == Done
    {
      if actor >= |users| || !users[actor].active {
        return false;
      }
      if profiles[actor].seller.None? {
        profiles := profiles[actor := profiles[actor].(seller := Some(Authz.Seller(false, false)))];
        users := users[actor := users[actor].(authorizationVersion := users[actor].authorizationVersion + 1)];
      }
      found := true;
    }
  }
}
