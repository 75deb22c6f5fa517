/** Who may change memberships: told by the tables before and after a step, whatever runs beside it. */
module DealerAuthority {
  import opened Core
  import Authz = AuthorizationCache
  import opened D = Dealers

  /** The user holds an active membership that manages the organization: as an owner, or, where no
      owner is concerned, also as an admin; user and organization are active, the latter verified. */
  ghost predicate Manages(s: State, actor: Id, organization: Id, ownersOnly: bool) {
    && actor < |s.users| && s.users[actor].active
    && organization < |s.organizations|
    && s.organizations[organization].active && s.organizations[organization].verified
    && exists i: Id :: ManagerRow(s.members, i, actor, organization, ownersOnly)
  }

  ghost predicate ManagerRow(members: seq<Member>, i: Id, actor: Id, organization: Id, ownersOnly: bool) {
    && i < |members| && members[i].organization == organization && members[i].user == actor
    && members[i].status == Active
    && (members[i].role == Authz.Owner || (members[i].role == Authz.Admin && !ownersOnly))
  }

  /** The row is an owner's, before or after. */
  ghost predicate ConcernsOwner(s: State, t: State, m: Id)
    requires m < |t.members|
  {
    t.members[m].role == Authz.Owner || (m < |s.members| && s.members[m].role == Authz.Owner)
  }

  ghost predicate Founds(s: State, t: State, actor: Id, m: Id)
    requires m < |t.members|
  {
    && m == |s.members| && t.members[m].user == actor
    && t.members[m].organization == |s.organizations| < |t.organizations|
  }

  /** Leaving, or taking up an invitation: one's own membership, in the role it has. */
  ghost predicate OwnStep(s: State, t: State, actor: Id, m: Id)
    requires m < |t.members|
  {
    && m < |s.members| && s.members[m].user == actor < |s.users| && s.users[actor].active
    && t.members[m].role == s.members[m].role
    && ((s.members[m].status == Active && t.members[m].status == Left)
        || (s.members[m].status == Invited && t.members[m].status == Active))
  }

  ghost predicate Authorized(s: State, t: State, actor: Id, m: Id)
    requires m < |t.members|
  {
    || Manages(s, actor, t.members[m].organization, ConcernsOwner(s, t, m))
    || Founds(s, t, actor, m)
    || OwnStep(s, t, actor, m)
  }

  lemma ManagingRoles(u: User, o: Organization, own: Member)
    ensures MayManage(u, o, own) <==>
            && u.active && o.active && o.verified && own.status == Active
            && own.role in {Authz.Owner, Authz.Admin}
  {}

  /** What a transaction that may manage has read is so, and makes its actor a manager. */
  lemma CopiesManage(s: State, t: Id, ownersOnly: bool)
    requires Inv(s) && t < |s.transactions| && !s.transactions[t].done
    requires var x := s.transactions[t];
             && x.user.Some? && x.organization.Some? && x.own.Some?
             && MayManage(x.user.value, x.organization.value, x.own.value)
             && (ownersOnly ==> x.own.value.role == Authz.Owner)
    ensures var x := s.transactions[t]; Manages(s, x.actor, x.organizationId, ownersOnly)
  {
    assert Current(s, t);
    var x := s.transactions[t];
    ManagingRoles(x.user.value, x.organization.value, x.own.value);
    hide Inv, MayManage, HasOtherOwner;
    assert ManagerRow(s.members, x.ownId, x.actor, x.organizationId, ownersOnly);
  }

  lemma InviteIsAuthorized(s: State, t: Id, m: Id)
    requires Inv(s) && t < |s.transactions| && !s.transactions[t].done && s.transactions[t].request.InviteMember?
    requires Touched(s, AdvanceInvite(s, t), m)
    ensures m >= |s.members| && Authorized(s, AdvanceInvite(s, t), s.transactions[t].actor, m)
  {
    var x := s.transactions[t];
    hide Inv, MayManage, Manages, MemberFor;
    CopiesManage(s, t, x.request.role == Authz.Owner);
  }

  lemma UpdateIsAuthorized(s: State, t: Id, m: Id)
    requires Inv(s) && t < |s.transactions| && !s.transactions[t].done && s.transactions[t].request.UpdateMember?
    requires Touched(s, AdvanceUpdate(s, t), m)
    ensures m < |s.members|
    ensures Authorized(s, AdvanceUpdate(s, t), s.transactions[t].actor, m)
  {
    var x := s.transactions[t];
    assert Current(s, t);
    InvTables(s);
    hide Inv, MayManage, Manages, MemberFor, HasOtherOwner;
    CopiesManage(s, t, ConcernsOwner(s, AdvanceUpdate(s, t), m));
  }

  lemma AcceptIsAuthorized(s: State, t: Id, m: Id)
    requires Inv(s) && t < |s.transactions| && !s.transactions[t].done && s.transactions[t].request.AcceptInvitation?
    requires Touched(s, AdvanceAccept(s, t), m)
    ensures m < |s.members|
    ensures Authorized(s, AdvanceAccept(s, t), s.transactions[t].actor, m)
  {
    assert Current(s, t);
    InvTables(s);
    hide Inv, Manages, HasOtherOwner;
  }

  lemma LeaveIsAuthorized(s: State, t: Id, m: Id)
    requires Inv(s) && t < |s.transactions| && !s.transactions[t].done && s.transactions[t].request.LeaveOrganization?
    requires Touched(s, AdvanceLeave(s, t), m)
    ensures m < |s.members|
    ensures Authorized(s, AdvanceLeave(s, t), s.transactions[t].actor, m)
  {
    assert Current(s, t);
    InvTables(s);
    hide Inv, Manages, HasOtherOwner, CountOtherOwners;
  }

  lemma CreateIsAuthorized(s: State, t: Id, m: Id)
    requires Inv(s) && t < |s.transactions| && !s.transactions[t].done && s.transactions[t].request.CreateOrganization?
    requires Touched(s, AdvanceCreate(s, t), m)
    ensures m >= |s.members| && Authorized(s, AdvanceCreate(s, t), s.transactions[t].actor, m)
  {
    hide Inv, Manages;
  }

  /** Whatever step changes or adds a membership is the last one of a transaction whose actor may:
      a manager of the organization at that moment, an owner if an owner is made or unmade; the
      member itself, leaving or accepting; or the founder of a new organization. */
  lemma StepIsAuthorized(s: State, a: Action, m: Id)
    requires Inv(s) && Touched(s, Step(s, a), m)
    ensures a.Proceed? && a.transaction < |s.transactions|
    ensures Authorized(s, Step(s, a), s.transactions[a.transaction].actor, m)
  {
    hide Inv, Authorized, AdvanceCreate, AdvanceInvite, AdvanceAccept, AdvanceUpdate, AdvanceLeave;
    assert a.Proceed? && a.transaction < |s.transactions| && !s.transactions[a.transaction].done;
    match s.transactions[a.transaction].request
    case CreateOrganization => CreateIsAuthorized(s, a.transaction, m);
    case InviteMember(_, _, _, _, _) => InviteIsAuthorized(s, a.transaction, m);
    case AcceptInvitation(_, _) => AcceptIsAuthorized(s, a.transaction, m);
    case UpdateMember(_, _, _, _, _) => UpdateIsAuthorized(s, a.transaction, m);
    case LeaveOrganization(_, _) => LeaveIsAuthorized(s, a.transaction, m);
  }

  // -------------------------------------------------------------------- over runs

  /** Step number `k` of the run is the one that did it. */
  ghost predicate DoneAt(s: State, actions: seq<Action>, k: nat, m: Id)
    requires k < |actions|
  {
    var before := Run(s, actions[..k]);
    var after := Step(before, actions[k]);
    && actions[k].Proceed? && actions[k].transaction < |before.transactions|
    && Touched(before, after, m) && Authorized(before, after, before.transactions[actions[k].transaction].actor, m)
  }

  lemma DoneLater(s: State, actions: seq<Action>, k: nat, m: Id)
    requires k + 1 < |actions| && DoneAt(Step(s, actions[0]), actions[1..], k, m)
    ensures DoneAt(s, actions, k + 1, m)
  {
    assert actions[..k + 1][0] == actions[0] && actions[..k + 1][1..] == actions[1..][..k];
    assert actions[1..][k] == actions[k + 1];
    hide Step, Touched, Authorized;
  }

  /** Whatever became of a membership in a run, it was done by someone who may. */
  lemma {:induction false} ChangesAreAuthorized(s: State, actions: seq<Action>, m: Id)
    requires Inv(s) && Touched(s, Run(s, actions), m)
    ensures exists k :: 0 <= k < |actions| && DoneAt(s, actions, k, m)
    decreases |actions|
  {
    var next := Step(s, actions[0]);
    if Touched(s, next, m) {
      StepIsAuthorized(s, actions[0], m);
      assert actions[..0] == [];
      hide Step, Inv, Authorized;
      assert DoneAt(s, actions, 0, m);
    } else {
      StepKeeps(s, actions[0]);
      MembersStay(s, next);
      hide Step, Inv, Authorized, Continues;
      ChangesAreAuthorized(next, actions[1..], m);
      var k :| 0 <= k < |actions[1..]| && DoneAt(next, actions[1..], k, m);
      DoneLater(s, actions, k, m);
    }
  }

  lemma MembersStay(s: State, t: State)
    requires Continues(s, t)
    ensures |s.members| <= |t.members|
  {}

  /** The step that made row `m` an owner's, or unmade it. */
  ghost predicate OwnershipGivenAt(s: State, actions: seq<Action>, k: nat, m: Id)
    requires k < |actions|
  {
    var before := Run(s, actions[..k]);
    var after := Step(before, actions[k]);
    && actions[k].Proceed? && actions[k].transaction < |before.transactions| && m < |after.members|
    && var actor := before.transactions[actions[k].transaction].actor;
    && (Manages(before, actor, after.members[m].organization, true) || Founds(before, after, actor, m))
  }

  /** Nobody becomes an owner but by the hand of an active owner of that organization, or by having
      founded it: admins cannot appoint owners, themselves included. */
  lemma {:induction false} OwnersAreAppointed(s: State, actions: seq<Action>, m: Id)
    requires Inv(s)
    requires var t := Run(s, actions); m < |t.members| && t.members[m].role == Authz.Owner
    requires m < |s.members| ==> s.members[m].role != Authz.Owner
    ensures exists k :: 0 <= k < |actions| && OwnershipGivenAt(s, actions, k, m)
    decreases |actions|
  {
    var next := Step(s, actions[0]);
    if m < |next.members| && next.members[m].role == Authz.Owner {
      StepIsAuthorized(s, actions[0], m);
      assert actions[..0] == [];
      hide Step, Inv, Manages;
      assert OwnershipGivenAt(s, actions, 0, m);
    } else {
      StepKeeps(s, actions[0]);
      hide Step, Inv, Continues;
      OwnersAreAppointed(next, actions[1..], m);
      var k :| 0 <= k < |actions[1..]| && OwnershipGivenAt(next, actions[1..], k, m);
      GivenLater(s, actions, k, m);
    }
  }

  lemma GivenLater(s: State, actions: seq<Action>, k: nat, m: Id)
    requires k + 1 < |actions| && OwnershipGivenAt(Step(s, actions[0]), actions[1..], k, m)
    ensures OwnershipGivenAt(s, actions, k + 1, m)
  {
    assert actions[..k + 1][0] == actions[0] && actions[..k + 1][1..] == actions[1..][..k];
    assert actions[1..][k] == actions[k + 1];
    hide Step, Manages, Founds;
  }

  // -------------------------------------------------------------------- what each operation comes to

  ghost predicate ChangesTo(from: MemberStatus, to: MemberStatus) {
    match from
    case Active => to in {Suspended, Revoked}
    case Suspended => to in {Active, Revoked}
    case Invited => to == Revoked
    case _ => false
  }

  function After(m: Member, r: Request): (Role, MemberStatus)
    requires r.UpdateMember?
  {
    (if r.newRole.Some? then r.newRole.value else m.role, if r.newStatus.Some? then r.newStatus.value else m.status)
  }

  lemma ManagesExactly(s: State, actor: Id, organization: Id, ownersOnly: bool)
    requires Tables(s)
    ensures var own := MemberFor(s.members, organization, actor);
            Manages(s, actor, organization, ownersOnly) <==>
              && actor < |s.users| && organization < |s.organizations| && own.Some?
              && MayManage(s.users[actor], s.organizations[organization], s.members[own.value])
              && (ownersOnly ==> s.members[own.value].role == Authz.Owner)
  {
    var own := MemberFor(s.members, organization, actor);
    hide MemberFor;
    if own.Some? && actor < |s.users| && organization < |s.organizations| {
      ManagingRoles(s.users[actor], s.organizations[organization], s.members[own.value]);
      hide MayManage;
      forall i: Id | ManagerRow(s.members, i, actor, organization, ownersOnly) ensures i == own.value {}
      assert s.members[own.value].status == Active && s.members[own.value].role == Authz.Owner ==>
               ManagerRow(s.members, own.value, actor, organization, ownersOnly);
      assert s.members[own.value].status == Active && s.members[own.value].role == Authz.Admin && !ownersOnly ==>
               ManagerRow(s.members, own.value, actor, organization, ownersOnly);
    }
  }

  /** The row with this role and status: one version on, and a status entered now is stamped; lifting
      a suspension clears its stamp. */
  ghost predicate RewrittenTo(m: Member, role: Role, status: MemberStatus, now: Time, row: Member) {
    && row == m.(role := role, status := status, version := m.version + 1, suspendedAt := row.suspendedAt,
                 revokedAt := row.revokedAt)
    && (status == m.status ==> row.suspendedAt == m.suspendedAt && row.revokedAt == m.revokedAt)
    && (status != m.status ==>
          && (status == Suspended ==> row.suspendedAt == Some(now) && row.revokedAt == m.revokedAt)
          && (status == Active ==> row.suspendedAt.None? && row.revokedAt == m.revokedAt)
          && (status == Revoked ==> row.revokedAt == Some(now) && row.suspendedAt == m.suspendedAt))
  }

  lemma UpdatedExactly(m: Member, r: Request, now: Time)
    requires r.UpdateMember?
    ensures var change := Updated(m, r.newRole, r.newStatus, now);
            var (role, status) := After(m, r);
            && (change.Changed? <==>
                  (status == m.status || ChangesTo(m.status, status)) && (role, status) != (m.role, m.status))
            && (change.Changed? ==>
                  && change.member.role == role && change.member.status == status
                  && RewrittenTo(m, role, status, now, change.member))
  {}

  /** An active owner stops being one by this update. */
  ghost predicate Unmakes(m: Member, r: Request)
    requires r.UpdateMember?
  {
    && m.role == Authz.Owner && m.status == Active
    && (After(m, r).0 != Authz.Owner || r.newStatus in {Some(Suspended), Some(Revoked)})
  }

  ghost predicate AnotherOwner(s: State, organization: Id, except: Id) {
    exists i: Id :: i < |s.members| && i != except && s.members[i].organization == organization
                    && s.members[i].role == Authz.Owner && s.members[i].status == Active
  }

  lemma CountedOwners(s: State, organization: Id, except: Id)
    ensures CountOtherOwners(s.members, organization, except, |s.members|) > 0
            <==> AnotherOwner(s, organization, except)
  {
    hide CountOtherOwners;
    if i: Id :| i < |s.members| && i != except && s.members[i].organization == organization
                && s.members[i].role == Authz.Owner && s.members[i].status == Active
    {
      assert IsOtherOwner(s.members, organization, except, i);
    }
    if CountOtherOwners(s.members, organization, except, |s.members|) > 0 {
      var i: Id :| i < |s.members| && IsOtherOwner(s.members, organization, except, i);
    }
  }

  /** An update, done alone, is made exactly when the actor manages the organization, the row is the
      organization's in the version expected, the change is a change and one the states allow, owners
      are touched by owners only, and an active owner remains. */
  lemma UpdateExactly(s: State, actor: Id, r: Request)
    requires Tables(s) && r.UpdateMember?
    ensures var v := UpdateVerdict(s, actor, r);
            && (v.Write? <==>
                  && r.membership < |s.members|
                  && var m := s.members[r.membership];
                  && var (role, status) := After(m, r);
                  && Manages(s, actor, r.organization, m.role == Authz.Owner || r.newRole == Some(Authz.Owner))
                  && m.organization == r.organization && m.version == r.expected
                  && (status == m.status || ChangesTo(m.status, status)) && (role, status) != (m.role, m.status)
                  && (Unmakes(m, r) ==> AnotherOwner(s, r.organization, r.membership)))
            && (v.Write? ==>
                  && v.member == r.membership && v.user == s.members[r.membership].user
                  && var (role, status) := After(s.members[r.membership], r);
                  RewrittenTo(s.members[r.membership], role, status, s.clock, v.row))
  {
    hide MemberFor, MayManage, Manages, CountOtherOwners, Updated, AnotherOwner;
    ManagesExactly(s, actor, r.organization, false);
    ManagesExactly(s, actor, r.organization, true);
    if r.membership < |s.members| {
      assert s.members[r.membership].user < |s.users|;
      UpdatedExactly(s.members[r.membership], r, s.clock);
      CountedOwners(s, r.organization, r.membership);
    }
    hide Tables, ChangesTo;
  }

  /** Leaving, done alone: one's own active membership, in the version expected, and an owner only
      when another active owner stays. */
  lemma LeaveExactly(s: State, actor: Id, r: Request)
    requires Tables(s) && r.LeaveOrganization?
    ensures var v := LeaveVerdict(s, actor, r);
            && (v.Write? <==>
                  && actor < |s.users| && s.users[actor].active && r.membership < |s.members|
                  && var m := s.members[r.membership];
                  && m.user == actor && m.status == Active && m.version == r.expected
                  && (m.role == Authz.Owner ==> AnotherOwner(s, m.organization, r.membership)))
            && (v.Write? ==>
                  && v.member == r.membership && v.user == actor
                  && v.row == s.members[r.membership].(status := Left, leftAt := Some(s.clock),
                                                       version := v.row.version)
                  && v.row.version == s.members[r.membership].version + 1)
  {
    hide CountOtherOwners, AnotherOwner;
    if r.membership < |s.members| {
      CountedOwners(s, s.members[r.membership].organization, r.membership);
      assert s.members[r.membership].organization < |s.organizations|;
    }
    hide Tables;
  }

  /** Accepting, done alone: the invited user, with the token of an invitation still open, into an
      active organization; the role is the one that was offered. */
  lemma AcceptExactly(s: State, actor: Id, r: Request)
    requires Tables(s) && r.AcceptInvitation?
    ensures var v := AcceptVerdict(s, actor, r);
            && (v.Write? <==>
                  && actor < |s.users| && s.users[actor].active && r.membership < |s.members|
                  && var m := s.members[r.membership];
                  && m.user == actor && m.status == Invited && m.token == Some(r.token)
                  && m.inviteExpiresAt.Some? && s.clock < m.inviteExpiresAt.value
                  && s.organizations[m.organization].active)
            && (v.Write? ==>
                  && v.member == r.membership && v.user == actor
                  && v.row == s.members[r.membership].(status := Active, token := None, acceptedAt := Some(s.clock),
                                                       version := v.row.version)
                  && v.row.version == s.members[r.membership].version + 1)
  {
    if r.membership < |s.members| { assert s.members[r.membership].organization < |s.organizations|; }
    hide Tables;
  }

  /** Left alone, the locking transaction comes to what the plain operation comes to. */
  lemma AcceptAlone(s: State, t: Id, r: Request, actor: Id)
    requires Tables(s) && Alone(s, t) && r.AcceptInvitation? && s.transactions[t] == Started(actor, r)
    ensures SameTables(Run(s, Proceeds(t, 4)), Written(s, AcceptVerdict(s, actor, r)))
  {
    assert forall m | 0 <= m < |s.members| :: s.members[m].organization < |s.organizations|;
    hide Tables, Run, Proceeds, InvitationUsable, AdvanceLeave, AdvanceUpdate, AdvanceInvite, AdvanceCreate;
    var s1 := Advance(s, t);
    OneProceed(s, t, 4);
    if s1.transactions[t].done { EndedProceeds(s1, t, 3); return; }
    var s2 := Advance(s1, t);
    OneProceed(s1, t, 3);
    if s2.transactions[t].done { EndedProceeds(s2, t, 2); return; }
    AcceptAloneFrom2(s, s2, t, r, actor);
  }

  lemma AcceptAloneFrom2(s: State, s2: State, t: Id, r: Request, actor: Id)
    requires Alone(s2, t) && r.AcceptInvitation? && SameTables(s, s2) && s.clock == s2.clock && actor < |s.users|
        && r.membership < |s.members|
    requires s2.transactions[t] == Started(actor, r).(user := Some(s.users[actor]), memberId := r.membership,
                                                      member := Some(s.members[r.membership]), stage := 2)
    requires forall m | 0 <= m < |s.members| :: s.members[m].organization < |s.organizations|
    ensures SameTables(Run(s2, Proceeds(t, 2)), Written(s, AcceptVerdict(s, actor, r)))
  {
    hide Run, Proceeds, InvitationUsable, AdvanceLeave, AdvanceUpdate, AdvanceInvite, AdvanceCreate;
    var s3 := Advance(s2, t);
    OneProceed(s2, t, 2);
    if s3.transactions[t].done { EndedProceeds(s3, t, 1); return; }
    var s4 := Advance(s3, t);
    OneProceed(s3, t, 1);
    assert s4.transactions[t].done;
    EndedProceeds(s4, t, 0);
  }

  // -------------------------------------------------------------------- locks

  /** Locks are held by transactions that have not ended. */
  ghost predicate LiveLocks(s: State) {
    forall l | l in s.locks :: s.locks[l] < |s.transactions| && !s.transactions[s.locks[l]].done
  }

  lemma AbortReleases(s: State, t: Id)
    requires LiveLocks(s) && t < |s.transactions|
    ensures LiveLocks(Abort(s, t)) && forall l | l in Abort(s, t).locks :: Abort(s, t).locks[l] != t
  {}

  lemma CommitReleases(s: State, t: Id, users: seq<User>, organizations: seq<Organization>, members: seq<Member>)
    requires LiveLocks(s) && t < |s.transactions|
    ensures LiveLocks(Commit(s, t, users, organizations, members))
  {
    AbortReleases(s, t);
  }

  lemma LockingLives(s: State, t: Id, lock: Lock, next: Transaction)
    requires LiveLocks(s) && t < |s.transactions| && !next.done
    ensures LiveLocks(Locking(s, t, lock, next))
  {}

  lemma AdvanceLives(s: State, t: Id)
    requires LiveLocks(s)
    ensures LiveLocks(Advance(s, t))
  {
    if t < |s.transactions| && !s.transactions[t].done {
      AbortReleases(s, t);
      forall lock, next: Transaction | !next.done ensures LiveLocks(Locking(s, t, lock, next)) {
        LockingLives(s, t, lock, next);
      }
      forall users, organizations, members ensures LiveLocks(Commit(s, t, users, organizations, members)) {
        CommitReleases(s, t, users, organizations, members);
      }
      CountingLives(s, t);
      hide LiveLocks, Abort, Locking, Commit, CheckOwners, MayManage, UpdateAllowed, RemovesActiveOwner, Updated,
          InvitationUsable, MayLeave, MemberFor, Loaded;
    }
  }

  lemma CountingLives(s: State, t: Id)
    requires LiveLocks(s) && t < |s.transactions| && !s.transactions[t].done
    ensures forall needed :: LiveLocks(CheckOwners(s, t, needed))
  {
    AbortReleases(s, t);
    hide Abort;
  }

  /** Over every run, whatever crashes: a lock belongs to a transaction still going on, so the rows of
      one that ended, either way, are free; and a crash leaves the tables as they were. */
  lemma {:induction false} NoLockIsLeft(s: State, actions: seq<Action>)
    requires LiveLocks(s)
    ensures LiveLocks(Run(s, actions))
    decreases |actions|
  {
    if actions != [] {
      StepLives(s, actions[0]);
      hide Step, LiveLocks;
      NoLockIsLeft(Step(s, actions[0]), actions[1..]);
    }
  }

  lemma StepLives(s: State, a: Action)
    requires LiveLocks(s)
    ensures LiveLocks(Step(s, a)) && (a.Crash? ==> SameTables(s, Step(s, a)))
    ensures a.Crash? && a.transaction < |s.transactions| ==>
              && Step(s, a).transactions[a.transaction].done
              && forall l | l in Step(s, a).locks :: Step(s, a).locks[l] != a.transaction
  {
    if a.Proceed? { AdvanceLives(s, a.transaction); }
    if a.Crash? && a.transaction < |s.transactions| { AbortReleases(s, a.transaction); }
    hide Advance;
  }

  /** Founding, done alone: an active user gets an unverified organization and its first owner. */
  lemma CreateAlone(s: State, t: Id, actor: Id)
    requires Alone(s, t) && s.transactions[t] == Started(actor, CreateOrganization)
    ensures var u := Run(s, Proceeds(t, 2));
            if actor < |s.users| && s.users[actor].active then
              && u.users == s.users[actor := Bumped(s.users[actor])]
              && u.organizations == s.organizations + [Organization(true, false, 1)]
              && |u.members| == |s.members| + 1 && u.members[..|s.members|] == s.members
              && var m := u.members[|s.members|];
              && m.organization == |s.organizations| && m.user == actor && m.role == Authz.Owner && m.status == Active
            else SameTables(u, s)
  {
    hide Run, Proceeds;
    var s1 := Advance(s, t);
    OneProceed(s, t, 2);
    if s1.transactions[t].done {
      EndedProceeds(s1, t, 1);
    } else {
      OneProceed(s1, t, 1);
      EndedProceeds(Advance(s1, t), t, 0);
    }
  }

  ghost predicate BelongsTo(s: State, organization: Id, user: Id) {
    exists i :: 0 <= i < |s.members| && s.members[i].organization == organization && s.members[i].user == user
  }

  /** An invitation, done alone: by a manager (an owner, if to be an owner), of an active user who has
      no membership of the organization in any state. */
  ghost predicate MayInvite(s: State, actor: Id, r: Request)
    requires r.InviteMember?
  {
    && Manages(s, actor, r.organization, r.role == Authz.Owner)
    && r.invitee < |s.users| && s.users[r.invitee].active
    && !BelongsTo(s, r.organization, r.invitee)
  }

  ghost predicate InvitationMade(s: State, u: State, r: Request)
    requires r.InviteMember?
  {
    && r.invitee < |s.users| && r.organization < |s.organizations|
    && u.users == s.users[r.invitee := Bumped(s.users[r.invitee])]
    && u.organizations == s.organizations[r.organization := BumpedOrganization(s.organizations[r.organization])]
    && |u.members| == |s.members| + 1 && u.members[..|s.members|] == s.members
    && var m := u.members[|s.members|];
    && m.organization == r.organization && m.user == r.invitee && m.role == r.role && m.status == Invited
    && m.token == Some(r.token) && m.inviteExpiresAt == Some(s.clock + r.ttl)
  }

  lemma InviteAlone(s: State, t: Id, r: Request, actor: Id)
    requires Tables(s) && Alone(s, t) && r.InviteMember? && s.transactions[t] == Started(actor, r)
    ensures var u := Run(s, Proceeds(t, 5));
            if MayInvite(s, actor, r) then InvitationMade(s, u, r) else SameTables(u, s)
  {
    ManagesExactly(s, actor, r.organization, r.role == Authz.Owner);
    assert actor >= |s.users| ==> !MayInvite(s, actor, r);
    hide Tables, Run, Proceeds, MayManage, Manages, AdvanceLeave, AdvanceAccept, AdvanceUpdate, AdvanceCreate,
        MemberFor, MayInvite, InvitationMade, LockOwn, LockTarget, LockOrganization;
    var s1 := Advance(s, t);
    OneProceed(s, t, 5);
    if s1.transactions[t].done { EndedProceeds(s1, t, 4); return; }
    InviteAloneFrom1(s, s1, t, r, actor);
  }

  lemma InviteAloneFrom1(s: State, s1: State, t: Id, r: Request, actor: Id)
    requires Alone(s1, t) && r.InviteMember? && SameTables(s, s1) && s.clock == s1.clock && actor < |s.users|
    requires s1.transactions[t] == Started(actor, r).(user := Some(s.users[actor]), stage := 1)
    requires var own := MemberFor(s.members, r.organization, actor);
             Manages(s, actor, r.organization, r.role == Authz.Owner) <==>
               && r.organization < |s.organizations| && own.Some?
               && MayManage(s.users[actor], s.organizations[r.organization], s.members[own.value])
               && (r.role == Authz.Owner ==> s.members[own.value].role == Authz.Owner)
    ensures var u := Run(s1, Proceeds(t, 4));
            if MayInvite(s, actor, r) then InvitationMade(s, u, r) else SameTables(u, s)
  {
    assert r.organization >= |s.organizations| ==> !MayInvite(s, actor, r);
    hide Run, Proceeds, MayManage, Manages, AdvanceLeave, AdvanceAccept, AdvanceUpdate, AdvanceCreate, MemberFor,
        MayInvite, InvitationMade, LockOwn, LockTarget, LockUser;
    var s2 := Advance(s1, t);
    OneProceed(s1, t, 4);
    if s2.transactions[t].done { EndedProceeds(s2, t, 3); return; }
    InviteAloneFrom2(s, s2, t, r, actor);
  }

  lemma InviteAloneFrom2(s: State, s2: State, t: Id, r: Request, actor: Id)
    requires Alone(s2, t) && r.InviteMember? && SameTables(s, s2) && s.clock == s2.clock && actor < |s.users|
        && r.organization < |s.organizations|
    requires s2.transactions[t] == Started(actor, r).(user := Some(s.users[actor]), organizationId := r.organization,
                                                      organization := Some(s.organizations[r.organization]), stage := 2)
    requires var own := MemberFor(s.members, r.organization, actor);
             Manages(s, actor, r.organization, r.role == Authz.Owner) <==>
               && own.Some? && MayManage(s.users[actor], s.organizations[r.organization], s.members[own.value])
               && (r.role == Authz.Owner ==> s.members[own.value].role == Authz.Owner)
    ensures var u := Run(s2, Proceeds(t, 3));
            if MayInvite(s, actor, r) then InvitationMade(s, u, r) else SameTables(u, s)
  {
    hide Run, Proceeds, MayManage, Manages, BelongsTo, MemberFor, AdvanceLeave, AdvanceAccept, AdvanceUpdate,
        AdvanceCreate, InvitationMade;
    var s3 := Advance(s2, t);
    OneProceed(s2, t, 3);
    if s3.transactions[t].done { EndedProceeds(s3, t, 2); return; }
    InviteAloneFrom3(s, s3, t, r, actor, MemberFor(s.members, r.organization, actor).value);
  }

  lemma InviteAloneFrom3(s: State, s3: State, t: Id, r: Request, actor: Id, own: Id)
    requires Alone(s3, t) && r.InviteMember? && SameTables(s, s3) && s.clock == s3.clock && actor < |s.users|
        && r.organization < |s.organizations| && own < |s.members|
    requires s3.transactions[t] == Started(actor, r).(user := Some(s.users[actor]), organizationId := r.organization,
                                                      organization := Some(s.organizations[r.organization]),
                                                      ownId := own, own := Some(s.members[own]), stage := 3)
    requires Manages(s, actor, r.organization, r.role == Authz.Owner) <==>
               && MayManage(s.users[actor], s.organizations[r.organization], s.members[own])
               && (r.role == Authz.Owner ==> s.members[own].role == Authz.Owner)
    ensures var u := Run(s3, Proceeds(t, 2));
            if MayInvite(s, actor, r) then InvitationMade(s, u, r) else SameTables(u, s)
  {
    hide Run, Proceeds, MayManage, Manages, BelongsTo, MemberFor, AdvanceLeave, AdvanceAccept, AdvanceUpdate,
        AdvanceCreate, InvitationMade;
    var s4 := Advance(s3, t);
    OneProceed(s3, t, 2);
    if s4.transactions[t].done { EndedProceeds(s4, t, 1); return; }
    InviteAloneFrom4(s, s4, t, r, actor, own);
  }

  lemma InviteAloneFrom4(s: State, s4: State, t: Id, r: Request, actor: Id, own: Id)
    requires Alone(s4, t) && r.InviteMember? && SameTables(s, s4) && s.clock == s4.clock && actor < |s.users|
        && r.organization < |s.organizations| && own < |s.members| && r.invitee < |s.users|
    requires s4.transactions[t] == Started(actor, r).(user := Some(s.users[actor]), organizationId := r.organization,
                                                      organization := Some(s.organizations[r.organization]),
                                                      ownId := own, own := Some(s.members[own]),
                                                      targetId := r.invitee, target := Some(s.users[r.invitee]),
                                                      stage := 4)
    requires Manages(s, actor, r.organization, r.role == Authz.Owner)
    requires MayManage(s.users[actor], s.organizations[r.organization], s.members[own])
    requires r.role == Authz.Owner ==> s.members[own].role == Authz.Owner
    ensures var u := Run(s4, Proceeds(t, 1));
            if MayInvite(s, actor, r) then InvitationMade(s, u, r) else SameTables(u, s)
  {
    NoMembership(s, r.organization, r.invitee);
    hide Run, Proceeds, MayManage, Manages, BelongsTo, MemberFor, AdvanceLeave, AdvanceAccept, AdvanceUpdate,
        AdvanceCreate;
    OneProceed(s4, t, 1);
    EndedProceeds(Advance(s4, t), t, 0);
  }

  lemma NoMembership(s: State, organization: Id, user: Id)
    ensures MemberFor(s.members, organization, user).Some? <==> BelongsTo(s, organization, user)
  {
    hide MemberFor;
    var own := MemberFor(s.members, organization, user);
    if own.Some? { assert s.members[own.value].organization == organization; }
  }
}
