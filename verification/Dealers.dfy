/** Dealer organizations and memberships, down to the row locks.

    Every operation is a transaction that locks rows one after another, keeps copies of what it
    read, and writes from those copies when it commits; other transactions run in between. A lock
    request on a row held by another transaction waits. */
module Dealers {
  import opened Core
  import Authz = AuthorizationCache

  type Role = Authz.Role

  datatype MemberStatus = Invited | Active | Suspended | Left | Revoked

  datatype User = User(active: bool, emailVerified: bool, phoneVerified: bool, authorizationVersion: nat)

  datatype Organization = Organization(active: bool, verified: bool, authorizationVersion: nat)

  datatype Member = Member(
    organization: Id,
    user: Id,
    role: Role,
    status: MemberStatus,
    version: nat,
    inviteExpiresAt: Option<Time>,
    token: Option<nat>,
    acceptedAt: Option<Time>,
    suspendedAt: Option<Time>,
    leftAt: Option<Time>,
    revokedAt: Option<Time>)

  datatype Lock = UserRow(id: Id) | OrganizationRow(id: Id) | MemberRow(id: Id)

  datatype Request =
    | CreateOrganization
    | InviteMember(organization: Id, invitee: Id, role: Role, token: nat, ttl: nat)
    | AcceptInvitation(membership: Id, token: nat)
    | UpdateMember(organization: Id, membership: Id, expected: nat, newRole: Option<Role>,
        newStatus: Option<MemberStatus>)
    | LeaveOrganization(membership: Id, expected: nat)

  /** `user`, `organization`, `own`, `member`, `target`: copies of locked rows. `otherOwner`: the
      count of other active owners came out positive. */
  datatype Transaction = Transaction(
    actor: Id,
    request: Request,
    stage: nat,
    user: Option<User>,
    organizationId: Id,
    organization: Option<Organization>,
    ownId: Id,
    own: Option<Member>,
    memberId: Id,
    member: Option<Member>,
    targetId: Id,
    target: Option<User>,
    otherOwner: bool,
    done: bool)

  datatype State = State(
    clock: Time,
    users: seq<User>,
    organizations: seq<Organization>,
    members: seq<Member>,
    locks: map<Lock, Id>,
    transactions: seq<Transaction>)

  // -------------------------------------------------------------------- decisions

  predicate ActiveOwner(m: Member, organization: Id) {
    m.organization == organization && m.role == Authz.Owner && m.status == Active
  }

  predicate IsOtherOwner(members: seq<Member>, organization: Id, excluded: Id, i: Id) {
    i < |members| && i != excluded && ActiveOwner(members[i], organization)
  }

  function CountOtherOwners(members: seq<Member>, organization: Id, excluded: Id, n: nat): (count: nat)
    requires n <= |members|
    ensures count > 0 <==> exists i: Id :: i < n && IsOtherOwner(members, organization, excluded, i)
  {
    if n == 0 then 0
    else
      assert IsOtherOwner(members, organization, excluded, n - 1) ==>
          exists i: Id :: i < n && IsOtherOwner(members, organization, excluded, i);
      CountOtherOwners(members, organization, excluded, n - 1)
      + (if IsOtherOwner(members, organization, excluded, n - 1) then 1 else 0)
  }

  function MemberFor(members: seq<Member>, organization: Id, user: Id): (r: Option<Id>)
    ensures r.Some? ==> r.value < |members| && members[r.value].organization == organization
                        && members[r.value].user == user
    ensures r.None? ==> forall i | 0 <= i < |members| ::
        members[i].organization != organization || members[i].user != user
  {
    if members == [] then None
    else
      var n := |members| - 1;
      if members[n].organization == organization && members[n].user == user then Some(n)
      else MemberFor(members[..n], organization, user)
  }

  predicate MayManage(u: User, o: Organization, m: Member) {
    && u.active && o.active && o.verified && m.status == Active
    && Authz.MembershipManage in Authz.RolePermissions(m.role)
  }

  predicate RemovesActiveOwner(m: Member, role: Option<Role>, status: Option<MemberStatus>) {
    && m.role == Authz.Owner && m.status == Active
    && ((role.Some? && role.value != Authz.Owner) || status in {Some(Suspended), Some(Revoked)})
  }

  predicate TransitionAllowed(from: MemberStatus, to: MemberStatus) {
    || (from == Active && to in {Suspended, Revoked})
    || (from == Suspended && to in {Active, Revoked})
    || (from == Invited && to == Revoked)
  }

  datatype Change = Rejected | Unchanged | Changed(member: Member)

  function Transitioned(m: Member, to: MemberStatus, now: Time): Change {
    if to == m.status then Unchanged
    else if !TransitionAllowed(m.status, to) then Rejected
    else Changed(m.(status := to,
                    suspendedAt := if to == Active then None else if to == Suspended then Some(now) else m.suspendedAt,
                    revokedAt := if to == Revoked then Some(now) else m.revokedAt))
  }

  function Updated(m: Member, role: Option<Role>, status: Option<MemberStatus>, now: Time): Change {
    var renamed := if role.Some? then m.(role := role.value) else m;
    var change := if status.Some? then Transitioned(renamed, status.value, now) else Unchanged;
    if change.Rejected? then Rejected
    else
      var row := if change.Changed? then change.member else renamed;
      if row.role == m.role && row.status == m.status then Unchanged else Changed(row.(version := m.version + 1))
  }

  predicate UpdateAllowed(own: Member, m: Member, organization: Id, r: Request)
    requires r.UpdateMember?
  {
    && m.organization == organization
    && m.version == r.expected
    && (m.role == Authz.Owner || r.newRole == Some(Authz.Owner) ==> own.role == Authz.Owner)
  }

  predicate InvitationUsable(u: User, actor: Id, m: Member, token: nat, now: Time) {
    && u.active && m.user == actor && m.status == Invited
    && m.inviteExpiresAt.Some? && m.inviteExpiresAt.value > now
    && m.token == Some(token)
  }

  predicate MayLeave(u: User, actor: Id, m: Member, expected: nat) {
    u.active && m.user == actor && m.status == Active && m.version == expected
  }

  function Bumped(u: User): User { u.(authorizationVersion := u.authorizationVersion + 1) }

  function BumpedOrganization(o: Organization): Organization { o.(authorizationVersion := o.authorizationVersion + 1) }

  function Founder(organization: Id, actor: Id, now: Time): Member {
    Member(organization, actor, Authz.Owner, Active, 1, None, None, Some(now), None, None, None)
  }

  function Invitation(r: Request, now: Time): Member
    requires r.InviteMember?
  {
    Member(r.organization, r.invitee, r.role, Invited, 1, Some(now + r.ttl), Some(r.token), None, None, None, None)
  }

  function Accepted(m: Member, now: Time): Member {
    m.(status := Active, acceptedAt := Some(now), token := None, version := m.version + 1)
  }

  function Departed(m: Member, now: Time): Member {
    m.(status := Left, leftAt := Some(now), version := m.version + 1)
  }

  // -------------------------------------------------------------------- locks and commits

  function Released(locks: map<Lock, Id>, t: Id): map<Lock, Id> {
    map l | l in locks && locks[l] != t :: locks[l]
  }

  /** Rolls back: nothing was written yet, so only the locks go. */
  function Abort(s: State, t: Id): State
    requires t < |s.transactions|
  {
    s.(locks := Released(s.locks, t), transactions := s.transactions[t := s.transactions[t].(done := true)])
  }

  /** SELECT ... FOR UPDATE: waits while another transaction holds the row. */
  function Locking(s: State, t: Id, lock: Lock, next: Transaction): State
    requires t < |s.transactions|
  {
    if lock in s.locks && s.locks[lock] != t then s
    else s.(locks := s.locks[lock := t], transactions := s.transactions[t := next])
  }

  /** Writes the changed rows and ends the transaction. */
  function Commit(s: State, t: Id, users: seq<User>, organizations: seq<Organization>, members: seq<Member>): State
    requires t < |s.transactions|
  {
    Abort(s, t).(users := users, organizations := organizations, members := members)
  }

  function LockUser(s: State, t: Id): State
    requires t < |s.transactions|
  {
    var x := s.transactions[t];
    if x.actor >= |s.users| then Abort(s, t)
    else Locking(s, t, UserRow(x.actor), x.(user := Some(s.users[x.actor]), stage := 1))
  }

  function LockOrganization(s: State, t: Id, id: Id): State
    requires t < |s.transactions|
  {
    var x := s.transactions[t];
    if id >= |s.organizations| then Abort(s, t)
    else Locking(s, t, OrganizationRow(id), x.(organizationId := id, organization := Some(s.organizations[id]),
        stage := x.stage + 1))
  }

  function LockOwn(s: State, t: Id): State
    requires t < |s.transactions|
  {
    var x := s.transactions[t];
    var own := MemberFor(s.members, x.organizationId, x.actor);
    if own.None? then Abort(s, t)
    else Locking(s, t, MemberRow(own.value), x.(ownId := own.value, own := Some(s.members[own.value]),
        stage := x.stage + 1))
  }

  function LockMember(s: State, t: Id, id: Id): State
    requires t < |s.transactions|
  {
    var x := s.transactions[t];
    if id >= |s.members| then Abort(s, t)
    else Locking(s, t, MemberRow(id), x.(memberId := id, member := Some(s.members[id]), stage := x.stage + 1))
  }

  function LockTarget(s: State, t: Id, id: Id): State
    requires t < |s.transactions|
  {
    var x := s.transactions[t];
    if id >= |s.users| then Abort(s, t)
    else Locking(s, t, UserRow(id), x.(targetId := id, target := Some(s.users[id]), stage := x.stage + 1))
  }

  /** The owner count locks nothing: it sees what is committed at this moment. */
  function CheckOwners(s: State, t: Id, needed: bool): State
    requires t < |s.transactions|
  {
    var x := s.transactions[t];
    if !needed then s.(transactions := s.transactions[t := x.(stage := x.stage + 1)])
    else if CountOtherOwners(s.members, x.organizationId, x.memberId, |s.members|) == 0 then Abort(s, t)
    else s.(transactions := s.transactions[t := x.(otherOwner := true, stage := x.stage + 1)])
  }

  /** The transaction has its copy of everything it is about to write. */
  predicate Loaded(s: State, x: Transaction) {
    && x.user.Some? && x.organization.Some? && x.member.Some?
    && x.actor < |s.users| && x.organizationId < |s.organizations| && x.memberId < |s.members|
  }

  function AdvanceCreate(s: State, t: Id): State
    requires t < |s.transactions|
  {
    var x := s.transactions[t];
    if x.stage == 0 then LockUser(s, t)
    else if x.user.None? || x.actor >= |s.users| || !x.user.value.active then Abort(s, t)
    else Commit(s, t, s.users[x.actor := Bumped(x.user.value)], s.organizations + [Organization(true, false, 1)],
                s.members + [Founder(|s.organizations|, x.actor, s.clock)])
  }

  function AdvanceInvite(s: State, t: Id): State
    requires t < |s.transactions| && s.transactions[t].request.InviteMember?
  {
    var x := s.transactions[t];
    var r := x.request;
    if x.stage == 0 then LockUser(s, t)
    else if x.stage == 1 then LockOrganization(s, t, r.organization)
    else if x.stage == 2 then LockOwn(s, t)
    else if x.user.None? || x.organization.None? || x.own.None? then Abort(s, t)
    else if !MayManage(x.user.value, x.organization.value, x.own.value) then Abort(s, t)
    else if r.role == Authz.Owner && x.own.value.role != Authz.Owner then Abort(s, t)
    else if x.stage == 3 then LockTarget(s, t, r.invitee)
    else if x.target.None? || !x.target.value.active || x.targetId >= |s.users| || x.organizationId >= |s.organizations|
            || MemberFor(s.members, x.organizationId, x.targetId).Some? || r.organization != x.organizationId
                || r.invitee != x.targetId
    then Abort(s, t)
    else Commit(s, t, s.users[x.targetId := Bumped(x.target.value)],
                s.organizations[x.organizationId := BumpedOrganization(x.organization.value)],
                s.members + [Invitation(r, s.clock)])
  }

  function AdvanceAccept(s: State, t: Id): State
    requires t < |s.transactions| && s.transactions[t].request.AcceptInvitation?
  {
    var x := s.transactions[t];
    if x.stage == 0 then LockUser(s, t)
    else if x.stage == 1 then LockMember(s, t, x.request.membership)
    else if x.user.None? || x.member.None? || !InvitationUsable(x.user.value, x.actor, x.member.value, x.request.token,
        s.clock)
    then Abort(s, t)
    else if x.stage == 2 then LockOrganization(s, t, x.member.value.organization)
    else if !Loaded(s, x) || !x.organization.value.active || x.member.value.organization != x.organizationId
        then Abort(s, t)
    else Commit(s, t, s.users[x.actor := Bumped(x.user.value)],
                s.organizations[x.organizationId := BumpedOrganization(x.organization.value)],
                s.members[x.memberId := Accepted(x.member.value, s.clock)])
  }

  function AdvanceUpdate(s: State, t: Id): State
    requires t < |s.transactions| && s.transactions[t].request.UpdateMember?
  {
    var x := s.transactions[t];
    var r := x.request;
    if x.stage == 0 then LockUser(s, t)
    else if x.stage == 1 then LockOrganization(s, t, r.organization)
    else if x.stage == 2 then LockOwn(s, t)
    else if x.user.None? || x.organization.None? || x.own.None? then Abort(s, t)
    else if !MayManage(x.user.value, x.organization.value, x.own.value) then Abort(s, t)
    else if x.stage == 3 then LockMember(s, t, r.membership)
    else if x.member.None? || !UpdateAllowed(x.own.value, x.member.value, x.organizationId, r) then Abort(s, t)
    else if x.stage == 4 then CheckOwners(s, t, RemovesActiveOwner(x.member.value, r.newRole, r.newStatus))
    else
      var change := Updated(x.member.value, r.newRole, r.newStatus, s.clock);
      if !change.Changed? then Abort(s, t)
      else if x.stage == 5 then LockTarget(s, t, x.member.value.user)
      else if !Loaded(s, x) || x.target.None? || x.targetId >= |s.users| || x.targetId != x.member.value.user
              || (RemovesActiveOwner(x.member.value, r.newRole, r.newStatus) && !x.otherOwner)
      then Abort(s, t)
      else Commit(s, t, s.users[x.targetId := Bumped(x.target.value)],
                  s.organizations[x.organizationId := BumpedOrganization(x.organization.value)],
                  s.members[x.memberId := change.member])
  }

  function AdvanceLeave(s: State, t: Id): State
    requires t < |s.transactions| && s.transactions[t].request.LeaveOrganization?
  {
    var x := s.transactions[t];
    if x.stage == 0 then LockUser(s, t)
    else if x.stage == 1 then LockMember(s, t, x.request.membership)
    else if x.user.None? || x.member.None? || !MayLeave(x.user.value, x.actor, x.member.value, x.request.expected)
        then Abort(s, t)
    else if x.stage == 2 then LockOrganization(s, t, x.member.value.organization)
    else if !Loaded(s, x) || x.member.value.organization != x.organizationId then Abort(s, t)
    else if x.stage == 3 then CheckOwners(s, t, x.member.value.role == Authz.Owner)
    else if x.member.value.role == Authz.Owner && !x.otherOwner then Abort(s, t)
    else Commit(s, t, s.users[x.actor := Bumped(x.user.value)],
                s.organizations[x.organizationId := BumpedOrganization(x.organization.value)],
                s.members[x.memberId := Departed(x.member.value, s.clock)])
  }

  // -------------------------------------------------------------------- runs

  datatype Action =
    | Register(user: User)
    | Begin(actor: Id, request: Request)
    | Proceed(transaction: Id)
    | Crash(transaction: Id)
    | Tick(seconds: nat)

  function Started(actor: Id, r: Request): Transaction {
    Transaction(actor, r, 0, None, 0, None, 0, None, 0, None, 0, None, false, false)
  }

  function Advance(s: State, t: Id): State {
    if t >= |s.transactions| || s.transactions[t].done then s
    else
      match s.transactions[t].request
      case CreateOrganization => AdvanceCreate(s, t)
      case InviteMember(_, _, _, _, _) => AdvanceInvite(s, t)
      case AcceptInvitation(_, _) => AdvanceAccept(s, t)
      case UpdateMember(_, _, _, _, _) => AdvanceUpdate(s, t)
      case LeaveOrganization(_, _) => AdvanceLeave(s, t)
  }

  function Step(s: State, a: Action): State {
    match a
    case Register(u) => s.(users := s.users + [u.(authorizationVersion := 1)])
    case Begin(actor, r) => s.(transactions := s.transactions + [Started(actor, r)])
    case Proceed(t) => Advance(s, t)
    case Crash(t) => if t < |s.transactions| && !s.transactions[t].done then Abort(s, t) else s
    case Tick(d) => s.(clock := s.clock + d)
  }

  function Run(s: State, actions: seq<Action>): State
    decreases |actions|
  {
    if actions == [] then s else Run(Step(s, actions[0]), actions[1..])
  }

  function Initial(clock: Time): State {
    State(clock, [], [], [], map[], [])
  }

  // -------------------------------------------------------------------- invariant

  ghost predicate HasOwner(members: seq<Member>, organization: Id) {
    exists i: Id :: i < |members| && ActiveOwner(members[i], organization)
  }

  ghost predicate HasOtherOwner(members: seq<Member>, organization: Id, excluded: Id) {
    exists i: Id :: IsOtherOwner(members, organization, excluded, i)
  }

  ghost predicate Tables(s: State) {
    && (forall o: Id | o < |s.organizations| :: HasOwner(s.members, o))
    && (forall m | 0 <= m < |s.members| :: s.members[m].organization < |s.organizations|
                                           && s.members[m].user < |s.users|)
    && (forall i, j | 0 <= i < j < |s.members| ::
          s.members[i].organization != s.members[j].organization || s.members[i].user != s.members[j].user)
  }

  ghost predicate Holds(s: State, lock: Lock, t: Id) {
    lock in s.locks && s.locks[lock] == t
  }

  /** Whatever a running transaction copied, it holds the lock of, and it is still so; and if it
      saw another active owner, there still is one. */
  ghost predicate Current(s: State, t: Id)
    requires t < |s.transactions|
  {
    var x := s.transactions[t];
    !x.done ==>
      && (x.user.Some? ==> x.actor < |s.users| && s.users[x.actor] == x.user.value && Holds(s, UserRow(x.actor), t))
      && (x.organization.Some? ==>
            x.organizationId < |s.organizations| && s.organizations[x.organizationId] == x.organization.value
            && Holds(s, OrganizationRow(x.organizationId), t))
      && (x.own.Some? ==>
            && x.stage >= 3 && (x.request.InviteMember? || x.request.UpdateMember?)
            && x.ownId < |s.members| && s.members[x.ownId] == x.own.value && Holds(s, MemberRow(x.ownId), t)
            && x.own.value.organization == x.organizationId && x.own.value.user == x.actor)
      && (x.member.Some? ==>
            x.memberId < |s.members| && s.members[x.memberId] == x.member.value && Holds(s, MemberRow(x.memberId), t))
      && (x.target.Some? ==> x.targetId < |s.users| && s.users[x.targetId] == x.target.value
                             && Holds(s, UserRow(x.targetId), t))
      && (x.otherOwner ==>
            x.stage >= 4 && x.organization.Some? && x.member.Some?
                && HasOtherOwner(s.members, x.organizationId, x.memberId))
  }

  ghost predicate Inv(s: State) {
    Tables(s) && forall t: Id | t < |s.transactions| :: Current(s, t)
  }

  // -------------------------------------------------------------------- what one step may do

  /** Left and revoked memberships never change status, and every change raises the version. */
  ghost predicate MemberContinues(a: Member, b: Member) {
    && b.organization == a.organization && b.user == a.user
    && a.version <= b.version && (a.version == b.version ==> b == a)
    && (a.status in {Left, Revoked} ==> b.status == a.status)
    && (a.status != Invited ==> b.status != Invited)
  }

  ghost predicate UserContinues(a: User, b: User) {
    && b.active == a.active && b.emailVerified == a.emailVerified && b.phoneVerified == a.phoneVerified
    && a.authorizationVersion <= b.authorizationVersion
  }

  /** A membership that is new or differs. */
  ghost predicate Touched(s: State, t: State, m: Id) {
    m < |t.members| && (m >= |s.members| || t.members[m] != s.members[m])
  }

  /** Nobody's memberships change without that user's authorization version going up. */
  ghost predicate Continues(s: State, t: State) {
    && s.clock <= t.clock
    && |s.users| <= |t.users| && |s.organizations| <= |t.organizations| && |s.members| <= |t.members|
    && (forall u | 0 <= u < |s.users| :: UserContinues(s.users[u], t.users[u]))
    && (forall o | 0 <= o < |s.organizations| ::
          t.organizations[o].active == s.organizations[o].active
              && t.organizations[o].verified == s.organizations[o].verified)
    && (forall m | 0 <= m < |s.members| :: MemberContinues(s.members[m], t.members[m]))
    && (forall m: Id | Touched(s, t, m) && t.members[m].user < |s.users| ::
          s.users[t.members[m].user].authorizationVersion < t.users[t.members[m].user].authorizationVersion)
  }

  lemma ContinuesReflexive(s: State)
    ensures Continues(s, s)
  {}

  // -------------------------------------------------------------------- steps that write nothing

  /** Locks and copies move, tables do not. */
  lemma NoWrite(s: State, t: Id, u: State)
    requires Inv(s) && t < |s.transactions| && |u.transactions| == |s.transactions|
    requires u == s.(locks := u.locks, transactions := u.transactions)
    requires forall i: Id | i < |s.transactions| && i != t :: u.transactions[i] == s.transactions[i]
    requires forall l, i: Id | i != t && Holds(s, l, i) :: Holds(u, l, i)
    requires Current(u, t)
    ensures Inv(u) && Continues(s, u)
  {
    forall i: Id | i < |u.transactions| ensures Current(u, i) {
      if i != t { assert Current(s, i); }
    }
  }

  lemma AbortStep(s: State, t: Id)
    requires Inv(s) && t < |s.transactions|
    ensures Inv(Abort(s, t)) && Continues(s, Abort(s, t))
  {
    hide Tables;
    NoWrite(s, t, Abort(s, t));
  }

  lemma LockingStep(s: State, t: Id, lock: Lock, next: Transaction)
    requires Inv(s) && t < |s.transactions|
    requires var u := s.(locks := s.locks[lock := t], transactions := s.transactions[t := next]); Current(u, t)
    ensures Inv(Locking(s, t, lock, next)) && Continues(s, Locking(s, t, lock, next))
  {
    ContinuesReflexive(s);
    var u := Locking(s, t, lock, next);
    if !(lock in s.locks && s.locks[lock] != t) {
      hide Tables, Continues;
      NoWrite(s, t, u);
    }
  }

  /** A transaction that takes one more lock keeps what it has. */
  ghost predicate TakesLock(s: State, t: Id, lock: Lock, next: Transaction, u: State) {
    t < |s.transactions| && Current(s, t) && !s.transactions[t].done
    && u == s.(locks := s.locks[lock := t], transactions := s.transactions[t := next])
  }

  lemma UserCurrent(s: State, t: Id, u: State)
    requires t < |s.transactions| && s.transactions[t].actor < |s.users| && !s.transactions[t].otherOwner
    requires s.transactions[t].own.None?
    requires var x := s.transactions[t];
             TakesLock(s, t, UserRow(x.actor), x.(user := Some(s.users[x.actor]), stage := 1), u)
    ensures Current(u, t)
  {
    hide HasOtherOwner;
  }

  lemma LockUserStep(s: State, t: Id)
    requires Inv(s) && t < |s.transactions| && !s.transactions[t].done && s.transactions[t].stage == 0
    ensures Inv(LockUser(s, t)) && Continues(s, LockUser(s, t))
  {
    assert Current(s, t);
    var x := s.transactions[t];
    assert !x.otherOwner;
    hide Current, Continues, Inv, Abort, Locking;
    AbortStep(s, t);
    if x.actor < |s.users| {
      var next := x.(user := Some(s.users[x.actor]), stage := 1);
      UserCurrent(s, t, s.(locks := s.locks[UserRow(x.actor) := t], transactions := s.transactions[t := next]));
      LockingStep(s, t, UserRow(x.actor), next);
    }
  }

  lemma OrganizationCurrent(s: State, t: Id, id: Id, u: State)
    requires t < |s.transactions| && id < |s.organizations| && !s.transactions[t].otherOwner
    requires s.transactions[t].own.None?
    requires var x := s.transactions[t];
             TakesLock(s, t, OrganizationRow(id),
                 x.(organizationId := id, organization := Some(s.organizations[id]), stage := x.stage + 1), u)
    ensures Current(u, t)
  {
    hide HasOtherOwner;
  }

  lemma LockOrganizationStep(s: State, t: Id, id: Id)
    requires Inv(s) && t < |s.transactions| && !s.transactions[t].done && s.transactions[t].stage < 4
    requires s.transactions[t].own.None?
    ensures Inv(LockOrganization(s, t, id)) && Continues(s, LockOrganization(s, t, id))
  {
    assert Current(s, t);
    var x := s.transactions[t];
    assert !x.otherOwner;
    hide Current, Continues, Inv, Abort, Locking;
    AbortStep(s, t);
    if id < |s.organizations| {
      var next := x.(organizationId := id, organization := Some(s.organizations[id]), stage := x.stage + 1);
      OrganizationCurrent(s, t, id, s.(locks := s.locks[OrganizationRow(id) := t],
          transactions := s.transactions[t := next]));
      LockingStep(s, t, OrganizationRow(id), next);
    }
  }

  lemma OwnCurrent(s: State, t: Id, id: Id, u: State)
    requires t < |s.transactions| && id < |s.members|
    requires var x := s.transactions[t];
             && x.stage == 2 && (x.request.InviteMember? || x.request.UpdateMember?)
             && s.members[id].organization == x.organizationId && s.members[id].user == x.actor
    requires var x := s.transactions[t];
             TakesLock(s, t, MemberRow(id), x.(ownId := id, own := Some(s.members[id]), stage := x.stage + 1), u)
    ensures Current(u, t)
  {
    hide HasOtherOwner;
  }

  lemma LockOwnStep(s: State, t: Id)
    requires Inv(s) && t < |s.transactions| && !s.transactions[t].done && s.transactions[t].stage == 2
    requires s.transactions[t].request.InviteMember? || s.transactions[t].request.UpdateMember?
    ensures Inv(LockOwn(s, t)) && Continues(s, LockOwn(s, t))
  {
    assert Current(s, t);
    var x := s.transactions[t];
    hide Current, Continues, Inv, Abort, Locking, MemberFor;
    AbortStep(s, t);
    var own := MemberFor(s.members, x.organizationId, x.actor);
    if own.Some? {
      var next := x.(ownId := own.value, own := Some(s.members[own.value]), stage := x.stage + 1);
      OwnCurrent(s, t, own.value, s.(locks := s.locks[MemberRow(own.value) := t],
          transactions := s.transactions[t := next]));
      LockingStep(s, t, MemberRow(own.value), next);
    }
  }

  lemma MemberCurrent(s: State, t: Id, id: Id, u: State)
    requires t < |s.transactions| && id < |s.members| && !s.transactions[t].otherOwner
    requires var x := s.transactions[t];
             TakesLock(s, t, MemberRow(id), x.(memberId := id, member := Some(s.members[id]), stage := x.stage + 1), u)
    ensures Current(u, t)
  {
    hide HasOtherOwner;
  }

  lemma LockMemberStep(s: State, t: Id, id: Id)
    requires Inv(s) && t < |s.transactions| && !s.transactions[t].done && s.transactions[t].stage < 4
    ensures Inv(LockMember(s, t, id)) && Continues(s, LockMember(s, t, id))
  {
    assert Current(s, t);
    var x := s.transactions[t];
    assert !x.otherOwner;
    hide Current, Continues, Inv, Abort, Locking;
    AbortStep(s, t);
    if id < |s.members| {
      var next := x.(memberId := id, member := Some(s.members[id]), stage := x.stage + 1);
      MemberCurrent(s, t, id, s.(locks := s.locks[MemberRow(id) := t], transactions := s.transactions[t := next]));
      LockingStep(s, t, MemberRow(id), next);
    }
  }

  lemma TargetCurrent(s: State, t: Id, id: Id, u: State)
    requires t < |s.transactions| && id < |s.users|
    requires var x := s.transactions[t];
             TakesLock(s, t, UserRow(id), x.(targetId := id, target := Some(s.users[id]), stage := x.stage + 1), u)
    ensures Current(u, t)
  {
    hide HasOtherOwner;
  }

  lemma LockTargetStep(s: State, t: Id, id: Id)
    requires Inv(s) && t < |s.transactions| && !s.transactions[t].done
    ensures Inv(LockTarget(s, t, id)) && Continues(s, LockTarget(s, t, id))
  {
    assert Current(s, t);
    var x := s.transactions[t];
    hide Current, Continues, Inv, Abort, Locking;
    AbortStep(s, t);
    if id < |s.users| {
      var next := x.(targetId := id, target := Some(s.users[id]), stage := x.stage + 1);
      TargetCurrent(s, t, id, s.(locks := s.locks[UserRow(id) := t], transactions := s.transactions[t := next]));
      LockingStep(s, t, UserRow(id), next);
    }
  }

  lemma CheckOwnersStep(s: State, t: Id, needed: bool)
    requires Inv(s) && t < |s.transactions| && !s.transactions[t].done && s.transactions[t].stage >= 3
    requires s.transactions[t].organization.Some? && s.transactions[t].member.Some?
    ensures Inv(CheckOwners(s, t, needed)) && Continues(s, CheckOwners(s, t, needed))
  {
    assert Current(s, t);
    AbortStep(s, t);
    var x := s.transactions[t];
    var u := CheckOwners(s, t, needed);
    hide Tables, Continues, Inv;
    if needed && CountOtherOwners(s.members, x.organizationId, x.memberId, |s.members|) > 0 {
      var i: Id :| i < |s.members| && IsOtherOwner(s.members, x.organizationId, x.memberId, i);
      assert HasOtherOwner(s.members, x.organizationId, x.memberId);
      NoWriteHere(s, t, u);
    } else if !needed {
      NoWriteHere(s, t, u);
    }
  }

  lemma NoWriteHere(s: State, t: Id, u: State)
    requires Inv(s) && t < |s.transactions| == |u.transactions|
    requires u == s.(transactions := s.transactions[t := u.transactions[t]]) && Current(u, t)
    ensures Inv(u) && Continues(s, u)
  {
    hide Tables, Continues;
    NoWrite(s, t, u);
  }

  // -------------------------------------------------------------------- steps that write

  /** The row that is written, and the locks that go with it: the membership, its organization and
      its user. */
  ghost predicate Writes(s: State, t: Id, m: Id, user: Id, row: Member) {
    && m < |s.members| && user < |s.users| && s.members[m].organization < |s.organizations|
    && s.members[m].user == user
    && Holds(s, MemberRow(m), t) && Holds(s, UserRow(user), t)
        && Holds(s, OrganizationRow(s.members[m].organization), t)
    && MemberContinues(s.members[m], row) && s.members[m].version < row.version
  }

  function WithMember(s: State, t: Id, m: Id, user: Id, row: Member): State
    requires t < |s.transactions| && m < |s.members| && user < |s.users|
        && s.members[m].organization < |s.organizations|
  {
    var o := s.members[m].organization;
    Commit(s, t, s.users[user := Bumped(s.users[user])], s.organizations[o := BumpedOrganization(s.organizations[o])],
        s.members[m := row])
  }

  /** The transaction's locks keep every other running transaction's copies current. */
  lemma OthersStayCurrent(s: State, t: Id, m: Id, user: Id, row: Member, i: Id)
    requires Inv(s) && t < |s.transactions| && Writes(s, t, m, user, row) && i < |s.transactions| && i != t
    ensures Current(WithMember(s, t, m, user, row), i)
  {
    assert Current(s, i);
    var x := s.transactions[i];
    var u := WithMember(s, t, m, user, row);
    hide Tables, MemberContinues;
    if !x.done && x.otherOwner {
      assert x.organizationId != s.members[m].organization;
      var w: Id :| IsOtherOwner(s.members, x.organizationId, x.memberId, w);
      assert IsOtherOwner(u.members, x.organizationId, x.memberId, w);
    }
  }

  /** An organization keeps an active owner if the written row still is one, was none, or was not
      the only one. */
  lemma OwnersKept(members: seq<Member>, m: Id, row: Member, o: Id)
    requires m < |members| && HasOwner(members, o) && row.organization == members[m].organization
    requires ActiveOwner(members[m], o) ==> ActiveOwner(row, o) || HasOtherOwner(members, o, m)
    ensures HasOwner(members[m := row], o)
  {
    var later := members[m := row];
    if ActiveOwner(members[m], o) && !ActiveOwner(row, o) {
      var i: Id :| IsOtherOwner(members, o, m, i);
      assert later[i] == members[i];
    } else {
      var i: Id :| i < |members| && ActiveOwner(members[i], o);
      assert i != m ==> later[i] == members[i];
      assert ActiveOwner(later[i], o);
    }
  }

  lemma WriteStep(s: State, t: Id, m: Id, user: Id, row: Member)
    requires Inv(s) && t < |s.transactions| && Writes(s, t, m, user, row)
    requires var o := s.members[m].organization; ActiveOwner(s.members[m], o) ==>
        ActiveOwner(row, o) || HasOtherOwner(s.members, o, m)
    ensures Inv(WithMember(s, t, m, user, row)) && Continues(s, WithMember(s, t, m, user, row))
  {
    var u := WithMember(s, t, m, user, row);
    forall i: Id | i < |u.transactions| ensures Current(u, i) {
      if i != t { OthersStayCurrent(s, t, m, user, row, i); }
    }
    hide Current, Holds;
    assert Tables(u) by {
      forall o: Id | o < |u.organizations| ensures HasOwner(u.members, o) { OwnersKept(s.members, m, row, o); }
    }
    hide Tables;
  }

  lemma AcceptStep(s: State, t: Id)
    requires Inv(s) && t < |s.transactions| && !s.transactions[t].done && s.transactions[t].request.AcceptInvitation?
    ensures Inv(AdvanceAccept(s, t)) && Continues(s, AdvanceAccept(s, t))
  {
    assert Current(s, t);
    var x := s.transactions[t];
    AbortStep(s, t);
    if x.stage == 0 { hide Inv, Continues, LockUser; LockUserStep(s, t); }
    else if x.stage == 1 { hide Inv, Continues, LockMember; LockMemberStep(s, t, x.request.membership); }
    else if x.stage == 2 {
      hide Inv, Continues, LockOrganization;
      if x.member.Some? { LockOrganizationStep(s, t, x.member.value.organization); }
    } else if Loaded(s, x) && InvitationUsable(x.user.value, x.actor, x.member.value, x.request.token, s.clock)
              && x.member.value.organization == x.organizationId {
      hide Inv, Continues, HasOtherOwner;
      WriteStep(s, t, x.memberId, x.actor, Accepted(x.member.value, s.clock));
    }
  }

  lemma LeaveStep(s: State, t: Id)
    requires Inv(s) && t < |s.transactions| && !s.transactions[t].done && s.transactions[t].request.LeaveOrganization?
    ensures Inv(AdvanceLeave(s, t)) && Continues(s, AdvanceLeave(s, t))
  {
    assert Current(s, t);
    var x := s.transactions[t];
    AbortStep(s, t);
    if x.stage == 0 { hide Inv, Continues, LockUser; LockUserStep(s, t); }
    else if x.stage == 1 { hide Inv, Continues, LockMember; LockMemberStep(s, t, x.request.membership); }
    else if x.stage == 2 {
      hide Inv, Continues, LockOrganization;
      if x.member.Some? { LockOrganizationStep(s, t, x.member.value.organization); }
    } else if Loaded(s, x) && MayLeave(x.user.value, x.actor, x.member.value, x.request.expected)
              && x.member.value.organization == x.organizationId {
      hide Inv, Continues, HasOtherOwner, CheckOwners;
      if x.stage == 3 { CheckOwnersStep(s, t, x.member.value.role == Authz.Owner); }
      else if x.member.value.role != Authz.Owner || x.otherOwner {
        WriteStep(s, t, x.memberId, x.actor, Departed(x.member.value, s.clock));
      }
    }
  }

  /** An accepted change of an active owner who stays one, or has company. */
  lemma UpdatedRow(m: Member, role: Option<Role>, status: Option<MemberStatus>, now: Time)
    requires Updated(m, role, status, now).Changed?
    ensures var row := Updated(m, role, status, now).member;
            && MemberContinues(m, row) && m.version < row.version
            && (ActiveOwner(m, m.organization) && !RemovesActiveOwner(m, role, status) ==>
                ActiveOwner(row, m.organization))
  {}

  lemma UpdateStep(s: State, t: Id)
    requires Inv(s) && t < |s.transactions| && !s.transactions[t].done && s.transactions[t].request.UpdateMember?
    ensures Inv(AdvanceUpdate(s, t)) && Continues(s, AdvanceUpdate(s, t))
  {
    assert Current(s, t);
    var x := s.transactions[t];
    var r := x.request;
    AbortStep(s, t);
    hide Inv, Continues, HasOtherOwner, CheckOwners, LockUser, LockOrganization, LockOwn, LockMember, LockTarget,
        MayManage, Abort, MemberFor;
    if x.stage == 0 { LockUserStep(s, t); }
    else if x.stage == 1 { LockOrganizationStep(s, t, r.organization); }
    else if x.stage == 2 { LockOwnStep(s, t); }
    else if x.stage == 3 { LockMemberStep(s, t, r.membership); }
    else if x.organization.Some? && x.member.Some? {
      if x.stage == 4 { CheckOwnersStep(s, t, RemovesActiveOwner(x.member.value, r.newRole, r.newStatus)); }
      else if x.stage == 5 { LockTargetStep(s, t, x.member.value.user); }
      else { UpdateCommit(s, t); }
    }
  }

  lemma UpdateCommit(s: State, t: Id)
    requires Inv(s) && t < |s.transactions| && !s.transactions[t].done && s.transactions[t].request.UpdateMember?
    requires s.transactions[t].stage > 5
    ensures Inv(AdvanceUpdate(s, t)) && Continues(s, AdvanceUpdate(s, t))
  {
    assert Current(s, t);
    var x := s.transactions[t];
    var r := x.request;
    AbortStep(s, t);
    hide Inv, Continues, HasOtherOwner, MayManage, Updated;
    if x.own.Some? && Loaded(s, x) && x.target.Some? && x.targetId == x.member.value.user
        && UpdateAllowed(x.own.value, x.member.value, x.organizationId, r) {
      var change := Updated(x.member.value, r.newRole, r.newStatus, s.clock);
      if change.Changed? && (!RemovesActiveOwner(x.member.value, r.newRole, r.newStatus) || x.otherOwner) {
        UpdatedRow(x.member.value, r.newRole, r.newStatus, s.clock);
        hide RemovesActiveOwner, MemberContinues, Current;
        WriteStep(s, t, x.memberId, x.targetId, change.member);
      }
    }
  }

  lemma OwnersAppended(members: seq<Member>, row: Member, o: Id)
    requires HasOwner(members, o)
    ensures HasOwner(members + [row], o)
  {
    var i: Id :| i < |members| && ActiveOwner(members[i], o);
    assert (members + [row])[i] == members[i];
  }

  lemma CreateCommit(s: State, t: Id, actor: Id)
    requires Inv(s) && t < |s.transactions| && actor < |s.users| && Holds(s, UserRow(actor), t)
    ensures var u := Commit(s, t, s.users[actor := Bumped(s.users[actor])],
        s.organizations + [Organization(true, false, 1)],
                            s.members + [Founder(|s.organizations|, actor, s.clock)]);
            Inv(u) && Continues(s, u)
  {
    var row := Founder(|s.organizations|, actor, s.clock);
    var u := Commit(s, t, s.users[actor := Bumped(s.users[actor])], s.organizations + [Organization(true, false, 1)],
        s.members + [row]);
    forall i: Id | i < |u.transactions| ensures Current(u, i) { if i != t { AppendKeepsCurrent(s, t, actor, u, i); } }
    hide Current, Holds;
    assert Tables(u) by {
      assert u.members[|s.members|] == row && ActiveOwner(row, |s.organizations|);
      forall o: Id | o < |u.organizations| ensures HasOwner(u.members, o) {
        if o < |s.organizations| { OwnersAppended(s.members, row, o); }
      }
    }
    hide Tables;
  }

  /** A new membership row, one user row raised, organization rows at most the locked one. */
  lemma AppendKeepsCurrent(s: State, t: Id, user: Id, u: State, i: Id)
    requires t < |s.transactions| && i < |s.transactions| && i != t && Current(s, i) && user < |s.users|
    requires Holds(s, UserRow(user), t) && u.users == s.users[user := Bumped(s.users[user])]
    requires |s.members| <= |u.members| && forall m | 0 <= m < |s.members| :: u.members[m] == s.members[m]
    requires |s.organizations| <= |u.organizations|
    requires forall o: Id | o < |s.organizations| && u.organizations[o] != s.organizations[o] ::
        Holds(s, OrganizationRow(o), t)
    requires u.locks == Released(s.locks, t) && |u.transactions| == |s.transactions|
        && u.transactions[i] == s.transactions[i]
    ensures Current(u, i)
  {
    var x := s.transactions[i];
    if !x.done && x.otherOwner {
      var w: Id :| IsOtherOwner(s.members, x.organizationId, x.memberId, w);
      assert IsOtherOwner(u.members, x.organizationId, x.memberId, w);
    }
  }

  lemma InviteCommit(s: State, t: Id, o: Id, user: Id, row: Member)
    requires Inv(s) && t < |s.transactions| && o < |s.organizations| && user < |s.users|
    requires Holds(s, OrganizationRow(o), t) && Holds(s, UserRow(user), t)
    requires row.organization == o && row.user == user && MemberFor(s.members, o, user).None?
    ensures var u := Commit(s, t, s.users[user := Bumped(s.users[user])],
        s.organizations[o := BumpedOrganization(s.organizations[o])], s.members + [row]);
            Inv(u) && Continues(s, u)
  {
    var u := Commit(s, t, s.users[user := Bumped(s.users[user])],
        s.organizations[o := BumpedOrganization(s.organizations[o])], s.members + [row]);
    forall i: Id | i < |u.transactions| ensures Current(u, i) { if i != t { AppendKeepsCurrent(s, t, user, u, i); } }
    hide Current, Holds;
    assert Tables(u) by {
      forall p: Id | p < |u.organizations| ensures HasOwner(u.members, p) { OwnersAppended(s.members, row, p); }
    }
    hide Tables;
  }

  lemma CreateStep(s: State, t: Id)
    requires Inv(s) && t < |s.transactions| && !s.transactions[t].done && s.transactions[t].request.CreateOrganization?
    ensures Inv(AdvanceCreate(s, t)) && Continues(s, AdvanceCreate(s, t))
  {
    assert Current(s, t);
    var x := s.transactions[t];
    AbortStep(s, t);
    hide Inv, Continues, LockUser, HasOtherOwner;
    if x.stage == 0 { LockUserStep(s, t); }
    else if x.user.Some? { CreateCommit(s, t, x.actor); }
  }

  lemma InviteStep(s: State, t: Id)
    requires Inv(s) && t < |s.transactions| && !s.transactions[t].done && s.transactions[t].request.InviteMember?
    ensures Inv(AdvanceInvite(s, t)) && Continues(s, AdvanceInvite(s, t))
  {
    assert Current(s, t);
    var x := s.transactions[t];
    AbortStep(s, t);
    hide Inv, Continues, LockUser, LockOrganization, LockOwn, LockTarget, HasOtherOwner, MayManage, Abort, MemberFor;
    if x.stage == 0 { LockUserStep(s, t); }
    else if x.stage == 1 { LockOrganizationStep(s, t, x.request.organization); }
    else if x.stage == 2 { LockOwnStep(s, t); }
    else if x.stage == 3 { LockTargetStep(s, t, x.request.invitee); }
    else if x.organization.Some? && x.target.Some? && MemberFor(s.members, x.organizationId, x.targetId).None?
            && x.request.organization == x.organizationId && x.request.invitee == x.targetId {
      InviteCommit(s, t, x.organizationId, x.targetId, Invitation(x.request, s.clock));
    }
  }

  /** A user or a transaction more, or a later time: nothing a transaction copied changes. */
  lemma GrowStep(s: State, u: State)
    requires Inv(s) && u == s.(clock := u.clock, users := u.users, transactions := u.transactions) && s.clock <= u.clock
    requires s.users <= u.users && s.transactions <= u.transactions
    requires forall i: Id | |s.transactions| <= i < |u.transactions| :: exists actor, r ::
        u.transactions[i] == Started(actor, r)
    ensures Inv(u) && Continues(s, u)
  {
    forall i: Id | i < |u.transactions| ensures Current(u, i) {
      if i < |s.transactions| { assert Current(s, i) && u.transactions[i] == s.transactions[i]; }
    }
    hide Current;
    assert Tables(u);
    hide Tables;
  }

  lemma StepKeeps(s: State, a: Action)
    requires Inv(s)
    ensures Inv(Step(s, a)) && Continues(s, Step(s, a))
  {
    hide Inv, Continues, AdvanceCreate, AdvanceInvite, AdvanceAccept, AdvanceUpdate, AdvanceLeave, Abort;
    ContinuesReflexive(s);
    match a
    case Register(user) => GrowStep(s, Step(s, a));
    case Begin(actor, r) =>
      assert Step(s, a).transactions[|s.transactions|] == Started(actor, r);
      GrowStep(s, Step(s, a));
    case Tick(d) => GrowStep(s, Step(s, a));
    case Crash(t) => if t < |s.transactions| { AbortStep(s, t); }
    case Proceed(t) =>
      if t < |s.transactions| && !s.transactions[t].done {
        match s.transactions[t].request
        case CreateOrganization => CreateStep(s, t);
        case InviteMember(_, _, _, _, _) => InviteStep(s, t);
        case AcceptInvitation(_, _) => AcceptStep(s, t);
        case UpdateMember(_, _, _, _, _) => UpdateStep(s, t);
        case LeaveOrganization(_, _) => LeaveStep(s, t);
      }
  }

  lemma TouchedUser(s: State, t: State, u: State, m: Id)
    requires Continues(s, t) && Continues(t, u) && Touched(s, u, m) && u.members[m].user < |s.users|
    ensures s.users[u.members[m].user].authorizationVersion < u.users[u.members[m].user].authorizationVersion
  {
    var user := u.members[m].user;
    assert UserContinues(s.users[user], t.users[user]) && UserContinues(t.users[user], u.users[user]);
    if m < |t.members| { assert MemberContinues(t.members[m], u.members[m]); }
    assert Touched(t, u, m) || (m < |t.members| && t.members[m] == u.members[m] && Touched(s, t, m));
  }

  lemma ContinuesTransitive(s: State, t: State, u: State)
    requires Continues(s, t) && Continues(t, u)
    ensures Continues(s, u)
  {
    forall m: Id | Touched(s, u, m) && u.members[m].user < |s.users|
      ensures s.users[u.members[m].user].authorizationVersion < u.users[u.members[m].user].authorizationVersion
    {
      TouchedUser(s, t, u, m);
    }
    hide Touched;
    forall m | 0 <= m < |s.members| ensures MemberContinues(s.members[m], u.members[m]) {
      assert MemberContinues(s.members[m], t.members[m]) && MemberContinues(t.members[m], u.members[m]);
    }
    forall i | 0 <= i < |s.users| ensures UserContinues(s.users[i], u.users[i]) {
      assert UserContinues(s.users[i], t.users[i]) && UserContinues(t.users[i], u.users[i]);
    }
  }

  /** From any tables in which every organization has an active owner, with any transactions
      under way, every interleaving of lock requests, counts, commits and crashes keeps it so. */
  lemma {:induction false} RunKeeps(s: State, actions: seq<Action>)
    requires Inv(s)
    ensures Inv(Run(s, actions)) && Continues(s, Run(s, actions))
    decreases |actions|
  {
    if actions == [] {
      ContinuesReflexive(s);
    } else {
      hide Step, Inv, Continues;
      StepKeeps(s, actions[0]);
      RunKeeps(Step(s, actions[0]), actions[1..]);
      ContinuesTransitive(s, Step(s, actions[0]), Run(s, actions));
    }
  }

  /** Tables with nothing going on, however they came about. */
  lemma EveryOrganizationKeepsAnOwner(s: State, actions: seq<Action>, organization: Id)
    requires Tables(s) && s.transactions == [] && s.locks == map[]
    requires organization < |Run(s, actions).organizations|
    ensures exists m: Id :: m < |Run(s, actions).members| && ActiveOwner(Run(s, actions).members[m], organization)
  {
    RunKeeps(s, actions);
    assert Tables(Run(s, actions));
    assert HasOwner(Run(s, actions).members, organization);
  }

  /** A membership that was left or revoked never counts again. */
  lemma EndedStaysEnded(s: State, actions: seq<Action>, m: Id)
    requires Inv(s) && m < |s.members| && s.members[m].status in {Left, Revoked}
    ensures var t := Run(s, actions); m < |t.members| && t.members[m].status == s.members[m].status
  {
    RunKeeps(s, actions);
    assert MemberContinues(s.members[m], Run(s, actions).members[m]);
  }

  // -------------------------------------------------------------------- the cache's side of it

  function Joined(m: Member, id: Id, o: Organization): Authz.Member {
    Authz.Member(m.organization, id, m.role, m.status == Active, o.active, o.verified)
  }

  /** The user's memberships with their organizations, newest first, among the first `n` rows. */
  function JoinedMembers(organizations: seq<Organization>, members: seq<Member>, user: Id, n: nat): seq<Authz.Member>
    requires n <= |members|
  {
    if n == 0 then []
    else
      var m := members[n - 1];
      var rest := JoinedMembers(organizations, members, user, n - 1);
      if m.user == user && m.organization < |organizations|
          then [Joined(m, n - 1, organizations[m.organization])] + rest else rest
  }

  function InputsOf(s: State, user: Id): Authz.Inputs
    requires user < |s.users|
  {
    var u := s.users[user];
    Authz.Inputs(u.authorizationVersion, Authz.Account(u.active, u.emailVerified, u.phoneVerified), None,
                 JoinedMembers(s.organizations, s.members, user, |s.members|))
  }

  function AllInputs(s: State, n: nat): (inputs: seq<Authz.Inputs>)
    requires n <= |s.users|
    ensures |inputs| == n && forall u: Id | u < n :: inputs[u] == InputsOf(s, u)
  {
    if n == 0 then [] else AllInputs(s, n - 1) + [InputsOf(s, n - 1)]
  }

  lemma {:induction false} JoinedUntouched(s: State, t: State, user: Id, n: nat)
    requires Tables(s) && Continues(s, t) && n <= |s.members|
    requires forall m: Id | Touched(s, t, m) :: t.members[m].user != user
    ensures JoinedMembers(s.organizations, s.members, user, n) == JoinedMembers(t.organizations, t.members, user, n)
  {
    if n > 0 {
      JoinedUntouched(s, t, user, n - 1);
      assert MemberContinues(s.members[n - 1], t.members[n - 1]);
      assert !Touched(s, t, n - 1) ==> t.members[n - 1] == s.members[n - 1];
    }
  }

  lemma {:induction false} NewRowsAreOthers(s: State, t: State, user: Id, n: nat)
    requires |s.members| <= n <= |t.members|
    requires forall m: Id | Touched(s, t, m) :: t.members[m].user != user
    ensures JoinedMembers(t.organizations, t.members, user, n) ==
        JoinedMembers(t.organizations, t.members, user, |s.members|)
    decreases n
  {
    if n > |s.members| {
      assert Touched(s, t, n - 1);
      NewRowsAreOthers(s, t, user, n - 1);
    }
  }

  /** Every step of the dealer services is a commit the capability cache can live with: whoever's
      memberships change gets a greater authorization version in the same transaction. */
  lemma StepBumps(s: State, a: Action)
    requires Inv(s)
    ensures Authz.Bumps(AllInputs(s, |s.users|), AllInputs(Step(s, a), |Step(s, a).users|))
  {
    StepKeeps(s, a);
    var t := Step(s, a);
    hide Inv, Step;
    forall user: Id | user < |s.users| ensures Authz.Bumped(InputsOf(s, user), InputsOf(t, user)) {
      UserBumped(s, t, user) by { assert Tables(s) by { InvTables(s); } }
    }
    hide Continues, InputsOf;
    assert |s.users| <= |t.users| by { ContinuesGrows(s, t); }
  }

  lemma InvTables(s: State)
    requires Inv(s)
    ensures Tables(s)
  {}

  lemma ContinuesGrows(s: State, t: State)
    requires Continues(s, t)
    ensures |s.users| <= |t.users|
  {}

  lemma UserBumped(s: State, t: State, user: Id)
    requires Tables(s) && Continues(s, t) && user < |s.users|
    ensures user < |t.users| && Authz.Bumped(InputsOf(s, user), InputsOf(t, user))
  {
    assert UserContinues(s.users[user], t.users[user]);
    if s.users[user].authorizationVersion == t.users[user].authorizationVersion {
      assert forall m: Id | Touched(s, t, m) :: t.members[m].user != user;
      hide Tables, Touched, MemberContinues;
      JoinedUntouched(s, t, user, |s.members|);
      NewRowsAreOthers(s, t, user, |t.members|);
    }
  }

  // -------------------------------------------------------------------- the operations without interleaving

  /** What an operation comes to when nothing runs beside it. */
  datatype Verdict = Refused | Nothing | Write(member: Id, user: Id, row: Member)

  function LeaveVerdict(s: State, actor: Id, r: Request): Verdict
    requires r.LeaveOrganization?
  {
    if actor >= |s.users| || r.membership >= |s.members| then Refused
    else
      var m := s.members[r.membership];
      if !MayLeave(s.users[actor], actor, m, r.expected) || m.organization >= |s.organizations| then Refused
      else if m.role == Authz.Owner && CountOtherOwners(s.members, m.organization, r.membership, |s.members|) == 0
          then Refused
      else Write(r.membership, actor, Departed(m, s.clock))
  }

  function AcceptVerdict(s: State, actor: Id, r: Request): Verdict
    requires r.AcceptInvitation?
  {
    if actor >= |s.users| || r.membership >= |s.members| then Refused
    else
      var m := s.members[r.membership];
      if !InvitationUsable(s.users[actor], actor, m, r.token, s.clock) then Refused
      else if m.organization >= |s.organizations| || !s.organizations[m.organization].active then Refused
      else Write(r.membership, actor, Accepted(m, s.clock))
  }

  function UpdateVerdict(s: State, actor: Id, r: Request): Verdict
    requires r.UpdateMember?
  {
    var own := MemberFor(s.members, r.organization, actor);
    if actor >= |s.users| || r.organization >= |s.organizations| || own.None? then Refused
    else if !MayManage(s.users[actor], s.organizations[r.organization], s.members[own.value])
        || r.membership >= |s.members| then Refused
    else
      var m := s.members[r.membership];
      if !UpdateAllowed(s.members[own.value], m, r.organization, r) then Refused
      else if RemovesActiveOwner(m, r.newRole, r.newStatus)
              && CountOtherOwners(s.members, r.organization, r.membership, |s.members|) == 0 then Refused
      else
        match Updated(m, r.newRole, r.newStatus, s.clock)
        case Rejected => Refused
        case Unchanged => Nothing
        case Changed(row) => if m.user >= |s.users| then Refused else Write(r.membership, m.user, row)
  }

  function Written(s: State, v: Verdict): State
    requires v.Write? ==> v.member < |s.members| && v.user < |s.users|
                          && s.members[v.member].organization < |s.organizations|
  {
    if !v.Write? then s
    else
      var o := s.members[v.member].organization;
      s.(users := s.users[v.user := Bumped(s.users[v.user])],
         organizations := s.organizations[o := BumpedOrganization(s.organizations[o])],
         members := s.members[v.member := v.row])
  }

  ghost predicate SameTables(s: State, t: State) {
    s.users == t.users && s.organizations == t.organizations && s.members == t.members
  }

  function Proceeds(t: Id, n: nat): seq<Action> {
    if n == 0 then [] else [Proceed(t)] + Proceeds(t, n - 1)
  }

  /** A transaction that has ended does nothing more. */
  lemma {:induction false} EndedProceeds(s: State, t: Id, n: nat)
    requires t < |s.transactions| && s.transactions[t].done
    ensures Run(s, Proceeds(t, n)) == s
  {
    if n > 0 {
      assert Proceeds(t, n)[1..] == Proceeds(t, n - 1);
      EndedProceeds(s, t, n - 1);
    }
  }

  lemma OneProceed(s: State, t: Id, n: nat)
    requires n > 0
    ensures Run(s, Proceeds(t, n)) == Run(Advance(s, t), Proceeds(t, n - 1))
  {
    assert Proceeds(t, n)[0] == Proceed(t) && Proceeds(t, n)[1..] == Proceeds(t, n - 1);
  }

  /** Nobody else holds a lock. */
  ghost predicate Alone(s: State, t: Id) {
    t < |s.transactions| && forall l | l in s.locks :: s.locks[l] == t
  }

  /** Left alone, the locking transaction comes to what the plain operation comes to. */
  lemma LeaveAlone(s: State, t: Id, r: Request, actor: Id)
    requires Tables(s) && Alone(s, t) && r.LeaveOrganization? && s.transactions[t] == Started(actor, r)
    ensures SameTables(Run(s, Proceeds(t, 5)), Written(s, LeaveVerdict(s, actor, r)))
  {
    assert forall m | 0 <= m < |s.members| :: s.members[m].organization < |s.organizations|;
    hide Tables, Run, Proceeds;
    var s1 := Advance(s, t);
    OneProceed(s, t, 5);
    if s1.transactions[t].done { EndedProceeds(s1, t, 4); return; }
    var s2 := Advance(s1, t);
    OneProceed(s1, t, 4);
    if s2.transactions[t].done { EndedProceeds(s2, t, 3); return; }
    LeaveAloneFrom2(s, s2, t, r, actor);
  }

  lemma LeaveAloneFrom2(s: State, s2: State, t: Id, r: Request, actor: Id)
    requires Alone(s2, t) && r.LeaveOrganization? && SameTables(s, s2) && s.clock == s2.clock && actor < |s.users|
        && r.membership < |s.members|
    requires s2.transactions[t] == Started(actor, r).(user := Some(s.users[actor]), memberId := r.membership,
                                                      member := Some(s.members[r.membership]), stage := 2)
    requires forall m | 0 <= m < |s.members| :: s.members[m].organization < |s.organizations|
    ensures SameTables(Run(s2, Proceeds(t, 3)), Written(s, LeaveVerdict(s, actor, r)))
  {
    hide Run, Proceeds;
    var s3 := Advance(s2, t);
    OneProceed(s2, t, 3);
    if s3.transactions[t].done { EndedProceeds(s3, t, 2); return; }
    var s4 := Advance(s3, t);
    OneProceed(s3, t, 2);
    if s4.transactions[t].done { EndedProceeds(s4, t, 1); return; }
    var s5 := Advance(s4, t);
    OneProceed(s4, t, 1);
    assert s5.transactions[t].done;
    EndedProceeds(s5, t, 0);
  }

  lemma UpdateAlone(s: State, t: Id, r: Request, actor: Id)
    requires Tables(s) && Alone(s, t) && r.UpdateMember? && s.transactions[t] == Started(actor, r)
    ensures SameTables(Run(s, Proceeds(t, 7)), Written(s, UpdateVerdict(s, actor, r)))
  {
    assert forall m | 0 <= m < |s.members| ::
        s.members[m].organization < |s.organizations| && s.members[m].user < |s.users|;
    hide Tables, Run, Proceeds, Updated, RemovesActiveOwner, MayManage, UpdateAllowed, AdvanceLeave, AdvanceAccept,
        AdvanceInvite, AdvanceCreate;
    var s1 := Advance(s, t);
    OneProceed(s, t, 7);
    if s1.transactions[t].done { EndedProceeds(s1, t, 6); return; }
    var s2 := Advance(s1, t);
    OneProceed(s1, t, 6);
    if s2.transactions[t].done { EndedProceeds(s2, t, 5); return; }
    UpdateAloneFrom2(s, s2, t, r, actor);
  }

  lemma UpdateAloneFrom2(s: State, s2: State, t: Id, r: Request, actor: Id)
    requires Alone(s2, t) && r.UpdateMember? && SameTables(s, s2) && s.clock == s2.clock && actor < |s.users|
        && r.organization < |s.organizations|
    requires s2.transactions[t] == Started(actor, r).(user := Some(s.users[actor]), organizationId := r.organization,
                                                      organization := Some(s.organizations[r.organization]), stage := 2)
    requires forall m | 0 <= m < |s.members| ::
        s.members[m].organization < |s.organizations| && s.members[m].user < |s.users|
    ensures SameTables(Run(s2, Proceeds(t, 5)), Written(s, UpdateVerdict(s, actor, r)))
  {
    hide Run, Proceeds, Updated, RemovesActiveOwner, MayManage, UpdateAllowed, AdvanceLeave, AdvanceAccept,
        AdvanceInvite, AdvanceCreate;
    var s3 := Advance(s2, t);
    OneProceed(s2, t, 5);
    if s3.transactions[t].done { EndedProceeds(s3, t, 4); return; }
    var s4 := Advance(s3, t);
    OneProceed(s3, t, 4);
    if s4.transactions[t].done { EndedProceeds(s4, t, 3); return; }
    UpdateAloneFrom4(s, s4, t, r, actor, MemberFor(s.members, r.organization, actor).value);
  }

  lemma UpdateAloneFrom4(s: State, s4: State, t: Id, r: Request, actor: Id, own: Id)
    requires Alone(s4, t) && r.UpdateMember? && SameTables(s, s4) && s.clock == s4.clock && actor < |s.users|
        && r.organization < |s.organizations|
    requires MemberFor(s.members, r.organization, actor) == Some(own) && r.membership < |s.members|
    requires MayManage(s.users[actor], s.organizations[r.organization], s.members[own])
    requires s4.transactions[t] == Started(actor, r).(user := Some(s.users[actor]), organizationId := r.organization,
                                                      organization := Some(s.organizations[r.organization]),
                                                          ownId := own, own := Some(s.members[own]),
                                                      memberId := r.membership,
                                                          member := Some(s.members[r.membership]), stage := 4)
    requires forall m | 0 <= m < |s.members| ::
        s.members[m].organization < |s.organizations| && s.members[m].user < |s.users|
    ensures SameTables(Run(s4, Proceeds(t, 3)), Written(s, UpdateVerdict(s, actor, r)))
  {
    hide Run, Proceeds, Updated, RemovesActiveOwner, MayManage, AdvanceLeave, AdvanceAccept, AdvanceInvite,
        AdvanceCreate, MemberFor;
    var s5 := Advance(s4, t);
    OneProceed(s4, t, 3);
    if s5.transactions[t].done { EndedProceeds(s5, t, 2); return; }
    UpdateAloneFrom5(s, s5, t, r, actor, own);
  }

  lemma UpdateAloneFrom5(s: State, s5: State, t: Id, r: Request, actor: Id, own: Id)
    requires Alone(s5, t) && r.UpdateMember? && SameTables(s, s5) && s.clock == s5.clock && actor < |s.users|
        && r.organization < |s.organizations|
    requires MemberFor(s.members, r.organization, actor) == Some(own) && r.membership < |s.members|
    requires MayManage(s.users[actor], s.organizations[r.organization], s.members[own])
    requires UpdateAllowed(s.members[own], s.members[r.membership], r.organization, r)
    requires var removes := RemovesActiveOwner(s.members[r.membership], r.newRole, r.newStatus);
             && (removes ==> CountOtherOwners(s.members, r.organization, r.membership, |s.members|) > 0)
             && s5.transactions[t] == Started(actor, r).(user := Some(s.users[actor]), organizationId := r.organization,
                                                         organization := Some(s.organizations[r.organization]),
                                                             ownId := own, own := Some(s.members[own]),
                                                         memberId := r.membership,
                                                             member := Some(s.members[r.membership]),
                                                         otherOwner := removes, stage := 5)
    requires forall m | 0 <= m < |s.members| ::
        s.members[m].organization < |s.organizations| && s.members[m].user < |s.users|
    ensures SameTables(Run(s5, Proceeds(t, 2)), Written(s, UpdateVerdict(s, actor, r)))
  {
    assert s.members[r.membership].organization == r.organization;
    hide Run, Proceeds, Updated, RemovesActiveOwner, MayManage, UpdateAllowed, AdvanceLeave, AdvanceAccept,
        AdvanceInvite, AdvanceCreate, MemberFor, Abort;
    AbortKeepsTables(s5, t);
    var s6 := Advance(s5, t);
    OneProceed(s5, t, 2);
    if s6.transactions[t].done { EndedProceeds(s6, t, 1); return; }
    UpdateAloneFrom6(s, s6, t, r, actor, own);
  }

  lemma UpdateAloneFrom6(s: State, s6: State, t: Id, r: Request, actor: Id, own: Id)
    requires r.UpdateMember? && SameTables(s, s6) && s.clock == s6.clock && actor < |s.users|
        && r.organization < |s.organizations|
    requires r.membership < |s.members| && own < |s.members| && s.members[r.membership].organization == r.organization
    requires s.members[r.membership].user < |s.users| && t < |s6.transactions|
    requires MayManage(s.users[actor], s.organizations[r.organization], s.members[own])
    requires UpdateAllowed(s.members[own], s.members[r.membership], r.organization, r)
    requires Updated(s.members[r.membership], r.newRole, r.newStatus, s.clock).Changed?
    requires var m := s.members[r.membership];
             s6.transactions[t] == Started(actor, r).(user := Some(s.users[actor]), organizationId := r.organization,
                                                      organization := Some(s.organizations[r.organization]),
                                                          ownId := own, own := Some(s.members[own]),
                                                      memberId := r.membership, member := Some(m),
                                                      otherOwner := RemovesActiveOwner(m, r.newRole, r.newStatus),
                                                      targetId := m.user, target := Some(s.users[m.user]), stage := 6)
    ensures var m := s.members[r.membership];
            SameTables(Run(s6, Proceeds(t, 1)),
                       Written(s, Write(r.membership, m.user, Updated(m, r.newRole, r.newStatus, s.clock).member)))
  {
    hide Run, Proceeds, Updated, RemovesActiveOwner, MayManage, UpdateAllowed, AdvanceLeave, AdvanceAccept,
        AdvanceInvite, AdvanceCreate, MemberFor, Abort;
    OneProceed(s6, t, 1);
    AbortKeepsTables(s6, t);
    EndedProceeds(Advance(s6, t), t, 0);
  }

  lemma AbortKeepsTables(s: State, t: Id)
    requires t < |s.transactions|
    ensures var u := Abort(s, t);
            SameTables(s, u) && u.clock == s.clock && |u.transactions| == |s.transactions| && u.transactions[t].done
  {}

  // -------------------------------------------------------------------- the service

  class DealerService {
    var clock: Time
    var users: seq<User>
    var organizations: seq<Organization>
    var members: seq<Member>

    ghost function Db(): State
      reads this
    {
      State(clock, users, organizations, members, map[], [])
    }

    constructor (clock: Time, users: seq<User>)
      ensures Db() == Initial(clock).(users := users)
    {
      this.clock, this.users := clock, users;
      organizations, members := [], [];
    }

    method CountOtherActiveOwners(organization: Id, excluded: Id) returns (count: nat)
      ensures count == CountOtherOwners(members, organization, excluded, |members|)
    {
      count := 0;
      var i := 0;
      while i < |members|
        invariant 0 <= i <= |members| && count == CountOtherOwners(members, organization, excluded, i)
      {
        if i != excluded && members[i].organization == organization && members[i].role == Authz.Owner
            && members[i].status == Active {
          count := count + 1;
        }
        i := i + 1;
      }
    }

    method Create(actor: Id) returns (organization: Option<Id>)
      modifies `users, `organizations, `members
      ensures organization.Some? <==> actor < |old(users)| && old(users)[actor].active
      ensures organization.None? ==> Db() == old(Db())
      ensures organization.Some? ==>
                && organization.value == |old(organizations)|
                && users == old(users)[actor := Bumped(old(users)[actor])]
                && organizations == old(organizations) + [Organization(true, false, 1)]
                && members == old(members) + [Founder(organization.value, actor, clock)]
    {
      if actor >= |users| || !users[actor].active {
        return None;
      }
      organization := Some(|organizations|);
      organizations := organizations + [Organization(true, false, 1)];
      members := members + [Founder(organization.value, actor, clock)];
      users := users[actor := users[actor].(authorizationVersion := users[actor].authorizationVersion + 1)];
    }

    /** Writes one membership and raises the versions that go with it. */
    method Store(m: Id, user: Id, row: Member)
      requires m < |members| && user < |users| && members[m].organization < |organizations|
      modifies `users, `organizations, `members
      ensures Db() == Written(old(Db()), Write(m, user, row))
    {
      var o := members[m].organization;
      members := members[m := row];
      users := users[user := users[user].(authorizationVersion := users[user].authorizationVersion + 1)];
      var version := organizations[o].authorizationVersion + 1;
      organizations := organizations[o := organizations[o].(authorizationVersion := version)];
    }

    method Accept(actor: Id, r: Request) returns (verdict: Verdict)
      requires r.AcceptInvitation?
      modifies `users, `organizations, `members
      ensures verdict == AcceptVerdict(old(Db()), actor, r) && Db() == Written(old(Db()), verdict)
    {
      if actor >= |users| || r.membership >= |members| {
        return Refused;
      }
      var row := members[r.membership];
      if !users[actor].active || row.user != actor || row.status != Invited || row.inviteExpiresAt.None?
         || row.inviteExpiresAt.value <= clock || row.token != Some(r.token) {
        return Refused;
      }
      if row.organization >= |organizations| || !organizations[row.organization].active {
        return Refused;
      }
      row := row.(status := Active, acceptedAt := Some(clock), token := None);
      row := row.(version := row.version + 1);
      verdict := Write(r.membership, actor, row);
      Store(r.membership, actor, row);
    }

    method Update(actor: Id, r: Request) returns (verdict: Verdict)
      requires r.UpdateMember?
      modifies `users, `organizations, `members
      ensures verdict == UpdateVerdict(old(Db()), actor, r) && Db() == Written(old(Db()), verdict)
    {
      var own := MemberFor(members, r.organization, actor);
      if actor >= |users| || r.organization >= |organizations| || own.None? {
        return Refused;
      }
      if !MayManage(users[actor], organizations[r.organization], members[own.value]) || r.membership >= |members| {
        return Refused;
      }
      var m := members[r.membership];
      if !UpdateAllowed(members[own.value], m, r.organization, r) {
        return Refused;
      }
      if RemovesActiveOwner(m, r.newRole, r.newStatus) {
        var others := CountOtherActiveOwners(r.organization, r.membership);
        if others == 0 {
          return Refused;
        }
      }
      var row := m;
      if r.newRole.Some? {
        row := row.(role := r.newRole.value);
      }
      if r.newStatus.Some? && r.newStatus.value != row.status {
        if !TransitionAllowed(row.status, r.newStatus.value) {
          return Refused;
        }
        match r.newStatus.value {
          case Active => row := row.(suspendedAt := None);
          case Suspended => row := row.(suspendedAt := Some(clock));
          case _ => row := row.(revokedAt := Some(clock));
        }
        row := row.(status := r.newStatus.value);
      }
      if row.role == m.role && row.status == m.status {
        return Nothing;
      }
      row := row.(version := row.version + 1);
      if m.user >= |users| {
        return Refused;
      }
      verdict := Write(r.membership, m.user, row);
      Store(r.membership, m.user, row);
    }

    method Leave(actor: Id, r: Request) returns (verdict: Verdict)
      requires r.LeaveOrganization?
      modifies `users, `organizations, `members
      ensures verdict == LeaveVerdict(old(Db()), actor, r) && Db() == Written(old(Db()), verdict)
    {
      if actor >= |users| || r.membership >= |members| {
        return Refused;
      }
      var row := members[r.membership];
      if !users[actor].active || row.user != actor || row.status != Active || row.version != r.expected
         || row.organization >= |organizations| {
        return Refused;
      }
      if row.role == Authz.Owner {
        var others := CountOtherActiveOwners(row.organization, r.membership);
        if others == 0 {
          return Refused;
        }
      }
      row := row.(status := Left, leftAt := Some(clock), version := row.version + 1);
      verdict := Write(r.membership, actor, row);
      Store(r.membership, actor, row);
    }
  }
}
