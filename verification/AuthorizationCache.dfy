/** Capabilities computed from several queries and cached under the user's authorization version.

    `log[k]` is what the tables hold after the k-th commit, per user. A reader runs its queries
    one by one, each seeing the newest commit at that moment; cache writes, deletions and expiry
    happen at any time in between. */
module AuthorizationCache {
  import opened Core

  datatype Permission =
    | OrganizationSettings | OrganizationSettingsLimited | MembershipManage | InventoryManage
    | RequestMetadataView | InterestManage | ConversationAssign | ConversationWorkAssigned

  datatype Role = Owner | Admin | InventoryManager | SalesAgent

  datatype Account = Account(active: bool, emailVerified: bool, phoneVerified: bool)
  datatype Seller = Seller(active: bool, ready: bool)

  /** One membership joined with its organization. */
  datatype Member = Member(
    organization: Id, membership: Id, role: Role, membershipActive: bool, organizationActive: bool,
        organizationVerified: bool)

  /** Everything a user's capabilities depend on, and the version that must move with it. */
  datatype Inputs = Inputs(version: nat, account: Account, seller: Option<Seller>, members: seq<Member>)

  datatype DealerCapability = DealerCapability(organization: Id, membership: Id, role: Role,
      permissions: set<Permission>)

  datatype Projection = Projection(buyer: bool, personalSeller: bool, privateDraft: bool, dealer: seq<DealerCapability>)

  // -------------------------------------------------------------------- the policy

  function RolePermissions(role: Role): set<Permission> {
    match role
    case Owner => {OrganizationSettings, OrganizationSettingsLimited, MembershipManage, InventoryManage,
                   RequestMetadataView, InterestManage, ConversationAssign, ConversationWorkAssigned}
    case Admin => {OrganizationSettingsLimited, MembershipManage, InventoryManage, RequestMetadataView,
                   InterestManage, ConversationAssign}
    case InventoryManager => {InventoryManage}
    case SalesAgent => {InterestManage, ConversationWorkAssigned}
  }

  function DealerPermissions(a: Account, m: Member): set<Permission> {
    if a.active && m.organizationActive && m.organizationVerified && m.membershipActive then RolePermissions(m.role)
        else {}
  }

  function DealerCapabilities(a: Account, members: seq<Member>): seq<DealerCapability> {
    if members == [] then []
    else
      var m := members[|members| - 1];
      var rest := DealerCapabilities(a, members[..|members| - 1]);
      if DealerPermissions(a, m) != {} then rest + [DealerCapability(m.organization, m.membership, m.role,
          DealerPermissions(a, m))]
      else rest
  }

  predicate Sells(seller: Option<Seller>) { seller.Some? && seller.value.active && seller.value.ready }

  function Project(a: Account, seller: Option<Seller>, members: seq<Member>): Projection {
    Projection(a.active,
               a.active && Sells(seller),
               a.active && a.emailVerified && a.phoneVerified,
               DealerCapabilities(a, members))
  }

  function Recomputed(i: Inputs): Projection { Project(i.account, i.seller, i.members) }

  /** Denied by default: a capability is listed exactly for an active membership in an active,
      verified organization, and never says more than the role allows. */
  lemma {:induction false} DealerCapabilitiesMeaning(a: Account, members: seq<Member>, c: DealerCapability)
    ensures c in DealerCapabilities(a, members) <==>
            exists i :: 0 <= i < |members| && a.active && members[i].membershipActive && members[i].organizationActive
                        && members[i].organizationVerified
                        && c == DealerCapability(members[i].organization, members[i].membership, members[i].role,
                            RolePermissions(members[i].role))
  {
    if members != [] {
      var n := |members| - 1;
      DealerCapabilitiesMeaning(a, members[..n], c);
      assert InventoryManage in RolePermissions(members[n].role) || InterestManage in RolePermissions(members[n].role);
      if i :| 0 <= i < |members| && a.active && members[i].membershipActive && members[i].organizationActive
              && members[i].organizationVerified
              && c == DealerCapability(members[i].organization, members[i].membership, members[i].role,
                  RolePermissions(members[i].role))
      {
        if i < n { assert members[..n][i] == members[i]; }
      }
      if c in DealerCapabilities(a, members[..n]) {
        var i :| 0 <= i < n && a.active && members[..n][i].membershipActive && members[..n][i].organizationActive
                 && members[..n][i].organizationVerified
                 && c == DealerCapability(members[..n][i].organization, members[..n][i].membership,
                     members[..n][i].role,
                                          RolePermissions(members[..n][i].role));
        assert members[i] == members[..n][i];
      }
    }
  }

  /** Which roles carry a permission. */
  function Holders(p: Permission): set<Role> {
    match p
    case OrganizationSettings => {Owner}
    case OrganizationSettingsLimited => {Owner, Admin}
    case MembershipManage => {Owner, Admin}
    case InventoryManage => {Owner, Admin, InventoryManager}
    case RequestMetadataView => {Owner, Admin}
    case InterestManage => {Owner, Admin, SalesAgent}
    case ConversationAssign => {Owner, Admin}
    case ConversationWorkAssigned => {Owner, SalesAgent}
  }

  /** The projection tells the user that the permission is held in the organization. */
  ghost predicate Grants(projection: Projection, organization: Id, p: Permission) {
    exists k :: 0 <= k < |projection.dealer| && projection.dealer[k].organization == organization
                && p in projection.dealer[k].permissions
  }

  ghost predicate Entitled(m: Member, organization: Id, p: Permission) {
    && m.organization == organization && m.membershipActive && m.organizationActive && m.organizationVerified
    && m.role in Holders(p)
  }

  /** Every capability, by what it takes: an active account to buy; an active and ready seller profile
      to sell; both addresses confirmed for a private draft; and for a permission in an organization,
      an active membership of an active, verified one, in a role that carries it. */
  lemma CapabilitiesExactly(i: Inputs, organization: Id, p: Permission)
    ensures var r := Recomputed(i);
            && (r.buyer <==> i.account.active)
            && (r.personalSeller <==>
                  i.account.active && i.seller.Some? && i.seller.value.active && i.seller.value.ready)
            && (r.privateDraft <==> i.account.active && i.account.emailVerified && i.account.phoneVerified)
            && (Grants(r, organization, p) <==>
                  i.account.active && exists k :: 0 <= k < |i.members| && Entitled(i.members[k], organization, p))
  {
    var r := Recomputed(i);
    hide RolePermissions, Entitled, DealerCapabilities, Holders, DealerPermissions;
    if Grants(r, organization, p) {
      var k :| 0 <= k < |r.dealer| && r.dealer[k].organization == organization && p in r.dealer[k].permissions;
      DealerCapabilitiesMeaning(i.account, i.members, r.dealer[k]);
      var m :| 0 <= m < |i.members| && i.account.active && i.members[m].membershipActive
               && i.members[m].organizationActive && i.members[m].organizationVerified
               && r.dealer[k] == DealerCapability(i.members[m].organization, i.members[m].membership,
                                                  i.members[m].role, RolePermissions(i.members[m].role));
      GrantedByRole(i.account, i.members[m], p);
    }
    if k :| i.account.active && 0 <= k < |i.members| && Entitled(i.members[k], organization, p) {
      var m := i.members[k];
      GrantedByRole(i.account, m, p);
      var c := DealerCapability(m.organization, m.membership, m.role, RolePermissions(m.role));
      DealerCapabilitiesMeaning(i.account, i.members, c);
      assert c in r.dealer;
    }
  }

  lemma GrantedByRole(a: Account, m: Member, p: Permission)
    requires a.active
    ensures Entitled(m, m.organization, p) <==>
              m.membershipActive && m.organizationActive && m.organizationVerified && p in RolePermissions(m.role)
    ensures forall organization :: Entitled(m, organization, p) ==> organization == m.organization
  {}

  // -------------------------------------------------------------------- commits

  /** The writers' side of the bargain: versions never go back, and whatever a user's
      capabilities depend on changes only together with the user's version. */
  ghost predicate Bumped(a: Inputs, b: Inputs) {
    a.version <= b.version && (a.version == b.version ==> a == b)
  }

  ghost predicate Bumps(before: seq<Inputs>, after: seq<Inputs>) {
    |before| <= |after| && forall u | 0 <= u < |before| :: Bumped(before[u], after[u])
  }

  // -------------------------------------------------------------------- readers and cache

  /** A cached value. `filledAt` names the commits its three queries saw; nothing reads it. */
  datatype Entry = Entry(version: nat, projection: Projection, filledAt: (nat, nat, nat))

  datatype Reader =
    | Idle(user: Id)
    | GotUser(user: Id, inputs: Inputs, userAt: nat)
    | Missed(user: Id, inputs: Inputs, userAt: nat)
    | GotSeller(user: Id, inputs: Inputs, userAt: nat, seller: Option<Seller>, sellerAt: nat)
    | Computed(user: Id, entry: Entry)
    | Answered(user: Id, version: nat, userAt: nat, gotAt: nat, entry: Entry, hit: bool)
    | Denied(user: Id)

  datatype State = State(log: seq<seq<Inputs>>, cache: map<Id, Entry>, readers: seq<Reader>)

  datatype Action =
    | Commit(tables: seq<Inputs>)
    | Arrive(user: Id)
    | Advance(reader: Id, lost: bool)
    | Forget(user: Id)

  function Now(s: State): nat
    requires |s.log| > 0
  {
    |s.log| - 1
  }

  /** One query or one cache operation of one reader. `lost`: a cache read or write that fails. */
  function Moved(s: State, r: Reader, lost: bool): (Reader, map<Id, Entry>)
    requires |s.log| > 0
  {
    var now := Now(s);
    match r
    case Idle(u) =>
      (if u >= |s.log[now]| || !s.log[now][u].account.active then Denied(u)
          else GotUser(u, s.log[now][u], now), s.cache)
    case GotUser(u, inputs, at) =>
      (if !lost && u in s.cache && s.cache[u].version == inputs.version
       then Answered(u, inputs.version, at, now, s.cache[u], true) else Missed(u, inputs, at), s.cache)
    case Missed(u, inputs, at) =>
      (if u >= |s.log[now]| then Denied(u) else GotSeller(u, inputs, at, s.log[now][u].seller, now), s.cache)
    case GotSeller(u, inputs, at, seller, sellerAt) =>
      (if u >= |s.log[now]| then Denied(u)
       else Computed(u, Entry(inputs.version, Project(inputs.account, seller, s.log[now][u].members),
           (at, sellerAt, now))), s.cache)
    case Computed(u, e) =>
      (Answered(u, e.version, e.filledAt.0, now, e, false), if lost then s.cache else s.cache[u := e])
    case _ => (r, s.cache)
  }

  function Step(s: State, a: Action): State
    requires |s.log| > 0
  {
    match a
    case Commit(tables) => s.(log := s.log + [tables])
    case Arrive(u) => s.(readers := s.readers + [Idle(u)])
    case Advance(r, lost) =>
      if r >= |s.readers| then s
      else
        var (reader, cache) := Moved(s, s.readers[r], lost);
        s.(readers := s.readers[r := reader], cache := cache)
    case Forget(u) => s.(cache := s.cache - {u})
  }

  function Run(s: State, actions: seq<Action>): (t: State)
    requires |s.log| > 0
    ensures |t.log| > 0
    decreases |actions|
  {
    if actions == [] then s else Run(Step(s, actions[0]), actions[1..])
  }

  /** Every commit of the run keeps the writers' side of the bargain. */
  ghost predicate WellBehaved(s: State, actions: seq<Action>)
    requires |s.log| > 0
    decreases |actions|
  {
    actions == [] ||
    ((actions[0].Commit? ==> Bumps(s.log[Now(s)], actions[0].tables)) && WellBehaved(Step(s, actions[0]), actions[1..]))
  }

  function Initial(tables: seq<Inputs>): State {
    State([tables], map[], [])
  }

  // -------------------------------------------------------------------- invariant

  ghost predicate History(log: seq<seq<Inputs>>) {
    && |log| > 0
    && forall i, j | 0 <= i <= j < |log| :: Bumps(log[i], log[j])
  }

  ghost predicate Known(log: seq<seq<Inputs>>, at: nat, u: Id) {
    at < |log| && u < |log[at]|
  }

  ghost predicate EntryValid(log: seq<seq<Inputs>>, u: Id, e: Entry, upTo: nat) {
    && e.filledAt.0 <= e.filledAt.1 <= e.filledAt.2 <= upTo
    && Known(log, e.filledAt.0, u) && Known(log, e.filledAt.1, u) && Known(log, e.filledAt.2, u)
    && e.version == log[e.filledAt.0][u].version
    && e.projection == Project(log[e.filledAt.0][u].account, log[e.filledAt.1][u].seller, log[e.filledAt.2][u].members)
  }

  ghost predicate ReaderValid(log: seq<seq<Inputs>>, r: Reader)
    requires |log| > 0
  {
    match r
    case Idle(u) => true
    case GotUser(u, inputs, at) => Known(log, at, u) && inputs == log[at][u]
    case Missed(u, inputs, at) => Known(log, at, u) && inputs == log[at][u]
    case GotSeller(u, inputs, at, seller, sellerAt) =>
      Known(log, at, u) && inputs == log[at][u] && at <= sellerAt && Known(log, sellerAt, u)
          && seller == log[sellerAt][u].seller
    case Computed(u, e) => EntryValid(log, u, e, |log| - 1)
    case Answered(u, version, at, gotAt, e, hit) =>
      at <= gotAt < |log| && Known(log, at, u) && version == log[at][u].version && e.version == version
          && EntryValid(log, u, e, gotAt)
    case Denied(u) => true
  }

  ghost predicate Inv(s: State) {
    && History(s.log)
    && (forall u | u in s.cache :: EntryValid(s.log, u, s.cache[u], |s.log| - 1))
    && (forall r | 0 <= r < |s.readers| :: ReaderValid(s.log, s.readers[r]))
  }

  lemma BumpsTransitive(a: seq<Inputs>, b: seq<Inputs>, c: seq<Inputs>)
    requires Bumps(a, b) && Bumps(b, c)
    ensures Bumps(a, c)
  {
    forall u | 0 <= u < |a| ensures Bumped(a[u], c[u]) { assert Bumped(a[u], b[u]) && Bumped(b[u], c[u]); }
  }

  lemma CommitKeepsInv(s: State, tables: seq<Inputs>)
    requires Inv(s) && Bumps(s.log[Now(s)], tables)
    ensures Inv(Step(s, Commit(tables)))
  {
    var log := s.log + [tables];
    assert History(log) by {
      forall i, j | 0 <= i <= j < |log| ensures Bumps(log[i], log[j]) {
        if j < |s.log| {
          assert Bumps(s.log[i], s.log[j]);
        } else if i < |s.log| {
          assert Bumps(s.log[i], s.log[Now(s)]);
          BumpsTransitive(s.log[i], s.log[Now(s)], tables);
        }
      }
    }
    hide Bumps;
    forall u | u in s.cache ensures EntryValid(log, u, s.cache[u], |log| - 1) {
      assert EntryValid(s.log, u, s.cache[u], |s.log| - 1);
    }
    forall r | 0 <= r < |s.readers| ensures ReaderValid(log, s.readers[r]) { LongerLog(s.log, tables, s.readers[r]); }
  }

  lemma LongerLog(log: seq<seq<Inputs>>, tables: seq<Inputs>, r: Reader)
    requires |log| > 0 && ReaderValid(log, r)
    ensures ReaderValid(log + [tables], r)
  {
    hide Project;
  }

  lemma MovedReaderValid(s: State, r: Reader, lost: bool)
    requires |s.log| > 0 && ReaderValid(s.log, r)
    requires forall u | u in s.cache :: EntryValid(s.log, u, s.cache[u], |s.log| - 1)
    ensures ReaderValid(s.log, Moved(s, r, lost).0)
  {
    hide Project;
  }

  lemma MovedCacheValid(s: State, r: Reader, lost: bool)
    requires |s.log| > 0 && ReaderValid(s.log, r)
    requires forall u | u in s.cache :: EntryValid(s.log, u, s.cache[u], |s.log| - 1)
    ensures forall u | u in Moved(s, r, lost).1 :: EntryValid(s.log, u, Moved(s, r, lost).1[u], |s.log| - 1)
  {
    hide EntryValid, Project;
  }

  lemma AdvanceKeepsInv(s: State, r: Id, lost: bool)
    requires Inv(s) && r < |s.readers|
    ensures Inv(Step(s, Advance(r, lost)))
  {
    MovedReaderValid(s, s.readers[r], lost);
    MovedCacheValid(s, s.readers[r], lost);
    hide Project, ReaderValid, EntryValid, History, Moved;
  }

  lemma StepKeepsInv(s: State, a: Action)
    requires Inv(s) && (a.Commit? ==> Bumps(s.log[Now(s)], a.tables))
    ensures Inv(Step(s, a))
  {
    match a
    case Commit(tables) => hide Inv, Bumps; CommitKeepsInv(s, tables);
    case Advance(r, lost) =>
      hide Inv, Moved;
      if r < |s.readers| { AdvanceKeepsInv(s, r, lost); }
    case _ => hide History, EntryValid;
  }

  lemma {:induction false} RunKeepsInv(s: State, actions: seq<Action>)
    requires Inv(s) && WellBehaved(s, actions)
    ensures Inv(Run(s, actions))
    decreases |actions|
  {
    if actions != [] {
      StepKeepsInv(s, actions[0]);
      hide Inv, Step, Bumps;
      RunKeepsInv(Step(s, actions[0]), actions[1..]);
    }
  }

  lemma InitialInv(tables: seq<Inputs>)
    ensures Inv(Initial(tables))
  {}

  // -------------------------------------------------------------------- what a hit may be relied on for

  /** While a user's version stays, so does everything else about the user. */
  lemma SameVersionSameInputs(log: seq<seq<Inputs>>, u: Id, i: nat, j: nat, k: nat)
    requires History(log) && i <= j <= k < |log| && u < |log[i]| && u < |log[k]|
        && log[i][u].version == log[k][u].version
    ensures u < |log[j]| && log[i][u] == log[j][u] == log[k][u]
  {
    assert Bumps(log[i], log[j]) && Bumps(log[j], log[k]);
    assert Bumped(log[i][u], log[j][u]) && Bumped(log[j][u], log[k][u]);
  }

  /** The commits between the three queries of a fill changed nothing that shows: the seller query
      and the membership query saw what they would have seen together with the user query. */
  ghost predicate FillConsistent(log: seq<seq<Inputs>>, u: Id, f: (nat, nat, nat))
    requires Known(log, f.0, u) && Known(log, f.1, u) && Known(log, f.2, u)
  {
    && (log[f.0][u].account.active ==> Sells(log[f.1][u].seller) == Sells(log[f.0][u].seller))
    && DealerCapabilities(log[f.0][u].account, log[f.2][u].members)
       == DealerCapabilities(log[f.0][u].account, log[f.0][u].members)
  }

  /** The entry behind an answer and what its queries saw. */
  lemma AnswerKnown(s: State, r: Id)
    requires Inv(s) && r < |s.readers| && s.readers[r].Answered?
    ensures var a := s.readers[r];
            && a.userAt <= a.gotAt < |s.log| && Known(s.log, a.userAt, a.user)
            && a.version == s.log[a.userAt][a.user].version == a.entry.version
            && EntryValid(s.log, a.user, a.entry, a.gotAt) && History(s.log)
  {
    assert ReaderValid(s.log, s.readers[r]);
  }

  /** A hit equals recomputation at the moment its version was read exactly when the fill behind it
      was consistent: a condition on the fill alone, settled before any hit. A fill during which
      the user's version did not move always is. */
  lemma HitExactly(s: State, r: Id)
    requires Inv(s) && r < |s.readers| && s.readers[r].Answered? && s.readers[r].hit
    ensures var a := s.readers[r];
            var f := a.entry.filledAt;
            && Known(s.log, a.userAt, a.user)
            && Known(s.log, f.0, a.user) && Known(s.log, f.1, a.user) && Known(s.log, f.2, a.user)
            && (a.entry.projection == Recomputed(s.log[a.userAt][a.user]) <==> FillConsistent(s.log, a.user, f))
            && (s.log[f.0][a.user].version == s.log[f.2][a.user].version ==> FillConsistent(s.log, a.user, f))
  {
    var a := s.readers[r];
    var f := a.entry.filledAt;
    AnswerKnown(s, r);
    hide Inv;
    SameVersionIsSame(s.log, a.user, a.userAt, f.0);
    if s.log[f.0][a.user].version == s.log[f.2][a.user].version {
      SameVersionSameInputs(s.log, a.user, f.0, f.1, f.2);
    }
    hide History, DealerCapabilities;
  }

  lemma SameVersionIsSame(log: seq<seq<Inputs>>, u: Id, i: nat, j: nat)
    requires History(log) && Known(log, i, u) && Known(log, j, u) && log[i][u].version == log[j][u].version
    ensures log[i][u] == log[j][u]
  {
    if i <= j { SameVersionSameInputs(log, u, i, i, j); } else { SameVersionSameInputs(log, u, j, j, i); }
  }

  /** If the version the reader asked for is still the user's version when the cache answers, the
      hit is also what the tables give at that later moment. */
  lemma HitIsExactWhileVersionHolds(s: State, r: Id)
    requires Inv(s) && r < |s.readers| && s.readers[r].Answered? && s.readers[r].hit
    requires var a := s.readers[r]; Known(s.log, a.gotAt, a.user) && s.log[a.gotAt][a.user].version == a.version
    ensures var a := s.readers[r];
            && Known(s.log, a.userAt, a.user)
            && a.entry.projection == Recomputed(s.log[a.gotAt][a.user]) == Recomputed(s.log[a.userAt][a.user])
  {
    var a := s.readers[r];
    var f := a.entry.filledAt;
    AnswerKnown(s, r);
    hide Project, Inv;
    SameVersionSameInputs(s.log, a.user, f.0, f.1, a.gotAt);
    SameVersionSameInputs(s.log, a.user, f.0, f.2, a.gotAt);
    SameVersionSameInputs(s.log, a.user, a.userAt, a.userAt, a.gotAt);
  }

  lemma InvHistory(s: State)
    requires Inv(s)
    ensures History(s.log)
  {}

  ghost predicate SeenSince(log: seq<seq<Inputs>>, u: Id, since: nat, upTo: nat, at: nat) {
    since <= at <= upTo && at < |log| && u < |log[at]|
  }

  /** An entry read at `at` under a version that is at least the one read at `since` shows
      something no older than `since`. */
  lemma NoOlder(log: seq<seq<Inputs>>, u: Id, since: nat, at: nat, upTo: nat) returns (k: nat)
    requires History(log) && Known(log, since, u) && Known(log, at, u) && since <= upTo && at <= upTo
    requires log[since][u].version <= log[at][u].version
    ensures SeenSince(log, u, since, upTo, k) && log[k][u] == log[at][u]
  {
    if since <= at {
      k := at;
    } else {
      k := since;
      assert Bumps(log[at], log[since]);
      assert Bumped(log[at][u], log[since][u]);
    }
  }

  /** Without any condition: no part of a hit is older than the moment the version was read.
      Each of its three inputs is what the tables held at that moment or after. */
  lemma HitIsNeverStale(s: State, r: Id) returns (user: nat, seller: nat, members: nat)
    requires Inv(s) && r < |s.readers| && s.readers[r].Answered? && s.readers[r].hit
    ensures var a := s.readers[r];
            && SeenSince(s.log, a.user, a.userAt, a.gotAt, user)
            && SeenSince(s.log, a.user, a.userAt, a.gotAt, seller)
            && SeenSince(s.log, a.user, a.userAt, a.gotAt, members)
            && a.entry.projection == Project(s.log[user][a.user].account, s.log[seller][a.user].seller,
                s.log[members][a.user].members)
  {
    var a := s.readers[r];
    var e := a.entry;
    assert ReaderValid(s.log, a);
    InvHistory(s);
    hide Project, Inv;
    assert Bumps(s.log[e.filledAt.0], s.log[e.filledAt.1]) && Bumps(s.log[e.filledAt.0], s.log[e.filledAt.2]);
    assert Bumped(s.log[e.filledAt.0][a.user], s.log[e.filledAt.1][a.user]);
    assert Bumped(s.log[e.filledAt.0][a.user], s.log[e.filledAt.2][a.user]);
    hide History;
    user := NoOlder(s.log, a.user, a.userAt, e.filledAt.0, a.gotAt) by { InvHistory(s); }
    seller := NoOlder(s.log, a.user, a.userAt, e.filledAt.1, a.gotAt) by { InvHistory(s); }
    members := NoOlder(s.log, a.user, a.userAt, e.filledAt.2, a.gotAt) by { InvHistory(s); }
  }

  /** Five undisturbed moves of a reader. */
  function Alone(r: Id): seq<Action> {
    [Advance(r, false), Advance(r, false), Advance(r, false), Advance(r, false), Advance(r, false)]
  }

  lemma FiveMoves(r: Id, s: State, s1: State, s2: State, s3: State, s4: State, s5: State)
    requires |s.log| > 0 && |s1.log| > 0 && |s2.log| > 0 && |s3.log| > 0 && |s4.log| > 0
    requires var a := Advance(r, false);
             s1 == Step(s, a) && s2 == Step(s1, a) && s3 == Step(s2, a) && s4 == Step(s3, a) && s5 == Step(s4, a)
    requires |s5.log| > 0
    ensures Run(s, Alone(r)) == s5
  {
    hide Step;
    var a := Advance(r, false);
    assert [a, a, a, a, a][1..] == [a, a, a, a] && [a, a, a, a][1..] == [a, a, a] && [a, a, a][1..] == [a, a];
    assert [a, a][1..] == [a] && [a][1..] == [];
    assert Run(s5, []) == s5;
    assert Run(s4, [a]) == s5;
    assert Run(s3, [a, a]) == s5;
    assert Run(s2, [a, a, a]) == s5;
    assert Run(s1, [a, a, a, a]) == s5;
  }

  /** A reader that has its answer takes no more moves. */
  lemma AnsweredStays(s: State, r: Id)
    requires |s.log| > 0 && r < |s.readers| && (s.readers[r].Answered? || s.readers[r].Denied?)
    ensures Step(s, Advance(r, false)) == s
  {
    assert s.readers[r := s.readers[r]] == s.readers;
  }

  /** The three moves that compute an entry, and the one that stores it. */
  lemma FillAlone(s: State, r: Id, u: Id, s1: State, s2: State, s3: State)
    requires |s.log| > 0 && r < |s.readers| && u < |s.log[Now(s)]|
    requires s.readers[r] == Missed(u, s.log[Now(s)][u], Now(s))
    requires s1 == Step(s, Advance(r, false)) && |s1.log| > 0
    requires s2 == Step(s1, Advance(r, false)) && |s2.log| > 0 && s3 == Step(s2, Advance(r, false))
    ensures var i := s.log[Now(s)][u];
            && s3.log == s.log && |s3.readers| == |s.readers|
            && s3.readers[r].Answered? && s3.readers[r].version == i.version && !s3.readers[r].hit
            && s3.readers[r].entry.projection == Recomputed(i) && s3.readers[r].entry.version == i.version
            && s3.cache == s.cache[u := s3.readers[r].entry]
  {
    hide Project;
  }

  /** Left alone, a reader is refused exactly when the account is missing or inactive; it takes what is
      cached under the user's version if there is such an entry; and otherwise it answers what the
      tables say now, and caches it under that version. */
  lemma AloneAnswersNow(s: State, r: Id, u: Id)
    requires |s.log| > 0 && r < |s.readers| && s.readers[r] == Idle(u)
    ensures var tables := s.log[Now(s)];
            var t := Run(s, Alone(r));
            && r < |t.readers| && t.log == s.log
            && (if u >= |tables| || !tables[u].account.active then t.readers[r] == Denied(u) && t.cache == s.cache
                else
                  && t.readers[r].Answered? && t.readers[r].version == tables[u].version
                  && (if u in s.cache && s.cache[u].version == tables[u].version then
                        t.readers[r].hit && t.readers[r].entry == s.cache[u] && t.cache == s.cache
                      else
                        && !t.readers[r].hit && t.readers[r].entry.projection == Recomputed(tables[u])
                        && t.cache == s.cache[u := t.readers[r].entry] && t.cache[u].version == tables[u].version))
  {
    var a := Advance(r, false);
    var s1 := Step(s, a);
    var s2 := Step(s1, a);
    var s3 := Step(s2, a);
    var s4 := Step(s3, a);
    var s5 := Step(s4, a);
    FiveMoves(r, s, s1, s2, s3, s4, s5);
    hide Run, Recomputed, Project;
    var tables := s.log[Now(s)];
    if u >= |tables| || !tables[u].account.active {
      hide Step;
      AnsweredStays(s1, r);
    } else if u in s.cache && s.cache[u].version == tables[u].version {
      assert s2.readers[r].Answered? && s2.readers[r].hit;
      hide Step;
      AnsweredStays(s2, r);
    } else {
      assert s2.readers[r] == Missed(u, tables[u], Now(s)) && s2.cache == s.cache && s2.log == s.log;
      hide Step;
      FillAlone(s2, r, u, s3, s4, s5);
    }
  }

  /** What is dropped from the cache is recomputed by the next lone reader, and nobody else notices. */
  lemma ForgottenIsRecomputed(s: State, r: Id, u: Id)
    requires |s.log| > 0 && r < |s.readers| && s.readers[r] == Idle(u)
    requires u < |s.log[Now(s)]| && s.log[Now(s)][u].account.active
    ensures var dropped := Step(s, Forget(u));
            var t := Run(dropped, Alone(r));
            && r < |t.readers| && t.readers[r].Answered? && !t.readers[r].hit
            && t.readers[r].entry.projection == Recomputed(s.log[Now(s)][u])
            && forall v: Id | v != u :: (v in t.cache <==> v in s.cache) && (v in s.cache ==> t.cache[v] == s.cache[v])
  {
    AloneAnswersNow(Step(s, Forget(u)), r, u);
    hide Run, Recomputed, Alone;
  }

  // -------------------------------------------------------------------- and what it may not

  lemma {:induction false} OneMore(s: State, actions: seq<Action>, a: Action)
    requires |s.log| > 0 && WellBehaved(s, actions)
    requires a.Commit? ==> Bumps(Run(s, actions).log[Now(Run(s, actions))], a.tables)
    ensures Run(s, actions + [a]) == Step(Run(s, actions), a) && WellBehaved(s, actions + [a])
    decreases |actions|
  {
    if actions == [] {
      assert ([] + [a])[1..] == [];
      assert Run(Step(s, a), []) == Step(s, a);
    } else {
      assert (actions + [a])[0] == actions[0] && (actions + [a])[1..] == actions[1..] + [a];
      OneMore(Step(s, actions[0]), actions[1..], a);
    }
  }

  /** The schedule: one reader fills the cache around a commit, the other read its version before. */
  function Schedule(after: Inputs): seq<Action> {
    [Arrive(0), Arrive(0), Advance(0, false), Advance(1, false), Advance(0, false), Commit([after]),
     Advance(0, false), Advance(0, false), Advance(0, false), Advance(1, false)]
  }

  /** The state after `n` steps of the schedule, written out. */
  function Stage(before: Inputs, after: Inputs, n: nat): State {
    var got := GotUser(0, before, 0);
    var mixed := Entry(before.version, Project(before.account, after.seller, after.members), (0, 1, 1));
    var answered := Answered(0, before.version, 0, 1, mixed, false);
    match n
    case 0 => State([[before]], map[], [])
    case 1 => State([[before]], map[], [Idle(0)])
    case 2 => State([[before]], map[], [Idle(0), Idle(0)])
    case 3 => State([[before]], map[], [got, Idle(0)])
    case 4 => State([[before]], map[], [got, got])
    case 5 => State([[before]], map[], [Missed(0, before, 0), got])
    case 6 => State([[before], [after]], map[], [Missed(0, before, 0), got])
    case 7 => State([[before], [after]], map[], [GotSeller(0, before, 0, after.seller, 1), got])
    case 8 => State([[before], [after]], map[], [Computed(0, mixed), got])
    case 9 => State([[before], [after]], map[0 := mixed], [answered, got])
    case _ => State([[before], [after]], map[0 := mixed], [answered, answered.(hit := true)])
  }

  lemma StageStep(before: Inputs, after: Inputs, n: nat)
    requires 1 <= n <= 10 && before.account.active && before.version < after.version
    ensures Step(Stage(before, after, n - 1), Schedule(after)[n - 1]) == Stage(before, after, n)
    ensures Schedule(after)[n - 1].Commit? ==>
              Bumps(Stage(before, after, n - 1).log[Now(Stage(before, after, n - 1))], Schedule(after)[n - 1].tables)
  {
    hide Project;
  }

  lemma {:induction false} Replay(before: Inputs, after: Inputs, n: nat)
    requires n <= 10 && before.account.active && before.version < after.version
    ensures var start := Initial([before]);
            WellBehaved(start, Schedule(after)[..n]) && Run(start, Schedule(after)[..n]) == Stage(before, after, n)
  {
    var start := Initial([before]);
    if n == 0 {
      assert Schedule(after)[..0] == [];
    } else {
      Replay(before, after, n - 1);
      assert Schedule(after)[..n] == Schedule(after)[..n - 1] + [Schedule(after)[n - 1]];
      StageStep(before, after, n);
      OneMore(start, Schedule(after)[..n - 1], Schedule(after)[n - 1]);
    }
  }

  /** A commit that bumps the version in the middle of a fill: the second reader gets a hit under
      the version it read, and the hit equals recomputation at that version exactly when the
      commit changed nothing that shows. */
  lemma BumpDuringFill(before: Inputs, after: Inputs)
    requires before.account.active && before.version < after.version
    ensures var start := Initial([before]);
            var s := Run(start, Schedule(after));
            && WellBehaved(start, Schedule(after)) && Inv(s)
            && |s.readers| == 2 && s.readers[1].Answered? && s.readers[1].hit
            && Known(s.log, s.readers[1].userAt, 0) && s.log[s.readers[1].userAt][0] == before
            && s.readers[1].version == before.version
            && (s.readers[1].entry.projection == Recomputed(before) <==>
                Project(before.account, after.seller, after.members) == Recomputed(before))
  {
    var start := Initial([before]);
    Replay(before, after, 10);
    assert Schedule(after)[..10] == Schedule(after);
    InitialInv([before]);
    RunKeepsInv(start, Schedule(after));
    hide Schedule, Inv, Run, WellBehaved, Recomputed, Project;
    var s := Stage(before, after, 10);
    assert |s.readers| == 2 && s.readers[1].userAt == 0;
  }

  function Active(): Account { Account(true, true, true) }

  function Appointment(): Member { Member(0, 0, InventoryManager, true, true, true) }

  /** "A hit equals recomputation at the moment the version was read" is false in general: the
      version read saw no membership, the hit shows the capabilities of one that came later. */
  lemma HitCanRunAhead()
    ensures var before := Inputs(1, Active(), None, []);
            var after := Inputs(2, Active(), None, [Appointment()]);
            var s := Run(Initial([before]), Schedule(after));
            && WellBehaved(Initial([before]), Schedule(after))
            && |s.readers| == 2 && s.readers[1].Answered? && s.readers[1].hit
            && s.readers[1].version == before.version
            && s.readers[1].entry.projection != Recomputed(before)
  {
    var before := Inputs(1, Active(), None, []);
    var after := Inputs(2, Active(), None, [Appointment()]);
    BumpDuringFill(before, after);
    hide Run, Schedule, WellBehaved, Inv;
    assert |DealerCapabilities(Active(), [Appointment()])| == 1 by {
      assert InventoryManage in DealerPermissions(Active(), Appointment());
      assert [Appointment()][..0] == [];
      assert DealerCapabilities(Active(), []) == [];
    }
  }

  // -------------------------------------------------------------------- the service and its cache

  class RedisAuthorizationCache {
    var entries: map<Id, Entry>

    constructor ()
      ensures entries == map[]
    {
      entries := map[];
    }

    /** `reachable`: whether Redis answers; a failing read is a miss. */
    method Get(user: Id, expectedVersion: nat, reachable: bool) returns (found: Option<Projection>)
      ensures found == if reachable && user in entries && entries[user].version == expectedVersion
                       then Some(entries[user].projection) else None
    {
      if !reachable || user !in entries {
        return None;
      }
      var value := entries[user];
      found := if value.version != expectedVersion then None else Some(value.projection);
    }

    method Set(user: Id, entry: Entry, reachable: bool)
      modifies this
      ensures entries == if reachable then old(entries)[user := entry] else old(entries)
    {
      if reachable {
        entries := entries[user := entry];
      }
    }

    /** DEL of all the keys in one command; a failing one removes nothing. */
    method Invalidate(users: seq<Id>, reachable: bool)
      modifies this
      ensures entries == if reachable then old(entries) - (set u | u in users) else old(entries)
    {
      var unique := Deduplicated(users);
      DeduplicatedMeaning(users, 0);
      if !reachable {
        return;
      }
      var i := 0;
      while i < |unique|
        invariant 0 <= i <= |unique|
        invariant entries == old(entries) - (set u | u in unique[..i])
      {
        assert unique[..i + 1] == unique[..i] + [unique[i]];
        entries := entries - {unique[i]};
        i := i + 1;
      }
      assert unique[..i] == unique;
    }
  }

  class CapabilityService {
    const cache: RedisAuthorizationCache

    constructor (cache: RedisAuthorizationCache)
      ensures this.cache == cache
    {
      this.cache := cache;
    }

    method ListDealerCapabilities(a: Account, members: seq<Member>) returns (dealer: seq<DealerCapability>)
      ensures dealer == DealerCapabilities(a, members)
    {
      dealer := [];
      var i := 0;
      while i < |members|
        invariant 0 <= i <= |members|
        invariant dealer == DealerCapabilities(a, members[..i])
      {
        assert members[..i + 1][..i] == members[..i];
        var m := members[i];
        var permissions := DealerPermissions(a, m);
        if permissions != {} {
          dealer := dealer + [DealerCapability(m.organization, m.membership, m.role, permissions)];
        }
        i := i + 1;
      }
      assert members[..i] == members;
    }

    /** The three queries see the tables at three moments. */
    method GetCapabilities(user: Id, first: Inputs, second: Inputs, third: Inputs, filledAt: (nat, nat, nat),
        read: bool, write: bool)
      returns (answer: Option<Projection>)
      modifies cache
      ensures !first.account.active ==> answer.None? && cache.entries == old(cache.entries)
      ensures first.account.active ==>
                var hit := read && user in old(cache.entries) && old(cache.entries)[user].version == first.version;
                var computed := Project(first.account, second.seller, third.members);
                && answer == Some(if hit then old(cache.entries)[user].projection else computed)
                && cache.entries == (if hit || !write then old(cache.entries)
                                     else old(cache.entries)[user := Entry(first.version, computed, filledAt)])
    {
      if !first.account.active {
        return None;
      }
      var cached := cache.Get(user, first.version, read);
      if cached.Some? {
        return cached;
      }
      var dealer := ListDealerCapabilities(first.account, third.members);
      var response := Projection(first.account.active,
                                 first.account.active && second.seller.Some? && second.seller.value.active
                                     && second.seller.value.ready,
                                 first.account.active && first.account.emailVerified && first.account.phoneVerified,
                                 dealer);
      cache.Set(user, Entry(first.version, response, filledAt), write);
      answer := Some(response);
    }
  }
}
