/** The pure policy that decides which ownership proof, if any, a listing may rely on. */
module OwnershipReuse {
  import opened Core

  datatype VerificationStatus =
    SessionPending | Pending | ManualReview | Verified | Failed | Expired | Revoked

  datatype Basis =
    RegisteredOwner | CompanyVehicle | FinancedOrLeased | Inherited | AuthorizedRepresentative

  datatype VehicleStatus = Active | Disputed | Transferred | Stolen | WrittenOff | FraudReview

  datatype Code =
    | DealerUnsupported
    | VerificationPending
    | VerificationRevoked
    | ReuseNotAvailable
    | ReuseConflict
    | VerificationExpired
    | VerificationRequired

  datatype Context = Context(
    now: Time,
    owner: Id,
    vehicle: Id,
    identityAttempt: Id,
    identityVersion: nat,
    vehicleIdentityVersion: nat,
    vehicleHashVersion: nat,
    vehicleStatus: VehicleStatus,
    basis: Basis,
    identityVerified: bool,
    personalListing: bool)

  datatype Evidence = Evidence(
    attempt: Id,
    listing: Id,
    number: nat,
    owner: Id,
    vehicle: Id,
    identityAttempt: Id,
    identityVersion: nat,
    vehicleIdentityVersion: nat,
    hashVersion: nat,
    basis: Basis,
    fingerprint: string,
    resultVersion: Option<int>,
    status: VerificationStatus,
    verifiedAt: Option<Time>,
    expiresAt: Option<Time>,
    revokedAt: Option<Time>,
    supersededAt: Option<Time>)

  datatype Decision = Decision(
    eligible: bool,
    reused: bool,
    code: Option<Code>,
    effectiveExpiresAt: Option<Time>,
    policyVersion: Option<int>)

  datatype Selection = Selection(evidence: Option<Evidence>, decision: Decision)

  predicate Unfinished(status: VerificationStatus) {
    status in {SessionPending, Pending, ManualReview}
  }

  predicate FingerprintValid(value: string) {
    |value| == 64 && forall i | 0 <= i < |value| :: value[i] in "0123456789abcdef"
  }

  predicate Descending(s: seq<Evidence>) {
    forall i, j | 0 <= i < j < |s| :: s[i].number >= s[j].number
  }

  /** Python's `sorted(key=number, reverse=True)`: descending, equal keys in input order. */
  function Insert(e: Evidence, sorted: seq<Evidence>): seq<Evidence> {
    if sorted == [] || sorted[0].number <= e.number then [e] + sorted
    else [sorted[0]] + Insert(e, sorted[1..])
  }

  function SortDescending(s: seq<Evidence>): seq<Evidence> {
    if s == [] then [] else Insert(s[0], SortDescending(s[1..]))
  }

  /** The first verified row of the given listing (`sameListing`), or of any other one. */
  function FirstVerified(s: seq<Evidence>, listing: Id, sameListing: bool): (r: Option<Evidence>)
    ensures r.Some? ==> exists k :: 0 <= k < |s| && s[k] == r.value && Candidate(s[k], listing, sameListing)
                                    && forall j | 0 <= j < k :: !Candidate(s[j], listing, sameListing)
    ensures r.None? ==> forall k | 0 <= k < |s| :: !Candidate(s[k], listing, sameListing)
  {
    if s == [] then None
    else if Candidate(s[0], listing, sameListing) then
      assert s[0] == s[0];
      Some(s[0])
    else
      var r := FirstVerified(s[1..], listing, sameListing);
      assert r.Some? ==>
          exists k :: 0 <= k < |s| && s[k] == r.value && Candidate(s[k], listing, sameListing)
                      && forall j | 0 <= j < k :: !Candidate(s[j], listing, sameListing) by {
        if r.Some? {
          var k :| 0 <= k < |s[1..]| && s[1..][k] == r.value && Candidate(s[1..][k], listing, sameListing)
                   && forall j | 0 <= j < k :: !Candidate(s[1..][j], listing, sameListing);
          assert forall j | 0 <= j < k + 1 :: j == 0 || s[j] == s[1..][j - 1];
          assert s[k + 1] == r.value;
        }
      }
      r
  }

  predicate Candidate(e: Evidence, listing: Id, sameListing: bool) {
    e.status == Verified && (e.listing == listing) == sameListing
  }

  predicate NewerConflicting(candidate: Evidence, s: seq<Evidence>) {
    exists i :: 0 <= i < |s| && s[i].number > candidate.number && s[i].supersededAt.None?
  }

  function LatestSafeCode(s: seq<Evidence>): Code {
    if s == [] then VerificationRequired
    else if Unfinished(s[0].status) then VerificationPending
    else if s[0].status == Revoked || s[0].revokedAt.Some? then VerificationRevoked
    else if s[0].status == Expired then VerificationExpired
    else ReuseNotAvailable
  }

  function Min(a: int, b: int): int { if a <= b then a else b }

  /** freshness in days between 1 and 365, version between 1 and 1000 (checked at construction). */
  datatype Policy = Policy(freshnessDays: int, version: int) {

    ghost predicate Valid() { 1 <= freshnessDays <= 365 && 1 <= version <= 1000 }

    function EffectiveExpiry(e: Evidence, reuse: bool): Option<Time> {
      if e.verifiedAt.None? || e.expiresAt.None? then None
      else if !reuse then e.expiresAt
      else Some(Min(e.expiresAt.value, e.verifiedAt.value + freshnessDays * DAY))
    }

    function Refusal(c: Context, e: Evidence, newerConflicting: bool, reuse: bool): Option<Code> {
      var expiry := EffectiveExpiry(e, reuse);
      if !c.personalListing then Some(DealerUnsupported)
      else if Unfinished(e.status) then Some(VerificationPending)
      else if e.status == Revoked || e.revokedAt.Some? then Some(VerificationRevoked)
      else if e.status != Verified then Some(ReuseNotAvailable)
      else if e.supersededAt.Some? || newerConflicting then Some(ReuseConflict)
      else if expiry.None? || expiry.value <= c.now then Some(VerificationExpired)
      else if
        || !c.identityVerified
        || e.owner != c.owner
        || e.vehicle != c.vehicle
        || e.identityAttempt != c.identityAttempt
        || e.identityVersion != c.identityVersion
        || e.vehicleIdentityVersion != c.vehicleIdentityVersion
        || e.hashVersion != c.vehicleHashVersion
        || e.basis != c.basis
        || c.vehicleStatus != Active
        || e.resultVersion.None?
        || e.resultVersion.value <= 0
        || !FingerprintValid(e.fingerprint)
      then Some(ReuseNotAvailable)
      else None
    }

    function Evaluate(c: Context, e: Evidence, newerConflicting: bool, reuse: bool): Decision {
      var code := Refusal(c, e, newerConflicting, reuse);
      Decision(code.None?, reuse && code.None?, code,
               if code.None? then EffectiveExpiry(e, reuse) else None,
               if reuse && code.None? then Some(version) else None)
    }

    function Select(c: Context, evidence: seq<Evidence>, currentListing: Id): Selection {
      var ordered := SortDescending(evidence);
      var current := FirstVerified(ordered, currentListing, true);
      var own := if current.None? then None
                 else Some(Evaluate(c, current.value, NewerConflicting(current.value, ordered), false));
      if own.Some? && own.value.eligible then Selection(current, own.value)
      else SelectReusable(c, ordered, currentListing)
    }

    function SelectReusable(c: Context, ordered: seq<Evidence>, currentListing: Id): Selection {
      var reusable := FirstVerified(ordered, currentListing, false);
      if reusable.None? then
        Selection(None, Decision(false, false, Some(LatestSafeCode(ordered)), None, None))
      else
        var decision := Evaluate(c, reusable.value, NewerConflicting(reusable.value, ordered), true);
        Selection(if decision.eligible then reusable else None, decision)
    }
  }

  // ---------------------------------------------------------------- the policy in plain conditions

  /** Not yet run out at `now`: by its own expiry, and for another listing also by its age. */
  ghost predicate InForce(freshnessDays: int, e: Evidence, reuse: bool, now: Time) {
    && e.verifiedAt.Some? && e.expiresAt.Some?
    && now < e.expiresAt.value
    && (reuse ==> now < e.verifiedAt.value + freshnessDays * 86_400)
  }

  /** The proof is of this owner, vehicle, identity and basis, each in the version there is now. */
  ghost predicate Binds(c: Context, e: Evidence) {
    && c.owner == e.owner && c.vehicle == e.vehicle && c.basis == e.basis
    && c.identityAttempt == e.identityAttempt && c.identityVersion == e.identityVersion
    && c.vehicleIdentityVersion == e.vehicleIdentityVersion && c.vehicleHashVersion == e.hashVersion
    && e.resultVersion.Some? && e.resultVersion.value > 0
    && |e.fingerprint| == 64
    && forall i | 0 <= i < 64 :: '0' <= e.fingerprint[i] <= '9' || 'a' <= e.fingerprint[i] <= 'f'
  }

  ghost predicate Settled(e: Evidence) {
    e.status == Verified && e.revokedAt.None?
  }

  /** Everything the policy asks of a row that nothing newer contests. */
  ghost predicate Supports(p: Policy, c: Context, e: Evidence, reuse: bool) {
    && c.personalListing && Settled(e) && e.supersededAt.None?
    && InForce(p.freshnessDays, e, reuse, c.now)
    && c.identityVerified && c.vehicleStatus == Active && Binds(c, e)
  }

  lemma SupportsSettled(p: Policy, c: Context, e: Evidence, reuse: bool)
    requires Supports(p, c, e, reuse)
    ensures Settled(e) && e.supersededAt.None?
  {}

  lemma HexDigits(value: string)
    ensures FingerprintValid(value) <==>
            |value| == 64 && forall i | 0 <= i < 64 :: '0' <= value[i] <= '9' || 'a' <= value[i] <= 'f'
  {
    forall i | 0 <= i < |value|
      ensures value[i] in "0123456789abcdef" <==> '0' <= value[i] <= '9' || 'a' <= value[i] <= 'f'
    {
      HexDigit(value[i]);
    }
  }

  lemma HexDigit(c: char)
    ensures c in "0123456789abcdef" <==> '0' <= c <= '9' || 'a' <= c <= 'f'
  {
    var digits := "0123456789abcdef";
    if '0' <= c <= '9' { assert digits[c as int - '0' as int] == c; }
    if 'a' <= c <= 'f' { assert digits[10 + (c as int - 'a' as int)] == c; }
  }

  /** Every answer of the policy, told by the row and the context alone. */
  lemma RefusalExactly(p: Policy, c: Context, e: Evidence, newer: bool, reuse: bool)
    ensures var code := p.Refusal(c, e, newer, reuse);
            var open := e.status in {SessionPending, Pending, ManualReview};
            var contested := e.supersededAt.Some? || newer;
            && (code == Some(DealerUnsupported) <==> !c.personalListing)
            && (code == Some(VerificationPending) <==> c.personalListing && open)
            && (code == Some(VerificationRevoked) <==>
                  c.personalListing && !open && (e.status == Revoked || e.revokedAt.Some?))
            && (code == Some(ReuseConflict) <==> c.personalListing && Settled(e) && contested)
            && (code == Some(VerificationExpired) <==>
                  c.personalListing && Settled(e) && !contested && !InForce(p.freshnessDays, e, reuse, c.now))
            && (code.None? <==> !newer && Supports(p, c, e, reuse))
  {
    HexDigits(e.fingerprint);
    hide FingerprintValid;
  }

  // ---------------------------------------------------------------- what `Select` means

  ghost predicate DistinctNumbers(s: seq<Evidence>) {
    forall i, j | 0 <= i < j < |s| :: s[i].number != s[j].number
  }

  /** The same by element, which survives reordering. */
  ghost predicate NumberIsKey(s: seq<Evidence>) {
    forall x, y | x in s && y in s && x.number == y.number :: x == y
  }

  /** What supersession kept by the service gives: an unsuperseded row is the newest one. */
  ghost predicate OnlyNewestUnsuperseded(s: seq<Evidence>) {
    forall e, f | e in s && f in s && e.supersededAt.None? :: f.number <= e.number
  }

  ghost predicate HasNewerOpen(s: seq<Evidence>, e: Evidence) {
    exists f :: f in s && f.number > e.number && f.supersededAt.None?
  }

  /** No scan and no order: `e` is the newest row not superseded, and it alone is judged. */
  ghost predicate Acceptable(p: Policy, c: Context, s: seq<Evidence>, currentListing: Id, e: Evidence) {
    && e in s
    && !HasNewerOpen(s, e)
    && Supports(p, c, e, e.listing != currentListing)
  }

  ghost predicate NewestCandidate(s: seq<Evidence>, listing: Id, same: bool, e: Evidence) {
    && e in s
    && Candidate(e, listing, same)
    && forall f | f in s && Candidate(f, listing, same) :: f.number <= e.number
  }

  /** A newer verified row of the same kind (this listing / another one) hides `e` from the scan. */
  ghost predicate Shadowed(s: seq<Evidence>, currentListing: Id, e: Evidence) {
    exists f :: f in s && f.number > e.number && Candidate(f, currentListing, e.listing == currentListing)
  }

  lemma {:induction false} InsertPermutes(e: Evidence, s: seq<Evidence>)
    ensures multiset(Insert(e, s)) == multiset{e} + multiset(s)
  {
    if s != [] && s[0].number > e.number {
      InsertPermutes(e, s[1..]);
      assert s == [s[0]] + s[1..];
    }
  }

  lemma {:induction false} InsertKeepsDescending(e: Evidence, s: seq<Evidence>)
    requires Descending(s)
    ensures Descending(Insert(e, s))
  {
    if s != [] && s[0].number > e.number {
      InsertKeepsDescending(e, s[1..]);
      InsertPermutes(e, s[1..]);
      var rest := Insert(e, s[1..]);
      forall i | 0 <= i < |rest| ensures s[0].number >= rest[i].number {
        assert rest[i] in multiset(rest);
        assert rest[i] == e || rest[i] in s[1..];
      }
    }
  }

  lemma {:induction false} SortPermutes(s: seq<Evidence>)
    ensures multiset(SortDescending(s)) == multiset(s)
  {
    if s != [] {
      SortPermutes(s[1..]);
      InsertPermutes(s[0], SortDescending(s[1..]));
      assert s == [s[0]] + s[1..];
    }
  }

  lemma {:induction false} SortIsDescending(s: seq<Evidence>)
    ensures Descending(SortDescending(s))
  {
    if s != [] {
      SortIsDescending(s[1..]);
      InsertKeepsDescending(s[0], SortDescending(s[1..]));
    }
  }

  lemma SortKeepsElements(s: seq<Evidence>)
    ensures forall e :: e in s <==> e in SortDescending(s)
  {
    hide *;
    SortPermutes(s);
    forall e ensures e in s <==> e in SortDescending(s) {
      assert e in s <==> e in multiset(s);
      assert e in SortDescending(s) <==> e in multiset(SortDescending(s));
    }
  }

  lemma DistinctIsKey(s: seq<Evidence>)
    requires DistinctNumbers(s)
    ensures NumberIsKey(s)
  {
    forall x, y | x in s && y in s && x.number == y.number ensures x == y {
      var i :| 0 <= i < |s| && s[i] == x;
      var j :| 0 <= j < |s| && s[j] == y;
      assert i == j;
    }
  }

  /** On a descending sequence the first candidate is the candidate with the highest number. */
  lemma FirstVerifiedIsNewest(s: seq<Evidence>, listing: Id, same: bool, e: Evidence)
    requires Descending(s) && NumberIsKey(s)
    ensures FirstVerified(s, listing, same) == Some(e) <==> NewestCandidate(s, listing, same, e)
  {
    hide FirstVerified;
    var r := FirstVerified(s, listing, same);
    if r.Some? {
      var k :| 0 <= k < |s| && s[k] == r.value && Candidate(s[k], listing, same)
               && forall j | 0 <= j < k :: !Candidate(s[j], listing, same);
      forall f | f in s && Candidate(f, listing, same) ensures f.number <= s[k].number {
        var j :| 0 <= j < |s| && s[j] == f;
      }
    }
  }

  lemma NewerConflictingMeaning(s: seq<Evidence>, ordered: seq<Evidence>, e: Evidence)
    requires forall x :: x in s <==> x in ordered
    ensures NewerConflicting(e, ordered) <==> HasNewerOpen(s, e)
  {
    if NewerConflicting(e, ordered) {
      var i :| 0 <= i < |ordered| && ordered[i].number > e.number && ordered[i].supersededAt.None?;
      assert ordered[i] in s;
    }
    if HasNewerOpen(s, e) {
      var f :| f in s && f.number > e.number && f.supersededAt.None?;
      var i :| 0 <= i < |ordered| && ordered[i] == f;
    }
  }

  lemma RefusalNone(p: Policy, c: Context, e: Evidence, newer: bool, reuse: bool)
    ensures p.Refusal(c, e, newer, reuse).None? <==> !newer && p.Refusal(c, e, false, reuse).None?
    ensures p.Refusal(c, e, newer, reuse).None? ==>
              e.status == Verified && e.supersededAt.None? && e.revokedAt.None?
  {}

  /** The two scans over the sorted rows, restated without order: a row is returned exactly when
      it is acceptable and no newer verified row of its kind shadows it. */
  lemma SelectMeaning(p: Policy, c: Context, s: seq<Evidence>, currentListing: Id, e: Evidence)
    requires DistinctNumbers(s)
    ensures p.Select(c, s, currentListing).evidence == Some(e) <==>
            Acceptable(p, c, s, currentListing, e) && !Shadowed(s, currentListing, e)
  {
    hide SortDescending, FirstVerified, NewerConflicting, p.Refusal, FingerprintValid, p.EffectiveExpiry;
    hide Supports, DistinctNumbers, NumberIsKey, Descending, HasNewerOpen, Unfinished, LatestSafeCode;
    var ordered := SortDescending(s);
    SortKeepsElements(s);
    SortIsDescending(s);
    OrderedIsKeyed(s, ordered);
    var own := FirstVerified(ordered, currentListing, true);
    var other := FirstVerified(ordered, currentListing, false);
    FirstVerifiedIsNewest(ordered, currentListing, true, e);
    FirstVerifiedIsNewest(ordered, currentListing, false, e);
    if own.Some? { ScannedRow(p, c, s, ordered, currentListing, true, own.value); }
    if other.Some? { ScannedRow(p, c, s, ordered, currentListing, false, other.value); }
    if Acceptable(p, c, s, currentListing, e) {
      SupportsSettled(p, c, e, e.listing != currentListing);
      if own.Some? && Acceptable(p, c, s, currentListing, own.value) {
        AcceptableIsUnique(p, c, s, currentListing, e, own.value);
      }
    }
  }

  lemma OrderedIsKeyed(s: seq<Evidence>, ordered: seq<Evidence>)
    requires DistinctNumbers(s) && forall x :: x in s <==> x in ordered
    ensures NumberIsKey(ordered) && NumberIsKey(s)
  {
    DistinctIsKey(s);
  }

  /** What the policy finds for a scanned row is what `Acceptable` says about it. */
  lemma ScannedRow(
      p: Policy, c: Context, s: seq<Evidence>, ordered: seq<Evidence>, listing: Id, same: bool, e: Evidence)
    requires forall x :: x in s <==> x in ordered
    requires Descending(ordered) && NumberIsKey(ordered)
    requires FirstVerified(ordered, listing, same) == Some(e)
    ensures NewestCandidate(ordered, listing, same, e)
    ensures p.Evaluate(c, e, NewerConflicting(e, ordered), !same).eligible <==> Acceptable(p, c, s, listing, e)
  {
    hide Supports, SortDescending, FirstVerified, NewerConflicting, p.Refusal, FingerprintValid, p.EffectiveExpiry,
        Descending;
    FirstVerifiedIsNewest(ordered, listing, same, e);
    NewerConflictingMeaning(s, ordered, e);
    RefusalExactly(p, c, e, NewerConflicting(e, ordered), !same);
  }

  lemma AcceptableIsUnique(p: Policy, c: Context, s: seq<Evidence>, listing: Id, e: Evidence, f: Evidence)
    requires NumberIsKey(s)
    requires Acceptable(p, c, s, listing, e) && Acceptable(p, c, s, listing, f)
    ensures e == f
  {
    hide p.Refusal, FingerprintValid;
    RefusalNone(p, c, e, false, e.listing != listing);
    RefusalNone(p, c, f, false, f.listing != listing);
  }

  /** The decision travels with the row: eligible iff a row is returned, reused iff it belongs to
      another listing, and then it carries the policy version and an expiry still ahead. */
  lemma SelectIsConsistent(p: Policy, c: Context, s: seq<Evidence>, currentListing: Id)
    ensures var sel := p.Select(c, s, currentListing);
            && (sel.decision.eligible <==> sel.evidence.Some?)
            && (sel.decision.eligible <==> sel.decision.code.None?)
            && (sel.evidence.Some? ==>
                  && sel.evidence.value in s
                  && sel.decision.reused == (sel.evidence.value.listing != currentListing)
                  && p.Refusal(c, sel.evidence.value, false, sel.decision.reused).None?
                  && sel.decision.effectiveExpiresAt == p.EffectiveExpiry(sel.evidence.value, sel.decision.reused))
            && (sel.evidence.None? ==> !sel.decision.reused && sel.decision.effectiveExpiresAt.None?)
            && sel.decision.policyVersion == if sel.decision.reused then Some(p.version) else None
  {
    hide SortDescending, FirstVerified, NewerConflicting, p.Refusal, FingerprintValid, p.EffectiveExpiry;
    hide Unfinished, LatestSafeCode;
    var ordered := SortDescending(s);
    SortKeepsElements(s);
    var own := FirstVerified(ordered, currentListing, true);
    var other := FirstVerified(ordered, currentListing, false);
    if own.Some? { RefusalNone(p, c, own.value, NewerConflicting(own.value, ordered), false); }
    if other.Some? { RefusalNone(p, c, other.value, NewerConflicting(other.value, ordered), true); }
  }

  /** On every evidence set the service reaches, only the newest attempt has to be looked at. */
  lemma SelectLooksAtNewestOnly(p: Policy, c: Context, s: seq<Evidence>, currentListing: Id, newest: Evidence)
    requires DistinctNumbers(s) && OnlyNewestUnsuperseded(s)
    requires newest in s && forall f | f in s :: f.number <= newest.number
    ensures var sel := p.Select(c, s, currentListing);
            if p.Refusal(c, newest, false, newest.listing != currentListing).None?
            then sel.evidence == Some(newest) && sel.decision.eligible
                 && sel.decision.reused == (newest.listing != currentListing)
            else sel.evidence == None && !sel.decision.eligible
  {
    hide p.Select, p.Refusal, Supports;
    RefusalExactly(p, c, newest, false, newest.listing != currentListing);
    var sel := p.Select(c, s, currentListing);
    SelectMeaning(p, c, s, currentListing, newest);
    SelectIsConsistent(p, c, s, currentListing);
    if sel.evidence.Some? {
      var e := sel.evidence.value;
      SelectMeaning(p, c, s, currentListing, e);
      RefusalExactly(p, c, e, false, e.listing != currentListing);
      RefusalNone(p, c, e, false, e.listing != currentListing);
      DistinctIsKey(s);
      assert e == newest;
    }
  }

  /** The expiry that travels with an accepted proof: one of the two times, and neither is earlier. */
  lemma ExpiryThatTravels(p: Policy, c: Context, e: Evidence, newer: bool, reuse: bool)
    requires p.Evaluate(c, e, newer, reuse).eligible
    ensures e.verifiedAt.Some? && e.expiresAt.Some? && p.Evaluate(c, e, newer, reuse).effectiveExpiresAt.Some?
    ensures var expiry := p.Evaluate(c, e, newer, reuse).effectiveExpiresAt.value;
            var aged := e.verifiedAt.value + p.freshnessDays * 86_400;
            && c.now < expiry <= e.expiresAt.value
            && (if reuse then expiry <= aged && expiry in {e.expiresAt.value, aged} else expiry == e.expiresAt.value)
  {
    hide FingerprintValid;
  }

  /** The whole selection, over every evidence set the service reaches: the newest row is returned
      exactly when these conditions hold of it, and then until the time that travels with it. */
  lemma SelectExactly(p: Policy, c: Context, s: seq<Evidence>, listing: Id, newest: Evidence)
    requires DistinctNumbers(s) && OnlyNewestUnsuperseded(s)
    requires newest in s && forall f | f in s :: f.number <= newest.number
    ensures var sel := p.Select(c, s, listing);
            var reuse := newest.listing != listing;
            var accepted := Supports(p, c, newest, reuse);
            && sel.evidence == (if accepted then Some(newest) else None)
            && sel.decision.eligible == accepted && sel.decision.reused == (accepted && reuse)
            && (accepted ==>
                  && sel.decision.effectiveExpiresAt.Some?
                  && forall later: Time ::
                       later < sel.decision.effectiveExpiresAt.value <==>
                       InForce(p.freshnessDays, newest, reuse, later))
  {
    hide p.Select, p.Refusal, Settled, Binds, p.EffectiveExpiry, InForce;
    var reuse := newest.listing != listing;
    SelectLooksAtNewestOnly(p, c, s, listing, newest);
    SelectIsConsistent(p, c, s, listing);
    RefusalExactly(p, c, newest, false, reuse);
    ExpiryInForce(p, newest, reuse);
  }

  lemma ExpiryInForce(p: Policy, e: Evidence, reuse: bool)
    ensures p.EffectiveExpiry(e, reuse).Some? <==> e.verifiedAt.Some? && e.expiresAt.Some?
    ensures p.EffectiveExpiry(e, reuse).Some? ==>
              forall now: Time :: now < p.EffectiveExpiry(e, reuse).value <==> InForce(p.freshnessDays, e, reuse, now)
    ensures p.EffectiveExpiry(e, reuse).None? ==> forall now: Time :: !InForce(p.freshnessDays, e, reuse, now)
  {}

  ghost predicate NewestIn(s: seq<Evidence>, newest: Evidence) {
    newest in s && forall f | f in s :: f.number <= newest.number
  }

  ghost predicate ProofElsewhere(s: seq<Evidence>, listing: Id) {
    exists f :: f in s && Candidate(f, listing, false)
  }

  /** The first row in descending order is the newest. */
  lemma NewestIsFirst(s: seq<Evidence>, newest: Evidence)
    requires DistinctNumbers(s) && NewestIn(s, newest)
    ensures var ordered := SortDescending(s); ordered != [] && ordered[0] == newest
  {
    SortKeepsElements(s);
    SortIsDescending(s);
    DistinctIsKey(s);
    hide SortDescending;
    var ordered := SortDescending(s);
    var i :| 0 <= i < |ordered| && ordered[i] == newest;
    assert ordered[0] in s;
  }

  lemma RefusedCode(p: Policy, c: Context, s: seq<Evidence>, listing: Id)
    ensures var selection := p.Select(c, s, listing);
            var other := FirstVerified(SortDescending(s), listing, false);
            selection.evidence.None? ==>
              selection.decision.code ==
                if other.None? then Some(LatestSafeCode(SortDescending(s)))
                else p.Refusal(c, other.value, NewerConflicting(other.value, SortDescending(s)), true)
  {
    hide SortDescending, FirstVerified, NewerConflicting, p.Refusal, p.EffectiveExpiry, LatestSafeCode;
  }

  lemma NewestElsewhere(s: seq<Evidence>, listing: Id)
    requires DistinctNumbers(s)
    ensures var other := FirstVerified(SortDescending(s), listing, false);
            && (other.Some? <==> ProofElsewhere(s, listing))
            && (other.Some? ==>
                  && NewestCandidate(s, listing, false, other.value)
                  && (NewerConflicting(other.value, SortDescending(s)) <==> HasNewerOpen(s, other.value)))
  {
    var ordered := SortDescending(s);
    SortKeepsElements(s);
    SortIsDescending(s);
    OrderedIsKeyed(s, ordered);
    hide SortDescending, DistinctNumbers, NumberIsKey, Descending, HasNewerOpen;
    var other := FirstVerified(ordered, listing, false);
    if other.Some? {
      FirstVerifiedIsNewest(ordered, listing, false, other.value);
      NewerConflictingMeaning(s, ordered, other.value);
    }
    hide NewerConflicting, FirstVerified;
    if ProofElsewhere(s, listing) {
      var f :| f in s && Candidate(f, listing, false);
      assert f in ordered;
    }
  }

  /** The code that goes with a refusal, told by the newest row of the vehicle alone: judged
      itself if it is another listing's proof; a conflict if there only is an older such proof; by
      its status if there is none. */
  lemma RefusalCode(p: Policy, c: Context, s: seq<Evidence>, listing: Id, newest: Evidence)
    requires c.personalListing && DistinctNumbers(s) && OnlyNewestUnsuperseded(s) && NewestIn(s, newest)
    requires forall f | f in s && f.status == Verified :: f.revokedAt.None?
    ensures var selection := p.Select(c, s, listing);
            selection.evidence.None? ==>
              selection.decision.code ==
                if Candidate(newest, listing, false) then p.Refusal(c, newest, false, true)
                else if ProofElsewhere(s, listing) then Some(ReuseConflict)
                else if newest.status in {SessionPending, Pending, ManualReview} then Some(VerificationPending)
                else if newest.status == Revoked || newest.revokedAt.Some? then Some(VerificationRevoked)
                else if newest.status == Expired then Some(VerificationExpired)
                else Some(ReuseNotAvailable)
  {
    hide SortDescending, FirstVerified, NewerConflicting, p.Refusal, HasNewerOpen, DistinctNumbers, p.Select;
    RefusedCode(p, c, s, listing);
    NewestElsewhere(s, listing);
    NewestIsFirst(s, newest);
    var other := FirstVerified(SortDescending(s), listing, false);
    if other.Some? { OlderProofConflicts(p, c, s, listing, newest, other.value); }
  }

  lemma OlderProofConflicts(p: Policy, c: Context, s: seq<Evidence>, listing: Id, newest: Evidence, r: Evidence)
    requires c.personalListing && DistinctNumbers(s) && OnlyNewestUnsuperseded(s) && NewestIn(s, newest)
    requires r in s && Candidate(r, listing, false) && r.revokedAt.None?
    requires forall f | f in s && Candidate(f, listing, false) :: f.number <= r.number
    ensures p.Refusal(c, r, HasNewerOpen(s, r), true) ==
            if Candidate(newest, listing, false) then p.Refusal(c, newest, false, true) else Some(ReuseConflict)
  {
    DistinctIsKey(s);
    if r == newest {
      assert !HasNewerOpen(s, r);
    } else {
      assert r.number != newest.number && r.supersededAt.Some?;
      assert !Candidate(newest, listing, false);
    }
    hide FingerprintValid, DistinctNumbers;
  }

  lemma {:induction false} DescendingIsCanonical(a: seq<Evidence>, b: seq<Evidence>)
    requires multiset(a) == multiset(b)
    requires Descending(a) && Descending(b) && NumberIsKey(a)
    ensures a == b
  {
    if a == [] {
      assert |b| == |multiset(b)| == |multiset(a)|;
    } else {
      SameHead(a, b);
      TailOf(a);
      TailOf(b);
      DescendingIsCanonical(a[1..], b[1..]);
      hide *;
      assert a == [a[0]] + a[1..] && b == [b[0]] + b[1..];
    }
  }

  lemma TailOf(s: seq<Evidence>)
    requires s != [] && Descending(s)
    ensures Descending(s[1..]) && multiset(s[1..]) == multiset(s) - multiset{s[0]}
    ensures NumberIsKey(s) ==> NumberIsKey(s[1..])
  {
    assert s == [s[0]] + s[1..];
    assert forall x | x in s[1..] :: x in s;
  }

  lemma SameHead(a: seq<Evidence>, b: seq<Evidence>)
    requires a != [] && multiset(a) == multiset(b)
    requires Descending(a) && Descending(b) && NumberIsKey(a)
    ensures b != [] && a[0] == b[0]
  {
    assert a[0] in multiset(b);
    assert b != [];
    assert b[0] in multiset(a);
    var i :| 0 <= i < |a| && a[i] == b[0];
    var j :| 0 <= j < |b| && b[j] == a[0];
  }

  /** The caller's row order does not matter: the whole selection, refusal code included. */
  lemma SelectIgnoresOrder(p: Policy, c: Context, s: seq<Evidence>, t: seq<Evidence>, currentListing: Id)
    requires DistinctNumbers(s) && multiset(s) == multiset(t)
    ensures p.Select(c, s, currentListing) == p.Select(c, t, currentListing)
  {
    hide SortDescending, FirstVerified, NewerConflicting, p.Evaluate, p.SelectReusable;
    SortPermutes(s); SortPermutes(t);
    SortIsDescending(s); SortIsDescending(t);
    SortKeepsElements(s);
    OrderedIsKeyed(s, SortDescending(s));
    DescendingIsCanonical(SortDescending(s), SortDescending(t));
  }

  /** Reuse is never more generous than the proof itself, and passing time never restores it. */
  lemma EligibilityShrinks(p: Policy, c: Context, later: Time, e: Evidence, newer: bool, reuse: bool)
    requires p.Valid() && c.now <= later
    requires p.Refusal(c.(now := later), e, newer, reuse).None?
    ensures p.Refusal(c, e, newer, reuse).None?
    ensures p.Refusal(c.(now := later), e, newer, false).None?
    ensures reuse ==> p.EffectiveExpiry(e, true).value <= e.verifiedAt.value + p.freshnessDays * DAY
  {}
}
