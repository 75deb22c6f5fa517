/** Fixed-window request counting: the Redis script, the SQL upsert, and what both come to. */
module RateLimit {
  import opened Core

  datatype Rule = Rule(limit: nat, windowSeconds: nat) {
    ghost predicate Valid() { windowSeconds >= 1 }
  }

  /** A window that is open until `end` and has seen `count` requests. */
  datatype Window = Window(count: nat, end: Time)

  /** One request: it opens a window if none is open, and is counted in the open one. */
  function Hit(w: Option<Window>, rule: Rule, now: Time): Window {
    if w.None? || w.value.end <= now then Window(1, now + rule.windowSeconds) else w.value.(count := w.value.count + 1)
  }

  // -------------------------------------------------------------------- the two backends

  /** A Redis key is gone once its expiry has come. */
  datatype RedisKey = RedisKey(value: nat, expiresAt: Option<Time>)

  function Live(k: Option<RedisKey>, now: Time): Option<RedisKey> {
    if k.Some? && k.value.expiresAt.Some? && k.value.expiresAt.value <= now then None else k
  }

  function Incr(k: Option<RedisKey>): RedisKey {
    if k.None? then RedisKey(1, None) else k.value.(value := k.value.value + 1)
  }

  function Expire(k: RedisKey, at: Time): RedisKey { k.(expiresAt := Some(at)) }

  /** The increment script, run as one step. */
  function RunScript(k: Option<RedisKey>, rule: Rule, now: Time): RedisKey {
    var counted := Incr(Live(k, now));
    if counted.value == 1 then Expire(counted, now + rule.windowSeconds) else counted
  }

  datatype Bucket = Bucket(requestCount: nat, windowExpiresAt: Time)

  /** INSERT ... ON CONFLICT DO UPDATE: an expired row is overwritten in place. */
  function Upsert(b: Option<Bucket>, rule: Rule, now: Time): Bucket {
    var expires := now + rule.windowSeconds;
    if b.None? then Bucket(1, expires)
    else Bucket(if b.value.windowExpiresAt <= now then 1 else b.value.requestCount + 1,
                if b.value.windowExpiresAt <= now then expires else b.value.windowExpiresAt)
  }

  // -------------------------------------------------------------------- a history of requests

  function After(times: seq<Time>, rule: Rule): Option<Window> {
    if times == [] then None else Some(Hit(After(times[..|times| - 1], rule), rule, times[|times| - 1]))
  }

  function RedisAfter(times: seq<Time>, rule: Rule): Option<RedisKey> {
    if times == [] then None else Some(RunScript(RedisAfter(times[..|times| - 1], rule), rule, times[|times| - 1]))
  }

  function BucketAfter(times: seq<Time>, rule: Rule): Option<Bucket> {
    if times == [] then None else Some(Upsert(BucketAfter(times[..|times| - 1], rule), rule, times[|times| - 1]))
  }

  ghost predicate InOrder(times: seq<Time>) {
    forall i, j | 0 <= i < j < |times| :: times[i] <= times[j]
  }

  /** Both backends give every request of every history the count of the one window counter. */
  lemma {:induction false} BackendsAgree(times: seq<Time>, rule: Rule)
    requires times != []
    ensures var w, k, b := After(times, rule).value, RedisAfter(times, rule).value, BucketAfter(times, rule).value;
            && w.count == k.value == b.requestCount
            && k.expiresAt == Some(w.end) && b.windowExpiresAt == w.end
            && w.count >= 1
  {
    var rest := times[..|times| - 1];
    if rest != [] { BackendsAgree(rest, rule); }
  }

  /** Requests number `i < n` that came in [from, from + window) and were within the limit. */
  function Admitted(times: seq<Time>, rule: Rule, from: Time, n: nat): nat
    requires n <= |times|
  {
    if n == 0 then 0
    else
      Admitted(times, rule, from, n - 1)
      + (if from <= times[n - 1] < from + rule.windowSeconds && After(times[..n], rule).value.count <= rule.limit
          then 1 else 0)
  }

  function Capped(count: nat, limit: nat): nat { if count <= limit then count else limit }

  /** How many can have been admitted, given where the present window started. */
  function Bound(w: Option<Window>, rule: Rule, from: Time): int {
    if w.None? then 0
    else
      var start := w.value.end - rule.windowSeconds;
      if start < from then Capped(w.value.count, rule.limit) - 1
      else if start < from + rule.windowSeconds then rule.limit - 1 + Capped(w.value.count, rule.limit)
      else 2 * rule.limit - 1
  }

  lemma {:induction false} AdmittedWithin(times: seq<Time>, rule: Rule, from: Time, n: nat)
    requires rule.Valid() && rule.limit >= 1 && InOrder(times) && n <= |times|
    ensures Admitted(times, rule, from, n) <= Bound(After(times[..n], rule), rule, from)
    ensures n > 0 ==> var w := After(times[..n], rule).value; w.count >= 1
                                                              && w.end - rule.windowSeconds <= times[n - 1] < w.end
    ensures n > 0 && times[n - 1] < from ==> Admitted(times, rule, from, n) == 0
  {
    if n == 0 {
      assert times[..0] == [];
    } else {
      AdmittedWithin(times, rule, from, n - 1);
      assert times[..n][..n - 1] == times[..n - 1] && times[..n][n - 1] == times[n - 1];
      var before := After(times[..n - 1], rule);
      assert n > 1 ==> times[n - 2] <= times[n - 1];
      assert After(times[..n], rule) == Some(Hit(before, rule, times[n - 1]));
    }
  }

  /** Any interval of one window length lets through fewer than twice the limit, wherever it lies. */
  lemma FewerThanTwiceTheLimit(times: seq<Time>, rule: Rule, from: Time)
    requires rule.Valid() && InOrder(times)
    ensures Admitted(times, rule, from, |times|) <= (if rule.limit == 0 then 0 else 2 * rule.limit - 1)
  {
    if rule.limit == 0 {
      NothingAdmitted(times, rule, from, |times|);
    } else {
      AdmittedWithin(times, rule, from, |times|);
    }
  }

  lemma {:induction false} NothingAdmitted(times: seq<Time>, rule: Rule, from: Time, n: nat)
    requires rule.limit == 0 && n <= |times|
    ensures Admitted(times, rule, from, n) == 0
  {
    if n > 0 {
      NothingAdmitted(times, rule, from, n - 1);
      BackendsAgree(times[..n], rule);
    }
  }

  // -------------------------------------------------------------------- the bound is reached

  function Repeat(t: Time, n: nat): (r: seq<Time>)
    ensures |r| == n && forall i | 0 <= i < n :: r[i] == t
  {
    if n == 0 then [] else Repeat(t, n - 1) + [t]
  }

  /** One request, the rest of the limit just before the window closes, the limit right after. */
  function Burst(rule: Rule, late: nat, next: nat): (r: seq<Time>)
    ensures |r| == 1 + late + next
  {
    [0] + Repeat(rule.windowSeconds - 1, late) + Repeat(rule.windowSeconds, next)
  }

  lemma OneLater(times: seq<Time>, rule: Rule, from: Time, t: Time)
    ensures After(times + [t], rule) == Some(Hit(After(times, rule), rule, t))
    ensures Admitted(times + [t], rule, from, |times| + 1) ==
            Admitted(times, rule, from, |times|)
            + (if from <= t < from + rule.windowSeconds && Hit(After(times, rule), rule, t).count <= rule.limit then 1
                else 0)
  {
    assert (times + [t])[..|times|] == times && (times + [t])[..|times| + 1] == times + [t];
    SamePrefix(times + [t], times, rule, from, |times|);
  }

  lemma {:induction false} SamePrefix(a: seq<Time>, b: seq<Time>, rule: Rule, from: Time, n: nat)
    requires n <= |a| && n <= |b| && a[..n] == b[..n]
    ensures Admitted(a, rule, from, n) == Admitted(b, rule, from, n)
  {
    if n > 0 {
      assert a[..n][n - 1] == b[..n][n - 1];
      assert a[..n][..n - 1] == a[..n - 1] && b[..n][..n - 1] == b[..n - 1];
      SamePrefix(a, b, rule, from, n - 1);
    }
  }

  lemma {:induction false} LateCounts(rule: Rule, late: nat)
    requires rule.windowSeconds >= 2 && late < rule.limit
    ensures var times := Burst(rule, late, 0);
            && After(times, rule) == Some(Window(1 + late, rule.windowSeconds))
            && Admitted(times, rule, 1, |times|) == late
  {
    if late > 0 {
      LateCounts(rule, late - 1);
      assert Burst(rule, late, 0) == Burst(rule, late - 1, 0) + [rule.windowSeconds - 1];
      OneLater(Burst(rule, late - 1, 0), rule, 1, rule.windowSeconds - 1);
      hide After, Admitted, Burst;
    } else {
      assert Burst(rule, 0, 0) == [] + [0];
      OneLater([], rule, 1, 0);
      assert After([], rule) == None;
    }
  }

  lemma {:induction false} NextCounts(rule: Rule, late: nat, next: nat)
    requires rule.windowSeconds >= 2 && late < rule.limit && 1 <= next <= rule.limit
    ensures var times := Burst(rule, late, next);
            && After(times, rule) == Some(Window(next, 2 * rule.windowSeconds))
            && Admitted(times, rule, 1, |times|) == late + next
  {
    hide *;
    BurstGrows(rule, late, next);
    var earlier := Burst(rule, late, next - 1);
    if next == 1 {
      LateCounts(rule, late);
      NextCount(rule, earlier, next, late, Window(1 + late, rule.windowSeconds));
    } else {
      NextCounts(rule, late, next - 1);
      NextCount(rule, earlier, next, late + next - 1, Window(next - 1, 2 * rule.windowSeconds));
    }
  }

  lemma NextCount(rule: Rule, earlier: seq<Time>, next: nat, admitted: nat, before: Window)
    requires rule.windowSeconds >= 2 && 1 <= next <= rule.limit
    requires if next > 1 then before == Window(next - 1, 2 * rule.windowSeconds) else before.end == rule.windowSeconds
    requires After(earlier, rule) == Some(before) && Admitted(earlier, rule, 1, |earlier|) == admitted
    ensures var times := earlier + [rule.windowSeconds];
            && After(times, rule) == Some(Window(next, 2 * rule.windowSeconds))
            && Admitted(times, rule, 1, |earlier| + 1) == admitted + 1
  {
    hide *;
    OneLater(earlier, rule, 1, rule.windowSeconds);
    HitAtClose(rule, before, next);
  }

  /** At the second the first window closes: a new window opens, or is counted on. */
  lemma HitAtClose(rule: Rule, before: Window, next: nat)
    requires rule.windowSeconds >= 2 && next >= 1
    requires if next > 1 then before == Window(next - 1, 2 * rule.windowSeconds) else before.end == rule.windowSeconds
    ensures Hit(Some(before), rule, rule.windowSeconds) == Window(next, 2 * rule.windowSeconds)
  {}

  lemma BurstGrows(rule: Rule, late: nat, next: nat)
    requires rule.windowSeconds >= 2 && next >= 1
    ensures Burst(rule, late, next) == Burst(rule, late, next - 1) + [rule.windowSeconds]
  {}

  lemma BurstInOrder(rule: Rule, late: nat, next: nat)
    requires rule.windowSeconds >= 2
    ensures InOrder(Burst(rule, late, next))
  {}

  /** For every limit and every window of two seconds or more, some history reaches the bound. */
  lemma BoundIsReached(rule: Rule)
    requires rule.windowSeconds >= 2 && rule.limit >= 1
    ensures exists times :: InOrder(times) && Admitted(times, rule, 1, |times|) == 2 * rule.limit - 1
  {
    NextCounts(rule, rule.limit - 1, rule.limit);
    BurstInOrder(rule, rule.limit - 1, rule.limit);
    var times := Burst(rule, rule.limit - 1, rule.limit);
    assert InOrder(times) && Admitted(times, rule, 1, |times|) == 2 * rule.limit - 1;
  }

  // -------------------------------------------------------------------- several subjects, and the service

  function Lookup<V>(m: map<Id, V>, key: Id): Option<V> { if key in m then Some(m[key]) else None }

  /** The script run for each subject in turn. */
  function ScriptAll(store: map<Id, RedisKey>, subjects: seq<Id>, rule: Rule, now: Time): (map<Id, RedisKey>,
      seq<nat>) {
    if subjects == [] then (store, [])
    else
      var (rest, counts) := ScriptAll(store, subjects[..|subjects| - 1], rule, now);
      var last := subjects[|subjects| - 1];
      var key := RunScript(Lookup(rest, last), rule, now);
      (rest[last := key], counts + [key.value])
  }

  function UpsertAll(table: map<Id, Bucket>, subjects: seq<Id>, rule: Rule, now: Time): (map<Id, Bucket>, seq<nat>) {
    if subjects == [] then (table, [])
    else
      var (rest, counts) := UpsertAll(table, subjects[..|subjects| - 1], rule, now);
      var last := subjects[|subjects| - 1];
      var bucket := Upsert(Lookup(rest, last), rule, now);
      (rest[last := bucket], counts + [bucket.requestCount])
  }

  ghost predicate Distinct(subjects: seq<Id>) {
    forall i, j | 0 <= i < j < |subjects| :: subjects[i] != subjects[j]
  }

  lemma {:induction false} ScriptsAreIndependent(store: map<Id, RedisKey>, subjects: seq<Id>, rule: Rule, now: Time)
    requires Distinct(subjects)
    ensures var (later, counts) := ScriptAll(store, subjects, rule, now);
            && |counts| == |subjects|
            && (forall i | 0 <= i < |subjects| ::
                  subjects[i] in later && later[subjects[i]] == RunScript(Lookup(store, subjects[i]), rule, now)
                  && counts[i] == later[subjects[i]].value)
            && (forall s | s !in subjects :: Lookup(later, s) == Lookup(store, s))
  {
    if subjects != [] {
      var n := |subjects| - 1;
      ScriptsAreIndependent(store, subjects[..n], rule, now);
      assert subjects[n] !in subjects[..n];
      hide RunScript;
      assert forall s :: s !in subjects ==> s !in subjects[..n] && s != subjects[n];
    }
  }

  lemma {:induction false} UpsertsAreIndependent(table: map<Id, Bucket>, subjects: seq<Id>, rule: Rule, now: Time)
    requires Distinct(subjects)
    ensures var (later, counts) := UpsertAll(table, subjects, rule, now);
            && |counts| == |subjects|
            && (forall i | 0 <= i < |subjects| ::
                  subjects[i] in later && later[subjects[i]] == Upsert(Lookup(table, subjects[i]), rule, now)
                  && counts[i] == later[subjects[i]].requestCount)
            && (forall s | s !in subjects :: Lookup(later, s) == Lookup(table, s))
  {
    if subjects != [] {
      var n := |subjects| - 1;
      UpsertsAreIndependent(table, subjects[..n], rule, now);
      assert subjects[n] !in subjects[..n];
      hide Upsert;
      assert forall s :: s !in subjects ==> s !in subjects[..n] && s != subjects[n];
    }
  }

  datatype Answer = Passed | Limited | Unavailable

  predicate AnyOver(counts: seq<nat>, limit: nat) {
    exists i :: 0 <= i < |counts| && counts[i] > limit
  }

  // -------------------------------------------------------------------- calls

  datatype Store = Store(redis: map<Id, RedisKey>, buckets: map<Id, Bucket>)

  /** `failed`: the Redis loop ends in an error after that many scripts have run. */
  datatype Call = Call(subjects: seq<Id>, now: Time, failed: Option<nat>, databaseUp: bool)

  /** The subjects whose script runs. */
  function Scripted(c: Call): seq<Id> {
    var unique := Deduplicated(c.subjects);
    if c.failed.Some? && c.failed.value < |unique| then unique[..c.failed.value] else unique
  }

  /** Redis first; when it fails, the database counts all subjects, or nobody does. */
  function Enforced(s: Store, rule: Rule, c: Call): (Store, Answer) {
    var (redis, counts) := ScriptAll(s.redis, Scripted(c), rule, c.now);
    if c.failed.None? then (s.(redis := redis), if AnyOver(counts, rule.limit) then Limited else Passed)
    else if !c.databaseUp then (s.(redis := redis), Unavailable)
    else
      var (buckets, counted) := UpsertAll(s.buckets, Deduplicated(c.subjects), rule, c.now);
      (Store(redis, buckets), if AnyOver(counted, rule.limit) then Limited else Passed)
  }

  function AfterCalls(rule: Rule, calls: seq<Call>): Store {
    if calls == [] then Store(map[], map[])
    else Enforced(AfterCalls(rule, calls[..|calls| - 1]), rule, calls[|calls| - 1]).0
  }

  predicate InRedis(c: Call, x: Id) { x in Scripted(c) }

  predicate InDatabase(c: Call, x: Id) { c.failed.Some? && c.databaseUp && x in c.subjects }

  /** When the script ran for `x`. */
  function RedisTimes(calls: seq<Call>, x: Id): seq<Time> {
    if calls == [] then []
    else
      var n := |calls| - 1;
      RedisTimes(calls[..n], x) + (if InRedis(calls[n], x) then [calls[n].now] else [])
  }

  /** When the fallback counted `x`. */
  function DatabaseTimes(calls: seq<Call>, x: Id): seq<Time> {
    if calls == [] then []
    else
      var n := |calls| - 1;
      DatabaseTimes(calls[..n], x) + (if InDatabase(calls[n], x) then [calls[n].now] else [])
  }

  /** Calls naming `x` in [from, from + window) that were let through. */
  function PassedIn(rule: Rule, calls: seq<Call>, x: Id, from: Time): nat {
    if calls == [] then 0
    else
      var n := |calls| - 1;
      PassedIn(rule, calls[..n], x, from)
      + (if x in calls[n].subjects && from <= calls[n].now < from + rule.windowSeconds
            && Enforced(AfterCalls(rule, calls[..n]), rule, calls[n]).1 == Passed then 1 else 0)
  }

  lemma UniqueSubjects(c: Call)
    ensures Distinct(Deduplicated(c.subjects)) && Distinct(Scripted(c))
    ensures forall x :: x in Deduplicated(c.subjects) <==> x in c.subjects
    ensures c.failed.None? ==> Scripted(c) == Deduplicated(c.subjects)
  {
    DeduplicatedMeaning(c.subjects, 0);
    hide Deduplicated;
  }

  /** Subjects do not disturb each other: whatever else a call names, each backend that counts `x`
      counts it once and on its own, and a call that passes found `x` within the limit there. */
  lemma SubjectsAreIndependent(s: Store, rule: Rule, c: Call, x: Id)
    ensures var (later, answer) := Enforced(s, rule, c);
            var script, upsert := RunScript(Lookup(s.redis, x), rule, c.now), Upsert(Lookup(s.buckets, x), rule, c.now);
            && Lookup(later.redis, x) == (if InRedis(c, x) then Some(script) else Lookup(s.redis, x))
            && Lookup(later.buckets, x) == (if InDatabase(c, x) then Some(upsert) else Lookup(s.buckets, x))
            && (answer == Passed && x in c.subjects ==>
                  || (InRedis(c, x) && script.value <= rule.limit)
                  || (InDatabase(c, x) && upsert.requestCount <= rule.limit))
  {
    hide Deduplicated, RunScript, Upsert, ScriptAll, UpsertAll, Scripted;
    var unique := Deduplicated(c.subjects);
    UniqueSubjects(c);
    ScriptsAreIndependent(s.redis, Scripted(c), rule, c.now);
    UpsertsAreIndependent(s.buckets, unique, rule, c.now);
    if x in Scripted(c) { var i :| 0 <= i < |Scripted(c)| && Scripted(c)[i] == x; }
    if x in unique { var i :| 0 <= i < |unique| && unique[i] == x; }
  }

  lemma TimesOfSubject(calls: seq<Call>, x: Id)
    requires calls != []
    ensures var n := |calls| - 1;
            var redis, database := RedisTimes(calls[..n], x), DatabaseTimes(calls[..n], x);
            && RedisTimes(calls, x) == (if InRedis(calls[n], x) then redis + [calls[n].now] else redis)
            && DatabaseTimes(calls, x) == (if InDatabase(calls[n], x) then database + [calls[n].now] else database)
  {
    hide InRedis, InDatabase;
  }

  /** Through any history of calls each subject's counters are those of the times it was counted. */
  lemma {:induction false} CountersOfSubject(rule: Rule, calls: seq<Call>, x: Id)
    ensures Lookup(AfterCalls(rule, calls).redis, x) == RedisAfter(RedisTimes(calls, x), rule)
    ensures Lookup(AfterCalls(rule, calls).buckets, x) == BucketAfter(DatabaseTimes(calls, x), rule)
  {
    if calls != [] {
      hide Enforced, InRedis, InDatabase, RunScript, Upsert, RedisAfter, BucketAfter, RedisTimes, DatabaseTimes;
      TimesOfSubject(calls, x);
      var n := |calls| - 1;
      CountersOfSubject(rule, calls[..n], x);
      SubjectsAreIndependent(AfterCalls(rule, calls[..n]), rule, calls[n], x);
      CountersOfOneMore(rule, RedisTimes(calls[..n], x), calls[n].now);
      CountersOfOneMore(rule, DatabaseTimes(calls[..n], x), calls[n].now);
    }
  }

  lemma CountersOfOneMore(rule: Rule, times: seq<Time>, t: Time)
    ensures RedisAfter(times + [t], rule) == Some(RunScript(RedisAfter(times, rule), rule, t))
    ensures BucketAfter(times + [t], rule) == Some(Upsert(BucketAfter(times, rule), rule, t))
  {
    assert (times + [t])[..|times|] == times;
    hide RunScript, Upsert;
  }

  lemma CountedOnce(rule: Rule, times: seq<Time>, from: Time, t: Time)
    ensures Admitted(times + [t], rule, from, |times| + 1) ==
            Admitted(times, rule, from, |times|)
            + (if from <= t < from + rule.windowSeconds
                  && RunScript(RedisAfter(times, rule), rule, t).value <= rule.limit then 1 else 0)
    ensures RunScript(RedisAfter(times, rule), rule, t).value == Upsert(BucketAfter(times, rule), rule, t).requestCount
  {
    OneLater(times, rule, from, t);
    assert (times + [t])[..|times|] == times;
    BackendsAgree(times + [t], rule);
    hide Admitted;
  }

  /** Every call let through was admitted by one of the two counters. */
  lemma {:induction false} PassedIsAdmitted(rule: Rule, calls: seq<Call>, x: Id, from: Time)
    ensures var redis, database := RedisTimes(calls, x), DatabaseTimes(calls, x);
            PassedIn(rule, calls, x, from)
            <= Admitted(redis, rule, from, |redis|) + Admitted(database, rule, from, |database|)
  {
    if calls != [] {
      hide Enforced, InRedis, InDatabase, RunScript, Upsert, Admitted, AfterCalls, RedisAfter, BucketAfter, RedisTimes,
          DatabaseTimes;
      TimesOfSubject(calls, x);
      var n := |calls| - 1;
      var s := AfterCalls(rule, calls[..n]);
      PassedIsAdmitted(rule, calls[..n], x, from);
      CountersOfSubject(rule, calls[..n], x);
      SubjectsAreIndependent(s, rule, calls[n], x);
      CountedOnce(rule, RedisTimes(calls[..n], x), from, calls[n].now);
      CountedOnce(rule, DatabaseTimes(calls[..n], x), from, calls[n].now);
    }
  }

  ghost predicate CallsInOrder(calls: seq<Call>) {
    forall i, j | 0 <= i < j < |calls| :: calls[i].now <= calls[j].now
  }

  ghost predicate UpTo(times: seq<Time>, last: Time) {
    forall i | 0 <= i < |times| :: times[i] <= last
  }

  lemma {:induction false} TimesInOrder(calls: seq<Call>, x: Id, last: Time)
    requires CallsInOrder(calls) && forall i | 0 <= i < |calls| :: calls[i].now <= last
    ensures InOrder(RedisTimes(calls, x)) && InOrder(DatabaseTimes(calls, x))
    ensures UpTo(RedisTimes(calls, x), last) && UpTo(DatabaseTimes(calls, x), last)
    decreases |calls|
  {
    if calls != [] {
      var n := |calls| - 1;
      TimesOfSubject(calls, x);
      assert CallsInOrder(calls[..n]) && forall i | 0 <= i < n :: calls[..n][i].now <= calls[n].now;
      hide InRedis, InDatabase, InOrder, UpTo, RedisTimes, DatabaseTimes;
      TimesInOrder(calls[..n], x, calls[n].now);
      StillInOrder(RedisTimes(calls[..n], x), calls[n].now, last);
      StillInOrder(DatabaseTimes(calls[..n], x), calls[n].now, last);
    }
  }

  lemma StillInOrder(times: seq<Time>, next: Time, last: Time)
    requires InOrder(times) && UpTo(times, next) && next <= last
    ensures InOrder(times + [next]) && UpTo(times + [next], last) && UpTo(times, last)
  {}

  function MostAdmitted(rule: Rule): nat { if rule.limit == 0 then 0 else 2 * rule.limit - 1 }

  /** Whatever history of calls, failures of either backend included: in any interval of one window
      length a subject gets fewer than twice the limit through on each backend that counted it. */
  lemma CallsAreBounded(rule: Rule, calls: seq<Call>, x: Id, from: Time)
    requires rule.Valid() && CallsInOrder(calls)
    ensures PassedIn(rule, calls, x, from) <= 2 * MostAdmitted(rule)
    ensures (forall c | c in calls :: !InDatabase(c, x)) || (forall c | c in calls :: !InRedis(c, x)) ==>
              PassedIn(rule, calls, x, from) <= MostAdmitted(rule)
  {
    TimesInOrder(calls, x, if calls == [] then 0 else calls[|calls| - 1].now);
    PassedIsAdmitted(rule, calls, x, from);
    FewerThanTwiceTheLimit(RedisTimes(calls, x), rule, from);
    FewerThanTwiceTheLimit(DatabaseTimes(calls, x), rule, from);
    hide PassedIn, InRedis, InDatabase, RedisTimes, DatabaseTimes;
    if forall c | c in calls :: !InDatabase(c, x) { NeverCounted(calls, x); }
    if forall c | c in calls :: !InRedis(c, x) { NeverCounted(calls, x); }
  }

  lemma {:induction false} NeverCounted(calls: seq<Call>, x: Id)
    ensures (forall c | c in calls :: !InDatabase(c, x)) ==> DatabaseTimes(calls, x) == []
    ensures (forall c | c in calls :: !InRedis(c, x)) ==> RedisTimes(calls, x) == []
  {
    if calls != [] {
      var n := |calls| - 1;
      NeverCounted(calls[..n], x);
      assert forall c | c in calls[..n] :: c in calls;
      assert calls[n] in calls;
    }
  }

  // -------------------------------------------------------------------- who is let through

  /** Requests number `i < n` that came after `since`. */
  function Recent(times: seq<Time>, since: Time, n: nat): nat
    requires n <= |times|
  {
    if n == 0 then 0 else Recent(times, since, n - 1) + (if since < times[n - 1] then 1 else 0)
  }

  lemma {:induction false} RecentAfterLater(times: seq<Time>, since: Time, later: Time, n: nat)
    requires n <= |times| && since <= later
    ensures Recent(times, later, n) <= Recent(times, since, n)
  {
    if n > 0 { RecentAfterLater(times, since, later, n - 1); }
  }

  /** The open window has counted no more than came since just before it opened. */
  lemma {:induction false} CountsOnlyRecent(times: seq<Time>, rule: Rule, n: nat)
    requires rule.Valid() && InOrder(times) && 0 < n <= |times|
    ensures var w := After(times[..n], rule).value;
            && w.count <= Recent(times, w.end - rule.windowSeconds - 1, n)
            && w.end - rule.windowSeconds <= times[n - 1] < w.end
  {
    assert times[..n][..n - 1] == times[..n - 1] && times[..n][n - 1] == times[n - 1];
    var before := After(times[..n - 1], rule);
    var w := Hit(before, rule, times[n - 1]);
    assert After(times[..n], rule) == Some(w);
    if n > 1 {
      CountsOnlyRecent(times, rule, n - 1);
      assert times[n - 2] <= times[n - 1];
    } else {
      assert times[..0] == [];
    }
  }

  /** No caller is held up for what happened a window ago: the count a request gets is at most the
      number of requests of the last window length, itself included. */
  lemma CountIsRecent(times: seq<Time>, rule: Rule)
    requires rule.Valid() && InOrder(times) && times != []
    ensures 1 <= After(times, rule).value.count
            <= Recent(times, times[|times| - 1] - rule.windowSeconds, |times|)
  {
    var n := |times|;
    assert times[..n] == times;
    CountsOnlyRecent(times, rule, n);
    BackendsAgree(times, rule);
    var w := After(times, rule).value;
    RecentAfterLater(times, times[n - 1] - rule.windowSeconds, w.end - rule.windowSeconds - 1, n);
    hide After;
  }

  /** A call passes exactly when, on the backend that answered it, every subject it names is within the
      limit; with both backends failing it is neither let through nor limited. */
  lemma PassedExactly(rule: Rule, calls: seq<Call>, c: Call)
    ensures var answer := Enforced(AfterCalls(rule, calls), rule, c).1;
            && (answer == Unavailable <==> c.failed.Some? && !c.databaseUp)
            && (answer == Passed <==>
                  if c.failed.None? then
                    forall x | x in c.subjects :: After(RedisTimes(calls, x) + [c.now], rule).value.count <= rule.limit
                  else
                    c.databaseUp && forall x | x in c.subjects ::
                      After(DatabaseTimes(calls, x) + [c.now], rule).value.count <= rule.limit)
  {
    var s := AfterCalls(rule, calls);
    forall x ensures
        && RunScript(Lookup(s.redis, x), rule, c.now).value == After(RedisTimes(calls, x) + [c.now], rule).value.count
        && Upsert(Lookup(s.buckets, x), rule, c.now).requestCount
           == After(DatabaseTimes(calls, x) + [c.now], rule).value.count
    {
      CountersOfSubject(rule, calls, x);
      CountersOfOneMore(rule, RedisTimes(calls, x), c.now);
      CountersOfOneMore(rule, DatabaseTimes(calls, x), c.now);
      BackendsAgree(RedisTimes(calls, x) + [c.now], rule);
      BackendsAgree(DatabaseTimes(calls, x) + [c.now], rule);
    }
    AnsweredExactly(s, rule, c);
    hide After, RunScript, Upsert, Enforced, AfterCalls, RedisTimes, DatabaseTimes;
  }

  lemma AnsweredExactly(s: Store, rule: Rule, c: Call)
    ensures var answer := Enforced(s, rule, c).1;
            && (answer == Unavailable <==> c.failed.Some? && !c.databaseUp)
            && (answer == Passed <==>
                  if c.failed.None? then
                    forall x | x in c.subjects :: RunScript(Lookup(s.redis, x), rule, c.now).value <= rule.limit
                  else
                    c.databaseUp && forall x | x in c.subjects ::
                      Upsert(Lookup(s.buckets, x), rule, c.now).requestCount <= rule.limit)
  {
    hide Deduplicated, RunScript, Upsert, ScriptAll, UpsertAll, Scripted;
    UniqueSubjects(c);
    var unique := Deduplicated(c.subjects);
    ScriptsAreIndependent(s.redis, Scripted(c), rule, c.now);
    UpsertsAreIndependent(s.buckets, unique, rule, c.now);
    assert forall i | 0 <= i < |unique| :: unique[i] in c.subjects;
    forall x | x in c.subjects ensures exists i :: 0 <= i < |unique| && unique[i] == x { assert x in unique; }
  }

  // -------------------------------------------------------------------- the service

  class AuthenticationRateLimiter {
    var redis: map<Id, RedisKey>
    var buckets: map<Id, Bucket>

    constructor ()
      ensures redis == map[] && buckets == map[]
    {
      redis, buckets := map[], map[];
    }

    /** None: Redis failed, after the scripts of the first `failed` subjects had run. */
    method CountInRedis(subjects: seq<Id>, rule: Rule, now: Time,
        failed: Option<nat>) returns (counts: Option<seq<nat>>)
      modifies `redis
      ensures var n := if failed.Some? && failed.value < |subjects| then failed.value else |subjects|;
              var (store, all) := ScriptAll(old(redis), subjects[..n], rule, now);
              redis == store && counts == if failed.None? then Some(all) else None
    {
      var collected: seq<nat> := [];
      var i := 0;
      while i < |subjects|
        invariant 0 <= i <= |subjects| && (failed.Some? ==> i <= failed.value || failed.value >= |subjects|)
        invariant (redis, collected) == ScriptAll(old(redis), subjects[..i], rule, now)
      {
        if failed.Some? && failed.value == i {
          return None;
        }
        assert subjects[..i + 1][..i] == subjects[..i];
        var key := RunScript(Lookup(redis, subjects[i]), rule, now);
        redis := redis[subjects[i] := key];
        collected := collected + [key.value];
        i := i + 1;
      }
      assert subjects[..i] == subjects;
      counts := if failed.Some? then None else Some(collected);
    }

    method CountInDatabase(subjects: seq<Id>, rule: Rule, now: Time) returns (counts: seq<nat>)
      modifies `buckets
      ensures (buckets, counts) == UpsertAll(old(buckets), subjects, rule, now)
    {
      counts := [];
      var i := 0;
      while i < |subjects|
        invariant 0 <= i <= |subjects|
        invariant (buckets, counts) == UpsertAll(old(buckets), subjects[..i], rule, now)
      {
        assert subjects[..i + 1][..i] == subjects[..i];
        var bucket := Upsert(Lookup(buckets, subjects[i]), rule, now);
        buckets := buckets[subjects[i] := bucket];
        counts := counts + [bucket.requestCount];
        i := i + 1;
      }
      assert subjects[..i] == subjects;
    }

    /** A database transaction that fails leaves nothing behind. */
    method Enforce(rule: Rule, subjects: seq<Id>, now: Time, failed: Option<nat>,
        databaseUp: bool) returns (answer: Answer)
      modifies this
      ensures (Store(redis, buckets), answer)
              == Enforced(Store(old(redis), old(buckets)), rule, Call(subjects, now, failed, databaseUp))
    {
      var unique := Deduplicated(subjects);
      assert unique[..|unique|] == unique;
      var fromRedis := CountInRedis(unique, rule, now, failed);
      var counts: seq<nat>;
      if fromRedis.Some? {
        counts := fromRedis.value;
      } else if databaseUp {
        counts := CountInDatabase(unique, rule, now);
      } else {
        return Unavailable;
      }
      answer := if AnyOver(counts, rule.limit) then Limited else Passed;
    }
  }
}
