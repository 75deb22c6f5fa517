/** The transactional outbox: relays claim, send and mark events; consumers deduplicate.

    Any number of relays run at once and may stop at any point; a claim they leave behind is
    recovered later, so an event can be sent more than once and by several relays. */
module Outbox {
  import opened Core

  datatype Status = Pending | Publishing | Published

  datatype Problem = SendFailed | StaleClaimRecovered

  /** `body`: type, schema version, aggregate, time, trace and payload; written once. */
  datatype Event = Event(
    body: nat,
    status: Status,
    attempts: nat,
    availableAt: Time,
    lockedAt: Option<Time>,
    publishedAt: Option<Time>,
    problem: Option<Problem>)

  datatype Envelope = Envelope(event: Id, body: nat)

  /** Where a relay is with one event it claimed. */
  datatype Stage = Claimed | Fetched(envelope: Envelope) | Told(acknowledged: bool) | Done
  datatype Job = Job(event: Id, stage: Stage)

  datatype Effect = Effect(consumer: nat, event: Id, body: nat)
  datatype Marker = Marker(consumer: nat, event: Id)

  /** `sent`: every envelope the queue ever accepted, once per acceptance. */
  datatype State = State(
    clock: Time,
    events: seq<Event>,
    jobs: seq<Job>,
    sent: seq<Envelope>,
    markers: set<Marker>,
    effects: seq<Effect>)

  // -------------------------------------------------------------------- claiming

  predicate Due(e: Event, now: Time) {
    e.status == Pending && e.availableAt <= now
  }

  predicate Selectable(events: seq<Event>, locked: set<Id>, now: Time, id: Id) {
    id < |events| && Due(events[id], now) && id !in locked
  }

  /** ORDER BY available_at, id. */
  predicate Before(events: seq<Event>, i: Id, j: Id)
    requires i < |events| && j < |events|
  {
    events[i].availableAt < events[j].availableAt || (events[i].availableAt == events[j].availableAt && i < j)
  }

  function FirstDue(events: seq<Event>, locked: set<Id>, now: Time, n: nat): (r: Option<Id>)
    requires n <= |events|
    ensures r.Some? ==> r.value < n && Selectable(events, locked, now, r.value)
                        && forall i | 0 <= i < n && i != r.value && Selectable(events, locked, now, i) ::
                            Before(events, r.value, i)
    ensures r.None? ==> forall i | 0 <= i < n :: !Selectable(events, locked, now, i)
  {
    if n == 0 then None
    else
      var rest := FirstDue(events, locked, now, n - 1);
      if Selectable(events, locked, now, n - 1) && (rest.None? || Before(events, n - 1, rest.value)) then Some(n - 1)
          else rest
  }

  /** The first `limit` due rows that no other transaction has locked. */
  function Pick(events: seq<Event>, locked: set<Id>, now: Time, limit: nat): seq<Id>
    decreases limit
  {
    if limit == 0 then []
    else
      var first := FirstDue(events, locked, now, |events|);
      if first.None? then [] else [first.value] + Pick(events, locked + {first.value}, now, limit - 1)
  }

  function Claim(e: Event, now: Time): Event {
    e.(status := Publishing, lockedAt := Some(now), attempts := e.attempts + 1)
  }

  function ClaimAll(events: seq<Event>, ids: seq<Id>, now: Time): (later: seq<Event>)
    ensures |later| == |events|
    decreases |ids|
  {
    if ids == [] then events
    else
      var last := ids[|ids| - 1];
      var rest := ClaimAll(events, ids[..|ids| - 1], now);
      if last < |rest| then rest[last := Claim(rest[last], now)] else rest
  }

  function JobsFor(ids: seq<Id>): (jobs: seq<Job>)
    ensures |jobs| == |ids| && forall i | 0 <= i < |ids| :: jobs[i] == Job(ids[i], Claimed)
  {
    if ids == [] then [] else JobsFor(ids[..|ids| - 1]) + [Job(ids[|ids| - 1], Claimed)]
  }

  function ClaimBatch(s: State, locked: set<Id>, limit: nat): State {
    var ids := Pick(s.events, locked, s.clock, limit);
    s.(events := ClaimAll(s.events, ids, s.clock), jobs := s.jobs + JobsFor(ids))
  }

  // -------------------------------------------------------------------- publishing

  function Power(n: nat): nat { if n == 0 then 1 else 2 * Power(n - 1) }
  function Min(a: int, b: int): int { if a <= b then a else b }

  function Backoff(attempts: nat): int { Min(300, Power(Min(attempts, 8))) }

  function Failed(e: Event, now: Time): Event {
    if e.status != Publishing then e
    else e.(status := Pending, availableAt := now + Backoff(e.attempts), lockedAt := None, problem := Some(SendFailed))
  }

  function Marked(e: Event, now: Time): Event {
    if e.status != Publishing then e
    else e.(status := Published, publishedAt := Some(now), lockedAt := None, problem := None)
  }

  function Recovered(e: Event, now: Time, olderThan: nat): Event {
    if e.status == Publishing && e.lockedAt.Some? && e.lockedAt.value < now - olderThan
    then e.(status := Pending, lockedAt := None, availableAt := now, problem := Some(StaleClaimRecovered)) else e
  }

  function RecoverAll(events: seq<Event>, now: Time, olderThan: nat): (later: seq<Event>)
    ensures |later| == |events| && forall i | 0 <= i < |events| :: later[i] == Recovered(events[i], now, olderThan)
  {
    if events == [] then []
    else RecoverAll(events[..|events| - 1], now, olderThan) + [Recovered(events[|events| - 1], now, olderThan)]
  }

  /** One transaction or one call to the queue by the relay holding `job`. `accepted`: the queue
      took the message; `acknowledged`: the relay learnt that it did. */
  function Advance(s: State, job: Id, accepted: bool, acknowledged: bool): State {
    if job >= |s.jobs| || s.jobs[job].event >= |s.events| then s
    else
      var j := s.jobs[job];
      var e := s.events[j.event];
      match j.stage
      case Claimed =>
        s.(jobs := s.jobs[job := j.(stage := if e.status == Publishing then Fetched(Envelope(j.event, e.body))
            else Done)])
      case Fetched(envelope) =>
        s.(jobs := s.jobs[job := j.(stage := Told(accepted && acknowledged))],
           sent := if accepted then s.sent + [envelope] else s.sent)
      case Told(ok) =>
        s.(jobs := s.jobs[job := j.(stage := Done)],
           events := s.events[j.event := if ok then Marked(e, s.clock) else Failed(e, s.clock)])
      case Done => s
  }

  // -------------------------------------------------------------------- consuming

  datatype Processing = Processed | Duplicate | HandlerFailed

  /** Marker and handler effect commit together or not at all. */
  function Consume(s: State, consumer: nat, envelope: Envelope, handled: bool): (State, Processing) {
    var marker := Marker(consumer, envelope.event);
    if marker in s.markers then (s, Duplicate)
    else if !handled then (s, HandlerFailed)
    else (s.(markers := s.markers + {marker},
        effects := s.effects + [Effect(consumer, envelope.event, envelope.body)]), Processed)
  }

  // -------------------------------------------------------------------- runs

  datatype Action =
    | Enqueue(body: nat)
    | ClaimSome(locked: set<Id>, limit: nat)
    | Work(job: Id, accepted: bool, acknowledged: bool)
    | Recover(olderThan: nat)
    | Deliver(message: nat, consumer: nat, handled: bool)
    | Tick(seconds: nat)

  function Step(s: State, a: Action): State {
    match a
    case Enqueue(body) => s.(events := s.events + [Event(body, Pending, 0, s.clock, None, None, None)])
    case ClaimSome(locked, limit) => ClaimBatch(s, locked, limit)
    case Work(job, accepted, acknowledged) => Advance(s, job, accepted, acknowledged)
    case Recover(olderThan) => s.(events := RecoverAll(s.events, s.clock, olderThan))
    case Deliver(message, consumer, handled) =>
      if message < |s.sent| then Consume(s, consumer, s.sent[message], handled).0 else s
    case Tick(d) => s.(clock := s.clock + d)
  }

  function Run(s: State, actions: seq<Action>): State
    decreases |actions|
  {
    if actions == [] then s else Run(Step(s, actions[0]), actions[1..])
  }

  function Initial(clock: Time): State {
    State(clock, [], [], [], {}, [])
  }

  // -------------------------------------------------------------------- what a batch is

  ghost predicate Distinct(ids: seq<Id>) {
    forall i, j | 0 <= i < j < |ids| :: ids[i] != ids[j]
  }

  /** A batch holds due, unlocked rows, each once and in order, and leaves out only rows that come
      after everything in it, or nothing at all when it is not full. */
  lemma {:induction false} BatchIsFirstDue(events: seq<Event>, locked: set<Id>, now: Time, limit: nat, other: Id)
    ensures var ids := Pick(events, locked, now, limit);
            && |ids| <= limit && Distinct(ids)
            && (forall i | 0 <= i < |ids| :: Selectable(events, locked, now, ids[i]))
            && (forall i, j | 0 <= i < j < |ids| :: Before(events, ids[i], ids[j]))
            && (Selectable(events, locked, now, other) && other !in ids ==>
                  |ids| == limit && forall i | 0 <= i < |ids| :: Before(events, ids[i], other))
    decreases limit
  {
    if limit > 0 {
      var first := FirstDue(events, locked, now, |events|);
      if first.Some? {
        var rest := Pick(events, locked + {first.value}, now, limit - 1);
        BatchIsFirstDue(events, locked + {first.value}, now, limit - 1, other);
        forall i | 0 <= i < |rest| ensures Selectable(events, locked, now, rest[i]) && rest[i] != first.value {
          assert Selectable(events, locked + {first.value}, now, rest[i]);
        }
        assert Pick(events, locked, now, limit) == [first.value] + rest;
        if Selectable(events, locked, now, other) && other !in [first.value] + rest {
          assert ([first.value] + rest)[0] == first.value;
          assert forall i | 0 <= i < |rest| :: ([first.value] + rest)[i + 1] == rest[i];
          assert other !in rest && other != first.value;
          assert Selectable(events, locked + {first.value}, now, other);
        }
      }
    }
  }

  /** Longest due first, and rows due since the same moment in the order they were written. */
  lemma LongestDueFirst(events: seq<Event>, locked: set<Id>, now: Time, limit: nat, i: nat, other: Id)
    requires i < |Pick(events, locked, now, limit)| && other < |events|
    requires events[other].status == Pending && events[other].availableAt <= now && other !in locked
    requires forall k | 0 <= k <= i :: Pick(events, locked, now, limit)[k] != other
    ensures var id := Pick(events, locked, now, limit)[i];
            && id < |events| && events[id].status == Pending && events[id].availableAt <= now
            && events[id].availableAt <= events[other].availableAt
            && (events[id].availableAt == events[other].availableAt ==> id < other)
  {
    BatchIsFirstDue(events, locked, now, limit, other);
    hide Pick;
    var ids := Pick(events, locked, now, limit);
    assert Selectable(events, locked, now, ids[i]) && Selectable(events, locked, now, other);
    if other in ids {
      var k :| 0 <= k < |ids| && ids[k] == other;
      assert i < k;
    }
    assert Before(events, ids[i], other);
  }

  /** Claiming touches exactly the picked rows, each once. */
  lemma {:induction false} ClaimAllRows(events: seq<Event>, ids: seq<Id>, now: Time)
    requires Distinct(ids) && forall i | 0 <= i < |ids| :: ids[i] < |events|
    ensures forall e | 0 <= e < |events| ::
              ClaimAll(events, ids, now)[e] == if e in ids then Claim(events[e], now) else events[e]
    decreases |ids|
  {
    if ids != [] {
      var n := |ids| - 1;
      ClaimAllRows(events, ids[..n], now);
      assert forall e :: e in ids <==> e in ids[..n] || e == ids[n];
      assert ids[n] !in ids[..n];
    }
  }

  /** Delays double from 2 to 256 seconds and stay there: the cap of 300 is never reached. */
  lemma BackoffDoublesUpTo256(attempts: nat)
    requires attempts >= 1
    ensures 2 <= Backoff(attempts) <= 256
    ensures Backoff(attempts) == Power(Min(attempts, 8))
    ensures attempts < 8 ==> Backoff(attempts + 1) == 2 * Backoff(attempts)
    ensures attempts >= 8 ==> Backoff(attempts) == 256
  {
    PowerGrows(Min(attempts, 8), 8);
    PowerGrows(1, Min(attempts, 8));
    assert Power(8) == 256 by { assert Power(4) == 16; }
  }

  lemma {:induction false} PowerGrows(m: nat, n: nat)
    requires m <= n
    ensures 1 <= Power(m) <= Power(n)
    decreases n
  {
    if m < n { PowerGrows(m, n - 1); } else if m > 0 { PowerGrows(m - 1, n - 1); }
  }

  // -------------------------------------------------------------------- invariant

  ghost predicate EventValid(s: State, id: Id)
    requires id < |s.events|
  {
    var e := s.events[id];
    match e.status
    case Pending => e.lockedAt.None? && e.publishedAt.None?
    case Publishing => e.lockedAt.Some? && e.lockedAt.value <= s.clock && e.publishedAt.None? && e.attempts >= 1
    case Published => e.lockedAt.None? && e.publishedAt.Some? && e.attempts >= 1 && Envelope(id, e.body) in s.sent
  }

  ghost predicate Genuine(s: State, w: Envelope) {
    w.event < |s.events| && w.body == s.events[w.event].body
  }

  ghost predicate JobValid(s: State, j: Job) {
    && j.event < |s.events|
    && (j.stage.Fetched? ==> j.stage.envelope == Envelope(j.event, s.events[j.event].body))
    && (j.stage == Told(true) ==> Envelope(j.event, s.events[j.event].body) in s.sent)
  }

  /** One effect per marker, and what took effect is what was enqueued. */
  ghost predicate EffectsValid(s: State) {
    && (forall i | 0 <= i < |s.effects| ::
          && Envelope(s.effects[i].event, s.effects[i].body) in s.sent
          && Marker(s.effects[i].consumer, s.effects[i].event) in s.markers)
    && (forall i, j | 0 <= i < |s.effects| && 0 <= j < |s.effects| && i != j ::
          s.effects[i].consumer != s.effects[j].consumer || s.effects[i].event != s.effects[j].event)
  }

  ghost predicate Inv(s: State) {
    && (forall e | 0 <= e < |s.events| :: EventValid(s, e))
    && (forall j | 0 <= j < |s.jobs| :: JobValid(s, s.jobs[j]))
    && (forall w | 0 <= w < |s.sent| :: Genuine(s, s.sent[w]))
    && EffectsValid(s)
  }

  ghost predicate EventContinues(a: Event, b: Event) {
    && b.body == a.body && a.attempts <= b.attempts
    && (a.status == Published ==> b == a)
    && (a.status == Pending && b.status != Pending ==> a.attempts < b.attempts)
  }

  ghost predicate Continues(s: State, t: State) {
    && s.clock <= t.clock
    && |s.events| <= |t.events| && (forall e | 0 <= e < |s.events| :: EventContinues(s.events[e], t.events[e]))
    && s.sent <= t.sent && s.effects <= t.effects && s.markers <= t.markers
  }

  /** The event rows changed and nothing else did, except that time may have passed. */
  lemma EventsOnly(s: State, t: State)
    requires Inv(s) && t == s.(clock := t.clock, events := t.events) && s.clock <= t.clock
    requires |s.events| <= |t.events| && forall e | 0 <= e < |s.events| :: EventContinues(s.events[e], t.events[e])
    requires forall e | 0 <= e < |t.events| :: EventValid(t, e)
    ensures Inv(t) && Continues(s, t)
  {
    hide EventValid;
    forall j | 0 <= j < |t.jobs| ensures JobValid(t, t.jobs[j]) { assert JobValid(s, s.jobs[j]); }
    forall w | 0 <= w < |t.sent| ensures Genuine(t, t.sent[w]) { assert Genuine(s, s.sent[w]); }
  }

  lemma EventsLater(s: State, t: State)
    requires Inv(s) && s.events == t.events && s.clock <= t.clock && s.sent <= t.sent
    ensures forall e | 0 <= e < |t.events| :: EventValid(t, e)
  {
    forall e | 0 <= e < |t.events| ensures EventValid(t, e) { assert EventValid(s, e); }
  }

  lemma ClaimStep(s: State, locked: set<Id>, limit: nat)
    requires Inv(s)
    ensures Inv(ClaimBatch(s, locked, limit)) && Continues(s, ClaimBatch(s, locked, limit))
  {
    var ids := Pick(s.events, locked, s.clock, limit);
    BatchIsFirstDue(s.events, locked, s.clock, limit, 0);
    ClaimAllRows(s.events, ids, s.clock);
    hide Pick, ClaimAll;
    var mid := s.(events := ClaimAll(s.events, ids, s.clock));
    forall e | 0 <= e < |s.events| ensures EventValid(mid, e) && EventContinues(s.events[e], mid.events[e]) {
      assert EventValid(s, e);
      if e in ids {
        var i :| 0 <= i < |ids| && ids[i] == e;
        assert Selectable(s.events, locked, s.clock, ids[i]);
      }
    }
    EventsOnly(s, mid);
    NewJobs(mid, JobsFor(ids));
  }

  lemma NewJobs(s: State, jobs: seq<Job>)
    requires Inv(s) && forall i | 0 <= i < |jobs| :: jobs[i].event < |s.events| && jobs[i].stage == Claimed
    ensures Inv(s.(jobs := s.jobs + jobs))
  {
    var t := s.(jobs := s.jobs + jobs);
    EventsLater(s, t);
    forall j | 0 <= j < |t.jobs| ensures JobValid(t, t.jobs[j]) { if j < |s.jobs| { assert JobValid(s, s.jobs[j]); } }
    hide EventValid, JobValid;
    assert forall w | 0 <= w < |s.sent| :: Genuine(s, s.sent[w]);
  }

  lemma MarkStep(s: State, job: Id)
    requires Inv(s) && job < |s.jobs| && s.jobs[job].stage.Told? && s.jobs[job].event < |s.events|
    ensures Inv(Advance(s, job, false, false)) && Continues(s, Advance(s, job, false, false))
  {
    var j := s.jobs[job];
    var e := s.events[j.event];
    assert EventValid(s, j.event) && JobValid(s, j);
    var mid := s.(events := s.events[j.event := if j.stage.acknowledged then Marked(e, s.clock)
        else Failed(e, s.clock)]);
    forall i | 0 <= i < |s.events| ensures EventValid(mid, i) && EventContinues(s.events[i], mid.events[i]) {
      assert EventValid(s, i);
    }
    EventsOnly(s, mid);
    hide EventValid, Marked, Failed;
    OneJob(mid, job, j.(stage := Done), mid.sent);
  }

  /** One relay moved on; the queue may have accepted one more genuine envelope. */
  lemma OneJob(s: State, job: Id, j: Job, sent: seq<Envelope>)
    requires Inv(s) && job < |s.jobs| && s.sent <= sent
    requires forall w | |s.sent| <= w < |sent| :: Genuine(s, sent[w])
    requires JobValid(s.(sent := sent), j)
    ensures var t := s.(jobs := s.jobs[job := j], sent := sent); Inv(t) && Continues(s, t)
  {
    var t := s.(jobs := s.jobs[job := j], sent := sent);
    EventsLater(s, t);
    hide EventValid;
    forall i | 0 <= i < |t.jobs| ensures JobValid(t, t.jobs[i]) {
      if i != job { assert JobValid(s, s.jobs[i]); }
    }
    forall w | 0 <= w < |sent| ensures Genuine(t, t.sent[w]) { if w < |s.sent| { assert Genuine(s, s.sent[w]); } }
    hide Genuine, JobValid;
  }

  lemma WorkStep(s: State, job: Id, accepted: bool, acknowledged: bool)
    requires Inv(s)
    ensures Inv(Advance(s, job, accepted, acknowledged)) && Continues(s, Advance(s, job, accepted, acknowledged))
  {
    if job < |s.jobs| {
      var j := s.jobs[job];
      assert JobValid(s, j);
      hide EventValid, EffectsValid, Marked, Failed;
      match j.stage
      case Claimed =>
        var e := s.events[j.event];
        OneJob(s, job, j.(stage := if e.status == Publishing then Fetched(Envelope(j.event, e.body)) else Done),
            s.sent);
      case Fetched(envelope) =>
        OneJob(s, job, j.(stage := Told(accepted && acknowledged)), if accepted then s.sent + [envelope] else s.sent);
      case Told(_) => hide Inv, Continues; MarkStep(s, job);
      case Done =>
    }
  }

  lemma DeliverStep(s: State, message: nat, consumer: nat, handled: bool)
    requires Inv(s)
    ensures var t := Step(s, Deliver(message, consumer, handled)); Inv(t) && Continues(s, t)
  {
    var t := Step(s, Deliver(message, consumer, handled));
    EventsLater(s, t);
    hide EventValid;
    forall j | 0 <= j < |t.jobs| ensures JobValid(t, t.jobs[j]) { assert JobValid(s, s.jobs[j]); }
    forall w | 0 <= w < |t.sent| ensures Genuine(t, t.sent[w]) { assert Genuine(s, s.sent[w]); }
    hide JobValid, Genuine;
    if message < |s.sent| { assert Envelope(s.sent[message].event, s.sent[message].body) == s.sent[message]; }
  }

  lemma StepKeeps(s: State, a: Action)
    requires Inv(s)
    ensures Inv(Step(s, a)) && Continues(s, Step(s, a))
  {
    match a
    case Enqueue(body) =>
      var t := Step(s, a);
      hide EffectsValid;
      forall e | 0 <= e < |t.events| ensures EventValid(t, e) { if e < |s.events| { assert EventValid(s, e); } }
      EventsOnly(s, t);
    case ClaimSome(locked, limit) => hide Inv, Continues, ClaimBatch; ClaimStep(s, locked, limit);
    case Work(job, accepted, acknowledged) => hide Inv, Continues, Advance; WorkStep(s, job, accepted, acknowledged);
    case Recover(olderThan) =>
      var t := Step(s, a);
      hide EffectsValid;
      forall e | 0 <= e < |t.events| ensures EventValid(t, e) { assert EventValid(s, e); }
      EventsOnly(s, t);
    case Deliver(message, consumer, handled) => hide Inv, Continues; DeliverStep(s, message, consumer, handled);
    case Tick(d) =>
      hide EffectsValid;
      EventsLater(s, Step(s, a));
      EventsOnly(s, Step(s, a));
  }

  lemma ContinuesTransitive(s: State, t: State, u: State)
    requires Continues(s, t) && Continues(t, u)
    ensures Continues(s, u)
  {
    forall e | 0 <= e < |s.events| ensures EventContinues(s.events[e], u.events[e]) {
      assert EventContinues(s.events[e], t.events[e]) && EventContinues(t.events[e], u.events[e]);
    }
  }

  lemma {:induction false} RunKeeps(s: State, actions: seq<Action>)
    requires Inv(s)
    ensures Inv(Run(s, actions)) && Continues(s, Run(s, actions))
    decreases |actions|
  {
    if actions == [] {
    } else {
      hide Step, Inv, Continues;
      StepKeeps(s, actions[0]);
      RunKeeps(Step(s, actions[0]), actions[1..]);
      ContinuesTransitive(s, Step(s, actions[0]), Run(s, actions));
    }
  }

  lemma Reachable(clock: Time, actions: seq<Action>)
    ensures Inv(Run(Initial(clock), actions))
  {
    RunKeeps(Initial(clock), actions);
  }

  // -------------------------------------------------------------------- what a reader may rely on

  /** Across relays, crashes, recoveries and redeliveries: a published event was sent and stays
      published; what was sent is what was enqueued; whatever a consumer did, it did for a sent
      event, with the enqueued content, and it does it at most once ever. */
  lemma AtMostOnceEffects(clock: Time, before: seq<Action>, after: seq<Action>, event: Id, i: nat, j: nat)
    requires var s := Run(Initial(clock), before); event < |s.events| && i < |s.effects|
    requires j < |Run(Run(Initial(clock), before), after).effects|
    ensures var s := Run(Initial(clock), before);
            var t := Run(s, after);
            && (s.events[event].status == Published ==>
                  event < |t.events| && t.events[event] == s.events[event]
                      && Envelope(event, s.events[event].body) in s.sent)
            && Genuine(s, Envelope(s.effects[i].event, s.effects[i].body))
            && (t.effects[j].consumer == s.effects[i].consumer && t.effects[j].event == s.effects[i].event ==> i == j)
  {
    var s := Run(Initial(clock), before);
    Reachable(clock, before);
    RunKeeps(s, after);
    var t := Run(s, after);
    hide Run;
    assert EventValid(s, event) && EventContinues(s.events[event], t.events[event]);
    var w :| 0 <= w < |s.sent| && s.sent[w] == Envelope(s.effects[i].event, s.effects[i].body);
    assert t.effects[i] == s.effects[i];
    assert EffectsValid(t);
    assert Genuine(s, s.sent[w]);
  }

  /** Delivering an envelope again, after anything else, does nothing. */
  lemma RedeliveryIsDuplicate(s: State, consumer: nat, envelope: Envelope, actions: seq<Action>, handled: bool)
    requires Inv(s) && envelope in s.sent
    ensures var (first, out) := Consume(s, consumer, envelope, true);
            var t := Run(first, actions);
            && out != HandlerFailed
            && Consume(t, consumer, envelope, handled) == (t, Duplicate)
  {
    var first := Consume(s, consumer, envelope, true).0;
    var message :| 0 <= message < |s.sent| && s.sent[message] == envelope;
    assert Step(s, Deliver(message, consumer, true)) == first;
    DeliverStep(s, message, consumer, true);
    RunKeeps(first, actions);
    hide Run, Inv;
  }

  function Others(n: nat, id: Id): (others: set<Id>)
    ensures forall i: Id :: i in others <==> i < n && i != id
  {
    if n == 0 then {} else Others(n - 1, id) + (if n - 1 != id then {n - 1} else {})
  }

  lemma {:induction false} RunTwice(s: State, a: seq<Action>, b: seq<Action>)
    ensures Run(s, a + b) == Run(Run(s, a), b)
    decreases |a|
  {
    if a == [] {
      assert [] + b == b;
    } else {
      assert (a + b)[0] == a[0] && (a + b)[1..] == a[1..] + b;
      RunTwice(Step(s, a[0]), a[1..], b);
    }
  }

  /** From a due event, one relay that claims it, sends it and hears back publishes it. */
  lemma DueCanBePublished(s: State, id: Id)
    requires id < |s.events| && Due(s.events[id], s.clock)
    ensures var job := |s.jobs|;
            var t := Run(s, [ClaimSome(Others(|s.events|, id), 1), Work(job, true, true), Work(job, true, true),
                Work(job, true, true)]);
            id < |t.events| && t.events[id].status == Published
  {
    var job := |s.jobs|;
    var locked := Others(|s.events|, id);
    PicksTheOne(s, id);
    assert [id][..0] == [];
    assert ClaimAll(s.events, [], s.clock) == s.events;
    var s1 := Step(s, ClaimSome(locked, 1));
    assert s1.jobs[job] == Job(id, Claimed) && s1.events[id].status == Publishing;
    var s2 := Step(s1, Work(job, true, true));
    var s3 := Step(s2, Work(job, true, true));
    var s4 := Step(s3, Work(job, true, true));
    assert s4.events[id].status == Published;
    hide Step;
    FourSteps(s, s1, s2, s3, s4, ClaimSome(locked, 1), Work(job, true, true), Work(job, true, true),
        Work(job, true, true));
  }

  lemma FourSteps(s: State, s1: State, s2: State, s3: State, s4: State, a: Action, b: Action, c: Action, d: Action)
    requires s1 == Step(s, a) && s2 == Step(s1, b) && s3 == Step(s2, c) && s4 == Step(s3, d)
    ensures Run(s, [a, b, c, d]) == s4
  {
    hide Step;
    assert [a, b, c, d][1..] == [b, c, d] && [b, c, d][1..] == [c, d] && [c, d][1..] == [d] && [d][1..] == [];
    assert Run(s4, []) == s4;
    assert Run(s3, [d]) == s4;
    assert Run(s2, [c, d]) == s4;
    assert Run(s1, [b, c, d]) == s4;
  }

  lemma PicksTheOne(s: State, id: Id)
    requires id < |s.events| && Due(s.events[id], s.clock)
    ensures Pick(s.events, Others(|s.events|, id), s.clock, 1) == [id]
  {
    var locked := Others(|s.events|, id);
    var first := FirstDue(s.events, locked, s.clock, |s.events|);
    assert Selectable(s.events, locked, s.clock, id);
    assert first.Some? && first.value !in locked;
    assert Pick(s.events, locked + {id}, s.clock, 0) == [];
  }

  /** Nothing is ever lost: whatever crashed in whatever order, every event that is not published
      yet can still be, once stale claims are recovered and a relay runs. */
  lemma NothingIsStuck(s: State, id: Id, olderThan: nat) returns (actions: seq<Action>)
    requires Inv(s) && id < |s.events|
    ensures var t := Run(s, actions); id < |t.events| && t.events[id].status == Published
  {
    assert EventValid(s, id);
    hide Inv;
    if s.events[id].status == Published {
      actions := [];
    } else {
      var wait: nat := if s.events[id].status == Pending
                       then (if s.events[id].availableAt > s.clock then s.events[id].availableAt - s.clock else 0)
                       else olderThan + 1;
      var later := Step(s, Tick(wait));
      var due := Step(later, Recover(olderThan));
      assert Due(due.events[id], due.clock);
      DueCanBePublished(due, id);
      var job := |due.jobs|;
      var rest := [ClaimSome(Others(|due.events|, id), 1), Work(job, true, true), Work(job, true, true),
          Work(job, true, true)];
      actions := [Tick(wait), Recover(olderThan)] + rest;
      hide Step;
      RunTwice(s, [Tick(wait), Recover(olderThan)], rest);
      assert [Tick(wait), Recover(olderThan)][1..] == [Recover(olderThan)] && [Recover(olderThan)][1..] == [];
      assert Run(due, []) == due;
      assert Run(later, [Recover(olderThan)]) == due;
    }
  }

  // -------------------------------------------------------------------- the relay and the consumer

  class OutboxRelay {
    var clock: Time
    var events: seq<Event>
    var jobs: seq<Job>
    var sent: seq<Envelope>
    var markers: set<Marker>
    var effects: seq<Effect>

    ghost function Db(): State
      reads this
    {
      State(clock, events, jobs, sent, markers, effects)
    }

    constructor (clock: Time)
      ensures Db() == Initial(clock)
    {
      this.clock := clock;
      events, jobs, sent, markers, effects := [], [], [], {}, [];
    }

    method ClaimDue(locked: set<Id>, limit: nat) returns (ids: seq<Id>)
      modifies `events, `jobs
      ensures ids == Pick(old(events), locked, clock, limit)
      ensures Db() == ClaimBatch(old(Db()), locked, limit)
    {
      ids := Pick(events, locked, clock, limit);
      BatchIsFirstDue(events, locked, clock, limit, 0);
      var i := 0;
      while i < |ids|
        invariant 0 <= i <= |ids| && |events| == |old(events)|
        invariant events == ClaimAll(old(events), ids[..i], clock)
        invariant jobs == old(jobs) + JobsFor(ids[..i])
        invariant forall k | 0 <= k < |ids| :: ids[k] < |events|
      {
        assert ids[..i + 1][..i] == ids[..i];
        var event := events[ids[i]];
        event := event.(status := Publishing, lockedAt := Some(clock), attempts := event.attempts + 1);
        events := events[ids[i] := event];
        jobs := jobs + [Job(ids[i], Claimed)];
        i := i + 1;
      }
      assert ids[..i] == ids;
    }

    /** One step of `_publish_one` for the event of `job`. */
    method Work(job: Id, accepted: bool, acknowledged: bool)
      modifies `events, `jobs, `sent
      ensures Db() == Advance(old(Db()), job, accepted, acknowledged)
    {
      if job >= |jobs| || jobs[job].event >= |events| {
        return;
      }
      var j := jobs[job];
      var event := events[j.event];
      match j.stage {
        case Claimed =>
          if event.status != Publishing {
            jobs := jobs[job := j.(stage := Done)];
          } else {
            jobs := jobs[job := j.(stage := Fetched(Envelope(j.event, event.body)))];
          }
        case Fetched(envelope) =>
          if accepted {
            sent := sent + [envelope];
          }
          jobs := jobs[job := j.(stage := Told(accepted && acknowledged))];
        case Told(ok) =>
          if event.status == Publishing {
            if ok {
              event := event.(status := Published, publishedAt := Some(clock));
              event := event.(lockedAt := None, problem := None);
            } else {
              var delay := Min(300, Power(Min(event.attempts, 8)));
              event := event.(status := Pending, availableAt := clock + delay);
              event := event.(lockedAt := None, problem := Some(SendFailed));
            }
          }
          events := events[j.event := event];
          jobs := jobs[job := j.(stage := Done)];
        case Done =>
      }
    }

    method RecoverStaleClaims(olderThan: nat)
      modifies `events
      ensures Db() == Step(old(Db()), Recover(olderThan))
    {
      var i := 0;
      while i < |events|
        invariant 0 <= i <= |events| == |old(events)|
        invariant forall k | 0 <= k < i :: events[k] == Recovered(old(events)[k], clock, olderThan)
        invariant forall k | i <= k < |events| :: events[k] == old(events)[k]
      {
        var event := events[i];
        if event.status == Publishing && event.lockedAt.Some? && event.lockedAt.value < clock - olderThan {
          event := event.(status := Pending, lockedAt := None, availableAt := clock,
              problem := Some(StaleClaimRecovered));
          events := events[i := event];
        }
        i := i + 1;
      }
      assert events == RecoverAll(old(events), clock, olderThan);
    }

    /** `handled` is false when the handler raises, which rolls the marker back. */
    method Process(consumer: nat, envelope: Envelope, handled: bool) returns (result: Processing)
      modifies `markers, `effects
      ensures (Db(), result) == Consume(old(Db()), consumer, envelope, handled)
    {
      var marker := Marker(consumer, envelope.event);
      if marker in markers {
        return Duplicate;
      }
      if !handled {
        return HandlerFailed;
      }
      markers := markers + {marker};
      effects := effects + [Effect(consumer, envelope.event, envelope.body)];
      result := Processed;
    }
  }
}
