/** Idempotency records: reserved, acted upon and completed in one transaction.

    The record's insert makes every other transaction with the same key wait until this one has
    committed or rolled back; a rolled-back reservation was never there. */
module Idempotency {
  import opened Core

  datatype Key = Key(scope: string, operation: string, key: string)

  /** `hash`: SHA-256 of method, path and payload in canonical JSON. */
  datatype Record = Record(hash: string, completed: bool, response: Option<nat>, expiresAt: Time)

  datatype Reservation = Acquired | Replay(body: Option<nat>) | Conflict

  function Reserve(records: map<Key, Record>, key: Key, hash: string, expiresAt: Time): (map<Key, Record>,
      Reservation) {
    if key !in records then (records[key := Record(hash, false, None, expiresAt)], Acquired)
    else if records[key].hash != hash then (records, Conflict)
    else (records, Replay(records[key].response))
  }

  /** UPDATE ... WHERE state = 'reserved'. */
  function Complete(records: map<Key, Record>, key: Key, response: nat): map<Key, Record> {
    if key in records && !records[key].completed
        then records[key := records[key].(completed := true, response := Some(response))]
    else records
  }

  // -------------------------------------------------------------------- transactions

  datatype Stage =
    | Waiting | Holding(own: Record) | Answered(reservation: Reservation) | Committed(response: nat) | RolledBack

  datatype Request = Request(key: Key, hash: string, ttl: nat, stage: Stage)

  /** What a transaction did for the caller: one line per committed effect. */
  datatype Effect = Effect(key: Key, hash: string, response: nat)

  /** `records`: what is committed. A reservation that is not is in the request that holds it. */
  datatype State = State(clock: Time, records: map<Key, Record>, requests: seq<Request>, effects: seq<Effect>)

  /** Some transaction has inserted the key and not ended yet. */
  predicate Blocked(s: State, key: Key) {
    exists i :: 0 <= i < |s.requests| && s.requests[i].key == key && s.requests[i].stage.Holding?
  }

  function TryReserve(s: State, i: Id): State
    requires i < |s.requests|
  {
    var r := s.requests[i];
    if !r.stage.Waiting? || Blocked(s, r.key) then s
    else
      var (records, out) := Reserve(s.records, r.key, r.hash, s.clock + r.ttl);
      s.(requests := s.requests[i := r.(stage := if out.Acquired? then Holding(records[r.key]) else Answered(out))])
  }

  /** The operation itself, `complete`, and the commit. */
  function Commit(s: State, i: Id, response: nat): State
    requires i < |s.requests|
  {
    var r := s.requests[i];
    if !r.stage.Holding? then s
    else
      s.(records := Complete(s.records[r.key := r.stage.own], r.key, response),
         requests := s.requests[i := r.(stage := Committed(response))],
         effects := s.effects + [Effect(r.key, r.hash, response)])
  }

  function RollBack(s: State, i: Id): State
    requires i < |s.requests|
  {
    var r := s.requests[i];
    if r.stage.Holding? || r.stage.Waiting? then s.(requests := s.requests[i := r.(stage := RolledBack)]) else s
  }

  datatype Action =
    | Arrive(key: Key, hash: string, ttl: nat)
    | Proceed(request: Id)
    | Finish(request: Id, response: nat)
    | Fail(request: Id)
    | Tick(seconds: nat)

  function Step(s: State, a: Action): State {
    match a
    case Arrive(key, hash, ttl) => s.(requests := s.requests + [Request(key, hash, ttl, Waiting)])
    case Proceed(i) => if i < |s.requests| then TryReserve(s, i) else s
    case Finish(i, response) => if i < |s.requests| then Commit(s, i, response) else s
    case Fail(i) => if i < |s.requests| then RollBack(s, i) else s
    case Tick(d) => s.(clock := s.clock + d)
  }

  function Run(s: State, actions: seq<Action>): State
    decreases |actions|
  {
    if actions == [] then s else Run(Step(s, actions[0]), actions[1..])
  }

  function Initial(clock: Time): State {
    State(clock, map[], [], [])
  }

  // -------------------------------------------------------------------- invariant

  ghost predicate HasEffect(effects: seq<Effect>, key: Key, r: Record) {
    exists i :: 0 <= i < |effects| && effects[i].key == key && effects[i].hash == r.hash
                && Some(effects[i].response) == r.response
  }

  ghost predicate RequestValid(s: State, r: Request) {
    match r.stage
    case Waiting => true
    case Holding(own) => r.key !in s.records && own.hash == r.hash && !own.completed
    case Answered(Replay(body)) => r.key in s.records && s.records[r.key].hash == r.hash
                                   && body == s.records[r.key].response && body.Some?
    case Answered(Conflict) => r.key in s.records && s.records[r.key].hash != r.hash
    case Answered(Acquired) => false
    case Committed(response) => r.key in s.records && s.records[r.key].hash == r.hash
                                && s.records[r.key].response == Some(response)
    case RolledBack => true
  }

  ghost predicate Inv(s: State) {
    && (forall k | k in s.records :: s.records[k].completed && HasEffect(s.effects, k, s.records[k]))
    && (forall i | 0 <= i < |s.effects| ::
          s.effects[i].key in s.records && s.records[s.effects[i].key].hash == s.effects[i].hash
          && s.records[s.effects[i].key].response == Some(s.effects[i].response))
    && (forall i, j | 0 <= i < |s.effects| && 0 <= j < |s.effects| && i != j :: s.effects[i].key != s.effects[j].key)
    && (forall i | 0 <= i < |s.requests| :: RequestValid(s, s.requests[i]))
    && (forall i, j | 0 <= i < |s.requests| && 0 <= j < |s.requests| && i != j && s.requests[i].stage.Holding?
        && s.requests[j].stage.Holding? ::
          s.requests[i].key != s.requests[j].key)
  }

  /** Committed records and effects are for ever: nothing looks at their expiry. */
  ghost predicate Continues(s: State, t: State) {
    && (forall k | k in s.records :: k in t.records && t.records[k] == s.records[k])
    && s.effects <= t.effects
  }

  lemma ReserveStep(s: State, i: Id)
    requires Inv(s) && i < |s.requests|
    ensures Inv(TryReserve(s, i)) && Continues(s, TryReserve(s, i))
  {
    var r := s.requests[i];
    var t := TryReserve(s, i);
    if r.stage.Waiting? && !Blocked(s, r.key) {
      if r.key in s.records { assert HasEffect(s.effects, r.key, s.records[r.key]); }
      forall j | 0 <= j < |t.requests| ensures RequestValid(t, t.requests[j]) {
          if j != i { assert RequestValid(s, s.requests[j]); } }
      hide HasEffect, RequestValid;
    }
  }

  lemma CommitRecords(s: State, i: Id, response: nat)
    requires Inv(s) && i < |s.requests| && s.requests[i].stage.Holding?
    ensures var t := Commit(s, i, response);
            forall k | k in t.records :: t.records[k].completed && HasEffect(t.effects, k, t.records[k])
  {
    var r := s.requests[i];
    var t := Commit(s, i, response);
    assert RequestValid(s, r);
    var n := |s.effects|;
    forall k | k in t.records ensures t.records[k].completed && HasEffect(t.effects, k, t.records[k]) {
      if k == r.key {
        assert t.effects[n] == Effect(k, r.hash, response);
      } else {
        assert HasEffect(s.effects, k, s.records[k]);
        var j :| 0 <= j < n && s.effects[j].key == k && s.effects[j].hash == s.records[k].hash
                 && Some(s.effects[j].response) == s.records[k].response;
        assert t.effects[j] == s.effects[j];
      }
    }
  }

  lemma CommitRequests(s: State, i: Id, response: nat)
    requires Inv(s) && i < |s.requests| && s.requests[i].stage.Holding?
    ensures var t := Commit(s, i, response); forall j | 0 <= j < |t.requests| :: RequestValid(t, t.requests[j])
    ensures Continues(s, Commit(s, i, response))
  {
    var t := Commit(s, i, response);
    assert RequestValid(s, s.requests[i]);
    hide HasEffect;
    forall j | 0 <= j < |t.requests| ensures RequestValid(t, t.requests[j]) {
        if j != i { assert RequestValid(s, s.requests[j]); } }
  }

  lemma CommitStep(s: State, i: Id, response: nat)
    requires Inv(s) && i < |s.requests|
    ensures Inv(Commit(s, i, response)) && Continues(s, Commit(s, i, response))
  {
    if s.requests[i].stage.Holding? {
      assert RequestValid(s, s.requests[i]);
      CommitRecords(s, i, response);
      CommitRequests(s, i, response);
      hide HasEffect, RequestValid;
    }
  }

  lemma OtherStep(s: State, a: Action)
    requires Inv(s) && (a.Arrive? || a.Fail? || a.Tick?)
    ensures Inv(Step(s, a)) && Continues(s, Step(s, a))
  {
    var t := Step(s, a);
    hide HasEffect;
    forall j | 0 <= j < |t.requests| ensures RequestValid(t, t.requests[j]) {
      if j < |s.requests| { assert RequestValid(s, s.requests[j]); }
    }
    hide RequestValid;
  }

  lemma StepKeeps(s: State, a: Action)
    requires Inv(s)
    ensures Inv(Step(s, a)) && Continues(s, Step(s, a))
  {
    match a
    case Proceed(i) => if i < |s.requests| { ReserveStep(s, i); }
    case Finish(i, response) => if i < |s.requests| { CommitStep(s, i, response); }
    case _ => OtherStep(s, a);
  }

  lemma {:induction false} RunKeeps(s: State, actions: seq<Action>)
    requires Inv(s)
    ensures Inv(Run(s, actions)) && Continues(s, Run(s, actions))
    decreases |actions|
  {
    if actions == [] {
    } else {
      StepKeeps(s, actions[0]);
      hide Step, Inv;
      RunKeeps(Step(s, actions[0]), actions[1..]);
    }
  }

  // -------------------------------------------------------------------- every answer

  /** The key has taken effect for this payload, with this response. */
  ghost predicate Took(s: State, key: Key, hash: string, response: nat) {
    Effect(key, hash, response) in s.effects
  }

  /** A request that need not wait: it is to act exactly when its key never took effect, it is told
      the response exactly when it did for the same payload, and a conflict when it did for another. */
  lemma AnsweredExactly(s: State, i: Id)
    requires Inv(s) && i < |s.requests| && s.requests[i].stage.Waiting? && !Blocked(s, s.requests[i].key)
    ensures var r := s.requests[i];
            var stage := TryReserve(s, i).requests[i].stage;
            && (stage.Holding? <==> forall hash: string, response: nat :: !Took(s, r.key, hash, response))
            && (forall response: nat :: stage == Answered(Replay(Some(response))) <==> Took(s, r.key, r.hash, response))
            && (stage == Answered(Conflict) <==>
                  exists hash: string, response: nat :: hash != r.hash && Took(s, r.key, hash, response))
            && (stage.Holding? || stage == Answered(Conflict) || (stage.Answered? && stage.reservation.Replay?))
            && (stage.Holding? ==> stage.own == Record(r.hash, false, None, s.clock + r.ttl))
  {
    var r := s.requests[i];
    if r.key in s.records {
      assert HasEffect(s.effects, r.key, s.records[r.key]);
      var k :| 0 <= k < |s.effects| && s.effects[k].key == r.key && s.effects[k].hash == s.records[r.key].hash
               && Some(s.effects[k].response) == s.records[r.key].response;
      assert Took(s, r.key, s.effects[k].hash, s.effects[k].response) by {
        assert s.effects[k] == Effect(r.key, s.effects[k].hash, s.effects[k].response);
      }
    }
    forall hash: string, response: nat | Took(s, r.key, hash, response)
      ensures r.key in s.records && s.records[r.key].hash == hash && s.records[r.key].response == Some(response)
    {
      var k :| 0 <= k < |s.effects| && s.effects[k] == Effect(r.key, hash, response);
    }
    hide Inv, HasEffect, Took;
  }

  /** A request that acts and commits has taken effect with the response it gives; one that rolls
      back leaves nothing, and its key is free for the next. */
  lemma ActedExactly(s: State, i: Id, response: nat)
    requires Inv(s) && i < |s.requests| && s.requests[i].stage.Holding?
    ensures var r := s.requests[i];
            var t := Commit(s, i, response);
            && t.effects == s.effects + [Effect(r.key, r.hash, response)]
            && t.requests[i].stage == Committed(response) && Took(t, r.key, r.hash, response)
    ensures var r := s.requests[i];
            var t := RollBack(s, i);
            t.effects == s.effects && t.records == s.records && !Blocked(t, r.key)
  {
    var r := s.requests[i];
    var t := Commit(s, i, response);
    assert t.effects[|s.effects|] == Effect(r.key, r.hash, response);
    forall j | 0 <= j < |s.requests| && j != i ensures !(s.requests[j].key == r.key && s.requests[j].stage.Holding?) {}
    hide Inv;
  }

  // -------------------------------------------------------------------- what a caller may rely on

  /** However requests interleave, fail and are repeated: one effect per key at most, and every
      answer is told by that effect - its response for the same payload, a conflict for another. */
  lemma OneEffectPerKey(clock: Time, actions: seq<Action>, i: Id)
    requires i < |Run(Initial(clock), actions).requests|
    ensures var s := Run(Initial(clock), actions);
            var r := s.requests[i];
            && (forall a, b | 0 <= a < |s.effects| && 0 <= b < |s.effects| && a != b ::
                s.effects[a].key != s.effects[b].key)
            && (r.stage.Answered? && r.stage.reservation.Replay? ==>
                  exists e :: 0 <= e < |s.effects| && r.stage.reservation.body == Some(s.effects[e].response)
                              && s.effects[e].key == r.key && s.effects[e].hash == r.hash)
            && (r.stage.Answered? && r.stage.reservation.Conflict? ==>
                  exists e :: 0 <= e < |s.effects| && s.effects[e].key == r.key && s.effects[e].hash != r.hash)
  {
    RunKeeps(Initial(clock), actions);
    var s := Run(Initial(clock), actions);
    hide Run;
    var r := s.requests[i];
    assert RequestValid(s, r);
    if r.key in s.records { assert HasEffect(s.effects, r.key, s.records[r.key]); }
  }

  /** "In progress" (a record found without a response) is never answered: whatever is committed
      is completed, and an uncommitted reservation makes others wait instead. */
  lemma NeverInProgress(clock: Time, actions: seq<Action>, key: Key, hash: string, expiresAt: Time)
    ensures var s := Run(Initial(clock), actions);
            Reserve(s.records, key, hash, expiresAt).1 != Replay(None)
  {
    RunKeeps(Initial(clock), actions);
    var s := Run(Initial(clock), actions);
    hide Run;
    if key in s.records { assert HasEffect(s.effects, key, s.records[key]); }
  }

  /** Once answered, always answered the same: after any further activity and any amount of time,
      the key replays its response for its payload and conflicts with every other. */
  lemma AnswersForEver(s: State, i: Id, response: nat, actions: seq<Action>, hash: string, expiresAt: Time)
    requires Inv(s) && i < |s.requests| && s.requests[i].stage.Holding?
    ensures var r := s.requests[i];
            var t := Run(Commit(s, i, response), actions);
            Reserve(t.records, r.key, hash, expiresAt) ==
                (t.records, if hash == r.hash then Replay(Some(response)) else Conflict)
  {
    CommitStep(s, i, response);
    RunKeeps(Commit(s, i, response), actions);
    assert RequestValid(s, s.requests[i]);
    hide Run, Inv;
  }

  // -------------------------------------------------------------------- the repository

  class IdempotencyRepository {
    var records: map<Key, Record>

    constructor ()
      ensures records == map[]
    {
      records := map[];
    }

    method ReserveKey(key: Key, hash: string, expiresAt: Time) returns (out: Reservation)
      modifies this
      ensures (records, out) == Reserve(old(records), key, hash, expiresAt)
    {
      if key !in records {
        records := records[key := Record(hash, false, None, expiresAt)];
        return Acquired;
      }
      var existing := records[key];
      out := if existing.hash != hash then Conflict else Replay(existing.response);
    }

    method CompleteKey(key: Key, response: nat)
      modifies this
      ensures records == Complete(old(records), key, response)
    {
      if key in records && !records[key].completed {
        records := records[key := records[key].(completed := true, response := Some(response))];
      }
    }
  }
}
