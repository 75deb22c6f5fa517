/** When an outbox event may be tried: not before its delay is over, and not while a claim on it is
    young. */
module OutboxPromises {
  import opened Core
  import opened Outbox

  /** Seconds to wait after the n-th failed attempt. */
  function DelayOf(attempts: nat): (seconds: nat) {
    if attempts <= 1 then 2 else if attempts >= 8 then 256 else 2 * DelayOf(attempts - 1)
  }

  lemma {:induction false} DelayIsBackoff(attempts: nat)
    requires attempts >= 1
    ensures Backoff(attempts) == DelayOf(attempts)
  {
    BackoffDoublesUpTo256(attempts);
    if attempts == 1 {
      assert Power(1) == 2 * Power(0);
    } else {
      BackoffDoublesUpTo256(attempts - 1);
      DelayIsBackoff(attempts - 1);
    }
    hide Backoff, Power;
  }

  // -------------------------------------------------------------------- what each transaction does

  /** The rows a claiming transaction picked are being published since now, one attempt further on; no
      other row changed, and there is one job per row. */
  lemma ClaimedExactly(s: State, locked: set<Id>, limit: nat)
    ensures var t := ClaimBatch(s, locked, limit);
            var ids := Pick(s.events, locked, s.clock, limit);
            && |t.events| == |s.events| && |t.jobs| == |s.jobs| + |ids| && s.jobs <= t.jobs
            && (forall i | 0 <= i < |ids| :: t.jobs[|s.jobs| + i] == Job(ids[i], Claimed))
            && forall e | 0 <= e < |s.events| ::
                 if e in ids then
                   && s.events[e].status == Pending && s.events[e].availableAt <= s.clock
                   && t.events[e] == s.events[e].(status := Publishing, lockedAt := Some(s.clock),
                                                  attempts := s.events[e].attempts + 1)
                 else t.events[e] == s.events[e]
  {
    var ids := Pick(s.events, locked, s.clock, limit);
    BatchIsFirstDue(s.events, locked, s.clock, limit, 0);
    ClaimAllRows(s.events, ids, s.clock);
    hide Pick, ClaimAll;
    forall e | 0 <= e < |s.events| && e in ids
      ensures s.events[e].status == Pending && s.events[e].availableAt <= s.clock
    {
      var i :| 0 <= i < |ids| && ids[i] == e;
      assert Selectable(s.events, locked, s.clock, ids[i]);
    }
  }

  /** What a relay writes when it learns how its message fared: nothing unless the event is still being
      published; then it is published for good, or waits its delay. */
  lemma OutcomeExactly(s: State, job: Id)
    requires Inv(s) && job < |s.jobs| && s.jobs[job].stage.Told?
    ensures var t := Advance(s, job, false, false);
            var id := s.jobs[job].event;
            && id < |s.events| == |t.events|
            && (forall e | 0 <= e < |s.events| && e != id :: t.events[e] == s.events[e])
            && var e := s.events[id];
            && t.events[id] ==
               if e.status != Publishing then e
               else if s.jobs[job].stage.acknowledged then
                 e.(status := Published, publishedAt := Some(s.clock), lockedAt := None, problem := None)
               else e.(status := Pending, availableAt := s.clock + DelayOf(e.attempts), lockedAt := None,
                       problem := Some(SendFailed))
  {
    assert JobValid(s, s.jobs[job]);
    assert EventValid(s, s.jobs[job].event);
    if s.events[s.jobs[job].event].attempts >= 1 { DelayIsBackoff(s.events[s.jobs[job].event].attempts); }
    hide Backoff, DelayOf, Inv;
  }

  /** Recovery takes back exactly the claims older than the limit, and makes their events due. */
  lemma RecoveredExactly(s: State, olderThan: nat)
    requires Inv(s)
    ensures var t := Step(s, Recover(olderThan));
            && |t.events| == |s.events| && t == s.(events := t.events)
            && forall e | 0 <= e < |s.events| ::
                 if s.events[e].status == Publishing && s.events[e].lockedAt.Some?
                    && s.events[e].lockedAt.value + olderThan < s.clock
                 then t.events[e] == s.events[e].(status := Pending, lockedAt := None, availableAt := s.clock,
                                                  problem := Some(StaleClaimRecovered))
                 else t.events[e] == s.events[e]
  {
    hide Inv;
  }

  // -------------------------------------------------------------------- over runs

  lemma WaitsOneStep(s: State, id: Id, a: Action)
    requires Inv(s) && id < |s.events| && s.events[id].status == Pending && s.clock < s.events[id].availableAt
    ensures id < |Step(s, a).events| && Step(s, a).events[id] == s.events[id]
  {
    match a
    case ClaimSome(locked, limit) => ClaimedExactly(s, locked, limit); hide Inv, ClaimBatch, Pick;
    case Work(job, accepted, acknowledged) => hide Inv;
    case _ => hide Inv;
  }

  /** An event that failed is left alone until its delay is over, through every run of any number of
      relays, recoveries and late relays; and then it is due. */
  lemma {:induction false} WaitsItsDelay(s: State, id: Id, actions: seq<Action>)
    requires Inv(s) && id < |s.events| && s.events[id].status == Pending
    requires forall k | 0 <= k < |actions| :: Run(s, actions[..k]).clock < s.events[id].availableAt
    ensures var t := Run(s, actions);
            && id < |t.events| && t.events[id] == s.events[id]
            && (Due(t.events[id], t.clock) <==> s.events[id].availableAt <= t.clock)
    decreases |actions|
  {
    if actions != [] {
      var next := Step(s, actions[0]);
      assert actions[..0] == [] && Run(s, actions[..0]) == s;
      WaitsOneStep(s, id, actions[0]);
      StepKeeps(s, actions[0]);
      forall k | 0 <= k < |actions[1..]| ensures Run(next, actions[1..][..k]).clock < s.events[id].availableAt {
        assert actions[..k + 1][0] == actions[0] && actions[..k + 1][1..] == actions[1..][..k];
      }
      hide Inv, Step, Continues;
      WaitsItsDelay(next, id, actions[1..]);
    }
  }

  /** A relay's own report on this event. */
  predicate Reports(s: State, a: Action, id: Id) {
    a.Work? && a.job < |s.jobs| && s.jobs[a.job].event == id && s.jobs[a.job].stage.Told?
  }

  lemma KeptOneStep(s: State, id: Id, a: Action, limit: nat)
    requires Inv(s) && id < |s.events| && s.events[id].status == Publishing && s.events[id].lockedAt.Some?
    requires !Reports(s, a, id) && (a.Recover? ==> a.olderThan >= limit)
    requires s.clock <= s.events[id].lockedAt.value + limit
    ensures id < |Step(s, a).events| && Step(s, a).events[id] == s.events[id]
  {
    match a
    case ClaimSome(locked, n) => ClaimedExactly(s, locked, n); hide Inv, ClaimBatch, Pick;
    case Work(job, accepted, acknowledged) => hide Inv;
    case _ => hide Inv;
  }

  /** The run never reaches past `until` before its last step, recovers only claims older than the
      limit, and no relay reports on the event. */
  ghost predicate Quiet(s: State, actions: seq<Action>, id: Id, limit: nat, until: Time)
    decreases |actions|
  {
    actions == [] ||
    (&& s.clock <= until && !Reports(s, actions[0], id) && (actions[0].Recover? ==> actions[0].olderThan >= limit)
     && Quiet(Step(s, actions[0]), actions[1..], id, limit, until))
  }

  /** A claim that is not older than the limit is left to the relay that took it: nobody else claims
      the event, and recovery does not take it back. */
  lemma {:induction false} YoungClaimIsKept(s: State, id: Id, actions: seq<Action>, limit: nat)
    requires Inv(s) && id < |s.events| && s.events[id].status == Publishing && s.events[id].lockedAt.Some?
    requires Quiet(s, actions, id, limit, s.events[id].lockedAt.value + limit)
    ensures var t := Run(s, actions); id < |t.events| && t.events[id] == s.events[id]
    decreases |actions|
  {
    if actions != [] {
      KeptOneStep(s, id, actions[0], limit);
      StepKeeps(s, actions[0]);
      hide Inv, Step, Continues, Reports;
      YoungClaimIsKept(Step(s, actions[0]), id, actions[1..], limit);
    }
  }

  // -------------------------------------------------------------------- effects

  ghost predicate TookEffect(s: State, consumer: nat, event: Id) {
    exists i :: 0 <= i < |s.effects| && s.effects[i].consumer == consumer && s.effects[i].event == event
  }

  ghost predicate MarkedMeansDone(s: State) {
    forall consumer, event | Marker(consumer, event) in s.markers :: TookEffect(s, consumer, event)
  }

  lemma EffectsGrow(s: State, t: State)
    requires s.effects <= t.effects
    ensures forall consumer, event | TookEffect(s, consumer, event) :: TookEffect(t, consumer, event)
  {
    forall consumer, event | TookEffect(s, consumer, event) ensures TookEffect(t, consumer, event) {
      var i :| 0 <= i < |s.effects| && s.effects[i].consumer == consumer && s.effects[i].event == event;
      assert t.effects[i] == s.effects[i];
    }
  }

  lemma {:induction false} MarkedMeansDoneAlways(s: State, actions: seq<Action>)
    requires MarkedMeansDone(s)
    ensures MarkedMeansDone(Run(s, actions))
    decreases |actions|
  {
    if actions != [] {
      var t := Step(s, actions[0]);
      EffectsGrow(s, t);
      if actions[0].Deliver? && t.effects != s.effects {
        assert t.effects[|s.effects|].consumer == actions[0].consumer;
      }
      hide Step, TookEffect;
      MarkedMeansDoneAlways(t, actions[1..]);
    }
  }

  /** A message is a duplicate exactly when it has taken effect; otherwise it takes effect now, with
      the content that was sent, unless the handler fails, and then nothing of it stays. */
  lemma DeliveredExactly(clock: Time, actions: seq<Action>, consumer: nat, envelope: Envelope, handled: bool)
    ensures var s := Run(Initial(clock), actions);
            var (t, out) := Consume(s, consumer, envelope, handled);
            && (out == Duplicate <==> TookEffect(s, consumer, envelope.event))
            && (out == Processed ==>
                  && t.effects == s.effects + [Effect(consumer, envelope.event, envelope.body)]
                  && TookEffect(t, consumer, envelope.event) && handled)
            && (out != Processed ==> t == s)
            && (handled && !TookEffect(s, consumer, envelope.event) ==> out == Processed)
  {
    var s := Run(Initial(clock), actions);
    Reachable(clock, actions);
    MarkedMeansDoneAlways(Initial(clock), actions);
    hide Run;
    assert EffectsValid(s);
    var t := Consume(s, consumer, envelope, handled).0;
    if t.effects != s.effects { assert t.effects[|s.effects|].consumer == consumer; }
  }
}
