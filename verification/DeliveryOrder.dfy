/**
 When a due delivery is claimed. The claim takes due rows in order of the time they became due and
 then of id; an id is a generated one, so a row that becomes due at the same instant can still sort in
 front. Nothing else can.
 */
module DeliveryOrder {
  import opened Common
  import opened Ordering
  import opened Deliveries

  function KeyOf(s: State, id: nat): Key
    requires id in s.rows
  {
    Key(s.rows[id].nextAttemptAt, id)
  }

  /** The pending rows that sort in front of `id`. */
  function Ahead(s: State, id: nat): set<nat>
    requires id in s.rows
  {
    set other | other in s.rows && s.rows[other].status.Pending? && Before(KeyOf(s, other), KeyOf(s, id))
  }

  /** Waiting its turn: due, and no worker still has a claim on it. */
  predicate Waits(s: State, id: nat) {
    Due(s.rows, s.now, id) && !Outstanding(s, id)
  }

  predicate Takes(s: State, step: Step, id: nat) {
    step.Take? && id in ClaimedIds(s.rows, s.now, step.limit)
  }

  predicate ClaimedDuring(s: State, steps: seq<Step>, id: nat)
    decreases |steps|
  {
    steps != [] && (Takes(s, steps[0], id) || ClaimedDuring(Apply(s, steps[0]), steps[1..], id))
  }

  function Passes(steps: seq<Step>): nat {
    if steps == [] then 0 else (if steps[0].Take? then 1 else 0) + Passes(steps[1..])
  }

  /** A row with a smaller id is enqueued or requeued at the very instant `id` became due. */
  predicate Overtakes(s: State, step: Step, id: nat) {
    && id in s.rows && s.rows[id].nextAttemptAt == s.now
    && ((step.Enqueue? && step.id !in s.trail && step.id < id)
        || (step.Redeliver? && step.id in s.rows && step.id in s.trail && step.id < id && step.id !in Ahead(s, id)))
  }

  /** How often that happens before the row is claimed. */
  function Overtakings(s: State, steps: seq<Step>, id: nat): nat
    decreases |steps|
  {
    if steps == [] || Takes(s, steps[0], id) then 0
    else (if Overtakes(s, steps[0], id) then 1 else 0) + Overtakings(Apply(s, steps[0]), steps[1..], id)
  }

  // ---------- One step ----------

  lemma KeepsWaiting(s: State, step: Step, id: nat)
    requires Inv(s) && Waits(s, id) && Leaves(step, id) && !Takes(s, step, id)
    ensures Waits(Apply(s, step), id) && KeyOf(Apply(s, step), id) == KeyOf(s, id)
  {
    if step.Take? { ClaimedAreDue(s.rows, s.now, step.limit); }
  }

  lemma TakeTakesFromTheFront(s: State, limit: nat, id: nat)
    requires Inv(s) && Waits(s, id) && !Takes(s, Take(limit), id)
    ensures ClaimedIds(s.rows, s.now, limit) <= Ahead(s, id)
    ensures Ahead(Apply(s, Take(limit)), id) <= Ahead(s, id) - ClaimedIds(s.rows, s.now, limit)
    ensures |ClaimedIds(s.rows, s.now, limit)| == limit
  {
    ClaimedAreDue(s.rows, s.now, limit);
    var page, due := ClaimPage(s.rows, s.now, limit), DueKeys(s.rows, s.now);
    assert KeyOf(s, id) in due && KeyOf(s, id) !in page;
    forall other | other in ClaimedIds(s.rows, s.now, limit) ensures other in Ahead(s, id) {
      var i :| 0 <= i < |page| && page[i].id == other;
      assert page[i] in due;
    }
    if |due| <= limit { PageOfEverything(page, due, limit); }
    var ids := seq(|page|, i requires 0 <= i < |page| => page[i].id);
    SetOfDistinct(ids);
    assert forall i :: 0 <= i < |page| ==> ids[i] == page[i].id && page[i] in page;
    assert ClaimedIds(s.rows, s.now, limit) == (set i | 0 <= i < |ids| :: ids[i]);
  }

  /** Exact: a step puts a row in front of a waiting one if and only if it `Overtakes`, and then one row. */
  lemma OvertakesExactly(s: State, step: Step, id: nat)
    requires Inv(s) && Waits(s, id) && Leaves(step, id) && !Takes(s, step, id)
    ensures id in Apply(s, step).rows
    ensures Ahead(Apply(s, step), id) - Ahead(s, id) == if Overtakes(s, step, id) then {step.id} else {}
  {
    KeepsWaiting(s, step, id);
    if step.Take? {
      TakeTakesFromTheFront(s, step.limit, id);
    }
  }

  lemma QueueShrinks(s: State, step: Step, id: nat)
    requires Inv(s) && Waits(s, id) && Leaves(step, id) && !Takes(s, step, id)
    ensures id in Apply(s, step).rows
    ensures |Ahead(Apply(s, step), id)| + (if step.Take? then step.limit else 0)
         <= |Ahead(s, id)| + (if Overtakes(s, step, id) then 1 else 0)
  {
    OvertakesExactly(s, step, id);
    var before, after := Ahead(s, id), Ahead(Apply(s, step), id);
    if step.Take? {
      TakeTakesFromTheFront(s, step.limit, id);
      SubsetSize(after, before - ClaimedIds(s.rows, s.now, step.limit));
    } else if Overtakes(s, step, id) {
      SubsetSize(after, before + {step.id});
    } else {
      SubsetSize(after, before);
    }
  }

  // ---------- Runs ----------

  lemma {:induction false} ClaimedOnceCapacityExceeds(s: State, steps: seq<Step>, id: nat, limit: nat)
    requires Inv(s) && Waits(s, id)
    requires forall i :: 0 <= i < |steps| ==> Leaves(steps[i], id) && (steps[i].Take? ==> steps[i].limit == limit)
    requires Passes(steps) * limit > |Ahead(s, id)| + Overtakings(s, steps, id)
    ensures ClaimedDuring(s, steps, id)
    decreases |steps|
  {
    hide Apply, Inv, Waits, Ahead, Takes, Overtakes, Leaves;
    var step, rest := steps[0], steps[1..];
    if !Takes(s, step, id) {
      KeepsWaiting(s, step, id);
      QueueShrinks(s, step, id);
      StepKeepsInv(s, step);
      assert Passes(steps) * limit == (if step.Take? then limit else 0) + Passes(rest) * limit;
      ClaimedOnceCapacityExceeds(Apply(s, step), rest, id, limit);
    }
  }

  /**
   No delivery starves. A due delivery nobody holds, with n pending rows in front of it, is claimed by
   the (n + k) / limit + 1-th pass, where k rows overtake it at the instant it became due, whatever else
   is enqueued, claimed, recorded or redelivered; unless it is redelivered itself or removed.
   */
  lemma NoDeliveryStarves(s: State, steps: seq<Step>, id: nat, limit: nat)
    requires Inv(s) && Waits(s, id) && limit > 0
    requires forall i :: 0 <= i < |steps| ==> Leaves(steps[i], id) && (steps[i].Take? ==> steps[i].limit == limit)
    requires Passes(steps) >= (|Ahead(s, id)| + Overtakings(s, steps, id)) / limit + 1
    ensures ClaimedDuring(s, steps, id)
  {
    hide Inv, Ahead, Leaves, Outstanding, Overtakings, Passes, ClaimedDuring;
    EnoughPasses(|Ahead(s, id)| + Overtakings(s, steps, id), Passes(steps), limit);
    ClaimedOnceCapacityExceeds(s, steps, id, limit);
  }

  /** Once its instant has passed nothing overtakes it any more. */
  lemma {:induction false} NothingOvertakesLater(s: State, steps: seq<Step>, id: nat)
    requires Inv(s) && Waits(s, id) && s.rows[id].nextAttemptAt < s.now
    requires forall i :: 0 <= i < |steps| ==> Leaves(steps[i], id)
    ensures Overtakings(s, steps, id) == 0
    decreases |steps|
  {
    if steps != [] && !Takes(s, steps[0], id) {
      KeepsWaiting(s, steps[0], id);
      StepKeepsInv(s, steps[0]);
      assert Apply(s, steps[0]).now >= s.now;
      hide Apply, Inv, Waits, Takes;
      NothingOvertakesLater(Apply(s, steps[0]), steps[1..], id);
    }
  }

  lemma NoDeliveryStarvesLater(s: State, steps: seq<Step>, id: nat, limit: nat)
    requires Inv(s) && Waits(s, id) && s.rows[id].nextAttemptAt < s.now && limit > 0
    requires forall i :: 0 <= i < |steps| ==> Leaves(steps[i], id) && (steps[i].Take? ==> steps[i].limit == limit)
    requires Passes(steps) >= |Ahead(s, id)| / limit + 1
    ensures ClaimedDuring(s, steps, id)
  {
    hide Inv, Ahead, Leaves, Overtakings, Passes, ClaimedDuring;
    NothingOvertakesLater(s, steps, id);
    NoDeliveryStarves(s, steps, id, limit);
  }
}
