/**
 Webhook deliveries: the delivery table, the lease/retry/give-up/redeliver machine over it, and the
 worker that drives it.

 A worker can outlive its lease, and the two statements that record an outcome never look at the
 row's current status. The machine therefore lets a claim be recorded at any later time, or never.
 */
module Deliveries {
  import opened Common
  import opened Ordering

  const MAX_ATTEMPTS := 6
  const CLAIM_LEASE_SECONDS := 120

  function BackoffSeconds(attempts: int): (delay: int)
    ensures 10 <= delay <= 7200
  {
    match attempts
    case 0 => 10
    case 1 => 10
    case 2 => 60
    case 3 => 300
    case 4 => 1800
    case _ => 7200
  }

  datatype Status = Pending | Delivered | Failed

  datatype Delivery = Delivery(org: nat, endpoint: nat, submission: Option<nat>, status: Status,
                               attempts: nat, nextAttemptAt: int, responseStatus: Option<int>,
                               deliveredAt: Option<int>)

  function NewDelivery(now: int, org: nat, endpoint: nat, submission: nat): Delivery {
    Delivery(org, endpoint, Some(submission), Pending, 0, now, None, None)
  }

  type Rows = map<nat, Delivery>

  predicate Due(rows: Rows, now: int, id: nat) {
    id in rows && rows[id].status.Pending? && rows[id].nextAttemptAt <= now
  }

  function DueKeys(rows: Rows, now: int): set<Key> {
    set id | id in rows && Due(rows, now, id) :: Key(rows[id].nextAttemptAt, id)
  }

  function ClaimPage(rows: Rows, now: int, limit: nat): seq<Key> {
    FirstN(DueKeys(rows, now), limit)
  }

  function ClaimedIds(rows: Rows, now: int, limit: nat): set<nat> {
    set k | k in ClaimPage(rows, now, limit) :: k.id
  }

  // ---------- The statements ----------

  datatype Work =
    | ClaimDue(limit: nat)
    | MarkDelivered(id: nat, response: int)
    | RecordFailure(id: nat, number: nat, refusal: Option<int>)
    | Requeue(id: nat)

  function AfterClaim(rows: Rows, now: int, limit: nat): Rows {
    var claimed := ClaimedIds(rows, now, limit);
    map id | id in rows ::
      if id in claimed
      then rows[id].(attempts := rows[id].attempts + 1, nextAttemptAt := now + CLAIM_LEASE_SECONDS)
      else rows[id]
  }

  function AfterDelivered(row: Delivery, now: int, response: int): Delivery {
    row.(status := Delivered, responseStatus := Some(response), deliveredAt := Some(now))
  }

  /** `number` is the attempt count the claim returned, not the row's current one. */
  function AfterFailure(row: Delivery, now: int, number: nat, response: Option<int>): Delivery {
    row.(status := if number >= MAX_ATTEMPTS then Failed else Pending,
         responseStatus := response,
         nextAttemptAt := now + BackoffSeconds(number))
  }

  function AfterRequeue(row: Delivery, now: int): Delivery {
    row.(status := Pending, nextAttemptAt := now)
  }

  function Perform(rows: Rows, now: int, work: Work): Rows {
    match work
    case ClaimDue(limit) => AfterClaim(rows, now, limit)
    case MarkDelivered(id, response) =>
      if id in rows then rows[id := AfterDelivered(rows[id], now, response)] else rows
    case RecordFailure(id, number, response) =>
      if id in rows then rows[id := AfterFailure(rows[id], now, number, response)] else rows
    case Requeue(id) =>
      if id in rows then rows[id := AfterRequeue(rows[id], now)] else rows
  }

  /** The page names each due row at most once. */
  lemma ClaimedAreDue(rows: Rows, now: int, limit: nat)
    ensures forall id :: id in ClaimedIds(rows, now, limit) ==> Due(rows, now, id)
    ensures forall i :: 0 <= i < |ClaimPage(rows, now, limit)| ==>
                          ClaimPage(rows, now, limit)[i].id in ClaimedIds(rows, now, limit)
    ensures forall i, j :: 0 <= i < j < |ClaimPage(rows, now, limit)| ==>
                             ClaimPage(rows, now, limit)[i].id != ClaimPage(rows, now, limit)[j].id
  {
  }

  /** No statement of the delivery side adds, removes or re-addresses a row. */
  lemma WorkKeepsAddresses(rows: Rows, now: int, work: Work)
    ensures Perform(rows, now, work).Keys == rows.Keys
    ensures forall id :: id in rows ==>
                           && Perform(rows, now, work)[id].endpoint == rows[id].endpoint
                           && Perform(rows, now, work)[id].submission == rows[id].submission
                           && Perform(rows, now, work)[id].org == rows[id].org
  {
  }

  /** Of the statements, only a redelivery and a recorded failure of the same row undo "delivered". */
  lemma DeliveredSurvivesExactly(rows: Rows, now: int, work: Work, id: nat)
    requires id in rows && rows[id].status.Delivered?
    ensures Perform(rows, now, work)[id].status.Delivered?
            <==> !(work.Requeue? && work.id == id) && !(work.RecordFailure? && work.id == id)
  {
    if work.ClaimDue? { ClaimedAreDue(rows, now, work.limit); }
  }

  // ---------- The machine, with the history the bound counts ----------

  /** A claim a worker still holds: the row, and the attempt number the claim returned. */
  datatype Claim = Claim(id: nat, number: nat)

  /** What last wrote the row: it became available, it was leased, or it was closed. */
  datatype Cause = Available | Leased(since: int) | Closed

  datatype Trail = Trail(cause: Cause, reopened: set<nat>, redeliveries: nat, lapses: nat)

  datatype State = State(now: int, rows: Rows, trail: map<nat, Trail>, claims: set<Claim>)

  datatype Step =
    | Tick(seconds: nat)
    | Enqueue(id: nat, org: nat, endpoint: nat, submission: nat)
    | Take(limit: nat)
    | Succeed(claim: Claim, response: int)
    | Fail(claim: Claim, refusal: Option<int>)
    | Lose(claim: Claim)
    | Redeliver(id: nat)
    | Drop(ids: set<nat>)

  function Init(): State { State(0, map[], map[], {}) }

  function Taken(t: Trail, now: int): Trail {
    t.(cause := Leased(now), lapses := t.lapses + if t.cause.Leased? then 1 else 0)
  }

  function FailedOnce(t: Trail, number: nat): Trail {
    if number >= MAX_ATTEMPTS then t.(cause := Closed)
    else t.(cause := Available, reopened := t.reopened + {number})
  }

  /** A step that is not possible in a state leaves it alone. */
  function Apply(s: State, step: Step): State {
    match step
    case Tick(seconds) => s.(now := s.now + seconds)
    case Enqueue(id, org, endpoint, submission) =>
      if id in s.trail then s
      else s.(rows := s.rows[id := NewDelivery(s.now, org, endpoint, submission)],
              trail := s.trail[id := Trail(Available, {}, 0, 0)])
    case Take(limit) =>
      var claimed := ClaimedIds(s.rows, s.now, limit);
      s.(rows := Perform(s.rows, s.now, ClaimDue(limit)),
         trail := map id | id in s.trail :: if id in claimed then Taken(s.trail[id], s.now) else s.trail[id],
         claims := s.claims + set id | id in claimed && id in s.rows :: Claim(id, s.rows[id].attempts + 1))
    case Succeed(claim, response) =>
      if claim !in s.claims then s
      else s.(rows := Perform(s.rows, s.now, MarkDelivered(claim.id, response)),
              trail := if claim.id in s.trail
                       then s.trail[claim.id := s.trail[claim.id].(cause := Closed)] else s.trail,
              claims := s.claims - {claim})
    case Fail(claim, refusal) =>
      if claim !in s.claims then s
      else s.(rows := Perform(s.rows, s.now, RecordFailure(claim.id, claim.number, refusal)),
              trail := if claim.id in s.trail
                       then s.trail[claim.id := FailedOnce(s.trail[claim.id], claim.number)] else s.trail,
              claims := s.claims - {claim})
    case Lose(claim) => s.(claims := s.claims - {claim})
    case Redeliver(id) =>
      if id !in s.rows || id !in s.trail then s
      else s.(rows := Perform(s.rows, s.now, Requeue(id)),
              trail := s.trail[id := s.trail[id].(cause := Available, redeliveries := s.trail[id].redeliveries + 1)])
    case Drop(ids) => s.(rows := map id | id in s.rows && id !in ids :: s.rows[id])
  }

  function Run(s: State, steps: seq<Step>): State
    decreases |steps|
  {
    if steps == [] then s else Run(Apply(s, steps[0]), steps[1..])
  }

  /** Each claim pays for itself out of one event that made the row available. */
  predicate Accounted(row: Delivery, t: Trail) {
    && row.attempts + (if t.cause.Available? then 1 else 0) <= 1 + |t.reopened| + t.redeliveries + t.lapses
    && (t.cause.Closed? ==> !row.status.Pending?)
    && (t.cause.Leased? ==> row.status.Pending? && row.nextAttemptAt == t.cause.since + CLAIM_LEASE_SECONDS)
    && (forall n :: n in t.reopened ==> 1 <= n <= row.attempts && n < MAX_ATTEMPTS)
  }

  predicate Inv(s: State) {
    && s.rows.Keys <= s.trail.Keys
    && (forall id :: id in s.rows ==> Accounted(s.rows[id], s.trail[id]))
    && (forall c :: c in s.claims ==> c.id in s.trail && c.number >= 1)
    && (forall c :: c in s.claims && c.id in s.rows ==>
                      c.number <= s.rows[c.id].attempts && c.number !in s.trail[c.id].reopened)
  }

  lemma TakeKeepsInv(s: State, limit: nat)
    requires Inv(s)
    ensures Inv(Apply(s, Take(limit)))
  {
    ClaimedAreDue(s.rows, s.now, limit);
    var s' := Apply(s, Take(limit));
    forall c | c in s'.claims && c.id in s'.rows
      ensures c.number <= s'.rows[c.id].attempts && c.number !in s'.trail[c.id].reopened
    {
      assert Accounted(s.rows[c.id], s.trail[c.id]);
    }
    forall id | id in s'.rows ensures Accounted(s'.rows[id], s'.trail[id]) {
      assert Accounted(s.rows[id], s.trail[id]);
    }
  }

  lemma FailKeepsInv(s: State, claim: Claim, refusal: Option<int>)
    requires Inv(s) && claim in s.claims && claim.id in s.rows
    ensures Inv(Apply(s, Fail(claim, refusal)))
  {
    var s' := Apply(s, Fail(claim, refusal));
    assert Accounted(s.rows[claim.id], s.trail[claim.id]);
    assert Accounted(s'.rows[claim.id], s'.trail[claim.id]);
    forall c | c in s'.claims && c.id in s'.rows
      ensures c.number <= s'.rows[c.id].attempts && c.number !in s'.trail[c.id].reopened
    {
      assert c in s.claims;
    }
  }

  lemma StepKeepsInv(s: State, step: Step)
    requires Inv(s)
    ensures Inv(Apply(s, step))
  {
    match step
    case Take(limit) => TakeKeepsInv(s, limit);
    case Fail(claim, refusal) =>
      if claim in s.claims && claim.id in s.rows { FailKeepsInv(s, claim, refusal); }
    case Succeed(claim, _) =>
      assert claim in s.claims && claim.id in s.rows ==> Accounted(s.rows[claim.id], s.trail[claim.id]);
    case Redeliver(id) =>
      assert id in s.rows ==> Accounted(s.rows[id], s.trail[id]);
    case _ =>
  }

  lemma {:induction false} RunKeepsInv(s: State, steps: seq<Step>)
    requires Inv(s)
    ensures Inv(Run(s, steps))
    decreases |steps|
  {
    if steps != [] {
      StepKeepsInv(s, steps[0]);
      RunKeepsInv(Apply(s, steps[0]), steps[1..]);
    }
  }

  lemma {:induction false} AtMostBelow(numbers: set<nat>, bound: nat)
    requires forall n :: n in numbers ==> 1 <= n < bound
    ensures |numbers| < bound || bound == 0
  {
    if bound <= 1 {
      assert numbers == {};
    } else {
      AtMostBelow(numbers - {bound - 1}, bound - 1);
    }
  }

  /**
   The amortised retry bound, over every run and whatever workers record late: a delivery is
   attempted at most MAX_ATTEMPTS times, plus once per manual redelivery and per lapsed lease.
   */
  lemma AttemptsAreBounded(steps: seq<Step>, id: nat)
    requires id in Run(Init(), steps).rows
    ensures var s := Run(Init(), steps);
            id in s.trail && s.rows[id].attempts <= MAX_ATTEMPTS + s.trail[id].redeliveries + s.trail[id].lapses
  {
    RunKeepsInv(Init(), steps);
    AtMostBelow(Run(Init(), steps).trail[id].reopened, MAX_ATTEMPTS);
  }

  /** A lapse is counted only when a whole lease went by with nothing written to the row. */
  lemma LapseMeansLeaseExpired(steps: seq<Step>, limit: nat, id: nat)
    requires var s := Run(Init(), steps); id in ClaimedIds(s.rows, s.now, limit)
    ensures var s := Run(Init(), steps);
            && id in s.trail
            && (Apply(s, Take(limit)).trail[id].lapses == s.trail[id].lapses + 1
                <==> s.trail[id].cause.Leased? && s.now >= s.trail[id].cause.since + CLAIM_LEASE_SECONDS)
            && Apply(s, Take(limit)).trail[id].lapses <= s.trail[id].lapses + 1
  {
    RunKeepsInv(Init(), steps);
    var s := Run(Init(), steps);
    ClaimedAreDue(s.rows, s.now, limit);
  }

  /** A claim takes due rows only: one attempt more, out of reach for two minutes, and otherwise as they were. */
  lemma ClaimingLeases(s: State, limit: nat, id: nat)
    requires id in s.rows
    ensures var row, rows := s.rows[id], Apply(s, Take(limit)).rows;
            && rows.Keys == s.rows.Keys
            && (rows[id] == row.(attempts := row.attempts + 1, nextAttemptAt := s.now + 120) || rows[id] == row)
            && (rows[id] != row ==> row.status.Pending? && row.nextAttemptAt <= s.now
                                    && Claim(id, rows[id].attempts) in Apply(s, Take(limit)).claims)
  {
    ClaimedAreDue(s.rows, s.now, limit);
  }

  /** A redelivery makes the row due at once, attempts and last answer kept; a removal takes just those rows. */
  lemma RequestsOnDeliveries(s: State, id: nat, ids: set<nat>)
    requires Inv(s)
    ensures id in s.rows ==>
              Apply(s, Redeliver(id)).rows == s.rows[id := s.rows[id].(status := Pending, nextAttemptAt := s.now)]
    ensures Apply(s, Drop(ids)).rows.Keys == s.rows.Keys - ids
    ensures forall other :: other in s.rows && other !in ids ==> Apply(s, Drop(ids)).rows[other] == s.rows[other]
  {
  }

  // ---------- When "delivered" is final ----------

  /** Nobody redelivers the row by hand, and it is not removed. */
  predicate Leaves(step: Step, id: nat) {
    step != Redeliver(id) && (step.Drop? ==> id !in step.ids)
  }

  predicate IsDelivered(s: State, id: nat) {
    id in s.rows && s.rows[id].status.Delivered?
  }

  /** Whatever the workers and the clock do, the row stays delivered. */
  ghost predicate DeliveredForGood(s: State, id: nat) {
    forall steps :: (forall i :: 0 <= i < |steps| ==> Leaves(steps[i], id)) ==> IsDelivered(Run(s, steps), id)
  }

  predicate Outstanding(s: State, id: nat) {
    exists c :: c in s.claims && c.id == id
  }

  lemma SettledStep(s: State, step: Step, id: nat)
    requires Inv(s) && IsDelivered(s, id) && !Outstanding(s, id) && Leaves(step, id)
    ensures IsDelivered(Apply(s, step), id) && !Outstanding(Apply(s, step), id)
  {
    if step.Take? { ClaimedAreDue(s.rows, s.now, step.limit); }
  }

  lemma {:induction false} SettledRun(s: State, steps: seq<Step>, id: nat)
    requires Inv(s) && IsDelivered(s, id) && !Outstanding(s, id)
    requires forall i :: 0 <= i < |steps| ==> Leaves(steps[i], id)
    ensures IsDelivered(Run(s, steps), id)
    decreases |steps|
  {
    hide Apply, Inv, Outstanding;
    if steps != [] {
      SettledStep(s, steps[0], id);
      StepKeepsInv(s, steps[0]);
      SettledRun(Apply(s, steps[0]), steps[1..], id);
    }
  }

  /**
   "Delivered" is final exactly when no worker still holds a claim on the row. One that does, however
   old, can record a failure over it; without one nothing but a redelivery or its removal can.
   */
  lemma DeliveredForGoodExactly(s: State, id: nat)
    requires Inv(s) && IsDelivered(s, id)
    ensures DeliveredForGood(s, id) <==> !Outstanding(s, id)
  {
    hide Inv;
    if c :| c in s.claims && c.id == id {
      var steps := [Fail(c, None)];
      assert Run(s, steps) == Run(Apply(s, Fail(c, None)), []);
      assert !IsDelivered(Run(s, steps), id);
    } else {
      forall steps | forall i :: 0 <= i < |steps| ==> Leaves(steps[i], id) ensures IsDelivered(Run(s, steps), id) {
        SettledRun(s, steps, id);
      }
    }
  }

  /** A worker outlives its lease, another delivers the row, and the first records its failure after all. */
  const LATE_FAILURE: seq<Step> :=
    [ Enqueue(0, 0, 0, 0), Take(1), Tick(CLAIM_LEASE_SECONDS), Take(1), Succeed(Claim(0, 2), 200),
      Fail(Claim(0, 1), None) ]

  function TwoLeases(): State {
    Apply(Apply(Apply(Apply(Init(), LATE_FAILURE[0]), LATE_FAILURE[1]), LATE_FAILURE[2]), LATE_FAILURE[3])
  }

  lemma BothHoldClaims()
    ensures var s := TwoLeases();
            Lone(s, 2, 0, 1) && Claim(0, 1) in s.claims && Claim(0, 2) in s.claims
  {
    var s1 := Apply(Init(), LATE_FAILURE[0]);
    TakeLone(s1, 0, 0, 0);
    TakeLone(Apply(Apply(s1, LATE_FAILURE[1]), LATE_FAILURE[2]), 1, 0, 0);
  }

  lemma TwoLeasesIsReached()
    ensures Run(Init(), LATE_FAILURE[..4]) == TwoLeases()
  {
    hide Apply;
    assert LATE_FAILURE[..4] == [LATE_FAILURE[0]] + [LATE_FAILURE[1], LATE_FAILURE[2], LATE_FAILURE[3]];
    RunAppend(Init(), [LATE_FAILURE[0]], [LATE_FAILURE[1], LATE_FAILURE[2], LATE_FAILURE[3]]);
    RunOne(Init(), LATE_FAILURE[0]);
    RunThree(Apply(Init(), LATE_FAILURE[0]), LATE_FAILURE[1], LATE_FAILURE[2], LATE_FAILURE[3]);
  }

  lemma LateFailureOverwrites(s: State)
    requires 0 in s.rows && Claim(0, 1) in s.claims && Claim(0, 2) in s.claims
    ensures var delivered := Apply(s, Succeed(Claim(0, 2), 200));
            var reopened := Apply(delivered, Fail(Claim(0, 1), None));
            && IsDelivered(delivered, 0)
            && 0 in reopened.rows && reopened.rows[0].status.Pending? && reopened.rows[0].deliveredAt.Some?
  {
  }

  /** In that run the row is delivered after five steps and waiting to be sent again after the sixth. */
  lemma LateFailureReopensDelivered()
    ensures IsDelivered(Run(Init(), LATE_FAILURE[..5]), 0)
    ensures var s := Run(Init(), LATE_FAILURE); 0 in s.rows && s.rows[0].status.Pending? && s.rows[0].deliveredAt.Some?
  {
    TwoLeasesIsReached();
    BothHoldClaims();
    hide Apply, Run, TwoLeases;
    var s := TwoLeases();
    LateFailureOverwrites(s);
    assert LATE_FAILURE[..5] == LATE_FAILURE[..4] + [LATE_FAILURE[4]];
    assert LATE_FAILURE == LATE_FAILURE[..5] + [LATE_FAILURE[5]];
    RunAppend(Init(), LATE_FAILURE[..4], [LATE_FAILURE[4]]);
    RunOne(s, LATE_FAILURE[4]);
    RunAppend(Init(), LATE_FAILURE[..5], [LATE_FAILURE[5]]);
    RunOne(Apply(s, LATE_FAILURE[4]), LATE_FAILURE[5]);
  }

  lemma RunOne(s: State, step: Step)
    ensures Run(s, [step]) == Apply(s, step)
  {
    hide Apply;
    assert Run(s, [step]) == Run(Apply(s, step), []);
  }

  // ---------- The bound is attained ----------

  lemma {:induction false} RunAppend(s: State, a: seq<Step>, b: seq<Step>)
    ensures Run(s, a + b) == Run(Run(s, a), b)
    decreases |a|
  {
    if a == [] {
      assert a + b == b;
    } else {
      assert (a + b)[1..] == a[1..] + b;
      RunAppend(Apply(s, a[0]), a[1..], b);
    }
  }

  /** One delivery, due now, with these numbers on its trail. */
  predicate Lone(s: State, attempts: nat, redeliveries: nat, lapses: nat) {
    && s.rows.Keys == {0} && s.trail.Keys == {0}
    && s.rows[0].attempts == attempts && s.trail[0].redeliveries == redeliveries && s.trail[0].lapses == lapses
    && s.rows[0].status.Pending?
  }

  lemma TakeLone(s: State, attempts: nat, redeliveries: nat, lapses: nat)
    requires Lone(s, attempts, redeliveries, lapses) && s.rows[0].nextAttemptAt <= s.now
    ensures var s' := Apply(s, Take(1));
            && Lone(s', attempts + 1, redeliveries, lapses + if s.trail[0].cause.Leased? then 1 else 0)
            && s'.rows[0].nextAttemptAt == s.now + CLAIM_LEASE_SECONDS && s'.now == s.now
            && s'.trail[0].cause == Leased(s.now) && Claim(0, attempts + 1) in s'.claims
  {
    var key := Key(s.rows[0].nextAttemptAt, 0);
    assert DueKeys(s.rows, s.now) == {key};
    var page := ClaimPage(s.rows, s.now, 1);
    assert |page| == 1 && page[0] == key;
    assert 0 in ClaimedIds(s.rows, s.now, 1);
  }

  lemma FailLone(s: State, number: nat)
    requires number < MAX_ATTEMPTS && Lone(s, number, 0, 0) && Claim(0, number) in s.claims
    ensures var s' := Apply(Apply(s, Fail(Claim(0, number), None)), Tick(7200));
            Lone(s', number, 0, 0) && s'.rows[0].nextAttemptAt <= s'.now && s'.trail[0].cause.Available?
  {
  }

  lemma RunThree(s: State, a: Step, b: Step, c: Step)
    ensures Run(s, [a, b, c]) == Apply(Apply(Apply(s, a), b), c)
  {
    assert [a, b, c][1..] == [b, c] && [b, c][1..] == [c] && [c][1..] == [];
    assert Run(Apply(Apply(s, a), b), [c]) == Run(Apply(Apply(Apply(s, a), b), c), []);
    assert Run(Apply(s, a), [b, c]) == Run(Apply(Apply(s, a), b), [c]);
  }

  /** Five failures, each waited out: attempts 1 to 5, and the row is available once more. */
  lemma {:induction false} FailingRun(n: nat) returns (steps: seq<Step>)
    requires n < MAX_ATTEMPTS
    ensures var s := Run(Init(), steps);
            Lone(s, n, 0, 0) && s.rows[0].nextAttemptAt <= s.now && s.trail[0].cause.Available?
  {
    if n == 0 {
      steps := [Enqueue(0, 0, 0, 0)];
      assert Run(Init(), steps) == Run(Apply(Init(), steps[0]), []);
    } else {
      var before := FailingRun(n - 1);
      var s := Run(Init(), before);
      steps := before + [Take(1), Fail(Claim(0, n), None), Tick(7200)];
      RunAppend(Init(), before, [Take(1), Fail(Claim(0, n), None), Tick(7200)]);
      RunThree(s, Take(1), Fail(Claim(0, n), None), Tick(7200));
      TakeLone(s, n - 1, 0, 0);
      FailLone(Apply(s, Take(1)), n);
    }
  }

  lemma ThenTake(steps: seq<Step>, step: Step)
    ensures Run(Init(), steps + [step, Take(1)]) == Apply(Apply(Run(Init(), steps), step), Take(1))
  {
    RunTwo(Init(), steps, step, Take(1));
  }

  /** No smaller bound would do: every pair of counts is reached with the bound met exactly. */
  lemma {:induction false} BoundIsAttained(redeliveries: nat, lapses: nat) returns (steps: seq<Step>)
    ensures var s := Run(Init(), steps);
            && Lone(s, MAX_ATTEMPTS + redeliveries + lapses, redeliveries, lapses)
            && s.trail[0].cause == Leased(s.now) && s.rows[0].nextAttemptAt == s.now + CLAIM_LEASE_SECONDS
    decreases redeliveries + lapses
  {
    if redeliveries > 0 {
      var before := BoundIsAttained(redeliveries - 1, lapses);
      steps := before + [Redeliver(0), Take(1)];
      ThenTake(before, Redeliver(0));
      TakeLone(Apply(Run(Init(), before), Redeliver(0)),
               MAX_ATTEMPTS + redeliveries - 1 + lapses, redeliveries, lapses);
    } else if lapses > 0 {
      var before := BoundIsAttained(redeliveries, lapses - 1);
      steps := before + [Tick(CLAIM_LEASE_SECONDS), Take(1)];
      ThenTake(before, Tick(CLAIM_LEASE_SECONDS));
      TakeLone(Apply(Run(Init(), before), Tick(CLAIM_LEASE_SECONDS)), MAX_ATTEMPTS + lapses - 1, 0, lapses - 1);
    } else {
      var before := FailingRun(MAX_ATTEMPTS - 1);
      steps := before + [Tick(0), Take(1)];
      ThenTake(before, Tick(0));
      TakeLone(Apply(Run(Init(), before), Tick(0)), MAX_ATTEMPTS - 1, 0, 0);
    }
  }

  // ---------- The worker ----------

  /** What came back for one claimed delivery, and whether the write that records it went through. */
  datatype Reply = Reply(answer: Option<int>, recorded: bool)

  /** A failing endpoint is given the whole schedule: the five waits between six attempts add up to 9370 seconds. */
  lemma WaitsAddUp()
    ensures BackoffSeconds(1) + BackoffSeconds(2) + BackoffSeconds(3) + BackoffSeconds(4) + BackoffSeconds(5) == 9370
  {
  }

  lemma BackoffGrows(attempts: int, more: int)
    requires 0 <= attempts <= more
    ensures BackoffSeconds(attempts) <= BackoffSeconds(more)
  {
  }

  predicate IsSuccess(status: int) { 200 <= status < 300 }

  /** The step a worker takes on a reply: success settles, everything else is a failed attempt. */
  function Outcome(claim: Claim, reply: Reply): Step {
    if !reply.recorded then Lose(claim)
    else match reply.answer
      case Some(status) => if IsSuccess(status) then Succeed(claim, status) else Fail(claim, Some(status))
      case None => Fail(claim, None)
  }

  /**
   What a recorded reply makes of its row: an answer from 200 to 299 delivers it; any other, or none,
   fails it for good from the sixth attempt on and otherwise leaves it to be sent again later.
   */
  lemma ReplyDecides(s: State, claim: Claim, reply: Reply)
    requires claim in s.claims && claim.id in s.rows && reply.recorded
    ensures var s', row := Apply(s, Outcome(claim, reply)), s.rows[claim.id];
            && s'.rows.Keys == s.rows.Keys && s'.claims == s.claims - {claim} && s'.now == s.now
            && (forall id :: id in s.rows && id != claim.id ==> s'.rows[id] == s.rows[id])
            && (if reply.answer.Some? && 200 <= reply.answer.value < 300 then
                  s'.rows[claim.id] == row.(status := Delivered, responseStatus := reply.answer,
                                            deliveredAt := Some(s.now))
                else
                  && s'.rows[claim.id] == row.(status := if claim.number < 6 then Pending else Failed,
                                               responseStatus := reply.answer,
                                               nextAttemptAt := s'.rows[claim.id].nextAttemptAt)
                  && s.now + 10 <= s'.rows[claim.id].nextAttemptAt <= s.now + 7200)
  {
  }

  /** A reply that could not be recorded leaves the table alone. */
  lemma UnrecordedChangesNothing(s: State, claim: Claim, reply: Reply)
    requires !reply.recorded
    ensures Apply(s, Outcome(claim, reply)) == s.(claims := s.claims - {claim})
  {
  }

  /** One batch as a run of the machine: everybody else goes on while each request is out. */
  function Script(batch: seq<Claim>, reply: Claim -> Reply, others: nat -> seq<Step>): seq<Step> {
    if batch == [] then
      []
    else
      var last := |batch| - 1;
      Script(batch[..last], reply, others) + others(last) + [Outcome(batch[last], reply(batch[last]))]
  }

  /** Nobody but the worker a claim was handed to records what became of it. */
  predicate RecordsNone(step: Step, batch: seq<Claim>) {
    (step.Succeed? || step.Fail? || step.Lose?) ==> step.claim !in batch
  }

  lemma {:induction false} OthersLeaveClaims(s: State, steps: seq<Step>, batch: seq<Claim>)
    requires forall i :: 0 <= i < |steps| ==> RecordsNone(steps[i], batch)
    ensures forall c :: c in batch && c in s.claims ==> c in Run(s, steps).claims
    decreases |steps|
  {
    if steps != [] {
      OneLeavesClaims(s, steps[0], batch);
      hide Apply;
      OthersLeaveClaims(Apply(s, steps[0]), steps[1..], batch);
    }
  }

  lemma OneLeavesClaims(s: State, step: Step, batch: seq<Claim>)
    requires RecordsNone(step, batch)
    ensures forall c :: c in batch && c in s.claims ==> c in Apply(s, step).claims
  {
  }

  /** What a claim hands its worker: the page in order, each with its new attempt number. */
  function Batch(rows: Rows, now: int, limit: nat): (batch: seq<Claim>)
    ensures |batch| == |ClaimPage(rows, now, limit)|
    ensures forall i :: 0 <= i < |batch| ==>
                          && batch[i].id == ClaimPage(rows, now, limit)[i].id
                          && batch[i].id in rows && batch[i].number == rows[batch[i].id].attempts + 1
  {
    ClaimedAreDue(rows, now, limit);
    var page := ClaimPage(rows, now, limit);
    seq(|page|, i requires 0 <= i < |page| && page[i].id in rows => Claim(page[i].id, rows[page[i].id].attempts + 1))
  }

  lemma BatchIsHeld(s: State, limit: nat)
    ensures var batch := Batch(s.rows, s.now, limit);
            && (forall i :: 0 <= i < |batch| ==> batch[i] in Apply(s, Take(limit)).claims)
            && (forall i, j :: 0 <= i < j < |batch| ==> batch[i].id != batch[j].id)
  {
  }

  class WebhookDeliverer {
    // The table, shared with everybody else, and who holds what of it.
    var now: int
    var rows: Rows
    var trail: map<nat, Trail>
    var claims: set<Claim>

    constructor (state: State)
      ensures Snapshot() == state
    {
      now, rows, trail, claims := state.now, state.rows, state.trail, state.claims;
    }

    function Snapshot(): State reads this {
      State(now, rows, trail, claims)
    }

    /** Everybody else, while a request is out. */
    method Await(steps: seq<Step>)
      modifies this
      ensures Snapshot() == Run(old(Snapshot()), steps)
    {
      hide Run;
      var after := Run(Snapshot(), steps);
      now, rows, trail, claims := after.now, after.rows, after.trail, after.claims;
    }

    /** Leases due deliveries, earliest first, and returns each with its new attempt number. */
    method ClaimDueDeliveries(limit: nat) returns (batch: seq<Claim>)
      modifies this
      ensures Snapshot() == Apply(old(Snapshot()), Take(limit))
      ensures batch == Batch(old(rows), old(now), limit)
    {
      hide ClaimPage;
      var after := Apply(Snapshot(), Take(limit));
      batch := Batch(rows, now, limit);
      var chosen := ClaimedIds(rows, now, limit);
      rows := map id | id in rows ::
        if id in chosen
        then rows[id].(attempts := rows[id].attempts + 1, nextAttemptAt := now + CLAIM_LEASE_SECONDS)
        else rows[id];
      trail, claims := after.trail, after.claims;
    }

    /** `mark_delivered`: never looks at the row's current status. */
    method MarkDelivered(claim: Claim, response: int)
      requires claim in claims
      modifies this
      ensures Snapshot() == Apply(old(Snapshot()), Succeed(claim, response))
      ensures claim.id in old(rows) ==>
                rows == old(rows)[claim.id := old(rows)[claim.id].(
                          status := Delivered, responseStatus := Some(response), deliveredAt := Some(now))]
    {
      var after := Apply(Snapshot(), Succeed(claim, response));
      if claim.id in rows {
        rows := rows[claim.id := rows[claim.id].(
          status := Delivered, responseStatus := Some(response), deliveredAt := Some(now))];
      }
      trail, claims := after.trail, after.claims;
    }

    /** `record_failure`: retries until the claim's own number reaches the limit, then gives up. */
    method RecordFailure(claim: Claim, refusal: Option<int>) returns (gaveUp: bool)
      requires claim in claims
      modifies this
      ensures Snapshot() == Apply(old(Snapshot()), Fail(claim, refusal))
      ensures gaveUp <==> claim.id in rows && claim.number >= MAX_ATTEMPTS
      ensures claim.id in old(rows) ==>
                && claim.id in rows && rows[claim.id].nextAttemptAt > now
                && rows == old(rows)[claim.id := old(rows)[claim.id].(
                             status := if gaveUp then Failed else Pending, responseStatus := refusal,
                             nextAttemptAt := rows[claim.id].nextAttemptAt)]
    {
      var after := Apply(Snapshot(), Fail(claim, refusal));
      var giveUp := claim.number >= MAX_ATTEMPTS;
      gaveUp := false;
      if claim.id in rows {
        rows := rows[claim.id := rows[claim.id].(
          status := if giveUp then Failed else Pending,
          responseStatus := refusal,
          nextAttemptAt := now + BackoffSeconds(claim.number))];
        gaveUp := giveUp;
      }
      trail, claims := after.trail, after.claims;
    }

    method Deliver(claim: Claim, reply: Reply)
      requires claim in claims
      modifies this
      ensures Snapshot() == Apply(old(Snapshot()), Outcome(claim, reply))
      ensures claims == old(claims) - {claim} && rows.Keys == old(rows).Keys
      ensures !reply.recorded ==> rows == old(rows)
      ensures reply.recorded && claim.id in rows ==>
                && rows[claim.id].responseStatus == reply.answer
                && (reply.answer.Some? && 200 <= reply.answer.value < 300 ==>
                      rows[claim.id].status == Delivered && rows[claim.id].deliveredAt == Some(now))
                && (reply.answer.None? || !(200 <= reply.answer.value < 300) ==>
                      && rows[claim.id].status == (if claim.number >= 6 then Failed else Pending)
                      && rows[claim.id].nextAttemptAt > now)
    {
      if !reply.recorded {
        claims := claims - {claim};
        return;
      }
      match reply.answer
      case Some(status) =>
        if IsSuccess(status) {
          MarkDelivered(claim, status);
        } else {
          var _ := RecordFailure(claim, Some(status));
        }
      case None =>
        var _ := RecordFailure(claim, None);
    }

    /**
     Sends one batch: each claimed delivery is answered for once, in order, whatever everybody else
     does to the table in between.
     */
    method RunOnce(limit: nat, reply: Claim -> Reply, others: nat -> seq<Step>) returns (attempted: nat)
      requires Inv(Snapshot())
      requires forall k, i :: 0 <= i < |others(k)| ==> RecordsNone(others(k)[i], Batch(rows, now, limit))
      modifies this
      ensures attempted == |ClaimPage(old(rows), old(now), limit)|
      ensures Snapshot() == Run(Apply(old(Snapshot()), Take(limit)),
                                Script(Batch(old(rows), old(now), limit), reply, others))
      ensures Inv(Snapshot())
    {
      hide Apply, Inv, Run, Script, Batch, RecordsNone, Outcome, ClaimPage;
      ghost var before := Snapshot();
      BatchIsHeld(before, limit);
      var batch := ClaimDueDeliveries(limit);
      ghost var start := Snapshot();
      RunNone(start, batch, reply, others);
      var i := 0;
      while i < |batch|
        invariant 0 <= i <= |batch|
        invariant Snapshot() == Run(start, Script(batch[..i], reply, others))
        invariant forall j :: i <= j < |batch| ==> batch[j] in claims
      {
        ghost var script := Script(batch[..i], reply, others);
        OthersLeaveClaims(Snapshot(), others(i), batch);
        Await(others(i));
        Deliver(batch[i], reply(batch[i]));
        ScriptNext(batch, reply, others, i);
        RunMore(start, script, others(i), Outcome(batch[i], reply(batch[i])));
        i := i + 1;
      }
      assert batch[..i] == batch;
      StepKeepsInv(before, Take(limit));
      RunKeepsInv(start, Script(batch, reply, others));
      attempted := |batch|;
    }
  }

  lemma RunNone(s: State, batch: seq<Claim>, reply: Claim -> Reply, others: nat -> seq<Step>)
    ensures Run(s, Script(batch[..0], reply, others)) == s
  {
  }

  lemma ScriptNext(batch: seq<Claim>, reply: Claim -> Reply, others: nat -> seq<Step>, i: nat)
    requires i < |batch|
    ensures Script(batch[..i + 1], reply, others)
            == Script(batch[..i], reply, others) + others(i) + [Outcome(batch[i], reply(batch[i]))]
  {
    assert batch[..i + 1][..i] == batch[..i];
  }

  lemma RunMore(s: State, steps: seq<Step>, more: seq<Step>, last: Step)
    ensures Run(s, steps + more + [last]) == Apply(Run(Run(s, steps), more), last)
  {
    RunAppend(s, steps, more);
    RunAppend(s, steps + more, [last]);
    RunOne(Run(s, steps + more), last);
  }

  lemma RunTwo(s: State, steps: seq<Step>, a: Step, b: Step)
    ensures Run(s, steps + [a, b]) == Apply(Apply(Run(s, steps), a), b)
  {
    RunAppend(s, steps, [a, b]);
    assert [a, b][1..] == [b] && [b][1..] == [];
    assert Run(Apply(Run(s, steps), a), [b]) == Run(Apply(Apply(Run(s, steps), a), b), []);
  }
}
