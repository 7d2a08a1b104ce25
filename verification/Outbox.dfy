/**
 The outbox table and its three statements: claim by lease, settle, reschedule.

 `Apply` gives the meaning of each statement; `OutboxRepository` is the table updated in place and
 proved against it. The lemmas quantify over every interleaving of statements by any number of
 workers, including workers whose lease has long passed.
 */
module Outbox {
  import opened Common
  import opened Ordering

  const CLAIM_LEASE_SECONDS := 120

  function BackoffSeconds(attempts: int): (delay: int)
    ensures 5 <= delay <= 3600
  {
    match attempts
    case 0 => 5
    case 1 => 5
    case 2 => 30
    case 3 => 120
    case 4 => 600
    case _ => 3600
  }

  datatype Event = Event(org: nat, form: nat, submission: nat, attempts: nat, availableAt: int,
                         dispatchedAt: Option<int>)

  /** `now` is the database clock and `nextId` the identity sequence behind `id`. */
  datatype Table = Table(now: int, rows: map<nat, Event>, nextId: nat)

  predicate WellFormed(t: Table) {
    forall id :: id in t.rows ==> id < t.nextId
  }

  predicate Owed(t: Table, id: nat) {
    id in t.rows && t.rows[id].dispatchedAt.None?
  }

  predicate Due(t: Table, id: nat) {
    Owed(t, id) && t.rows[id].availableAt <= t.now
  }

  function KeyOf(t: Table, id: nat): Key
    requires id in t.rows
  {
    Key(t.rows[id].availableAt, id)
  }

  function DueKeys(t: Table): set<Key> {
    set id | id in t.rows && Due(t, id) :: KeyOf(t, id)
  }

  function ClaimedIds(t: Table, limit: nat): set<nat> {
    set k | k in FirstN(DueKeys(t), limit) :: k.id
  }

  // ---------- The statements ----------

  function Leased(t: Table, id: nat): Event
    requires id in t.rows
  {
    t.rows[id].(attempts := t.rows[id].attempts + 1, availableAt := t.now + CLAIM_LEASE_SECONDS)
  }

  function AfterClaim(t: Table, limit: nat): Table {
    var claimed := ClaimedIds(t, limit);
    t.(rows := map id | id in t.rows :: if id in claimed then Leased(t, id) else t.rows[id])
  }

  function AfterSettle(t: Table, id: nat): Table {
    if id in t.rows then t.(rows := t.rows[id := t.rows[id].(dispatchedAt := Some(t.now))]) else t
  }

  function AfterReschedule(t: Table, id: nat, delay: int): Table {
    if id in t.rows then t.(rows := t.rows[id := t.rows[id].(availableAt := t.now + delay)]) else t
  }

  function AfterInsert(t: Table, org: nat, form: nat, submission: nat): Table {
    t.(rows := t.rows[t.nextId := Event(org, form, submission, 0, t.now, None)], nextId := t.nextId + 1)
  }

  datatype Step =
    | Tick(seconds: nat)
    | Accept(org: nat, form: nat, submission: nat)
    | Claim(limit: nat)
    | Settle(id: nat)
    | PutBack(id: nat, attempts: nat)
    | Cascade(removed: set<nat>)

  function Apply(t: Table, step: Step): Table {
    match step
    case Tick(seconds) => t.(now := t.now + seconds)
    case Accept(org, form, submission) => AfterInsert(t, org, form, submission)
    case Claim(limit) => AfterClaim(t, limit)
    case Settle(id) => AfterSettle(t, id)
    case PutBack(id, attempts) => AfterReschedule(t, id, BackoffSeconds(attempts))
    case Cascade(removed) => t.(rows := map id | id in t.rows && id !in removed :: t.rows[id])
  }

  function Run(t: Table, steps: seq<Step>): Table
    decreases |steps|
  {
    if steps == [] then t else Run(Apply(t, steps[0]), steps[1..])
  }

  // ---------- What the statements leave behind ----------

  /** Only that row, and only the one column. */
  lemma SettlingEndsTheDebt(t: Table, id: nat)
    ensures var t' := Apply(t, Settle(id));
            && !Owed(t', id) && t'.now == t.now && t'.nextId == t.nextId && t'.rows.Keys == t.rows.Keys
            && (id in t.rows ==> t'.rows[id] == t.rows[id].(dispatchedAt := Some(t.now)))
            && (forall other :: other in t.rows && other != id ==> t'.rows[other] == t.rows[other])
  {
  }

  /** Still owed if it was, and out of reach for the backoff, which never shrinks with the attempts. */
  lemma PuttingBackWaits(t: Table, id: nat, attempts: nat, more: nat)
    requires attempts <= more
    ensures var t' := Apply(t, PutBack(id, attempts));
            && (Owed(t', id) <==> Owed(t, id)) && !Due(t', id)
            && t'.now == t.now && t'.nextId == t.nextId && t'.rows.Keys == t.rows.Keys
            && (id in t.rows ==>
                  && t'.rows[id] == t.rows[id].(availableAt := t'.rows[id].availableAt)
                  && t.now + 5 <= t'.rows[id].availableAt <= t.now + 3600
                  && t'.rows[id].availableAt <= Apply(t, PutBack(id, more)).rows[id].availableAt)
            && (forall other :: other in t.rows && other != id ==> t'.rows[other] == t.rows[other])
  {
  }

  lemma WaitsAddUp()
    ensures BackoffSeconds(1) + BackoffSeconds(2) + BackoffSeconds(3) + BackoffSeconds(4) + BackoffSeconds(5) == 4355
  {
  }

  /** One attempt more, out of reach for the lease, and otherwise as it was. */
  lemma ClaimingLeases(t: Table, limit: nat, id: nat)
    requires id in t.rows
    ensures var row, t' := t.rows[id], Apply(t, Claim(limit));
            && id in t'.rows
            && t'.rows[id] == if id in ClaimedIds(t, limit)
                              then row.(attempts := row.attempts + 1, availableAt := t.now + 120) else row
  {
  }

  lemma AcceptedIsDue(t: Table, org: nat, form: nat, submission: nat)
    requires WellFormed(t)
    ensures var t' := Apply(t, Accept(org, form, submission));
            && t.nextId !in t.rows && Due(t', t.nextId)
            && t'.rows == t.rows[t.nextId := Event(org, form, submission, 0, t.now, None)]
  {
  }

  // ---------- What a claim takes ----------

  /** A claim takes due rows only, as many as fit, and never a later row before an earlier one. */
  lemma ClaimTakesTheEarliest(t: Table, limit: nat)
    ensures forall id :: id in ClaimedIds(t, limit) ==> Due(t, id)
    ensures |ClaimedIds(t, limit)| == if |DueKeys(t)| < limit then |DueKeys(t)| else limit
    ensures forall a, b :: a in ClaimedIds(t, limit) && b !in ClaimedIds(t, limit) && Due(t, b)
                           ==> Before(KeyOf(t, a), KeyOf(t, b))
  {
    var page := FirstN(DueKeys(t), limit);
    forall i | 0 <= i < |page| ensures Due(t, page[i].id) && page[i] == KeyOf(t, page[i].id) {
      assert page[i] in DueKeys(t);
    }
    var ids := seq(|page|, i requires 0 <= i < |page| => page[i].id);
    SetOfDistinct(ids);
    forall id | id in ClaimedIds(t, limit) ensures exists i :: 0 <= i < |ids| && ids[i] == id {
      var i :| 0 <= i < |page| && page[i].id == id;
      assert ids[i] == id;
    }
    assert forall i :: 0 <= i < |ids| ==> page[i] in page && ids[i] in ClaimedIds(t, limit);
    assert ClaimedIds(t, limit) == (set i | 0 <= i < |ids| :: ids[i]);
    forall a, b | a in ClaimedIds(t, limit) && b !in ClaimedIds(t, limit) && Due(t, b)
      ensures Before(KeyOf(t, a), KeyOf(t, b))
    {
      var i :| 0 <= i < |page| && page[i].id == a;
      assert KeyOf(t, b) in DueKeys(t) && KeyOf(t, b) !in page;
    }
  }

  // ---------- Runs ----------

  predicate ClaimedDuring(t: Table, steps: seq<Step>, id: nat)
    decreases |steps|
  {
    steps != [] && (
      || (steps[0].Claim? && id in ClaimedIds(t, steps[0].limit))
      || ClaimedDuring(Apply(t, steps[0]), steps[1..], id))
  }

  /** Whether a statement other than a claim writes to that row. */
  predicate Touches(step: Step, id: nat) {
    || (step.Settle? && step.id == id)
    || (step.PutBack? && step.id == id)
    || (step.Cascade? && id in step.removed)
  }

  function Passes(steps: seq<Step>): nat {
    if steps == [] then 0 else (if steps[0].Claim? then 1 else 0) + Passes(steps[1..])
  }

  function Elapsed(steps: seq<Step>): nat {
    if steps == [] then 0 else (if steps[0].Tick? then steps[0].seconds else 0) + Elapsed(steps[1..])
  }

  /** The undispatched rows that sort in front of `id`, due or not. */
  function Ahead(t: Table, id: nat): set<nat>
    requires id in t.rows
  {
    set other | other in t.rows && Owed(t, other) && Before(KeyOf(t, other), KeyOf(t, id))
  }

  lemma StepKeepsWellFormed(t: Table, step: Step)
    requires WellFormed(t)
    ensures WellFormed(Apply(t, step))
  {
  }

  /** Every write moves rows behind a due row, so what is ahead of it can only shrink. */
  lemma AheadOnlyShrinks(t: Table, step: Step, id: nat)
    requires WellFormed(t) && Due(t, id) && !Touches(step, id)
    requires !(step.Claim? && id in ClaimedIds(t, step.limit))
    ensures id in Apply(t, step).rows && Due(Apply(t, step), id)
    ensures Ahead(Apply(t, step), id) <= Ahead(t, id)
    ensures step.Claim? ==> Ahead(Apply(t, step), id) <= Ahead(t, id) - ClaimedIds(t, step.limit)
  {
    if step.Claim? {
      ClaimTakesTheEarliest(t, step.limit);
    }
  }

  lemma PassOvertakes(t: Table, limit: nat, id: nat)
    requires WellFormed(t) && Due(t, id) && id !in ClaimedIds(t, limit)
    ensures |Ahead(Apply(t, Claim(limit)), id)| + limit <= |Ahead(t, id)|
  {
    var claimed := ClaimedIds(t, limit);
    AheadOnlyShrinks(t, Claim(limit), id);
    ClaimTakesTheEarliest(t, limit);
    assert claimed <= Ahead(t, id);
    var page := FirstN(DueKeys(t), limit);
    assert |claimed| == limit by {
      if |DueKeys(t)| <= limit {
        assert KeyOf(t, id) in DueKeys(t) && KeyOf(t, id) !in page;
        PageOfEverything(page, DueKeys(t), limit);
      }
    }
    SubsetSize(Ahead(AfterClaim(t, limit), id), Ahead(t, id) - claimed);
  }

  /**
   No starvation: a due event with n owed events ahead of it is claimed by the (n / limit + 1)-th
   claim pass, whatever is accepted, claimed, settled or rescheduled in between. The only way out
   is that a worker holding an older claim settles it, puts it back, or its organization goes.
   */
  lemma NoStarvation(t: Table, steps: seq<Step>, id: nat, limit: nat)
    requires WellFormed(t) && Due(t, id) && limit > 0
    requires forall i :: 0 <= i < |steps| && steps[i].Claim? ==> steps[i].limit == limit
    requires Passes(steps) >= |Ahead(t, id)| / limit + 1
    ensures ClaimedDuring(t, steps, id) || exists i :: 0 <= i < |steps| && Touches(steps[i], id)
  {
    EnoughPasses(|Ahead(t, id)|, Passes(steps), limit);
    ClaimedOnceCapacityExceeds(t, steps, id, limit);
  }

  lemma {:induction false} ClaimedOnceCapacityExceeds(t: Table, steps: seq<Step>, id: nat, limit: nat)
    requires WellFormed(t) && id in t.rows && Due(t, id)
    requires forall i :: 0 <= i < |steps| && steps[i].Claim? ==> steps[i].limit == limit
    requires Passes(steps) * limit > |Ahead(t, id)|
    ensures ClaimedDuring(t, steps, id) || exists i :: 0 <= i < |steps| && Touches(steps[i], id)
    decreases |steps|
  {
    hide Apply, ClaimedIds, Ahead, Due, WellFormed, Touches;
    var step, rest := steps[0], steps[1..];
    if Touches(step, id) || (step.Claim? && id in ClaimedIds(t, limit)) {
      return;
    }
    var t' := Apply(t, step);
    AheadOnlyShrinks(t, step, id);
    StepKeepsWellFormed(t, step);
    if step.Claim? {
      PassOvertakes(t, limit, id);
      assert Passes(steps) * limit == limit + Passes(rest) * limit;
    } else {
      SubsetSize(Ahead(t', id), Ahead(t, id));
    }
    ClaimedOnceCapacityExceeds(t', rest, id, limit);
    if !ClaimedDuring(t', rest, id) {
      var i :| 0 <= i < |rest| && Touches(rest[i], id);
      assert steps[i + 1] == rest[i];
    }
  }

  /**
   A settled event is settled for good: no statement of any worker, a stale `reschedule` included,
   makes it owed again, and no claim ever counts another attempt against it.
   */
  lemma {:induction false} SettledStaysSettled(t: Table, steps: seq<Step>, id: nat)
    requires WellFormed(t) && id in t.rows && t.rows[id].dispatchedAt.Some?
    ensures id in Run(t, steps).rows ==>
              && Run(t, steps).rows[id].dispatchedAt.Some?
              && Run(t, steps).rows[id].attempts == t.rows[id].attempts
    ensures !ClaimedDuring(t, steps, id)
    decreases |steps|
  {
    if steps != [] {
      if steps[0].Claim? { ClaimTakesTheEarliest(t, steps[0].limit); }
      StepKeepsWellFormed(t, steps[0]);
      if id in Apply(t, steps[0]).rows {
        SettledStaysSettled(Apply(t, steps[0]), steps[1..], id);
      } else {
        GoneStaysGone(Apply(t, steps[0]), steps[1..], id);
      }
    }
  }

  /** Identity values are never reused, so a removed row does not come back. */
  lemma {:induction false} GoneStaysGone(t: Table, steps: seq<Step>, id: nat)
    requires WellFormed(t) && id < t.nextId && id !in t.rows
    ensures id !in Run(t, steps).rows && !ClaimedDuring(t, steps, id)
    decreases |steps|
  {
    if steps != [] {
      if steps[0].Claim? { ClaimTakesTheEarliest(t, steps[0].limit); }
      GoneStaysGone(Apply(t, steps[0]), steps[1..], id);
    }
  }

  /**
   The lease: once claimed, an event is invisible to every other worker until the lease has run
   out in full, unless a worker puts it back.
   */
  lemma {:induction false} LeaseExcludes(t: Table, steps: seq<Step>, id: nat, until: int)
    requires WellFormed(t) && id in t.rows && t.rows[id].availableAt == until
    requires t.now + Elapsed(steps) < until
    requires forall i :: 0 <= i < |steps| ==> !(steps[i].PutBack? && steps[i].id == id)
    ensures !ClaimedDuring(t, steps, id)
    decreases |steps|
  {
    if steps != [] {
      if steps[0].Claim? { ClaimTakesTheEarliest(t, steps[0].limit); }
      StepKeepsWellFormed(t, steps[0]);
      if id in Apply(t, steps[0]).rows {
        LeaseExcludes(Apply(t, steps[0]), steps[1..], id, until);
      } else {
        GoneStaysGone(Apply(t, steps[0]), steps[1..], id);
      }
    }
  }

  /** And it comes back: an owed event nobody claims or writes to is due once its time has passed. */
  lemma {:induction false} DueInTime(t: Table, steps: seq<Step>, id: nat)
    requires WellFormed(t) && Owed(t, id) && t.rows[id].availableAt <= t.now + Elapsed(steps)
    requires !ClaimedDuring(t, steps, id) && forall i :: 0 <= i < |steps| ==> !Touches(steps[i], id)
    ensures Due(Run(t, steps), id)
    decreases |steps|
  {
    if steps != [] {
      var step, rest := steps[0], steps[1..];
      assert forall i :: 0 <= i < |rest| ==> rest[i] == steps[i + 1];
      StepKeepsWellFormed(t, step);
      UntouchedStays(t, step, id);
      hide Apply, WellFormed, Owed, Due, ClaimedIds, Touches;
      DueInTime(Apply(t, step), rest, id);
    }
  }

  lemma UntouchedStays(t: Table, step: Step, id: nat)
    requires WellFormed(t) && Owed(t, id) && !Touches(step, id)
    requires !(step.Claim? && id in ClaimedIds(t, step.limit))
    ensures var t' := Apply(t, step);
            && Owed(t', id) && t'.rows[id].availableAt == t.rows[id].availableAt
            && t'.now == t.now + if step.Tick? then step.seconds else 0
  {
    hide ClaimedIds;
  }

  lemma ClaimLeases(t: Table, steps: seq<Step>, id: nat, limit: nat)
    requires WellFormed(t) && id in ClaimedIds(t, limit)
    requires Elapsed(steps) < CLAIM_LEASE_SECONDS
    requires forall i :: 0 <= i < |steps| ==> !(steps[i].PutBack? && steps[i].id == id)
    ensures !ClaimedDuring(AfterClaim(t, limit), steps, id)
  {
    ClaimTakesTheEarliest(t, limit);
    LeaseExcludes(AfterClaim(t, limit), steps, id, t.now + CLAIM_LEASE_SECONDS);
  }

  // ---------- The table in place ----------

  class OutboxRepository {
    var now: int
    var rows: map<nat, Event>
    var nextId: nat

    constructor ()
      ensures TableOf() == Table(0, map[], 0)
    {
      now, rows, nextId := 0, map[], 0;
    }

    function TableOf(): Table reads this {
      Table(now, rows, nextId)
    }

    /** Leases what a claim takes; the result holds the rows as they are after it. */
    method ClaimDue(limit: nat) returns (claimed: map<nat, Event>)
      modifies this
      ensures TableOf() == AfterClaim(old(TableOf()), limit)
      ensures claimed.Keys == ClaimedIds(old(TableOf()), limit)
      ensures forall id :: id in claimed ==> claimed[id] == rows[id]
    {
      ClaimTakesTheEarliest(TableOf(), limit);
      var chosen := ClaimedIds(TableOf(), limit);
      rows := map id | id in rows ::
        if id in chosen
        then rows[id].(attempts := rows[id].attempts + 1, availableAt := now + CLAIM_LEASE_SECONDS)
        else rows[id];
      claimed := map id | id in chosen :: rows[id];
    }

    method MarkDispatched(id: nat)
      modifies this
      ensures TableOf() == AfterSettle(old(TableOf()), id)
      ensures id in old(rows) ==> rows == old(rows)[id := old(rows)[id].(dispatchedAt := Some(now))]
      ensures id !in old(rows) ==> rows == old(rows)
      ensures !Owed(TableOf(), id)
    {
      if id in rows {
        rows := rows[id := rows[id].(dispatchedAt := Some(now))];
      }
    }

    method Reschedule(id: nat, delay: int)
      modifies this
      ensures TableOf() == AfterReschedule(old(TableOf()), id, delay)
      ensures id in old(rows) ==> rows == old(rows)[id := old(rows)[id].(availableAt := now + delay)]
      ensures id !in old(rows) ==> rows == old(rows)
    {
      if id in rows {
        rows := rows[id := rows[id].(availableAt := now + delay)];
      }
    }
  }
}
