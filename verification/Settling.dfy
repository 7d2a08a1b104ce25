/** Settling is what ends an event: from then on no claim ever takes it again. */
module Settling {
  import opened Common
  import opened Dispatch
  import opened DispatchSafety
  import Outbox

  /** A worker comes away with exactly the events claimed, each as the claim left it, and goes on to one. */
  lemma ClaimHandsOver(s: State, w: nat, limit: nat, event: nat)
    requires Idle(s, w)
    ensures var s' := Apply(s, Work(w, Claim(limit)));
            && w in s'.workers && s'.workers[w].stage.Waiting?
            && s'.workers[w].batch.Keys == Outbox.ClaimedIds(s.outbox, limit)
            && (event in s'.workers[w].batch ==>
                  && event in s'.outbox.rows
                  && s'.workers[w].batch[event]
                     == Claimed(s'.outbox.rows[event].attempts, s'.outbox.rows[event].submission)
                  && StageOf(Apply(s', Work(w, Begin(event))), w)
                     == Reading(event, s'.outbox.rows[event].attempts, s'.outbox.rows[event].submission))
  {
    Outbox.ClaimTakesTheEarliest(s.outbox, limit);
    hide Outbox.ClaimedIds;
  }

  /** An error leaves the worker with the event to put back, by its own attempts; a stop leaves it to the lease. */
  lemma FailingAndStopping(s: State, w: nat)
    ensures var stage := StageOf(s, w);
            stage.Reading? || stage.FanningOut? || stage.Mailing? ==>
              StageOf(Apply(s, Work(w, Fail)), w) == Broken(stage.event, stage.attempts)
              && Apply(s, Work(w, Fail)) == s.(workers := Apply(s, Work(w, Fail)).workers)
    ensures var stage := StageOf(s, w);
            stage.Broken? ==>
              Apply(s, Work(w, PutBack)).outbox == Outbox.Apply(s.outbox, Outbox.PutBack(stage.event, stage.attempts))
    ensures Apply(s, Work(w, Crash)) == s.(workers := s.workers - {w})
  {
  }

  /** A dispatch reads the submission and its form as they are, and has nothing to do exactly without them. */
  lemma ReadDecides(s: State, w: nat)
    requires StageOf(s, w).Reading?
    ensures var stage, after := StageOf(s, w), StageOf(Apply(s, Work(w, Read)), w);
            && after.event == stage.event
            && (if stage.submission in s.submissions && s.submissions[stage.submission].form in s.forms then
                  after.FanningOut? && after.source.submission == stage.submission && ReadsAs(s, after.source)
                else
                  after == NothingLeft(stage.event, stage.submission))
  {
  }

  /** A dispatch that reached its end settles its own event, and touches no other row. */
  lemma SettleEndsTheEvent(s: State, w: nat)
    requires Completed(StageOf(s, w)).Some?
    ensures var event, s' := StageOf(s, w).event, Apply(s, Work(w, Settle));
            && !Outbox.Owed(s'.outbox, event) && s'.outbox.rows.Keys == s.outbox.rows.Keys
            && (event in s.outbox.rows ==>
                  s'.outbox.rows[event] == s.outbox.rows[event].(dispatchedAt := Some(s.outbox.now)))
            && (forall other :: other in s.outbox.rows && other != event ==>
                                  s'.outbox.rows[other] == s.outbox.rows[other])
            && s'.settlements == s.settlements + {Settlement(event, Completed(StageOf(s, w)).value)}
  {
  }

  /** A broken dispatch leaves its event owed, due again only after a while. */
  lemma PutBackKeepsTheEvent(s: State, w: nat)
    requires StageOf(s, w).Broken?
    ensures var event, s' := StageOf(s, w).event, Apply(s, Work(w, PutBack));
            && (Outbox.Owed(s'.outbox, event) <==> Outbox.Owed(s.outbox, event)) && !Outbox.Due(s'.outbox, event)
            && s'.outbox.rows.Keys == s.outbox.rows.Keys && s'.settlements == s.settlements
            && (forall other :: other in s.outbox.rows && other != event ==>
                                  s'.outbox.rows[other] == s.outbox.rows[other])
  {
  }

  /** No event on the record of settlements is owed. */
  ghost predicate Discharged(s: State) {
    forall x :: x in s.settlements ==> x.event < s.outbox.nextId && !Outbox.Owed(s.outbox, x.event)
  }

  lemma OutboxKeepsDischarged(t: Outbox.Table, step: Outbox.Step, id: nat)
    requires id < t.nextId && !Outbox.Owed(t, id)
    ensures var t' := Outbox.Apply(t, step); id < t'.nextId && !Outbox.Owed(t', id)
  {
    hide Outbox.ClaimedIds;
  }

  /** A settlement enters the record with the statement that writes `dispatched_at`. */
  lemma NewSettlement(s: State, step: Step, x: Settlement)
    requires Inv(s) && x in Apply(s, step).settlements && x !in s.settlements
    ensures x.event < s.outbox.nextId && !Outbox.Owed(Apply(s, step).outbox, x.event)
  {
    OnlySettlingSettles(s, step);
    var w := step.worker;
    var stage := StageOf(s, w);
    SettleEndsTheEvent(s, w);
    assert WorkerOk(s, s.workers[w]);
    hide Apply, Completed;
    assert OwedThrough(s, Completed(stage).value.submission, stage.event) by {
      CompletedIsHonoured(s, stage);
    }
  }

  lemma OnlySettlingSettles(s: State, step: Step)
    requires Apply(s, step).settlements != s.settlements
    ensures step.Work? && step.action == Settle && Completed(StageOf(s, step.worker)).Some?
  {
    hide Acted, Changed;
    match step
    case Request(change) => RequestsLeaveSettlements(s, change);
    case Work(w, action) =>
      if !action.Settle? {
        SameSettlements(s, w, action);
      } else if Completed(StageOf(s, w)).None? {
        OnlyCompletedSettles(s, w);
      }
    case _ =>
  }

  lemma OnlyCompletedSettles(s: State, w: nat)
    requires Completed(StageOf(s, w)).None?
    ensures Acted(s, w, Settle) == s
  {
  }

  lemma RequestsLeaveSettlements(s: State, change: Change)
    ensures Changed(s, change).settlements == s.settlements
  {
    hide Outbox.Apply, Matching, Orphaned;
  }

  lemma StepKeepsDischarged(s: State, step: Step)
    requires Inv(s) && Discharged(s)
    ensures Discharged(Apply(s, step))
  {
    hide Inv, Apply;
    var s' := Apply(s, step);
    StepRefines(s, step);
    forall x | x in s'.settlements ensures x.event < s'.outbox.nextId && !Outbox.Owed(s'.outbox, x.event) {
      if x in s.settlements {
        OutboxKeepsDischarged(s.outbox, OutboxStep(s, step), x.event);
      } else {
        NewSettlement(s, step, x);
        NextIdGrows(s.outbox, OutboxStep(s, step));
      }
    }
  }

  lemma NextIdGrows(t: Outbox.Table, step: Outbox.Step)
    ensures t.nextId <= Outbox.Apply(t, step).nextId
  {
  }

  lemma {:induction false} RunKeepsDischarged(s: State, steps: seq<Step>)
    requires Inv(s) && Discharged(s)
    ensures Discharged(Run(s, steps))
    decreases |steps|
  {
    hide Inv, Apply, Discharged;
    if steps != [] {
      StepKeepsInv(s, steps[0]);
      StepKeepsDischarged(s, steps[0]);
      RunKeepsDischarged(Apply(s, steps[0]), steps[1..]);
    }
  }

  /**
   Handled once: in every interleaving, an event that has been settled is not owed, and no claim pass
   of any continuation takes it again.
   */
  lemma HandledForGood(before: seq<Step>, after: seq<Step>, x: Settlement)
    requires x in Run(Init(), before).settlements
    ensures var s := Run(Init(), before);
            && !Outbox.Owed(s.outbox, x.event) && !Outbox.Owed(Run(s, after).outbox, x.event)
            && !Outbox.ClaimedDuring(s.outbox, OutboxTrace(s, after), x.event)
  {
    Reachable(before);
    RunKeepsDischarged(Init(), before);
    var s := Run(Init(), before);
    KeysOf(s);
    hide Run, Inv;
    OutboxRefines(s, after);
    if x.event in s.outbox.rows {
      Outbox.SettledStaysSettled(s.outbox, OutboxTrace(s, after), x.event);
    } else {
      Outbox.GoneStaysGone(s.outbox, OutboxTrace(s, after), x.event);
    }
  }
}
