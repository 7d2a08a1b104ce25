/**
 One dispatch worker, statement by statement. Between any two of its statements the rest of the
 system takes whatever steps `world` says, and any statement of its own may report an error.
 Whatever happens, what the worker does is a run of the dispatch machine.
 */
module Dispatcher {
  import opened Common
  import opened Dispatch
  import opened DispatchSafety
  import Outbox

  predicate NotBy(step: Step, worker: nat) {
    step.Work? ==> step.worker != worker
  }

  /** What goes on around a worker: everybody else's steps before each of its statements, and which of those fail. */
  datatype World = World(others: nat -> seq<Step>, fails: nat -> bool) {
    function Before(k: nat): seq<Step> { others(k) }

    predicate Failing(k: nat) { fails(k) }
  }

  /** Everybody else is not this worker. */
  ghost predicate AllNotBy(world: World, worker: nat) {
    forall k, i :: 0 <= i < |world.Before(k)| ==> NotBy(world.Before(k)[i], worker)
  }

  /** Nobody else's step touches this worker's entry. */
  lemma {:induction false} OthersLeaveMe(s: State, steps: seq<Step>, me: nat)
    requires forall i :: 0 <= i < |steps| ==> NotBy(steps[i], me)
    ensures me in Run(s, steps).workers <==> me in s.workers
    ensures me in s.workers ==> Run(s, steps).workers[me] == s.workers[me]
    decreases |steps|
  {
    if steps != [] {
      OneLeavesMe(s, steps[0], me);
      OthersLeaveMe(Apply(s, steps[0]), steps[1..], me);
    }
  }

  lemma OneLeavesMe(s: State, step: Step, me: nat)
    requires NotBy(step, me)
    ensures me in Apply(s, step).workers <==> me in s.workers
    ensures me in s.workers ==> Apply(s, step).workers[me] == s.workers[me]
  {
    match step
    case Request(change) => RequestsLeaveWorkers(s, change);
    case Work(w, action) =>
      if me in Apply(s, step).workers { OthersStand(s, w, action, me); }
      if me in s.workers { OthersRemain(s, w, action, me); }
    case _ =>
  }

  lemma OthersRemain(s: State, w: nat, action: Action, other: nat)
    requires other != w && other in s.workers
    ensures other in Acted(s, w, action).workers
  {
    hide AddDeliveries, Missing, Matching, FreshRows, Completed, Outbox.ClaimedIds, Outbox.Apply;
  }

  lemma {:induction false} RunAppend(s: State, a: seq<Step>, b: seq<Step>)
    ensures Run(s, a + b) == Run(Run(s, a), b)
    decreases |a|
  {
    if a == [] {
      assert a + b == b;
    } else {
      assert (a + b)[1..] == a[1..] + b;
      RunAppend(Apply(s, a[0]), a[1..], b);
    }
  }

  /** An id nobody has been given, standing in for a generated UUID. */
  method Unused(minted: set<nat>) returns (next: nat)
    ensures forall id :: id in minted ==> id < next
  {
    var left := minted;
    next := 0;
    while left != {}
      invariant left <= minted
      invariant forall id :: id in minted && id !in left ==> id < next
      decreases left
    {
      var id :| id in left;
      left := left - {id};
      if next <= id { next := id + 1; }
    }
  }

  /** One id from `first` up for each target. */
  method AssignIds(targets: set<nat>, first: nat) returns (ids: map<nat, nat>)
    ensures forall id :: id in ids ==> first <= id
    ensures forall id :: id in ids ==> ids[id] in targets
    ensures forall t :: t in targets ==> exists id :: id in ids && ids[id] == t
    ensures forall a, b :: a in ids && b in ids && ids[a] == ids[b] ==> a == b
  {
    var left, next := targets, first;
    ids := map[];
    while left != {}
      invariant left <= targets && first <= next
      invariant forall id :: id in ids ==> first <= id < next && ids[id] in targets && ids[id] !in left
      invariant forall t :: t in targets && t !in left ==> exists id :: id in ids && ids[id] == t
      invariant forall a, b :: a in ids && b in ids && ids[a] == ids[b] ==> a == b
      decreases left
    {
      var e :| e in left;
      left := left - {e};
      ghost var before := ids;
      ids := ids[next := e];
      forall t | t in targets && t !in left ensures exists id :: id in ids && ids[id] == t {
        if t == e {
          assert ids[next] == t;
        } else {
          var id :| id in before && before[id] == t;
          assert ids[id] == t;
        }
      }
      next := next + 1;
    }
  }

  lemma FreshRowsReceive(s: State, source: Source, ids: map<nat, nat>)
    requires FreshRows(s, source, ids)
    ensures forall d :: d in ids ==> Receives(s, ids[d], source.org, source.form)
  {
    MatchingReceives(s, source.org, source.form);
    assert forall d :: d in ids ==> ids[d] in ids.Values;
  }

  /** Where a fan-out leaves its worker. */
  lemma FannedOut(s: State, w: nat, ids: map<nat, nat>)
    requires w in s.workers && s.workers[w].stage.FanningOut? && FreshRows(s, s.workers[w].stage.source, ids)
    ensures var s', source := Acted(s, w, FanOut(ids)), s.workers[w].stage.source;
            && w in s'.workers && s'.workers[w].batch == s.workers[w].batch
            && (s'.workers[w].stage.Broken?
                || (s'.workers[w].stage.Mailing? && s'.workers[w].stage.source == source
                    && s'.workers[w].stage.sent == 0))
  {
    FanOutActs(s, w, ids);
    hide Acted, AddDeliveries, Missing, Matching, FreshRows;
  }

  // ---------- What a worker does ----------

  /** The worker's own actions in a run. */
  function ActionsOf(steps: seq<Step>, me: nat): seq<Action> {
    if steps == [] then
      []
    else
      var last := steps[|steps| - 1];
      ActionsOf(steps[..|steps| - 1], me) + if last.Work? && last.worker == me then [last.action] else []
  }

  lemma {:induction false} OthersAddNoAction(trace: seq<Step>, steps: seq<Step>, me: nat)
    requires forall i :: 0 <= i < |steps| ==> NotBy(steps[i], me)
    ensures ActionsOf(trace + steps, me) == ActionsOf(trace, me)
    decreases |steps|
  {
    if steps == [] {
      assert trace + steps == trace;
    } else {
      var n := |steps| - 1;
      assert (trace + steps)[..|trace| + n] == trace + steps[..n];
      OthersAddNoAction(trace, steps[..n], me);
    }
  }

  function Enqueues(n: nat): (actions: seq<Action>)
    ensures |actions| == n
  {
    seq(n, _ => Enqueue)
  }

  lemma OneMoreEnqueue(n: nat)
    ensures Enqueues(n + 1) == Enqueues(n) + [Enqueue]
  {
  }

  /** What a dispatch is made of: read, then fan out, then one job per address; broken off by a failure. */
  ghost predicate IsDispatch(actions: seq<Action>, ok: bool) {
    if ok then
      actions == [Read] || exists ids, n :: actions == [Read, FanOut(ids)] + Enqueues(n)
    else
      || actions == [Fail] || actions == [Read, Fail]
      || (exists ids :: actions == [Read, FanOut(ids)])
      || (exists ids, n :: actions == [Read, FanOut(ids)] + Enqueues(n) + [Fail])
  }

  lemma EarlyEnd(action: Action)
    requires action == Fail || action.FanOut?
    ensures IsDispatch([Read], true) && IsDispatch([Fail], false) && IsDispatch([Read, action], false)
  {
  }

  lemma MailedEnd(ids: map<nat, nat>, n: nat, ok: bool)
    ensures IsDispatch([Read, FanOut(ids)] + (Enqueues(n) + if ok then [] else [Fail]), ok)
  {
    var sent := [Read, FanOut(ids)] + Enqueues(n);
    assert [Read, FanOut(ids)] + (Enqueues(n) + if ok then [] else [Fail]) == sent + if ok then [] else [Fail];
    assert ok ==> sent + [] == sent;
  }

  /** One event seen through: a dispatch that succeeded is settled, and one that did not is put back. */
  ghost predicate IsHandling(actions: seq<Action>, event: nat) {
    exists dispatch, ok ::
      IsDispatch(dispatch, ok) && actions == [Begin(event)] + dispatch + [if ok then Settle else PutBack]
  }

  /** Every event of the batch seen through, one after the other. */
  ghost predicate IsBatch(actions: seq<Action>, order: seq<nat>)
    decreases |order|
  {
    if order == [] then
      actions == []
    else
      exists k :: 0 <= k <= |actions|
        && IsBatch(actions[..k], order[..|order| - 1]) && IsHandling(actions[k..], order[|order| - 1])
  }

  lemma EmptyBatch()
    ensures IsBatch([], [])
    ensures forall claimed: set<nat> :: Partway(claimed, claimed, [])
  {
  }

  lemma BatchGrows(actions: seq<Action>, order: seq<nat>, more: seq<Action>, event: nat)
    requires IsBatch(actions, order) && IsHandling(more, event)
    ensures IsBatch(actions + more, order + [event])
  {
    var all := actions + more;
    assert (order + [event])[..|order|] == order;
    assert all[..|actions|] == actions && all[|actions|..] == more;
  }

  /** `order` is the part of `claimed` no longer in `left`, each event once. */
  ghost predicate Partway(claimed: set<nat>, left: set<nat>, order: seq<nat>) {
    && (forall e :: e in claimed <==> e in left || e in order)
    && (forall e :: e in order ==> e !in left)
    && (forall i, j :: 0 <= i < j < |order| ==> order[i] != order[j])
  }

  lemma NextEvent(claimed: set<nat>, left: set<nat>, order: seq<nat>, event: nat)
    requires Partway(claimed, left, order) && event in left
    ensures Partway(claimed, left - {event}, order + [event])
  {
  }

  // ---------- Mail only accumulates ----------

  function MailFor(source: Source, n: nat): multiset<Job>
    requires n <= |source.notifyEmails|
  {
    if n == 0 then multiset{} else MailFor(source, n - 1) + multiset{Job(source.submission, source.notifyEmails[n - 1])}
  }

  lemma NothingSent(source: Source)
    ensures MailFor(source, 0) == multiset{} && Enqueues(0) == []
  {
  }

  lemma OneMoreMail(before: multiset<Job>, now: multiset<Job>, source: Source, n: nat)
    requires n < |source.notifyEmails| && before + MailFor(source, n) <= now
    ensures before + MailFor(source, n + 1) <= now + multiset{Job(source.submission, source.notifyEmails[n])}
  {
  }

  lemma ActionKeepsJobs(s: State, w: nat, action: Action)
    ensures s.jobs <= Acted(s, w, action).jobs
  {
    hide Outbox.Apply, Outbox.ClaimedIds, Matching, Missing, FreshRows, AddDeliveries;
  }

  lemma ChangeKeepsJobs(s: State, change: Change)
    ensures Changed(s, change).jobs == s.jobs
  {
    hide Matching, Orphaned;
  }

  lemma {:induction false} RunKeepsJobs(s: State, steps: seq<Step>)
    ensures s.jobs <= Run(s, steps).jobs
    decreases |steps|
  {
    hide Changed, Acted;
    if steps != [] {
      match steps[0] {
        case Request(change) => ChangeKeepsJobs(s, change);
        case Work(w, action) => ActionKeepsJobs(s, w, action);
        case _ =>
      }
      RunKeepsJobs(Apply(s, steps[0]), steps[1..]);
    }
  }

  /** A push adds one job, to the next address. */
  lemma MailingStep(s: State, w: nat)
    requires w in s.workers && s.workers[w].stage.Mailing?
    requires s.workers[w].stage.sent < |s.workers[w].stage.source.notifyEmails|
    ensures var stage, pushed := s.workers[w].stage, Acted(s, w, Enqueue);
            && w in pushed.workers && pushed.workers[w] == Worker(s.workers[w].batch, stage.(sent := stage.sent + 1))
            && pushed.jobs == s.jobs + multiset{Job(stage.source.submission, stage.source.notifyEmails[stage.sent])}
  {
  }

  lemma BeginStep(s: State, w: nat, event: nat)
    requires w in s.workers && s.workers[w].stage.Waiting? && event in s.workers[w].batch
    ensures var begun := Acted(s, w, Begin(event));
            && w in begun.workers && begun.workers[w].batch == s.workers[w].batch - {event}
            && begun.workers[w].stage.Reading?
  {
  }

  /** A failure leaves the worker to put the event back. */
  lemma FailStep(s: State, w: nat)
    requires w in s.workers
    requires s.workers[w].stage.Reading? || s.workers[w].stage.FanningOut? || s.workers[w].stage.Mailing?
    ensures var broken := Acted(s, w, Fail);
            && w in broken.workers && broken.workers[w].batch == s.workers[w].batch
            && broken.workers[w].stage.Broken? && broken.jobs == s.jobs
  {
  }

  lemma ReadStep(s: State, w: nat)
    requires w in s.workers && s.workers[w].stage.Reading?
    ensures var read := Acted(s, w, Read);
            && w in read.workers && read.workers[w].batch == s.workers[w].batch
            && (read.workers[w].stage.FanningOut? || Completed(read.workers[w].stage).Some?)
  {
  }

  lemma LastStep(s: State, w: nat, ok: bool)
    requires w in s.workers
    requires if ok then Completed(s.workers[w].stage).Some? else s.workers[w].stage.Broken?
    ensures var done := Acted(s, w, if ok then Settle else PutBack);
            w in done.workers && done.workers[w] == Worker(s.workers[w].batch, Waiting)
  {
    hide Outbox.Apply;
  }

  lemma ClaimStep(s: State, w: nat, limit: nat)
    requires Idle(s, w)
    ensures var claimed := Acted(s, w, Claim(limit));
            && w in claimed.workers && claimed.workers[w].stage.Waiting?
            && claimed.workers[w].batch.Keys == TakenBy(s, limit)
  {
    hide Outbox.Apply, Outbox.ClaimedIds;
    Outbox.ClaimTakesTheEarliest(s.outbox, limit);
  }

  class Dispatcher {
    const me: nat
    const batchSize: nat
    var state: State         // the database and the queue, shared with everybody else
    var turn: nat            // how many statements this worker has got round to
    ghost var start: State
    ghost var trace: seq<Step>
    ghost var own: seq<Action>

    constructor (me: nat, batchSize: nat, state: State)
      ensures this.me == me && this.batchSize == batchSize && this.state == state
      ensures Tracks() && trace == []
    {
      this.me, this.batchSize, this.state, this.turn := me, batchSize, state, 0;
      this.start, this.trace, this.own := state, [], [];
    }

    /** The state is what the trace leads to, and `own` is this worker's part of the trace. */
    ghost predicate Tracks() reads this {
      state == Run(start, trace) && own == ActionsOf(trace, me)
    }

    ghost predicate Mine(stage: Stage, batch: map<nat, Claimed>) reads this {
      me in state.workers && state.workers[me] == Worker(batch, stage)
    }

    /** Everybody else, up to this worker's next statement. */
    method Await(world: World)
      requires Tracks() && AllNotBy(world, me)
      modifies this
      ensures Tracks() && start == old(start) && own == old(own) && trace == old(trace) + world.Before(old(turn))
      ensures state == Run(old(state), world.Before(old(turn))) && old(state).jobs <= state.jobs
      ensures me in state.workers <==> me in old(state).workers
      ensures me in state.workers ==> state.workers[me] == old(state).workers[me]
    {
      hide Run;
      var steps := world.Before(turn);
      RunAppend(start, trace, steps);
      OthersLeaveMe(state, steps, me);
      OthersAddNoAction(trace, steps, me);
      RunKeepsJobs(state, steps);
      state := Run(state, steps);
      trace := trace + steps;
      turn := turn + 1;
    }

    method Do(action: Action)
      requires Tracks()
      modifies this
      ensures Tracks() && start == old(start) && turn == old(turn)
      ensures trace == old(trace) + [Work(me, action)] && own == old(own) + [action]
      ensures state == Acted(old(state), me, action)
    {
      hide Run, Acted, Changed;
      RunLast(start, trace, Work(me, action));
      state := Apply(state, Work(me, action));
      trace, own := trace + [Work(me, action)], own + [action];
      assert trace[..|trace| - 1] == old(trace);
    }

    /** The worker's next statement is due; `false` when it reports an error. */
    method Ready(world: World) returns (ok: bool)
      requires Tracks() && AllNotBy(world, me)
      requires me in state.workers
      requires var stage := state.workers[me].stage; stage.Reading? || stage.FanningOut? || stage.Mailing?
      modifies this
      ensures Tracks() && start == old(start) && old(trace) <= trace && old(state).jobs <= state.jobs
      ensures own == old(own) + if ok then [] else [Fail]
      ensures me in state.workers
      ensures ok ==> state == Run(old(state), world.Before(old(turn))) && state.workers[me] == old(state).workers[me]
      ensures !ok ==> state.workers[me].batch == old(state).workers[me].batch && state.workers[me].stage.Broken?
    {
      hide Tracks, AllNotBy, Acted, Changed, Run;
      ok := !world.Failing(turn);
      Await(world);
      if !ok {
        FailStep(state, me);
        Do(Fail);
      }
    }

    /** One job per address, in order, stopping at the first push that fails. */
    method EnqueueEmails(source: Source, world: World) returns (ok: bool, ghost sent: nat)
      requires Tracks() && AllNotBy(world, me)
      requires me in state.workers && state.workers[me].stage.Mailing?
      requires state.workers[me].stage.source == source && state.workers[me].stage.sent == 0
      modifies this
      ensures Tracks() && start == old(start) && old(trace) <= trace
      ensures own == old(own) + (Enqueues(sent) + if ok then [] else [Fail])
      ensures if ok then sent == |source.notifyEmails| else sent < |source.notifyEmails|
      ensures old(state).jobs + MailFor(source, sent) <= state.jobs
      ensures me in state.workers && state.workers[me].batch == old(state).workers[me].batch
      ensures if ok then Completed(state.workers[me].stage).Some? else state.workers[me].stage.Broken?
    {
      hide Tracks, AllNotBy, Acted, Run, Changed, MailFor, Enqueues;
      NothingSent(source);
      var next := 0;
      sent := 0;
      while next < |source.notifyEmails|
        invariant 0 <= next <= |source.notifyEmails| && sent == next
        invariant Tracks() && start == old(start) && old(trace) <= trace
        invariant own == old(own) + Enqueues(next)
        invariant old(state).jobs + MailFor(source, next) <= state.jobs
        invariant me in state.workers && state.workers[me].batch == old(state).workers[me].batch
        invariant state.workers[me].stage.Mailing?
        invariant state.workers[me].stage.source == source && state.workers[me].stage.sent == next
      {
        ok := Ready(world);
        if !ok {
          return;
        }
        MailingStep(state, me);
        OneMoreEnqueue(next);
        OneMoreMail(old(state).jobs, state.jobs, source, next);
        Do(Enqueue);
        next, sent := next + 1, sent + 1;
      }
      ok := true;
    }

    /** Reads the submission; `None` when it no longer exists. */
    method NotificationSource(world: World) returns (ok: bool, source: Option<Source>)
      requires Tracks() && AllNotBy(world, me)
      requires me in state.workers && state.workers[me].stage.Reading?
      modifies this
      ensures Tracks() && start == old(start) && old(trace) <= trace
      ensures own == old(own) + [if ok then Read else Fail]
      ensures ok ==> state == Acted(Run(old(state), world.Before(old(turn))), me, Read)
      ensures me in state.workers && state.workers[me].batch == old(state).workers[me].batch
      ensures !ok ==> state.workers[me].stage.Broken?
      ensures source.None? && ok ==> Completed(state.workers[me].stage).Some?
      ensures source.Some? ==>
                ok && state.workers[me].stage.FanningOut? && state.workers[me].stage.source == source.value
    {
      hide Tracks, AllNotBy, Acted, Run, Completed;
      source := None;
      ok := Ready(world);
      if ok {
        ReadStep(state, me);
        Do(Read);
        source := if state.workers[me].stage.FanningOut? then Some(state.workers[me].stage.source) else None;
      }
    }

    /** The fan-out, with a fresh id for exactly each endpoint that matches and has no row yet. */
    method FanOutWebhooks(source: Source, world: World)
      returns (ok: bool, ghost action: Action)
      requires Tracks() && AllNotBy(world, me) && me in state.workers
      requires state.workers[me].stage.FanningOut? && state.workers[me].stage.source == source
      modifies this
      ensures Tracks() && start == old(start) && old(trace) <= trace && own == old(own) + [action]
      ensures var before := Run(old(state), world.Before(old(turn)));
              || action == Fail
              || (&& action.FanOut? && FreshRows(before, source, action.ids) && state == Acted(before, me, action)
                  && forall d :: d in action.ids ==> Receives(before, action.ids[d], source.org, source.form))
      ensures me in state.workers && state.workers[me].batch == old(state).workers[me].batch
      ensures !ok ==> state.workers[me].stage.Broken?
      ensures ok ==> action.FanOut? && state.workers[me].stage.Mailing? && state.workers[me].stage.source == source
                     && state.workers[me].stage.sent == 0
    {
      hide Tracks, AllNotBy, Acted, Run, Missing, FreshRows, Receives;
      ok := Ready(world);
      if !ok {
        return ok, Fail;
      }
      var rows := FreshIds(source);
      FannedOut(state, me, rows);
      FreshRowsReceive(state, source, rows);
      action := FanOut(rows);
      Do(FanOut(rows));
      ok := state.workers[me].stage.Mailing?;
    }

    method FreshIds(source: Source) returns (rows: map<nat, nat>)
      ensures FreshRows(state, source, rows)
    {
      hide Missing;
      var next := Unused(state.minted);
      rows := AssignIds(Missing(state, source), next);
      assert rows.Values == Missing(state, source);
    }

    /** Deliveries first, then mail. */
    method Notify(source: Source, world: World)
      returns (ok: bool, ghost notified: seq<Action>)
      requires Tracks() && AllNotBy(world, me)
      requires me in state.workers && state.workers[me].stage.FanningOut? && state.workers[me].stage.source == source
      modifies this
      ensures Tracks() && start == old(start) && old(trace) <= trace
      ensures IsDispatch([Read] + notified, ok) && own == old(own) + notified
      ensures me in state.workers && state.workers[me].batch == old(state).workers[me].batch
      ensures if ok then Completed(state.workers[me].stage).Some? else state.workers[me].stage.Broken?
    {
      hide Tracks, AllNotBy, Acted, Run, IsDispatch, Enqueues, MailFor, FreshRows, Completed;
      ghost var action, sent;
      ok, action := FanOutWebhooks(source, world);
      notified := [action];
      EarlyEnd(action);
      assert [Read] + notified == [Read, action];
      if ok {
        ok, sent := EnqueueEmails(source, world);
        MailedEnd(action.ids, sent, ok);
        var mails := Enqueues(sent) + if ok then [] else [Fail];
        assert [Read] + (notified + mails) == [Read, action] + mails;
        notified := notified + mails;
      }
    }

    /** Read, fan out, and only then mail. */
    method DispatchSubmission(world: World) returns (ok: bool, ghost dispatch: seq<Action>)
      requires Tracks() && AllNotBy(world, me)
      requires me in state.workers && state.workers[me].stage.Reading?
      modifies this
      ensures Tracks() && start == old(start) && old(trace) <= trace
      ensures IsDispatch(dispatch, ok) && own == old(own) + dispatch
      ensures me in state.workers && state.workers[me].batch == old(state).workers[me].batch
      ensures if ok then Completed(state.workers[me].stage).Some? else state.workers[me].stage.Broken?
    {
      hide Tracks, AllNotBy, Acted, Run, IsDispatch, Completed;
      EarlyEnd(Fail);
      var source;
      ok, source := NotificationSource(world);
      dispatch := [if ok then Read else Fail];
      if source.Some? {
        ghost var before := own;
        ghost var notified;
        ok, notified := Notify(source.value, world);
        dispatch := dispatch + notified;
        assert own == before + notified;
      }
    }

    /** Sees one claimed event through to `Settle` or `PutBack`; `false` when that statement fails. */
    method Handle(event: nat, world: World)
      returns (done: bool, ghost actions: seq<Action>)
      requires Tracks() && AllNotBy(world, me)
      requires me in state.workers && state.workers[me].stage.Waiting? && event in state.workers[me].batch
      modifies this
      ensures Tracks() && start == old(start) && old(trace) <= trace && own == old(own) + actions
      ensures done ==> IsHandling(actions, event)
      ensures !done ==> actions != [] && actions[|actions| - 1] == Crash
      ensures done ==> Mine(Waiting, old(state).workers[me].batch - {event})
    {
      hide Tracks, AllNotBy, Acted, Changed, Run, IsDispatch;
      BeginStep(state, me, event);
      Do(Begin(event));
      ghost var dispatch;
      var ok;
      ok, dispatch := DispatchSubmission(world);
      done := !world.Failing(turn);
      Await(world);
      var last := if !done then Crash else if ok then Settle else PutBack;
      LastStep(state, me, ok);
      Do(last);
      actions := [Begin(event)] + dispatch + [last];
    }

    /**
     Claims one batch and sees every event of it through, each exactly once: settled when its dispatch
     succeeded, put back when it did not. `None`: a statement that settles or puts back itself failed,
     and the rest of the batch is left to its lease.
     */
    method RunOnce(world: World)
      returns (attempted: Option<nat>, ghost claimed: set<nat>, ghost order: seq<nat>, ghost actions: seq<Action>)
      requires Tracks() && AllNotBy(world, me)
      requires Idle(state, me)
      modifies this
      ensures Tracks() && start == old(start)
      ensures old(trace) + world.Before(old(turn)) + [Work(me, Claim(batchSize))] <= trace
      ensures claimed == TakenBy(Run(old(state), world.Before(old(turn))), batchSize)
      ensures own == old(own) + [Claim(batchSize)] + actions
      ensures attempted.Some? ==> Idle(state, me) && attempted.value == |claimed|
      ensures attempted.Some? ==> IsBatch(actions, order) && Partway(claimed, {}, order)
      ensures attempted.None? ==> actions != [] && actions[|actions| - 1] == Crash
    {
      hide Run, Changed, Acted, TakenBy, Tracks, AllNotBy, IsBatch, Partway;
      Await(world);
      var batch := ClaimBatch();
      claimed := batch.Keys;
      ghost var asClaimed := trace;
      var done;
      done, order, actions := HandleBatch(batch, world);
      attempted := if done then Some(|batch|) else None;
    }

    method HandleBatch(batch: map<nat, Claimed>, world: World)
      returns (done: bool, ghost order: seq<nat>, ghost actions: seq<Action>)
      requires Tracks() && AllNotBy(world, me) && Mine(Waiting, batch)
      modifies this
      ensures Tracks() && start == old(start) && old(trace) <= trace && own == old(own) + actions
      ensures done ==> Idle(state, me) && IsBatch(actions, order) && Partway(batch.Keys, {}, order)
      ensures !done ==> actions != [] && actions[|actions| - 1] == Crash
    {
      hide Run, Changed, Acted, Tracks, AllNotBy, IsHandling, IsBatch, Partway;
      EmptyBatch();
      var left := batch;
      order, actions := [], [];
      while left != map[]
        invariant Tracks() && start == old(start) && Mine(Waiting, left)
        invariant old(trace) <= trace && own == old(own) + actions
        invariant IsBatch(actions, order) && Partway(batch.Keys, left.Keys, order)
        decreases left.Keys
      {
        var event :| event in left;
        ghost var more;
        done, more := Handle(event, world);
        if !done {
          return done, order, actions + more;
        }
        BatchGrows(actions, order, more, event);
        NextEvent(batch.Keys, left.Keys, order, event);
        assert (left - {event}).Keys == left.Keys - {event};
        left, order, actions := left - {event}, order + [event], actions + more;
      }
      assert left.Keys == {};
      done := true;
    }

    method ClaimBatch() returns (batch: map<nat, Claimed>)
      requires Tracks() && Idle(state, me)
      modifies this
      ensures Tracks() && start == old(start) && turn == old(turn)
      ensures trace == old(trace) + [Work(me, Claim(batchSize))] && own == old(own) + [Claim(batchSize)]
      ensures Mine(Waiting, batch) && batch.Keys == TakenBy(old(state), batchSize)
    {
      hide Tracks, Acted;
      ClaimStep(state, me, batchSize);
      Do(Claim(batchSize));
      batch := state.workers[me].batch;
    }
  }

  /** The events a claim would take in this state. */
  function TakenBy(s: State, limit: nat): set<nat> {
    Outbox.ClaimedIds(s.outbox, limit)
  }
}
