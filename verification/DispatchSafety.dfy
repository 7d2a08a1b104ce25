/**
 No work is lost: over every interleaving of the dispatch machine, an accepted submission is either
 still owed or was accounted for by the dispatch that settled it.
 */
module DispatchSafety {
  import opened Common
  import opened Dispatch
  import Outbox
  import Deliveries

  /** What a receipt promises about the present, for as long as the rows it names exist. */
  ghost predicate Honoured(s: State, r: Receipt) {
    r.submission in s.minted &&
    match r
    case Gone(submission) => submission !in s.submissions
    case Notified(submission, endpoints, addresses) =>
      && endpoints <= s.minted
      && (submission in s.submissions ==>
            forall e :: e in endpoints && e in s.endpoints ==> HasDelivery(s.deliveries, e, submission))
      && forall i :: 0 <= i < |addresses| ==> Job(submission, addresses[i]) in s.jobs
  }

  ghost predicate OneRowPerPair(deliveries: Deliveries.Rows) {
    forall a, b ::
      (&& a in deliveries && b in deliveries
       && deliveries[a].submission.Some? && deliveries[a].submission == deliveries[b].submission
       && deliveries[a].endpoint == deliveries[b].endpoint) ==> a == b
  }

  /** Primary, foreign and unique keys. */
  ghost predicate Keys(s: State) {
    && Outbox.WellFormed(s.outbox)
    && s.forms.Keys + s.submissions.Keys + s.endpoints.Keys + s.deliveries.Keys <= s.minted
    && (forall x :: x in s.submissions ==> s.submissions[x].form in s.forms
                                           && s.forms[s.submissions[x].form].org == s.submissions[x].org)
    && (forall d :: d in s.deliveries && s.deliveries[d].submission.Some? ==>
                      s.deliveries[d].submission.value in s.submissions)
    && OneRowPerPair(s.deliveries)
  }

  ghost predicate OwedThrough(s: State, submission: nat, event: nat) {
    submission in s.minted && submission in s.owedBy && s.owedBy[submission] == event
  }

  ghost predicate IsOwed(s: State, event: nat) {
    exists x :: OwedThrough(s, x, event)
  }

  /** Every event is the one its submission was accepted with, and it outlives the submission. */
  ghost predicate Events(s: State) {
    && (forall x :: x in s.owedBy ==> x in s.minted && s.owedBy[x] < s.outbox.nextId)
    && (forall x :: x in s.owedBy && s.owedBy[x] in s.outbox.rows ==> s.outbox.rows[s.owedBy[x]].submission == x)
    && (forall x :: x in s.owedBy && x in s.submissions ==>
                      s.owedBy[x] in s.outbox.rows && s.outbox.rows[s.owedBy[x]].org == s.submissions[x].org)
    && (forall id :: id in s.outbox.rows ==> OwedThrough(s, s.outbox.rows[id].submission, id))
  }

  ghost predicate Settled(s: State, event: nat) {
    exists r :: Settlement(event, r) in s.settlements
  }

  ghost predicate Settlements(s: State) {
    && (forall x :: x in s.settlements ==> Honoured(s, x.receipt) && OwedThrough(s, x.receipt.submission, x.event))
    && (forall id :: id in s.outbox.rows && s.outbox.rows[id].dispatchedAt.Some? ==> Settled(s, id))
  }

  ghost predicate StageOk(s: State, stage: Stage) {
    match stage
    case Waiting => true
    case Reading(event, _, submission) => OwedThrough(s, submission, event)
    case FanningOut(event, _, source) => OwedThrough(s, source.submission, event)
    case Mailing(event, _, source, matched, sent) =>
      && OwedThrough(s, source.submission, event)
      && sent <= |source.notifyEmails|
      && Honoured(s, Notified(source.submission, matched, source.notifyEmails[..sent]))
    case NothingLeft(event, submission) => OwedThrough(s, submission, event) && Honoured(s, Gone(submission))
    case Broken(event, _) => IsOwed(s, event)
  }

  ghost predicate WorkerOk(s: State, worker: Worker) {
    && StageOk(s, worker.stage)
    && forall e :: e in worker.batch ==> OwedThrough(s, worker.batch[e].submission, e)
  }

  ghost predicate Workers(s: State) {
    forall w :: w in s.workers ==> WorkerOk(s, s.workers[w])
  }

  ghost predicate Inv(s: State) {
    Keys(s) && Events(s) && Settlements(s) && Workers(s)
  }

  // ---------- What no step undoes ----------

  /** Ids stay minted, removed rows stay removed, mail stays queued, delivery rows stay put. */
  ghost predicate Carries(s: State, s': State) {
    && s.minted <= s'.minted
    && s.jobs <= s'.jobs
    && (forall x :: x in s.owedBy ==> x in s'.owedBy && s'.owedBy[x] == s.owedBy[x])
    && (forall x :: x in s'.submissions && x in s.minted ==> x in s.submissions)
    && (forall e :: e in s'.endpoints && e in s.minted ==> e in s.endpoints)
    && (forall d ::
          (&& d in s.deliveries && s.deliveries[d].endpoint in s'.endpoints
           && s.deliveries[d].submission.Some? && s.deliveries[d].submission.value in s'.submissions) ==>
            && d in s'.deliveries
            && s'.deliveries[d].endpoint == s.deliveries[d].endpoint
            && s'.deliveries[d].submission == s.deliveries[d].submission)
  }

  lemma CarriesWorker(s: State, s': State, worker: Worker)
    requires Carries(s, s') && WorkerOk(s, worker)
    ensures WorkerOk(s', worker)
  {
    if worker.stage.Broken? {
      var x :| OwedThrough(s, x, worker.stage.event);
      assert OwedThrough(s', x, worker.stage.event);
    }
  }

  lemma RemoveCarries(s: State, forms: set<nat>, submissions: set<nat>, endpoints: set<nat>)
    ensures Carries(s, Remove(s, forms, submissions, endpoints))
  {
  }

  lemma AcceptCarries(s: State, id: nat, form: nat, notify: bool)
    requires Keys(s) && Events(s) && id !in s.minted && form in s.forms
    ensures Carries(s, Accept(s, id, form, notify))
  {
    hide Matching;
  }

  lemma FanOutCarries(s: State, w: nat, event: nat, attempts: nat, source: Source, ids: map<nat, nat>)
    requires Keys(s) && w in s.workers && FreshRows(s, source, ids)
    ensures Carries(s, AfterFanOut(s, w, event, attempts, source, ids))
  {
    hide Missing, Matching;
  }

  /** Steps that leave submissions and deliveries alone, and add endpoints at most under new ids. */
  ghost predicate Untouched(s: State, s': State) {
    && s'.submissions == s.submissions && s'.deliveries == s.deliveries && s'.owedBy == s.owedBy
    && s.minted <= s'.minted && s.jobs <= s'.jobs
    && s'.endpoints.Keys * s.minted <= s.endpoints.Keys
  }

  lemma SameCarries(s: State)
    ensures Carries(s, s)
  {
  }

  lemma UntouchedCarries(s: State, s': State)
    requires Untouched(s, s')
    ensures Carries(s, s')
  {
  }

  lemma EditUntouched(s: State, change: Change)
    requires change.CreateForm? || change.EditForm? || change.CreateEndpoint? || change.EditEndpoint?
    ensures Untouched(s, Changed(s, change))
  {
  }

  lemma ChangeCarries(s: State, change: Change)
    requires Keys(s) && Events(s)
    ensures Carries(s, Changed(s, change))
  {
    hide Remove, Accept, RemoveOrganization, Carries, Untouched;
    match change
    case DeleteForm(id) => RemoveCarries(s, {id}, {}, {});
    case DeleteEndpoint(id) => RemoveCarries(s, {}, {}, {id});
    case DeleteSubmission(id) => RemoveCarries(s, {}, {id}, {});
    case DeleteOrganization(org) => OrganizationCarries(s, org);
    case Submit(id, form, notify) =>
      SameCarries(s);
      if id !in s.minted && form in s.forms { AcceptCarries(s, id, form, notify); }
    case _ =>
      EditUntouched(s, change);
      UntouchedCarries(s, Changed(s, change));
  }

  ghost predicate SameEvents(t: Outbox.Table, t': Outbox.Table) {
    && t'.nextId == t.nextId && t'.rows.Keys == t.rows.Keys
    && forall id :: id in t.rows ==>
         t'.rows[id].submission == t.rows[id].submission && t'.rows[id].org == t.rows[id].org
  }

  /** What a worker action other than the fan-out does: outbox rows keep their identity, the other
      tables stay as they are, and an event is marked dispatched only with a settlement on record. */
  ghost predicate Frame(s: State, s': State) {
    && s'.forms == s.forms && s'.submissions == s.submissions && s'.endpoints == s.endpoints
    && s'.deliveries == s.deliveries && s'.minted == s.minted && s'.owedBy == s.owedBy
    && s.jobs <= s'.jobs && s.settlements <= s'.settlements
    && SameEvents(s.outbox, s'.outbox)
    && forall id :: id in s.outbox.rows && s'.outbox.rows[id].dispatchedAt.Some? ==>
                      s.outbox.rows[id].dispatchedAt.Some? || Settled(s', id)
  }

  lemma SameFrame(s: State)
    ensures Frame(s, s)
  {
  }

  lemma ClaimFrame(s: State, w: nat, limit: nat)
    ensures Frame(s, Acted(s, w, Claim(limit)))
  {
    hide AfterPutBack, AfterBegin, AfterRead, AfterEnqueue, AfterSettle, AfterFanOut;
  }

  lemma SameOutboxFrame(s: State, s': State)
    requires s'.forms == s.forms && s'.submissions == s.submissions && s'.endpoints == s.endpoints
    requires s'.deliveries == s.deliveries && s'.minted == s.minted && s'.owedBy == s.owedBy
    requires s.jobs <= s'.jobs && s'.settlements == s.settlements && s'.outbox == s.outbox
    ensures Frame(s, s')
  {
  }

  lemma ReadFrame(s: State, w: nat, action: Action)
    requires action.Begin? || action.Read? || action.Fail?
    ensures Frame(s, Acted(s, w, action)) && Acted(s, w, action).settlements == s.settlements
  {
    SameOutboxFrame(s, Acted(s, w, action));
  }

  lemma EnqueueFrame(s: State, w: nat, action: Action)
    requires action.Enqueue? || action.Crash?
    ensures Frame(s, Acted(s, w, action)) && Acted(s, w, action).settlements == s.settlements
  {
  }

  lemma SettleFrame(s: State, w: nat)
    ensures Frame(s, Acted(s, w, Settle))
  {
    var s' := Acted(s, w, Settle);
    if Completed(StageOf(s, w)).Some? {
      var event := s.workers[w].stage.event;
      assert Settlement(event, Completed(StageOf(s, w)).value) in s'.settlements;
      assert Settled(s', event);
    }
  }

  lemma AfterPutBackFrame(s: State, w: nat, event: nat, attempts: nat)
    requires w in s.workers
    ensures Frame(s, AfterPutBack(s, w, event, attempts))
  {
  }

  lemma PutBackFrame(s: State, w: nat)
    ensures Frame(s, Acted(s, w, PutBack))
  {
    hide Frame, AfterPutBack;
    if StageOf(s, w).Broken? {
      AfterPutBackFrame(s, w, StageOf(s, w).event, StageOf(s, w).attempts);
    } else {
      SameFrame(s);
    }
  }

  lemma ActionFrame(s: State, w: nat, action: Action)
    requires !action.FanOut?
    ensures Frame(s, Acted(s, w, action))
  {
    match action
    case Claim(limit) => ClaimFrame(s, w, limit);
    case Settle => SettleFrame(s, w);
    case PutBack => PutBackFrame(s, w);
    case Enqueue => EnqueueFrame(s, w, action);
    case Crash => EnqueueFrame(s, w, action);
    case _ => ReadFrame(s, w, action);
  }

  lemma ActionCarries(s: State, w: nat, action: Action)
    requires Keys(s)
    ensures Carries(s, Acted(s, w, action))
  {
    if action.FanOut? {
      var stage := StageOf(s, w);
      if stage.FanningOut? && FreshRows(s, stage.source, action.ids) {
        FanOutCarries(s, w, stage.event, stage.attempts, stage.source, action.ids);
      }
    } else {
      ActionFrame(s, w, action);
      UntouchedCarries(s, Acted(s, w, action));
    }
  }

  lemma StepCarries(s: State, step: Step)
    requires Keys(s) && Events(s)
    ensures Carries(s, Apply(s, step))
  {
    match step
    case Tick(_) =>
    case Request(change) => ChangeCarries(s, change);
    case DeliverySide(work) => Deliveries.WorkKeepsAddresses(s.deliveries, s.outbox.now, work);
    case Work(w, action) => ActionCarries(s, w, action);
  }

  lemma OrganizationCarries(s: State, org: nat)
    ensures Carries(s, RemoveOrganization(s, org))
  {
  }

  // ---------- Keys ----------

  lemma RemoveKeepsKeys(s: State, forms: set<nat>, submissions: set<nat>, endpoints: set<nat>)
    requires Keys(s)
    ensures Keys(Remove(s, forms, submissions, endpoints))
  {
  }

  lemma OrganizationKeepsKeys(s: State, org: nat)
    requires Keys(s)
    ensures Keys(RemoveOrganization(s, org))
  {
    var forms := set f | f in s.forms && s.forms[f].org == org;
    var submissions := set x | x in s.submissions && s.submissions[x].org == org;
    var endpoints := set e | e in s.endpoints && s.endpoints[e].org == org;
    RemoveKeepsKeys(s, forms, submissions, endpoints);
    assert Keys(Remove(s, forms, submissions, endpoints));
  }

  lemma AcceptKeepsRows(s: State, id: nat, form: nat, notify: bool)
    requires Keys(s) && id !in s.minted && form in s.forms
    ensures var s' := Accept(s, id, form, notify);
            && s'.forms == s.forms && s'.endpoints == s.endpoints && s'.deliveries == s.deliveries
            && s'.submissions == s.submissions[id := Submission(s.forms[form].org, form)]
            && s'.minted == s.minted + {id} && Outbox.WellFormed(s'.outbox)
  {
    hide Matching, OneRowPerPair;
  }

  lemma AcceptKeepsKeys(s: State, id: nat, form: nat, notify: bool)
    requires Keys(s) && id !in s.minted && form in s.forms
    ensures Keys(Accept(s, id, form, notify))
  {
    AcceptKeepsRows(s, id, form, notify);
    hide Accept, OneRowPerPair, Outbox.WellFormed;
  }

  lemma EditKeepsKeys(s: State, change: Change)
    requires Keys(s)
    requires change.CreateForm? || change.EditForm? || change.CreateEndpoint? || change.EditEndpoint?
    ensures Keys(Changed(s, change))
  {
  }

  lemma ChangeKeepsKeys(s: State, change: Change)
    requires Keys(s)
    ensures Keys(Changed(s, change))
  {
    hide Remove, RemoveOrganization, Accept, Keys;
    match change
    case DeleteForm(id) => RemoveKeepsKeys(s, {id}, {}, {});
    case DeleteEndpoint(id) => RemoveKeepsKeys(s, {}, {}, {id});
    case DeleteSubmission(id) => RemoveKeepsKeys(s, {}, {id}, {});
    case DeleteOrganization(org) => OrganizationKeepsKeys(s, org);
    case Submit(id, form, notify) =>
      if id !in s.minted && form in s.forms { AcceptKeepsKeys(s, id, form, notify); }
    case _ => EditKeepsKeys(s, change);
  }

  /** The fan-out can run twice, or twice at once: the unique index is never violated. */
  lemma FanOutKeepsKeys(s: State, w: nat, event: nat, attempts: nat, source: Source, ids: map<nat, nat>)
    requires Keys(s) && w in s.workers && FreshRows(s, source, ids)
    ensures Keys(AfterFanOut(s, w, event, attempts, source, ids))
  {
    if !(Missing(s, source) != {} && source.submission !in s.submissions) {
      var rows := AddDeliveries(s, source, ids);
      forall d | d in ids ensures !HasDelivery(s.deliveries, ids[d], source.submission)
          && source.submission in s.submissions {
        assert ids[d] in ids.Values;
      }
      forall a, b | a in rows && b in rows && rows[a].submission.Some? && rows[a].submission == rows[b].submission
                    && rows[a].endpoint == rows[b].endpoint
        ensures a == b
      {
        assert b in s.deliveries && rows[b] == s.deliveries[b] && rows[b].submission == Some(source.submission) ==>
          HasDelivery(s.deliveries, rows[b].endpoint, source.submission);
        assert a in s.deliveries && rows[a] == s.deliveries[a] && rows[a].submission == Some(source.submission) ==>
          HasDelivery(s.deliveries, rows[a].endpoint, source.submission);
      }
    }
  }

  /** Every other action leaves the keyed tables alone. */
  lemma ActionKeepsKeys(s: State, w: nat, action: Action)
    requires Keys(s)
    ensures Keys(Acted(s, w, action))
  {
    if action.FanOut? {
      var stage := StageOf(s, w);
      if stage.FanningOut? && FreshRows(s, stage.source, action.ids) {
        FanOutKeepsKeys(s, w, stage.event, stage.attempts, stage.source, action.ids);
      }
    } else {
      ActionFrame(s, w, action);
    }
  }

  lemma StepKeepsKeys(s: State, step: Step)
    requires Keys(s)
    ensures Keys(Apply(s, step))
  {
    match step
    case Tick(_) =>
    case Request(change) => ChangeKeepsKeys(s, change);
    case DeliverySide(work) => Deliveries.WorkKeepsAddresses(s.deliveries, s.outbox.now, work);
    case Work(w, action) => ActionKeepsKeys(s, w, action);
  }

  // ---------- Events ----------

  lemma OrganizationKeepsEvents(s: State, org: nat)
    requires Events(s)
    ensures Events(RemoveOrganization(s, org))
  {
  }

  lemma OwingKeepsEvents(s: State, id: nat, form: nat)
    requires Events(s) && Outbox.WellFormed(s.outbox)
    requires id in s.minted && id !in s.owedBy && id in s.submissions
    ensures Events(s.(outbox := Outbox.AfterInsert(s.outbox, s.submissions[id].org, form, id),
                      owedBy := s.owedBy[id := s.outbox.nextId]))
  {
  }

  lemma AcceptKeepsEvents(s: State, id: nat, form: nat, notify: bool)
    requires Keys(s) && Events(s) && id !in s.minted && form in s.forms
    ensures Events(Accept(s, id, form, notify))
  {
    var stored := s.(submissions := s.submissions[id := Submission(s.forms[form].org, form)],
                     minted := s.minted + {id});
    assert id !in s.owedBy && Events(stored);
    if Accept(s, id, form, notify) != stored { OwingKeepsEvents(stored, id, form); }
  }

  lemma ChangeKeepsEvents(s: State, change: Change)
    requires Keys(s) && Events(s)
    ensures Events(Changed(s, change))
  {
    hide Remove, Accept, RemoveOrganization, Events;
    match change
    case DeleteOrganization(org) => OrganizationKeepsEvents(s, org);
    case Submit(id, form, notify) =>
      if id !in s.minted && form in s.forms { AcceptKeepsEvents(s, id, form, notify); }
    case _ =>
      ChangeOutbox(s, change);
      FewerSubmissionsKeepEvents(s, Changed(s, change));
  }

  lemma RemoveOutbox(s: State, forms: set<nat>, submissions: set<nat>, endpoints: set<nat>)
    ensures SameOutbox(s, Remove(s, forms, submissions, endpoints))
  {
    hide Orphaned;
  }

  ghost predicate SameOutbox(s: State, s': State) {
    && s'.outbox == s.outbox && s.minted <= s'.minted && s'.owedBy == s.owedBy
    && s'.settlements == s.settlements && s'.workers == s.workers
    && forall x :: x in s'.submissions ==> x in s.submissions && s'.submissions[x] == s.submissions[x]
  }

  lemma ChangeOutbox(s: State, change: Change)
    requires !change.DeleteOrganization? && !change.Submit?
    ensures SameOutbox(s, Changed(s, change))
  {
    hide Remove;
    match change
    case DeleteForm(id) => RemoveOutbox(s, {id}, {}, {});
    case DeleteEndpoint(id) => RemoveOutbox(s, {}, {}, {id});
    case DeleteSubmission(id) => RemoveOutbox(s, {}, {id}, {});
    case _ =>
  }

  lemma FewerSubmissionsKeepEvents(s: State, s': State)
    requires Events(s) && s'.outbox == s.outbox && s.minted <= s'.minted && s'.owedBy == s.owedBy
    requires forall x :: x in s'.submissions ==> x in s.submissions && s'.submissions[x] == s.submissions[x]
    ensures Events(s')
  {
  }

  lemma SameEventsKeepEvents(s: State, s': State)
    requires Events(s) && SameEvents(s.outbox, s'.outbox)
    requires s'.submissions == s.submissions && s.minted <= s'.minted && s'.owedBy == s.owedBy
    ensures Events(s')
  {
  }

  lemma StepKeepsEvents(s: State, step: Step)
    requires Keys(s) && Events(s)
    ensures Events(Apply(s, step))
  {
    match step
    case Request(change) => ChangeKeepsEvents(s, change);
    case Work(w, action) =>
      if action.FanOut? {
        FanOutOutbox(s, w, action);
      } else {
        ActionFrame(s, w, action);
      }
      SameEventsKeepEvents(s, Apply(s, step));
    case _ => SameEventsKeepEvents(s, Apply(s, step));
  }

  lemma AfterFanOutOutbox(s: State, w: nat, event: nat, attempts: nat, source: Source, ids: map<nat, nat>)
    requires w in s.workers
    ensures var s' := AfterFanOut(s, w, event, attempts, source, ids);
            && s'.outbox == s.outbox && s'.submissions == s.submissions && s.minted <= s'.minted
            && s'.owedBy == s.owedBy && s'.settlements == s.settlements
  {
    hide AddDeliveries, Missing, Matching;
  }

  lemma FanOutOutbox(s: State, w: nat, action: Action)
    requires action.FanOut?
    ensures var s' := Acted(s, w, action);
            && s'.outbox == s.outbox && s'.submissions == s.submissions && s.minted <= s'.minted
            && s'.owedBy == s.owedBy && s'.settlements == s.settlements
  {
    hide FreshRows, AfterFanOut;
    var stage := StageOf(s, w);
    if stage.FanningOut? && FreshRows(s, stage.source, action.ids) {
      AfterFanOutOutbox(s, w, stage.event, stage.attempts, stage.source, action.ids);
    }
  }

  // ---------- Settlements ----------

  /** Steps that add no settlement and mark no event dispatched. */
  lemma CarriesSettlements(s: State, s': State)
    requires Settlements(s) && Carries(s, s') && s'.settlements == s.settlements
    requires forall id :: id in s'.outbox.rows && s'.outbox.rows[id].dispatchedAt.Some? ==>
                            id in s.outbox.rows && s.outbox.rows[id].dispatchedAt.Some?
    ensures Settlements(s')
  {
  }

  lemma CompletedIsHonoured(s: State, stage: Stage)
    requires StageOk(s, stage) && Completed(stage).Some?
    ensures !stage.Waiting?
    ensures Honoured(s, Completed(stage).value) && OwedThrough(s, Completed(stage).value.submission, stage.event)
  {
  }

  lemma FrameKeepsSettlements(s: State, s': State)
    requires Settlements(s) && Frame(s, s') && Carries(s, s')
    requires forall x :: x in s'.settlements && x !in s.settlements ==>
                           Honoured(s, x.receipt) && OwedThrough(s, x.receipt.submission, x.event)
    ensures Settlements(s')
  {
  }

  lemma ActionKeepsSettlements(s: State, w: nat, action: Action)
    requires Inv(s)
    ensures Settlements(Acted(s, w, action))
  {
    var s' := Acted(s, w, action);
    ActionCarries(s, w, action);
    if action.FanOut? {
      FanOutOutbox(s, w, action);
      CarriesSettlements(s, s');
    } else {
      ActionFrame(s, w, action);
      if action.Settle? && Completed(StageOf(s, w)).Some? {
        CompletedIsHonoured(s, s.workers[w].stage);
      } else if !action.Settle? {
        SameSettlements(s, w, action);
      }
      FrameKeepsSettlements(s, s');
    }
  }

  lemma SameSettlements(s: State, w: nat, action: Action)
    requires !action.Settle?
    ensures Acted(s, w, action).settlements == s.settlements
  {
  }

  lemma ChangeKeepsDispatched(s: State, change: Change)
    ensures var s' := Changed(s, change);
            && s'.settlements == s.settlements
            && forall id :: id in s'.outbox.rows && s'.outbox.rows[id].dispatchedAt.Some? ==>
                              id in s.outbox.rows && s.outbox.rows[id].dispatchedAt.Some?
  {
    if !change.DeleteOrganization? && !change.Submit? { ChangeOutbox(s, change); }
  }

  lemma StepKeepsSettlements(s: State, step: Step)
    requires Inv(s)
    ensures Settlements(Apply(s, step))
  {
    StepCarries(s, step);
    match step
    case Request(change) =>
      ChangeKeepsDispatched(s, change);
      CarriesSettlements(s, Apply(s, step));
    case Work(w, action) => ActionKeepsSettlements(s, w, action);
    case _ => CarriesSettlements(s, Apply(s, step));
  }

  // ---------- Workers ----------

  /** Only the acting worker's own entry changes. */
  lemma OthersStand(s: State, w: nat, action: Action, other: nat)
    requires other != w && other in Acted(s, w, action).workers
    ensures other in s.workers && Acted(s, w, action).workers[other] == s.workers[other]
  {
    if action.Claim? || action.Begin? || action.Read? || action.Fail? {
      OthersStandEarly(s, w, action, other);
    } else {
      OthersStandLate(s, w, action, other);
    }
  }

  lemma OthersStandEarly(s: State, w: nat, action: Action, other: nat)
    requires action.Claim? || action.Begin? || action.Read? || action.Fail?
    requires other != w && other in Acted(s, w, action).workers
    ensures other in s.workers && Acted(s, w, action).workers[other] == s.workers[other]
  {
    hide Outbox.ClaimedIds;
  }

  lemma OthersStandLate(s: State, w: nat, action: Action, other: nat)
    requires action.FanOut? || action.Enqueue? || action.Settle? || action.PutBack? || action.Crash?
    requires other != w && other in Acted(s, w, action).workers
    ensures other in s.workers && Acted(s, w, action).workers[other] == s.workers[other]
  {
    hide AddDeliveries, Missing, Matching, FreshRows;
  }

  lemma ClaimedBatchOk(s: State, w: nat, limit: nat)
    requires Inv(s)
    ensures var s' := AfterClaim(s, w, limit); WorkerOk(s', s'.workers[w])
  {
  }

  lemma ReadOk(s: State, w: nat)
    requires Inv(s) && w in s.workers && s.workers[w].stage.Reading?
    ensures var s' := Acted(s, w, Read); WorkerOk(s', s'.workers[w])
  {
    assert WorkerOk(s, s.workers[w]);
  }

  lemma FannedOutToAll(s: State, source: Source, ids: map<nat, nat>)
    requires FreshRows(s, source, ids) && s.deliveries.Keys <= s.minted
    ensures Matching(s.endpoints, source.org, source.form) <= s.endpoints.Keys
    ensures forall e :: e in Matching(s.endpoints, source.org, source.form) ==>
              HasDelivery(AddDeliveries(s, source, ids), e, source.submission)
  {
    var deliveries := AddDeliveries(s, source, ids);
    forall e | e in Matching(s.endpoints, source.org, source.form)
      ensures HasDelivery(deliveries, e, source.submission)
    {
      if e in Missing(s, source) {
        var d :| d in ids && ids[d] == e;
        assert deliveries[d].endpoint == e;
      } else {
        var d :| d in s.deliveries && s.deliveries[d].endpoint == e
            && s.deliveries[d].submission == Some(source.submission);
        assert deliveries[d] == s.deliveries[d];
      }
    }
  }

  /** The fan-out leaves a row for every endpoint that matched, whoever inserted it. */
  lemma FanOutOk(s: State, w: nat, ids: map<nat, nat>)
    requires w in s.workers && s.workers[w].stage.FanningOut? && WorkerOk(s, s.workers[w])
    requires FreshRows(s, s.workers[w].stage.source, ids) && s.deliveries.Keys + s.endpoints.Keys <= s.minted
    ensures var stage := s.workers[w].stage;
            var s' := AfterFanOut(s, w, stage.event, stage.attempts, stage.source, ids);
            WorkerOk(s', s'.workers[w])
  {
    var stage := s.workers[w].stage;
    FannedOutToAll(s, stage.source, ids);
    hide FreshRows, AddDeliveries, Matching, HasDelivery;
    var s' := AfterFanOut(s, w, stage.event, stage.attempts, stage.source, ids);
    assert OwedThrough(s', stage.source.submission, stage.event);
  }

  lemma FanOutActs(s: State, w: nat, ids: map<nat, nat>)
    requires StageOf(s, w).FanningOut?
    ensures var stage, s' := StageOf(s, w), Acted(s, w, FanOut(ids));
            && w in s.workers
            && (if FreshRows(s, stage.source, ids)
                then s' == AfterFanOut(s, w, stage.event, stage.attempts, stage.source, ids) else s' == s)
  {
    hide AfterFanOut, FreshRows;
  }

  lemma EnqueueOk(s: State, w: nat)
    requires Inv(s) && w in s.workers && s.workers[w].stage.Mailing?
    requires s.workers[w].stage.sent < |s.workers[w].stage.source.notifyEmails|
    ensures var s' := Acted(s, w, Enqueue); WorkerOk(s', s'.workers[w])
  {
    var s', stage := Acted(s, w, Enqueue), s.workers[w].stage;
    EnqueueFrame(s, w, Enqueue);
    UntouchedCarries(s, s');
    CarriesWorker(s, s', s.workers[w]);
    var emails, n := stage.source.notifyEmails, stage.sent;
    var told := emails[..n + 1];
    forall i | 0 <= i < |told| ensures Job(stage.source.submission, told[i]) in s'.jobs {
      if i < n { assert told[i] == emails[..n][i]; }
    }
  }

  /** Actions that only move a worker on, and settling and putting back. */
  lemma MovedOnOk(s: State, w: nat, action: Action)
    requires w in s.workers && WorkerOk(s, s.workers[w]) && w in Acted(s, w, action).workers
    requires action.Begin? || action.Settle? || action.Fail? || action.PutBack? || action.Crash?
    requires WorkerOk(Acted(s, w, action), s.workers[w])
    ensures WorkerOk(Acted(s, w, action), Acted(s, w, action).workers[w])
  {
    hide Honoured, Outbox.Apply, AfterFanOut, AfterRead, AfterEnqueue, AfterClaim, FreshRows;
  }

  lemma ActorOk(s: State, w: nat, action: Action)
    requires Inv(s) && w in Acted(s, w, action).workers
    ensures WorkerOk(Acted(s, w, action), Acted(s, w, action).workers[w])
  {
    var s', stage := Acted(s, w, action), StageOf(s, w);
    ActionCarries(s, w, action);
    if w in s.workers { CarriesWorker(s, s', s.workers[w]); }
    hide Honoured, Carries, Keys, Events, Settlements;
    match action
    case Claim(limit) => if Idle(s, w) { ClaimedBatchOk(s, w, limit); }
    case Read => if stage.Reading? { ReadOk(s, w); }
    case FanOut(ids) =>
      if stage.FanningOut? && FreshRows(s, stage.source, ids) {
        MintedKeys(s);
        FanOutOk(s, w, ids);
        FanOutActs(s, w, ids);
      }
    case Enqueue => if stage.Mailing? && stage.sent < |stage.source.notifyEmails| { EnqueueOk(s, w); }
    case _ => if w in s.workers { MovedOnOk(s, w, action); }
  }

  lemma MintedKeys(s: State)
    requires Keys(s)
    ensures s.deliveries.Keys + s.endpoints.Keys <= s.minted
  {
  }

  lemma StepKeepsWorkers(s: State, step: Step)
    requires Inv(s)
    ensures Workers(Apply(s, step))
  {
    var s' := Apply(s, step);
    StepCarries(s, step);
    if step.Request? { RequestsLeaveWorkers(s, step.change); }
    forall w | w in s'.workers ensures WorkerOk(s', s'.workers[w]) {
      if step.Work? && step.worker == w {
        ActorOk(s, w, step.action);
      } else {
        if step.Work? { OthersStand(s, step.worker, step.action, w); }
        CarriesWorker(s, s', s.workers[w]);
      }
    }
  }

  lemma RequestsLeaveWorkers(s: State, change: Change)
    ensures Changed(s, change).workers == s.workers
  {
    hide Orphaned, Matching;
  }

  // ---------- The result ----------

  lemma StepKeepsInv(s: State, step: Step)
    requires Inv(s)
    ensures Inv(Apply(s, step))
  {
    StepKeepsKeys(s, step);
    StepKeepsEvents(s, step);
    StepKeepsSettlements(s, step);
    StepKeepsWorkers(s, step);
  }

  lemma {:induction false} RunKeepsInv(s: State, steps: seq<Step>)
    requires Inv(s)
    ensures Inv(Run(s, steps))
    decreases |steps|
  {
    if steps != [] {
      StepKeepsInv(s, steps[0]);
      RunKeepsInv(Apply(s, steps[0]), steps[1..]);
    }
  }

  lemma Reachable(steps: seq<Step>)
    ensures Inv(Run(Init(), steps))
  {
    RunKeepsInv(Init(), steps);
  }

  // ---------- Where a receipt comes from ----------

  lemma {:induction false} RunLast(s: State, steps: seq<Step>, last: Step)
    ensures Run(s, steps + [last]) == Apply(Run(s, steps), last)
    decreases |steps|
  {
    if steps == [] {
      assert Run(s, [] + [last]) == Run(Apply(s, last), []);
    } else {
      assert (steps + [last])[1..] == steps[1..] + [last];
      RunLast(Apply(s, steps[0]), steps[1..], last);
    }
  }

  ghost predicate ReadsAs(s: State, source: Source) {
    && source.submission in s.submissions && s.submissions[source.submission].form == source.form
    && source.form in s.forms && s.forms[source.form] == Form(source.org, source.notifyEmails)
  }

  function StateAt(steps: seq<Step>, n: nat): State
    requires n <= |steps|
  {
    Run(Init(), steps[..n])
  }

  lemma StateAfter(steps: seq<Step>, n: nat)
    requires n < |steps|
    ensures StateAt(steps, n + 1) == Apply(StateAt(steps, n), steps[n])
  {
    hide Apply;
    assert steps[..n + 1] == steps[..n] + [steps[n]];
    RunLast(Init(), steps[..n], steps[n]);
  }

  /** Step `i` is this worker's read for the event, and the tables then said `source`. */
  ghost predicate ReadAt(steps: seq<Step>, i: nat, w: nat, event: nat, source: Source) {
    && i < |steps| && steps[i] == Work(w, Read)
    && StageOf(StateAt(steps, i), w).Reading? && StageOf(StateAt(steps, i), w).event == event
    && ReadsAs(StateAt(steps, i), source)
  }

  /** The endpoint exists, is enabled, belongs to the organization, and is for all its forms or for this one. */
  predicate Receives(s: State, e: nat, org: nat, form: nat) {
    && e in s.endpoints && s.endpoints[e].enabled && s.endpoints[e].org == org
    && (s.endpoints[e].form == None || s.endpoints[e].form == Some(form))
  }

  lemma MatchingReceives(s: State, org: nat, form: nat)
    ensures forall e :: e in Matching(s.endpoints, org, form) <==> Receives(s, e, org, form)
    ensures Matching(s.endpoints, org, form) != {} <==> exists e :: Receives(s, e, org, form)
  {
    if e :| Receives(s, e, org, form) { assert e in Matching(s.endpoints, org, form); }
  }

  /** Step `j` is its fan-out, from that source, and exactly these enabled endpoints then matched. */
  ghost predicate FannedOutAt(steps: seq<Step>, j: nat, w: nat, event: nat, source: Source, endpoints: set<nat>) {
    && j < |steps| && steps[j].Work? && steps[j].worker == w && steps[j].action.FanOut?
    && StageOf(StateAt(steps, j), w).FanningOut?
    && StageOf(StateAt(steps, j), w).event == event && StageOf(StateAt(steps, j), w).source == source
    && forall e :: e in endpoints <==> Receives(StateAt(steps, j), e, source.org, source.form)
  }

  /** Step `k` settles the event with that receipt. */
  ghost predicate SettledAt(steps: seq<Step>, k: nat, w: nat, x: Settlement) {
    && k < |steps| && steps[k] == Work(w, Settle)
    && Completed(StageOf(StateAt(steps, k), w)) == Some(x.receipt) && StageOf(StateAt(steps, k), w).event == x.event
  }

  ghost predicate ReadBefore(steps: seq<Step>, n: nat, w: nat, event: nat, source: Source) {
    exists i :: 0 <= i < n && ReadAt(steps, i, w, event, source)
  }

  ghost predicate FannedOutBefore(steps: seq<Step>, n: nat, w: nat, event: nat, source: Source, endpoints: set<nat>) {
    exists j ::
      0 <= j < n && FannedOutAt(steps, j, w, event, source, endpoints) && ReadBefore(steps, j, w, event, source)
  }

  /** A dispatch of the event by one worker: it read, then fanned out, then settled, all by step `n`. */
  ghost predicate DispatchedBefore(steps: seq<Step>, n: nat, event: nat, source: Source, endpoints: set<nat>) {
    exists w, k :: 0 <= k < n
      && SettledAt(steps, k, w, Settlement(event, Notified(source.submission, endpoints, source.notifyEmails)))
      && FannedOutBefore(steps, k, w, event, source, endpoints)
  }

  ghost predicate StageTraced(steps: seq<Step>, n: nat, w: nat, stage: Stage) {
    match stage
    case FanningOut(event, _, source) => ReadBefore(steps, n, w, event, source)
    case Mailing(event, _, source, matched, _) => FannedOutBefore(steps, n, w, event, source, matched)
    case _ => true
  }

  ghost predicate SettlementTraced(steps: seq<Step>, n: nat, x: Settlement) {
    x.receipt.Notified? ==>
      exists source: Source :: source.submission == x.receipt.submission && source.notifyEmails == x.receipt.addresses
                       && DispatchedBefore(steps, n, x.event, source, x.receipt.endpoints)
  }

  /** How a stage comes about: it was there, or this step is the read or the fan-out that makes it. */
  ghost predicate StageMade(s: State, step: Step, w: nat, stage: Stage, stage': Stage) {
    && (stage'.FanningOut? && stage' != stage ==>
          step == Work(w, Read) && stage.Reading? && stage.event == stage'.event && ReadsAs(s, stage'.source))
    && (stage'.Mailing? ==>
          || (stage.Mailing? && stage.event == stage'.event && stage.source == stage'.source
              && stage.matched == stage'.matched)
          || (step.Work? && step.worker == w && step.action.FanOut?
              && stage.FanningOut? && stage.event == stage'.event && stage.source == stage'.source
              && stage'.matched == Matching(s.endpoints, stage.source.org, stage.source.form)))
  }

  lemma StageStep(s: State, step: Step, w: nat)
    ensures StageMade(s, step, w, StageOf(s, w), StageOf(Apply(s, step), w))
  {
    match step
    case Request(change) => RequestsLeaveWorkers(s, change);
    case Work(actor, action) =>
      if actor != w {
        if w in Acted(s, actor, action).workers { OthersStand(s, actor, action, w); }
      } else {
        OwnStageStep(s, action, w);
      }
    case _ =>
  }

  lemma FanOutStage(s: State, ids: map<nat, nat>, w: nat)
    ensures var stage, stage' := StageOf(s, w), StageOf(Acted(s, w, FanOut(ids)), w);
            || stage' == stage || stage'.Broken?
            || (stage.FanningOut? && stage'.Mailing? && stage.event == stage'.event && stage.source == stage'.source
                && stage'.matched == Matching(s.endpoints, stage.source.org, stage.source.form))
  {
  }

  lemma ReadStage(s: State, w: nat)
    ensures var stage, stage' := StageOf(s, w), StageOf(Acted(s, w, Read), w);
            || stage' == stage || stage'.NothingLeft?
            || (stage.Reading? && stage'.FanningOut? && stage.event == stage'.event && ReadsAs(s, stage'.source))
  {
  }

  lemma OtherStage(s: State, action: Action, w: nat)
    requires !action.FanOut? && !action.Read?
    ensures var stage, stage' := StageOf(s, w), StageOf(Acted(s, w, action), w);
            || stage' == stage || stage'.Waiting? || stage'.Reading? || stage'.Broken?
            || (stage.Mailing? && stage' == stage.(sent := stage.sent + 1))
  {
  }

  lemma OwnStageStep(s: State, action: Action, w: nat)
    ensures StageMade(s, Work(w, action), w, StageOf(s, w), StageOf(Acted(s, w, action), w))
  {
    hide Acted, ReadsAs, Matching;
    match action
    case FanOut(ids) => FanOutStage(s, ids, w);
    case Read => ReadStage(s, w);
    case _ => OtherStage(s, action, w);
  }

  lemma SettlementStep(s: State, step: Step, x: Settlement)
    requires x in Apply(s, step).settlements && x !in s.settlements
    ensures step.Work? && step.action.Settle?
    ensures Completed(StageOf(s, step.worker)) == Some(x.receipt) && StageOf(s, step.worker).event == x.event
  {
    match step
    case Request(change) => ChangeKeepsDispatched(s, change);
    case Work(w, action) => if !action.Settle? { SameSettlements(s, w, action); }
    case _ =>
  }

  lemma StageTracedNext(steps: seq<Step>, n: nat, w: nat)
    requires n < |steps| && StageTraced(steps, n, w, StageOf(StateAt(steps, n), w))
    ensures StageTraced(steps, n + 1, w, StageOf(StateAt(steps, n + 1), w))
  {
    hide Run, Apply, Matching, ReadsAs;
    var s := StateAt(steps, n);
    StateAfter(steps, n);
    StageStep(s, steps[n], w);
    var stage, stage' := StageOf(s, w), StageOf(StateAt(steps, n + 1), w);
    if stage'.FanningOut? && stage' != stage {
      assert ReadAt(steps, n, w, stage'.event, stage'.source);
    }
    if stage'.Mailing? && !stage.Mailing? {
      MatchingReceives(StateAt(steps, n), stage'.source.org, stage'.source.form);
      assert FannedOutAt(steps, n, w, stage'.event, stage'.source, stage'.matched);
    }
  }

  lemma SettlementTracedNext(steps: seq<Step>, n: nat, x: Settlement)
    requires n < |steps| && x in StateAt(steps, n + 1).settlements
    requires x in StateAt(steps, n).settlements ==> SettlementTraced(steps, n, x)
    requires forall w :: StageTraced(steps, n, w, StageOf(StateAt(steps, n), w))
    ensures SettlementTraced(steps, n + 1, x)
  {
    hide Run, Apply, Matching, ReadsAs;
    var s := StateAt(steps, n);
    StateAfter(steps, n);
    if x.receipt.Notified? {
      if x in s.settlements {
        var source: Source :| source.submission == x.receipt.submission && source.notifyEmails == x.receipt.addresses
                      && DispatchedBefore(steps, n, x.event, source, x.receipt.endpoints);
        assert DispatchedBefore(steps, n + 1, x.event, source, x.receipt.endpoints);
      } else {
        SettlementStep(s, steps[n], x);
        var w := steps[n].worker;
        assert StageTraced(steps, n, w, StageOf(s, w)) && SettledAt(steps, n, w, x);
        assert DispatchedBefore(steps, n + 1, x.event, StageOf(s, w).source, x.receipt.endpoints);
      }
    }
  }

  lemma {:induction false} TracedRun(steps: seq<Step>, n: nat)
    requires n <= |steps|
    ensures forall w :: StageTraced(steps, n, w, StageOf(StateAt(steps, n), w))
    ensures forall x :: x in StateAt(steps, n).settlements ==> SettlementTraced(steps, n, x)
  {
    hide StageTraced, SettlementTraced;
    if n > 0 {
      hide StateAt;
      TracedRun(steps, n - 1);
      forall w ensures StageTraced(steps, n, w, StageOf(StateAt(steps, n), w)) {
        StageTracedNext(steps, n - 1, w);
      }
      forall x | x in StateAt(steps, n).settlements ensures SettlementTraced(steps, n, x) {
        SettlementTracedNext(steps, n - 1, x);
      }
    } else {
      NothingTraced(steps);
    }
  }

  lemma NothingTraced(steps: seq<Step>)
    ensures forall w :: StageTraced(steps, 0, w, StageOf(StateAt(steps, 0), w))
    ensures StateAt(steps, 0).settlements == {}
  {
  }

  /**
   No work is lost. In every reachable state, a submission that exists and had a destination when
   it was accepted has its event, and that event is either still owed or was settled by one worker's
   dispatch of it: at some step of the run that worker read the submission's form as `source`, at a
   later step it fanned out to `endpoints`, exactly the enabled ones then matching, and at a later
   one still it settled. Each of those endpoints that still exists has its delivery row, and a mail
   job is queued for every address read.
   */
  lemma NoWorkIsLost(steps: seq<Step>, x: nat)
    requires var s := Run(Init(), steps); x in s.submissions && x in s.owedBy
    ensures var s := Run(Init(), steps);
            var event := s.owedBy[x];
            && event in s.outbox.rows && s.outbox.rows[event].submission == x
            && (Outbox.Owed(s.outbox, event)
                || exists source: Source, endpoints: set<nat> ::
                     && source.submission == x && DispatchedBefore(steps, |steps|, event, source, endpoints)
                     && Settlement(event, Notified(x, endpoints, source.notifyEmails)) in s.settlements
                     && (forall e :: e in endpoints && e in s.endpoints ==> HasDelivery(s.deliveries, e, x))
                     && (forall i :: 0 <= i < |source.notifyEmails| ==> Job(x, source.notifyEmails[i]) in s.jobs))
  {
    hide Run, Apply, DispatchedBefore;
    Reachable(steps);
    TracedRun(steps, |steps|);
    assert steps[..|steps|] == steps;
    var s := Run(Init(), steps);
    var event := s.owedBy[x];
    if !Outbox.Owed(s.outbox, event) {
      var r :| Settlement(event, r) in s.settlements;
      var settlement := Settlement(event, r);
      assert Honoured(s, settlement.receipt) && OwedThrough(s, r.submission, event);
      assert r.submission == x && SettlementTraced(steps, |steps|, settlement);
      var source: Source :| source.submission == x && source.notifyEmails == r.addresses
                    && DispatchedBefore(steps, |steps|, event, source, r.endpoints);
    }
  }

  lemma SubmitAccepts(s: State, id: nat, form: nat, notify: bool)
    requires Events(s) && id !in s.minted && form in s.forms
    ensures Apply(s, Request(Submit(id, form, notify))) == Accept(s, id, form, notify)
    ensures id !in s.owedBy
  {
  }

  /** A submission is owed exactly when it had a destination, and through exactly one event. */
  lemma OwedExactlyWhenDestined(steps: seq<Step>, id: nat, form: nat, notify: bool)
    requires var s := Run(Init(), steps); id !in s.minted && form in s.forms
    ensures var s := Run(Init(), steps);
            var s' := Apply(s, Request(Submit(id, form, notify)));
            && id in s'.submissions
            && (id in s'.owedBy <==> notify || exists e :: Receives(s, e, s.forms[form].org, form))
            && (forall e :: e in s'.outbox.rows && s'.outbox.rows[e].submission == id
                            <==> id in s'.owedBy && e == s'.owedBy[id])
  {
    hide Run, Apply, Changed, Keys, Settlements, Workers;
    var s := Run(Init(), steps);
    Reachable(steps);
    StepKeepsInv(s, Request(Submit(id, form, notify)));
    SubmitAccepts(s, id, form, notify);
    MatchingReceives(s, s.forms[form].org, form);
  }

  /** At most one delivery row per endpoint and submission, in every reachable state. */
  lemma NeverDeliveredTwice(steps: seq<Step>)
    ensures OneRowPerPair(Run(Init(), steps).deliveries)
  {
    RunKeepsInv(Init(), steps);
  }

  // ---------- The outbox laws in the whole system ----------

  /** The outbox statement a step amounts to; `Tick(0)` when it does not touch the outbox. */
  function OutboxStep(s: State, step: Step): Outbox.Step {
    match step
    case Tick(seconds) => Outbox.Tick(seconds)
    case Request(change) => RequestStep(s, change)
    case DeliverySide(_) => Outbox.Tick(0)
    case Work(w, action) => WorkStep(s, w, action)
  }

  function RequestStep(s: State, change: Change): Outbox.Step {
    match change
    case Submit(id, form, notify) =>
      if id !in s.minted && form in s.forms
         && (notify || Matching(s.endpoints, s.forms[form].org, form) != {})
      then Outbox.Accept(s.forms[form].org, form, id) else Outbox.Tick(0)
    case DeleteOrganization(org) =>
      Outbox.Cascade(set id | id in s.outbox.rows && s.outbox.rows[id].org == org)
    case _ => Outbox.Tick(0)
  }

  function WorkStep(s: State, w: nat, action: Action): Outbox.Step {
    var stage := StageOf(s, w);
    match action
    case Claim(limit) => if Idle(s, w) then Outbox.Claim(limit) else Outbox.Tick(0)
    case Settle => if Completed(stage).Some? then Outbox.Settle(stage.event) else Outbox.Tick(0)
    case PutBack => if stage.Broken? then Outbox.PutBack(stage.event, stage.attempts) else Outbox.Tick(0)
    case _ => Outbox.Tick(0)
  }

  function OutboxTrace(s: State, steps: seq<Step>): seq<Outbox.Step>
    decreases |steps|
  {
    if steps == [] then [] else [OutboxStep(s, steps[0])] + OutboxTrace(Apply(s, steps[0]), steps[1..])
  }

  lemma RequestRefines(s: State, change: Change)
    ensures Changed(s, change).outbox == Outbox.Apply(s.outbox, RequestStep(s, change))
  {
  }

  lemma WorkRefines(s: State, w: nat, action: Action)
    ensures Acted(s, w, action).outbox == Outbox.Apply(s.outbox, WorkStep(s, w, action))
  {
  }

  lemma StepRefines(s: State, step: Step)
    ensures Apply(s, step).outbox == Outbox.Apply(s.outbox, OutboxStep(s, step))
  {
    match step
    case Request(change) => RequestRefines(s, change);
    case Work(w, action) => WorkRefines(s, w, action);
    case _ =>
  }

  lemma {:induction false} OutboxRefines(s: State, steps: seq<Step>)
    ensures Run(s, steps).outbox == Outbox.Run(s.outbox, OutboxTrace(s, steps))
    decreases |steps|
  {
    if steps != [] {
      StepRefines(s, steps[0]);
      OutboxRefines(Apply(s, steps[0]), steps[1..]);
      var trace := OutboxTrace(s, steps);
      assert trace[1..] == OutboxTrace(Apply(s, steps[0]), steps[1..]);
    }
  }

  /** Some worker still has a claim on the event: in its batch, or as the one it is at. */
  ghost predicate Held(s: State, event: nat) {
    exists w :: w in s.workers && HeldBy(s.workers[w], event)
  }

  predicate HeldBy(worker: Worker, event: nat) {
    event in worker.batch || (!worker.stage.Waiting? && worker.stage.event == event)
  }

  /** A worker comes to hold an event only by claiming it. */
  lemma HoldingStartsWithAClaim(s: State, step: Step, event: nat)
    requires !Held(s, event) && Held(Apply(s, step), event)
    ensures OutboxStep(s, step).Claim? && event in Outbox.ClaimedIds(s.outbox, OutboxStep(s, step).limit)
  {
    hide Acted, Changed, HeldBy;
    var w :| w in Apply(s, step).workers && HeldBy(Apply(s, step).workers[w], event);
    match step
    case Request(change) => RequestsLeaveWorkers(s, change);
    case Work(actor, action) =>
      if actor != w { OthersStand(s, actor, action, w); } else { OwnHolding(s, w, action, event); }
    case _ =>
  }

  lemma EndingsShrinkHoldings(s: State, w: nat, action: Action, event: nat)
    requires action.Settle? || action.PutBack? || action.Crash?
    requires w in Acted(s, w, action).workers && HeldBy(Acted(s, w, action).workers[w], event)
    ensures w in s.workers && HeldBy(s.workers[w], event)
  {
    hide Outbox.Apply;
  }

  lemma SendingShrinksHoldings(s: State, w: nat, action: Action, event: nat)
    requires action.FanOut? || action.Enqueue?
    requires w in Acted(s, w, action).workers && HeldBy(Acted(s, w, action).workers[w], event)
    ensures w in s.workers && HeldBy(s.workers[w], event)
  {
    hide Outbox.Apply, Matching, Missing, FreshRows, AddDeliveries, Completed;
    hide AfterSettle, AfterPutBack, AfterClaim, AfterRead, AfterBegin;
  }

  lemma StagesShrinkHoldings(s: State, w: nat, action: Action, event: nat)
    requires action.Begin? || action.Read? || action.Fail?
    requires w in Acted(s, w, action).workers && HeldBy(Acted(s, w, action).workers[w], event)
    ensures w in s.workers && HeldBy(s.workers[w], event)
  {
    hide Completed, AfterSettle, AfterPutBack, AfterClaim, AfterFanOut, AfterEnqueue, FreshRows;
  }

  lemma HoldingsShrink(s: State, w: nat, action: Action, event: nat)
    requires !action.Claim? && w in Acted(s, w, action).workers && HeldBy(Acted(s, w, action).workers[w], event)
    ensures w in s.workers && HeldBy(s.workers[w], event)
  {
    hide Acted, HeldBy;
    if action.Settle? || action.PutBack? || action.Crash? {
      EndingsShrinkHoldings(s, w, action, event);
    } else if action.FanOut? || action.Enqueue? {
      SendingShrinksHoldings(s, w, action, event);
    } else {
      StagesShrinkHoldings(s, w, action, event);
    }
  }

  lemma OwnHolding(s: State, w: nat, action: Action, event: nat)
    requires w in Acted(s, w, action).workers && HeldBy(Acted(s, w, action).workers[w], event)
    requires w in s.workers ==> !HeldBy(s.workers[w], event)
    ensures WorkStep(s, w, action).Claim? && event in Outbox.ClaimedIds(s.outbox, WorkStep(s, w, action).limit)
  {
    if action.Claim? {
      hide Outbox.Apply, Outbox.ClaimedIds;
    } else {
      HoldingsShrink(s, w, action, event);
    }
  }

  /** Only a worker that holds an event settles it or puts it back. */
  lemma OnlyHoldersTouch(s: State, step: Step, event: nat)
    requires !Held(s, event) && Outbox.Touches(OutboxStep(s, step), event)
    ensures OutboxStep(s, step).Cascade?
  {
    if step.Work? && step.worker in s.workers {
      assert !HeldBy(s.workers[step.worker], event);
    }
  }

  /** Rows keep their organization, and go only when it is deleted. */
  lemma RowStays(s: State, step: Step, event: nat)
    requires Outbox.WellFormed(s.outbox) && event in s.outbox.rows
    requires step != Request(DeleteOrganization(s.outbox.rows[event].org))
    ensures var t := Outbox.Apply(s.outbox, OutboxStep(s, step));
            event in t.rows && t.rows[event].org == s.outbox.rows[event].org
    ensures OutboxStep(s, step).Cascade? ==> !Outbox.Touches(OutboxStep(s, step), event)
  {
    hide Outbox.ClaimedIds, Matching;
  }

  lemma {:induction false} UnheldIsLeftAlone(s: State, steps: seq<Step>, event: nat, org: nat)
    requires Inv(s) && event in s.outbox.rows && s.outbox.rows[event].org == org && !Held(s, event)
    requires !Outbox.ClaimedDuring(s.outbox, OutboxTrace(s, steps), event)
    requires forall i :: 0 <= i < |steps| ==> steps[i] != Request(DeleteOrganization(org))
    ensures forall i :: 0 <= i < |OutboxTrace(s, steps)| ==> !Outbox.Touches(OutboxTrace(s, steps)[i], event)
    decreases |steps|
  {
    if steps != [] {
      var step, rest, s' := steps[0], steps[1..], Apply(s, steps[0]);
      KeysOf(s);
      hide Inv, Held, Apply, OutboxStep, Outbox.Apply, Outbox.Touches, Outbox.ClaimedIds;
      RowStays(s, step, event);
      StepRefines(s, step);
      StepKeepsInv(s, step);
      if Outbox.Touches(OutboxStep(s, step), event) { OnlyHoldersTouch(s, step, event); }
      var trace, tail := OutboxTrace(s, steps), OutboxTrace(s', rest);
      assert trace[1..] == tail;
      if Held(s', event) { HoldingStartsWithAClaim(s, step, event); }
      UnheldIsLeftAlone(s', rest, event, org);
      forall i | 0 <= i < |trace| ensures !Outbox.Touches(trace[i], event) {
        if i > 0 { assert trace[i] == tail[i - 1]; }
      }
    }
  }

  lemma KeysOf(s: State)
    requires Inv(s)
    ensures Outbox.WellFormed(s.outbox)
  {
  }

  /**
   No event starves. A due event with n owed events ahead of it is claimed by the (n / limit + 1)-th
   claim pass whatever else the whole system does meanwhile, unless the organization it belongs to is
   deleted. Only for an event some worker already holds is there one more way out: its holder writes
   to it first.
   */
  lemma NoEventStarves(before: seq<Step>, steps: seq<Step>, event: nat, limit: nat)
    requires limit > 0 && Outbox.Due(Run(Init(), before).outbox, event)
    requires var trace := OutboxTrace(Run(Init(), before), steps);
             && (forall i :: 0 <= i < |trace| && trace[i].Claim? ==> trace[i].limit == limit)
             && Outbox.Passes(trace) >= |Outbox.Ahead(Run(Init(), before).outbox, event)| / limit + 1
    ensures var s := Run(Init(), before);
            var trace := OutboxTrace(s, steps);
            || Outbox.ClaimedDuring(s.outbox, trace, event)
            || (exists i :: 0 <= i < |steps| && steps[i] == Request(DeleteOrganization(s.outbox.rows[event].org)))
            || (Held(s, event) && exists i :: 0 <= i < |trace| && Outbox.Touches(trace[i], event))
  {
    Reachable(before);
    var s := Run(Init(), before);
    KeysOf(s);
    hide Run, Inv, Held;
    Outbox.NoStarvation(s.outbox, OutboxTrace(s, steps), event, limit);
    if !Outbox.ClaimedDuring(s.outbox, OutboxTrace(s, steps), event) && !Held(s, event)
       && forall i :: 0 <= i < |steps| ==> steps[i] != Request(DeleteOrganization(s.outbox.rows[event].org))
    {
      UnheldIsLeftAlone(s, steps, event, s.outbox.rows[event].org);
    }
  }

  lemma NextEventIsUnheld(s: State, w: nat)
    requires Inv(s) && w in s.workers
    ensures !HeldBy(s.workers[w], s.outbox.nextId)
  {
    assert WorkerOk(s, s.workers[w]);
  }

  /** An event is held by nobody when its submission is accepted. */
  lemma AcceptedIsUnheld(steps: seq<Step>, id: nat, form: nat, notify: bool)
    requires var s := Run(Init(), steps); id !in s.minted && form in s.forms
    ensures var s' := Apply(Run(Init(), steps), Request(Submit(id, form, notify)));
            id in s'.owedBy ==> !Held(s', s'.owedBy[id]) && Outbox.Due(s'.outbox, s'.owedBy[id])
  {
    Reachable(steps);
    var s := Run(Init(), steps);
    hide Run, Inv, HeldBy;
    var s' := Apply(s, Request(Submit(id, form, notify)));
    SubmitAccepts(s, id, form, notify);
    forall w | w in s'.workers && id in s'.owedBy ensures !HeldBy(s'.workers[w], s'.owedBy[id]) {
      NextEventIsUnheld(s, w);
    }
  }

  /** A settled event never becomes owed again, in any run of the whole system. */
  lemma SettledForGood(before: seq<Step>, steps: seq<Step>, event: nat)
    requires var s := Run(Init(), before); event in s.outbox.rows && s.outbox.rows[event].dispatchedAt.Some?
    ensures !Outbox.Owed(Run(Run(Init(), before), steps).outbox, event)
  {
    RunKeepsInv(Init(), before);
    var s := Run(Init(), before);
    OutboxRefines(s, steps);
    Outbox.SettledStaysSettled(s.outbox, OutboxTrace(s, steps), event);
  }
}
