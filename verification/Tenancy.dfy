/**
 Where deliveries go. A fan-out reaches exactly the endpoints its submission is for, and in every
 reachable state a delivery, its endpoint and its submission belong to one organization.
 */
module Tenancy {
  import opened Common
  import opened Dispatch
  import opened DispatchSafety
  import Outbox
  import Deliveries

  /** A row a fan-out adds is for an endpoint of the source's organization, enabled, and for its form. */
  lemma FanOutReaches(s: State, w: nat, ids: map<nat, nat>, d: nat)
    requires StageOf(s, w).FanningOut?
    requires d in Acted(s, w, FanOut(ids)).deliveries && d !in s.deliveries
    ensures var source, row := StageOf(s, w).source, Acted(s, w, FanOut(ids)).deliveries[d];
            && Receives(s, row.endpoint, source.org, source.form)
            && row == Deliveries.Delivery(source.org, row.endpoint, Some(source.submission), Deliveries.Pending,
                                          0, s.outbox.now, None, None)
  {
    var stage := StageOf(s, w);
    MatchingReceives(s, stage.source.org, stage.source.form);
    FanOutActs(s, w, ids);
    hide Acted, Matching, AfterClaim;
    assert ids[d] in ids.Values;
  }

  /** Once it goes on to mail, every such endpoint has a row, and no row that was there has changed. */
  lemma FanOutReachesAll(s: State, w: nat, ids: map<nat, nat>)
    requires Keys(s) && StageOf(s, w).FanningOut? && StageOf(Acted(s, w, FanOut(ids)), w).Mailing?
    ensures var source, s' := StageOf(s, w).source, Acted(s, w, FanOut(ids));
            && (forall e :: Receives(s, e, source.org, source.form) ==>
                              HasDelivery(s'.deliveries, e, source.submission))
            && (forall d :: d in s.deliveries ==> d in s'.deliveries && s'.deliveries[d] == s.deliveries[d])
  {
    var source := StageOf(s, w).source;
    MatchingReceives(s, source.org, source.form);
    FanOutActs(s, w, ids);
    if FreshRows(s, source, ids) {
      FannedOutToAll(s, source, ids);
      FanOutTables(s, w, ids);
    }
    hide Acted, Matching, HasDelivery, Missing, AddDeliveries, FreshRows, Receives, Keys;
  }

  // ---------- What edits do ----------

  /** Forms and endpoints are made as asked, under new ids; an edit changes that row as asked and no other. */
  lemma EditsAre(s: State, id: nat, org: nat, form: Option<nat>, enabled: bool, emails: seq<string>)
    ensures id !in s.minted ==>
              Apply(s, Request(CreateForm(id, org, emails)))
              == s.(forms := s.forms[id := Form(org, emails)], minted := s.minted + {id})
    ensures id in s.forms ==>
              Apply(s, Request(EditForm(id, emails)))
              == s.(forms := s.forms[id := s.forms[id].(notifyEmails := emails)])
    ensures id !in s.minted && (form.Some? ==> form.value in s.forms) ==>
              Apply(s, Request(CreateEndpoint(id, org, form)))
              == s.(endpoints := s.endpoints[id := Endpoint(org, form, true)], minted := s.minted + {id})
    ensures id in s.endpoints && (form.Some? ==> form.value in s.forms) ==>
              Apply(s, Request(EditEndpoint(id, enabled, form)))
              == s.(endpoints := s.endpoints[id := Endpoint(s.endpoints[id].org, form, enabled)])
  {
  }

  // ---------- What deletions take ----------

  /** A deleted form goes with its submissions, its endpoints and what was on its way to them. */
  lemma FormDeletionTakes(s: State, form: nat)
    ensures var s' := Apply(s, Request(DeleteForm(form)));
            && s'.forms == s.forms - {form} && s'.outbox == s.outbox
            && (forall x :: x in s'.submissions <==> x in s.submissions && s.submissions[x].form != form)
            && (forall x :: x in s'.submissions ==> s'.submissions[x] == s.submissions[x])
            && (forall e :: e in s'.endpoints <==> e in s.endpoints && s.endpoints[e].form != Some(form))
            && (forall e :: e in s'.endpoints ==> s'.endpoints[e] == s.endpoints[e])
            && (forall d :: d in s'.deliveries <==> d in s.deliveries && !EndpointGoes(s, s', s.deliveries[d].endpoint))
  {
    hide Orphaned;
    OrphanedKeeps();
  }

  predicate EndpointGoes(s: State, s': State, e: nat) {
    e in s.endpoints && e !in s'.endpoints
  }

  lemma OrphanedKeeps()
    ensures forall rows: Deliveries.Rows, gone :: Orphaned(rows, gone).Keys == rows.Keys
  {
  }

  /** A deleted organization takes everything that is its own, and the events it was owed. */
  lemma OrganizationDeletionTakes(s: State, org: nat)
    requires Keys(s)
    ensures var s' := Apply(s, Request(DeleteOrganization(org)));
            && (forall f :: f in s'.forms <==> f in s.forms && s.forms[f].org != org)
            && (forall x :: x in s'.submissions <==> x in s.submissions && s.submissions[x].org != org)
            && (forall e :: e in s'.endpoints ==> e in s.endpoints && s.endpoints[e].org != org)
            && (forall id :: id in s'.outbox.rows <==> id in s.outbox.rows && s.outbox.rows[id].org != org)
            && (forall id :: id in s'.outbox.rows ==> s'.outbox.rows[id] == s.outbox.rows[id])
  {
    hide Orphaned, OneRowPerPair;
  }

  // ---------- One organization ----------

  ghost predicate DeliveryOk(s: State, d: nat)
    requires d in s.deliveries
  {
    var row := s.deliveries[d];
    && row.endpoint in s.endpoints && s.endpoints[row.endpoint].org == row.org
    && (row.submission.Some? ==>
          row.submission.value in s.submissions && s.submissions[row.submission.value].org == row.org)
  }

  /** What a worker took its source from is what the submission still says. */
  ghost predicate SourceOk(s: State, stage: Stage) {
    stage.FanningOut? ==>
      var source := stage.source;
      && source.submission in s.minted
      && (source.submission in s.submissions ==>
            s.submissions[source.submission] == Submission(source.org, source.form))
  }

  ghost predicate OneTenant(s: State) {
    && (forall d :: d in s.deliveries ==> DeliveryOk(s, d))
    && (forall w :: w in s.workers ==> SourceOk(s, s.workers[w].stage))
  }

  /** Rows keep their organization; new submissions and endpoints come under new ids. */
  ghost predicate Stands(s: State, s': State) {
    && s.minted <= s'.minted
    && (forall e :: e in s.endpoints && e in s'.endpoints ==> s'.endpoints[e].org == s.endpoints[e].org)
    && (forall x :: x in s'.submissions && x in s.minted ==>
                      x in s.submissions && s'.submissions[x] == s.submissions[x])
  }

  /** A delivery row goes with its endpoint, and loses a submission that goes. */
  ghost predicate Cascaded(s: State, s': State) {
    forall d :: d in s'.deliveries ==>
      && d in s.deliveries && s'.deliveries[d].endpoint == s.deliveries[d].endpoint
      && s'.deliveries[d].org == s.deliveries[d].org && s'.deliveries[d].endpoint in s'.endpoints
      && (s'.deliveries[d].submission.Some? ==>
            && s'.deliveries[d].submission == s.deliveries[d].submission
            && s'.deliveries[d].submission.value in s'.submissions)
  }

  lemma StandingKeeps(s: State, s': State)
    requires OneTenant(s) && Keys(s) && Stands(s, s') && Cascaded(s, s') && s'.workers == s.workers
    ensures OneTenant(s')
  {
    assert forall d :: d in s'.deliveries ==> DeliveryOk(s, d);
    assert forall w :: w in s'.workers ==> SourceOk(s, s.workers[w].stage);
  }

  lemma RemoveCascades(s: State, forms: set<nat>, submissions: set<nat>, endpoints: set<nat>)
    requires OneTenant(s) && Keys(s)
    ensures var s' := Remove(s, forms, submissions, endpoints);
            Stands(s, s') && Cascaded(s, s') && s'.workers == s.workers
  {
    assert forall d :: d in s.deliveries ==> DeliveryOk(s, d);
  }

  lemma NothingGoes(s: State, s': State)
    requires OneTenant(s) && s'.deliveries == s.deliveries && s.endpoints.Keys <= s'.endpoints.Keys
    requires s.submissions.Keys <= s'.submissions.Keys
    ensures Cascaded(s, s')
  {
    assert forall d :: d in s.deliveries ==> DeliveryOk(s, d);
  }

  ghost predicate OnlyEdited(s: State, s': State) {
    && s'.submissions == s.submissions && s'.deliveries == s.deliveries && s'.workers == s.workers
    && s.minted <= s'.minted && s.endpoints.Keys <= s'.endpoints.Keys
    && (forall e :: e in s.endpoints ==> s'.endpoints[e].org == s.endpoints[e].org)
  }

  lemma FormEdits(s: State, change: Change)
    requires change.CreateForm? || change.EditForm?
    ensures OnlyEdited(s, Changed(s, change))
  {
    hide Remove, RemoveOrganization, Accept;
  }

  lemma EndpointEdits(s: State, change: Change)
    requires s.endpoints.Keys <= s.minted && (change.CreateEndpoint? || change.EditEndpoint?)
    ensures OnlyEdited(s, Changed(s, change))
  {
    hide Remove, RemoveOrganization, Accept;
  }

  lemma EditTables(s: State, change: Change)
    requires Keys(s)
    requires change.CreateForm? || change.EditForm? || change.CreateEndpoint? || change.EditEndpoint?
    ensures OnlyEdited(s, Changed(s, change))
  {
    MintedKeys(s);
    hide Changed, Keys, OnlyEdited;
    if change.CreateForm? || change.EditForm? {
      FormEdits(s, change);
    } else {
      EndpointEdits(s, change);
    }
  }

  lemma EditStands(s: State, change: Change)
    requires OneTenant(s) && Keys(s)
    requires change.CreateForm? || change.EditForm? || change.CreateEndpoint? || change.EditEndpoint?
    ensures var s' := Changed(s, change); Stands(s, s') && Cascaded(s, s') && s'.workers == s.workers
  {
    EditTables(s, change);
    hide OneTenant, Cascaded, Changed;
    NothingGoes(s, Changed(s, change));
  }

  lemma AcceptStands(s: State, id: nat, form: nat, notify: bool)
    requires OneTenant(s) && Keys(s) && id !in s.minted && form in s.forms
    ensures var s' := Accept(s, id, form, notify); Stands(s, s') && Cascaded(s, s') && s'.workers == s.workers
  {
    hide Matching, OneTenant, Cascaded;
    NothingGoes(s, Accept(s, id, form, notify));
  }

  lemma SameStands(s: State)
    requires OneTenant(s) && Keys(s)
    ensures Stands(s, s) && Cascaded(s, s)
  {
    assert forall d :: d in s.deliveries ==> DeliveryOk(s, d);
  }

  lemma EventsAside(s: State, s': State, outbox: Outbox.Table)
    requires Stands(s, s') && Cascaded(s, s')
    ensures Stands(s, s'.(outbox := outbox)) && Cascaded(s, s'.(outbox := outbox))
  {
  }

  lemma OrganizationStands(s: State, org: nat)
    requires OneTenant(s) && Keys(s)
    ensures var s' := RemoveOrganization(s, org); Stands(s, s') && Cascaded(s, s') && s'.workers == s.workers
  {
    var forms := set f | f in s.forms && s.forms[f].org == org;
    var submissions := set x | x in s.submissions && s.submissions[x].org == org;
    var endpoints := set e | e in s.endpoints && s.endpoints[e].org == org;
    RemoveCascades(s, forms, submissions, endpoints);
    EventsAside(s, Remove(s, forms, submissions, endpoints), RemoveOrganization(s, org).outbox);
    hide Remove, Outbox.Apply, OneTenant, Keys, Stands, Cascaded;
  }

  lemma ChangeStands(s: State, change: Change)
    requires OneTenant(s) && Keys(s)
    ensures var s' := Changed(s, change); Stands(s, s') && Cascaded(s, s') && s'.workers == s.workers
  {
    SameStands(s);
    hide Remove, RemoveOrganization, Accept, OneTenant, Keys, Stands, Cascaded;
    if Deletes(change) {
      DeletionStands(s, change);
    } else if change.Submit? {
      if change.id !in s.minted && change.formId in s.forms {
        AcceptStands(s, change.id, change.formId, change.notify);
      }
    } else {
      EditStands(s, change);
    }
  }

  predicate Deletes(change: Change) {
    change.DeleteForm? || change.DeleteEndpoint? || change.DeleteSubmission? || change.DeleteOrganization?
  }

  lemma DeletionStands(s: State, change: Change)
    requires OneTenant(s) && Keys(s) && Deletes(change)
    ensures var s' := Changed(s, change); Stands(s, s') && Cascaded(s, s') && s'.workers == s.workers
  {
    hide Remove, RemoveOrganization, OneTenant, Keys, Stands, Cascaded;
    match change
    case DeleteForm(id) => RemoveCascades(s, {id}, {}, {});
    case DeleteEndpoint(id) => RemoveCascades(s, {}, {}, {id});
    case DeleteSubmission(id) => RemoveCascades(s, {}, {id}, {});
    case DeleteOrganization(org) => OrganizationStands(s, org);
  }

  // ---------- Workers ----------

  lemma NewSource(s: State, w: nat, action: Action)
    requires Keys(s) && w in Acted(s, w, action).workers
    requires Acted(s, w, action).workers[w].stage.FanningOut?
    requires Acted(s, w, action).workers[w].stage != StageOf(s, w)
    ensures SourceOk(s, Acted(s, w, action).workers[w].stage)
  {
    StageStep(s, Work(w, action), w);
    hide Acted, Matching;
  }

  /** Actions other than the fan-out leave every table of this invariant as it is. */
  lemma ActionKeepsTenant(s: State, w: nat, action: Action)
    requires OneTenant(s) && Keys(s) && !action.FanOut?
    ensures OneTenant(Acted(s, w, action))
  {
    ActionFrame(s, w, action);
    var s' := Acted(s, w, action);
    forall d | d in s'.deliveries ensures DeliveryOk(s', d) { assert DeliveryOk(s, d); }
    hide Acted, Keys, DeliveryOk;
    forall v | v in s'.workers ensures SourceOk(s', s'.workers[v].stage) {
      if v != w {
        OthersStand(s, w, action, v);
      } else if s'.workers[w].stage.FanningOut? && s'.workers[w].stage != StageOf(s, w) {
        NewSource(s, w, action);
      }
    }
  }

  lemma AddedIsOk(s: State, w: nat, ids: map<nat, nat>, d: nat)
    requires OneTenant(s) && Keys(s) && StageOf(s, w).FanningOut?
    requires d in Acted(s, w, FanOut(ids)).deliveries && d !in s.deliveries
    ensures DeliveryOk(Acted(s, w, FanOut(ids)), d)
  {
    FanOutReaches(s, w, ids, d);
    FanOutActs(s, w, ids);
    assert SourceOk(s, s.workers[w].stage);
    hide Acted, Receives, OneTenant, Keys, Matching, HasDelivery;
    assert ids[d] in ids.Values;
  }

  lemma FanOutKeepsTenant(s: State, w: nat, ids: map<nat, nat>)
    requires OneTenant(s) && Keys(s)
    ensures OneTenant(Acted(s, w, FanOut(ids)))
  {
    var s' := Acted(s, w, FanOut(ids));
    if StageOf(s, w).FanningOut? && FreshRows(s, StageOf(s, w).source, ids) {
      FanOutTables(s, w, ids);
      forall d | d in s'.deliveries ensures DeliveryOk(s', d) {
        if d in s.deliveries { assert DeliveryOk(s, d); } else { AddedIsOk(s, w, ids, d); }
      }
      hide Acted, Keys, DeliveryOk, FreshRows;
      forall v | v in s'.workers ensures SourceOk(s', s'.workers[v].stage) {
        if v != w { OthersStand(s, w, FanOut(ids), v); }
      }
    }
  }

  lemma FanOutTables(s: State, w: nat, ids: map<nat, nat>)
    requires Keys(s) && StageOf(s, w).FanningOut? && FreshRows(s, StageOf(s, w).source, ids)
    ensures var s' := Acted(s, w, FanOut(ids));
            && s'.endpoints == s.endpoints && s'.submissions == s.submissions && s.minted <= s'.minted
            && (forall d :: d in s.deliveries ==> d in s'.deliveries && s'.deliveries[d] == s.deliveries[d])
            && w in s'.workers && !s'.workers[w].stage.FanningOut?
  {
    FanOutActs(s, w, ids);
    hide Acted, Matching, Missing;
  }

  lemma WorkKeepsTenant(s: State, work: Deliveries.Work)
    requires OneTenant(s)
    ensures OneTenant(Apply(s, DeliverySide(work)))
  {
    Deliveries.WorkKeepsAddresses(s.deliveries, s.outbox.now, work);
    hide Deliveries.Perform;
    assert forall d :: d in s.deliveries ==> DeliveryOk(s, d);
  }

  lemma StepKeepsTenant(s: State, step: Step)
    requires OneTenant(s) && Keys(s)
    ensures OneTenant(Apply(s, step))
  {
    match step
    case Tick(_) =>
      assert forall d :: d in s.deliveries ==> DeliveryOk(s, d);
    case DeliverySide(work) => WorkKeepsTenant(s, work);
    case Request(change) =>
      hide OneTenant, Keys, Changed, Stands, Cascaded;
      ChangeStands(s, change);
      StandingKeeps(s, Changed(s, change));
    case Work(w, action) =>
      hide OneTenant, Keys, Acted;
      if action.FanOut? {
        FanOutKeepsTenant(s, w, action.ids);
      } else {
        ActionKeepsTenant(s, w, action);
      }
  }

  lemma {:induction false} RunKeepsTenant(s: State, steps: seq<Step>)
    requires Inv(s) && OneTenant(s)
    ensures OneTenant(Run(s, steps))
    decreases |steps|
  {
    if steps != [] {
      StepKeepsInv(s, steps[0]);
      StepKeepsTenant(s, steps[0]);
      hide Inv, OneTenant, Apply;
      RunKeepsTenant(Apply(s, steps[0]), steps[1..]);
    }
  }

  /**
   No delivery crosses organizations: in every interleaving a delivery's endpoint exists and belongs to
   the delivery's organization, and so does its submission for as long as it has one.
   */
  lemma DeliveriesStayInside(steps: seq<Step>, d: nat)
    requires d in Run(Init(), steps).deliveries
    ensures var s := Run(Init(), steps);
            var row := s.deliveries[d];
            && row.endpoint in s.endpoints && s.endpoints[row.endpoint].org == row.org
            && (row.submission.Some? ==>
                  row.submission.value in s.submissions && s.submissions[row.submission.value].org == row.org)
  {
    Reachable([]);
    RunKeepsTenant(Init(), steps);
    assert DeliveryOk(Run(Init(), steps), d);
  }
}
