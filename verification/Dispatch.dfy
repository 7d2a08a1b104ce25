/**
 At-least-once dispatch: accepting a submission, the outbox it is owed through, the webhook fan-out,
 the mail queue, and any number of dispatch workers that may fail or stop between any two statements.

 Each SQL statement is one atomic step. Ids are UUIDs: `minted` is every id handed out so far, so
 none is ever reused. `owedBy` and `settlements` are history, read by no step.
 */
module Dispatch {
  import opened Common
  import Outbox
  import Deliveries

  datatype Form = Form(org: nat, notifyEmails: seq<string>)
  datatype Submission = Submission(org: nat, form: nat)
  datatype Endpoint = Endpoint(org: nat, form: Option<nat>, enabled: bool)

  /** A mail job pushed on the queue: which submission it announces, and to whom. */
  datatype Job = Job(submission: nat, to: string)

  /** What a worker reads when it starts on an event. */
  datatype Source = Source(org: nat, form: nat, submission: nat, notifyEmails: seq<string>)

  /** What a dispatch that reached its end accounts for. `Gone`: the submission no longer existed. */
  datatype Receipt = Gone(submission: nat) | Notified(submission: nat, endpoints: set<nat>, addresses: seq<string>)

  datatype Stage =
    | Waiting
    | Reading(event: nat, attempts: nat, submission: nat)
    | FanningOut(event: nat, attempts: nat, source: Source)
    | Mailing(event: nat, attempts: nat, source: Source, matched: set<nat>, sent: nat)
    | NothingLeft(event: nat, submission: nat)
    | Broken(event: nat, attempts: nat)

  datatype Claimed = Claimed(attempts: nat, submission: nat)

  /** A worker: the claimed events it has not started on, and where it is with the current one. */
  datatype Worker = Worker(batch: map<nat, Claimed>, stage: Stage)

  datatype Settlement = Settlement(event: nat, receipt: Receipt)

  datatype State = State(
    outbox: Outbox.Table,
    forms: map<nat, Form>,
    submissions: map<nat, Submission>,
    endpoints: map<nat, Endpoint>,
    deliveries: Deliveries.Rows,
    jobs: multiset<Job>,
    workers: map<nat, Worker>,
    minted: set<nat>,
    owedBy: map<nat, nat>,
    settlements: set<Settlement>)

  function Init(): State {
    State(Outbox.Table(0, map[], 0), map[], map[], map[], map[], multiset{}, map[], {}, map[], {})
  }

  // ---------- The statements ----------

  function Matching(endpoints: map<nat, Endpoint>, org: nat, form: nat): set<nat> {
    set e | e in endpoints && endpoints[e].org == org && endpoints[e].enabled
            && (endpoints[e].form.None? || endpoints[e].form.value == form)
  }

  predicate HasDelivery(deliveries: Deliveries.Rows, endpoint: nat, submission: nat) {
    exists d :: d in deliveries && deliveries[d].endpoint == endpoint && deliveries[d].submission == Some(submission)
  }

  /** The endpoints `INSERT ... ON CONFLICT DO NOTHING` would add a row for. */
  function Missing(s: State, source: Source): set<nat> {
    set e | e in Matching(s.endpoints, source.org, source.form) && !HasDelivery(s.deliveries, e, source.submission)
  }

  /**
   The submission and the event it is owed through, in one statement. `notify` was computed from a
   form row read earlier, so nothing ties it to the form as it is now.
   */
  function Accept(s: State, id: nat, form: nat, notify: bool): State
    requires form in s.forms
  {
    var org := s.forms[form].org;
    var stored := s.(submissions := s.submissions[id := Submission(org, form)], minted := s.minted + {id});
    if notify || Matching(s.endpoints, org, form) != {}
    then stored.(outbox := Outbox.AfterInsert(s.outbox, org, form, id), owedBy := s.owedBy[id := s.outbox.nextId])
    else stored
  }

  /** The generated ids: fresh, and one for each row the statement adds. */
  predicate FreshRows(s: State, source: Source, ids: map<nat, nat>) {
    && ids.Keys !! s.minted
    && ids.Values == Missing(s, source)
    && forall a, b :: a in ids && b in ids && ids[a] == ids[b] ==> a == b
  }

  function AddDeliveries(s: State, source: Source, ids: map<nat, nat>): Deliveries.Rows {
    s.deliveries + map d | d in ids :: Deliveries.NewDelivery(s.outbox.now, source.org, ids[d], source.submission)
  }

  /** `ON DELETE SET NULL` from submissions to deliveries. */
  function Orphaned(deliveries: Deliveries.Rows, gone: set<nat>): Deliveries.Rows {
    map d | d in deliveries ::
      if deliveries[d].submission.Some? && deliveries[d].submission.value in gone
      then deliveries[d].(submission := None) else deliveries[d]
  }

  /** Removing rows, with every cascade the foreign keys declare. */
  function Remove(s: State, forms: set<nat>, submissions: set<nat>, endpoints: set<nat>): State {
    var goneSubmissions := submissions + set x | x in s.submissions && s.submissions[x].form in forms;
    var goneEndpoints := endpoints + set e | e in s.endpoints && s.endpoints[e].form.Some?
        && s.endpoints[e].form.value in forms;
    s.(forms := s.forms - forms,
       submissions := s.submissions - goneSubmissions,
       endpoints := s.endpoints - goneEndpoints,
       deliveries := Orphaned(map d | d in s.deliveries
           && s.deliveries[d].endpoint !in goneEndpoints :: s.deliveries[d],
                              goneSubmissions))
  }

  function RemoveOrganization(s: State, org: nat): State {
    var forms := set f | f in s.forms && s.forms[f].org == org;
    var submissions := set x | x in s.submissions && s.submissions[x].org == org;
    var endpoints := set e | e in s.endpoints && s.endpoints[e].org == org;
    var events := set id | id in s.outbox.rows && s.outbox.rows[id].org == org;
    Remove(s, forms, submissions, endpoints).(outbox := Outbox.Apply(s.outbox, Outbox.Cascade(events)))
  }

  // ---------- The machine ----------

  /** What requests do to the tables. */
  datatype Change =
    | CreateForm(id: nat, org: nat, notifyEmails: seq<string>)
    | EditForm(id: nat, notifyEmails: seq<string>)
    | DeleteForm(id: nat)
    | CreateEndpoint(id: nat, org: nat, form: Option<nat>)
    | EditEndpoint(id: nat, enabled: bool, form: Option<nat>)
    | DeleteEndpoint(id: nat)
    | DeleteOrganization(org: nat)
    | Submit(id: nat, formId: nat, notify: bool)
    | DeleteSubmission(id: nat)

  /** What a dispatch worker does. `Fail`: a statement or a queue push reported an error. */
  datatype Action =
    | Claim(limit: nat)
    | Begin(event: nat)
    | Read
    | FanOut(ids: map<nat, nat>)
    | Enqueue
    | Settle
    | Fail
    | PutBack
    | Crash

  datatype Step =
    | Tick(seconds: nat)
    | Request(change: Change)
    | DeliverySide(work: Deliveries.Work)
    | Work(worker: nat, action: Action)

  predicate Idle(s: State, w: nat) {
    w in s.workers ==> s.workers[w].stage.Waiting? && s.workers[w].batch == map[]
  }

  function StageOf(s: State, w: nat): Stage {
    if w in s.workers then s.workers[w].stage else Waiting
  }

  function At(s: State, w: nat, stage: Stage): State
    requires w in s.workers
  {
    s.(workers := s.workers[w := s.workers[w].(stage := stage)])
  }

  /** The receipt of a dispatch with nothing left to do. */
  function Completed(stage: Stage): Option<Receipt> {
    match stage
    case NothingLeft(_, submission) => Some(Gone(submission))
    case Mailing(_, _, source, matched, sent) =>
      if sent == |source.notifyEmails| then Some(Notified(source.submission, matched, source.notifyEmails)) else None
    case _ => None
  }

  function AfterRead(s: State, w: nat, event: nat, attempts: nat, submission: nat): State
    requires w in s.workers
  {
    if submission in s.submissions && s.submissions[submission].form in s.forms then
      var form := s.submissions[submission].form;
      At(s, w, FanningOut(event, attempts, Source(s.forms[form].org, form, submission, s.forms[form].notifyEmails)))
    else
      At(s, w, NothingLeft(event, submission))
  }

  /** A row for a submission that has just gone violates its foreign key, and the statement fails. */
  function AfterFanOut(s: State, w: nat, event: nat, attempts: nat, source: Source, ids: map<nat, nat>): State
    requires w in s.workers
  {
    if Missing(s, source) != {} && source.submission !in s.submissions then
      At(s, w, Broken(event, attempts))
    else
      At(s.(deliveries := AddDeliveries(s, source, ids), minted := s.minted + ids.Keys), w,
         Mailing(event, attempts, source, Matching(s.endpoints, source.org, source.form), 0))
  }

  function AfterClaim(s: State, w: nat, limit: nat): State {
    var claimed := Outbox.ClaimedIds(s.outbox, limit);
    var batch := map e | e in claimed && e in s.outbox.rows ::
      Claimed(s.outbox.rows[e].attempts + 1, s.outbox.rows[e].submission);
    s.(outbox := Outbox.Apply(s.outbox, Outbox.Claim(limit)), workers := s.workers[w := Worker(batch, Waiting)])
  }

  function AfterBegin(s: State, w: nat, event: nat): State
    requires w in s.workers && event in s.workers[w].batch
  {
    var claimed := s.workers[w].batch[event];
    s.(workers := s.workers[w := Worker(s.workers[w].batch - {event},
                                        Reading(event, claimed.attempts, claimed.submission))])
  }

  function AfterEnqueue(s: State, w: nat, stage: Stage): State
    requires w in s.workers && stage.Mailing? && stage.sent < |stage.source.notifyEmails|
  {
    var job := Job(stage.source.submission, stage.source.notifyEmails[stage.sent]);
    At(s.(jobs := s.jobs + multiset{job}), w, stage.(sent := stage.sent + 1))
  }

  function AfterPutBack(s: State, w: nat, event: nat, attempts: nat): State
    requires w in s.workers
  {
    At(s.(outbox := Outbox.Apply(s.outbox, Outbox.PutBack(event, attempts))), w, Waiting)
  }

  function AfterSettle(s: State, w: nat, receipt: Receipt): State
    requires w in s.workers && !s.workers[w].stage.Waiting?
  {
    var event := s.workers[w].stage.event;
    At(s.(outbox := Outbox.Apply(s.outbox, Outbox.Settle(event)),
          settlements := s.settlements + {Settlement(event, receipt)}), w, Waiting)
  }

  /** A change that is not possible in a state leaves it alone. */
  function Changed(s: State, change: Change): State {
    match change
    case CreateForm(id, org, emails) =>
      if id in s.minted then s else s.(forms := s.forms[id := Form(org, emails)], minted := s.minted + {id})
    case EditForm(id, emails) =>
      if id in s.forms then s.(forms := s.forms[id := s.forms[id].(notifyEmails := emails)]) else s
    case DeleteForm(id) => Remove(s, {id}, {}, {})
    case CreateEndpoint(id, org, form) =>
      if id in s.minted || (form.Some? && form.value !in s.forms) then s
      else s.(endpoints := s.endpoints[id := Endpoint(org, form, true)], minted := s.minted + {id})
    case EditEndpoint(id, enabled, form) =>
      if id !in s.endpoints || (form.Some? && form.value !in s.forms) then s
      else s.(endpoints := s.endpoints[id := s.endpoints[id].(enabled := enabled, form := form)])
    case DeleteEndpoint(id) => Remove(s, {}, {}, {id})
    case DeleteOrganization(org) => RemoveOrganization(s, org)
    case Submit(id, form, notify) =>
      if id in s.minted || form !in s.forms then s else Accept(s, id, form, notify)
    case DeleteSubmission(id) => Remove(s, {}, {id}, {})
  }

  /** An action that is not possible at the worker's stage leaves everything alone. */
  function Acted(s: State, w: nat, action: Action): State {
    var stage := StageOf(s, w);
    match action
    case Claim(limit) => if Idle(s, w) then AfterClaim(s, w, limit) else s
    case Begin(event) =>
      if stage.Waiting? && w in s.workers && event in s.workers[w].batch then AfterBegin(s, w, event) else s
    case Read =>
      if stage.Reading? then AfterRead(s, w, stage.event, stage.attempts, stage.submission) else s
    case FanOut(ids) =>
      if stage.FanningOut? && FreshRows(s, stage.source, ids)
      then AfterFanOut(s, w, stage.event, stage.attempts, stage.source, ids) else s
    case Enqueue =>
      if stage.Mailing? && stage.sent < |stage.source.notifyEmails| then AfterEnqueue(s, w, stage) else s
    case Settle =>
      if Completed(stage).Some? then AfterSettle(s, w, Completed(stage).value) else s
    case Fail =>
      if stage.Reading? || stage.FanningOut? || stage.Mailing?
      then At(s, w, Broken(stage.event, stage.attempts)) else s
    case PutBack =>
      if stage.Broken? then AfterPutBack(s, w, stage.event, stage.attempts) else s
    case Crash => s.(workers := s.workers - {w})
  }

  function Apply(s: State, step: Step): State {
    match step
    case Tick(seconds) => s.(outbox := Outbox.Apply(s.outbox, Outbox.Tick(seconds)))
    case Request(change) => Changed(s, change)
    case DeliverySide(work) => s.(deliveries := Deliveries.Perform(s.deliveries, s.outbox.now, work))
    case Work(w, action) => Acted(s, w, action)
  }

  function Run(s: State, steps: seq<Step>): State
    decreases |steps|
  {
    if steps == [] then s else Run(Apply(s, steps[0]), steps[1..])
  }
}
