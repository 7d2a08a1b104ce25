/**
 The bucket and its ledger: two stores with no shared transaction. Uploads, submissions that claim
 them, deletions that hand them back, and reapers that may stop between any two of their steps.

 Object keys and ids are fresh UUIDs (`minted`). `places` and `lost` are history, read by no step:
 the record that last accounted for an object, and the objects the service itself gave up on,
 because a cleanup failed, a request died holding one, or a form deletion cascaded.
 */
module Uploads {
  import opened Common
  import opened Ordering

  const REAP_BATCH := 200

  /** What a submission stores about one attachment. */
  datatype File = File(key: nat, filename: string, contentType: string, size: nat)

  datatype Row = Row(form: nat, field: string, file: File, submission: Option<nat>, createdAt: int)

  datatype Submission = Submission(form: nat, files: map<string, File>)

  /** An upload request between completing its object and recording it. */
  datatype Upload = Stored(form: nat, field: string, file: File) | Unrecorded(file: File)

  datatype Listed = Listed(id: nat, key: nat)

  /** A reaper pass: what is left of its work list, and whether the head's object is already gone. */
  datatype Pass = Pass(left: seq<Listed>, deleted: bool)

  /** Which of the two stores' records accounts for an object. */
  datatype Place = AtUpload(upload: nat) | AtRow(id: nat)

  datatype State = State(
    now: int,
    forms: set<nat>,
    bucket: set<nat>,
    ledger: map<nat, Row>,
    submissions: map<nat, Submission>,
    uploads: map<nat, Upload>,
    reapers: map<nat, Pass>,
    minted: set<nat>,
    places: map<nat, Place>,
    lost: set<nat>)

  function Init(): State {
    State(0, {}, {}, map[], map[], map[], map[], {}, map[], {})
  }

  // ---------- Claiming ----------

  datatype FileError =
    | NotReceived(field: string) | AlreadyUsed(field: string) | OtherField(field: string) | ClaimedElsewhere | Internal

  /** A file answer: the field, and the object key the submitter put in it. */
  datatype Answer = Answer(field: string, key: nat)

  predicate DistinctFields(answers: seq<Answer>) {
    forall i, j :: 0 <= i < j < |answers| ==> answers[i].field != answers[j].field
  }

  function KeysOf(answers: seq<Answer>): set<nat> {
    set i | 0 <= i < |answers| :: answers[i].key
  }

  /** The rows `lock_for_claim` returns: this form's, and named by one of the answers. */
  function Recorded(ledger: map<nat, Row>, form: nat, keys: set<nat>): map<nat, Row> {
    map id | id in ledger && ledger[id].form == form && ledger[id].file.key in keys :: ledger[id]
  }

  predicate Claimable(row: Row, form: nat, answer: Answer) {
    row.form == form && row.file.key == answer.key && row.field == answer.field && row.submission.None?
  }

  /** Every answer names an unclaimed upload this form received for that very field. */
  predicate AllClaimable(ledger: map<nat, Row>, form: nat, answers: seq<Answer>) {
    forall i :: 0 <= i < |answers| ==> HasClaimable(ledger, form, answers[i])
  }

  predicate HasClaimable(ledger: map<nat, Row>, form: nat, answer: Answer) {
    exists id :: id in ledger && Claimable(ledger[id], form, answer)
  }

  predicate FilesMatch(files: map<string, File>, ledger: map<nat, Row>, form: nat, answers: seq<Answer>) {
    && files.Keys == (set i | 0 <= i < |answers| :: answers[i].field)
    && forall id, i :: id in ledger && 0 <= i < |answers| && Claimable(ledger[id], form, answers[i])
                       ==> files[answers[i].field] == ledger[id].file
  }

  function Claimed(ledger: map<nat, Row>, submission: nat, keys: set<nat>): map<nat, Row> {
    map id | id in ledger ::
      if ledger[id].file.key in keys && ledger[id].submission.None?
      then ledger[id].(submission := Some(submission)) else ledger[id]
  }

  function HandedBack(ledger: map<nat, Row>, submissions: set<nat>): map<nat, Row> {
    map id | id in ledger ::
      if ledger[id].submission.Some? && ledger[id].submission.value in submissions
      then ledger[id].(submission := None) else ledger[id]
  }

  // ---------- The reaper ----------

  predicate Expired(s: State, cutoff: int, id: nat) {
    id in s.ledger && s.ledger[id].submission.None? && s.ledger[id].createdAt < cutoff
  }

  function ExpiredKeys(s: State, cutoff: int): set<Key> {
    set id | id in s.ledger && Expired(s, cutoff, id) :: Key(s.ledger[id].createdAt, id)
  }

  function ListingOf(ledger: map<nat, Row>, page: seq<Key>): (list: seq<Listed>)
    ensures |list| == |page|
    ensures forall i :: 0 <= i < |list| ==>
              && list[i].id == page[i].id
              && (page[i].id in ledger ==> list[i].key == ledger[page[i].id].file.key)
  {
    if page == [] then
      []
    else
      [Listed(page[0].id, if page[0].id in ledger then ledger[page[0].id].file.key else 0)]
      + ListingOf(ledger, page[1..])
  }

  function Abandoned(s: State, cutoff: int, limit: nat): seq<Listed> {
    ListingOf(s.ledger, FirstN(ExpiredKeys(s, cutoff), limit))
  }

  // ---------- The machine ----------

  datatype Change =
    | CreateForm(form: nat)
    | DeleteForm(form: nat)
    | Finish(upload: nat, form: nat, field: string, file: File)
    | Record(upload: nat, id: nat)
    | RecordFails(upload: nat)
    | Cleanup(upload: nat, succeeds: bool)
    | Die(upload: nat)
    | Submit(id: nat, form: nat, answers: seq<Answer>, files: map<string, File>)
    | DeleteSubmission(id: nat)

  datatype Action =
    | List(ttl: nat, limit: nat)
    | Delete(succeeds: bool)
    | Forget
    | Stop

  datatype Step = Tick(seconds: nat) | Request(change: Change) | Reap(reaper: nat, action: Action)

  function AfterDeleteForm(s: State, form: nat): State {
    var rows := set id | id in s.ledger && s.ledger[id].form == form;
    var gone := set x | x in s.submissions && s.submissions[x].form == form;
    s.(forms := s.forms - {form},
       ledger := HandedBack(s.ledger - rows, gone),
       submissions := s.submissions - gone,
       lost := s.lost + set id | id in rows && id in s.ledger :: s.ledger[id].file.key)
  }

  /** The insert fails on a vanished form and on an empty file, which a check constraint refuses. */
  predicate Insertable(s: State, upload: Upload) {
    upload.Stored? && upload.form in s.forms && upload.file.size > 0
  }

  function AfterRecord(s: State, u: nat, id: nat): State
    requires u in s.uploads && s.uploads[u].Stored?
  {
    var upload := s.uploads[u];
    if Insertable(s, upload) then
      s.(ledger := s.ledger[id := Row(upload.form, upload.field, upload.file, None, s.now)],
         uploads := s.uploads - {u},
         minted := s.minted + {id},
         places := s.places[upload.file.key := AtRow(id)])
    else
      s.(uploads := s.uploads[u := Unrecorded(upload.file)])
  }

  function AfterCleanup(s: State, u: nat, succeeds: bool): State
    requires u in s.uploads
  {
    var key := s.uploads[u].file.key;
    if succeeds then s.(bucket := s.bucket - {key}, uploads := s.uploads - {u})
    else s.(lost := s.lost + {key}, uploads := s.uploads - {u})
  }

  /** The claiming transaction: all of it, or nothing when a reference does not check out. */
  function AfterSubmit(s: State, id: nat, form: nat, answers: seq<Answer>, files: map<string, File>): State {
    if AllClaimable(s.ledger, form, answers) && FilesMatch(files, s.ledger, form, answers)
    then s.(submissions := s.submissions[id := Submission(form, files)],
            ledger := Claimed(s.ledger, id, KeysOf(answers)),
            minted := s.minted + {id})
    else s
  }

  /** The object first, then the row: a failed delete leaves the row for the next pass. */
  function AfterDelete(s: State, r: nat, succeeds: bool): State
    requires r in s.reapers && s.reapers[r].left != [] && !s.reapers[r].deleted
  {
    var left := s.reapers[r].left;
    if succeeds
    then s.(bucket := s.bucket - {left[0].key}, reapers := s.reapers[r := Pass(left, true)])
    else s.(reapers := s.reapers[r := Pass(left[1..], false)])
  }

  function AfterForget(s: State, r: nat): State
    requires r in s.reapers && s.reapers[r].left != []
  {
    var left := s.reapers[r].left;
    s.(ledger := s.ledger - {left[0].id}, reapers := s.reapers[r := Pass(left[1..], false)])
  }

  predicate CanDelete(s: State, r: nat) {
    r in s.reapers && s.reapers[r].left != [] && !s.reapers[r].deleted
  }

  predicate CanForget(s: State, r: nat) {
    r in s.reapers && s.reapers[r].left != [] && s.reapers[r].deleted
  }

  function AfterFinish(s: State, u: nat, form: nat, field: string, file: File): State {
    s.(bucket := s.bucket + {file.key}, uploads := s.uploads[u := Stored(form, field, file)],
       minted := s.minted + {u, file.key}, places := s.places[file.key := AtUpload(u)])
  }

  function AfterDeleteSubmission(s: State, id: nat): State {
    s.(submissions := s.submissions - {id}, ledger := HandedBack(s.ledger, {id}))
  }

  /** A change that is not possible in a state leaves it alone. */
  function Changed(s: State, change: Change): State {
    match change
    case CreateForm(form) => if form in s.minted then s else s.(forms := s.forms + {form}, minted := s.minted + {form})
    case DeleteForm(form) => AfterDeleteForm(s, form)
    case Finish(u, form, field, file) =>
      if u in s.minted || file.key in s.minted || u == file.key then s else AfterFinish(s, u, form, field, file)
    case Record(u, id) =>
      if u in s.uploads && s.uploads[u].Stored? && id !in s.minted then AfterRecord(s, u, id) else s
    case RecordFails(u) =>
      if u in s.uploads then s.(uploads := s.uploads[u := Unrecorded(s.uploads[u].file)]) else s
    case Cleanup(u, succeeds) =>
      if u in s.uploads && s.uploads[u].Unrecorded? then AfterCleanup(s, u, succeeds) else s
    case Die(u) => if u in s.uploads then AfterCleanup(s, u, false) else s
    case Submit(id, form, answers, files) =>
      if id in s.minted || form !in s.forms || !DistinctFields(answers) then s
      else AfterSubmit(s, id, form, answers, files)
    case DeleteSubmission(id) => AfterDeleteSubmission(s, id)
  }

  function Acted(s: State, r: nat, action: Action): State {
    match action
    case List(ttl, limit) =>
      if r in s.reapers then s else s.(reapers := s.reapers[r := Pass(Abandoned(s, s.now - ttl, limit), false)])
    case Delete(succeeds) => if CanDelete(s, r) then AfterDelete(s, r, succeeds) else s
    case Forget => if CanForget(s, r) then AfterForget(s, r) else s
    case Stop => s.(reapers := s.reapers - {r})
  }

  function Apply(s: State, step: Step): State {
    match step
    case Tick(seconds) => s.(now := s.now + seconds)
    case Request(change) => Changed(s, change)
    case Reap(r, action) => Acted(s, r, action)
  }

  function Run(s: State, steps: seq<Step>): State
    decreases |steps|
  {
    if steps == [] then s else Run(Apply(s, steps[0]), steps[1..])
  }

  lemma {:induction false} RunAppend(s: State, a: seq<Step>, b: seq<Step>)
    ensures Run(s, a + b) == Run(Run(s, a), b)
    decreases |a|
  {
    if a == [] {
      assert a + b == b;
    } else {
      assert (a + b)[1..] == a[1..] + b;
      RunAppend(Apply(s, a[0]), a[1..], b);
    }
  }

  lemma RunNone(s: State)
    ensures Run(s, []) == s
  {
  }

  lemma RunOne(s: State, step: Step)
    ensures Run(s, [step]) == Apply(s, step)
  {
  }

  // ---------- No leaked objects ----------

  ghost predicate HasRow(s: State, key: nat) {
    exists id :: id in s.ledger && s.ledger[id].file.key == key
  }

  ghost predicate InFlight(s: State, key: nat) {
    exists u :: u in s.uploads && s.uploads[u].file.key == key
  }

  /** The place on record really holds the object. */
  predicate Tracked(s: State, key: nat) {
    key in s.places &&
    match s.places[key]
    case AtRow(id) => id in s.ledger && s.ledger[id].file.key == key
    case AtUpload(u) => u in s.uploads && s.uploads[u].file.key == key
  }

  ghost predicate NoLeak(s: State) {
    forall key :: key in s.bucket ==> key in s.lost || Tracked(s, key)
  }

  /** Primary, unique and foreign keys: an object key is in at most one row or upload. */
  ghost predicate Keyed(s: State) {
    && s.forms <= s.minted && s.bucket <= s.minted
    && (forall id :: id in s.ledger ==> id in s.minted)
    && (forall x :: x in s.submissions ==> x in s.minted)
    && (forall u :: u in s.uploads ==> u in s.minted)
    && (forall key :: key in s.places ==> key in s.minted && (s.places[key].AtRow? ==> s.places[key].id in s.minted))
    && (forall id :: id in s.ledger ==>
          s.ledger[id].file.key in s.places && s.places[s.ledger[id].file.key] == AtRow(id))
    && (forall u :: u in s.uploads ==>
          s.uploads[u].file.key in s.places && s.places[s.uploads[u].file.key] == AtUpload(u))
  }

  ghost predicate Referenced(s: State) {
    forall id :: id in s.ledger ==>
      && s.ledger[id].form in s.forms
      && (s.ledger[id].submission.Some? ==> s.ledger[id].submission.value in s.submissions)
  }

  /** A listed row is the one that was listed, while it exists; ids and keys are never reused. */
  ghost predicate Names(s: State, item: Listed) {
    && item.id in s.minted && item.key in s.minted
    && item.key in s.places && s.places[item.key] == AtRow(item.id)
    && (item.id in s.ledger ==> s.ledger[item.id].file.key == item.key)
  }

  ghost predicate PassOk(s: State, pass: Pass) {
    && (forall i :: 0 <= i < |pass.left| ==> Names(s, pass.left[i]))
    && (pass.deleted && pass.left != [] ==> pass.left[0].key !in s.bucket)
  }

  ghost predicate Reapers(s: State) {
    forall r :: r in s.reapers ==> PassOk(s, s.reapers[r])
  }

  ghost predicate Inv(s: State) {
    Keyed(s) && Referenced(s) && Reapers(s) && NoLeak(s)
  }

  lemma AbandonedAreExpired(s: State, cutoff: int, limit: nat)
    ensures var list := Abandoned(s, cutoff, limit);
            && |list| <= limit
            && (forall i :: 0 <= i < |list| ==>
                  Expired(s, cutoff, list[i].id) && list[i].key == s.ledger[list[i].id].file.key)
  {
  }

  lemma RecordKeepsKeyed(s: State, u: nat, id: nat)
    requires Keyed(s)
    ensures Keyed(Changed(s, Record(u, id)))
  {
  }

  lemma SubmitKeepsKeyed(s: State, change: Change)
    requires Keyed(s) && (change.Submit? || change.DeleteSubmission? || change.DeleteForm?)
    ensures Keyed(Changed(s, change))
  {
  }

  lemma FinishKeepsKeyed(s: State, change: Change)
    requires Keyed(s) && (change.Finish? || change.RecordFails?)
    ensures Keyed(Changed(s, change))
  {
  }

  lemma CleanupKeepsKeyed(s: State, change: Change)
    requires Keyed(s) && (change.Cleanup? || change.Die? || change.CreateForm?)
    ensures Keyed(Changed(s, change))
  {
    hide AfterDeleteForm, AfterRecord, AfterSubmit, AfterFinish;
  }

  lemma ReapKeepsKeyed(s: State, r: nat, action: Action)
    requires Keyed(s)
    ensures Keyed(Acted(s, r, action))
  {
  }

  lemma ChangeKeepsKeyed(s: State, change: Change)
    requires Keyed(s)
    ensures Keyed(Changed(s, change))
  {
    if change.Record? {
      RecordKeepsKeyed(s, change.upload, change.id);
    } else if change.Submit? || change.DeleteSubmission? || change.DeleteForm? {
      SubmitKeepsKeyed(s, change);
    } else if change.Finish? || change.RecordFails? {
      FinishKeepsKeyed(s, change);
    } else {
      CleanupKeepsKeyed(s, change);
    }
  }

  lemma StepKeepsKeyed(s: State, step: Step)
    requires Keyed(s)
    ensures Keyed(Apply(s, step))
  {
    match step
    case Request(change) => ChangeKeepsKeyed(s, change);
    case Reap(r, action) => ReapKeepsKeyed(s, r, action);
    case Tick(_) =>
  }

  lemma ChangeKeepsReferenced(s: State, change: Change)
    requires Keyed(s) && Referenced(s)
    ensures Referenced(Changed(s, change))
  {
  }

  lemma StepKeepsReferenced(s: State, step: Step)
    requires Keyed(s) && Referenced(s)
    ensures Referenced(Apply(s, step))
  {
    if step.Request? { ChangeKeepsReferenced(s, step.change); }
  }

  /** Rows keep their file for as long as they exist; new rows and new objects have new ids. */
  ghost predicate Carries(s: State, s': State) {
    && s.minted <= s'.minted
    && (forall id :: id in s'.ledger && id in s.minted ==> id in s.ledger && s'.ledger[id].file == s.ledger[id].file)
    && (forall key :: key in s'.bucket && key in s.minted ==> key in s.bucket)
    && (forall key :: key in s.places && s.places[key].AtRow? ==> key in s'.places && s'.places[key] == s.places[key])
  }

  lemma FinishCarries(s: State, change: Change)
    requires Keyed(s) && change.Finish?
    ensures Carries(s, Changed(s, change)) && Changed(s, change).reapers == s.reapers
  {
    hide AfterDeleteForm, AfterSubmit, AfterRecord;
  }

  lemma RecordCarries(s: State, change: Change)
    requires Keyed(s) && change.Record?
    ensures Carries(s, Changed(s, change)) && Changed(s, change).reapers == s.reapers
  {
    hide AfterDeleteForm, AfterSubmit, AfterFinish;
  }

  lemma CleanupCarries(s: State, change: Change)
    requires Keyed(s) && (change.RecordFails? || change.Cleanup? || change.Die? || change.CreateForm?)
    ensures Carries(s, Changed(s, change)) && Changed(s, change).reapers == s.reapers
  {
    hide AfterDeleteForm, AfterRecord, AfterSubmit, AfterFinish;
  }

  lemma SubmitCarries(s: State, change: Change)
    requires Keyed(s) && change.Submit?
    ensures Carries(s, Changed(s, change)) && Changed(s, change).reapers == s.reapers
  {
    hide AllClaimable, FilesMatch;
  }

  lemma DeleteSubmissionCarries(s: State, id: nat)
    requires Keyed(s)
    ensures Carries(s, AfterDeleteSubmission(s, id)) && AfterDeleteSubmission(s, id).reapers == s.reapers
  {
  }

  lemma DeleteFormCarries(s: State, form: nat)
    requires Keyed(s)
    ensures Carries(s, AfterDeleteForm(s, form)) && AfterDeleteForm(s, form).reapers == s.reapers
  {
  }

  lemma ChangeCarries(s: State, change: Change)
    requires Keyed(s)
    ensures Carries(s, Changed(s, change)) && Changed(s, change).reapers == s.reapers
  {
    if change.DeleteForm? {
      DeleteFormCarries(s, change.form);
    } else if change.Submit? {
      SubmitCarries(s, change);
    } else if change.DeleteSubmission? {
      DeleteSubmissionCarries(s, change.id);
    } else if change.Record? {
      RecordCarries(s, change);
    } else if change.Finish? {
      FinishCarries(s, change);
    } else {
      CleanupCarries(s, change);
    }
  }

  lemma ActionCarries(s: State, r: nat, action: Action)
    requires Keyed(s)
    ensures Carries(s, Acted(s, r, action))
  {
  }

  lemma CarriesPass(s: State, s': State, pass: Pass)
    requires Carries(s, s') && PassOk(s, pass)
    ensures PassOk(s', pass)
  {
  }

  lemma ListedPassOk(s: State, r: nat, ttl: nat, limit: nat)
    requires Keyed(s) && r !in s.reapers
    ensures var s' := Acted(s, r, List(ttl, limit)); PassOk(s', s'.reapers[r])
  {
  }

  lemma OwnPassOk(s: State, r: nat, action: Action)
    requires Keyed(s) && Reapers(s) && r in Acted(s, r, action).reapers
    ensures PassOk(Acted(s, r, action), Acted(s, r, action).reapers[r])
  {
    ActionCarries(s, r, action);
    if r in s.reapers {
      CarriesPass(s, Acted(s, r, action), s.reapers[r]);
    } else {
      ListedPassOk(s, r, action.ttl, action.limit);
    }
  }

  lemma StepKeepsReapers(s: State, step: Step)
    requires Keyed(s) && Reapers(s)
    ensures Reapers(Apply(s, step))
  {
    var s' := Apply(s, step);
    if step.Request? { ChangeCarries(s, step.change); }
    if step.Reap? { ActionCarries(s, step.reaper, step.action); }
    forall r | r in s'.reapers ensures PassOk(s', s'.reapers[r]) {
      if step.Reap? && step.reaper == r {
        OwnPassOk(s, r, step.action);
      } else {
        if step.Reap? { OtherPassStands(s, step.reaper, step.action, r); }
        CarriesPass(s, s', s.reapers[r]);
      }
    }
  }

  lemma OtherPassStands(s: State, r: nat, action: Action, other: nat)
    requires other != r && other in Acted(s, r, action).reapers
    ensures other in s.reapers && Acted(s, r, action).reapers[other] == s.reapers[other]
  {
  }

  lemma FinishKeepsNoLeak(s: State, change: Change)
    requires Keyed(s) && NoLeak(s) && (change.Finish? || change.RecordFails?)
    ensures NoLeak(Changed(s, change))
  {
  }

  lemma RecordKeepsNoLeak(s: State, change: Change)
    requires Keyed(s) && NoLeak(s) && change.Record?
    ensures NoLeak(Changed(s, change))
  {
    hide AfterDeleteForm, AfterSubmit, AfterFinish;
    var s' := Changed(s, change);
    forall key | key in s'.bucket ensures key in s'.lost || Tracked(s', key) {
      assert key in s.lost || Tracked(s, key);
    }
  }

  lemma CleanupKeepsNoLeak(s: State, change: Change)
    requires Keyed(s) && NoLeak(s)
    requires change.Cleanup? || change.Die? || change.CreateForm?
    ensures NoLeak(Changed(s, change))
  {
    hide AfterDeleteForm, AfterRecord, AfterSubmit;
    var s' := Changed(s, change);
    forall key | key in s'.bucket ensures key in s'.lost || Tracked(s', key) {
      assert key in s.lost || Tracked(s, key);
    }
  }

  lemma UploadKeepsNoLeak(s: State, change: Change)
    requires Keyed(s) && NoLeak(s)
    requires !change.Submit? && !change.DeleteSubmission? && !change.DeleteForm?
    ensures NoLeak(Changed(s, change))
  {
    if change.Record? {
      RecordKeepsNoLeak(s, change);
    } else if change.Finish? || change.RecordFails? {
      FinishKeepsNoLeak(s, change);
    } else {
      CleanupKeepsNoLeak(s, change);
    }
  }

  lemma SubmitKeepsNoLeak(s: State, change: Change)
    requires Keyed(s) && NoLeak(s)
    requires change.Submit? || change.DeleteSubmission? || change.DeleteForm?
    ensures NoLeak(Changed(s, change))
  {
  }

  /** Forgetting is safe because the object went first. */
  lemma ReapKeepsNoLeak(s: State, r: nat, action: Action)
    requires Keyed(s) && NoLeak(s) && Reapers(s)
    ensures NoLeak(Acted(s, r, action))
  {
    hide Abandoned;
    var s' := Acted(s, r, action);
    if action.Forget? && CanForget(s, r) {
      assert PassOk(s, s.reapers[r]) && Names(s, s.reapers[r].left[0]);
    }
    forall key | key in s'.bucket ensures key in s'.lost || Tracked(s', key) {
      assert key in s.lost || Tracked(s, key);
    }
  }

  lemma StepKeepsInv(s: State, step: Step)
    requires Inv(s)
    ensures Inv(Apply(s, step))
  {
    StepKeepsKeyed(s, step);
    StepKeepsReferenced(s, step);
    StepKeepsReapers(s, step);
    match step
    case Request(change) =>
      if change.Submit? || change.DeleteSubmission? || change.DeleteForm? {
        SubmitKeepsNoLeak(s, change);
      } else {
        UploadKeepsNoLeak(s, change);
      }
    case Reap(r, action) => ReapKeepsNoLeak(s, r, action);
    case Tick(_) =>
      assert forall key :: Tracked(s, key) ==> Tracked(Apply(s, step), key);
  }

  lemma {:induction false} RunKeepsInv(s: State, steps: seq<Step>)
    requires Inv(s)
    ensures Inv(Run(s, steps))
    decreases |steps|
  {
    if steps != [] {
      StepKeepsInv(s, steps[0]);
      RunKeepsInv(Apply(s, steps[0]), steps[1..]);
    }
  }

  /**
   No leaked objects: over every interleaving, with reapers stopping anywhere, an object in the
   bucket has a ledger row, or an upload still between writing it and recording it or cleaning up,
   or is one the service knowingly gave up on.
   */
  lemma NoObjectLeaks(steps: seq<Step>, key: nat)
    requires key in Run(Init(), steps).bucket
    ensures var s := Run(Init(), steps); HasRow(s, key) || InFlight(s, key) || key in s.lost
  {
    RunKeepsInv(Init(), steps);
    assert Tracked(Run(Init(), steps), key) || key in Run(Init(), steps).lost;
  }

  lemma DeletedFormLoses(s: State, form: nat, key: nat)
    requires key in AfterDeleteForm(s, form).lost && key !in s.lost
    ensures exists id :: id in s.ledger && s.ledger[id].form == form && s.ledger[id].file.key == key
  {
  }

  lemma SafeChangesLoseNothing(s: State, change: Change)
    requires !change.Cleanup? && !change.Die? && !change.DeleteForm?
    ensures Changed(s, change).lost == s.lost
  {
  }

  lemma ReapLosesNothing(s: State, r: nat, action: Action)
    ensures Acted(s, r, action).lost == s.lost
  {
  }

  /** What can be given up on: a failed cleanup, a dead request, a row a form deletion cascaded to. */
  lemma LostOnlyKnowingly(s: State, step: Step, key: nat)
    requires key in Apply(s, step).lost && key !in s.lost
    ensures step.Request?
    ensures var change := step.change;
            || (change.Cleanup? && !change.succeeds && change.upload in s.uploads
                && s.uploads[change.upload].file.key == key)
            || (change.Die? && change.upload in s.uploads && s.uploads[change.upload].file.key == key)
            || (change.DeleteForm?
                && exists id :: id in s.ledger && s.ledger[id].form == change.form && s.ledger[id].file.key == key)
  {
    hide Acted, AfterDeleteForm, AfterRecord, AfterSubmit, AfterFinish, AfterDeleteSubmission;
    match step
    case Reap(r, action) => ReapLosesNothing(s, r, action);
    case Request(change) =>
      if change.DeleteForm? {
        DeletedFormLoses(s, change.form, key);
      } else if !change.Cleanup? && !change.Die? {
        SafeChangesLoseNothing(s, change);
      }
    case Tick(_) =>
  }

  /** A step after which nothing is given up on. */
  predicate Careful(step: Step) {
    step.Request? ==>
      !step.change.DeleteForm? && !step.change.Die? && (step.change.Cleanup? ==> step.change.succeeds)
  }

  lemma {:induction false} CarefulRunsLoseNothing(s: State, steps: seq<Step>)
    requires s.lost == {} && forall i :: 0 <= i < |steps| ==> Careful(steps[i])
    ensures Run(s, steps).lost == {}
    decreases |steps|
  {
    hide Apply;
    if steps != [] {
      var lost := Apply(s, steps[0]).lost;
      if key :| key in lost { LostOnlyKnowingly(s, steps[0], key); }
      CarefulRunsLoseNothing(Apply(s, steps[0]), steps[1..]);
    }
  }

  /**
   With no form deletion, no request dying mid-way and every cleanup succeeding, an object in the
   bucket has a ledger row or belongs to an upload still between writing it and recording it.
   */
  lemma NothingLeaksWhenCleanupsSucceed(steps: seq<Step>, key: nat)
    requires forall i :: 0 <= i < |steps| ==> Careful(steps[i])
    requires key in Run(Init(), steps).bucket
    ensures var s := Run(Init(), steps); HasRow(s, key) || InFlight(s, key)
  {
    NoObjectLeaks(steps, key);
    CarefulRunsLoseNothing(Init(), steps);
  }
}
