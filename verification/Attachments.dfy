/**
 Which submission holds which upload. Exclusivity holds in every run; whether every attachment is
 still whole is decided, step by step, by an exact condition.
 */
module Attachments {
  import opened Common
  import opened Uploads

  /** A ledger row agrees with the `files` entry of the submission that claimed it. */
  predicate Agrees(row: Row, x: nat, sub: Submission, field: string) {
    row.submission == Some(x) && row.form == sub.form && row.field == field
    && field in sub.files && row.file == sub.files[field]
  }

  /** A `files` entry names an object that was recorded; its row, while it exists, agrees. */
  predicate EntryLinked(s: State, x: nat, field: string)
    requires x in s.submissions && field in s.submissions[x].files
  {
    var key := s.submissions[x].files[field].key;
    && key in s.places && s.places[key].AtRow?
    && (s.places[key].id in s.ledger ==> Agrees(s.ledger[s.places[key].id], x, s.submissions[x], field))
  }

  ghost predicate Linked(s: State) {
    forall x, field :: x in s.submissions && field in s.submissions[x].files ==> EntryLinked(s, x, field)
  }

  ghost predicate ClaimsListed(s: State) {
    forall id :: id in s.ledger && s.ledger[id].submission.Some? ==>
                   && s.ledger[id].submission.value in s.submissions
                   && Agrees(s.ledger[id], s.ledger[id].submission.value,
                             s.submissions[s.ledger[id].submission.value], s.ledger[id].field)
  }

  /** No two live submissions, and no two fields of one, name the same object. */
  ghost predicate Exclusive(s: State) {
    forall x, y, f, g ::
      (&& x in s.submissions && f in s.submissions[x].files
       && y in s.submissions && g in s.submissions[y].files
       && s.submissions[x].files[f].key == s.submissions[y].files[g].key) ==> x == y && f == g
  }

  ghost predicate Holds(s: State) {
    Inv(s) && Linked(s) && ClaimsListed(s) && Exclusive(s)
  }

  // ---------- The claiming transaction ----------

  /** What an accepted submission's entries are: one per answer, each a row it may claim. */
  lemma AcceptedEntry(s: State, form: nat, answers: seq<Answer>, files: map<string, File>,
      field: string) returns (id: nat)
    requires Keyed(s) && DistinctFields(answers) && field in files
    requires AllClaimable(s.ledger, form, answers) && FilesMatch(files, s.ledger, form, answers)
    ensures id in s.ledger && s.ledger[id].form == form && s.ledger[id].field == field && s.ledger[id].submission.None?
    ensures s.ledger[id].file == files[field] && s.ledger[id].file.key in KeysOf(answers)
    ensures s.places[files[field].key] == AtRow(id)
  {
    var i :| 0 <= i < |answers| && answers[i].field == field;
    assert HasClaimable(s.ledger, form, answers[i]);
    id :| id in s.ledger && Claimable(s.ledger[id], form, answers[i]);
  }

  lemma SubmitKeepsLinked(s: State, x: nat, form: nat, answers: seq<Answer>, files: map<string, File>)
    requires Holds(s) && x !in s.minted && form in s.forms && DistinctFields(answers)
    requires AllClaimable(s.ledger, form, answers) && FilesMatch(files, s.ledger, form, answers)
    ensures Linked(AfterSubmit(s, x, form, answers, files))
  {
    var s' := AfterSubmit(s, x, form, answers, files);
    forall y, field | y in s'.submissions && field in s'.submissions[y].files ensures EntryLinked(s', y, field) {
      if y == x {
        var id := AcceptedEntry(s, form, answers, files, field);
      } else {
        assert EntryLinked(s, y, field);
      }
    }
  }

  /** The rows a submission claims are exactly the ones its answers were checked against. */
  lemma SubmitKeepsClaimsListed(s: State, x: nat, form: nat, answers: seq<Answer>, files: map<string, File>)
    requires Holds(s) && x !in s.minted && form in s.forms && DistinctFields(answers)
    requires AllClaimable(s.ledger, form, answers) && FilesMatch(files, s.ledger, form, answers)
    ensures ClaimsListed(AfterSubmit(s, x, form, answers, files))
  {
  }

  lemma SubmitKeepsExclusive(s: State, x: nat, form: nat, answers: seq<Answer>, files: map<string, File>)
    requires Holds(s) && x !in s.minted && form in s.forms && DistinctFields(answers)
    requires AllClaimable(s.ledger, form, answers) && FilesMatch(files, s.ledger, form, answers)
    ensures Exclusive(AfterSubmit(s, x, form, answers, files))
  {
    var s' := AfterSubmit(s, x, form, answers, files);
    forall y, z, f, g | y in s'.submissions && f in s'.submissions[y].files
                        && z in s'.submissions && g in s'.submissions[z].files
                        && s'.submissions[y].files[f].key == s'.submissions[z].files[g].key
      ensures y == z && f == g
    {
      if y == x { var id := AcceptedEntry(s, form, answers, files, f); }
      if z == x { var id := AcceptedEntry(s, form, answers, files, g); }
      if y != x { assert EntryLinked(s, y, f); }
      if z != x { assert EntryLinked(s, z, g); }
    }
  }

  lemma SubmitKeepsClaims(s: State, x: nat, form: nat, answers: seq<Answer>, files: map<string, File>)
    requires Holds(s)
    ensures var s' := Changed(s, Submit(x, form, answers, files)); Linked(s') && ClaimsListed(s') && Exclusive(s')
  {
    if x !in s.minted && form in s.forms && DistinctFields(answers)
       && AllClaimable(s.ledger, form, answers) && FilesMatch(files, s.ledger, form, answers)
    {
      SubmitKeepsLinked(s, x, form, answers, files);
      SubmitKeepsClaimsListed(s, x, form, answers, files);
      SubmitKeepsExclusive(s, x, form, answers, files);
    }
  }

  // ---------- Every other step ----------

  /** Submissions can only go, rows can only go or be added, and places move only for new objects. */
  ghost predicate Thins(s: State, s': State) {
    && (forall x :: x in s'.submissions ==> x in s.submissions && s'.submissions[x] == s.submissions[x])
    && (forall key :: key in s.places && s.places[key].AtRow? ==> key in s'.places && s'.places[key] == s.places[key])
    && (forall id :: id in s'.ledger && id in s.minted ==>
          (id in s.ledger
           && (s'.ledger[id] == s.ledger[id]
               || (s'.ledger[id] == s.ledger[id].(submission := None)
                   && s.ledger[id].submission.Some? && s.ledger[id].submission.value !in s'.submissions))))
    && (forall id :: id in s'.ledger && id !in s.minted ==> s'.ledger[id].submission.None?)
    && (forall id :: id in s'.ledger && s'.ledger[id].submission.Some? ==>
                       s'.ledger[id].submission.value in s'.submissions)
  }

  lemma ThinsKeepsClaims(s: State, s': State)
    requires Holds(s) && Thins(s, s')
    ensures Linked(s') && ClaimsListed(s') && Exclusive(s')
  {
  }

  lemma SameThins(s: State)
    requires Inv(s)
    ensures Thins(s, s)
  {
  }

  lemma NotRecordedThins(s: State, u: nat, id: nat)
    requires Inv(s) && u in s.uploads && s.uploads[u].Stored? && id !in s.minted && !Insertable(s, s.uploads[u])
    ensures Thins(s, AfterRecord(s, u, id))
  {
    SameThins(s);
  }

  lemma RecordedThins(s: State, u: nat, id: nat)
    requires Inv(s) && u in s.uploads && s.uploads[u].Stored? && id !in s.minted && Insertable(s, s.uploads[u])
    ensures Thins(s, AfterRecord(s, u, id))
  {
  }

  lemma RecordThins(s: State, u: nat, id: nat)
    requires Inv(s)
    ensures Thins(s, Changed(s, Record(u, id)))
  {
    hide AfterRecord, Inv, Thins, Insertable;
    if u in s.uploads && s.uploads[u].Stored? && id !in s.minted {
      if Insertable(s, s.uploads[u]) { RecordedThins(s, u, id); } else { NotRecordedThins(s, u, id); }
    } else {
      SameThins(s);
    }
  }

  lemma FinishThins(s: State, change: Change)
    requires Inv(s) && (change.Finish? || change.RecordFails?)
    ensures Thins(s, Changed(s, change))
  {
    hide AfterDeleteForm, AfterSubmit, AfterCleanup, AfterRecord;
  }

  lemma CleanupThins(s: State, change: Change)
    requires Inv(s) && (change.Cleanup? || change.Die? || change.CreateForm?)
    ensures Thins(s, Changed(s, change))
  {
    hide AfterDeleteForm, AfterSubmit, AfterFinish, AfterRecord;
  }

  lemma DeleteSubmissionThins(s: State, id: nat)
    requires Inv(s)
    ensures Thins(s, AfterDeleteSubmission(s, id))
  {
  }

  lemma DeleteFormThins(s: State, form: nat)
    requires Holds(s)
    ensures Thins(s, AfterDeleteForm(s, form))
  {
  }

  lemma ReapThins(s: State, r: nat, action: Action)
    requires Inv(s)
    ensures Thins(s, Acted(s, r, action))
  {
    hide Abandoned;
  }

  lemma StepKeepsHolds(s: State, step: Step)
    requires Holds(s)
    ensures Holds(Apply(s, step))
  {
    StepKeepsInv(s, step);
    match step
    case Tick(_) => ThinsKeepsClaims(s, Apply(s, step));
    case Reap(r, action) =>
      ReapThins(s, r, action);
      ThinsKeepsClaims(s, Apply(s, step));
    case Request(change) =>
      if change.Submit? {
        SubmitKeepsClaims(s, change.id, change.form, change.answers, change.files);
      } else {
        ChangeThins(s, change);
        ThinsKeepsClaims(s, Apply(s, step));
      }
  }

  lemma ChangeThins(s: State, change: Change)
    requires Holds(s) && !change.Submit?
    ensures Thins(s, Changed(s, change))
  {
    match change
    case Record(u, id) => RecordThins(s, u, id);
    case DeleteSubmission(id) => DeleteSubmissionThins(s, id);
    case DeleteForm(form) => DeleteFormThins(s, form);
    case Finish(_, _, _, _) => FinishThins(s, change);
    case RecordFails(_) => FinishThins(s, change);
    case _ => CleanupThins(s, change);
  }

  lemma {:induction false} RunKeepsHolds(s: State, steps: seq<Step>)
    requires Holds(s)
    ensures Holds(Run(s, steps))
    decreases |steps|
  {
    if steps != [] {
      StepKeepsHolds(s, steps[0]);
      RunKeepsHolds(Apply(s, steps[0]), steps[1..]);
    }
  }

  /** In every run, whatever reapers do: no object is attached twice. */
  lemma AttachmentsAreExclusive(steps: seq<Step>, x: nat, f: string, y: nat, g: string)
    requires var s := Run(Init(), steps);
             && x in s.submissions && f in s.submissions[x].files && y in s.submissions && g in s.submissions[y].files
             && s.submissions[x].files[f].key == s.submissions[y].files[g].key
    ensures x == y && f == g
  {
    RunKeepsHolds(Init(), steps);
  }

  // ---------- Whole attachments ----------

  /** An attachment is whole while its row, which then agrees with it, and its object both exist. */
  ghost predicate Whole(s: State) {
    forall x, field :: x in s.submissions && field in s.submissions[x].files ==> WholeEntry(s, x, field)
  }

  ghost predicate WholeEntry(s: State, x: nat, field: string)
    requires x in s.submissions && field in s.submissions[x].files
  {
    && s.submissions[x].files[field].key in s.bucket
    && exists id :: id in s.ledger && Agrees(s.ledger[id], x, s.submissions[x], field)
  }

  predicate HeadIsClaimed(s: State, r: nat) {
    r in s.reapers && s.reapers[r].left != []
    && s.reapers[r].left[0].id in s.ledger && s.ledger[s.reapers[r].left[0].id].submission.Some?
  }

  /**
   What breaks an attachment: a reaper going ahead with a row that has been claimed since it was
   listed, or a submission claiming a row whose object a stopped reaper had already removed.
   */
  predicate Severs(s: State, step: Step) {
    match step
    case Tick(_) => false
    case Reap(r, action) =>
      action.Delete? && action.succeeds && CanDelete(s, r) && HeadIsClaimed(s, r)
    case Request(change) =>
      && change.Submit?
      && change.id !in s.minted && change.form in s.forms && DistinctFields(change.answers)
      && AllClaimable(s.ledger, change.form, change.answers)
          && FilesMatch(change.files, s.ledger, change.form, change.answers)
      && exists i :: 0 <= i < |change.answers| && change.answers[i].key !in s.bucket
  }

  lemma SameEntriesStayWhole(s: State, s': State)
    requires Whole(s) && s.bucket <= s'.bucket
    requires forall x :: x in s'.submissions ==> x in s.submissions && s'.submissions[x] == s.submissions[x]
    requires forall id ::
               (&& id in s.ledger && s.ledger[id].submission.Some?
                && s.ledger[id].submission.value in s'.submissions) ==>
                            id in s'.ledger && s'.ledger[id] == s.ledger[id]
    ensures Whole(s')
  {
  }

  /** A key leaving the bucket breaks an attachment exactly when a claimed row holds it. */
  lemma DroppingObject(s: State, s': State, key: nat)
    requires Holds(s) && Whole(s)
    requires s'.submissions == s.submissions && s'.ledger == s.ledger && s'.bucket == s.bucket - {key}
    ensures Whole(s') <==> !exists id :: id in s.ledger && s.ledger[id].file.key == key && s.ledger[id].submission.Some?
  {
    if id :| id in s.ledger && s.ledger[id].file.key == key && s.ledger[id].submission.Some? {
      assert !WholeEntry(s', s.ledger[id].submission.value, s.ledger[id].field);
    } else {
      forall x, field | x in s'.submissions && field in s'.submissions[x].files ensures WholeEntry(s', x, field) {
        assert WholeEntry(s, x, field);
        var id :| id in s.ledger && Agrees(s.ledger[id], x, s.submissions[x], field);
        assert id in s'.ledger && Agrees(s'.ledger[id], x, s'.submissions[x], field);
      }
    }
  }

  lemma DeleteExactly(s: State, r: nat)
    requires Holds(s) && Whole(s) && CanDelete(s, r)
    ensures Whole(AfterDelete(s, r, true)) <==> !HeadIsClaimed(s, r)
  {
    var head := s.reapers[r].left[0];
    assert PassOk(s, s.reapers[r]) && Names(s, head);
    DroppingObject(s, AfterDelete(s, r, true), head.key);
  }

  /** By the time a row is forgotten its object is gone, so a whole attachment cannot hold it. */
  lemma ForgetKeepsWhole(s: State, r: nat)
    requires Holds(s) && Whole(s) && CanForget(s, r)
    ensures Whole(AfterForget(s, r))
  {
    var head := s.reapers[r].left[0];
    assert PassOk(s, s.reapers[r]) && Names(s, head);
    assert HeadIsClaimed(s, r) ==> WholeEntry(s, s.ledger[head.id].submission.value, s.ledger[head.id].field);
    SameEntriesStayWhole(s, AfterForget(s, r));
  }

  lemma SubmitExactly(s: State, x: nat, form: nat, answers: seq<Answer>, files: map<string, File>)
    requires Holds(s) && Whole(s) && x !in s.minted && form in s.forms && DistinctFields(answers)
    requires AllClaimable(s.ledger, form, answers) && FilesMatch(files, s.ledger, form, answers)
    ensures Whole(AfterSubmit(s, x, form, answers, files))
      <==> forall i :: 0 <= i < |answers| ==> answers[i].key in s.bucket
  {
    var s' := AfterSubmit(s, x, form, answers, files);
    if forall i :: 0 <= i < |answers| ==> answers[i].key in s.bucket {
      forall y, field | y in s'.submissions && field in s'.submissions[y].files ensures WholeEntry(s', y, field) {
        if y == x {
          var id := AcceptedEntry(s, form, answers, files, field);
          assert Agrees(s'.ledger[id], x, s'.submissions[x], field);
        } else {
          assert WholeEntry(s, y, field);
          var id :| id in s.ledger && Agrees(s.ledger[id], y, s.submissions[y], field);
          assert id in s'.ledger && s'.ledger[id] == s.ledger[id];
        }
      }
    } else {
      var i :| 0 <= i < |answers| && answers[i].key !in s.bucket;
      assert HasClaimable(s.ledger, form, answers[i]);
      var id :| id in s.ledger && Claimable(s.ledger[id], form, answers[i]);
      assert files[answers[i].field] == s.ledger[id].file;
      assert !WholeEntry(s', x, answers[i].field);
    }
  }

  lemma ChangeKeepsWhole(s: State, change: Change)
    requires Holds(s) && Whole(s) && !change.Submit?
    ensures Whole(Changed(s, change))
  {
    var s' := Changed(s, change);
    ChangeThins(s, change);
    forall x, field | x in s'.submissions && field in s'.submissions[x].files ensures WholeEntry(s', x, field) {
      assert WholeEntry(s, x, field);
      var id :| id in s.ledger && Agrees(s.ledger[id], x, s.submissions[x], field);
      SurvivesChange(s, change, id);
    }
  }

  /** A claimed row survives, object included, every change that leaves its submission standing. */
  lemma SurvivesChange(s: State, change: Change, id: nat)
    requires Holds(s) && !change.Submit? && id in s.ledger && s.ledger[id].submission.Some?
    requires s.ledger[id].submission.value in Changed(s, change).submissions
    requires s.ledger[id].file.key in s.bucket
    ensures id in Changed(s, change).ledger && Changed(s, change).ledger[id] == s.ledger[id]
    ensures s.ledger[id].file.key in Changed(s, change).bucket
  {
  }

  lemma ReapExactly(s: State, r: nat, action: Action)
    requires Holds(s) && Whole(s)
    ensures Whole(Acted(s, r, action)) <==> !Severs(s, Reap(r, action))
  {
    if action.Delete? && action.succeeds && CanDelete(s, r) {
      DeleteExactly(s, r);
    } else if action.Forget? && CanForget(s, r) {
      ForgetKeepsWhole(s, r);
    } else {
      SameEntriesStayWhole(s, Acted(s, r, action));
    }
  }

  /** The condition is exact: while every attachment is whole, a step breaks one iff it severs. */
  lemma SeversExactly(s: State, step: Step)
    requires Holds(s) && Whole(s)
    ensures Whole(Apply(s, step)) <==> !Severs(s, step)
  {
    match step
    case Tick(_) => SameEntriesStayWhole(s, Apply(s, step));
    case Reap(r, action) => ReapExactly(s, r, action);
    case Request(change) =>
      if !change.Submit? {
        ChangeKeepsWhole(s, change);
      } else if change.id !in s.minted && change.form in s.forms && DistinctFields(change.answers)
                && AllClaimable(s.ledger, change.form, change.answers)
                && FilesMatch(change.files, s.ledger, change.form, change.answers) {
        SubmitExactly(s, change.id, change.form, change.answers, change.files);
      } else {
        SameEntriesStayWhole(s, Apply(s, step));
      }
  }

  ghost predicate AlwaysWhole(s: State, steps: seq<Step>)
    decreases |steps|
  {
    Whole(s) && (steps == [] || AlwaysWhole(Apply(s, steps[0]), steps[1..]))
  }

  predicate NeverSevers(s: State, steps: seq<Step>)
    decreases |steps|
  {
    steps == [] || (!Severs(s, steps[0]) && NeverSevers(Apply(s, steps[0]), steps[1..]))
  }

  /** Over whole runs: every attachment is whole throughout exactly when no step severs one. */
  lemma {:induction false} WholeUnlessSevered(s: State, steps: seq<Step>)
    requires Holds(s) && Whole(s)
    ensures AlwaysWhole(s, steps) <==> NeverSevers(s, steps)
    decreases |steps|
  {
    if steps != [] {
      SeversExactly(s, steps[0]);
      if !Severs(s, steps[0]) {
        StepKeepsHolds(s, steps[0]);
        WholeUnlessSevered(Apply(s, steps[0]), steps[1..]);
      }
    }
  }

  // ---------- Counting the claim ----------

  /**
   The update claims exactly as many rows as there are answers, so the service's last check, that
   no other submission got there first, can never fail.
   */
  lemma ClaimCountsEveryAnswer(ledger: map<nat, Row>, form: nat, answers: seq<Answer>)
    requires DistinctFields(answers) && AllClaimable(ledger, form, answers)
    requires forall a, b :: a in ledger && b in ledger && ledger[a].file.key == ledger[b].file.key ==> a == b
    ensures |ClaimedRows(ledger, KeysOf(answers))| == |answers|
  {
    var ids := seq(|answers|, i requires 0 <= i < |answers| => RowFor(ledger, form, answers[i]));
    forall i | 0 <= i < |answers| ensures ids[i] in ledger && Claimable(ledger[ids[i]], form, answers[i]) {
      assert HasClaimable(ledger, form, answers[i]);
    }
    assert forall i, j :: 0 <= i < j < |ids| ==> ids[i] != ids[j];
    SetOfDistinct(ids);
    var named := set i | 0 <= i < |ids| :: ids[i];
    forall id | id in ClaimedRows(ledger, KeysOf(answers)) ensures id in named {
      var i :| 0 <= i < |answers| && answers[i].key == ledger[id].file.key;
      assert ids[i] == id;
    }
    forall id | id in named ensures id in ClaimedRows(ledger, KeysOf(answers)) {
      var i :| 0 <= i < |ids| && ids[i] == id;
      assert answers[i].key in KeysOf(answers);
    }
    assert ClaimedRows(ledger, KeysOf(answers)) == named;
  }

  ghost function RowFor(ledger: map<nat, Row>, form: nat, answer: Answer): (id: nat)
    ensures HasClaimable(ledger, form, answer) ==> id in ledger && Claimable(ledger[id], form, answer)
  {
    if HasClaimable(ledger, form, answer)
    then var row :| row in ledger && Claimable(ledger[row], form, answer); row else 0
  }

  function ClaimedRows(ledger: map<nat, Row>, keys: set<nat>): set<nat> {
    set id | id in ledger && ledger[id].file.key in keys && ledger[id].submission.None?
  }
}
