/**
 The claiming transaction as the service performs it: lock the rows the answers name, check every
 reference, insert the submission, claim, and compare the counts.
 */
module Claiming {
  import opened Common
  import opened Ordering
  import opened Uploads
  import opened Attachments
  import Json
  import Validation

  // ---------- The file answers of a validated payload ----------

  /** In field order, each file field that has a text answer; `keyOf` reads it as an object key. */
  function FileAnswers(fields: seq<Validation.FieldDefinition>, data: map<string, Json.Value>,
      keyOf: string -> nat): seq<Answer> {
    if fields == [] then []
    else
      var rest := FileAnswers(fields[1..], data, keyOf);
      var key := fields[0].key;
      if fields[0].fieldType.FileField? && key in data
          && data[key].Text? then [Answer(key, keyOf(data[key].text))] + rest
      else rest
  }

  lemma {:induction false} AnswersComeFromFields(fields: seq<Validation.FieldDefinition>, data: map<string,
      Json.Value>, keyOf: string -> nat)
    ensures forall a :: a in FileAnswers(fields, data, keyOf) ==>
              && a.field in data && data[a.field].Text? && a.key == keyOf(data[a.field].text)
              && exists i :: 0 <= i < |fields| && fields[i].key == a.field && fields[i].fieldType.FileField?
    ensures forall i ::
              (&& 0 <= i < |fields| && fields[i].fieldType.FileField?
               && fields[i].key in data && data[fields[i].key].Text?) ==>
              exists a :: a in FileAnswers(fields, data, keyOf) && a.field == fields[i].key
  {
    if fields != [] {
      AnswersComeFromFields(fields[1..], data, keyOf);
      var answers, rest := FileAnswers(fields, data, keyOf), FileAnswers(fields[1..], data, keyOf);
      forall a | a in answers
        ensures exists i :: 0 <= i < |fields| && fields[i].key == a.field && fields[i].fieldType.FileField?
      {
        if a in rest {
          var i :| 0 <= i < |fields[1..]| && fields[1..][i].key == a.field && fields[1..][i].fieldType.FileField?;
          assert fields[i + 1] == fields[1..][i];
        } else {
          assert fields[0].key == a.field;
        }
      }
      forall i | 0 <= i < |fields| && fields[i].fieldType.FileField? && fields[i].key in data
          && data[fields[i].key].Text?
        ensures exists a :: a in answers && a.field == fields[i].key
      {
        if i == 0 {
          assert answers[0] in answers;
        } else {
          assert fields[1..][i - 1] == fields[i];
          var a :| a in rest && a.field == fields[i].key;
          assert a in answers;
        }
      }
    }
  }

  lemma {:induction false} UniqueKeysGiveDistinctFields(fields: seq<Validation.FieldDefinition>, data: map<string,
      Json.Value>, keyOf: string -> nat)
    requires forall i, j :: 0 <= i < j < |fields| ==> fields[i].key != fields[j].key
    ensures DistinctFields(FileAnswers(fields, data, keyOf))
  {
    if fields != [] {
      UniqueKeysGiveDistinctFields(fields[1..], data, keyOf);
      AnswersComeFromFields(fields[1..], data, keyOf);
      var rest := FileAnswers(fields[1..], data, keyOf);
      forall j | 0 <= j < |rest| ensures rest[j].field != fields[0].key {
        assert rest[j] in rest;
        var i :| 0 <= i < |fields[1..]| && fields[1..][i].key == rest[j].field;
        assert fields[i + 1] == fields[1..][i];
      }
    }
  }

  /** The keys of an accepted definition are unique, so no two answers of a submission share a field. */
  lemma FileAnswersAreDistinct(schema: Validation.FormSchema, syntax: Validation.Syntax, data: map<string,
      Json.Value>, keyOf: string -> nat)
    requires Validation.ValidSchema(schema, syntax)
    ensures DistinctFields(FileAnswers(schema.fields, data, keyOf))
  {
    forall i, j | 0 <= i < j < |schema.fields| ensures schema.fields[i].key != schema.fields[j].key {
      assert Validation.FieldOk(schema.fields, j, syntax);
    }
    UniqueKeysGiveDistinctFields(schema.fields, data, keyOf);
  }

  // ---------- The claim ----------

  predicate KeysUnique(rows: map<nat, Row>) {
    forall a, b :: a in rows && b in rows && rows[a].file.key == rows[b].file.key ==> a == b
  }

  predicate Acceptable(row: Row, answer: Answer) {
    row.file.key == answer.key && row.submission.None? && row.field == answer.field
  }

  /** What each refusal says about the answer it names. */
  predicate Faulty(recorded: map<nat, Row>, answer: Answer, error: FileError) {
    match error
    case NotReceived(field) => field == answer.field
        && forall id :: id in recorded ==> recorded[id].file.key != answer.key
    case AlreadyUsed(field) =>
      && field == answer.field
      && exists id :: id in recorded && recorded[id].file.key == answer.key && recorded[id].submission.Some?
    case OtherField(field) =>
      && field == answer.field
      && exists id :: id in recorded && recorded[id].file.key == answer.key
                      && recorded[id].submission.None? && recorded[id].field != answer.field
    case ClaimedElsewhere => false
    case Internal => false
  }

  predicate Accepted(recorded: map<nat, Row>, answer: Answer) {
    exists id :: id in recorded && Acceptable(recorded[id], answer)
  }

  predicate Describes(files: map<string, File>, recorded: map<nat, Row>, answers: seq<Answer>) {
    && files.Keys == (set i | 0 <= i < |answers| :: answers[i].field)
    && forall id, i :: id in recorded && 0 <= i < |answers| && Acceptable(recorded[id], answers[i])
                       ==> files[answers[i].field] == recorded[id].file
  }

  /** Refuses at the first bad reference, with the reason it is one. */
  method CheckFileReferences(answers: seq<Answer>, recorded: map<nat, Row>) returns (result: Result<map<string,
      File>, FileError>)
    requires DistinctFields(answers) && KeysUnique(recorded)
    ensures result.Ok? <==> AllAccepted(recorded, answers)
    ensures result.Ok? ==> Describes(result.value, recorded, answers)
    ensures result.Err? ==>
              exists i :: 0 <= i < |answers| && Faulty(recorded, answers[i], result.error)
                          && forall j :: 0 <= j < i ==> Accepted(recorded, answers[j])
  {
    var metadata: map<string, File> := map[];
    var i := 0;
    while i < |answers|
      invariant 0 <= i <= |answers|
      invariant forall j :: 0 <= j < i ==> Accepted(recorded, answers[j])
      invariant forall f :: f in metadata <==> exists j :: 0 <= j < i && answers[j].field == f
      invariant forall id, j :: id in recorded && 0 <= j < i && Acceptable(recorded[id], answers[j])
                                ==> metadata[answers[j].field] == recorded[id].file
    {
      var answer := answers[i];
      if id :| id in recorded && recorded[id].file.key == answer.key {
        var upload := recorded[id];
        if upload.submission.Some? {
          assert Faulty(recorded, answer, AlreadyUsed(answer.field));
          return Err(AlreadyUsed(answer.field));
        }
        if upload.field != answer.field {
          assert Faulty(recorded, answer, OtherField(answer.field));
          return Err(OtherField(answer.field));
        }
        assert Acceptable(recorded[id], answer);
        metadata := metadata[answer.field := upload.file];
      } else {
        assert Faulty(recorded, answer, NotReceived(answer.field));
        return Err(NotReceived(answer.field));
      }
      i := i + 1;
    }
    result := Ok(metadata);
  }

  lemma Locked(ledger: map<nat, Row>, form: nat, answers: seq<Answer>, id: nat, i: nat)
    requires i < |answers|
    ensures var recorded := Recorded(ledger, form, KeysOf(answers));
            id in ledger && Claimable(ledger[id], form, answers[i])
            <==> id in recorded && recorded[id] == ledger[id] && Acceptable(recorded[id], answers[i])
  {
  }

  predicate AllAccepted(recorded: map<nat, Row>, answers: seq<Answer>) {
    forall i :: 0 <= i < |answers| ==> Accepted(recorded, answers[i])
  }

  lemma ClaimableIsAccepted(ledger: map<nat, Row>, form: nat, answers: seq<Answer>)
    requires AllClaimable(ledger, form, answers)
    ensures AllAccepted(Recorded(ledger, form, KeysOf(answers)), answers)
  {
    forall i | 0 <= i < |answers| ensures Accepted(Recorded(ledger, form, KeysOf(answers)), answers[i]) {
      assert HasClaimable(ledger, form, answers[i]);
      var id :| id in ledger && Claimable(ledger[id], form, answers[i]);
      Locked(ledger, form, answers, id, i);
    }
  }

  lemma AcceptedIsClaimable(ledger: map<nat, Row>, form: nat, answers: seq<Answer>)
    requires AllAccepted(Recorded(ledger, form, KeysOf(answers)), answers)
    ensures AllClaimable(ledger, form, answers)
  {
  }

  /** The rows locked are enough: filtering by form and key loses nothing an answer could claim. */
  lemma LockedIsEnough(ledger: map<nat, Row>, form: nat, answers: seq<Answer>)
    ensures AllClaimable(ledger, form, answers) <==> AllAccepted(Recorded(ledger, form, KeysOf(answers)), answers)
  {
    hide AllClaimable, AllAccepted, Recorded;
    if AllClaimable(ledger, form, answers) { ClaimableIsAccepted(ledger, form, answers); }
    if AllAccepted(Recorded(ledger, form, KeysOf(answers)), answers) { AcceptedIsClaimable(ledger, form, answers); }
  }

  lemma DescribedIsMatched(ledger: map<nat, Row>, form: nat, answers: seq<Answer>, files: map<string, File>)
    requires Describes(files, Recorded(ledger, form, KeysOf(answers)), answers)
    ensures FilesMatch(files, ledger, form, answers)
  {
    forall id, i | id in ledger && 0 <= i < |answers| && Claimable(ledger[id], form, answers[i])
      ensures files[answers[i].field] == ledger[id].file
    {
      Locked(ledger, form, answers, id, i);
    }
  }

  lemma SubmitWrites(s: State, id: nat, form: nat, answers: seq<Answer>, files: map<string, File>)
    requires id !in s.minted && form in s.forms && DistinctFields(answers)
    requires AllClaimable(s.ledger, form, answers) && FilesMatch(files, s.ledger, form, answers)
    ensures Changed(s, Submit(id, form, answers, files))
         == s.(submissions := s.submissions[id := Submission(form, files)], minted := s.minted + {id},
               ledger := Claimed(s.ledger, id, KeysOf(answers)))
  {
  }

  lemma LedgerKeysUnique(s: State)
    requires Keyed(s)
    ensures KeysUnique(s.ledger)
  {
  }

  class SubmissionDesk {
    var state: State

    constructor (state: State)
      ensures this.state == state
    {
      this.state := state;
    }

    /**
     All or nothing. The submission is written, holding every file it names, exactly when its form is
     still there and each reference is to an unclaimed upload this form received for that field.
     Otherwise nothing changes: the first bad reference is the reason, or, with every reference good,
     a form that was deleted meanwhile; `ClaimedElsewhere` never is.
     */
    method InsertClaimingFiles(id: nat, form: nat, answers: seq<Answer>) returns (result: Result<nat, FileError>)
      requires Keyed(state) && id !in state.minted && DistinctFields(answers)
      modifies this
      ensures result.Ok? <==> form in old(state).forms && AllClaimable(old(state).ledger, form, answers)
      ensures result.Ok? ==>
                && result.value == id && id in state.submissions
                && FilesMatch(state.submissions[id].files, old(state).ledger, form, answers)
                && state == Changed(old(state), Submit(id, form, answers, state.submissions[id].files))
      ensures result.Err? ==> state == old(state)
      ensures result == Err(Internal) <==> form !in old(state).forms && AllClaimable(old(state).ledger, form, answers)
      ensures result.Err? && !result.error.Internal? ==>
                var recorded := Recorded(old(state).ledger, form, KeysOf(answers));
                exists i :: 0 <= i < |answers| && Faulty(recorded, answers[i], result.error)
                            && forall j :: 0 <= j < i ==> Accepted(recorded, answers[j])
    {
      hide Keyed, Changed, AllClaimable, AllAccepted, FilesMatch, Describes, Accepted, ClaimedRows;
      var before, keys := state, KeysOf(answers);
      var recorded := Recorded(before.ledger, form, keys);
      LockedIsEnough(before.ledger, form, answers);
      LedgerKeysUnique(before);
      var metadata := CheckFileReferences(answers, recorded);
      if metadata.Err? {
        return Err(metadata.error);
      }
      if form !in before.forms {
        // The insert violates its foreign key.
        return Err(Internal);
      }
      DescribedIsMatched(before.ledger, form, answers, metadata.value);
      SubmitWrites(before, id, form, answers, metadata.value);
      ClaimCountsEveryAnswer(before.ledger, form, answers);
      var next := before.(submissions := before.submissions[id := Submission(form, metadata.value)],
                          minted := before.minted + {id});
      var claimed := ClaimedRows(next.ledger, keys);
      next := next.(ledger := Claimed(next.ledger, id, keys));
      if |claimed| != |answers| {
        return Err(ClaimedElsewhere);
      }
      state := next;
      result := Ok(id);
    }
  }

  // ---------- The race that is not locked against ----------

  const CV := File(3, "cv.pdf", "application/pdf", 10)

  /** An upload is recorded and expires, a reaper lists it, a submission claims it, the reaper goes on. */
  const LATE_CLAIM: seq<Step> :=
    [ Request(CreateForm(1)), Request(Finish(2, 1, "cv", CV)), Request(Record(2, 4)), Tick(10),
      Reap(5, List(5, 200)), Request(Submit(6, 1, [Answer("cv", 3)], map["cv" := CV])), Reap(5, Delete(true)) ]

  lemma RunUnfolds(s: State, step: Step, rest: seq<Step>)
    ensures Run(s, [step] + rest) == Run(Apply(s, step), rest)
  {
  }

  const EXPIRED := State(10, {1}, {3}, map[4 := Row(1, "cv", CV, None, 0)], map[], map[], map[],
                         {1, 2, 3, 4}, map[3 := AtRow(4)], {})

  lemma FirstSteps()
    ensures Run(Init(), LATE_CLAIM) == Run(EXPIRED, LATE_CLAIM[4..])
  {
    var s1 := State(0, {1}, {}, map[], map[], map[], map[], {1}, map[], {});
    var s2 := State(0, {1}, {3}, map[], map[], map[2 := Stored(1, "cv", CV)], map[], {1, 2, 3},
                    map[3 := AtUpload(2)], {});
    var s3 := EXPIRED.(now := 0);
    assert Apply(Init(), LATE_CLAIM[0]) == s1;
    assert Apply(s1, LATE_CLAIM[1]) == s2;
    assert Apply(s2, LATE_CLAIM[2]) == s3;
    assert Apply(s3, LATE_CLAIM[3]) == EXPIRED;
    hide Run, Apply;
    assert LATE_CLAIM == [LATE_CLAIM[0]] + LATE_CLAIM[1..];
    assert LATE_CLAIM[1..] == [LATE_CLAIM[1]] + LATE_CLAIM[2..];
    assert LATE_CLAIM[2..] == [LATE_CLAIM[2]] + LATE_CLAIM[3..];
    assert LATE_CLAIM[3..] == [LATE_CLAIM[3]] + LATE_CLAIM[4..];
    RunUnfolds(Init(), LATE_CLAIM[0], LATE_CLAIM[1..]);
    RunUnfolds(s1, LATE_CLAIM[1], LATE_CLAIM[2..]);
    RunUnfolds(s2, LATE_CLAIM[2], LATE_CLAIM[3..]);
    RunUnfolds(s3, LATE_CLAIM[3], LATE_CLAIM[4..]);
  }

  const LISTED := EXPIRED.(reapers := map[5 := Pass([Listed(4, 3)], false)])

  const CLAIMED := LISTED.(ledger := map[4 := Row(1, "cv", CV, Some(6), 0)], minted := {1, 2, 3, 4, 6},
                           submissions := map[6 := Submission(1, map["cv" := CV])])

  lemma ClaimedMeanwhile()
    ensures Apply(LISTED, LATE_CLAIM[5]) == CLAIMED
  {
    var answers := [Answer("cv", 3)];
    assert Claimable(LISTED.ledger[4], 1, answers[0]) && HasClaimable(LISTED.ledger, 1, answers[0]);
    assert answers[0].key in KeysOf(answers) && KeysOf(answers) == {3};
    SubmitWrites(LISTED, 6, 1, answers, map["cv" := CV]);
  }

  lemma OnlyOneListed()
    ensures Abandoned(EXPIRED, 5, 200) == [Listed(4, 3)]
  {
    assert Expired(EXPIRED, 5, 4) && Key(0, 4) in ExpiredKeys(EXPIRED, 5);
    assert forall k :: k in ExpiredKeys(EXPIRED, 5) ==> k == Key(0, 4);
    assert ExpiredKeys(EXPIRED, 5) == {Key(0, 4)};
    var page := FirstN(ExpiredKeys(EXPIRED, 5), 200);
    assert |page| == 1 && page[0] in ExpiredKeys(EXPIRED, 5);
    assert page == [Key(0, 4)];
  }

  /**
   The claim a reaper pass does not lock against: in this run every step is legal, and submission 6
   is left naming an object that no longer exists.
   */
  lemma LateClaimLosesTheFile()
    ensures var s := Run(Init(), LATE_CLAIM);
            && 6 in s.submissions && s.submissions[6].files == map["cv" := CV] && CV.key !in s.bucket && !Whole(s)
  {
    var end := CLAIMED.(bucket := {}, reapers := map[5 := Pass([Listed(4, 3)], true)]);
    assert Apply(EXPIRED, LATE_CLAIM[4]) == LISTED by { OnlyOneListed(); }
    ClaimedMeanwhile();
    assert Apply(CLAIMED, LATE_CLAIM[6]) == end;
    assert !WholeEntry(end, 6, "cv");
    hide Run, Apply;
    FirstSteps();
    assert LATE_CLAIM[4..] == [LATE_CLAIM[4]] + LATE_CLAIM[5..];
    assert LATE_CLAIM[5..] == [LATE_CLAIM[5]] + LATE_CLAIM[6..];
    assert LATE_CLAIM[6..] == [LATE_CLAIM[6]] + [];
    RunUnfolds(EXPIRED, LATE_CLAIM[4], LATE_CLAIM[5..]);
    RunUnfolds(LISTED, LATE_CLAIM[5], LATE_CLAIM[6..]);
    RunUnfolds(CLAIMED, LATE_CLAIM[6], []);
    RunNone(end);
  }
}
