/**
 What keeps an upload: the reaper leaves it alone for its whole time to live, a claim takes it out of
 the reaper's reach, and deletions say exactly what they take and what they hand back.
 */
module Retention {
  import opened Common
  import opened Uploads

  // ---------- What requests do to the ledger ----------

  /** A deleted submission goes, its uploads are unclaimed again, and nothing else changes. */
  lemma DeletionHandsBack(s: State, id: nat)
    ensures var s' := Apply(s, Request(DeleteSubmission(id)));
            && s'.submissions == s.submissions - {id} && s'.ledger.Keys == s.ledger.Keys && s'.bucket == s.bucket
            && (forall row :: row in s.ledger ==>
                  s'.ledger[row] == if s.ledger[row].submission == Some(id)
                                    then s.ledger[row].(submission := None) else s.ledger[row])
  {
  }

  /** A deleted form goes with its submissions and its uploads' rows; the objects stay behind, given up on. */
  lemma FormDeletionTakes(s: State, form: nat)
    requires Inv(s)
    ensures var s' := Apply(s, Request(DeleteForm(form)));
            && s'.forms == s.forms - {form} && s'.bucket == s.bucket && s'.uploads == s.uploads
            && (forall x :: x in s'.submissions <==> x in s.submissions && s.submissions[x].form != form)
            && (forall x :: x in s'.submissions ==> s'.submissions[x] == s.submissions[x])
            && (forall row :: row in s'.ledger <==> row in s.ledger && s.ledger[row].form != form)
            && (forall row :: row in s.ledger && s.ledger[row].form == form ==> s.ledger[row].file.key in s'.lost)
  {
  }

  predicate Named(answers: seq<Answer>, key: nat) {
    exists i :: 0 <= i < |answers| && answers[i].key == key
  }

  lemma ClaimedRows(ledger: map<nat, Row>, id: nat, answers: seq<Answer>)
    ensures var claimed := Claimed(ledger, id, KeysOf(answers));
            && claimed.Keys == ledger.Keys
            && forall row :: row in ledger ==>
                 claimed[row] == if ledger[row].submission == None && Named(answers, ledger[row].file.key)
                                 then ledger[row].(submission := Some(id)) else ledger[row]
  {
  }

  /** A request that dies holding an object leaves it in the bucket, with nobody to account for it. */
  lemma DyingLeaves(s: State, u: nat)
    requires u in s.uploads
    ensures var s', key := Apply(s, Request(Die(u))), s.uploads[u].file.key;
            && s'.bucket == s.bucket && s'.ledger == s.ledger && s'.uploads == s.uploads - {u} && key in s'.lost
  {
  }

  /** What a claim takes: the named uploads, until then unclaimed; every other row stays as it is. */
  lemma ClaimTakes(s: State, id: nat, form: nat, answers: seq<Answer>, files: map<string, File>)
    requires id !in s.minted && form in s.forms && DistinctFields(answers)
    requires AllClaimable(s.ledger, form, answers) && FilesMatch(files, s.ledger, form, answers)
    ensures var s' := Apply(s, Request(Submit(id, form, answers, files)));
            && s'.submissions == s.submissions[id := Submission(form, files)]
            && s'.ledger.Keys == s.ledger.Keys && s'.bucket == s.bucket
            && (forall row :: row in s.ledger ==>
                  s'.ledger[row] == if s.ledger[row].submission == None && Named(answers, s.ledger[row].file.key)
                                    then s.ledger[row].(submission := Some(id)) else s.ledger[row])
  {
    ClaimedRows(s.ledger, id, answers);
    hide AllClaimable, FilesMatch, DistinctFields, Claimed, Named, KeysOf;
  }

  // ---------- The time to live ----------

  function Elapsed(steps: seq<Step>): nat {
    if steps == [] then 0 else (if steps[0].Tick? then steps[0].seconds else 0) + Elapsed(steps[1..])
  }

  /** No reaper has it on its list. */
  predicate Unlisted(s: State, id: nat) {
    forall r, i :: r in s.reapers && 0 <= i < |s.reapers[r].left| ==> s.reapers[r].left[i].id != id
  }

  /** The row stands, its object is in the bucket, and no reaper is after it. */
  predicate Kept(s: State, id: nat, form: nat, file: File, createdAt: int) {
    && id in s.ledger && s.ledger[id].form == form && s.ledger[id].file == file && s.ledger[id].createdAt == createdAt
    && file.key in s.bucket && Unlisted(s, id)
  }

  /** Reapers wait out the time to live, and nobody deletes the form. */
  predicate Patient(step: Step, form: nat, ttl: nat) {
    && (step.Reap? && step.action.List? ==> step.action.ttl >= ttl)
    && step != Request(DeleteForm(form))
  }

  lemma RequestKeeps(s: State, change: Change, id: nat, form: nat, file: File, createdAt: int)
    requires Keyed(s) && Kept(s, id, form, file, createdAt) && change != DeleteForm(form)
    ensures Kept(Changed(s, change), id, form, file, createdAt)
  {
    hide AllClaimable, FilesMatch;
  }

  lemma ListKeeps(s: State, r: nat, ttl: nat, limit: nat, id: nat, form: nat, file: File, createdAt: int)
    requires Kept(s, id, form, file, createdAt) && s.now - ttl <= createdAt
    ensures Kept(Acted(s, r, List(ttl, limit)), id, form, file, createdAt)
  {
    AbandonedAreExpired(s, s.now - ttl, limit);
    hide Abandoned;
  }

  lemma ReaperKeeps(s: State, r: nat, action: Action, id: nat, form: nat, file: File, createdAt: int)
    requires Keyed(s) && Reapers(s) && Kept(s, id, form, file, createdAt) && !action.List?
    ensures Kept(Acted(s, r, action), id, form, file, createdAt)
  {
    if r in s.reapers && s.reapers[r].left != [] {
      assert Names(s, s.reapers[r].left[0]);
    }
  }

  lemma TickKeeps(s: State, seconds: nat, id: nat, form: nat, file: File, createdAt: int)
    requires Kept(s, id, form, file, createdAt)
    ensures Kept(Apply(s, Tick(seconds)), id, form, file, createdAt)
  {
  }

  lemma {:induction false} YoungStay(s: State, steps: seq<Step>, id: nat, form: nat, file: File, createdAt: int,
      ttl: nat)
    requires Inv(s) && Kept(s, id, form, file, createdAt) && s.now + Elapsed(steps) <= createdAt + ttl
    requires forall i :: 0 <= i < |steps| ==> Patient(steps[i], form, ttl)
    ensures Kept(Run(s, steps), id, form, file, createdAt)
    decreases |steps|
  {
    if steps != [] {
      StepKeepsInv(s, steps[0]);
      NowMoves(s, steps[0]);
      hide Kept, Keyed, Reapers;
      match steps[0] {
        case Request(change) => RequestKeeps(s, change, id, form, file, createdAt);
        case Reap(r, action) =>
          if action.List? {
            ListKeeps(s, r, action.ttl, action.limit, id, form, file, createdAt);
          } else {
            ReaperKeeps(s, r, action, id, form, file, createdAt);
          }
        case Tick(seconds) => TickKeeps(s, seconds, id, form, file, createdAt);
      }
      hide Changed, Acted, Inv;
      YoungStay(Apply(s, steps[0]), steps[1..], id, form, file, createdAt, ttl);
    }
  }

  lemma RequestsTakeNoTime(s: State, change: Change)
    ensures Changed(s, change).now == s.now
  {
    hide AllClaimable, FilesMatch, HandedBack, Claimed, DistinctFields;
  }

  lemma ReapersTakeNoTime(s: State, r: nat, action: Action)
    ensures Acted(s, r, action).now == s.now
  {
    hide Abandoned;
  }

  lemma NowMoves(s: State, step: Step)
    ensures Apply(s, step).now == s.now + if step.Tick? then step.seconds else 0
  {
    hide Changed, Acted;
    match step
    case Request(change) => RequestsTakeNoTime(s, change);
    case Reap(r, action) => ReapersTakeNoTime(s, r, action);
    case Tick(_) =>
  }

  /** A row just recorded is on no list: lists name rows that existed. */
  lemma RecordedIsKept(s: State, u: nat, id: nat)
    requires Inv(s) && u in s.uploads && s.uploads[u].Stored? && id !in s.minted
    requires Insertable(s, s.uploads[u]) && s.uploads[u].file.key in s.bucket
    ensures Kept(Apply(s, Request(Record(u, id))), id, s.uploads[u].form, s.uploads[u].file, s.now)
  {
    forall r, i | r in s.reapers && 0 <= i < |s.reapers[r].left| ensures s.reapers[r].left[i].id != id {
      assert PassOk(s, s.reapers[r]) && Names(s, s.reapers[r].left[i]);
    }
  }

  /**
   An upload lives its time: in every interleaving, reapers stopping and resuming anywhere, an upload
   that has just been recorded keeps its row and its object until its time to live is over, unless its
   form is deleted.
   */
  lemma UploadsLiveTheirTime(before: seq<Step>, u: nat, id: nat, steps: seq<Step>, ttl: nat)
    requires var s := Run(Init(), before);
             && u in s.uploads && s.uploads[u].Stored? && id !in s.minted
             && Insertable(s, s.uploads[u]) && s.uploads[u].file.key in s.bucket
             && forall i :: 0 <= i < |steps| ==> Patient(steps[i], s.uploads[u].form, ttl)
    requires Elapsed(steps) <= ttl
    ensures var s := Run(Init(), before);
            var s' := Run(Apply(s, Request(Record(u, id))), steps);
            id in s'.ledger && s'.ledger[id].file == s.uploads[u].file && s.uploads[u].file.key in s'.bucket
  {
    RunKeepsInv(Init(), before);
    var s := Run(Init(), before);
    RecordedIsKept(s, u, id);
    NowMoves(s, Request(Record(u, id)));
    StepKeepsInv(s, Request(Record(u, id)));
    hide Run, Apply, Inv;
    YoungStay(Apply(s, Request(Record(u, id))), steps, id, s.uploads[u].form, s.uploads[u].file, s.now, ttl);
  }
}
