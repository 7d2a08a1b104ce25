/**
 An upload request from its first byte to its ledger row, or to the cleanup that undoes it, with
 everybody else at work on both stores between any two of its statements.
 */
module UploadService {
  import opened Common
  import opened Strings
  import opened Uploads
  import Streaming
  import Validation

  /** How completing the write turns out; `Unheard`: the object is there, and an error is reported. */
  datatype Completion = Completed | NotCompleted | Unheard

  /** How the calls that can fail turn out. */
  datatype Luck = Luck(begins: bool, completion: Completion, records: bool, cleans: bool)

  // ---------- What is asked of a request before anything is written ----------

  /** The declared media type without its parameters, in lower case; nothing when it is blank. */
  function ContentType(declared: Option<string>, isSpace: char -> bool): Option<string> {
    if declared.None? then None
    else
      var kind := Lower(Trim(UpTo(declared.value, ';'), isSpace), AsciiLower);
      if kind == "" then None else Some(kind)
  }

  /** A file field of the form, and a declared type it accepts. */
  predicate Admitted(fields: seq<Validation.FieldDefinition>, key: string, contentType: Option<string>,
      isSpace: char -> bool)
  {
    var field := Validation.Field(fields, key);
    && field.Some? && field.value.fieldType.FileField?
    && contentType.Some? && Validation.Accepts(field.value, contentType.value, isSpace)
  }

  /** The field's own maximum, under the deployment's ceiling. */
  function LimitOf(fields: seq<Validation.FieldDefinition>, key: string, ceiling: nat): (limit: nat)
    ensures limit <= ceiling
    ensures var field := Validation.Field(fields, key);
            if field.Some? && field.value.maxBytes.Some?
            then limit <= field.value.maxBytes.value && (limit == field.value.maxBytes.value || limit == ceiling)
            else limit == ceiling
  {
    var field := Validation.Field(fields, key);
    if field.Some? && field.value.maxBytes.Some? then Min(field.value.maxBytes.value, ceiling) else ceiling
  }

  /** What it takes: a file field of that name, a type its list takes, and no more bytes than both maxima. */
  lemma AdmittedExactly(fields: seq<Validation.FieldDefinition>, key: string, ceiling: nat,
      contentType: Option<string>, size: nat, isSpace: char -> bool)
    requires forall i, j :: 0 <= i < j < |fields| ==> fields[i].key != fields[j].key
    ensures Admitted(fields, key, contentType, isSpace) && size <= LimitOf(fields, key, ceiling)
            <==> contentType.Some? && exists field ::
                   && field in fields && field.key == key && field.fieldType == Validation.FileField
                   && size <= ceiling && (field.maxBytes.Some? ==> size <= field.maxBytes.value)
                   && (field.accept.Some? ==> TakenBySome(field.accept.value, contentType.value, isSpace))
  {
    var found := Validation.Field(fields, key);
    if field :| field in fields && field.key == key {
      var i :| 0 <= i < |fields| && fields[i] == field;
      var j :| 0 <= j < |fields| && fields[j] == found.value;
      assert found == Some(field);
    }
  }

  predicate TakenBySome(accept: seq<string>, contentType: string, isSpace: char -> bool) {
    exists allowed :: allowed in accept && Validation.MediaTypeMatches(allowed, contentType, isSpace)
  }

  // ---------- Everybody else ----------

  /** A step that names none of these ids. */
  predicate Apart(step: Step, ids: set<nat>) {
    step.Request? ==>
      match step.change
      case CreateForm(form) => form !in ids
      case Finish(u, _, _, file) => u !in ids && file.key !in ids
      case Record(u, id) => u !in ids && id !in ids
      case RecordFails(u) => u !in ids
      case Cleanup(u, _) => u !in ids
      case Die(u) => u !in ids
      case Submit(id, _, _, _) => id !in ids
      case _ => true
  }

  /** What goes on around a request: everybody else's steps before each of its statements. */
  datatype World = World(others: nat -> seq<Step>) {
    function Before(k: nat): seq<Step> { others(k) }
  }

  /** Everybody else keeps apart from these ids. */
  ghost predicate AllApart(world: World, ids: set<nat>) {
    forall k, i :: 0 <= i < |world.Before(k)| ==> Apart(world.Before(k)[i], ids)
  }

  predicate Fresh(s: State, ids: set<nat>) {
    forall id :: id in ids ==> id !in s.minted
  }

  /** The upload is on its way, its object in the bucket and the id of its row still unused. */
  predicate OnItsWay(s: State, u: nat, id: nat, upload: Upload) {
    u in s.uploads && s.uploads[u] == upload && upload.file.key in s.bucket && id !in s.minted
  }

  lemma StepStaysFresh(s: State, step: Step, ids: set<nat>)
    requires Fresh(s, ids) && Apart(step, ids)
    ensures Fresh(Apply(s, step), ids)
  {
    hide HandedBack, Claimed, AllClaimable, FilesMatch, Abandoned;
  }

  lemma {:induction false} OthersStayApart(s: State, steps: seq<Step>, ids: set<nat>)
    requires Fresh(s, ids) && forall i :: 0 <= i < |steps| ==> Apart(steps[i], ids)
    ensures Fresh(Run(s, steps), ids)
    decreases |steps|
  {
    hide Apply, Fresh, Apart;
    if steps != [] {
      StepStaysFresh(s, steps[0], ids);
      OthersStayApart(Apply(s, steps[0]), steps[1..], ids);
    }
  }

  lemma RequestLeavesUpload(s: State, change: Change, u: nat, id: nat, upload: Upload, ids: set<nat>)
    requires Keyed(s) && OnItsWay(s, u, id, upload) && Apart(Request(change), ids) && u in ids && id in ids
    ensures OnItsWay(Changed(s, change), u, id, upload)
  {
    hide HandedBack, Claimed, AllClaimable, FilesMatch;
  }

  /** A reaper's list names rows, and the object has none yet. */
  lemma ReaperLeavesUpload(s: State, r: nat, action: Action, u: nat, id: nat, upload: Upload)
    requires Keyed(s) && Reapers(s) && OnItsWay(s, u, id, upload)
    ensures OnItsWay(Acted(s, r, action), u, id, upload)
  {
    hide Abandoned;
    if r in s.reapers && s.reapers[r].left != [] {
      assert Names(s, s.reapers[r].left[0]);
    }
  }

  lemma TickLeavesUpload(s: State, seconds: nat, u: nat, id: nat, upload: Upload)
    requires OnItsWay(s, u, id, upload)
    ensures OnItsWay(Apply(s, Tick(seconds)), u, id, upload)
  {
  }

  lemma StepLeavesUpload(s: State, step: Step, u: nat, id: nat, upload: Upload, ids: set<nat>)
    requires Inv(s) && OnItsWay(s, u, id, upload) && Apart(step, ids) && u in ids && id in ids
    ensures OnItsWay(Apply(s, step), u, id, upload)
  {
    hide OnItsWay, Keyed, Reapers, Apart;
    match step
    case Request(change) => RequestLeavesUpload(s, change, u, id, upload, ids);
    case Reap(r, action) => ReaperLeavesUpload(s, r, action, u, id, upload);
    case Tick(seconds) => TickLeavesUpload(s, seconds, u, id, upload);
  }

  lemma {:induction false} OthersLeaveUpload(s: State, steps: seq<Step>, u: nat, id: nat, upload: Upload, ids: set<nat>)
    requires Inv(s) && OnItsWay(s, u, id, upload) && u in ids && id in ids
    requires forall i :: 0 <= i < |steps| ==> Apart(steps[i], ids)
    ensures OnItsWay(Run(s, steps), u, id, upload)
    decreases |steps|
  {
    hide Apply, OnItsWay, Apart, Inv;
    if steps != [] {
      StepLeavesUpload(s, steps[0], u, id, upload, ids);
      StepKeepsInv(s, steps[0]);
      OthersLeaveUpload(Apply(s, steps[0]), steps[1..], u, id, upload, ids);
    }
  }

  /** The steps of a run that are this request's own. */
  function OwnOf(steps: seq<Step>, ids: set<nat>): seq<Step> {
    if steps == [] then
      []
    else
      var last := steps[|steps| - 1];
      OwnOf(steps[..|steps| - 1], ids) + if Apart(last, ids) then [] else [last]
  }

  lemma {:induction false} OthersAddNothing(trace: seq<Step>, steps: seq<Step>, ids: set<nat>)
    requires forall i :: 0 <= i < |steps| ==> Apart(steps[i], ids)
    ensures OwnOf(trace + steps, ids) == OwnOf(trace, ids)
    decreases |steps|
  {
    if steps == [] {
      assert trace + steps == trace;
    } else {
      var n := |steps| - 1;
      assert (trace + steps)[..|trace| + n] == trace + steps[..n];
      OthersAddNothing(trace, steps[..n], ids);
    }
  }

  lemma OneMoreOwn(trace: seq<Step>, step: Step, ids: set<nat>)
    ensures OwnOf(trace + [step], ids) == OwnOf(trace, ids) + if Apart(step, ids) then [] else [step]
  {
    assert (trace + [step])[..|trace|] == trace;
  }

  // ---------- The request's own statements ----------

  /** Nothing on record of the upload: no request holding it, no row. */
  predicate NoTrace(s: State, u: nat, key: nat) {
    u !in s.uploads && forall id :: id in s.ledger ==> s.ledger[id].file.key != key
  }

  lemma FreshLeavesNoTrace(s: State, u: nat, key: nat)
    requires Keyed(s) && u !in s.minted && key !in s.minted
    ensures NoTrace(s, u, key) && key !in s.bucket
  {
  }

  lemma FinishStep(s: State, u: nat, id: nat, form: nat, field: string, file: File)
    requires Fresh(s, {u, id, file.key}) && u != file.key && id != u && id != file.key
    ensures OnItsWay(Changed(s, Finish(u, form, field, file)), u, id, Stored(form, field, file))
  {
  }

  function Insert(u: nat, id: nat, luck: Luck): Change {
    if luck.records then Record(u, id) else RecordFails(u)
  }

  /** The row appears, or the object is left for the cleanup. */
  lemma InsertStep(s: State, u: nat, id: nat, form: nat, field: string, file: File, luck: Luck)
    requires OnItsWay(s, u, id, Stored(form, field, file))
    ensures var s' := Changed(s, Insert(u, id, luck));
            if luck.records && form in s.forms && file.size > 0 then
              && u !in s'.uploads && file.key in s'.bucket && form in s'.forms
              && id in s'.ledger && s'.ledger[id] == Row(form, field, file, None, s'.now)
            else
              OnItsWay(s', u, id, Unrecorded(file))
  {
  }

  lemma EndStep(s: State, u: nat, id: nat, upload: Upload, change: Change)
    requires Keyed(s) && OnItsWay(s, u, id, upload)
    requires change == Die(u) || (upload.Unrecorded? && change.Cleanup? && change.upload == u)
    ensures var s' := Changed(s, change);
            NoTrace(s', u, upload.file.key) && (change == Cleanup(u, true) ==> upload.file.key !in s'.bucket)
  {
  }

  lemma KeyedOf(s: State)
    requires Inv(s)
    ensures Keyed(s)
  {
  }

  lemma NothingYet(s: State, u: nat, id: nat, key: nat)
    requires Inv(s) && Fresh(s, {u, id, key})
    ensures NoTrace(s, u, key) && key !in s.bucket
  {
    hide Keyed, NoTrace;
    FreshLeavesNoTrace(s, u, key);
  }

  lemma InsertIsOurs(u: nat, id: nat, luck: Luck, ids: set<nat>)
    requires u in ids
    ensures !Apart(Request(Insert(u, id, luck)), ids)
    ensures !Apart(Request(Cleanup(u, luck.cleans)), ids) && !Apart(Request(Die(u)), ids)
  {
  }

  lemma FinishIsOurs(u: nat, form: nat, field: string, file: File, ids: set<nat>)
    requires u in ids
    ensures !Apart(Request(Finish(u, form, field, file)), ids) && !Apart(Request(Die(u)), ids)
  {
  }

  lemma AdmittedHasType(fields: seq<Validation.FieldDefinition>, key: string, contentType: Option<string>,
      isSpace: char -> bool)
    requires Admitted(fields, key, contentType, isSpace)
    ensures contentType.Some?
  {
  }

  /** What a refused upload did to the stores: nothing, or it undid what it had done, or could not know. */
  predicate Refusal(own: seq<Step>, u: nat, id: nat, key: nat, luck: Luck) {
    || own == []
    || (&& |own| > 1 && own[0].Request? && own[0].change.Finish? && own[0].change.upload == u
        && own[0].change.file.key == key
        && own[1..] == if luck.completion.Unheard? then [Request(Die(u))]
                       else [Request(Insert(u, id, luck)), Request(Cleanup(u, luck.cleans))])
  }

  class UploadDesk {
    var state: State          // the two stores, shared with everybody else
    var turn: nat
    ghost var start: State
    ghost var trace: seq<Step>

    constructor (state: State)
      requires Inv(state)
      ensures this.state == state && Tracks() && trace == []
    {
      this.state, this.turn := state, 0;
      this.start, this.trace := state, [];
    }

    ghost predicate Tracks() reads this {
      state == Run(start, trace) && Inv(state)
    }

    /** Everybody else, up to this request's next statement. */
    method Await(world: World, ghost ids: set<nat>)
      requires Tracks() && AllApart(world, ids)
      modifies this
      ensures Tracks() && start == old(start) && old(trace) <= trace
      ensures OwnOf(trace, ids) == OwnOf(old(trace), ids)
      ensures state == Run(old(state), world.Before(old(turn)))
    {
      hide Run, Inv;
      var steps := world.Before(turn);
      RunAppend(start, trace, steps);
      RunKeepsInv(state, steps);
      OthersAddNothing(trace, steps, ids);
      state := Run(state, steps);
      trace, turn := trace + steps, turn + 1;
    }

    method Do(change: Change, ghost ids: set<nat>)
      requires Tracks() && !Apart(Request(change), ids)
      modifies this
      ensures Tracks() && start == old(start) && turn == old(turn) && trace == old(trace) + [Request(change)]
      ensures OwnOf(trace, ids) == OwnOf(old(trace), ids) + [Request(change)]
      ensures state == Changed(old(state), change)
    {
      hide Run, Inv, Changed, Apart;
      RunAppend(start, trace, [Request(change)]);
      RunOne(state, Request(change));
      StepKeepsInv(state, Request(change));
      OneMoreOwn(trace, Request(change), ids);
      state := Apply(state, Request(change));
      trace := trace + [Request(change)];
    }

    /** The bytes, checked as they arrive; how many there were. */
    method Receive(arrivals: seq<Streaming.Arrival>, limit: nat, contentType: Option<string>, isSpace: char -> bool)
      returns (received: Result<nat, Streaming.UploadError>)
      ensures received.Ok? <==>
                Streaming.Clean(arrivals) && Streaming.Fits(Streaming.Joined(arrivals), limit, contentType, isSpace)
      ensures received.Ok? ==> received.value == |Streaming.Joined(arrivals)|
    {
      var writer := new Streaming.UploadWriter(limit);
      var streamed := Streaming.StreamUpload(arrivals, writer, contentType, isSpace);
      received := if streamed.Ok? then Ok(writer.written) else Err(streamed.error);
    }

    /** The ledger row, or the removal of an object without one: nothing could ever claim or collect it. */
    method RecordUpload(u: nat, id: nat, form: nat, field: string, file: File, luck: Luck,
        world: World) returns (ok: bool, ghost insertedAt: nat)
      requires Tracks() && OnItsWay(state, u, id, Stored(form, field, file))
      requires AllApart(world, {u, id, file.key})
      modifies this
      ensures Tracks() && start == old(start) && old(trace) <= trace
      ensures insertedAt < |trace| && trace[insertedAt] == Request(Insert(u, id, luck))
      ensures ok <==> luck.records && file.size > 0 && form in Run(start, trace[..insertedAt]).forms
      ensures OwnOf(trace, {u, id, file.key}) == OwnOf(old(trace), {u, id, file.key}) + [Request(Insert(u, id, luck))]
                + if ok then [] else [Request(Cleanup(u, luck.cleans))]
      ensures ok ==>
                && u !in state.uploads && file.key in state.bucket && id in state.ledger
                && state.ledger[id] == Row(form, field, file, None, state.now)
      ensures !ok ==> NoTrace(state, u, file.key) && (luck.cleans ==> file.key !in state.bucket)
    {
      hide Run, Inv, Changed, Fresh, OnItsWay, NoTrace, Insert, OwnOf;
      ghost var ids := {u, id, file.key};
      InsertIsOurs(u, id, luck, ids);
      Await(world, ids);
      OthersLeaveUpload(old(state), world.Before(old(turn)), u, id, Stored(form, field, file), ids);
      ghost var before := trace;
      insertedAt := |before|;
      ok := luck.records && form in state.forms && file.size > 0;
      InsertStep(state, u, id, form, field, file, luck);
      Do(Insert(u, id, luck), ids);
      assert trace[..insertedAt] == before && trace[insertedAt] == Request(Insert(u, id, luck));
      if !ok {
        ghost var s, k := state, turn;
        Await(world, ids);
        OthersLeaveUpload(s, world.Before(k), u, id, Unrecorded(file), ids);
        KeyedOf(state);
        EndStep(state, u, id, Unrecorded(file), Cleanup(u, luck.cleans));
        Do(Cleanup(u, luck.cleans), ids);
        assert trace[..insertedAt] == before;
      }
    }

    /** Completes the write, and records the object or takes it away again. */
    method Store(u: nat, id: nat, form: nat, field: string, file: File, luck: Luck, world: World)
      returns (ok: bool, ghost own: seq<Step>, ghost insertedAt: nat)
      requires Tracks() && Fresh(state, {u, id, file.key}) && u != id && id != file.key && file.key != u
      requires AllApart(world, {u, id, file.key})
      requires !luck.completion.NotCompleted?
      modifies this
      ensures Tracks() && start == old(start) && old(trace) <= trace && insertedAt <= |trace|
      ensures luck.completion.Completed? ==> insertedAt < |trace| && trace[insertedAt] == Request(Insert(u, id, luck))
      ensures own != []
      ensures ok <==> luck.completion.Completed? && luck.records && file.size > 0
                      && form in Run(start, trace[..insertedAt]).forms
      ensures OwnOf(trace, {u, id, file.key}) == OwnOf(old(trace), {u, id, file.key}) + own
      ensures ok ==>
                && own == [Request(Finish(u, form, field, file)), Request(Record(u, id))]
                && u !in state.uploads && file.key in state.bucket && id in state.ledger
                && state.ledger[id] == Row(form, field, file, None, state.now)
      ensures !ok ==> NoTrace(state, u, file.key) && Refusal(own, u, id, file.key, luck)
      ensures !ok && luck.cleans && !luck.completion.Unheard? ==> file.key !in state.bucket
    {
      hide Run, Inv, Changed, Fresh, OnItsWay, NoTrace, Apart, AllApart, OwnOf;
      ghost var ids := {u, id, file.key};
      FinishIsOurs(u, form, field, file, ids);
      FinishStep(state, u, id, form, field, file);
      Do(Finish(u, form, field, file), ids);
      own, insertedAt := [Request(Finish(u, form, field, file))], |trace|;
      if luck.completion.Unheard? {
        KeyedOf(state);
        EndStep(state, u, id, Stored(form, field, file), Die(u));
        Do(Die(u), ids);
        return false, own + [Request(Die(u))], insertedAt;
      }
      ok, insertedAt := RecordUpload(u, id, form, field, file, luck, world);
      own := own + [Request(Insert(u, id, luck))] + if ok then [] else [Request(Cleanup(u, luck.cleans))];
    }

    /**
     The stores are written to exactly when the field, its accept list and its limit admit what was
     declared and all that arrived. The upload is accepted exactly when then the file is not empty,
     every call succeeds and the form is still there at the insert; it has its object and its row. A
     refused one leaves no record, and nothing in the bucket unless the cleanup fails or the completed
     write is reported as failed.
     */
    method Upload(u: nat, id: nat, key: nat, form: nat, fields: seq<Validation.FieldDefinition>, fieldKey: string,
        ceiling: nat, filename: string, declared: Option<string>, arrivals: seq<Streaming.Arrival>,
        isSpace: char -> bool, luck: Luck, world: World)
      returns (result: Result<File, Streaming.UploadError>, ghost own: seq<Step>, ghost insertedAt: nat)
      requires Tracks() && Fresh(state, {u, id, key}) && u != id && id != key && key != u
      requires AllApart(world, {u, id, key})
      modifies this
      ensures Tracks() && start == old(start) && old(trace) <= trace && insertedAt <= |trace|
      ensures OwnOf(trace, {u, id, key}) == OwnOf(old(trace), {u, id, key}) + own
      ensures var contentType, bytes := ContentType(declared, isSpace), Streaming.Joined(arrivals);
              own != [] <==>
                && Admitted(fields, fieldKey, contentType, isSpace) && luck.begins && Streaming.Clean(arrivals)
                && Streaming.Fits(bytes, LimitOf(fields, fieldKey, ceiling), contentType, isSpace)
                && !luck.completion.NotCompleted?
      ensures own != [] && luck.completion.Completed? ==>
                insertedAt < |trace| && trace[insertedAt] == Request(Insert(u, id, luck))
      ensures result.Ok? <==>
                && own != [] && luck.completion.Completed? && luck.records && Streaming.Joined(arrivals) != []
                && form in Run(start, trace[..insertedAt]).forms
      ensures result.Ok? ==>
                && ContentType(declared, isSpace).Some?
                && result.value == File(key, filename, ContentType(declared, isSpace).value,
                                        |Streaming.Joined(arrivals)|)
                && own == [Request(Finish(u, form, fieldKey, result.value)), Request(Record(u, id))]
                && u !in state.uploads && key in state.bucket && id in state.ledger
                && state.ledger[id] == Row(form, fieldKey, result.value, None, state.now)
      ensures result.Err? ==> NoTrace(state, u, key)
      ensures result.Err? && luck.cleans && !luck.completion.Unheard? ==> key !in state.bucket
      ensures result.Err? ==> Refusal(own, u, id, key, luck)
      ensures !Admitted(fields, fieldKey, ContentType(declared, isSpace), isSpace) ==> result == Err(Streaming.Rejected)
    {
      hide Run, Inv, Changed, Fresh, OnItsWay, NoTrace, Insert, Apart, Admitted, ContentType, LimitOf, OwnOf;
      hide Streaming.Clean, Streaming.Joined, Streaming.Fits;
      ghost var ids, s, k := {u, id, key}, state, turn;
      own, insertedAt := [], |trace|;
      NothingYet(state, u, id, key);
      var contentType := ContentType(declared, isSpace);
      if !Admitted(fields, fieldKey, contentType, isSpace) {
        return Err(Streaming.Rejected), own, insertedAt;
      }
      if !luck.begins {
        return Err(Streaming.Internal), own, insertedAt;
      }
      Await(world, ids);
      OthersStayApart(s, world.Before(k), ids);
      NothingYet(state, u, id, key);
      insertedAt := |trace|;
      var received := Receive(arrivals, LimitOf(fields, fieldKey, ceiling), contentType, isSpace);
      if received.Err? || luck.completion.NotCompleted? {
        // The write is thrown away before it ever became an object.
        return Err(if received.Err? then received.error else Streaming.Internal), own, insertedAt;
      }
      AdmittedHasType(fields, fieldKey, contentType, isSpace);
      var file := File(key, filename, contentType.value, received.value);
      var ok;
      ok, own, insertedAt := Store(u, id, form, fieldKey, file, luck, world);
      result := if ok then Ok(file) else Err(Streaming.Internal);
    }
  }
}
