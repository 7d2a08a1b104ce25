/**
 Whether an accepted definition can be submitted at all: a payload that passes the check, and an upload
 that passes for every file it names.
 */
module Submitting {
  import opened Common
  import opened Json
  import opened Strings
  import opened Validation
  import Streaming
  import UploadService

  // ---------- Which file fields can be uploaded to ----------

  /** What a header value can be read as: visible ASCII, spaces and tabs. */
  predicate HeaderText(text: string) {
    forall i :: 0 <= i < |text| ==> ' ' <= text[i] <= '~' || text[i] == '\t'
  }

  /** Nothing a header cannot carry, and no parameters. */
  predicate Plain(text: string) {
    ';' !in text && HeaderText(text)
  }

  predicate Storable(fields: seq<FieldDefinition>, key: string, ceiling: nat, declared: Option<string>,
      bytes: seq<Streaming.byte>, isSpace: char -> bool)
  {
    var contentType := UploadService.ContentType(declared, isSpace);
    && UploadService.Admitted(fields, key, contentType, isSpace) && bytes != []
    && Streaming.Fits(bytes, UploadService.LimitOf(fields, key, ceiling), contentType, isSpace)
  }

  /** Some request gets a file into the field. */
  ghost predicate Uploadable(fields: seq<FieldDefinition>, key: string, ceiling: nat, isSpace: char -> bool) {
    exists declared: Option<string>, bytes ::
      (declared.Some? ==> HeaderText(declared.value)) && Storable(fields, key, ceiling, declared, bytes, isSpace)
  }

  /** An entry some declared type can match: not blank, no parameters, nothing a header cannot carry. */
  predicate UsableEntry(allowed: string, isSpace: char -> bool) {
    var entry := Entry(allowed, isSpace);
    entry != "" && Plain(entry)
  }

  predicate AcceptsSomething(field: FieldDefinition, isSpace: char -> bool) {
    field.accept.Some? ==> exists allowed :: allowed in field.accept.value && UsableEntry(allowed, isSpace)
  }

  lemma LowerKeeps(text: string)
    ensures |Lower(text, AsciiLower)| == |text|
    ensures ';' in Lower(text, AsciiLower) <==> ';' in text
    ensures HeaderText(Lower(text, AsciiLower)) <==> HeaderText(text)
  {
    var lower := Lower(text, AsciiLower);
    assert forall i :: 0 <= i < |text| ==> (lower[i] == ';' <==> text[i] == ';');
    assert forall i :: 0 <= i < |text| ==>
      (' ' <= lower[i] <= '~' || lower[i] == '\t' <==> ' ' <= text[i] <= '~' || text[i] == '\t');
  }

  lemma NoStop(text: string, stop: char)
    requires stop !in text
    ensures UpTo(text, stop) == text
  {
    UpToIsUnique(text, text, stop);
  }

  /** Declaring the entry itself is declaring a type it takes. */
  lemma UsableIsDeclarable(allowed: string, isSpace: char -> bool)
    requires UsableEntry(allowed, isSpace)
    ensures HeaderText(Trim(allowed, isSpace))
    ensures UploadService.ContentType(Some(Trim(allowed, isSpace)), isSpace) == Some(Entry(allowed, isSpace))
    ensures MediaTypeMatches(allowed, Entry(allowed, isSpace), isSpace)
  {
    LowerKeeps(Trim(allowed, isSpace));
    NoStop(Trim(allowed, isSpace), ';');
    TrimmedStaysTrimmed(allowed, isSpace);
  }

  lemma PartIsPlain(text: string, i: nat, j: nat)
    requires i <= j <= |text| && HeaderText(text)
    ensures HeaderText(text[i..j]) && (';' !in text ==> ';' !in text[i..j])
  {
    assert forall k :: 0 <= k < j - i ==> text[i..j][k] == text[i + k] && text[i + k] in text;
  }

  lemma TrimmedIsPlain(text: string, isSpace: char -> bool)
    requires Plain(text)
    ensures Plain(Trim(text, isSpace))
  {
    hide Trim, Blank, HeaderText;
    TrimTrims(text, isSpace);
    var i, j :| 0 <= i <= j <= |text| && Trim(text, isSpace) == text[i..j];
    PartIsPlain(text, i, j);
  }

  /** A declared type is not blank, has no parameters, and came in a header. */
  lemma DeclaredIsPlain(declared: string, isSpace: char -> bool)
    requires HeaderText(declared)
    ensures var contentType := UploadService.ContentType(Some(declared), isSpace);
            contentType.Some? ==> contentType.value != "" && Plain(contentType.value)
  {
    hide Trim, Lower, AsciiLower, HeaderText, UpTo;
    var head := UpTo(declared, ';');
    PartIsPlain(declared, 0, |head|);
    assert declared[0..|head|] == head;
    TrimmedIsPlain(head, isSpace);
    LowerKeeps(Trim(head, isSpace));
  }

  lemma MatchedIsUsable(allowed: string, contentType: string, isSpace: char -> bool)
    requires contentType != "" && Plain(contentType)
    requires MediaTypeMatches(allowed, contentType, isSpace)
    ensures UsableEntry(allowed, isSpace)
  {
    var entry := Entry(allowed, isSpace);
    var kind := UpTo(entry, '/');
    StarEntry(entry);
    if IsStar(entry, kind) {
      assert kind <= contentType;
      assert forall i :: 0 <= i < |kind| ==> entry[i] == contentType[i];
      assert forall i :: |kind| <= i < |entry| ==> entry[i] == "/*"[i - |kind|];
    }
  }

  /** One byte that starts like nothing known agrees with every declared type. */
  lemma OneByteFits(limit: nat, contentType: Option<string>, isSpace: char -> bool)
    requires limit > 0
    ensures Streaming.Fits([0], limit, contentType, isSpace)
  {
  }

  lemma UploadedIsUsable(fields: seq<FieldDefinition>, key: string, ceiling: nat, isSpace: char -> bool)
    requires Uploadable(fields, key, ceiling, isSpace)
    ensures Field(fields, key).Some? && AcceptsSomething(Field(fields, key).value, isSpace)
  {
    hide Entry, MediaTypeMatches, UsableEntry, Streaming.Fits, UploadService.ContentType, HeaderText;
    var declared: Option<string>, bytes :| (declared.Some? ==> HeaderText(declared.value))
        && Storable(fields, key, ceiling, declared, bytes, isSpace);
    NothingDeclared(isSpace);
    DeclaredIsPlain(declared.value, isSpace);
    var field, contentType := Field(fields, key).value, UploadService.ContentType(declared, isSpace).value;
    if field.accept.Some? {
      var allowed :| allowed in field.accept.value && MediaTypeMatches(allowed, contentType, isSpace);
      MatchedIsUsable(allowed, contentType, isSpace);
    }
  }

  /** What can be uploaded to a file field is decided by its accept list alone. */
  lemma UploadableExactly(fields: seq<FieldDefinition>, key: string, ceiling: nat, syntax: Syntax, samples: Samples)
    requires ceiling > 0 && Field(fields, key).Some? && Field(fields, key).value.fieldType.FileField?
    requires RulesOk(Field(fields, key).value) && Sensible(syntax, samples)
    ensures Uploadable(fields, key, ceiling, syntax.isSpace)
            <==> AcceptsSomething(Field(fields, key).value, syntax.isSpace)
  {
    hide AcceptsSomething, Accepts, Streaming.Fits, UploadService.ContentType, HeaderText, Sensible;
    var field, isSpace := Field(fields, key).value, syntax.isSpace;
    if Uploadable(fields, key, ceiling, isSpace) { UploadedIsUsable(fields, key, ceiling, isSpace); }
    if AcceptsSomething(field, isSpace) {
      var declared := SomeType(field, syntax, samples);
      OneByteFits(UploadService.LimitOf(fields, key, ceiling), UploadService.ContentType(declared, isSpace), isSpace);
      assert Storable(fields, key, ceiling, declared, [0], isSpace);
    }
  }

  lemma NothingDeclared(isSpace: char -> bool)
    ensures UploadService.ContentType(None, isSpace).None?
  {
  }

  lemma SomeType(field: FieldDefinition, syntax: Syntax, samples: Samples) returns (declared: Option<string>)
    requires AcceptsSomething(field, syntax.isSpace) && Sensible(syntax, samples)
    ensures declared.Some? && HeaderText(declared.value)
    ensures var contentType := UploadService.ContentType(declared, syntax.isSpace);
            contentType.Some? && Accepts(field, contentType.value, syntax.isSpace)
  {
    hide UsableEntry, Sensible, MediaTypeMatches, Entry, HeaderText, UploadService.ContentType;
    if field.accept.Some? {
      var allowed :| allowed in field.accept.value && UsableEntry(allowed, syntax.isSpace);
      UsableIsDeclarable(allowed, syntax.isSpace);
      declared := Some(Trim(allowed, syntax.isSpace));
    } else {
      declared := LetterType(syntax, samples);
    }
  }

  lemma LetterType(syntax: Syntax, samples: Samples) returns (declared: Option<string>)
    requires Sensible(syntax, samples)
    ensures declared.Some? && HeaderText(declared.value)
    ensures UploadService.ContentType(declared, syntax.isSpace).Some?
  {
    hide Lower, AsciiLower, Trim, UpTo;
    var text := [samples.letter];
    assert text[0] == samples.letter;
    NoStop(text, ';');
    TrimTrims(text, syntax.isSpace);
    LowerKeeps(Trim(text, syntax.isSpace));
    declared := Some(text);
  }

  // ---------- When an accepted definition can be submitted ----------

  /** The largest upload the deployment takes, and the longest text a request can carry as an answer. */
  datatype Limits = Limits(upload: nat, answer: nat)

  predicate Carried(payload: map<string, Value>, limits: Limits) {
    forall key :: key in payload && payload[key].Text? ==> |payload[key].text| <= limits.answer
  }

  /** Every file the payload names is one its field could have been sent. */
  ghost predicate FilesUploadable(schema: FormSchema, payload: map<string, Value>, limits: Limits, syntax: Syntax) {
    forall i ::
      (&& 0 <= i < |schema.fields| && schema.fields[i].fieldType.FileField?
       && schema.fields[i].key in payload && payload[schema.fields[i].key].Text?) ==>
        Uploadable(schema.fields, schema.fields[i].key, limits.upload, syntax.isSpace)
  }

  ghost predicate GetsThrough(schema: FormSchema, payload: map<string, Value>, limits: Limits, syntax: Syntax) {
    Conforming(schema, payload, syntax) && Carried(payload, limits) && FilesUploadable(schema, payload, limits, syntax)
  }

  /** Some payload gets through, files and all. */
  ghost predicate Submittable(schema: FormSchema, limits: Limits, syntax: Syntax) {
    exists payload :: GetsThrough(schema, payload, limits, syntax)
  }

  /** What is assumed of the parsers: a letter, a date, and the lengths an address can have. */
  datatype Samples = Samples(letter: char, day: string, shortest: nat, longest: nat)

  ghost predicate HasAddress(syntax: Syntax, length: nat) {
    exists text :: syntax.isEmail(text) && |text| == length && !Blank(text, syntax.isSpace)
  }

  /** White space is not everything, there is a date, and there are addresses of exactly these lengths. */
  ghost predicate Sensible(syntax: Syntax, samples: Samples) {
    && !syntax.isSpace(samples.letter) && HeaderText([samples.letter]) && samples.letter != ';'
    && syntax.isDate(samples.day) && !Blank(samples.day, syntax.isSpace)
    && samples.longest < TWO_TO_32
    && (forall text :: syntax.isEmail(text) ==> samples.shortest <= |text| <= samples.longest)
    && (forall n :: samples.shortest <= n <= samples.longest ==> HasAddress(syntax, n))
  }

  /** There is room for some file and for a date. */
  predicate Workable(limits: Limits, samples: Samples) {
    limits.upload > 0 && |samples.day| <= limits.answer
  }

  /** The shortest text that is not empty and counts as within the bounds; the count wraps. */
  function Shortest(field: FieldDefinition): nat {
    if Least(field) > 0 then Least(field) else if Most(field) > 0 then 1 else TWO_TO_32
  }

  /**
   Whether a required field can be answered: text needs bounds that leave room, the default maximum
   included, and a shortest text a request can carry; a select an option that is not blank, an address
   a length that addresses have, and a file field an accept list some declared type can match.
   */
  predicate Answerable(field: FieldDefinition, syntax: Syntax, samples: Samples, limits: Limits) {
    match field.fieldType
    case TextField => Least(field) <= Most(field) && Shortest(field) <= limits.answer
    case Textarea => Least(field) <= Most(field) && Shortest(field) <= limits.answer
    case Email => Max(Least(field), samples.shortest) <= Min(Min(Most(field), samples.longest), limits.answer)
    case Select =>
      && field.options.Some?
      && exists text :: text in field.options.value && !Blank(text, syntax.isSpace) && |text| <= limits.answer
    case FileField => AcceptsSomething(field, syntax.isSpace)
    case _ => true
  }

  predicate AllAnswerable(schema: FormSchema, syntax: Syntax, samples: Samples, limits: Limits) {
    forall i :: 0 <= i < |schema.fields| && schema.fields[i].required ==>
                  Answerable(schema.fields[i], syntax, samples, limits)
  }

  ghost predicate IsAnswer(field: FieldDefinition, value: Value, syntax: Syntax, limits: Limits) {
    && !value.Null? && Conforms(field, value, syntax)
    && (value.Text? ==> !Blank(value.text, syntax.isSpace) && |value.text| <= limits.answer)
  }

  ghost function AddressFor(field: FieldDefinition, syntax: Syntax, samples: Samples, limits: Limits): (value: Value)
    requires Sensible(syntax, samples) && field.fieldType.Email? && Answerable(field, syntax, samples, limits)
    ensures IsAnswer(field, value, syntax, limits)
  {
    var length := Max(Least(field), samples.shortest);
    assert HasAddress(syntax, length);
    var text :| syntax.isEmail(text) && |text| == length && !Blank(text, syntax.isSpace);
    Text(text)
  }

  predicate Fits32(field: FieldDefinition) {
    (field.minLength.Some? ==> field.minLength.value < TWO_TO_32)
        && (field.maxLength.Some? ==> field.maxLength.value < TWO_TO_32)
  }

  /** An answer for every answerable field. */
  ghost function Sample(field: FieldDefinition, syntax: Syntax, samples: Samples, limits: Limits): (value: Value)
    requires Sensible(syntax, samples) && Workable(limits, samples)
    requires RulesOk(field) && Fits32(field) && Answerable(field, syntax, samples, limits)
    ensures IsAnswer(field, value, syntax, limits)
  {
    match field.fieldType
    case TextField => LetterText(field, syntax, samples.letter)
    case Textarea => LetterText(field, syntax, samples.letter)
    case Email => AddressFor(field, syntax, samples, limits)
    case NumberField =>
      Number(if field.min.Some? then field.min.value else if field.max.Some? then field.max.value else 0.0)
    case Date => Text(samples.day)
    case Select =>
      var text :| text in field.options.value && !Blank(text, syntax.isSpace) && |text| <= limits.answer;
      Text(text)
    case Checkbox => Flag(false)
    case FileField => assert [samples.letter][0] == samples.letter; Text([samples.letter])
  }

  ghost function LetterText(field: FieldDefinition, syntax: Syntax, letter: char): (value: Value)
    requires !syntax.isSpace(letter) && Fits32(field) && Least(field) <= Most(field)
    ensures value.Text? && LengthOk(field, value.text) && !Blank(value.text, syntax.isSpace)
    ensures |value.text| == Shortest(field)
  {
    var text := seq(Shortest(field), _ => letter);
    assert text[0] == letter;
    Text(text)
  }

  lemma NothingIsShorter(field: FieldDefinition, text: string)
    requires text != "" && LengthOk(field, text)
    ensures Shortest(field) <= |text|
  {
  }

  lemma AnswerableIsNeeded(schema: FormSchema, payload: map<string, Value>, i: nat, limits: Limits, syntax: Syntax,
      samples: Samples)
    requires ValidSchema(schema, syntax) && GetsThrough(schema, payload, limits, syntax)
    requires i < |schema.fields| && schema.fields[i].required
    requires schema.fields[i].fieldType.Email? ==> Sensible(syntax, samples)
    ensures Answerable(schema.fields[i], syntax, samples, limits)
  {
    hide AcceptsSomething, Uploadable;
    var field := schema.fields[i];
    assert FieldOk(schema.fields, i, syntax) && RequiredOk(payload, field, syntax);
    assert KeyOk(schema, payload, field.key, syntax);
    FieldIsFirst(schema, i, syntax);
    assert Conforms(field, payload[field.key], syntax);
    if field.fieldType.TextField? || field.fieldType.Textarea? { NothingIsShorter(field, payload[field.key].text); }
    if field.fieldType.FileField? { UploadedIsUsable(schema.fields, field.key, limits.upload, syntax.isSpace); }
  }

  ghost predicate RequiredKeys(schema: FormSchema, keys: set<string>) {
    forall key :: key in keys <==>
      exists i :: 0 <= i < |schema.fields| && schema.fields[i].required && schema.fields[i].key == key
  }

  lemma RequiredIsAnswerable(schema: FormSchema, keys: set<string>, key: string, syntax: Syntax, samples: Samples,
      limits: Limits)
    requires ValidSchema(schema, syntax) && AllAnswerable(schema, syntax, samples, limits)
    requires forall i :: 0 <= i < |schema.fields| ==> Fits32(schema.fields[i])
    requires RequiredKeys(schema, keys) && key in keys
    ensures var found := Field(schema.fields, key);
            && found.Some? && found.value.required && RulesOk(found.value) && Fits32(found.value)
            && Answerable(found.value, syntax, samples, limits)
  {
    hide Fits32, Answerable;
    var i :| 0 <= i < |schema.fields| && schema.fields[i].required && schema.fields[i].key == key;
    FieldIsFirst(schema, i, syntax);
    assert FieldOk(schema.fields, i, syntax);
  }

  lemma SamplesUploadable(schema: FormSchema, payload: map<string, Value>, limits: Limits, syntax: Syntax,
      samples: Samples)
    requires ValidSchema(schema, syntax) && Sensible(syntax, samples) && Workable(limits, samples)
    requires forall i :: 0 <= i < |schema.fields| ==> Fits32(schema.fields[i])
    requires AllAnswerable(schema, syntax, samples, limits) && RequiredKeys(schema, payload.Keys)
    ensures FilesUploadable(schema, payload, limits, syntax)
  {
    hide ValidSchema, Sensible, AllAnswerable, Fits32, RequiredKeys, Uploadable, AcceptsSomething, RulesOk;
    forall i | 0 <= i < |schema.fields| && schema.fields[i].fieldType.FileField? && schema.fields[i].key in payload
      ensures Uploadable(schema.fields, schema.fields[i].key, limits.upload, syntax.isSpace)
    {
      var key := schema.fields[i].key;
      RequiredIsAnswerable(schema, payload.Keys, key, syntax, samples, limits);
      FieldIsFirst(schema, i, syntax);
      UploadableExactly(schema.fields, key, limits.upload, syntax, samples);
    }
  }

  lemma SamplesConform(schema: FormSchema, limits: Limits, syntax: Syntax, samples: Samples)
    requires ValidSchema(schema, syntax) && Sensible(syntax, samples) && Workable(limits, samples)
    requires forall i :: 0 <= i < |schema.fields| ==> Fits32(schema.fields[i])
    requires AllAnswerable(schema, syntax, samples, limits)
    ensures Submittable(schema, limits, syntax)
  {
    hide ValidSchema, Sensible, AllAnswerable, Fits32, Answerable, FilesUploadable, Conforms, RulesOk;
    var keys := set i | 0 <= i < |schema.fields| && schema.fields[i].required :: schema.fields[i].key;
    forall key | key in keys
      ensures var found := Field(schema.fields, key);
              && found.Some? && found.value.required && RulesOk(found.value) && Fits32(found.value)
              && Answerable(found.value, syntax, samples, limits)
    {
      RequiredIsAnswerable(schema, keys, key, syntax, samples, limits);
    }
    var payload := map key | key in keys :: Sample(Field(schema.fields, key).value, syntax, samples, limits);
    forall i | 0 <= i < |schema.fields| ensures RequiredOk(payload, schema.fields[i], syntax) {
      if schema.fields[i].required { assert schema.fields[i].key in keys; }
    }
    assert Conforming(schema, payload, syntax);
    SamplesUploadable(schema, payload, limits, syntax, samples);
    assert GetsThrough(schema, payload, limits, syntax);
  }

  /**
   An accepted definition is not always submittable, as its documentation says. It is exactly when
   every required field can be answered.
   */
  lemma SubmittableExactly(schema: FormSchema, limits: Limits, syntax: Syntax, samples: Samples)
    requires ValidSchema(schema, syntax) && Sensible(syntax, samples) && Workable(limits, samples)
    requires forall i :: 0 <= i < |schema.fields| ==> Fits32(schema.fields[i])
    ensures Submittable(schema, limits, syntax) <==> AllAnswerable(schema, syntax, samples, limits)
  {
    hide ValidSchema, GetsThrough, Answerable, Sensible;
    if payload :| GetsThrough(schema, payload, limits, syntax) {
      forall i | 0 <= i < |schema.fields| && schema.fields[i].required
        ensures Answerable(schema.fields[i], syntax, samples, limits)
      {
        AnswerableIsNeeded(schema, payload, i, limits, syntax, samples);
      }
    }
    if AllAnswerable(schema, syntax, samples, limits) {
      SamplesConform(schema, limits, syntax, samples);
    }
  }

  // ---------- Accepted, and never submitted ----------

  lemma OneRequiredField(schema: FormSchema, limits: Limits, syntax: Syntax)
    requires ValidSchema(schema, syntax) && |schema.fields| == 1 && schema.fields[0].required
    requires !schema.fields[0].fieldType.Email?
    requires forall samples :: !Answerable(schema.fields[0], syntax, samples, limits)
    ensures !Submittable(schema, limits, syntax)
  {
    hide ValidSchema, GetsThrough, Answerable;
    var samples := Samples('C', "", 0, 0);
    if payload :| GetsThrough(schema, payload, limits, syntax) {
      AnswerableIsNeeded(schema, payload, 0, limits, syntax, samples);
    }
  }

  function Essay(minLength: Option<nat>, maxLength: Option<nat>): FormSchema {
    FormSchema("Contact",
      [FieldDefinition("essay", TextField, "Essay", true, minLength, maxLength, None, None, None, None, None)])
  }

  /** A minimum length above the default maximum, or a maximum length of zero. */
  lemma AcceptedButNotSubmittable(limits: Limits, syntax: Syntax)
    requires !syntax.isSpace('C') && !syntax.isSpace('E') && limits.answer < TWO_TO_32
    ensures forall schema :: schema == Essay(Some(10_001), None) || schema == Essay(None, Some(0)) ==>
              ValidSchema(schema, syntax) && !Submittable(schema, limits, syntax)
  {
    forall schema | schema == Essay(Some(10_001), None) || schema == Essay(None, Some(0))
      ensures ValidSchema(schema, syntax) && !Submittable(schema, limits, syntax)
    {
      assert schema.title[0] == 'C' && schema.fields[0].caption[0] == 'E';
      assert FieldOk(schema.fields, 0, syntax);
      OneRequiredField(schema, limits, syntax);
    }
  }

  function Application(accept: seq<string>): FormSchema {
    FormSchema("Job", [FieldDefinition("cv", FileField, "CV", true, None, None, None, None, None, None, Some(accept))])
  }

  /** An accept list without entries, or with one that has a parameter. */
  lemma AcceptedButNotUploadable(limits: Limits, syntax: Syntax)
    requires !syntax.isSpace('J') && !syntax.isSpace('C') && !syntax.isSpace('t') && !syntax.isSpace('8')
    ensures forall accept :: accept == [] || accept == ["text/csv; charset=utf-8"] ==>
              ValidSchema(Application(accept), syntax) && !Submittable(Application(accept), limits, syntax)
  {
    forall accept: seq<string> | accept == [] || accept == ["text/csv; charset=utf-8"]
      ensures ValidSchema(Application(accept), syntax) && !Submittable(Application(accept), limits, syntax)
    {
      var schema := Application(accept);
      assert schema.title[0] == 'J' && schema.fields[0].caption[0] == 'C';
      assert FieldOk(schema.fields, 0, syntax);
      ParameterIsUnusable(syntax.isSpace);
      assert !AcceptsSomething(schema.fields[0], syntax.isSpace);
      OneRequiredField(schema, limits, syntax);
    }
  }

  lemma ParameterIsUnusable(isSpace: char -> bool)
    requires !isSpace('t') && !isSpace('8')
    ensures !UsableEntry("text/csv; charset=utf-8", isSpace)
  {
    var text := "text/csv; charset=utf-8";
    assert text[0] == 't' && text[|text| - 1] == '8' && text[8] == ';';
    assert Trim(text, isSpace) == text;
    LowerKeeps(text);
  }
}
