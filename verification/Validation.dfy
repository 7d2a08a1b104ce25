/**
 The form definition and the payload check built on it. Both validators are loops that collect every
 problem; each is proved against a declarative reading of what it accepts.

 Parsing of addresses and dates, and what counts as white space, are parameters.
 */
module Validation {
  import opened Common
  import opened Json
  import opened Strings

  const RESERVED_PREFIX := '_'
  const MAX_FIELDS := 50
  const MAX_KEY_LENGTH := 64
  const MAX_OPTIONS := 100
  const MAX_LABEL_LENGTH := 200
  const MAX_TEXT_LENGTH: nat := 10_000
  const TWO_TO_32: nat := 0x1_0000_0000

  datatype FieldType = TextField | Textarea | Email | NumberField | Date | Select | Checkbox | FileField

  datatype FieldDefinition = FieldDefinition(
    key: string,
    fieldType: FieldType,
    caption: string,
    required: bool,
    minLength: Option<nat>,
    maxLength: Option<nat>,
    min: Option<real>,
    max: Option<real>,
    options: Option<seq<string>>,
    maxBytes: Option<nat>,
    accept: Option<seq<string>>)

  datatype FormSchema = FormSchema(title: string, fields: seq<FieldDefinition>)

  /** The parsers the checks lean on. */
  datatype Syntax = Syntax(isSpace: char -> bool, isEmail: string -> bool, isDate: string -> bool)

  predicate Reserved(key: string) {
    key != "" && key[0] == RESERVED_PREFIX
  }

  /** The first field with that key. */
  function Field(fields: seq<FieldDefinition>, key: string): (field: Option<FieldDefinition>)
    ensures field.Some? ==> field.value in fields && field.value.key == key
    ensures field.None? <==> forall i :: 0 <= i < |fields| ==> fields[i].key != key
  {
    if fields == [] then None
    else if fields[0].key == key then Some(fields[0])
    else Field(fields[1..], key)
  }

  // ---------- What a file field accepts ----------

  /** How an entry is compared: trimmed, and in lower case. */
  function Entry(allowed: string, isSpace: char -> bool): string {
    Lower(Trim(allowed, isSpace), AsciiLower)
  }

  /** One `accept` entry against a media type; a subtype of `*` takes every type of that kind. */
  predicate MediaTypeMatches(allowed: string, contentType: string, isSpace: char -> bool) {
    var entry := Entry(allowed, isSpace);
    var kind := UpTo(entry, '/');
    if |kind| < |entry| && entry[|kind| + 1..] == "*" then UpTo(contentType, '/') == kind else contentType == entry
  }

  /** No list at all takes every type. */
  predicate Accepts(field: FieldDefinition, contentType: string, isSpace: char -> bool) {
    field.accept.Some? ==>
      exists allowed :: allowed in field.accept.value && MediaTypeMatches(allowed, contentType, isSpace)
  }

  lemma {:induction false} UpToIsUnique(text: string, head: string, stop: char)
    requires head <= text && stop !in head && (|head| < |text| ==> text[|head|] == stop)
    ensures UpTo(text, stop) == head
  {
    if head != "" {
      UpToIsUnique(text[1..], head[1..], stop);
    }
  }

  predicate IsStar(entry: string, kind: string) {
    '/' !in kind && entry == kind + "/*"
  }

  /** Splitting at the first slash finds the star exactly in the entries that are a kind and a star. */
  lemma StarEntry(entry: string)
    ensures var kind := UpTo(entry, '/');
            && (|kind| < |entry| && entry[|kind| + 1..] == "*" <==> IsStar(entry, kind))
            && (forall other :: IsStar(entry, other) ==> other == kind)
  {
    var kind := UpTo(entry, '/');
    assert |kind| < |entry| && entry[|kind| + 1..] == "*" ==> entry == kind + "/*";
    forall other | IsStar(entry, other) ensures other == kind {
      UpToIsUnique(entry, other, '/');
    }
  }

  lemma KindTakes(kind: string, contentType: string)
    requires '/' !in kind
    ensures UpTo(contentType, '/') == kind <==> contentType == kind || kind + "/" <= contentType
  {
    if contentType == kind || kind + "/" <= contentType {
      assert kind + "/" <= contentType ==> contentType[|kind|] == (kind + "/")[|kind|];
      UpToIsUnique(contentType, kind, '/');
    }
  }

  /** An entry with a star for its subtype takes exactly its kind and the types under it; any other only itself. */
  lemma WildcardTakesItsKind(allowed: string, contentType: string, isSpace: char -> bool)
    ensures var entry := Entry(allowed, isSpace);
            && (forall kind :: IsStar(entry, kind) ==>
                  (MediaTypeMatches(allowed, contentType, isSpace)
                   <==> contentType == kind || kind + "/" <= contentType))
            && ((forall kind :: !IsStar(entry, kind)) ==>
                  (MediaTypeMatches(allowed, contentType, isSpace) <==> contentType == entry))
  {
    hide Entry, UpTo;
    var entry := Entry(allowed, isSpace);
    StarEntry(entry);
    KindTakes(UpTo(entry, '/'), contentType);
  }

  // ---------- The definition ----------

  predicate ValidKey(key: string) {
    && 0 < |key| <= MAX_KEY_LENGTH
    && 'a' <= key[0] <= 'z'
    && forall i :: 0 <= i < |key| ==> 'a' <= key[i] <= 'z' || '0' <= key[i] <= '9' || key[i] == '_'
  }

  /** Rules that make sense of a field's type-specific settings. */
  predicate RulesOk(field: FieldDefinition) {
    && (field.minLength.Some? && field.maxLength.Some? ==> field.minLength.value <= field.maxLength.value)
    && (field.min.Some? && field.max.Some? ==> field.min.value <= field.max.value)
    && (field.fieldType.Select? ==> field.options.Some? && 0 < |field.options.value| <= MAX_OPTIONS)
    && (field.fieldType.FileField? ==> field.maxBytes != Some(0))
    && (!field.fieldType.Select? && !field.fieldType.FileField? ==> field.options.None?)
    && (!field.fieldType.NumberField? ==> field.min.None? && field.max.None?)
  }

  predicate FirstOfItsKey(fields: seq<FieldDefinition>, i: nat)
    requires i < |fields|
  {
    forall j :: 0 <= j < i ==> fields[j].key != fields[i].key
  }

  predicate FieldOk(fields: seq<FieldDefinition>, i: nat, syntax: Syntax)
    requires i < |fields|
  {
    && ValidKey(fields[i].key) && FirstOfItsKey(fields, i)
    && !Blank(fields[i].caption, syntax.isSpace) && |fields[i].caption| <= MAX_LABEL_LENGTH
    && RulesOk(fields[i])
  }

  predicate ValidSchema(schema: FormSchema, syntax: Syntax) {
    && !Blank(schema.title, syntax.isSpace) && 0 < |schema.fields| <= MAX_FIELDS
    && forall i :: 0 <= i < |schema.fields| ==> FieldOk(schema.fields, i, syntax)
  }

  datatype SchemaProblem =
    | EmptyTitle | NoFields | TooManyFields
    | BadKey(at: nat) | UsedTwice(at: nat) | ReservedKey(at: nat) | BadLabel(at: nat) | BadRules(at: nat)

  predicate About(problem: SchemaProblem, i: nat) {
    !problem.EmptyTitle? && !problem.NoFields? && !problem.TooManyFields? && problem.at == i
  }

  /** What a problem with a field says is true of it. */
  predicate SchemaFair(fields: seq<FieldDefinition>, problem: SchemaProblem, syntax: Syntax) {
    match problem
    case BadKey(i) => i < |fields| && !ValidKey(fields[i].key)
    case UsedTwice(i) => i < |fields| && !FirstOfItsKey(fields, i)
    case ReservedKey(i) => i < |fields| && Reserved(fields[i].key)
    case BadLabel(i) => i < |fields|
        && (Blank(fields[i].caption, syntax.isSpace) || |fields[i].caption| > MAX_LABEL_LENGTH)
    case BadRules(i) => i < |fields| && !RulesOk(fields[i])
    case EmptyTitle => true
    case NoFields => fields == []
    case TooManyFields => |fields| > MAX_FIELDS
  }

  method ValidateFieldRules(field: FieldDefinition, at: nat) returns (found: seq<SchemaProblem>)
    ensures forall p :: p in found ==> p == BadRules(at)
    ensures found == [] <==> RulesOk(field)
  {
    found := [];
    if field.minLength.Some? && field.maxLength.Some? && field.minLength.value > field.maxLength.value {
      found := found + [BadRules(at)];
    }
    if field.min.Some? && field.max.Some? && field.min.value > field.max.value {
      found := found + [BadRules(at)];
    }
    match field.fieldType {
      case Select =>
        if field.options.None? || field.options.value == [] || |field.options.value| > MAX_OPTIONS {
          found := found + [BadRules(at)];
        }
      case FileField =>
        if field.maxBytes == Some(0) {
          found := found + [BadRules(at)];
        }
      case _ =>
        if field.options.Some? {
          found := found + [BadRules(at)];
        }
    }
    if !field.fieldType.NumberField? && (field.min.Some? || field.max.Some?) {
      found := found + [BadRules(at)];
    }
  }

  method ValidateField(fields: seq<FieldDefinition>, i: nat, seen: set<string>, syntax: Syntax,
      problems: seq<SchemaProblem>)
    returns (all: seq<SchemaProblem>)
    requires i < |fields| && seen == set j | 0 <= j < i :: fields[j].key
    ensures problems <= all
    ensures forall p :: p in all[|problems|..] ==> About(p, i) && SchemaFair(fields, p, syntax)
    ensures |all| == |problems| <==> FieldOk(fields, i, syntax)
  {
    hide RulesOk, ValidKey, Blank, FirstOfItsKey;
    var field := fields[i];
    var own: seq<SchemaProblem> := [];
    if !ValidKey(field.key) {
      own := own + [BadKey(i)];
    }
    SeenBefore(fields, i, seen);
    if field.key in seen {
      own := own + [UsedTwice(i)];
    }
    ReservedIsInvalid(field.key);
    if Reserved(field.key) {
      own := own + [ReservedKey(i)];
    }
    if Blank(field.caption, syntax.isSpace) || |field.caption| > MAX_LABEL_LENGTH {
      own := own + [BadLabel(i)];
    }
    var rules := ValidateFieldRules(field, i);
    own := own + rules;
    all := problems + own;
    assert all[|problems|..] == own;
  }

  lemma SeenBefore(fields: seq<FieldDefinition>, i: nat, seen: set<string>)
    requires i < |fields| && seen == set j | 0 <= j < i :: fields[j].key
    ensures fields[i].key in seen <==> !FirstOfItsKey(fields, i)
  {
  }

  lemma ReservedIsInvalid(key: string)
    ensures Reserved(key) ==> !ValidKey(key)
  {
  }

  /**
   Accepts exactly the valid definitions, and otherwise names every field that breaks a rule and no
   field that does not.
   */
  method ValidateSchema(schema: FormSchema, syntax: Syntax) returns (result: Result<(), seq<SchemaProblem>>)
    ensures result.Ok? <==> ValidSchema(schema, syntax)
    ensures result.Err? ==>
              && result.error != []
              && (forall i :: 0 <= i < |schema.fields| ==>
                    ((exists p :: p in result.error && About(p, i)) <==> !FieldOk(schema.fields, i, syntax)))
              && (forall p :: p in result.error ==> SchemaFair(schema.fields, p, syntax))
              && (EmptyTitle in result.error <==> Blank(schema.title, syntax.isSpace))
  {
    hide FieldOk, Blank, ValidKey, RulesOk, FirstOfItsKey;
    var problems: seq<SchemaProblem> := [];
    if Blank(schema.title, syntax.isSpace) {
      problems := problems + [EmptyTitle];
    }
    if schema.fields == [] {
      problems := problems + [NoFields];
    }
    if |schema.fields| > MAX_FIELDS {
      problems := problems + [TooManyFields];
    }
    var seen: set<string> := {};
    var i := 0;
    ghost var start := |problems|;
    while i < |schema.fields|
      invariant 0 <= i <= |schema.fields| && start <= |problems|
      invariant seen == set j | 0 <= j < i :: schema.fields[j].key
      invariant problems == [] <==>
                  !Blank(schema.title, syntax.isSpace) && 0 < |schema.fields| <= MAX_FIELDS
                  && forall j :: 0 <= j < i ==> FieldOk(schema.fields, j, syntax)
      invariant forall p :: p in problems ==> SchemaFair(schema.fields, p, syntax)
      invariant EmptyTitle in problems <==> Blank(schema.title, syntax.isSpace)
      invariant forall p :: p in problems ==> forall j :: j >= i ==> !About(p, j)
      invariant forall j :: 0 <= j < i ==>
                              ((exists p :: p in problems && About(p, j)) <==> !FieldOk(schema.fields, j, syntax))
    {
      ghost var before := problems;
      problems := ValidateField(schema.fields, i, seen, syntax, problems);
      NewProblems(before, problems, i);
      seen := seen + {schema.fields[i].key};
      i := i + 1;
    }
    result := if problems == [] then Ok(()) else Err(problems);
  }

  lemma NewProblems(before: seq<SchemaProblem>, all: seq<SchemaProblem>, i: nat)
    requires before <= all && forall p :: p in all[|before|..] ==> About(p, i)
    requires forall p :: p in before ==> !About(p, i)
    ensures forall p :: p in all ==> p in before || About(p, i)
    ensures forall p :: p in before ==> p in all
    ensures (exists p :: p in all && About(p, i)) <==> |all| > |before|
  {
    assert all == before + all[|before|..];
    if |all| > |before| { assert all[|before|] in all[|before|..]; }
  }

  // ---------- One answer ----------

  /** `chars().count() as u32`: the count wraps. */
  function CountedLength(text: string): nat {
    |text| % TWO_TO_32
  }

  function Least(field: FieldDefinition): nat {
    if field.minLength.Some? then field.minLength.value else 0
  }

  function Most(field: FieldDefinition): nat {
    if field.maxLength.Some? then field.maxLength.value else MAX_TEXT_LENGTH
  }

  predicate LengthOk(field: FieldDefinition, text: string) {
    Least(field) <= CountedLength(text) <= Most(field)
  }

  /** What a field takes as an answer; a null is no answer. */
  predicate Conforms(field: FieldDefinition, value: Value, syntax: Syntax) {
    match field.fieldType
    case TextField => value.Text? && LengthOk(field, value.text)
        && (field.required ==> !Blank(value.text, syntax.isSpace))
    case Textarea => value.Text? && LengthOk(field, value.text)
        && (field.required ==> !Blank(value.text, syntax.isSpace))
    case Email =>
      && value.Text? && LengthOk(field, value.text) && (field.required ==> !Blank(value.text, syntax.isSpace))
      && syntax.isEmail(value.text)
    case NumberField =>
      && value.Number?
      && (field.min.Some? ==> field.min.value <= value.number) && (field.max.Some? ==> value.number <= field.max.value)
    case Date => value.Text? && syntax.isDate(value.text)
    case Select => value.Text? && field.options.Some? && value.text in field.options.value
    case Checkbox => value.Flag?
    case FileField => value.Text? && !Blank(value.text, syntax.isSpace)
  }

  predicate Acceptable(field: FieldDefinition, value: Value, syntax: Syntax) {
    if value.Null? then !field.required else Conforms(field, value, syntax)
  }

  datatype Fault =
    | Required | NotAString | TooShort | TooLong | NotAnEmail | NotANumber | TooSmall | TooLarge
    | NotADate | NotAnOption | NotAFlag | NotAFile | EmptyFile | NotAField

  datatype Problem = Problem(key: string, fault: Fault)

  /** What a fault says of the value is true of it. */
  predicate Justified(field: FieldDefinition, value: Value, fault: Fault, syntax: Syntax) {
    match fault
    case Required => field.required && (value.Null? || (value.Text? && Blank(value.text, syntax.isSpace)))
    case NotAString => !value.Text?
    case TooShort => value.Text? && field.minLength.Some? && CountedLength(value.text) < field.minLength.value
    case TooLong =>
      value.Text? && CountedLength(value.text) > Most(field)
    case NotAnEmail => value.Text? && !syntax.isEmail(value.text)
    case NotANumber => !value.Number?
    case TooSmall => value.Number? && field.min.Some? && value.number < field.min.value
    case TooLarge => value.Number? && field.max.Some? && value.number > field.max.value
    case NotADate => !value.Text? || !syntax.isDate(value.text)
    case NotAnOption => !value.Text? || field.options.None? || value.text !in field.options.value
    case NotAFlag => !value.Flag?
    case NotAFile => !value.Text?
    case EmptyFile => value.Text? && Blank(value.text, syntax.isSpace)
    case NotAField => false
  }

  method CheckText(field: FieldDefinition, value: Value, syntax: Syntax, problems: seq<Problem>)
    returns (accepted: Option<Value>, all: seq<Problem>)
    requires field.fieldType.TextField? || field.fieldType.Textarea? || field.fieldType.Email?
    ensures problems <= all && forall p :: p in all[|problems|..] ==> p.key == field.key
    ensures forall p :: p in all[|problems|..] ==> Justified(field, value, p.fault, syntax)
    ensures all == problems <==> Conforms(field, value, syntax)
    ensures accepted.Some? ==> accepted.value == value
    ensures all == problems ==> accepted.Some?
  {
    all := problems;
    if !value.Text? {
      return None, all + [Problem(field.key, NotAString)];
    }
    if field.required && Blank(value.text, syntax.isSpace) {
      return None, all + [Problem(field.key, Required)];
    }
    if field.minLength.Some? && CountedLength(value.text) < field.minLength.value {
      all := all + [Problem(field.key, TooShort)];
    }
    if CountedLength(value.text) > Most(field) {
      all := all + [Problem(field.key, TooLong)];
    }
    if field.fieldType.Email? && !syntax.isEmail(value.text) {
      all := all + [Problem(field.key, NotAnEmail)];
    }
    accepted := Some(value);
  }

  /** One answer: what to store, if anything, and what is wrong with it. */
  method CheckValue(field: FieldDefinition, value: Value, syntax: Syntax, problems: seq<Problem>)
    returns (accepted: Option<Value>, all: seq<Problem>)
    ensures problems <= all && forall p :: p in all[|problems|..] ==> p.key == field.key
    ensures forall p :: p in all[|problems|..] ==> Justified(field, value, p.fault, syntax)
    ensures all == problems <==> Acceptable(field, value, syntax)
    ensures all == problems ==> accepted == if value.Null? then None else Some(value)
  {
    all, accepted := problems, Some(value);
    if value.Null? {
      return None, if field.required then all + [Problem(field.key, Required)] else all;
    }
    match field.fieldType {
      case NumberField =>
        if !value.Number? {
          return None, all + [Problem(field.key, NotANumber)];
        }
        if field.min.Some? && value.number < field.min.value {
          all := all + [Problem(field.key, TooSmall)];
        }
        if field.max.Some? && value.number > field.max.value {
          all := all + [Problem(field.key, TooLarge)];
        }
      case Date =>
        if !value.Text? || !syntax.isDate(value.text) {
          return None, all + [Problem(field.key, NotADate)];
        }
      case Select =>
        if !value.Text? {
          return None, all + [Problem(field.key, NotAnOption)];
        }
        var options := if field.options.Some? then field.options.value else [];
        if value.text !in options {
          all := all + [Problem(field.key, NotAnOption)];
        }
      case Checkbox =>
        if !value.Flag? {
          return None, all + [Problem(field.key, NotAFlag)];
        }
      case FileField =>
        if !value.Text? {
          return None, all + [Problem(field.key, NotAFile)];
        }
        if Blank(value.text, syntax.isSpace) {
          return None, all + [Problem(field.key, EmptyFile)];
        }
      case _ =>
        accepted, all := CheckText(field, value, syntax, problems);
    }
  }

  // ---------- The payload ----------

  predicate Absent(payload: map<string, Value>, key: string, syntax: Syntax) {
    key !in payload || payload[key].Null? || (payload[key].Text? && Blank(payload[key].text, syntax.isSpace))
  }

  /** Every key that is not reserved is declared, with a value its field accepts. */
  predicate KeyOk(schema: FormSchema, payload: map<string, Value>, key: string, syntax: Syntax)
    requires key in payload
  {
    Reserved(key)
    || (Field(schema.fields, key).Some? && Acceptable(Field(schema.fields, key).value, payload[key], syntax))
  }

  predicate RequiredOk(payload: map<string, Value>, field: FieldDefinition, syntax: Syntax) {
    field.required ==> !Absent(payload, field.key, syntax)
  }

  predicate Conforming(schema: FormSchema, payload: map<string, Value>, syntax: Syntax) {
    && (forall key :: key in payload ==> KeyOk(schema, payload, key, syntax))
    && (forall i :: 0 <= i < |schema.fields| ==> RequiredOk(payload, schema.fields[i], syntax))
  }

  /** The payload minus reserved keys and nulls. */
  function Answers(payload: map<string, Value>): map<string, Value> {
    map key | key in payload && !Reserved(key) && !payload[key].Null? :: payload[key]
  }

  /** The keys there is something wrong with. */
  ghost predicate Offends(schema: FormSchema, payload: map<string, Value>, key: string, syntax: Syntax) {
    || (key in payload && !KeyOk(schema, payload, key, syntax))
    || (exists i :: 0 <= i < |schema.fields| && schema.fields[i].key == key
                    && !RequiredOk(payload, schema.fields[i], syntax))
  }

  predicate Names(problems: seq<Problem>, key: string) {
    exists i :: 0 <= i < |problems| && problems[i].key == key
  }

  /** What a problem says of the payload is true of it. */
  predicate Fair(schema: FormSchema, payload: map<string, Value>, p: Problem, syntax: Syntax) {
    var field := Field(schema.fields, p.key);
    match p.fault
    case NotAField => p.key in payload && field.None?
    case Required => field.Some? && Absent(payload, p.key, syntax)
    case _ => p.key in payload && field.Some? && Justified(field.value, payload[p.key], p.fault, syntax)
  }

  predicate AllFair(schema: FormSchema, payload: map<string, Value>, problems: seq<Problem>, syntax: Syntax) {
    forall i :: 0 <= i < |problems| ==> Fair(schema, payload, problems[i], syntax)
  }

  lemma FairGrows(schema: FormSchema, payload: map<string, Value>, before: seq<Problem>, all: seq<Problem>,
      key: string, syntax: Syntax)
    requires before <= all && AllFair(schema, payload, before, syntax)
    requires forall p :: p in all[|before|..] ==> p.key == key && Fair(schema, payload, p, syntax)
    ensures AllFair(schema, payload, all, syntax)
  {
  }

  lemma NamesGrow(before: seq<Problem>, all: seq<Problem>, key: string)
    requires before <= all && forall p :: p in all[|before|..] ==> p.key == key
    ensures forall k :: Names(all, k) <==> Names(before, k) || (k == key && |all| > |before|)
  {
    assert all == before + all[|before|..];
    if |all| > |before| { assert all[|before|] in all[|before|..] && all[|before|].key == key; }
    forall k ensures Names(all, k) <==> Names(before, k) || (k == key && |all| > |before|) {
      if i :| 0 <= i < |before| && before[i].key == k { assert all[i] == before[i]; }
      if i :| 0 <= i < |all| && all[i].key == k {
        if i >= |before| { assert all[|before|..][i - |before|] == all[i]; } else { assert before[i] == all[i]; }
      }
    }
  }

  /** Every key of the payload in turn: the answers worth keeping, and the keys that do not belong. */
  method CheckKeys(schema: FormSchema, payload: map<string, Value>, syntax: Syntax)
    returns (answers: map<string, Value>, problems: seq<Problem>)
    ensures forall k :: Names(problems, k) <==> k in payload && !KeyOk(schema, payload, k, syntax)
    ensures problems == [] ==> answers == Answers(payload)
    ensures AllFair(schema, payload, problems, syntax)
  {
    hide Acceptable, Names, AllFair;
    problems, answers := [], map[];
    NoNames(schema, payload, syntax);
    var left := payload.Keys;
    while left != {}
      invariant left <= payload.Keys && AllFair(schema, payload, problems, syntax)
      invariant forall k :: Names(problems, k) <==> k in payload && k !in left && !KeyOk(schema, payload, k, syntax)
      invariant problems == [] ==>
                  answers == map k | k in payload && k !in left && !Reserved(k) && !payload[k].Null? :: payload[k]
      decreases left
    {
      var key :| key in left;
      left := left - {key};
      if Reserved(key) {
        continue;
      }
      ghost var before := problems;
      var field := Field(schema.fields, key);
      if field.Some? {
        var accepted;
        accepted, problems := CheckValue(field.value, payload[key], syntax, problems);
        if accepted.Some? {
          answers := answers[key := accepted.value];
        }
      } else {
        problems := problems + [Problem(key, NotAField)];
      }
      NamesGrow(before, problems, key);
      FairGrows(schema, payload, before, problems, key, syntax);
    }
  }

  lemma NoNames(schema: FormSchema, payload: map<string, Value>, syntax: Syntax)
    ensures forall k :: !Names([], k)
    ensures AllFair(schema, payload, [], syntax)
  {
  }

  /**
   Accepts a payload exactly when it conforms, and then keeps the payload minus reserved keys and
   nulls; otherwise reports every offending key and no other.
   */
  method ValidateSubmission(schema: FormSchema, payload: map<string, Value>, syntax: Syntax)
    returns (result: Result<map<string, Value>, seq<Problem>>)
    ensures result.Ok? <==> Conforming(schema, payload, syntax)
    ensures result.Ok? ==> result.value == Answers(payload)
    ensures result.Err? ==> forall key :: Names(result.error, key) <==> Offends(schema, payload, key, syntax)
    ensures result.Err? ==> AllFair(schema, payload, result.error, syntax)
  {
    hide KeyOk, RequiredOk, Answers, AllFair;
    var answers, problems := CheckKeys(schema, payload, syntax);
    var i := 0;
    while i < |schema.fields|
      invariant 0 <= i <= |schema.fields|
      invariant forall k :: Names(problems, k) <==>
                  || (k in payload && !KeyOk(schema, payload, k, syntax))
                  || (exists j :: 0 <= j < i && schema.fields[j].key == k
                                  && !RequiredOk(payload, schema.fields[j], syntax))
      invariant problems == [] ==> answers == Answers(payload)
      invariant AllFair(schema, payload, problems, syntax)
    {
      var field := schema.fields[i];
      ghost var before := problems;
      problems := CheckRequired(field, payload, syntax, problems);
      NamesGrow(before, problems, field.key);
      FairGrows(schema, payload, before, problems, field.key, syntax);
      i := i + 1;
    }
    NamedOrNone(problems);
    ConformingHasNoOffence(schema, payload, syntax);
    result := if problems == [] then Ok(answers) else Err(problems);
  }

  method CheckRequired(field: FieldDefinition, payload: map<string, Value>, syntax: Syntax, problems: seq<Problem>)
    returns (all: seq<Problem>)
    ensures problems <= all && forall p :: p in all[|problems|..] ==> p.key == field.key
    ensures |all| > |problems| <==> !RequiredOk(payload, field, syntax)
    ensures forall p :: p in all[|problems|..] ==> p.fault.Required? && Absent(payload, field.key, syntax)
  {
    all := problems;
    if field.required && Absent(payload, field.key, syntax) {
      all := all + [Problem(field.key, Required)];
    }
  }

  lemma ConformingHasNoOffence(schema: FormSchema, payload: map<string, Value>, syntax: Syntax)
    ensures Conforming(schema, payload, syntax) <==> forall key :: !Offends(schema, payload, key, syntax)
  {
    hide KeyOk, RequiredOk;
    if forall key :: !Offends(schema, payload, key, syntax) {
      forall i | 0 <= i < |schema.fields| ensures RequiredOk(payload, schema.fields[i], syntax) {
        assert !Offends(schema, payload, schema.fields[i].key, syntax);
      }
      forall key | key in payload ensures KeyOk(schema, payload, key, syntax) {
        assert !Offends(schema, payload, key, syntax);
      }
    }
  }

  lemma NamedOrNone(problems: seq<Problem>)
    ensures problems == [] <==> forall key :: !Names(problems, key)
  {
    if problems != [] { assert Names(problems, problems[0].key); }
  }

  // ---------- What acceptance means ----------

  lemma ValidKeysAreNotReserved(schema: FormSchema, syntax: Syntax)
    requires ValidSchema(schema, syntax)
    ensures forall i :: 0 <= i < |schema.fields| ==> !Reserved(schema.fields[i].key)
  {
    forall i | 0 <= i < |schema.fields| ensures !Reserved(schema.fields[i].key) {
      assert FieldOk(schema.fields, i, syntax);
    }
  }

  /**
   Idempotence: what an accepted payload stores is itself an accepted payload, and storing it again
   stores the same answers.
   */
  lemma AnswersValidateToThemselves(schema: FormSchema, payload: map<string, Value>, syntax: Syntax)
    requires ValidSchema(schema, syntax) && Conforming(schema, payload, syntax)
    ensures Conforming(schema, Answers(payload), syntax) && Answers(Answers(payload)) == Answers(payload)
  {
    ValidKeysAreNotReserved(schema, syntax);
    var answers := Answers(payload);
    hide Acceptable, ValidSchema;
    forall key | key in answers ensures KeyOk(schema, answers, key, syntax) {
      assert KeyOk(schema, payload, key, syntax);
    }
    forall i | 0 <= i < |schema.fields| ensures RequiredOk(answers, schema.fields[i], syntax) {
      assert RequiredOk(payload, schema.fields[i], syntax);
    }
  }

  /** In an accepted definition a key finds the field it belongs to. */
  lemma FieldIsFirst(schema: FormSchema, i: nat, syntax: Syntax)
    requires ValidSchema(schema, syntax) && i < |schema.fields|
    ensures Field(schema.fields, schema.fields[i].key) == Some(schema.fields[i])
  {
    var found := Field(schema.fields, schema.fields[i].key).value;
    var j :| 0 <= j < |schema.fields| && schema.fields[j] == found;
    assert FieldOk(schema.fields, i, syntax) && FieldOk(schema.fields, j, syntax);
  }

  /** An answer as its field has it, type by type. */
  predicate IsAnswerTo(field: FieldDefinition, value: Value, syntax: Syntax) {
    && (field.fieldType in {TextField, Textarea, Email} ==>
          && value.Text?
          && (field.minLength.Some? ==> |value.text| >= field.minLength.value)
          && |value.text| % TWO_TO_32 <= (if field.maxLength.Some? then field.maxLength.value else 10_000)
          && (field.required ==> exists i :: 0 <= i < |value.text| && !syntax.isSpace(value.text[i])))
    && (field.fieldType == Email ==> value.Text? && syntax.isEmail(value.text))
    && (field.fieldType == NumberField ==>
          && value.Number? && !(field.min.Some? && value.number < field.min.value)
          && !(field.max.Some? && field.max.value < value.number))
    && (field.fieldType == Date ==> value.Text? && syntax.isDate(value.text))
    && (field.fieldType == Select ==>
          && value.Text? && field.options.Some?
          && exists i :: 0 <= i < |field.options.value| && field.options.value[i] == value.text)
    && (field.fieldType == Checkbox ==> value.Flag?)
    && (field.fieldType == FileField ==> value.Text? && value.text != "")
  }

  /**
   What gets stored: every answer is one its field of the definition allows, no key is anything but a
   field's, and every required field has its answer.
   */
  lemma StoredAnswersFit(schema: FormSchema, payload: map<string, Value>, syntax: Syntax)
    requires ValidSchema(schema, syntax) && Conforming(schema, payload, syntax)
    ensures var answers := Answers(payload);
            && (forall key :: key in answers ==> key in payload && answers[key] == payload[key]
                                                 && exists i :: 0 <= i < |schema.fields| && schema.fields[i].key == key)
            && (forall i :: 0 <= i < |schema.fields| && schema.fields[i].key in answers ==>
                              IsAnswerTo(schema.fields[i], answers[schema.fields[i].key], syntax))
            && (forall i :: 0 <= i < |schema.fields| && schema.fields[i].required ==> schema.fields[i].key in answers)
  {
    hide ValidSchema, Conforms, Blank;
    var answers := Answers(payload);
    forall key | key in answers ensures exists i :: 0 <= i < |schema.fields| && schema.fields[i].key == key {
      assert KeyOk(schema, payload, key, syntax);
    }
    forall i | 0 <= i < |schema.fields| && schema.fields[i].key in answers
      ensures IsAnswerTo(schema.fields[i], answers[schema.fields[i].key], syntax)
    {
      assert KeyOk(schema, payload, schema.fields[i].key, syntax);
      FieldIsFirst(schema, i, syntax);
      ConformingIsAnswer(schema.fields[i], payload[schema.fields[i].key], syntax);
    }
    forall i | 0 <= i < |schema.fields| && schema.fields[i].required ensures schema.fields[i].key in answers {
      assert RequiredOk(payload, schema.fields[i], syntax);
      KeysAreNotReserved(schema, i, syntax);
    }
  }

  lemma ConformingIsAnswer(field: FieldDefinition, value: Value, syntax: Syntax)
    requires Conforms(field, value, syntax)
    ensures IsAnswerTo(field, value, syntax)
  {
  }

  lemma KeysAreNotReserved(schema: FormSchema, i: nat, syntax: Syntax)
    requires ValidSchema(schema, syntax) && i < |schema.fields|
    ensures !Reserved(schema.fields[i].key)
  {
    assert FieldOk(schema.fields, i, syntax);
  }
}
