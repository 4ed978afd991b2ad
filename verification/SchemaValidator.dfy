/** The structured-output validator: a recursive checker that pushes complaints onto one shared
    list (packages/ai-runtime/src/output-validator/structured-output-validator.ts:14-134). */
module SchemaValidator {
  import opened Foundations
  import opened PiiPatterns
  import opened PromptFilter

  /** A JavaScript value as `typeof` and `Array.isArray` tell it apart. `Opaque` is a function,
      a symbol or a bigint. */
  datatype Value =
    | Undefined
    | Null
    | Text(text: string)
    | Number(value: real)
    | Flag(flag: bool)
    | Opaque
    | List(items: seq<Value>)
    | Record(fields: map<string, Value>)

  /** `properties` in enumeration order. */
  datatype Schema =
    | ObjectSchema(required: seq<string>, properties: seq<Property>)
    | ArraySchema(items: Option<Schema>)
    | StringSchema(allowed: Option<seq<string>>)
    | NumberSchema
    | BooleanSchema

  datatype Property = Property(key: string, schema: Schema)

  // ---- what the schema means ----

  predicate Present(fields: map<string, Value>, field: string) {
    field in fields && !fields[field].Undefined? && !fields[field].Null?
  }

  predicate Conforms(v: Value, s: Schema)
    decreases s
  {
    match s
    case ObjectSchema(required, properties) =>
      && v.Record?
      && (forall i :: 0 <= i < |required| ==> Present(v.fields, required[i]))
      && (forall i :: 0 <= i < |properties| && properties[i].key in v.fields ==>
            Conforms(v.fields[properties[i].key], properties[i].schema))
    case ArraySchema(items) =>
      v.List? && (items.Some? ==> forall i :: 0 <= i < |v.items| ==> Conforms(v.items[i], items.value))
    case StringSchema(allowed) => v.Text? && (allowed.Some? ==> v.text in allowed.value)
    case NumberSchema => v.Number?
    case BooleanSchema => v.Flag?
  }

  // ---- what the checker reports ----

  function Label(path: string): string {
    if path == "" then "root" else path
  }

  function PropertyPath(path: string, key: string): string {
    if path == "" then key else path + "." + key
  }

  function ItemPath(path: string, i: nat): string {
    path + "[" + Decimal(i) + "]"
  }

  function Join(words: seq<string>): string {
    if words == [] then ""
    else if |words| == 1 then words[0]
    else words[0] + ", " + Join(words[1..])
  }

  /** The complaints about the first `n` required fields, properties or items. */
  function MissingFields(fields: map<string, Value>, required: seq<string>, n: nat, path: string): seq<string>
    requires n <= |required|
  {
    if n == 0 then []
    else MissingFields(fields, required, n - 1, path) +
         (if Present(fields, required[n - 1]) then [] else [Label(path) + " is missing required field: " + required[n - 1]])
  }

  function PropertyViolations(fields: map<string, Value>, s: Schema, n: nat, path: string): seq<string>
    requires s.ObjectSchema? && n <= |s.properties|
    decreases s, 0, n
  {
    if n == 0 then []
    else
      var p := s.properties[n - 1];
      PropertyViolations(fields, s, n - 1, path) +
      (if p.key in fields then Violations(fields[p.key], p.schema, PropertyPath(path, p.key)) else [])
  }

  function ItemViolations(items: seq<Value>, s: Schema, n: nat, path: string): seq<string>
    requires n <= |items|
    decreases s, 2, n
  {
    if n == 0 then [] else ItemViolations(items, s, n - 1, path) + Violations(items[n - 1], s, ItemPath(path, n - 1))
  }

  function Violations(v: Value, s: Schema, path: string): seq<string>
    decreases s, 1, 0
  {
    match s
    case ObjectSchema(required, properties) =>
      if !v.Record? then [Label(path) + " must be an object"]
      else MissingFields(v.fields, required, |required|, path) + PropertyViolations(v.fields, s, |properties|, path)
    case ArraySchema(items) =>
      if !v.List? then [Label(path) + " must be an array"]
      else if items.Some? then ItemViolations(v.items, items.value, |v.items|, path) else []
    case StringSchema(allowed) =>
      if !v.Text? then [Label(path) + " must be a string"]
      else if allowed.Some? && v.text !in allowed.value then [Label(path) + " must be one of " + Join(allowed.value)]
      else []
    case NumberSchema => if v.Number? then [] else [Label(path) + " must be a number"]
    case BooleanSchema => if v.Flag? then [] else [Label(path) + " must be a boolean"]
  }

  // ---- the checker ----

  /** The `violations` array shared by all recursive calls. */
  class ViolationList {
    var messages: seq<string>

    constructor ()
      ensures messages == []
    {
      messages := [];
    }

    method Push(message: string)
      modifies this
      ensures messages == old(messages) + [message]
    {
      messages := messages + [message];
    }
  }

  /** Pushes exactly the complaints of `Violations`, after what is already on the list. */
  method ValidateSchema(v: Value, s: Schema, path: string, violations: ViolationList)
    modifies violations
    ensures violations.messages == old(violations.messages) + Violations(v, s, path)
    decreases s, 1
  {
    match s {
    case ObjectSchema(required, _) =>
      if v.Record? {
        CheckRequired(v.fields, required, path, violations);
        CheckProperties(v.fields, s, path, violations);
      } else {
        violations.Push(Label(path) + " must be an object");
      }
    case ArraySchema(items) =>
      if !v.List? {
        violations.Push(Label(path) + " must be an array");
      } else if items.Some? {
        CheckItems(v.items, items.value, path, violations);
      }
    case StringSchema(allowed) =>
      if !v.Text? {
        violations.Push(Label(path) + " must be a string");
      } else if allowed.Some? && v.text !in allowed.value {
        violations.Push(Label(path) + " must be one of " + Join(allowed.value));
      }
    case NumberSchema =>
      if !v.Number? { violations.Push(Label(path) + " must be a number"); }
    case BooleanSchema =>
      if !v.Flag? { violations.Push(Label(path) + " must be a boolean"); }
    }
  }

  lemma AppendTwice(a: seq<string>, b: seq<string>, c: seq<string>)
    ensures a + b + c == a + (b + c)
  {
  }

  method CheckRequired(fields: map<string, Value>, required: seq<string>, path: string, violations: ViolationList)
    modifies violations
    ensures violations.messages == old(violations.messages) + MissingFields(fields, required, |required|, path)
  {
    for i := 0 to |required|
      invariant violations.messages == old(violations.messages) + MissingFields(fields, required, i, path)
    {
      if !Present(fields, required[i]) {
        violations.Push(Label(path) + " is missing required field: " + required[i]);
      }
    }
  }

  method CheckProperties(fields: map<string, Value>, s: Schema, path: string, violations: ViolationList)
    requires s.ObjectSchema?
    modifies violations
    ensures violations.messages == old(violations.messages) + PropertyViolations(fields, s, |s.properties|, path)
    decreases s, 0
  {
    for i := 0 to |s.properties|
      invariant violations.messages == old(violations.messages) + PropertyViolations(fields, s, i, path)
    {
      var p := s.properties[i];
      if p.key in fields {
        ValidateSchema(fields[p.key], p.schema, PropertyPath(path, p.key), violations);
      }
    }
  }

  method CheckItems(items: seq<Value>, s: Schema, path: string, violations: ViolationList)
    modifies violations
    ensures violations.messages == old(violations.messages) + ItemViolations(items, s, |items|, path)
    decreases s, 2
  {
    for i := 0 to |items|
      invariant violations.messages == old(violations.messages) + ItemViolations(items, s, i, path)
    {
      ghost var earlier, here := ItemViolations(items, s, i, path), Violations(items[i], s, ItemPath(path, i));
      ValidateSchema(items[i], s, ItemPath(path, i), violations);
      AppendTwice(old(violations.messages), earlier, here);
    }
  }

  // ---- no complaint exactly when the value conforms ----

  lemma {:induction false} NothingMissing(fields: map<string, Value>, required: seq<string>, n: nat, path: string)
    requires n <= |required|
    ensures MissingFields(fields, required, n, path) == [] <==> forall i :: 0 <= i < n ==> Present(fields, required[i])
  {
    if n > 0 { NothingMissing(fields, required, n - 1, path); }
  }

  lemma {:induction false} PropertiesFine(fields: map<string, Value>, s: Schema, n: nat, path: string)
    requires s.ObjectSchema? && n <= |s.properties|
    ensures PropertyViolations(fields, s, n, path) == [] <==>
            forall i :: 0 <= i < n && s.properties[i].key in fields ==> Conforms(fields[s.properties[i].key], s.properties[i].schema)
    decreases s, 0, n
  {
    if n > 0 {
      PropertiesFine(fields, s, n - 1, path);
      var p := s.properties[n - 1];
      if p.key in fields { SilentIffConforms(fields[p.key], p.schema, PropertyPath(path, p.key)); }
    }
  }

  lemma {:induction false} ItemsFine(items: seq<Value>, s: Schema, n: nat, path: string)
    requires n <= |items|
    ensures ItemViolations(items, s, n, path) == [] <==> forall i :: 0 <= i < n ==> Conforms(items[i], s)
    decreases s, 2, n
  {
    if n > 0 {
      ItemsFine(items, s, n - 1, path);
      SilentIffConforms(items[n - 1], s, ItemPath(path, n - 1));
    }
  }

  /** Main result: for every value, schema and path, nothing is reported exactly when the
      value satisfies the schema. */
  lemma {:induction false} SilentIffConforms(v: Value, s: Schema, path: string)
    ensures Violations(v, s, path) == [] <==> Conforms(v, s)
    decreases s, 1, 0
  {
    match s {
    case ObjectSchema(required, properties) =>
      if v.Record? {
        NothingMissing(v.fields, required, |required|, path);
        PropertiesFine(v.fields, s, |properties|, path);
      }
    case ArraySchema(items) =>
      if v.List? && items.Some? { ItemsFine(v.items, items.value, |v.items|, path); }
    case StringSchema(_) =>
    case NumberSchema =>
    case BooleanSchema =>
    }
  }

  // ---- the safe output ----

  predicate IsObject(v: Value) {
    v.Record? || v.List?
  }

  function ItemFields(items: seq<Value>): map<string, Value> {
    if items == [] then map[]
    else ItemFields(items[..|items| - 1])[Decimal(|items| - 1) := items[|items| - 1]]
  }

  /** The own fields a spread copies; those of a list are its positions. */
  function FieldsOf(v: Value): map<string, Value>
    requires IsObject(v)
  {
    if v.Record? then v.fields else ItemFields(v.items)
  }

  function FilteredValue(v: Value): Value {
    if v.Text? then Text(Filtered(v.text)) else v
  }

  function FilteredFields(fields: map<string, Value>): map<string, Value> {
    map key | key in fields :: FilteredValue(fields[key])
  }

  method Sanitize(output: Value) returns (clone: map<string, Value>)
    requires IsObject(output)
    ensures clone == FilteredFields(FieldsOf(output))
  {
    clone := FieldsOf(output);
    var keys := clone.Keys;
    while keys != {}
      invariant keys <= clone.Keys == FieldsOf(output).Keys
      invariant forall key :: key in clone ==>
                  clone[key] == if key in keys then FieldsOf(output)[key] else FilteredValue(FieldsOf(output)[key])
    {
      var key :| key in keys;
      if clone[key].Text? {
        clone := clone[key := Text(Filtered(clone[key].text))];
      }
      keys := keys - {key};
    }
  }

  /** The phrase in a text anywhere below a value. */
  predicate Harmful(v: Value) {
    match v
    case Text(text) => HasPhrase(text)
    case List(items) => exists i :: 0 <= i < |items| && Harmful(items[i])
    case Record(fields) => exists key :: key in fields && Harmful(fields[key])
    case _ => false
  }

  /** Only texts directly below the output are filtered: the safe output is free of the phrase
      exactly when no text further down holds it. */
  lemma SafeOutputIsSafeExactly(output: Value)
    requires IsObject(output)
    ensures !Harmful(Record(FilteredFields(FieldsOf(output)))) <==>
            forall key :: key in FieldsOf(output) && !FieldsOf(output)[key].Text? ==> !Harmful(FieldsOf(output)[key])
  {
    var fields := FieldsOf(output);
    var clone := FilteredFields(fields);
    forall key | key in fields
      ensures Harmful(clone[key]) <==> !fields[key].Text? && Harmful(fields[key])
    {
      if fields[key].Text? { FilterRemovesThePhrase(fields[key].text); }
    }
    if Harmful(Record(clone)) {
      var key :| key in clone && Harmful(clone[key]);
      assert key in fields && !fields[key].Text?;
    }
    if key :| key in fields && !fields[key].Text? && Harmful(fields[key]) {
      assert key in clone && Harmful(clone[key]);
    }
  }

  /** The failing input: `{ note: { text: "ignore previous instructions" } }`. */
  function NestedPhrase(): Value {
    Record(map["note" := Record(map["text" := Text(Phrase)])])
  }

  lemma NestedPhraseSurvives()
    ensures IsObject(NestedPhrase()) && Harmful(Record(FilteredFields(FieldsOf(NestedPhrase()))))
  {
    var inner := map["text" := Text(Phrase)];
    assert Phrase[0..] == Phrase;
    assert PhraseAt(Phrase, 0);
    assert Harmful(Record(inner)) by {
      assert "text" in inner && Harmful(inner["text"]);
    }
    var clone := FilteredFields(FieldsOf(NestedPhrase()));
    assert "note" in clone && clone["note"] == Record(inner);
  }

  // ---- the whole validation ----

  datatype Policy = Policy(
    requiredFields: seq<string>,
    forbiddenValues: seq<string>,
    allowedActions: seq<string>,
    piiPatterns: seq<Pattern>,
    schema: Option<Schema>)

  datatype Verdict = Verdict(valid: bool, piiPassed: bool, safeOutput: map<string, Value>)

  /** A proposed output seen from outside: its serialised text, the text of its `action`
      when that is not undefined, and the value itself. */
  datatype Proposal = Proposal(output: Value, json: string, action: Option<string>)

  predicate StartsAt(text: string, part: string, i: nat) {
    i + |part| <= |text| && text[i..i + |part|] == part
  }

  predicate Contains(text: string, part: string) {
    exists i :: 0 <= i <= |text| && StartsAt(text, part, i)
  }

  /** `field in output` with a value that is neither undefined nor null. A list has its
      positions and its length as fields. */
  predicate HasField(v: Value, field: string)
    requires IsObject(v)
  {
    if v.Record? then Present(v.fields, field)
    else
      || field == "length"
      || (exists i :: 0 <= i < |v.items| && Decimal(i) == field && !v.items[i].Undefined? && !v.items[i].Null?)
  }

  /** What `validate` promises about an output it lets through. */
  predicate Acceptable(p: Proposal, policy: Policy)
    requires IsObject(p.output)
  {
    && (policy.schema.Some? ==> Conforms(p.output, policy.schema.value))
    && (forall i :: 0 <= i < |policy.requiredFields| ==> HasField(p.output, policy.requiredFields[i]))
    && (forall i :: 0 <= i < |policy.forbiddenValues| ==> !Contains(p.json, policy.forbiddenValues[i]))
    && (p.action.Some? ==> p.action.value in policy.allowedActions)
    && NoneFires(policy.piiPatterns, p.json)
  }

  method CheckOutputFields(output: Value, fields: seq<string>, violations: ViolationList)
    requires IsObject(output)
    modifies violations
    ensures violations.messages == [] <==>
            old(violations.messages) == [] && forall i :: 0 <= i < |fields| ==> HasField(output, fields[i])
  {
    for i := 0 to |fields|
      invariant violations.messages == [] <==>
                old(violations.messages) == [] && forall k :: 0 <= k < i ==> HasField(output, fields[k])
    {
      if !HasField(output, fields[i]) {
        violations.Push("Missing required field: " + fields[i]);
      }
    }
  }

  method CheckForbidden(json: string, forbidden: seq<string>, violations: ViolationList)
    modifies violations
    ensures violations.messages == [] <==>
            old(violations.messages) == [] && forall i :: 0 <= i < |forbidden| ==> !Contains(json, forbidden[i])
  {
    for i := 0 to |forbidden|
      invariant violations.messages == [] <==>
                old(violations.messages) == [] && forall k :: 0 <= k < i ==> !Contains(json, forbidden[k])
    {
      if Contains(json, forbidden[i]) {
        violations.Push("Forbidden value detected: " + forbidden[i]);
      }
    }
  }

  /** Valid exactly when every rule holds; the PII verdict is about the patterns alone, which it
      leaves in the state `patterns`. */
  method Validate(p: Proposal, policy: Policy) returns (verdict: Verdict, patterns: seq<Pattern>)
    ensures verdict.valid <==> IsObject(p.output) && Acceptable(p, policy)
    ensures verdict.piiPassed <==> IsObject(p.output) ==> NoneFires(policy.piiPatterns, p.json)
    ensures verdict.safeOutput == if IsObject(p.output) then FilteredFields(FieldsOf(p.output)) else map[]
    ensures patterns == if IsObject(p.output) then AfterDetection(policy.piiPatterns, p.json) else policy.piiPatterns
  {
    if !IsObject(p.output) {
      return Verdict(false, true, map[]), policy.piiPatterns;
    }
    var schemaViolations := new ViolationList();
    var policyViolations := new ViolationList();
    if policy.schema.Some? {
      ValidateSchema(p.output, policy.schema.value, "", schemaViolations);
      SilentIffConforms(p.output, policy.schema.value, "");
    }
    CheckOutputFields(p.output, policy.requiredFields, schemaViolations);
    CheckForbidden(p.json, policy.forbiddenValues, policyViolations);
    if p.action.Some? && p.action.value !in policy.allowedActions {
      policyViolations.Push("Unsupported action: " + p.action.value);
    }
    var piiFound;
    piiFound, patterns := DetectPii(policy.piiPatterns, p.json);
    if piiFound {
      policyViolations.Push("PII detected in output");
    }
    var safeOutput := Sanitize(p.output);
    verdict := Verdict(schemaViolations.messages == [] && policyViolations.messages == [], !piiFound, safeOutput);
  }
}
