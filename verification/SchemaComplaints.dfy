/** What the messages of the schema check say: each names a place of the output that does not fit, and
    every such place is named
    (packages/ai-runtime/src/output-validator/structured-output-validator.ts:79-134). */
module SchemaComplaints {
  import opened Foundations
  import opened PiiPatterns
  import opened SchemaValidator

  // ---- places ----

  /** From a record to one of its fields, or from a list to one of its items. */
  datatype Step = Into(key: string) | At(index: nat)

  /** `a.b[2].c`, and nothing for the output itself. */
  function Render(place: seq<Step>): string {
    if place == [] then ""
    else
      var outer, last := Render(place[..|place| - 1]), place[|place| - 1];
      match last
      case Into(key) => if outer == "" then key else outer + "." + key
      case At(index) => outer + "[" + Decimal(index) + "]"
  }

  function Named(place: seq<Step>): string {
    if Render(place) == "" then "root" else Render(place)
  }

  /** The step leads from a value that has the shape its schema asks for to a part, with its schema. */
  predicate Leads(v: Value, s: Schema, step: Step, part: Value, partSchema: Schema) {
    match step
    case Into(key) =>
      s.ObjectSchema? && v.Record? && key in v.fields && v.fields[key] == part
      && exists i :: 0 <= i < |s.properties| && s.properties[i] == Property(key, partSchema)
    case At(index) =>
      s.ArraySchema? && v.List? && index < |v.items| && v.items[index] == part && s.items == Some(partSchema)
  }

  ghost predicate LeadsTo(v: Value, s: Schema, place: seq<Step>, part: Value, partSchema: Schema)
    decreases |place|
  {
    if place == [] then part == v && partSchema == s
    else exists w: Value, t: Schema :: Leads(v, s, place[0], w, t) && LeadsTo(w, t, place[1..], part, partSchema)
  }

  // ---- what is wrong at a place ----

  /** The words with commas between them. */
  function Listed(words: seq<string>): string {
    if words == [] then "" else if |words| == 1 then words[0] else Listed(words[..|words| - 1]) + ", " + words[|words| - 1]
  }

  predicate Lacks(v: Value, field: string)
    requires v.Record?
  {
    field !in v.fields || v.fields[field] == Undefined || v.fields[field] == Null
  }

  /** The message is about the value itself, called by this name. */
  predicate Complains(v: Value, s: Schema, name: string, message: string) {
    match s
    case ObjectSchema(required, _) =>
      if v.Record? then exists i :: 0 <= i < |required| && Lacks(v, required[i]) && message == name + " is missing required field: " + required[i]
      else message == name + " must be an object"
    case ArraySchema(_) => !v.List? && message == name + " must be an array"
    case StringSchema(allowed) =>
      if !v.Text? then message == name + " must be a string"
      else allowed.Some? && v.text !in allowed.value && message == name + " must be one of " + Listed(allowed.value)
    case NumberSchema => !v.Number? && message == name + " must be a number"
    case BooleanSchema => !v.Flag? && message == name + " must be a boolean"
  }

  /** A place below, and what is wrong there. */
  ghost predicate FoundAt(v: Value, s: Schema, base: seq<Step>, place: seq<Step>, part: Value, partSchema: Schema, message: string) {
    LeadsTo(v, s, place, part, partSchema) && Complains(part, partSchema, Named(base + place), message)
  }

  ghost predicate Found(v: Value, s: Schema, base: seq<Step>, message: string) {
    exists place: seq<Step>, part: Value, partSchema: Schema :: FoundAt(v, s, base, place, part, partSchema, message)
  }

  ghost predicate FoundBehind(v: Value, s: Schema, base: seq<Step>, step: Step, message: string) {
    exists w: Value, t: Schema :: Leads(v, s, step, w, t) && Found(w, t, base + [step], message)
  }

  lemma FoundHere(v: Value, s: Schema, base: seq<Step>, message: string)
    ensures Complains(v, s, Named(base), message) ==> Found(v, s, base, message)
  {
    assert base + [] == base;
    assert Complains(v, s, Named(base), message) ==> FoundAt(v, s, base, [], v, s, message);
  }

  lemma FoundAtSplits(v: Value, s: Schema, base: seq<Step>, place: seq<Step>, part: Value, partSchema: Schema, message: string)
    requires FoundAt(v, s, base, place, part, partSchema, message)
    ensures if place == [] then Complains(v, s, Named(base), message) else FoundBehind(v, s, base, place[0], message)
  {
    if place == [] {
      assert base + place == base;
    } else {
      var w: Value, t: Schema :| Leads(v, s, place[0], w, t) && LeadsTo(w, t, place[1..], part, partSchema);
      assert base + place == base + [place[0]] + place[1..];
      assert FoundAt(w, t, base + [place[0]], place[1..], part, partSchema, message);
    }
  }

  lemma FoundAtFurther(v: Value, s: Schema, base: seq<Step>, step: Step, w: Value, t: Schema, place: seq<Step>, part: Value,
                       partSchema: Schema, message: string)
    requires Leads(v, s, step, w, t) && FoundAt(w, t, base + [step], place, part, partSchema, message)
    ensures FoundAt(v, s, base, [step] + place, part, partSchema, message)
  {
    assert ([step] + place)[0] == step && ([step] + place)[1..] == place;
    assert base + [step] + place == base + ([step] + place);
  }

  lemma FoundHereOrBehind(v: Value, s: Schema, base: seq<Step>, message: string)
    ensures Found(v, s, base, message) <==> Complains(v, s, Named(base), message) || exists step :: FoundBehind(v, s, base, step, message)
  {
    FoundHere(v, s, base, message);
    if Found(v, s, base, message) {
      var place, part, partSchema :| FoundAt(v, s, base, place, part, partSchema, message);
      FoundAtSplits(v, s, base, place, part, partSchema, message);
    }
    if step :| FoundBehind(v, s, base, step, message) {
      var w: Value, t: Schema :| Leads(v, s, step, w, t) && Found(w, t, base + [step], message);
      var place, part, partSchema :| FoundAt(w, t, base + [step], place, part, partSchema, message);
      FoundAtFurther(v, s, base, step, w, t, place, part, partSchema, message);
    }
  }

  // ---- the messages ----

  lemma RenderInto(base: seq<Step>, key: string)
    ensures Render(base + [Into(key)]) == PropertyPath(Render(base), key)
  {
    assert (base + [Into(key)])[..|base|] == base;
  }

  lemma RenderAt(base: seq<Step>, index: nat)
    ensures Render(base + [At(index)]) == ItemPath(Render(base), index)
  {
    assert (base + [At(index)])[..|base|] == base;
  }

  lemma {:induction false} ListedIsJoin(words: seq<string>)
    ensures Join(words) == Listed(words)
  {
    if |words| > 1 { ListedFromTheLeft(words); ListedIsJoin(words[1..]); }
  }

  lemma {:induction false} ListedFromTheLeft(words: seq<string>)
    requires |words| > 1
    ensures Listed(words) == words[0] + ", " + Listed(words[1..])
  {
    var n := |words| - 1;
    if n > 1 {
      ListedFromTheLeft(words[..n]);
      assert words[..n][1..] == words[1..][..n - 1] && words[1..][n - 1] == words[n];
      assert Listed(words) == words[0] + ", " + Listed(words[1..n]) + ", " + words[n];
    } else {
      assert words[..n] == [words[0]] && words[1..] == [words[1]];
    }
  }

  lemma {:induction false} MissingMessages(fields: map<string, Value>, required: seq<string>, n: nat, path: string, message: string)
    requires n <= |required|
    ensures message in MissingFields(fields, required, n, path) <==>
            exists i :: 0 <= i < n && Lacks(Record(fields), required[i]) && message == Label(path) + " is missing required field: " + required[i]
  {
    if n > 0 { MissingMessages(fields, required, n - 1, path, message); }
  }

  ghost predicate FoundInProperty(fields: map<string, Value>, s: Schema, base: seq<Step>, i: nat, message: string)
    requires s.ObjectSchema?
  {
    && i < |s.properties| && s.properties[i].key in fields
    && Found(fields[s.properties[i].key], s.properties[i].schema, base + [Into(s.properties[i].key)], message)
  }

  ghost predicate FoundInItem(items: seq<Value>, s: Schema, base: seq<Step>, i: nat, message: string) {
    i < |items| && Found(items[i], s, base + [At(i)], message)
  }

  ghost predicate FoundInProperties(fields: map<string, Value>, s: Schema, base: seq<Step>, n: nat, message: string)
    requires s.ObjectSchema?
  {
    exists i: nat :: i < n && FoundInProperty(fields, s, base, i, message)
  }

  ghost predicate FoundInItems(items: seq<Value>, s: Schema, base: seq<Step>, n: nat, message: string) {
    exists i: nat :: i < n && FoundInItem(items, s, base, i, message)
  }

  lemma OneMoreProperty(fields: map<string, Value>, s: Schema, base: seq<Step>, n: nat, message: string)
    requires s.ObjectSchema? && n > 0
    ensures FoundInProperties(fields, s, base, n, message) <==>
            FoundInProperties(fields, s, base, n - 1, message) || FoundInProperty(fields, s, base, n - 1, message)
  {
  }

  lemma OneMoreItem(items: seq<Value>, s: Schema, base: seq<Step>, n: nat, message: string)
    requires n > 0
    ensures FoundInItems(items, s, base, n, message) <==>
            FoundInItems(items, s, base, n - 1, message) || FoundInItem(items, s, base, n - 1, message)
  {
  }

  lemma LastProperty(fields: map<string, Value>, s: Schema, n: nat, path: string, message: string)
    requires s.ObjectSchema? && 0 < n <= |s.properties|
    ensures var p := s.properties[n - 1];
            message in PropertyViolations(fields, s, n, path) <==>
              message in PropertyViolations(fields, s, n - 1, path)
              || (p.key in fields && message in Violations(fields[p.key], p.schema, PropertyPath(path, p.key)))
  {
  }

  lemma LastItem(items: seq<Value>, s: Schema, n: nat, path: string, message: string)
    requires 0 < n <= |items|
    ensures message in ItemViolations(items, s, n, path) <==>
            message in ItemViolations(items, s, n - 1, path) || message in Violations(items[n - 1], s, ItemPath(path, n - 1))
  {
  }

  lemma {:induction false} PropertyMessages(fields: map<string, Value>, s: Schema, n: nat, base: seq<Step>, message: string)
    requires s.ObjectSchema? && n <= |s.properties|
    ensures message in PropertyViolations(fields, s, n, Render(base)) <==> FoundInProperties(fields, s, base, n, message)
    decreases s, 0, n
  {
    if n > 0 {
      var p := s.properties[n - 1];
      LastProperty(fields, s, n, Render(base), message);
      OneMoreProperty(fields, s, base, n, message);
      PropertyMessages(fields, s, n - 1, base, message);
      RenderInto(base, p.key);
      if p.key in fields { MessagesNamePlaces(fields[p.key], p.schema, base + [Into(p.key)], message); }
    }
  }

  lemma {:induction false} ItemMessages(items: seq<Value>, s: Schema, n: nat, base: seq<Step>, message: string)
    requires n <= |items|
    ensures message in ItemViolations(items, s, n, Render(base)) <==> FoundInItems(items, s, base, n, message)
    decreases s, 2, n
  {
    if n > 0 {
      LastItem(items, s, n, Render(base), message);
      OneMoreItem(items, s, base, n, message);
      ItemMessages(items, s, n - 1, base, message);
      RenderAt(base, n - 1);
      MessagesNamePlaces(items[n - 1], s, base + [At(n - 1)], message);
    }
  }

  /** Main theorem: the messages are exactly those of the misfits: each names a place that is reached
      through values of the right shape, and says what is wrong with the value there. */
  lemma {:induction false} MessagesNamePlaces(v: Value, s: Schema, base: seq<Step>, message: string)
    ensures message in Violations(v, s, Render(base)) <==> Found(v, s, base, message)
    decreases s, 1, 0
  {
    FoundHereOrBehind(v, s, base, message);
    match s
    case ObjectSchema(required, properties) =>
      if v.Record? {
        MissingMessages(v.fields, required, |required|, Render(base), message);
        PropertyMessages(v.fields, s, |properties|, base, message);
        BehindRecord(v, s, base, message);
      } else {
        assert forall step, w, t :: !Leads(v, s, step, w, t);
      }
    case ArraySchema(items) =>
      if v.List? && items.Some? {
        ItemMessages(v.items, items.value, |v.items|, base, message);
        BehindList(v, s, base, message);
      } else {
        assert forall step, w, t :: !Leads(v, s, step, w, t);
      }
    case StringSchema(allowed) =>
      if allowed.Some? { ListedIsJoin(allowed.value); }
      assert forall step, w, t :: !Leads(v, s, step, w, t);
    case _ =>
      assert forall step, w, t :: !Leads(v, s, step, w, t);
  }

  lemma BehindRecord(v: Value, s: Schema, base: seq<Step>, message: string)
    requires v.Record? && s.ObjectSchema?
    ensures (exists step :: FoundBehind(v, s, base, step, message)) <==>
            FoundInProperties(v.fields, s, base, |s.properties|, message)
  {
    if step :| FoundBehind(v, s, base, step, message) {
      var w, t :| Leads(v, s, step, w, t) && Found(w, t, base + [step], message);
      var i :| 0 <= i < |s.properties| && s.properties[i] == Property(step.key, t);
      assert FoundInProperty(v.fields, s, base, i, message);
    }
    if i: nat :| i < |s.properties| && FoundInProperty(v.fields, s, base, i, message) {
      var p := s.properties[i];
      assert p == Property(p.key, p.schema);
      assert Leads(v, s, Into(p.key), v.fields[p.key], p.schema);
      assert FoundBehind(v, s, base, Into(p.key), message);
    }
  }

  lemma BehindList(v: Value, s: Schema, base: seq<Step>, message: string)
    requires v.List? && s.ArraySchema? && s.items.Some?
    ensures (exists step :: FoundBehind(v, s, base, step, message)) <==>
            FoundInItems(v.items, s.items.value, base, |v.items|, message)
  {
    if step :| FoundBehind(v, s, base, step, message) {
      var w, t :| Leads(v, s, step, w, t) && Found(w, t, base + [step], message);
      assert FoundInItem(v.items, s.items.value, base, step.index, message);
    }
    if i: nat :| i < |v.items| && FoundInItem(v.items, s.items.value, base, i, message) {
      assert Leads(v, s, At(i), v.items[i], s.items.value);
      assert FoundBehind(v, s, base, At(i), message);
    }
  }

  /** The complaints of a validation, from the output itself on. */
  lemma OutputMessages(v: Value, s: Schema, message: string)
    ensures message in Violations(v, s, "") <==> Found(v, s, [], message)
  {
    MessagesNamePlaces(v, s, [], message);
  }

  // ---- fields of an output ----

  /** A list has its positions as fields, each holding its item, and no others. */
  predicate IsPosition(items: seq<Value>, field: string, i: nat) {
    i < |items| && Decimal(i) == field
  }

  lemma {:induction false} ListFieldsExactly(items: seq<Value>, field: string)
    ensures field in ItemFields(items) <==> exists i: nat :: i < |items| && IsPosition(items, field, i)
    ensures forall i: nat :: IsPosition(items, field, i) ==> ItemFields(items)[field] == items[i]
  {
    if items != [] {
      var last := |items| - 1;
      var front := items[..last];
      ListFieldsExactly(front, field);
      forall i: nat ensures IsPosition(items, field, i) <==> IsPosition(front, field, i) || (i == last && Decimal(last) == field) {
      }
      if field == Decimal(last) {
        assert IsPosition(items, field, last);
        forall i: nat | IsPosition(items, field, i) ensures i == last {
          DecimalInjective(i, last);
        }
      }
    }
  }

  /** A required field is there exactly when the output has it with a value that is neither undefined
      nor null; a list also has its length. */
  lemma HasFieldExactly(v: Value, field: string)
    requires IsObject(v)
    ensures HasField(v, field) <==>
            (v.List? && field == "length")
            || (field in FieldsOf(v) && FieldsOf(v)[field] != Undefined && FieldsOf(v)[field] != Null)
  {
    if v.List? {
      ListFieldsExactly(v.items, field);
      if i :| 0 <= i < |v.items| && Decimal(i) == field { assert IsPosition(v.items, field, i); }
      if i: nat :| i < |v.items| && IsPosition(v.items, field, i) { assert Decimal(i) == field; }
    }
  }

  /** The text stands in the serialised output at an index. */
  predicate StandsAt(json: string, text: string, i: nat) {
    i + |text| <= |json| && forall k :: 0 <= k < |text| ==> json[i + k] == text[k]
  }

  predicate Occurs(json: string, text: string) {
    exists i :: 0 <= i <= |json| && StandsAt(json, text, i)
  }

  lemma ContainsExactly(json: string, text: string)
    ensures Contains(json, text) <==> Occurs(json, text)
  {
    forall i: nat ensures StartsAt(json, text, i) <==> StandsAt(json, text, i) {
      if i + |text| <= |json| {
        var part := json[i..i + |text|];
        assert forall k :: 0 <= k < |text| ==> part[k] == json[i + k];
      }
    }
    if i :| 0 <= i <= |json| && StartsAt(json, text, i) { assert StandsAt(json, text, i); }
    if i :| 0 <= i <= |json| && StandsAt(json, text, i) { assert StartsAt(json, text, i); }
  }

  /** Exactly which objects are refused: those with a place the schema complains of, without a required
      field, with a forbidden text, with an action that is not allowed, or with PII in them. */
  lemma RefusedExactly(p: Proposal, policy: Policy)
    requires IsObject(p.output)
    ensures !Acceptable(p, policy) <==>
            || (policy.schema.Some? && exists message :: Found(p.output, policy.schema.value, [], message))
            || (exists i :: 0 <= i < |policy.requiredFields| && !HasField(p.output, policy.requiredFields[i]))
            || (exists i :: 0 <= i < |policy.forbiddenValues| && Occurs(p.json, policy.forbiddenValues[i]))
            || (p.action.Some? && p.action.value !in policy.allowedActions)
            || (exists i :: 0 <= i < |policy.piiPatterns| && Fires(policy.piiPatterns[i], p.json))
  {
    if policy.schema.Some? {
      SilentIffConforms(p.output, policy.schema.value, "");
      var messages := Violations(p.output, policy.schema.value, "");
      forall message ensures message in messages <==> Found(p.output, policy.schema.value, [], message) {
        OutputMessages(p.output, policy.schema.value, message);
      }
      if messages != [] { assert messages[0] in messages; }
    }
    forall i | 0 <= i < |policy.forbiddenValues| ensures Contains(p.json, policy.forbiddenValues[i]) <==> Occurs(p.json, policy.forbiddenValues[i]) {
      ContainsExactly(p.json, policy.forbiddenValues[i]);
    }
  }
}
