/**
  Document validation of schema.py. `Schema.validate` walks an instance
  against the schema's field specs, writing one entry per offending path into
  an `errors` dict that is passed down the recursion and updated in place, and
  raises a ValidationException carrying that dict when it is not empty.

  The walk is specified by the fold `WalkFields` (one step per schema field,
  in the schema's iteration order); the methods that update the `ErrorMap`
  are proved to leave it equal to that fold, and the lemmas state what the
  fold promises: which paths end up in the map, which message a path keeps,
  and which parts of the instance the walk looks at.

  A walk that raises some other exception (AttributeError on `.get` of an
  instance that is not a dict, KeyError on a field spec without 'type', a
  collection spec whose first element is not a Schema) yields None.
 */
module SchemaValidation {
  import opened PyValues
  import opened Validators

  /** The `validates` entry of a field spec: absent (or None), one function,
      or a list of functions. */
  datatype Validates =
    | NoValidators
    | Single(check: Validator)
    | Chain(checks: seq<Validator>)

  /** The `type` entry of a field spec: a nested Schema or a built-in class. */
  datatype FieldType =
    | Embedded(schema: Schema)
    | Primitive(pyType: PyType)

  /** What a schema maps a field name to. A dict spec carries `required`
      (default False), `type` (None when the key is missing) and `validates`;
      a list spec is an embedded collection whose first element should be a
      Schema (None when it is not, or the list is empty); anything else is
      skipped by the walk. */
  datatype Spec =
    | FieldSpec(required: bool, fieldType: Option<FieldType>, validates: Validates)
    | CollectionSpec(element: Option<Schema>)
    | OtherSpec

  /** `Schema(doc_spec)`: the field specs in the dict's iteration order. */
  datatype Schema = Schema(docSpec: seq<(string, Spec)>)

  /** The exception `validate` raises, holding the path -> message map. */
  datatype ValidationException = ValidationException(errors: map<string, string>)

  /** What one `validate` call does: return, raise ValidationException, or
      raise some other exception from inside the walk. */
  datatype Outcome =
    | Passed
    | Failed(exception: ValidationException)
    | Raised

  // ---------------------------------------------------------------------
  // Paths and messages
  // ---------------------------------------------------------------------

  /** The path of `field` under `prefix`; a falsy prefix (None or '') gives
      the bare field name. */
  function JoinPath(prefix: string, field: string): string
  {
    if prefix == "" then field else prefix + "." + field
  }

  /** The path of element `index` of the list at `path`. */
  function ElementPath(path: string, index: nat): string
  {
    path + "." + NatToString(index)
  }

  function RequiredMessage(path: string): string
  {
    path + " is required."
  }

  function EmbeddedMessage(path: string): string
  {
    path + " should be an embedded document"
  }

  function TypeMessage(t: PyType): string
  {
    "Field should be of type " + TypeRepr(t)
  }

  const ListMessage := "Expected a list."

  /** `if error:` on a validator's result: None and '' are falsy. */
  predicate Reports(r: Option<string>)
  {
    r.Some? && r.value != ""
  }

  /** The validation functions a `validates` entry applies, in order. */
  function Checks(validates: Validates): seq<Validator>
  {
    match validates
    case NoValidators => []
    case Single(f) => [f]
    case Chain(fs) => fs
  }

  // ---------------------------------------------------------------------
  // The walk, as a fold over the errors map
  // ---------------------------------------------------------------------

  /** `apply(fn)` for `checks[k..]` in order: each reporting function
      overwrites the entry at `path`. */
  function ApplyChecks(checks: seq<Validator>, k: nat, value: Value, path: string,
                       errs: map<string, string>): map<string, string>
    requires k <= |checks|
    decreases |checks| - k
  {
    if k == |checks| then errs
    else
      var r := checks[k](value);
      ApplyChecks(checks, k + 1, value, path, if Reports(r) then errs[path := r.value] else errs)
  }

  /** `_validate_value(value, field_spec, path, errors)`. */
  function CheckValue(value: Value, fieldSpec: Spec, path: string,
                      errs: map<string, string>): Option<map<string, string>>
    requires fieldSpec.FieldSpec?
    decreases fieldSpec
  {
    if value.Null? then
      Some(if fieldSpec.required then errs[path := RequiredMessage(path)] else errs)
    else if fieldSpec.fieldType.None? then
      None
    else
      match fieldSpec.fieldType.value
      case Embedded(schema) =>
        if value.Dict? then WalkFields(value, schema, 0, path, errs)
        else Some(errs[path := EmbeddedMessage(path)])
      case Primitive(t) =>
        if !IsInstance(value, t) then Some(errs[path := TypeMessage(t)])
        else Some(ApplyChecks(Checks(fieldSpec.validates), 0, value, path, errs))
  }

  /** One iteration of the loop of `_validate_instance_against_schema`:
      field `i` of `schema` checked against `instance`. */
  function FieldStep(instance: Value, schema: Schema, i: nat, prefix: string,
                     errs: map<string, string>): Option<map<string, string>>
    requires i < |schema.docSpec|
    decreases schema, 0, |schema.docSpec| - i, 0
  {
    if !instance.Dict? then None
    else
      var (field, spec) := schema.docSpec[i];
      var value := Get(instance.fields, field);
      var path := JoinPath(prefix, field);
      match spec
      case FieldSpec(_, _, _) => CheckValue(value, spec, path, errs)
      case CollectionSpec(element) =>
        if value.Null? then Some(errs)
        else if !value.List? then Some(errs[path := ListMessage])
        else if element.None? then (if value.items == [] then Some(errs) else None)
        else WalkItems(value.items, 0, element.value, path, errs)
      case OtherSpec => Some(errs)
  }

  /** `_validate_instance_against_schema` from field `i` on. */
  function WalkFields(instance: Value, schema: Schema, i: nat, prefix: string,
                      errs: map<string, string>): Option<map<string, string>>
    requires i <= |schema.docSpec|
    decreases schema, 0, |schema.docSpec| - i, 1
  {
    if i == |schema.docSpec| then Some(errs)
    else
      match FieldStep(instance, schema, i, prefix, errs)
      case None => None
      case Some(next) => WalkFields(instance, schema, i + 1, prefix, next)
  }

  /** The elements `items[j..]` of an embedded collection, each walked
      against `element` under its indexed path. */
  function WalkItems(items: seq<Value>, j: nat, element: Schema, path: string,
                     errs: map<string, string>): Option<map<string, string>>
    requires j <= |items|
    decreases element, 1, |items| - j
  {
    if j == |items| then Some(errs)
    else
      match WalkFields(items[j], element, 0, ElementPath(path, j), errs)
      case None => None
      case Some(next) => WalkItems(items, j + 1, element, path, next)
  }

  // ---------------------------------------------------------------------
  // Reference: the set of offending paths, independent of the order of the walk
  // ---------------------------------------------------------------------

  /** Some validation function of the chain reports `value`. */
  predicate AnyReports(checks: seq<Validator>, value: Value)
  {
    exists k | 0 <= k < |checks| :: Reports(checks[k](value))
  }

  function ValueViolations(value: Value, fieldSpec: Spec, path: string): set<string>
    requires fieldSpec.FieldSpec?
    decreases fieldSpec
  {
    if value.Null? then (if fieldSpec.required then {path} else {})
    else if fieldSpec.fieldType.None? then {}
    else
      match fieldSpec.fieldType.value
      case Embedded(schema) =>
        if value.Dict? then Violations(value, schema, 0, path) else {path}
      case Primitive(t) =>
        if !IsInstance(value, t) || AnyReports(Checks(fieldSpec.validates), value) then {path} else {}
  }

  function FieldViolations(instance: Value, schema: Schema, i: nat, prefix: string): set<string>
    requires i < |schema.docSpec| && instance.Dict?
    decreases schema, 0, |schema.docSpec| - i, 0
  {
    var (field, spec) := schema.docSpec[i];
    var value := Get(instance.fields, field);
    var path := JoinPath(prefix, field);
    match spec
    case FieldSpec(_, _, _) => ValueViolations(value, spec, path)
    case CollectionSpec(element) =>
      if value.Null? then {}
      else if !value.List? then {path}
      else if element.None? then {}
      else ItemViolations(value.items, 0, element.value, path)
    case OtherSpec => {}
  }

  /** The paths at which fields `i..` of `schema` are violated by `instance`. */
  function Violations(instance: Value, schema: Schema, i: nat, prefix: string): set<string>
    requires i <= |schema.docSpec|
    decreases schema, 0, |schema.docSpec| - i, 1
  {
    if i == |schema.docSpec| || !instance.Dict? then {}
    else FieldViolations(instance, schema, i, prefix) + Violations(instance, schema, i + 1, prefix)
  }

  function ItemViolations(items: seq<Value>, j: nat, element: Schema, path: string): set<string>
    requires j <= |items|
    decreases element, 1, |items| - j
  {
    if j == |items| then {}
    else Violations(items[j], element, 0, ElementPath(path, j)) + ItemViolations(items, j + 1, element, path)
  }

  // ---------------------------------------------------------------------
  // The walk's map holds exactly the earlier entries plus the violated paths
  // ---------------------------------------------------------------------

  lemma {:induction false} ApplyChecksKeys(checks: seq<Validator>, k: nat, value: Value, path: string,
                                           errs: map<string, string>)
    requires k <= |checks|
    ensures ApplyChecks(checks, k, value, path, errs).Keys
         == errs.Keys + (if exists j | k <= j < |checks| :: Reports(checks[j](value)) then {path} else {})
    decreases |checks| - k
  {
    if k < |checks| {
      var r := checks[k](value);
      ApplyChecksKeys(checks, k + 1, value, path, if Reports(r) then errs[path := r.value] else errs);
    }
  }

  lemma {:induction false} CheckValueKeys(value: Value, fieldSpec: Spec, path: string, errs: map<string, string>)
    requires fieldSpec.FieldSpec?
    ensures CheckValue(value, fieldSpec, path, errs).Some? ==>
      CheckValue(value, fieldSpec, path, errs).value.Keys == errs.Keys + ValueViolations(value, fieldSpec, path)
    decreases fieldSpec
  {
    if !value.Null? && fieldSpec.fieldType.Some? {
      match fieldSpec.fieldType.value
      case Embedded(schema) =>
        if value.Dict? {
          WalkFieldsKeys(value, schema, 0, path, errs);
        }
      case Primitive(t) =>
        ApplyChecksKeys(Checks(fieldSpec.validates), 0, value, path, errs);
    }
  }

  lemma {:induction false} FieldStepKeys(instance: Value, schema: Schema, i: nat, prefix: string,
                                         errs: map<string, string>)
    requires i < |schema.docSpec|
    ensures FieldStep(instance, schema, i, prefix, errs).Some? ==>
      instance.Dict? &&
      FieldStep(instance, schema, i, prefix, errs).value.Keys == errs.Keys + FieldViolations(instance, schema, i, prefix)
    decreases schema, 0, |schema.docSpec| - i, 0
  {
    if instance.Dict? {
      var (field, spec) := schema.docSpec[i];
      var value := Get(instance.fields, field);
      var path := JoinPath(prefix, field);
      match spec
      case FieldSpec(_, _, _) =>
        CheckValueKeys(value, spec, path, errs);
      case CollectionSpec(element) =>
        if value.List? && element.Some? {
          WalkItemsKeys(value.items, 0, element.value, path, errs);
        }
      case OtherSpec =>
    }
  }

  /** If the walk from field `i` completes, its map holds exactly the entries
      it started with plus the paths violated by fields `i..`: entries are
      only ever added or overwritten, never removed. */
  lemma {:induction false} WalkFieldsKeys(instance: Value, schema: Schema, i: nat, prefix: string,
                                          errs: map<string, string>)
    requires i <= |schema.docSpec|
    ensures WalkFields(instance, schema, i, prefix, errs).Some? ==>
      WalkFields(instance, schema, i, prefix, errs).value.Keys == errs.Keys + Violations(instance, schema, i, prefix)
    decreases schema, 0, |schema.docSpec| - i, 1
  {
    if i < |schema.docSpec| {
      FieldStepKeys(instance, schema, i, prefix, errs);
      var step := FieldStep(instance, schema, i, prefix, errs);
      if step.Some? {
        WalkFieldsKeys(instance, schema, i + 1, prefix, step.value);
      }
    }
  }

  lemma {:induction false} WalkItemsKeys(items: seq<Value>, j: nat, element: Schema, path: string,
                                         errs: map<string, string>)
    requires j <= |items|
    ensures WalkItems(items, j, element, path, errs).Some? ==>
      WalkItems(items, j, element, path, errs).value.Keys == errs.Keys + ItemViolations(items, j, element, path)
    decreases element, 1, |items| - j
  {
    if j < |items| {
      var itemPath := ElementPath(path, j);
      WalkFieldsKeys(items[j], element, 0, itemPath, errs);
      var walked := WalkFields(items[j], element, 0, itemPath, errs);
      if walked.Some? {
        WalkItemsKeys(items, j + 1, element, path, walked.value);
      }
    }
  }

  // ---------------------------------------------------------------------
  // Validators: all run, in order, and the last failure wins
  // ---------------------------------------------------------------------

  /** When no function of `checks[k..]` reports, the map is left unchanged. */
  lemma {:induction false} NoFailureNoEntry(checks: seq<Validator>, k: nat, value: Value, path: string,
                                            errs: map<string, string>)
    requires k <= |checks|
    requires forall j | k <= j < |checks| :: !Reports(checks[j](value))
    ensures ApplyChecks(checks, k, value, path, errs) == errs
    decreases |checks| - k
  {
    if k < |checks| {
      NoFailureNoEntry(checks, k + 1, value, path, errs);
    }
  }

  /** When `checks[last]` is the last function of `checks[k..]` that reports,
      the entry at `path` holds its message, whatever earlier ones said. */
  lemma {:induction false} LastFailureWins(checks: seq<Validator>, k: nat, last: nat, value: Value,
                                           path: string, errs: map<string, string>)
    requires k <= last < |checks|
    requires Reports(checks[last](value))
    requires forall j | last < j < |checks| :: !Reports(checks[j](value))
    ensures ApplyChecks(checks, k, value, path, errs) == errs[path := checks[last](value).value]
    decreases |checks| - k
  {
    var r := checks[k](value);
    var next := if Reports(r) then errs[path := r.value] else errs;
    if k == last {
      NoFailureNoEntry(checks, k + 1, value, path, next);
    } else {
      LastFailureWins(checks, k + 1, last, value, path, next);
      assert next[path := checks[last](value).value] == errs[path := checks[last](value).value];
    }
  }

  // ---------------------------------------------------------------------
  // The walk looks only at the declared fields of the instance
  // ---------------------------------------------------------------------

  /** Two dict instances that agree on every field the schema declares from
      `i` on (absent counting as None) get the same result. */
  lemma {:induction false} WalkReadsDeclaredFieldsOnly(a: map<string, Value>, b: map<string, Value>,
                                                       schema: Schema, i: nat, prefix: string,
                                                       errs: map<string, string>)
    requires i <= |schema.docSpec|
    requires forall j | i <= j < |schema.docSpec| :: Get(a, schema.docSpec[j].0) == Get(b, schema.docSpec[j].0)
    ensures WalkFields(Dict(a), schema, i, prefix, errs) == WalkFields(Dict(b), schema, i, prefix, errs)
    decreases |schema.docSpec| - i
  {
    if i < |schema.docSpec| {
      assert FieldStep(Dict(a), schema, i, prefix, errs) == FieldStep(Dict(b), schema, i, prefix, errs);
      var step := FieldStep(Dict(a), schema, i, prefix, errs);
      if step.Some? {
        WalkReadsDeclaredFieldsOnly(a, b, schema, i + 1, prefix, step.value);
      }
    }
  }

  /** An instance key the schema does not declare never affects validation. */
  lemma UndeclaredKeyIgnored(fields: map<string, Value>, key: string, v: Value, schema: Schema,
                             prefix: string, errs: map<string, string>)
    requires forall j | 0 <= j < |schema.docSpec| :: schema.docSpec[j].0 != key
    ensures WalkFields(Dict(fields[key := v]), schema, 0, prefix, errs)
         == WalkFields(Dict(fields), schema, 0, prefix, errs)
  {
    WalkReadsDeclaredFieldsOnly(fields[key := v], fields, schema, 0, prefix, errs);
  }

  /** A key that is absent and a key whose value is None are the same to the walk. */
  lemma AbsentSameAsNone(fields: map<string, Value>, key: string, schema: Schema,
                         prefix: string, errs: map<string, string>)
    ensures WalkFields(Dict(fields[key := Null]), schema, 0, prefix, errs)
         == WalkFields(Dict(fields - {key}), schema, 0, prefix, errs)
  {
    WalkReadsDeclaredFieldsOnly(fields[key := Null], fields - {key}, schema, 0, prefix, errs);
  }

  // ---------------------------------------------------------------------
  // One field at a time
  // ---------------------------------------------------------------------

  /** A None value records "<path> is required." exactly when the field is
      required, and nothing else is checked. */
  lemma MissingValue(fieldSpec: Spec, path: string, errs: map<string, string>)
    requires fieldSpec.FieldSpec?
    ensures CheckValue(Null, fieldSpec, path, errs).Some?
    ensures CheckValue(Null, fieldSpec, path, errs).value.Keys == errs.Keys + (if fieldSpec.required then {path} else {})
    ensures fieldSpec.required ==> CheckValue(Null, fieldSpec, path, errs).value[path] == RequiredMessage(path)
  {
  }

  /** A value of the wrong primitive type records one type error at its path;
      its validators are not run. */
  lemma WrongTypeSkipsValidators(value: Value, required: bool, t: PyType, validates: Validates,
                                 path: string, errs: map<string, string>)
    requires !value.Null? && !IsInstance(value, t)
    ensures CheckValue(value, FieldSpec(required, Some(Primitive(t)), validates), path, errs)
         == Some(errs[path := TypeMessage(t)])
  {
  }

  /** A field typed by a nested Schema never consults `validates`; a value
      that is not a dict gets one error and is not recursed into. */
  lemma EmbeddedIgnoresValidates(value: Value, required: bool, schema: Schema, v1: Validates, v2: Validates,
                                 path: string, errs: map<string, string>)
    ensures CheckValue(value, FieldSpec(required, Some(Embedded(schema)), v1), path, errs)
         == CheckValue(value, FieldSpec(required, Some(Embedded(schema)), v2), path, errs)
    ensures !value.Null? && !value.Dict? ==>
      CheckValue(value, FieldSpec(required, Some(Embedded(schema)), v1), path, errs)
      == Some(errs[path := EmbeddedMessage(path)])
  {
  }

  /** Under a collection spec, a value that is neither None nor a list
      records "Expected a list." at its path and nothing else; a None value
      records nothing. */
  lemma CollectionExpectsList(fields: map<string, Value>, schema: Schema, i: nat, prefix: string,
                              errs: map<string, string>)
    requires i < |schema.docSpec| && schema.docSpec[i].1.CollectionSpec?
    ensures var value := Get(fields, schema.docSpec[i].0);
      !value.Null? && !value.List? ==>
        FieldStep(Dict(fields), schema, i, prefix, errs)
        == Some(errs[JoinPath(prefix, schema.docSpec[i].0) := ListMessage])
    ensures Get(fields, schema.docSpec[i].0).Null? ==>
      FieldStep(Dict(fields), schema, i, prefix, errs) == Some(errs)
  {
  }

  /** Different elements of a list are reported under different paths. */
  lemma ElementPathsDistinct(path: string, i: nat, j: nat)
    requires i != j
    ensures ElementPath(path, i) != ElementPath(path, j)
  {
    if ElementPath(path, i) == ElementPath(path, j) {
      var p := path + ".";
      assert ElementPath(path, i)[|p|..] == NatToString(i);
      assert ElementPath(path, j)[|p|..] == NatToString(j);
      NatToStringInjective(i, j);
    }
  }

  // ---------------------------------------------------------------------
  // The imperative walk over the errors dict
  // ---------------------------------------------------------------------

  /** The `errors` dict that the walk fills in place. */
  class ErrorMap {
    var entries: map<string, string>

    constructor ()
      ensures entries == map[]
    {
      entries := map[];
    }
  }

  /** `_validate_value`: returns false when the code raises. */
  method ValidateValue(value: Value, fieldSpec: Spec, path: string, errors: ErrorMap) returns (ok: bool)
    requires fieldSpec.FieldSpec?
    modifies errors
    ensures ok == CheckValue(value, fieldSpec, path, old(errors.entries)).Some?
    ensures ok ==> errors.entries == CheckValue(value, fieldSpec, path, old(errors.entries)).value
    decreases fieldSpec
  {
    if value.Null? {
      if fieldSpec.required {
        errors.entries := errors.entries[path := RequiredMessage(path)];
      }
      return true;
    }
    if fieldSpec.fieldType.None? {
      return false;
    }
    match fieldSpec.fieldType.value
    case Embedded(schema) =>
      if value.Dict? {
        ok := ValidateInstanceAgainstSchema(value, schema, path, errors);
      } else {
        errors.entries := errors.entries[path := EmbeddedMessage(path)];
        ok := true;
      }
    case Primitive(t) =>
      if !IsInstance(value, t) {
        errors.entries := errors.entries[path := TypeMessage(t)];
        return true;
      }
      var checks := Checks(fieldSpec.validates);
      var k := 0;
      while k < |checks|
        invariant 0 <= k <= |checks|
        invariant ApplyChecks(checks, 0, value, path, old(errors.entries))
               == ApplyChecks(checks, k, value, path, errors.entries)
      {
        var error := checks[k](value);
        if Reports(error) {
          errors.entries := errors.entries[path := error.value];
        }
        k := k + 1;
      }
      ok := true;
  }

  /** `_validate_instance_against_schema`: returns false when the code raises. */
  method ValidateInstanceAgainstSchema(instance: Value, schema: Schema, prefix: string, errors: ErrorMap)
    returns (ok: bool)
    modifies errors
    ensures ok == WalkFields(instance, schema, 0, prefix, old(errors.entries)).Some?
    ensures ok ==> errors.entries == WalkFields(instance, schema, 0, prefix, old(errors.entries)).value
    decreases schema
  {
    var i := 0;
    while i < |schema.docSpec|
      invariant 0 <= i <= |schema.docSpec|
      invariant WalkFields(instance, schema, 0, prefix, old(errors.entries))
             == WalkFields(instance, schema, i, prefix, errors.entries)
    {
      if !instance.Dict? {
        return false;
      }
      ghost var before := errors.entries;
      var (field, spec) := schema.docSpec[i];
      var value := Get(instance.fields, field);
      var path := JoinPath(prefix, field);
      match spec {
        case FieldSpec(_, _, _) =>
          ok := ValidateValue(value, spec, path, errors);
          if !ok {
            return;
          }
        case CollectionSpec(element) =>
          if !value.Null? {
            if !value.List? {
              errors.entries := errors.entries[path := ListMessage];
            } else {
              var items := value.items;
              var j := 0;
              while j < |items|
                invariant 0 <= j <= |items|
                invariant element.Some? || j == 0
                invariant element.Some? ==>
                  WalkItems(items, 0, element.value, path, before) == WalkItems(items, j, element.value, path, errors.entries)
                invariant element.None? ==> errors.entries == before
              {
                if element.None? {
                  return false;
                }
                ok := ValidateInstanceAgainstSchema(items[j], element.value, ElementPath(path, j), errors);
                if !ok {
                  return;
                }
                j := j + 1;
              }
            }
          }
        case OtherSpec =>
      }
      assert FieldStep(instance, schema, i, prefix, before) == Some(errors.entries);
      i := i + 1;
    }
    ok := true;
  }

  /** `Schema.validate`: raises ValidationException carrying the errors map
      exactly when the completed walk left it non-empty, i.e. exactly when
      some declared path is violated; the map's keys are those paths. */
  method Validate(schema: Schema, instance: Value) returns (outcome: Outcome)
    ensures outcome.Raised? <==> WalkFields(instance, schema, 0, "", map[]).None?
    ensures outcome.Passed? <==> !outcome.Raised? && Violations(instance, schema, 0, "") == {}
    ensures outcome.Failed? ==>
      Some(outcome.exception.errors) == WalkFields(instance, schema, 0, "", map[]) &&
      outcome.exception.errors.Keys == Violations(instance, schema, 0, "")
  {
    var errors := new ErrorMap();
    var ok := ValidateInstanceAgainstSchema(instance, schema, "", errors);
    WalkFieldsKeys(instance, schema, 0, "", map[]);
    if !ok {
      return Raised;
    }
    if |errors.entries| > 0 {
      return Failed(ValidationException(errors.entries));
    }
    return Passed;
  }
}
