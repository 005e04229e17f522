# schemer: document validation, validators and Document, in Dafny

This project models the core of schemer (later mongothon), a Python 2
library that validates MongoDB-style documents against declarative schemas:

- `schema.py`: `Schema.validate` walks an instance against the schema's
  field specs. It writes one error message per offending dotted path
  (`content.title`, `comments.0.commenter`) into an `errors` dict that is
  passed down the recursion and updated in place. It raises a
  `ValidationException` carrying that dict when the dict is not empty.
- `validators.py`: the validator factories `one_of`, `gte` and `lte`. Each
  returns a one-argument function that gives an error message, or nothing
  when the value passes.
- `document.py`: `Document`, a dict whose constructor checks every key
  against a JavaScript-identifier pattern. The constructor turns nested dicts,
  and the elements of list values, into Documents. `__getattr__` exposes the
  entries as attributes.

The modules are:

- `PyValues` (py_values.dfy): the Python values involved and the pieces of
  Python semantics the code relies on. These are truth value, `isinstance`
  against the built-in classes, `==` across bool and int, `dict.get`, and the
  text that `str`/`repr` give for integers and lists.
- `Validators` (validators.dfy): each factory is a function that returns a
  closure `Value -> Option<string>`.
- `SchemaValidation` (schema.dfy): the errors dict is the class `ErrorMap`.
  - The methods `ValidateValue` and `ValidateInstanceAgainstSchema` update
    it in place, with the same branches and loops as the source.
  - Each is proved to leave it equal to a functional fold (`CheckValue`,
    `WalkFields`, `WalkItems`).
  - An order-independent reference set, `Violations`, gives the paths a
    walk must report, and the lemmas relate the fold to it.
  - `Validate` returns `Passed`, `Failed(ValidationException(errors))` or
    `Raised`. `Raised` stands for the other exceptions the walk itself
    raises: AttributeError on `.get` of a non-dict instance, KeyError for a
    field spec without `type`, or a collection spec whose first element is
    not a Schema. Exceptions raised inside a validation function are not
    modelled (see "Left out").
- `Documents` (document.dfy):
  - the key pattern as a greedy scanner (`TailEnd`/`KeyMatches`), proved
    equal to a declarative description (`KeyMatchesIff`);
  - the constructor as the function `Construct` and the method
    `Document.Create` (a loop over the keys, with `Document.StoredValue`
    for each value), the methods proved equal to the functions;
  - `__getattr__` as `Document.GetAttr`.

Where the code and the documented behaviour differ, the model follows the
code:

- When several validators of a field fail, the last message is kept, not
  the first (`LastFailureWins`).
- Fields of the instance that the schema does not declare are not reported
  (`UndeclaredKeyIgnored`).
- A collection field (a list spec) has no `required`: a None value there
  is never reported.
- A `path_prefix` of None and one of `''` both give the bare field name.
- Python's `$` also matches before a single trailing newline, so
  `"author\n"` is a valid key (`KeyExamples`).
- Every element of a list value goes through `Document(item)`. As written,
  a list holding a non-empty string therefore makes the constructor raise,
  and so does the tags list of the repository's own sample document
  (`ListOfStringsRaises`, `TagsExample`).

## Model

| member | source | states |
|---|---|---|
| PyValues.NatToStringRoundTrip | schema.py:24 | the decimal index in an element path is a non-empty digit string that parses back to the index |
| PyValues.PyEqReflexive | validators.py:4 | `==` is reflexive on every value, so `x in (..., x, ...)` holds |
| Validators.OneOf | validators.py:1-6 | the validator accepts a value exactly when it equals one of the arguments; otherwise its message is "'<value>' is not in the list <args tuple>" |
| Validators.OneOfAcceptsArguments | validators.py:1-6 | every argument of `one_of` is itself accepted |
| Validators.OneOfDoesNotFlatten | validators.py:1-5 | `one_of([a, b])` holds one list argument and rejects `a` (when `a` is not a list) |
| Validators.Gte | validators.py:9-13 | fails exactly when the value is below the bound under Python 2 ordering (None below every number, other types above); the message is "<value> is less than the minimum value of <bound>" |
| Validators.Lte | validators.py:16-20 | fails exactly when the value is above the bound under Python 2 ordering; the message is "<value> is greater than the maximum value of <bound>" |
| Validators.GteOnNumbers | validators.py:9-13 | on numbers (bool included), `gte(m)` accepts exactly the values >= m |
| Validators.LteOnNumbers | validators.py:16-20 | on numbers (bool included), `lte(m)` accepts exactly the values <= m |
| Validators.BetweenBounds | validators.py:9-20 | `gte(lo)` and `lte(hi)` both pass exactly on the numbers in [lo, hi]: None fails `gte`, every other non-number fails `lte` |
| SchemaValidation.ValidateValue | schema.py:28-65 | `_validate_value` raises exactly when the fold `CheckValue` is None; otherwise it leaves the errors map equal to the fold's result |
| SchemaValidation.ValidateInstanceAgainstSchema | schema.py:1-25 | the loop over the field specs, with its nested loop over list elements, raises exactly when `WalkFields` is None; otherwise it leaves the errors map equal to the fold's result |
| SchemaValidation.Validate | schema.py:99-106 | raises some other exception exactly when the walk does; passes exactly when no declared path is violated; otherwise raises ValidationException whose errors are the walk's map, keyed by exactly the violated paths |
| SchemaValidation.ApplyChecksKeys | schema.py:52-65 | running the validators adds the field's path exactly when some validator returns a truthy message, and adds nothing else |
| SchemaValidation.CheckValueKeys | schema.py:28-65 | a completed `_validate_value` leaves the earlier entries plus exactly the paths its field violates |
| SchemaValidation.FieldStepKeys | schema.py:4-25 | one loop iteration completes only on a dict instance, and adds exactly the paths its field violates |
| SchemaValidation.WalkFieldsKeys | schema.py:1-25 | a completed walk leaves the entries it started with plus exactly the violated paths; no entry is removed |
| SchemaValidation.WalkItemsKeys | schema.py:23-25 | walking the elements of a collection adds exactly the paths violated under `<path>.<index>` |
| SchemaValidation.NoFailureNoEntry | schema.py:56-63 | when no validator reports, the errors map is unchanged |
| SchemaValidation.LastFailureWins | schema.py:56-63 | all validators run in order and the entry at the path holds the message of the last one that reported |
| SchemaValidation.WalkReadsDeclaredFieldsOnly | schema.py:4-5 | two dict instances that agree on the declared fields (absent counting as None) get the same result |
| SchemaValidation.UndeclaredKeyIgnored | schema.py:4-5 | adding a key the schema does not declare never changes the result |
| SchemaValidation.AbsentSameAsNone | schema.py:5 | a missing key and a key holding None are validated alike |
| SchemaValidation.MissingValue | schema.py:31-34 | a None value records "<path> is required." exactly when the field is required, and nothing else |
| SchemaValidation.WrongTypeSkipsValidators | schema.py:47-50 | a value of the wrong primitive type records one type error at its path, and its validators are not run |
| SchemaValidation.EmbeddedIgnoresValidates | schema.py:39-45 | a field typed by a nested Schema never consults `validates`; a non-dict value there gets "<path> should be an embedded document" |
| SchemaValidation.CollectionExpectsList | schema.py:17-21 | under a collection spec, a value that is neither None nor a list records exactly "Expected a list." at its path; a None value records nothing |
| SchemaValidation.ElementPathsDistinct | schema.py:23-24 | different list elements are reported under different paths |
| Documents.TailEnd | document.py:3 | the greedy scan of `[0-9A-Za-z_$]*` stops at the first character outside the class, or at the end |
| Documents.KeyMatchesIff | document.py:3 | the pattern accepts exactly the identifiers, with or without one trailing newline |
| Documents.KeyExamples | document.py:3-11 | `''` and `'contains space'` are rejected; `'$ref_2'` and `'author\n'` are accepted |
| Documents.Construct | document.py:6-20 | a falsy `initial` gives an empty Document; a truthy non-dict raises; a successful construction from a dict keeps exactly its keys |
| Documents.Convert | document.py:13-20 | a dict value is stored as a Document with the same keys, succeeding exactly when its construction does; a list value succeeds exactly when every element's construction does, and is stored as a list of Documents of the same length; any other value is stored unchanged |
| Documents.ListElementsBecomeDocuments | document.py:16-17 | a falsy list element is stored as an empty Document, and a dict element as the Document built from it |
| Documents.ConstructChecksAllKeys | document.py:7-17 | construction succeeds only if every key at every depth matches the pattern |
| Documents.ConvertChecksAllKeys | document.py:13-20 | converting a value succeeds only if every key inside it matches the pattern |
| Documents.ConstructRoundTrip | document.py:6-20 | a dict with valid keys whose lists hold only dicts is converted without loss: the Document read back as plain values is the input |
| Documents.ConvertRoundTrip | document.py:13-20 | the same for a single stored value |
| Documents.ListOfStringsRaises | document.py:16-17 | a list holding a truthy non-dict element makes the constructor raise |
| Documents.TagsExample | document.py:16-17 | `Document({'tags': ['recipe', 'cookies']})` raises |
| Documents.Document.Create | document.py:6-20 | the constructor's loop succeeds exactly when `Construct` does, and then yields a fresh Document whose entries are `Construct`'s |
| Documents.Document.StoredValue | document.py:13-20 | the per-value branch of the constructor's loop, including the loop over list elements, yields exactly `Convert`'s result |
| Documents.Document.GetAttr | document.py:22-25 | an attribute is found exactly when the key is present, and is then its entry; otherwise AttributeError with the unformatted message "{0} is not found" |

## Left out

- `Schema.apply_defaults` has an empty body and does nothing. `Schema._verify_spec` calls a function the module does not define. Neither is modelled.
- `ValidationException.__str__` is not modelled: it is the repr of the errors dict, whose order Python leaves unspecified.
- Dict iteration order (of `doc_spec` and of `initial`) is a parameter: the schema is a sequence of (field, spec) pairs.
- Which exception escapes is not modelled: AttributeError, KeyError, IndexError and the plain Exception for an invalid key all become `Raised` or `None`.
- Python values are None, bool, int (int and long alike), str, dicts with string keys, and lists. unicode, floats, tuples as values, other key types and user classes are not modelled.
- A field spec's `type` is a nested Schema or one of the built-in classes listed in `PyType`. A `type` that is not a class (a TypeError in `isinstance`) is not modelled. `required` is a bool, not any truthy value.
- A single `validates` entry is a function. One that is not callable, or that returns a truthy non-string, is not modelled.
- SchemaValidation.Validate: a validation function is a total function of the value, so an exception raised inside one (which `fn(value)` would pass out of `validate`) is not modelled; the model never gives `Raised` for it.
- PyValues.IsInstance: int and long are one `Int` case and `isinstance(v, int)` holds for every integer. In Python 2 a long (`5L`, or any value outside the machine word such as `2**63`) is not an instance of `int`, so the source records "Field should be of type <type 'int'>" for it in an `int` field, where the model lets it pass.
- Validators.OneOf: the message renders strings inside the tuple without escaping and renders a dict as `{...}`.
- Validators.Gte: the bound is an int, and a dict in the message is rendered as `{...}`.
- Validators.Lte: the bound is an int, and a dict in the message is rendered as `{...}`.
- Documents.Document.Create: nested Documents are held as values (`Node`), not as separate objects, so aliasing between them is not modelled. Circular references (a dict that contains itself) cannot be expressed.
- Documents.Document.GetAttr: models `__getattr__` only; ordinary attributes and methods of the dict, which Python looks up first, are not modelled.
- `model.py`, the mongothon wrappers (`mongothon/schema.py` adding an `_id` field) and `setup.py` are not part of this model.
