# validator-class, modelled in Dafny

This project models the core of the PHP package `aesonus/validator-class`.

- `AbstractValidator` runs a keyed set of rules over one input row or over many rows. It records, per row index, the fields that passed and the messages of the fields that failed. It reports `passed()`, `failed()` and `errors()`.
- On `asserted()` it raises a `ValidatorClassException`. That exception carries a snapshot of those records, and callers query it by row.

The model is purely functional:

- A validator is a value: `Validator(rules, state)`.
- Each PHP method that mutates the object becomes a function that returns the updated validator.
- PHP `null` is `None`.
- Arrays are sequences of key/value pairs, in insertion order.

The rule library is not modelled. Every operation takes an `Evaluator` parameter instead. An evaluator maps a field, the display name its rule is evaluated under, and a value to `Pass` or `Fail(messages)`.

Modules, one file each:

- `Wrappers`: `Option` and `Result`.
- `Values`: PHP values and keys, and the `isset` lookup of a field in a row.
- `DisplayName`: the name derived for an unnamed rule, `ucwords(str_replace('_', ' ', $field))`.
- `Rules`: rule entries, the naming step, and labels (field plus effective name).
- `ValidatorClassException`: the exception's constructor and getters.
- `AbstractValidator`:
  - input normalisation;
  - the private `assert`;
  - the row and field walk of `validateAll`;
  - `errors`, `failed`, `passed` and `asserted`.
- `Expected`: reference definitions of what one run records, written per row and per field instead of as a walk over mutable state.
- `RunProperties`: the walk proved against the reference definitions. This covers:
  - the exact effect on any state;
  - the exact state after a run on a fresh validator;
  - the pass/fail partition of each row's fields;
  - what persists between runs.
- `ValidatorInterface`: the documented contract of the interface, stated about the model.
- `Scenarios`: each behaviour exercised by the repository's test suite, proved for every rule library that gives the test's verdicts on the test's values.

The model follows the code as written; in particular:

- `validateAll` does not reset `errors` or `passedFields`, so records accumulate across runs. `Scenarios.StaleFailureSurvivesValidRerun` shows a valid run that still reports failure after an earlier failing run.
- After a run in which every field passed, `errors()` is still null, not an empty array (`RunProperties.FreshPassingRunLeavesErrorsNull`). The interface documents null only for "no validation performed".
- `passedFields` gets an entry only for rows in which some field passed, not one per row (`RunProperties.FreshRunRows`).
- `getMessages($row)` for a row without errors is an error, not an empty array. This is PHP's undefined-offset notice followed by a `TypeError` on the `array` return type. The model returns `Failure(UndefinedRow(row))`.

## Model

| member | source | states |
|---|---|---|
| Values.Lookup | src/AbstractValidator.php:69 | A field read from a row is the row's value under that string key. It is null when the key is missing, when the value is null, or when the row is not an array. |
| DisplayName.Derive | src/AbstractValidator.php:93 | The derived name has the field's length and contains no underscore. Each underscore becomes a space. A character at the start of the field, or after an underscore or whitespace, is upper-cased (ASCII only). Every other character is kept. |
| DisplayName.DeriveIdempotent | src/AbstractValidator.php:93 | Deriving a name from a derived name changes nothing. |
| DisplayName.DeriveWord | src/AbstractValidator.php:93 | For a field that is one word without underscores or whitespace, the name is the field with its first letter capitalised. |
| Rules.Named | src/AbstractValidator.php:92-94 | A rule without a name gets the name derived from its field. A rule with a name is left exactly as it is. The field never changes, and afterwards every rule has a name. |
| Rules.Labels | src/AbstractValidator.php:91-95 | Each rule is evaluated under its field and effective name. Naming a rule does not change that label. |
| Rules.NameAll | src/AbstractValidator.php:67-72 | After a walk every rule is named, and the labels of the rule set are unchanged. |
| ValidatorClassException.Construct | src/ValidatorClassException.php:33-39 | The exception keeps the `errors` and `passed` members of its payload as its messages and passed fields. |
| ValidatorClassException.GetAllPassedFields | src/ValidatorClassException.php:50-53 | Returns all passed fields by row, or an empty map when none were recorded. |
| ValidatorClassException.GetPassedFields | src/ValidatorClassException.php:41-48 | With a row index, returns that row's passed fields, or the empty list for a row that recorded none. Without an index, returns every row. |
| ValidatorClassException.GetAllMessages | src/ValidatorClassException.php:69-72 | Returns all messages by row, or an empty map when none were recorded. |
| ValidatorClassException.GetRowMessages | src/ValidatorClassException.php:74-77 | Succeeds exactly when the row recorded messages, and then returns them. Any other row gives an undefined-row error. |
| ValidatorClassException.GetMessages | src/ValidatorClassException.php:60-67 | Without an index, returns all messages. With an index, succeeds exactly when that row has messages, and returns that row's messages. |
| AbstractValidator.Fresh | src/AbstractValidator.php:29-37 | A new validator has its rules, has not validated, and holds null errors and null passed fields. |
| AbstractValidator.Errors | src/AbstractValidator.php:39-42 | `errors()` returns the recorded error map as it is, and is null only when nothing is recorded. `ValidatorInterface.FreshIsUnknown` proves it null before a run; `RunProperties.FreshPassingRunLeavesErrorsNull` proves it still null after a run with no failure. |
| AbstractValidator.Normalise | src/AbstractValidator.php:63-65 | Input without integer keys becomes one row under index 0. Input with an integer key is used as the row list. Empty input is one empty row. There is always at least one row, and unique keys stay unique. |
| AbstractValidator.AssertField | src/AbstractValidator.php:88-100 | Only the rule being asserted is named. On a pass, the field is appended to the row's passed list and the errors are untouched. On a fail, the rule's messages are stored under that row and field and the passed fields are untouched. |
| AbstractValidator.ValidateRowFrom | src/AbstractValidator.php:68-71 | Walking the remaining fields of a row leaves the rules before the current one as they were, names the rest, and keeps the validated flag. |
| AbstractValidator.ValidateRow | src/AbstractValidator.php:67-72 | A row walk names every rule and keeps the validated flag. |
| AbstractValidator.ValidateRows | src/AbstractValidator.php:67-72 | With no rows the validator is unchanged. Otherwise every rule is named. The validated flag is kept. |
| AbstractValidator.ValidateAll | src/AbstractValidator.php:60-74 | Marks the validator as having validated. Every rule is named, and the labels stay as declared. |
| AbstractValidator.Failed | src/AbstractValidator.php:44-50 | Null before any run. Afterwards, true exactly when some error is recorded and false exactly when none is. |
| AbstractValidator.Passed | src/AbstractValidator.php:52-58 | Null exactly when `failed()` is null, and otherwise its negation. True exactly when a run happened and no error is recorded. |
| AbstractValidator.Asserted | src/AbstractValidator.php:76-86 | Raises exactly when `failed()` is true. The exception's messages and passed fields are the validator's records, under the identity JSON transport listed in "## Left out". |
| Expected.PassOrFail | src/AbstractValidator.php:95-99 | With unique fields, each field of a row is listed as passed exactly when its rule passes, and has messages exactly when it fails, never both. |
| RunProperties.RowFromEffect | src/AbstractValidator.php:68-71 | From any state, walking a row from a given rule extends that row's passed list by the passing fields in order and adds the failing fields' messages. Other rows are untouched, and a map stays null when nothing is added to it. |
| RunProperties.SingleRowRun | src/AbstractValidator.php:60-74 | On any state, a run over input that is a single row (index 0 for keyless input) appends the passing fields to that row's passed list and adds the failing fields' messages. Nothing is reset, and a map stays null when nothing is added to it. |
| RunProperties.RepeatedSingleRowRun | src/AbstractValidator.php:60-74 | Running the same single-row input twice on a fresh validator lists that row's passing fields twice, because nothing is reset. |
| RunProperties.RowsOnto | src/AbstractValidator.php:67-72 | From any state, walking any rows extends each row's record in turn by its reference records. Earlier records are kept, and a repeated index is extended again. |
| RunProperties.RunOntoAnyState | src/AbstractValidator.php:60-74 | On any state, `validateAll` sets the validated flag and then extends each normalised row's record in turn, with nothing reset. |
| RunProperties.RowEffect | src/AbstractValidator.php:67-72 | Walking a row that has nothing recorded adds exactly that row's reference records under its index. |
| RunProperties.RowsEffect | src/AbstractValidator.php:67-72 | Walking rows with unique, unrecorded indices adds exactly the reference maps of passed fields and errors. |
| RunProperties.FreshRun | src/AbstractValidator.php:60-74 | After one run on a fresh validator the state is exactly: validated, the reference error map or null when nothing failed, and the reference passed map or null when nothing passed. |
| RunProperties.FreshRowRecord | src/AbstractValidator.php:67-72 | After one run on a fresh validator, each row's passed list is its passing fields in declaration order, and its messages are those of its failing fields. |
| RunProperties.RecordOfRow | src/AbstractValidator.php:96-98 | A state that holds the reference maps of some rows holds each row's reference record under that row's index. |
| RunProperties.Partition | src/AbstractValidator.php:95-99 | With unique fields, after one fresh run each declared field of each row is passed exactly when its rule passes. It has that rule's messages exactly when its rule fails, never both and never neither. |
| RunProperties.FreshRunRows | src/AbstractValidator.php:96-98 | After one fresh run, a row index has errors exactly when some field of that row fails. It has passed fields exactly when some field of that row passes. |
| RunProperties.FieldsNonEmpty | src/AbstractValidator.php:95-99 | A row has messages exactly when one of its fields fails, and passed fields exactly when one passes. |
| RunProperties.FreshRunFailed | src/AbstractValidator.php:44-58 | After one fresh run, `failed()` is true exactly when some field of some row fails, and `passed()` is its negation. |
| RunProperties.FreshRunFailedRows | src/AbstractValidator.php:44-50 | After one fresh run, `failed()` is true exactly when some row has a failing field. |
| RunProperties.FreshPassingRunLeavesErrorsNull | src/AbstractValidator.php:39-42 | After a fresh run in which nothing fails, `errors()` is null, not an empty array. |
| RunProperties.RowsKeepErrors | src/AbstractValidator.php:60-74 | A walk never removes a recorded row index from the errors, and never turns recorded errors back into null. |
| RunProperties.FailureIsKept | src/AbstractValidator.php:60-74 | Once a validator has failed, every later run reports failed and not passed, whatever its input. |
| ValidatorInterface.FreshIsUnknown | src/Contracts/ValidatorInterface.php:31-55 | Before any run, `passed()`, `failed()` and `errors()` are null, and `asserted()` does not raise. |
| ValidatorInterface.ErrorsIndexedByRow | src/Contracts/ValidatorInterface.php:50-55 | The indices of the errors and passed fields are indices of the input rows. A single row is indexed by 0. |
| ValidatorInterface.AssertedIffFailed | src/Contracts/ValidatorInterface.php:43-48 | After one fresh run, `asserted()` raises exactly when some field of some row fails. |
| ValidatorInterface.AssertedRowQueries | src/Contracts/ValidatorInterface.php:43-48 | For each row, the raised exception gives that row's failing fields' messages, or an error when the row has none. It gives the row's passing fields in order. |
| ValidatorInterface.AssertedMissingRow | src/ValidatorClassException.php:41-77 | For an index that is no input row, the raised exception gives an undefined-row error for messages and an empty list of passed fields. |
| Scenarios.TestLabels | tests/AbstractValidatorTest.php:37-40 | The test's unnamed rules `field` and `numbers` are evaluated under the names `Field` and `Numbers`. |
| Scenarios.PassesValidData | tests/AbstractValidatorTest.php:49-57 | A single row on which both rules pass gives passed true and failed false, and `errors()` stays null. |
| Scenarios.ExceptionHasPassedField | tests/AbstractValidatorTest.php:62-71 | A single row with a valid `field` and an invalid `numbers` raises, and `getPassedFields(0)` is exactly `["field"]`. |
| Scenarios.FailsInvalidData | tests/AbstractValidatorTest.php:77-133 | A single row on which both rules fail: failed true and passed false; `asserted()` raises; `errors()[0]` and `getMessages(0)` have exactly the keys `field` and `numbers`; `getPassedFields(0)` is empty. |
| Scenarios.MultiRowPassesValidData | tests/AbstractValidatorTest.php:155-164 | Two rows on which every rule passes give passed true and failed false, and `asserted()` does not raise. |
| Scenarios.MultiRowFailsSomeData | tests/AbstractValidatorTest.php:169-184 | Two rows with only `field`, the second invalid, fail. Row 1 is in `errors()` and in `getMessages()`, and `getMessages(1)` has two fields, because the missing `numbers` is judged on null. |
| Scenarios.MultiRowExceptionHasPassedField | tests/AbstractValidatorTest.php:189-206 | Two rows, the second with a valid `field` and an invalid `numbers`: the run fails and `getMessages(1)` has one field. Row 1 is in `getPassedFields()`, and `getPassedFields(1)` contains `field`. |
| Scenarios.EmptyInputFails | src/AbstractValidator.php:63-69 | Empty input judges every rule on null under row 0. When `field` fails on null, the run fails with `field` among row 0's messages. |
| Scenarios.ValidRerun | src/AbstractValidator.php:60-74 | A later run on which every rule passes leaves the recorded errors as they were and appends both fields to row 0's passed list. |
| Scenarios.StaleFailureSurvivesValidRerun | src/AbstractValidator.php:60-74 | After a failing run, a run on valid data still reports failed and not passed. Row 0 then lists `field` both as passed and among its messages. |

## Left out

- The rule library (`Respect\Validation`) is a parameter, the `Evaluator`. Whether a rule passes, and which messages it produces, is not modelled. Nothing requires a failure's message list to be non-empty.
- `getRules()` is a rule sequence fixed for the validator's lifetime. The model keeps the rules in the validator and returns them with their names filled in. Object identity and PHP's shared rule objects are not modelled: `validateAll` returns the updated validator value, not `$this`.
- Rule field names are PHP array keys, so they are unique. The model allows any sequence of entries. The properties that need unique fields require `DistinctFields`.
- PHP stores a canonical integer string key such as `'0'` as the integer 0. The model does not: a `StrK("0")` key is a string key. So `['0' => [...]]`, which PHP walks as a row list, is read by `Normalise` as a single row. Rule field names of that form are likewise read as string keys.
- Values have no float case and no object case. Float field values, and `ArrayAccess` rows whose `isset` calls `offsetExists`, cannot be expressed.
- `isset` on a string row (string offsets) is not modelled. A row that is not an array reads every field as null.
- The JSON transport inside `asserted()` and the exception constructor is taken as the identity on the data. This leaves out `json_encode` failing, for example on a field name or message that is not valid UTF-8: the exception then receives an empty message, `json_decode` yields null, and both of its maps are null although `failed()` is true. So is the array-versus-object shape of the decoded JSON. The exception's message text, code and previous exception are not modelled.
- Exceptions from a rule other than a nested validation exception, which the source does not catch, are not modelled.
- Map key order is not modelled: Dafny maps are unordered. Within one row, the order of passed fields is modelled, since they are a sequence.
- ValidatorClassException.GetRowMessages: the PHP notice and `TypeError` raised for a row without messages are a single `UndefinedRow` error.
- The `@return $this` of `validateAll` and the chaining of calls are the returned validator value. Concurrency and re-entrancy do not arise in a pure model.
