/**
 * The validation engine: `validateAll` walks the rows of its input and the
 * declared fields of each row, evaluates each field's rule and records the
 * field either as passed or with its messages. The status queries and
 * `asserted()` read the recorded state.
 */
module AbstractValidator {
  import opened Wrappers
  import opened Values
  import opened Rules
  import VCE = ValidatorClassException

  /** `$hasValidated`, `$errors` and `$passedFields`; both maps are null
      until something is recorded in them. */
  datatype State = State(hasValidated: bool, errors: Option<ErrorMap>, passedFields: Option<PassMap>)

  /** A concrete validator: the rules its `getRules()` returns (whose names
      the validator sets) and its state. */
  datatype Validator = Validator(rules: seq<RuleEntry>, state: State)

  /** A newly constructed validator: it has not validated, and it has
      recorded neither errors nor passed fields (both still null). */
  function Fresh(rules: seq<RuleEntry>): (v: Validator)
    ensures v.rules == rules
    ensures !v.state.hasValidated
    ensures v.state.errors.None? && v.state.passedFields.None?
    ensures AllErrors(v.state) == map[] && AllPassed(v.state) == map[]
  {
    Validator(rules, State(false, None, None))
  }

  /** `$errors`, reading null as empty. */
  function AllErrors(st: State): ErrorMap {
    st.errors.GetOr(map[])
  }

  /** `$passedFields`, reading null as empty. */
  function AllPassed(st: State): PassMap {
    st.passedFields.GetOr(map[])
  }

  /** `$errors[$row]`, empty when absent. */
  function RowErrors(st: State, k: Key): FieldMessages {
    if k in AllErrors(st) then AllErrors(st)[k] else map[]
  }

  /** `$passedFields[$row]`, empty when absent. */
  function RowPassed(st: State, k: Key): seq<string> {
    if k in AllPassed(st) then AllPassed(st)[k] else []
  }

  /** True when `$input` has at least one integer key. */
  predicate HasIntKey(input: Entries) {
    exists j :: 0 <= j < |input| && input[j].0.IntK?
  }

  /** The rows `validateAll` walks: an input without integer keys is a single
      row stored under index 0; otherwise every entry is a row under its own key. */
  function Normalise(input: Entries): (rows: Entries)
    ensures !HasIntKey(input) ==> rows == [(IntK(0), Arr(input))]
    ensures HasIntKey(input) ==> rows == input
    ensures input == [] ==> rows == [(IntK(0), Arr([]))]
    ensures |rows| >= 1
    ensures DistinctKeys(input) ==> DistinctKeys(rows)
  {
    if HasIntKey(input) then input else [(IntK(0), Arr(input))]
  }

  /** The private `assert($index, $field, $input)` for the `i`-th declared
      rule: name the rule if it has no name, evaluate it, then append the field
      to the row's passed fields or store its messages under the row. */
  function AssertField(v: Validator, k: Key, i: nat, value: Value, eval: Evaluator): (r: Validator)
    requires i < |v.rules|
    ensures r.rules == v.rules[i := Named(v.rules[i])]
    ensures r.state.hasValidated == v.state.hasValidated
    ensures
      var f := v.rules[i].field;
      match eval(f, EffectiveName(v.rules[i]), value)
      case Pass =>
        && r.state.errors == v.state.errors
        && r.state.passedFields == Some(AllPassed(v.state)[k := RowPassed(v.state, k) + [f]])
      case Fail(msgs) =>
        && r.state.passedFields == v.state.passedFields
        && r.state.errors == Some(AllErrors(v.state)[k := RowErrors(v.state, k)[f := msgs]])
  {
    var named := Named(v.rules[i]);
    var rules := v.rules[i := named];
    var f := named.field;
    var st := v.state;
    match eval(f, named.name.value, value)
    case Pass =>
      var row := if st.passedFields.Some? && k in st.passedFields.value then st.passedFields.value[k] else [];
      var passed := if st.passedFields.Some? then st.passedFields.value else map[];
      Validator(rules, st.(passedFields := Some(passed[k := row + [f]])))
    case Fail(msgs) =>
      var errs := if st.errors.Some? then st.errors.value else map[];
      var row := if k in errs then errs[k] else map[];
      Validator(rules, st.(errors := Some(errs[k := row[f := msgs]])))
  }

  /** The field walk of one row from the `i`-th declared rule on. */
  function ValidateRowFrom(v: Validator, k: Key, row: Value, i: nat, eval: Evaluator): (r: Validator)
    requires i <= |v.rules|
    decreases |v.rules| - i
    ensures |r.rules| == |v.rules|
    ensures forall j :: 0 <= j < i ==> r.rules[j] == v.rules[j]
    ensures forall j :: i <= j < |v.rules| ==> r.rules[j] == Named(v.rules[j])
    ensures r.state.hasValidated == v.state.hasValidated
  {
    if i == |v.rules| then v
    else
      var field := v.rules[i].field;
      ValidateRowFrom(AssertField(v, k, i, Lookup(row, field), eval), k, row, i + 1, eval)
  }

  /** Every declared field of one row, in declaration order. */
  function ValidateRow(v: Validator, k: Key, row: Value, eval: Evaluator): (r: Validator)
    ensures r.rules == NameAll(v.rules)
    ensures r.state.hasValidated == v.state.hasValidated
  {
    ValidateRowFrom(v, k, row, 0, eval)
  }

  /** The row walk: every row in order, under its own key. */
  function ValidateRows(v: Validator, rows: Entries, eval: Evaluator): (r: Validator)
    decreases |rows|
    ensures rows == [] ==> r == v
    ensures rows != [] ==> r.rules == NameAll(v.rules)
    ensures r.state.hasValidated == v.state.hasValidated
  {
    if rows == [] then v
    else ValidateRows(ValidateRow(v, rows[0].0, rows[0].1, eval), rows[1..], eval)
  }

  /** `validateAll($input)`: marks the validator as having validated, then
      walks the normalised rows. The state left by earlier runs is kept, and
      the result is the same validator, with every rule now named. */
  function ValidateAll(v: Validator, input: Entries, eval: Evaluator): (r: Validator)
    ensures r.state.hasValidated
    ensures r.rules == NameAll(v.rules)
    ensures Labels(r.rules) == Labels(v.rules)
  {
    ValidateRows(Validator(v.rules, v.state.(hasValidated := true)), Normalise(input), eval)
  }

  /** `errors()`: the recorded errors, null until a failure has been recorded. */
  function Errors(st: State): (r: Option<ErrorMap>)
    ensures r.Some? ==> r.value == AllErrors(st)
    ensures r.None? ==> AllErrors(st) == map[]
  {
    st.errors
  }

  /** `failed()`: unknown before any run, afterwards whether any error is recorded. */
  function Failed(st: State): (r: Option<bool>)
    ensures r.None? <==> !st.hasValidated
    ensures r == Some(true) <==> st.hasValidated && AllErrors(st) != map[]
    ensures r == Some(false) <==> st.hasValidated && AllErrors(st) == map[]
  {
    if !st.hasValidated then None
    else Some(st.errors.Some? && st.errors.value != map[])
  }

  /** `passed()`: unknown before any run, afterwards the negation of `failed()`. */
  function Passed(st: State): (r: Option<bool>)
    ensures r.None? <==> Failed(st).None?
    ensures r.Some? ==> r.value == !Failed(st).value
    ensures r == Some(true) <==> st.hasValidated && AllErrors(st) == map[]
  {
    if !st.hasValidated then None
    else Some(!Failed(st).value)
  }

  /** `asserted()`: raises (`Some`) exactly when `failed()` is true, with an
      exception whose getters return the recorded errors and passed fields. */
  function Asserted(v: Validator): (r: Option<VCE.Exception>)
    ensures r.Some? <==> Failed(v.state) == Some(true)
    ensures r.Some? ==> VCE.GetAllMessages(r.value) == AllErrors(v.state)
    ensures r.Some? ==> VCE.GetAllPassedFields(r.value) == AllPassed(v.state)
  {
    if Failed(v.state) == Some(true)
    then Some(VCE.Construct(VCE.Payload(Errors(v.state), v.state.passedFields)))
    else None
  }
}
