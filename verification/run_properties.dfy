/**
 * What `validateAll` records, proved against the reference definitions:
 * the exact effect of one row walk on any state, the exact state after a run
 * on a fresh validator, the pass/fail partition of each row's fields, and the
 * consequences of state being kept between runs.
 */
module RunProperties {
  import opened Wrappers
  import opened Values
  import opened Rules
  import opened Expected
  import opened AbstractValidator

  /** The state after a row walk from the `i`-th rule on, on any state: the
      row's passed fields grow by the fields that pass, its messages by the
      fields that fail, every other row is untouched, and a map stays null
      when nothing is recorded in it. */
  lemma RowFromEffect(v: Validator, k: Key, row: Value, i: nat, eval: Evaluator)
    requires i <= |v.rules|
    ensures
      var r := ValidateRowFrom(v, k, row, i, eval).state;
      var P := PassedFields(Labels(v.rules)[i..], row, eval);
      var E := FailedFields(Labels(v.rules)[i..], row, eval);
      && r.errors == (if E == map[] then v.state.errors
                      else Some(AllErrors(v.state)[k := RowErrors(v.state, k) + E]))
      && r.passedFields == (if P == [] then v.state.passedFields
                            else Some(AllPassed(v.state)[k := RowPassed(v.state, k) + P]))
  {
    RowFromErrors(v, k, row, i, eval);
    RowFromPassed(v, k, row, i, eval);
  }

  /** The errors half of `RowFromEffect`. */
  lemma {:induction false} RowFromErrors(v: Validator, k: Key, row: Value, i: nat, eval: Evaluator)
    requires i <= |v.rules|
    decreases |v.rules| - i
    ensures
      var E := FailedFields(Labels(v.rules)[i..], row, eval);
      ValidateRowFrom(v, k, row, i, eval).state.errors
        == (if E == map[] then v.state.errors else Some(AllErrors(v.state)[k := RowErrors(v.state, k) + E]))
  {
    if i < |v.rules| {
      var f := v.rules[i].field;
      var mid := AssertField(v, k, i, Lookup(row, f), eval);
      var ls := Labels(v.rules)[i..];
      StepRecord(v, k, row, i, eval);
      assert ValidateRowFrom(v, k, row, i, eval) == ValidateRowFrom(mid, k, row, i + 1, eval);
      RowFromErrors(mid, k, row, i + 1, eval);
      var verdict := Judge(ls[0], row, eval);
      if verdict.Pass? {
        assert mid.state.errors == v.state.errors;
      } else {
        assert f in FailedFields(ls, row, eval);
        AddErrors(v.state, k, f, verdict.messages, FailedFields(ls[1..], row, eval));
      }
    } else {
      assert Labels(v.rules)[i..] == [];
    }
  }

  /** The passed-fields half of `RowFromEffect`. */
  lemma {:induction false} RowFromPassed(v: Validator, k: Key, row: Value, i: nat, eval: Evaluator)
    requires i <= |v.rules|
    decreases |v.rules| - i
    ensures
      var P := PassedFields(Labels(v.rules)[i..], row, eval);
      ValidateRowFrom(v, k, row, i, eval).state.passedFields
        == (if P == [] then v.state.passedFields else Some(AllPassed(v.state)[k := RowPassed(v.state, k) + P]))
  {
    if i < |v.rules| {
      var f := v.rules[i].field;
      var mid := AssertField(v, k, i, Lookup(row, f), eval);
      var ls := Labels(v.rules)[i..];
      StepRecord(v, k, row, i, eval);
      assert ValidateRowFrom(v, k, row, i, eval) == ValidateRowFrom(mid, k, row, i + 1, eval);
      RowFromPassed(mid, k, row, i + 1, eval);
      var verdict := Judge(ls[0], row, eval);
      if verdict.Pass? {
        AppendPassed(v.state, k, f, PassedFields(ls[1..], row, eval));
      } else {
        assert mid.state.passedFields == v.state.passedFields;
      }
    } else {
      assert Labels(v.rules)[i..] == [];
    }
  }

  /** One step of a row walk: the `i`-th rule is judged under its label,
      the labels stay, and the step records what the reference records for
      the first label of the rest. */
  lemma StepRecord(v: Validator, k: Key, row: Value, i: nat, eval: Evaluator)
    requires i < |v.rules|
    ensures
      var f := v.rules[i].field;
      var mid := AssertField(v, k, i, Lookup(row, f), eval);
      var ls := Labels(v.rules)[i..];
      var verdict := Judge(ls[0], row, eval);
      && ls[0].field == f
      && Labels(mid.rules) == Labels(v.rules)
      && ls[1..] == Labels(mid.rules)[i + 1..]
      && (verdict.Pass? ==>
            && PassedFields(ls, row, eval) == [f] + PassedFields(ls[1..], row, eval)
            && FailedFields(ls, row, eval) == FailedFields(ls[1..], row, eval)
            && mid.state == v.state.(passedFields := Some(AllPassed(v.state)[k := RowPassed(v.state, k) + [f]])))
      && (verdict.Fail? ==>
            && PassedFields(ls, row, eval) == PassedFields(ls[1..], row, eval)
            && FailedFields(ls, row, eval) == map[f := verdict.messages] + FailedFields(ls[1..], row, eval)
            && mid.state == v.state.(errors := Some(AllErrors(v.state)[k := RowErrors(v.state, k)[f := verdict.messages]])))
  {
  }

  /** Recording a pass and then the passes `rest` is recording `[f] + rest`. */
  lemma AppendPassed(st: State, k: Key, f: string, rest: seq<string>)
    ensures
      var mid := st.(passedFields := Some(AllPassed(st)[k := RowPassed(st, k) + [f]]));
      (if rest == [] then mid.passedFields else Some(AllPassed(mid)[k := RowPassed(mid, k) + rest]))
        == Some(AllPassed(st)[k := RowPassed(st, k) + ([f] + rest)])
  {
    var mid := st.(passedFields := Some(AllPassed(st)[k := RowPassed(st, k) + [f]]));
    assert AllPassed(mid) == AllPassed(st)[k := RowPassed(st, k) + [f]];
    assert RowPassed(mid, k) == RowPassed(st, k) + [f];
    assert AllPassed(mid)[k := RowPassed(mid, k) + rest] == AllPassed(st)[k := RowPassed(st, k) + [f] + rest];
    assert RowPassed(st, k) + [f] + rest == RowPassed(st, k) + ([f] + rest);
    if rest == [] {
      assert [f] + rest == [f];
    }
  }

  /** Recording a failure and then the failures `rest` is recording their union. */
  lemma AddErrors(st: State, k: Key, f: string, msgs: seq<string>, rest: FieldMessages)
    ensures
      var mid := st.(errors := Some(AllErrors(st)[k := RowErrors(st, k)[f := msgs]]));
      (if rest == map[] then mid.errors else Some(AllErrors(mid)[k := RowErrors(mid, k) + rest]))
        == Some(AllErrors(st)[k := RowErrors(st, k) + (map[f := msgs] + rest)])
  {
    var mid := st.(errors := Some(AllErrors(st)[k := RowErrors(st, k)[f := msgs]]));
    assert AllErrors(mid) == AllErrors(st)[k := RowErrors(st, k)[f := msgs]];
    assert RowErrors(mid, k) == RowErrors(st, k)[f := msgs];
    assert AllErrors(mid)[k := RowErrors(mid, k) + rest] == AllErrors(st)[k := RowErrors(st, k)[f := msgs] + rest];
    assert RowErrors(st, k)[f := msgs] + rest == RowErrors(st, k) + (map[f := msgs] + rest);
    if rest == map[] {
      assert map[f := msgs] + rest == map[f := msgs];
      assert RowErrors(st, k)[f := msgs] == RowErrors(st, k) + map[f := msgs];
    }
  }

  /** A run, on any state, over input that normalises to a single row
      extends that row's record with the row's reference records and leaves
      everything else as it was. */
  lemma SingleRowRun(v: Validator, input: Entries, eval: Evaluator)
    requires |Normalise(input)| == 1
    ensures
      var (k, row) := Normalise(input)[0];
      var r := ValidateAll(v, input, eval).state;
      var P := PassedFields(Labels(v.rules), row, eval);
      var E := FailedFields(Labels(v.rules), row, eval);
      && r.errors == (if E == map[] then v.state.errors
                      else Some(AllErrors(v.state)[k := RowErrors(v.state, k) + E]))
      && r.passedFields == (if P == [] then v.state.passedFields
                            else Some(AllPassed(v.state)[k := RowPassed(v.state, k) + P]))
  {
    var (k, row) := Normalise(input)[0];
    var start := Validator(v.rules, v.state.(hasValidated := true));
    assert ValidateAll(v, input, eval) == ValidateRow(start, k, row, eval);
    assert Labels(start.rules)[0..] == Labels(v.rules);
    RowFromEffect(start, k, row, 0, eval);
  }

  /** Running the same single-row input twice on a fresh validator lists
      the row's passing fields twice: nothing is reset between runs. */
  lemma RepeatedSingleRowRun(rules: seq<RuleEntry>, input: Entries, eval: Evaluator)
    requires |Normalise(input)| == 1
    ensures
      var (k, row) := Normalise(input)[0];
      var P := PassedFields(Labels(rules), row, eval);
      RowPassed(ValidateAll(ValidateAll(Fresh(rules), input, eval), input, eval).state, k) == P + P
  {
    var v1 := ValidateAll(Fresh(rules), input, eval);
    SingleRowPassed(Fresh(rules), input, eval);
    SingleRowPassed(v1, input, eval);
  }

  /** The passed-fields part of `SingleRowRun`, for one row index. */
  lemma SingleRowPassed(v: Validator, input: Entries, eval: Evaluator)
    requires |Normalise(input)| == 1
    ensures
      var (k, row) := Normalise(input)[0];
      RowPassed(ValidateAll(v, input, eval).state, k)
        == RowPassed(v.state, k) + PassedFields(Labels(v.rules), row, eval)
  {
    var (k, row) := Normalise(input)[0];
    SingleRowRun(v, input, eval);
    assert RowPassed(v.state, k) + [] == RowPassed(v.state, k);
  }

  /** Reference: a state whose row `k` record is extended by the passed
      fields `P` and the messages `E`; a map stays as it was when nothing is
      added to it. */
  function Extend(st: State, k: Key, P: seq<string>, E: FieldMessages): State {
    st.(errors := if E == map[] then st.errors else Some(AllErrors(st)[k := RowErrors(st, k) + E]),
        passedFields := if P == [] then st.passedFields else Some(AllPassed(st)[k := RowPassed(st, k) + P]))
  }

  /** Reference: every row's record extended in turn by its reference records. */
  function RunOnto(st: State, ls: seq<Label>, rows: Entries, eval: Evaluator): State
    decreases |rows|
  {
    if rows == [] then st
    else
      var (k, row) := rows[0];
      RunOnto(Extend(st, k, PassedFields(ls, row, eval), FailedFields(ls, row, eval)), ls, rows[1..], eval)
  }

  /** A walk over any rows, from any state, extends each row's record in turn:
      earlier records are kept and a repeated index is extended again. */
  lemma {:induction false} RowsOnto(v: Validator, rows: Entries, eval: Evaluator)
    decreases |rows|
    ensures ValidateRows(v, rows, eval).state == RunOnto(v.state, Labels(v.rules), rows, eval)
  {
    if rows != [] {
      var (k, row) := rows[0];
      var ls := Labels(v.rules);
      var mid := ValidateRow(v, k, row, eval);
      assert ls[0..] == ls;
      RowFromEffect(v, k, row, 0, eval);
      assert mid.state == Extend(v.state, k, PassedFields(ls, row, eval), FailedFields(ls, row, eval));
      assert Labels(mid.rules) == ls;
      RowsOnto(mid, rows[1..], eval);
    }
  }

  /** The whole effect of `validateAll` on any state: the flag is set and
      each normalised row's record is extended in turn, with nothing reset. */
  lemma RunOntoAnyState(v: Validator, input: Entries, eval: Evaluator)
    ensures ValidateAll(v, input, eval).state
      == RunOnto(v.state.(hasValidated := true), Labels(v.rules), Normalise(input), eval)
  {
    RowsOnto(Validator(v.rules, v.state.(hasValidated := true)), Normalise(input), eval);
  }

  /** A row walk from a state that has recorded nothing for row `k`. */
  lemma RowEffect(v: Validator, k: Key, row: Value, eval: Evaluator)
    requires k !in AllErrors(v.state) && k !in AllPassed(v.state)
    ensures
      var r := ValidateRow(v, k, row, eval).state;
      var P := PassedFields(Labels(v.rules), row, eval);
      var E := FailedFields(Labels(v.rules), row, eval);
      && r.errors == (if E == map[] then v.state.errors else Some(AllErrors(v.state) + map[k := E]))
      && r.passedFields == (if P == [] then v.state.passedFields else Some(AllPassed(v.state) + map[k := P]))
  {
    var ls := Labels(v.rules);
    assert ls[0..] == ls;
    RowFromEffect(v, k, row, 0, eval);
    FirstRecord(v.state, k, FailedFields(ls, row, eval), PassedFields(ls, row, eval));
  }

  /** Extending the record of a row with nothing recorded is adding the row. */
  lemma FirstRecord(st: State, k: Key, E: FieldMessages, P: seq<string>)
    requires k !in AllErrors(st) && k !in AllPassed(st)
    ensures AllErrors(st)[k := RowErrors(st, k) + E] == AllErrors(st) + map[k := E]
    ensures AllPassed(st)[k := RowPassed(st, k) + P] == AllPassed(st) + map[k := P]
  {
    assert RowErrors(st, k) + E == E;
    assert RowPassed(st, k) + P == P;
  }

  predicate KeysOutside(rows: Entries, ks: set<Key>) {
    forall j :: 0 <= j < |rows| ==> rows[j].0 !in ks
  }

  /** A row walk over rows with unique indices, none of which the state has
      recorded anything for, adds exactly the reference maps. */
  lemma {:induction false} RowsEffect(v: Validator, rows: Entries, eval: Evaluator)
    requires DistinctKeys(rows)
    requires KeysOutside(rows, AllErrors(v.state).Keys + AllPassed(v.state).Keys)
    decreases |rows|
    ensures
      var r := ValidateRows(v, rows, eval).state;
      var P := RunPassed(Labels(v.rules), rows, eval);
      var E := RunErrors(Labels(v.rules), rows, eval);
      && r.errors == (if E == map[] then v.state.errors else Some(AllErrors(v.state) + E))
      && r.passedFields == (if P == map[] then v.state.passedFields else Some(AllPassed(v.state) + P))
  {
    if rows != [] {
      var k := rows[0].0;
      var ls := Labels(v.rules);
      var mid := ValidateRow(v, k, rows[0].1, eval);
      RowEffect(v, k, rows[0].1, eval);
      var rest := rows[1..];
      assert forall j :: 0 <= j < |rest| ==> rest[j] == rows[j + 1];
      assert DistinctKeys(rest);
      assert KeysOutside(rest, AllErrors(mid.state).Keys + AllPassed(mid.state).Keys);
      RowsEffect(mid, rest, eval);
      assert Labels(mid.rules) == ls;
      var e := FailedFields(ls, rows[0].1, eval);
      var p := PassedFields(ls, rows[0].1, eval);
      ErrorsThenRest(v.state.errors, k, e, RunErrors(ls, rest, eval));
      PassedThenRest(v.state.passedFields, k, p, RunPassed(ls, rest, eval));
    }
  }

  /** Adding one row's errors and then those of later rows is adding the
      union of both. */
  lemma ErrorsThenRest(errors: Option<ErrorMap>, k: Key, e: FieldMessages, rest: ErrorMap)
    ensures
      var mid := if e == map[] then errors else Some(errors.GetOr(map[]) + map[k := e]);
      var all := (if e == map[] then map[] else map[k := e]) + rest;
      (if rest == map[] then mid else Some(mid.GetOr(map[]) + rest))
        == (if all == map[] then errors else Some(errors.GetOr(map[]) + all))
  {
    if e == map[] {
      assert map[] + rest == rest;
    } else {
      assert k in (map[k := e] + rest);
      assert errors.GetOr(map[]) + map[k := e] + rest == errors.GetOr(map[]) + (map[k := e] + rest);
      if rest == map[] {
        assert map[k := e] + rest == map[k := e];
      }
    }
  }

  /** The same for passed fields. */
  lemma PassedThenRest(passed: Option<PassMap>, k: Key, p: seq<string>, rest: PassMap)
    ensures
      var mid := if p == [] then passed else Some(passed.GetOr(map[]) + map[k := p]);
      var all := (if p == [] then map[] else map[k := p]) + rest;
      (if rest == map[] then mid else Some(mid.GetOr(map[]) + rest))
        == (if all == map[] then passed else Some(passed.GetOr(map[]) + all))
  {
    if p == [] {
      assert map[] + rest == rest;
    } else {
      assert k in (map[k := p] + rest);
      assert passed.GetOr(map[]) + map[k := p] + rest == passed.GetOr(map[]) + (map[k := p] + rest);
      if rest == map[] {
        assert map[k := p] + rest == map[k := p];
      }
    }
  }

  /** A walk over rows with unique indices from a state that has recorded
      nothing leaves exactly the reference maps, or null where they are empty. */
  lemma RowsFromNothing(v: Validator, rows: Entries, eval: Evaluator)
    requires v.state == State(true, None, None)
    requires DistinctKeys(rows)
    ensures
      var E := RunErrors(Labels(v.rules), rows, eval);
      var P := RunPassed(Labels(v.rules), rows, eval);
      ValidateRows(v, rows, eval).state
        == State(true, if E == map[] then None else Some(E), if P == map[] then None else Some(P))
  {
    assert AllErrors(v.state) == map[] && AllPassed(v.state) == map[];
    assert KeysOutside(rows, AllErrors(v.state).Keys + AllPassed(v.state).Keys);
    RowsEffect(v, rows, eval);
    var E := RunErrors(Labels(v.rules), rows, eval);
    var P := RunPassed(Labels(v.rules), rows, eval);
    assert map[] + E == E;
    assert map[] + P == P;
  }

  /** The state after one run on a fresh validator, in full: `errors` is the
      reference error map, or null when no field failed; `passedFields` is
      the reference passed map, or null when no field passed. */
  lemma FreshRun(rules: seq<RuleEntry>, input: Entries, eval: Evaluator)
    requires DistinctKeys(input)
    ensures
      var r := ValidateAll(Fresh(rules), input, eval).state;
      var rows := Normalise(input);
      var E := RunErrors(Labels(rules), rows, eval);
      var P := RunPassed(Labels(rules), rows, eval);
      r == State(true, if E == map[] then None else Some(E), if P == map[] then None else Some(P))
  {
    RowsFromNothing(Validator(rules, State(true, None, None)), Normalise(input), eval);
  }

  /** After one run on a fresh validator, each row's record is exactly the
      reference: its passed fields in declaration order, and the messages of
      its failing fields. */
  lemma FreshRowRecord(rules: seq<RuleEntry>, input: Entries, eval: Evaluator, j: int)
    requires DistinctKeys(input)
    requires 0 <= j < |Normalise(input)|
    ensures
      var st := ValidateAll(Fresh(rules), input, eval).state;
      var (k, row) := Normalise(input)[j];
      && RowPassed(st, k) == PassedFields(Labels(rules), row, eval)
      && RowErrors(st, k) == FailedFields(Labels(rules), row, eval)
  {
    FreshRun(rules, input, eval);
    RecordOfRow(ValidateAll(Fresh(rules), input, eval).state, Labels(rules), Normalise(input), eval, j);
  }

  /** A state holding exactly the reference maps of some rows holds, for each
      of those rows, exactly that row's reference record. */
  lemma RecordOfRow(st: State, ls: seq<Label>, rows: Entries, eval: Evaluator, j: int)
    requires DistinctKeys(rows)
    requires 0 <= j < |rows|
    requires AllErrors(st) == RunErrors(ls, rows, eval)
    requires AllPassed(st) == RunPassed(ls, rows, eval)
    ensures RowPassed(st, rows[j].0) == PassedFields(ls, rows[j].1, eval)
    ensures RowErrors(st, rows[j].0) == FailedFields(ls, rows[j].1, eval)
  {
    var (k, row) := rows[j];
    RunPassedMembers(ls, rows, eval, k);
    RunErrorsMembers(ls, rows, eval, k);
  }

  /** After one run on a fresh validator with unique fields, each declared
      field of each row is recorded as passed exactly when its rule passes
      and with its messages exactly when its rule fails: never both, never
      neither. */
  lemma Partition(rules: seq<RuleEntry>, input: Entries, eval: Evaluator, j: int, i: int)
    requires DistinctKeys(input)
    requires DistinctFields(rules)
    requires 0 <= j < |Normalise(input)|
    requires 0 <= i < |rules|
    ensures
      var st := ValidateAll(Fresh(rules), input, eval).state;
      var (k, row) := Normalise(input)[j];
      var f := rules[i].field;
      var verdict := eval(f, EffectiveName(rules[i]), Lookup(row, f));
      && (f in RowPassed(st, k) <==> verdict.Pass?)
      && (f in RowErrors(st, k) <==> verdict.Fail?)
      && (f in RowPassed(st, k) <==> f !in RowErrors(st, k))
      && (verdict.Fail? ==> RowErrors(st, k)[f] == verdict.messages)
  {
    var ls := Labels(rules);
    var (k, row) := Normalise(input)[j];
    FreshRowRecord(rules, input, eval, j);
    assert DistinctLabels(ls);
    PassOrFail(ls, row, eval, i);
    FailedFieldsMembers(ls, row, eval, rules[i].field);
  }

  /** After one run on a fresh validator, a row index is in `errors` exactly
      when that row has a failing field, and in `passedFields` exactly when
      it has a passing one: rows without failures are absent from `errors`,
      and no index other than a row's is recorded. */
  lemma FreshRunRows(rules: seq<RuleEntry>, input: Entries, eval: Evaluator, k: Key)
    requires DistinctKeys(input)
    ensures
      var st := ValidateAll(Fresh(rules), input, eval).state;
      var rows := Normalise(input);
      && (k in AllErrors(st) <==>
            exists j, i :: 0 <= j < |rows| && 0 <= i < |rules| && rows[j].0 == k
                           && Judge(Labels(rules)[i], rows[j].1, eval).Fail?)
      && (k in AllPassed(st) <==>
            exists j, i :: 0 <= j < |rows| && 0 <= i < |rules| && rows[j].0 == k
                           && Judge(Labels(rules)[i], rows[j].1, eval).Pass?)
  {
    FreshRun(rules, input, eval);
    RunMembers(Labels(rules), Normalise(input), eval, k);
  }

  /** A row index is in the reference errors exactly when some field of a row
      under that index fails, and in the reference passed map exactly when
      some field of such a row passes. */
  lemma RunMembers(ls: seq<Label>, rows: Entries, eval: Evaluator, k: Key)
    ensures k in RunErrors(ls, rows, eval) <==>
      exists j, i :: 0 <= j < |rows| && 0 <= i < |ls| && rows[j].0 == k && Judge(ls[i], rows[j].1, eval).Fail?
    ensures k in RunPassed(ls, rows, eval) <==>
      exists j, i :: 0 <= j < |rows| && 0 <= i < |ls| && rows[j].0 == k && Judge(ls[i], rows[j].1, eval).Pass?
  {
    RunErrorsMembers(ls, rows, eval, k);
    RunPassedMembers(ls, rows, eval, k);
    forall j | 0 <= j < |rows|
      ensures FailedFields(ls, rows[j].1, eval) != map[] <==>
                exists i :: 0 <= i < |ls| && Judge(ls[i], rows[j].1, eval).Fail?
      ensures PassedFields(ls, rows[j].1, eval) != [] <==>
                exists i :: 0 <= i < |ls| && Judge(ls[i], rows[j].1, eval).Pass?
    {
      FieldsNonEmpty(ls, rows[j].1, eval);
    }
  }

  /** A row has failing fields exactly when some rule fails on it, and
      passing fields exactly when some rule passes. */
  lemma FieldsNonEmpty(ls: seq<Label>, row: Value, eval: Evaluator)
    ensures FailedFields(ls, row, eval) != map[] <==>
      exists i :: 0 <= i < |ls| && Judge(ls[i], row, eval).Fail?
    ensures PassedFields(ls, row, eval) != [] <==>
      exists i :: 0 <= i < |ls| && Judge(ls[i], row, eval).Pass?
  {
    FailedNonEmpty(ls, row, eval);
    PassedNonEmpty(ls, row, eval);
  }

  /** The messages half of `FieldsNonEmpty`. */
  lemma {:induction false} FailedNonEmpty(ls: seq<Label>, row: Value, eval: Evaluator)
    ensures FailedFields(ls, row, eval) != map[] <==>
      exists i :: 0 <= i < |ls| && Judge(ls[i], row, eval).Fail?
    decreases |ls|
  {
    if ls != [] {
      FailedNonEmpty(ls[1..], row, eval);
      forall i | 0 < i < |ls| ensures ls[1..][i - 1] == ls[i] { }
      if Judge(ls[0], row, eval).Fail? {
        assert ls[0].field in FailedFields(ls, row, eval);
      }
    }
  }

  /** The passed-fields half of `FieldsNonEmpty`. */
  lemma {:induction false} PassedNonEmpty(ls: seq<Label>, row: Value, eval: Evaluator)
    ensures PassedFields(ls, row, eval) != [] <==>
      exists i :: 0 <= i < |ls| && Judge(ls[i], row, eval).Pass?
    decreases |ls|
  {
    if ls != [] {
      PassedNonEmpty(ls[1..], row, eval);
      forall i | 0 < i < |ls| ensures ls[1..][i - 1] == ls[i] { }
    }
  }


  /** After one run on a fresh validator, `failed()` is true exactly when
      some declared field of some row fails, and `passed()` is its negation. */
  lemma FreshRunFailed(rules: seq<RuleEntry>, input: Entries, eval: Evaluator)
    requires DistinctKeys(input)
    ensures
      var st := ValidateAll(Fresh(rules), input, eval).state;
      var rows := Normalise(input);
      && (Failed(st) == Some(true) <==>
            exists j, i :: 0 <= j < |rows| && 0 <= i < |rules|
                           && Judge(Labels(rules)[i], rows[j].1, eval).Fail?)
      && Passed(st) == Some(Failed(st) == Some(false))
  {
    var st := ValidateAll(Fresh(rules), input, eval).state;
    var rows := Normalise(input);
    if exists j, i :: 0 <= j < |rows| && 0 <= i < |rules| && Judge(Labels(rules)[i], rows[j].1, eval).Fail? {
      var j, i :| 0 <= j < |rows| && 0 <= i < |rules| && Judge(Labels(rules)[i], rows[j].1, eval).Fail?;
      FreshRunRows(rules, input, eval, rows[j].0);
    }
    if AllErrors(st) != map[] {
      var k :| k in AllErrors(st);
      FreshRunRows(rules, input, eval, k);
    }
  }

  /** The same per row: after one run on a fresh validator, `failed()` is
      true exactly when some row records a failing field. */
  lemma FreshRunFailedRows(rules: seq<RuleEntry>, input: Entries, eval: Evaluator)
    requires DistinctKeys(input)
    ensures
      var st := ValidateAll(Fresh(rules), input, eval).state;
      var rows := Normalise(input);
      Failed(st) == Some(true) <==>
        exists j :: 0 <= j < |rows| && FailedFields(Labels(rules), rows[j].1, eval) != map[]
  {
    var rows := Normalise(input);
    FreshRunFailed(rules, input, eval);
    forall j | 0 <= j < |rows|
      ensures FailedFields(Labels(rules), rows[j].1, eval) != map[] <==>
                exists i :: 0 <= i < |rules| && Judge(Labels(rules)[i], rows[j].1, eval).Fail?
    {
      FieldsNonEmpty(Labels(rules), rows[j].1, eval);
    }
  }

  /** A run that finds nothing wrong leaves `errors` null, not empty: it is
      only ever assigned when a field fails. */
  lemma FreshPassingRunLeavesErrorsNull(rules: seq<RuleEntry>, input: Entries, eval: Evaluator)
    requires DistinctKeys(input)
    requires forall j, i :: 0 <= j < |Normalise(input)| && 0 <= i < |rules| ==>
      Judge(Labels(rules)[i], Normalise(input)[j].1, eval).Pass?
    ensures Errors(ValidateAll(Fresh(rules), input, eval).state) == None
    ensures Passed(ValidateAll(Fresh(rules), input, eval).state) == Some(true)
  {
    var st := ValidateAll(Fresh(rules), input, eval).state;
    FreshRun(rules, input, eval);
    if st.errors.Some? {
      assert AllErrors(st) != map[];
      var k :| k in AllErrors(st);
      FreshRunRows(rules, input, eval, k);
    }
  }

  /** Earlier runs are not reset: a row walk never removes a recorded row
      index, and never empties a recorded map back to null. */
  lemma {:induction false} RowsKeepErrors(v: Validator, rows: Entries, eval: Evaluator)
    decreases |rows|
    ensures
      var r := ValidateRows(v, rows, eval).state;
      && (v.state.errors.Some? ==> r.errors.Some?)
      && AllErrors(v.state).Keys <= AllErrors(r).Keys
  {
    if rows != [] {
      var mid := ValidateRow(v, rows[0].0, rows[0].1, eval);
      RowFromEffect(v, rows[0].0, rows[0].1, 0, eval);
      RowsKeepErrors(mid, rows[1..], eval);
    }
  }

  /** Once a run has failed, every later run reports failure too, whatever
      its input. */
  lemma FailureIsKept(v: Validator, input: Entries, eval: Evaluator)
    requires Failed(v.state) == Some(true)
    ensures Failed(ValidateAll(v, input, eval).state) == Some(true)
    ensures Passed(ValidateAll(v, input, eval).state) == Some(false)
  {
    var start := Validator(v.rules, v.state.(hasValidated := true));
    RowsKeepErrors(start, Normalise(input), eval);
  }
}
