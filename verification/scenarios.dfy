/**
 * The behaviours the repository's own tests exercise, replayed on the model
 * with the rule library left abstract: each lemma requires only the verdicts
 * the test's rules give on the test's values.
 */
module Scenarios {
  import opened Wrappers
  import opened Values
  import opened Rules
  import opened Expected
  import opened AbstractValidator
  import opened RunProperties
  import opened ValidatorInterface
  import VCE = ValidatorClassException
  import DisplayName

  /** The test validator's rules: `field` and `numbers`, both unnamed. */
  function TestRules(): seq<RuleEntry> {
    [RuleEntry("field", None), RuleEntry("numbers", None)]
  }

  /** The test rules' fields with the names they are evaluated under. */
  function TestLabelSeq(): seq<Label> {
    [Label("field", "Field"), Label("numbers", "Numbers")]
  }

  /** A field written as one lower-case word is named by capitalising it. */
  lemma DerivedField()
    ensures DisplayName.Derive("field") == "Field"
  {
    DisplayName.DeriveWord("field");
  }

  lemma DerivedNumbers()
    ensures DisplayName.Derive("numbers") == "Numbers"
  {
    DisplayName.DeriveWord("numbers");
  }

  /** Two unnamed rules are evaluated under their fields' derived names. */
  lemma UnnamedPairLabels(f1: string, n1: string, f2: string, n2: string)
    requires DisplayName.Derive(f1) == n1 && DisplayName.Derive(f2) == n2
    ensures Labels([RuleEntry(f1, None), RuleEntry(f2, None)]) == [Label(f1, n1), Label(f2, n2)]
  {
  }

  /** The test rules are evaluated under the derived names "Field" and "Numbers". */
  lemma TestLabels()
    ensures Labels(TestRules()) == TestLabelSeq()
  {
    DerivedField();
    DerivedNumbers();
    UnnamedPairLabels("field", "Field", "numbers", "Numbers");
  }

  /** What one row records under two rules, in terms of their verdicts. */
  lemma TwoRuleRecord(l1: Label, l2: Label, row: Value, eval: Evaluator)
    ensures
      var v1 := Judge(l1, row, eval);
      var v2 := Judge(l2, row, eval);
      && PassedFields([l1, l2], row, eval)
           == (if v1.Pass? then [l1.field] else []) + (if v2.Pass? then [l2.field] else [])
      && FailedFields([l1, l2], row, eval)
           == (if v1.Fail? then map[l1.field := v1.messages] else map[])
              + (if v2.Fail? then map[l2.field := v2.messages] else map[])
  {
    var ls := [l1, l2];
    assert ls[1..] == [l2];
    assert [l2][1..] == [];
    assert PassedFields([l2][1..], row, eval) == [];
    assert FailedFields([l2][1..], row, eval) == map[];
    var p2 := PassedFields([l2], row, eval);
    var e2 := FailedFields([l2], row, eval);
    assert p2 == (if Judge(l2, row, eval).Pass? then [l2.field] else []) + [];
    assert e2 == (if Judge(l2, row, eval).Fail? then map[l2.field := Judge(l2, row, eval).messages] else map[]) + map[];
  }

  /** What one row records under the test rules, in terms of the two verdicts. */
  lemma TestRowRecord(rules: seq<RuleEntry>, row: Value, eval: Evaluator)
    requires Labels(rules) == TestLabelSeq()
    ensures
      var vf := eval("field", "Field", Lookup(row, "field"));
      var vn := eval("numbers", "Numbers", Lookup(row, "numbers"));
      && PassedFields(Labels(rules), row, eval)
           == (if vf.Pass? then ["field"] else []) + (if vn.Pass? then ["numbers"] else [])
      && FailedFields(Labels(rules), row, eval)
           == (if vf.Fail? then map["field" := vf.messages] else map[])
              + (if vn.Fail? then map["numbers" := vn.messages] else map[])
  {
  }

  /** A row with both fields. */
  function BothRow(field: string, numbers: Value): Value {
    Arr([(StrK("field"), Str(field)), (StrK("numbers"), numbers)])
  }

  /** A row with only `field`. */
  function FieldRow(field: string): Value {
    Arr([(StrK("field"), Str(field))])
  }

  /** What a row with both fields records: each field by its own verdict. */
  lemma BothRowRecord(rules: seq<RuleEntry>, eval: Evaluator, field: string, numbers: Value)
    requires Labels(rules) == TestLabelSeq()
    ensures
      var vf := eval("field", "Field", Str(field));
      var vn := eval("numbers", "Numbers", numbers);
      && PassedFields(Labels(rules), BothRow(field, numbers), eval)
           == (if vf.Pass? then ["field"] else []) + (if vn.Pass? then ["numbers"] else [])
      && FailedFields(Labels(rules), BothRow(field, numbers), eval)
           == (if vf.Fail? then map["field" := vf.messages] else map[])
              + (if vn.Fail? then map["numbers" := vn.messages] else map[])
  {
    var row := BothRow(field, numbers);
    assert row.entries[0].0 == StrK("field") && row.entries[1].0 == StrK("numbers");
    assert Lookup(row, "field") == Str(field);
    assert Lookup(row, "numbers") == numbers;
    TestRowRecord(rules, row, eval);
  }

  /** What a row with only `field` records: `numbers` is judged on null. */
  lemma FieldRowRecord(rules: seq<RuleEntry>, eval: Evaluator, field: string)
    requires Labels(rules) == TestLabelSeq()
    ensures
      var vf := eval("field", "Field", Str(field));
      var vn := eval("numbers", "Numbers", Null);
      && PassedFields(Labels(rules), FieldRow(field), eval)
           == (if vf.Pass? then ["field"] else []) + (if vn.Pass? then ["numbers"] else [])
      && FailedFields(Labels(rules), FieldRow(field), eval)
           == (if vf.Fail? then map["field" := vf.messages] else map[])
              + (if vn.Fail? then map["numbers" := vn.messages] else map[])
  {
  }

  /** A single row of `field` and `numbers` strings. */
  function SingleRow(field: string, numbers: string): Entries {
    BothRow(field, Str(numbers)).entries
  }

  /** The single row is validated under index 0. */
  lemma SingleRowFacts(field: string, numbers: string)
    ensures DistinctKeys(SingleRow(field, numbers))
    ensures Normalise(SingleRow(field, numbers)) == [(IntK(0), BothRow(field, Str(numbers)))]
  {
  }

  /** Single-row data on which both rules pass (the test uses "test success"
      and "42") passes, and `errors()` stays null. */
  lemma PassesValidData(rules: seq<RuleEntry>, eval: Evaluator, field: string, numbers: string)
    requires Labels(rules) == TestLabelSeq()
    requires eval("field", "Field", Str(field)).Pass?
    requires eval("numbers", "Numbers", Str(numbers)).Pass?
    ensures
      var st := ValidateAll(Fresh(rules), SingleRow(field, numbers), eval).state;
      Passed(st) == Some(true) && Failed(st) == Some(false) && Errors(st) == None
  {
    var input := SingleRow(field, numbers);
    SingleRowFacts(field, numbers);
    BothRowRecord(rules, eval, field, Str(numbers));
    FreshRun(rules, input, eval);
  }

  /** Single-row data with a valid `field` and an invalid `numbers` (the test
      uses "test success" and "fail"): `asserted()` raises and row 0 lists
      `field` as passed. */
  lemma ExceptionHasPassedField(rules: seq<RuleEntry>, eval: Evaluator, field: string, numbers: string)
    requires Labels(rules) == TestLabelSeq()
    requires eval("field", "Field", Str(field)).Pass?
    requires eval("numbers", "Numbers", Str(numbers)).Fail?
    ensures
      var r := Asserted(ValidateAll(Fresh(rules), SingleRow(field, numbers), eval));
      r.Some? && VCE.GetPassedFields(r.value, Some(0)) == VCE.RowFields(["field"])
  {
    var input := SingleRow(field, numbers);
    SingleRowFacts(field, numbers);
    var rows := Normalise(input);
    BothRowRecord(rules, eval, field, Str(numbers));
    assert "numbers" in FailedFields(Labels(rules), rows[0].1, eval);
    FreshRunFailedRows(rules, input, eval);
    AssertedRowQueries(rules, input, eval, 0);
  }

  /** Single-row data on which both rules fail (the tests use "f"/"failure"
      and "ret$#%"/"also failure"): the run fails, `errors()[0]` and
      `getMessages(0)` have exactly the keys `field` and `numbers`, and
      `getPassedFields(0)` is empty. */
  lemma FailsInvalidData(rules: seq<RuleEntry>, eval: Evaluator, field: string, numbers: string)
    requires Labels(rules) == TestLabelSeq()
    requires eval("field", "Field", Str(field)).Fail?
    requires eval("numbers", "Numbers", Str(numbers)).Fail?
    ensures
      var v := ValidateAll(Fresh(rules), SingleRow(field, numbers), eval);
      && Failed(v.state) == Some(true)
      && Passed(v.state) == Some(false)
      && Errors(v.state).Some? && IntK(0) in Errors(v.state).value
      && Errors(v.state).value[IntK(0)].Keys == {"field", "numbers"}
      && Asserted(v).Some?
      && VCE.GetMessages(Asserted(v).value, Some(0)).Success?
      && VCE.GetMessages(Asserted(v).value, Some(0)).value.fields.Keys == {"field", "numbers"}
      && VCE.GetPassedFields(Asserted(v).value, Some(0)) == VCE.RowFields([])
  {
    var input := SingleRow(field, numbers);
    SingleRowFacts(field, numbers);
    var rows := Normalise(input);
    BothRowRecord(rules, eval, field, Str(numbers));
    var m := FailedFields(Labels(rules), rows[0].1, eval);
    assert m.Keys == {"field", "numbers"};
    FreshRunFailedRows(rules, input, eval);
    FreshRowRecord(rules, input, eval, 0);
    AssertedRowQueries(rules, input, eval, 0);
  }

  /** A two-row input whose rows have both fields. */
  function TwoRows(f0: string, n0: Value, f1: string, n1: Value): Entries {
    [(IntK(0), BothRow(f0, n0)), (IntK(1), BothRow(f1, n1))]
  }

  /** A two-row input whose rows only have `field`. */
  function TwoFieldRows(f0: string, f1: string): Entries {
    [(IntK(0), FieldRow(f0)), (IntK(1), FieldRow(f1))]
  }

  /** Integer-keyed input is walked row by row, under its own keys. */
  lemma MultiRowFacts(input: Entries)
    requires |input| == 2 && input[0].0 == IntK(0) && input[1].0 == IntK(1)
    ensures DistinctKeys(input)
    ensures Normalise(input) == input
  {
  }

  /** Two rows on which every rule passes (the test uses "test success"/42
      and "also a success"/69) pass, and `asserted()` does not raise. */
  lemma MultiRowPassesValidData(rules: seq<RuleEntry>, eval: Evaluator, f0: string, n0: Value, f1: string, n1: Value)
    requires Labels(rules) == TestLabelSeq()
    requires eval("field", "Field", Str(f0)).Pass? && eval("field", "Field", Str(f1)).Pass?
    requires eval("numbers", "Numbers", n0).Pass? && eval("numbers", "Numbers", n1).Pass?
    ensures
      var v := ValidateAll(Fresh(rules), TwoRows(f0, n0, f1, n1), eval);
      Passed(v.state) == Some(true) && Failed(v.state) == Some(false) && Asserted(v) == None
  {
    var input := TwoRows(f0, n0, f1, n1);
    MultiRowFacts(input);
    var rows := Normalise(input);
    BothRowRecord(rules, eval, f0, n0);
    BothRowRecord(rules, eval, f1, n1);
    assert forall j :: 0 <= j < |rows| ==> FailedFields(Labels(rules), rows[j].1, eval) == map[];
    FreshRunFailedRows(rules, input, eval);
  }

  /** A row with only `field` on which `field` fails and `numbers` fails on
      null has messages for exactly two fields. */
  lemma FieldRowFailsBoth(rules: seq<RuleEntry>, eval: Evaluator, field: string)
    requires Labels(rules) == TestLabelSeq()
    requires eval("field", "Field", Str(field)).Fail?
    requires eval("numbers", "Numbers", Null).Fail?
    ensures |FailedFields(Labels(rules), FieldRow(field), eval)| == 2
  {
    FieldRowRecord(rules, eval, field);
    var m := FailedFields(Labels(rules), FieldRow(field), eval);
    assert m.Keys == {"field", "numbers"};
    assert |m| == |m.Keys|;
  }

  /** Two rows with only `field`, the second invalid (the test uses
      "ttest success" and "a fail^s"): `errors()` and `getMessages()` have
      index 1, and `getMessages(1)` holds two fields, since the missing
      `numbers` reads as null. */
  lemma MultiRowFailsSomeData(rules: seq<RuleEntry>, eval: Evaluator, f0: string, f1: string)
    requires Labels(rules) == TestLabelSeq()
    requires eval("field", "Field", Str(f0)).Pass?
    requires eval("field", "Field", Str(f1)).Fail?
    requires eval("numbers", "Numbers", Null).Fail?
    ensures
      var v := ValidateAll(Fresh(rules), TwoFieldRows(f0, f1), eval);
      && Failed(v.state) == Some(true)
      && Passed(v.state) == Some(false)
      && Errors(v.state).Some? && IntK(1) in Errors(v.state).value
      && Asserted(v).Some?
      && IntK(1) in VCE.GetAllMessages(Asserted(v).value)
      && VCE.GetMessages(Asserted(v).value, Some(1)).Success?
      && |VCE.GetMessages(Asserted(v).value, Some(1)).value.fields| == 2
  {
    var input := TwoFieldRows(f0, f1);
    MultiRowFacts(input);
    FieldRowFailsBoth(rules, eval, f1);
    assert FailedFields(Labels(rules), input[1].1, eval) != map[];
    FreshRunFailedRows(rules, input, eval);
    FreshRowRecord(rules, input, eval, 1);
    AssertedRowQueries(rules, input, eval, 1);
  }

  /** Two rows whose second passes `field` and fails `numbers` (the test uses
      "another success" and "fail"): `getMessages(1)` holds one field and
      `getPassedFields(1)` lists `field`. */
  lemma MultiRowExceptionHasPassedField(rules: seq<RuleEntry>, eval: Evaluator, f0: string, n0: Value, f1: string, n1: Value)
    requires Labels(rules) == TestLabelSeq()
    requires eval("field", "Field", Str(f0)).Pass? && eval("field", "Field", Str(f1)).Pass?
    requires eval("numbers", "Numbers", n0).Fail? && eval("numbers", "Numbers", n1).Fail?
    ensures
      var v := ValidateAll(Fresh(rules), TwoRows(f0, n0, f1, n1), eval);
      && Failed(v.state) == Some(true)
      && Passed(v.state) == Some(false)
      && Errors(v.state).Some? && IntK(1) in Errors(v.state).value
      && Asserted(v).Some?
      && IntK(1) in VCE.GetAllMessages(Asserted(v).value)
      && VCE.GetMessages(Asserted(v).value, Some(1)).Success?
      && |VCE.GetMessages(Asserted(v).value, Some(1)).value.fields| == 1
      && IntK(1) in VCE.GetPassedFields(Asserted(v).value, None).rows
      && "field" in VCE.GetPassedFields(Asserted(v).value, Some(1)).fields
  {
    var input := TwoRows(f0, n0, f1, n1);
    MultiRowFacts(input);
    var rows := Normalise(input);
    BothRowRecord(rules, eval, f1, n1);
    var m := FailedFields(Labels(rules), rows[1].1, eval);
    assert m.Keys == {"numbers"};
    assert |m| == |m.Keys|;
    FreshRunFailedRows(rules, input, eval);
    FreshRowRecord(rules, input, eval, 1);
    AssertedRowQueries(rules, input, eval, 1);
  }

  /** A run on empty input judges every rule on null: when `field` fails on
      null, row 0 records its messages and the run fails. */
  lemma EmptyInputFails(rules: seq<RuleEntry>, eval: Evaluator)
    requires Labels(rules) == TestLabelSeq()
    requires eval("field", "Field", Null).Fail?
    ensures
      var st := ValidateAll(Fresh(rules), [], eval).state;
      Failed(st) == Some(true) && "field" in RowErrors(st, IntK(0))
  {
    assert Normalise([]) == [(IntK(0), Arr([]))];
    assert Lookup(Arr([]), "field") == Null;
    TestRowRecord(rules, Arr([]), eval);
    assert "field" in FailedFields(Labels(rules), Arr([]), eval);
    FreshRowRecord(rules, [], eval, 0);
    var st := ValidateAll(Fresh(rules), [], eval).state;
    assert "field" in RowErrors(st, IntK(0));
    assert IntK(0) in AllErrors(st);
  }

  /** A later run on single-row data on which both rules pass leaves the
      recorded errors as they were, and appends both fields to row 0's passed
      fields. */
  lemma ValidRerun(v: Validator, eval: Evaluator, field: string, numbers: string)
    requires Labels(v.rules) == TestLabelSeq()
    requires eval("field", "Field", Str(field)).Pass?
    requires eval("numbers", "Numbers", Str(numbers)).Pass?
    ensures
      var st := ValidateAll(v, SingleRow(field, numbers), eval).state;
      && st.errors == v.state.errors
      && RowPassed(st, IntK(0)) == RowPassed(v.state, IntK(0)) + ["field", "numbers"]
  {
    SingleRowFacts(field, numbers);
    BothRowRecord(v.rules, eval, field, Str(numbers));
    SingleRowRun(v, SingleRow(field, numbers), eval);
  }

  /** State is kept between runs: after a failing run, a run on data that
      passes every rule still reports failure, and row 0 then lists `field`
      both among its passed fields and among its messages. */
  lemma StaleFailureSurvivesValidRerun(rules: seq<RuleEntry>, eval: Evaluator, field: string, numbers: string)
    requires Labels(rules) == TestLabelSeq()
    requires eval("field", "Field", Null).Fail?
    requires eval("field", "Field", Str(field)).Pass?
    requires eval("numbers", "Numbers", Str(numbers)).Pass?
    ensures
      var st := ValidateAll(ValidateAll(Fresh(rules), [], eval), SingleRow(field, numbers), eval).state;
      && Failed(st) == Some(true)
      && Passed(st) == Some(false)
      && "field" in RowPassed(st, IntK(0))
      && "field" in RowErrors(st, IntK(0))
  {
    var v1 := ValidateAll(Fresh(rules), [], eval);
    EmptyInputFails(rules, eval);
    ValidRerun(v1, eval, field, numbers);
  }
}
