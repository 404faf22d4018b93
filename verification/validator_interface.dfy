/**
 * The public contract of a validator, stated about the model: status is
 * unknown before a run, `errors()` is indexed by row even for a single row,
 * and `asserted()` raises with every recorded message when validation failed.
 */
module ValidatorInterface {
  import opened Wrappers
  import opened Values
  import opened Rules
  import opened Expected
  import opened AbstractValidator
  import opened RunProperties
  import VCE = ValidatorClassException

  /** Before any `validateAll`, `passed()`, `failed()` and `errors()` are all
      null and `asserted()` does not raise. */
  lemma FreshIsUnknown(rules: seq<RuleEntry>)
    ensures Passed(Fresh(rules).state) == None
    ensures Failed(Fresh(rules).state) == None
    ensures Errors(Fresh(rules).state) == None
    ensures Asserted(Fresh(rules)) == None
  {
  }

  /** The indices of `errors()` and of the passed fields are row indices;
      a single row is indexed by 0. */
  lemma ErrorsIndexedByRow(rules: seq<RuleEntry>, input: Entries, eval: Evaluator, k: Key)
    requires DistinctKeys(input)
    ensures
      var st := ValidateAll(Fresh(rules), input, eval).state;
      (k in AllErrors(st) || k in AllPassed(st)) ==> HasKey(Normalise(input), k)
    ensures
      var st := ValidateAll(Fresh(rules), input, eval).state;
      !HasIntKey(input) && (k in AllErrors(st) || k in AllPassed(st)) ==> k == IntK(0)
  {
    FreshRunRows(rules, input, eval, k);
  }

  /** After one run on a fresh validator, `asserted()` raises exactly when
      some field of some row fails. */
  lemma AssertedIffFailed(rules: seq<RuleEntry>, input: Entries, eval: Evaluator)
    requires DistinctKeys(input)
    ensures
      var rows := Normalise(input);
      Asserted(ValidateAll(Fresh(rules), input, eval)).Some? <==>
        exists j, i :: 0 <= j < |rows| && 0 <= i < |rules|
                       && Judge(Labels(rules)[i], rows[j].1, eval).Fail?
  {
    FreshRunFailed(rules, input, eval);
  }

  /** What the raised exception answers for the integer index of a row after
      one run on a fresh validator: the row's messages when it has failing
      fields and a lookup error otherwise, and the row's passed fields. */
  lemma AssertedRowQueries(rules: seq<RuleEntry>, input: Entries, eval: Evaluator, j: int)
    requires DistinctKeys(input)
    requires Asserted(ValidateAll(Fresh(rules), input, eval)).Some?
    requires 0 <= j < |Normalise(input)| && Normalise(input)[j].0.IntK?
    ensures
      var e := Asserted(ValidateAll(Fresh(rules), input, eval)).value;
      var (k, row) := Normalise(input)[j];
      var E := FailedFields(Labels(rules), row, eval);
      && VCE.GetMessages(e, Some(k.n)) ==
           (if E == map[] then Failure(VCE.UndefinedRow(k.n)) else Success(VCE.RowMessages(E)))
      && VCE.GetPassedFields(e, Some(k.n)) == VCE.RowFields(PassedFields(Labels(rules), row, eval))
  {
    var v := ValidateAll(Fresh(rules), input, eval);
    var rows := Normalise(input);
    var (k, row) := rows[j];
    FreshRunRows(rules, input, eval, k);
    FreshRowRecord(rules, input, eval, j);
    FieldsNonEmpty(Labels(rules), row, eval);
    var E := FailedFields(Labels(rules), row, eval);
    if k in AllErrors(v.state) {
      var j', i :| 0 <= j' < |rows| && 0 <= i < |rules| && rows[j'].0 == k
                   && Judge(Labels(rules)[i], rows[j'].1, eval).Fail?;
      assert j' == j;
      assert E != map[];
    }
  }

  /** For an integer index that is no row of the input, the raised exception
      reports a lookup error for the messages and no passed fields. */
  lemma AssertedMissingRow(rules: seq<RuleEntry>, input: Entries, eval: Evaluator, n: int)
    requires DistinctKeys(input)
    requires Asserted(ValidateAll(Fresh(rules), input, eval)).Some?
    requires !HasKey(Normalise(input), IntK(n))
    ensures
      var e := Asserted(ValidateAll(Fresh(rules), input, eval)).value;
      && VCE.GetMessages(e, Some(n)) == Failure(VCE.UndefinedRow(n))
      && VCE.GetPassedFields(e, Some(n)) == VCE.RowFields([])
  {
    FreshRunRows(rules, input, eval, IntK(n));
  }
}
