/**
 * Reference definitions of what one run records, written per row and per
 * field rather than as a walk over the validator's state.
 */
module Expected {
  import opened Values
  import opened Rules

  /** The fields of `row` whose rules pass, in declaration order. */
  function PassedFields(ls: seq<Label>, row: Value, eval: Evaluator): seq<string>
    decreases |ls|
  {
    if ls == [] then []
    else (if Judge(ls[0], row, eval).Pass? then [ls[0].field] else []) + PassedFields(ls[1..], row, eval)
  }

  /** The fields of `row` whose rules fail, with their messages. */
  function FailedFields(ls: seq<Label>, row: Value, eval: Evaluator): FieldMessages
    decreases |ls|
  {
    if ls == [] then map[]
    else
      var v := Judge(ls[0], row, eval);
      (if v.Fail? then map[ls[0].field := v.messages] else map[]) + FailedFields(ls[1..], row, eval)
  }

  /** Row index to passed fields, for the rows in which some field passes. */
  function RunPassed(ls: seq<Label>, rows: Entries, eval: Evaluator): PassMap
    decreases |rows|
  {
    if rows == [] then map[]
    else
      var p := PassedFields(ls, rows[0].1, eval);
      (if p == [] then map[] else map[rows[0].0 := p]) + RunPassed(ls, rows[1..], eval)
  }

  /** Row index to failing fields, for the rows in which some field fails. */
  function RunErrors(ls: seq<Label>, rows: Entries, eval: Evaluator): ErrorMap
    decreases |rows|
  {
    if rows == [] then map[]
    else
      var e := FailedFields(ls, rows[0].1, eval);
      (if e == map[] then map[] else map[rows[0].0 := e]) + RunErrors(ls, rows[1..], eval)
  }

  predicate DistinctLabels(ls: seq<Label>) {
    forall i, j :: 0 <= i < j < |ls| ==> ls[i].field != ls[j].field
  }

  /** A field is listed as passed exactly when one of its labels passes. */
  lemma {:induction false} PassedFieldsMembers(ls: seq<Label>, row: Value, eval: Evaluator, f: string)
    ensures f in PassedFields(ls, row, eval) <==>
      exists j :: 0 <= j < |ls| && ls[j].field == f && Judge(ls[j], row, eval).Pass?
    decreases |ls|
  {
    if ls != [] {
      PassedFieldsMembers(ls[1..], row, eval, f);
      if exists j :: 0 <= j < |ls| && ls[j].field == f && Judge(ls[j], row, eval).Pass? {
        var j :| 0 <= j < |ls| && ls[j].field == f && Judge(ls[j], row, eval).Pass?;
        if j > 0 {
          assert ls[1..][j - 1] == ls[j];
        }
      }
    }
  }

  /** A field has messages exactly when one of its labels fails; with unique
      fields, the messages are that rule's. */
  lemma {:induction false} FailedFieldsMembers(ls: seq<Label>, row: Value, eval: Evaluator, f: string)
    ensures f in FailedFields(ls, row, eval) <==>
      exists j :: 0 <= j < |ls| && ls[j].field == f && Judge(ls[j], row, eval).Fail?
    ensures DistinctLabels(ls) ==> forall j :: 0 <= j < |ls| && ls[j].field == f && Judge(ls[j], row, eval).Fail? ==>
      FailedFields(ls, row, eval)[f] == Judge(ls[j], row, eval).messages
    decreases |ls|
  {
    if ls != [] {
      FailedFieldsMembers(ls[1..], row, eval, f);
      forall j | 0 < j < |ls| ensures ls[1..][j - 1] == ls[j] { }
      if exists j :: 0 <= j < |ls| && ls[j].field == f && Judge(ls[j], row, eval).Fail? {
        var j :| 0 <= j < |ls| && ls[j].field == f && Judge(ls[j], row, eval).Fail?;
        if j > 0 {
          assert ls[1..][j - 1] == ls[j];
        }
      }
    }
  }

  /** With unique fields, every field fails or passes, never both. */
  lemma PassOrFail(ls: seq<Label>, row: Value, eval: Evaluator, j: int)
    requires DistinctLabels(ls)
    requires 0 <= j < |ls|
    ensures ls[j].field in PassedFields(ls, row, eval) <==> Judge(ls[j], row, eval).Pass?
    ensures ls[j].field in FailedFields(ls, row, eval) <==> Judge(ls[j], row, eval).Fail?
    ensures ls[j].field in PassedFields(ls, row, eval) <==> ls[j].field !in FailedFields(ls, row, eval)
  {
    PassedFieldsMembers(ls, row, eval, ls[j].field);
    FailedFieldsMembers(ls, row, eval, ls[j].field);
  }

  /** A row index is in the reference errors exactly when some row under that
      index has a failing field; with unique indices, its entry is that row's. */
  lemma {:induction false} RunErrorsMembers(ls: seq<Label>, rows: Entries, eval: Evaluator, k: Key)
    ensures k in RunErrors(ls, rows, eval) <==>
      exists j :: 0 <= j < |rows| && rows[j].0 == k && FailedFields(ls, rows[j].1, eval) != map[]
    ensures DistinctKeys(rows) ==> forall j :: 0 <= j < |rows| && rows[j].0 == k && FailedFields(ls, rows[j].1, eval) != map[] ==>
      RunErrors(ls, rows, eval)[k] == FailedFields(ls, rows[j].1, eval)
    decreases |rows|
  {
    if rows != [] {
      RunErrorsMembers(ls, rows[1..], eval, k);
      forall j | 0 < j < |rows| ensures rows[1..][j - 1] == rows[j] { }
    }
  }

  /** The same for passed fields. */
  lemma {:induction false} RunPassedMembers(ls: seq<Label>, rows: Entries, eval: Evaluator, k: Key)
    ensures k in RunPassed(ls, rows, eval) <==>
      exists j :: 0 <= j < |rows| && rows[j].0 == k && PassedFields(ls, rows[j].1, eval) != []
    ensures DistinctKeys(rows) ==> forall j :: 0 <= j < |rows| && rows[j].0 == k && PassedFields(ls, rows[j].1, eval) != [] ==>
      RunPassed(ls, rows, eval)[k] == PassedFields(ls, rows[j].1, eval)
    decreases |rows|
  {
    if rows != [] {
      RunPassedMembers(ls, rows[1..], eval, k);
      forall j | 0 < j < |rows| ensures rows[1..][j - 1] == rows[j] { }
    }
  }
}
