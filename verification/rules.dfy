/**
 * What the validator needs from the rule library: each declared field has a
 * rule with an optional display name, and evaluating a rule on a value either
 * passes or fails with messages. The library itself is a parameter.
 */
module Rules {
  import opened Wrappers
  import opened Values
  import DisplayName

  /** One entry of `getRules()`: the field it validates and the rule's name. */
  datatype RuleEntry = RuleEntry(field: string, name: Option<string>)

  /** The outcome of `$rule->assert($value)`: it returns, or it throws a
      nested validation exception whose `getMessages()` are kept. */
  datatype Verdict = Pass | Fail(messages: seq<string>)

  /** The rule library: (field, display name, value) to verdict. */
  type Evaluator = (string, string, Value) -> Verdict

  /** The entry after the validator has made sure it has a name: a missing
      name is derived from the field, an existing one is never overwritten. */
  function Named(e: RuleEntry): (r: RuleEntry)
    ensures r.field == e.field
    ensures r.name.Some?
    ensures e.name.Some? ==> r == e
    ensures e.name.None? ==> r.name == Some(DisplayName.Derive(e.field))
  {
    if e.name.None? then e.(name := Some(DisplayName.Derive(e.field))) else e
  }

  /** The name the rule is evaluated under. */
  function EffectiveName(e: RuleEntry): string {
    Named(e).name.value
  }

  /** A field together with the name its rule is evaluated under. */
  datatype Label = Label(field: string, name: string)

  function LabelOf(e: RuleEntry): Label {
    Label(e.field, EffectiveName(e))
  }

  /** The labels of a rule set, in declaration order; naming the rules does
      not change them. */
  function Labels(rules: seq<RuleEntry>): (ls: seq<Label>)
    ensures |ls| == |rules|
    ensures forall j :: 0 <= j < |rules| ==> ls[j] == LabelOf(rules[j]) == LabelOf(Named(rules[j]))
  {
    seq(|rules|, j requires 0 <= j < |rules| => LabelOf(rules[j]))
  }

  /** Every rule of the set, named. */
  function NameAll(rules: seq<RuleEntry>): (r: seq<RuleEntry>)
    ensures |r| == |rules|
    ensures forall j :: 0 <= j < |rules| ==> r[j] == Named(rules[j])
    ensures Labels(r) == Labels(rules)
  {
    seq(|rules|, j requires 0 <= j < |rules| => Named(rules[j]))
  }

  /** `getRules()` is a PHP array, so its field names are unique. */
  predicate DistinctFields(rules: seq<RuleEntry>) {
    forall i, j :: 0 <= i < j < |rules| ==> rules[i].field != rules[j].field
  }

  /** The verdict for one labelled field of one row. */
  function Judge(l: Label, row: Value, eval: Evaluator): Verdict {
    eval(l.field, l.name, Lookup(row, l.field))
  }
}
