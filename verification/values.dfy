/**
 * PHP arrays as the validator sees them: ordered key/value entries whose keys
 * are integers or strings, and the nested result maps the validator builds.
 */
module Values {

  /** A PHP array key. PHP stores a canonical integer string such as "0" as
      the integer 0; the model does not perform that coercion, so a `StrK`
      holding such a string is read as a string key. */
  datatype Key = IntK(n: int) | StrK(s: string)

  /** A PHP value as far as the validator distinguishes values: `Null` is what
      a missing field reads as; everything else is handed to the rule as is. */
  datatype Value =
    | Null
    | Bool(b: bool)
    | Int(i: int)
    | Str(s: string)
    | Arr(entries: seq<(Key, Value)>)

  /** An ordered PHP array. */
  type Entries = seq<(Key, Value)>

  /** Messages per failing field of one row: `$errors[$row]`. */
  type FieldMessages = map<string, seq<string>>

  /** Row index to failing fields: `$errors`. */
  type ErrorMap = map<Key, FieldMessages>

  /** Row index to the fields that passed, in evaluation order: `$passedFields`. */
  type PassMap = map<Key, seq<string>>

  /** PHP array keys are unique. */
  predicate DistinctKeys(es: Entries) {
    forall i, j :: 0 <= i < j < |es| ==> es[i].0 != es[j].0
  }

  predicate HasKey(es: Entries, k: Key) {
    exists j :: 0 <= j < |es| && es[j].0 == k
  }

  /** `$es[$k] ?? null`: the value stored under `k`, or Null when there is none. */
  function Get(es: Entries, k: Key): (v: Value)
    ensures !HasKey(es, k) ==> v == Null
    ensures v != Null ==> exists j :: 0 <= j < |es| && es[j] == (k, v)
    ensures DistinctKeys(es) ==> forall j :: 0 <= j < |es| && es[j].0 == k ==> v == es[j].1
  {
    if |es| == 0 then Null
    else if es[0].0 == k then es[0].1
    else
      var v := Get(es[1..], k);
      assert v != Null ==> exists j :: 0 <= j < |es[1..]| && es[1..][j] == (k, v);
      v
  }

  /** `isset($row[$field]) ? $row[$field] : null`: a field missing from the
      row, stored as null, or looked up in something that is not an array
      reads as Null. */
  function Lookup(row: Value, field: string): (v: Value)
    ensures !row.Arr? ==> v == Null
    ensures row.Arr? ==> v == Get(row.entries, StrK(field))
  {
    if row.Arr? then Get(row.entries, StrK(field)) else Null
  }
}
