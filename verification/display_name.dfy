/**
 * The human-readable name a rule gets when it has none:
 * `ucwords(str_replace('_', ' ', $field))`.
 */
module DisplayName {

  /** The word separators `ucwords` uses by default: space, tab, CR, LF,
      form feed and vertical tab. */
  predicate IsDelimiter(c: char) {
    c == ' ' || c == '\t' || c == '\r' || c == '\n' || c == '\U{000C}' || c == '\U{000B}'
  }

  /** PHP's `toupper` on one character: ASCII letters only. */
  function ToUpper(c: char): (u: char)
    ensures 'a' <= c <= 'z' ==> u as int == c as int - 32
    ensures !('a' <= c <= 'z') ==> u == c
  {
    if 'a' <= c <= 'z' then (c as int - 32) as char else c
  }

  /** `str_replace('_', ' ', s)`. */
  function ReplaceUnderscores(s: string): (r: string)
    ensures |r| == |s|
    ensures forall i :: 0 <= i < |s| ==> r[i] == (if s[i] == '_' then ' ' else s[i])
    ensures '_' !in r
  {
    if |s| == 0 then []
    else [if s[0] == '_' then ' ' else s[0]] + ReplaceUnderscores(s[1..])
  }

  /** `ucwords` on a string whose preceding character was `prev`: a character
      is upper-cased exactly when it follows a delimiter. */
  function UcWordsAfter(prev: char, s: string): (r: string)
    decreases |s|
    ensures |r| == |s|
    ensures |s| > 0 ==> r[0] == (if IsDelimiter(prev) then ToUpper(s[0]) else s[0])
    ensures forall i :: 0 < i < |s| ==> r[i] == (if IsDelimiter(s[i - 1]) then ToUpper(s[i]) else s[i])
  {
    if |s| == 0 then []
    else [if IsDelimiter(prev) then ToUpper(s[0]) else s[0]] + UcWordsAfter(s[0], s[1..])
  }

  /** `ucwords(s)`: the first character and every character after a
      delimiter are upper-cased. */
  function UcWords(s: string): (r: string)
    ensures |r| == |s|
    ensures forall i :: 0 <= i < |s| ==>
      r[i] == (if i == 0 || IsDelimiter(s[i - 1]) then ToUpper(s[i]) else s[i])
  {
    UcWordsAfter(' ', s)
  }

  /** True when position `i` of `field` starts a word of the display name. */
  predicate StartsWord(field: string, i: int)
    requires 0 <= i < |field|
  {
    i == 0 || field[i - 1] == '_' || IsDelimiter(field[i - 1])
  }

  /** The display name derived from a field name. */
  function Derive(field: string): (name: string)
    ensures |name| == |field|
    ensures '_' !in name
    ensures forall i :: 0 <= i < |field| ==>
      name[i] == (if field[i] == '_' then ' '
                  else if StartsWord(field, i) then ToUpper(field[i])
                  else field[i])
  {
    var spaced := ReplaceUnderscores(field);
    var name := UcWords(spaced);
    forall i | 0 <= i < |field|
      ensures name[i] == (if field[i] == '_' then ' '
                          else if StartsWord(field, i) then ToUpper(field[i])
                          else field[i])
    {
      if i > 0 {
        assert IsDelimiter(spaced[i - 1]) <==> (field[i - 1] == '_' || IsDelimiter(field[i - 1]));
      }
    }
    assert forall i :: 0 <= i < |name| ==> name[i] != '_';
    name
  }

  /** Deriving a name from an already derived name changes nothing. */
  lemma DeriveIdempotent(field: string)
    ensures Derive(Derive(field)) == Derive(field)
  {
  }

  /** A field name that is a single word is only capitalised. */
  lemma DeriveWord(field: string)
    requires |field| > 0
    requires forall i :: 0 <= i < |field| ==> field[i] != '_' && !IsDelimiter(field[i])
    ensures Derive(field) == [ToUpper(field[0])] + field[1..]
  {
  }
}
