/** The parts of PHP's runtime semantics that the optimizer's decisions depend on:
    nullable values, truthiness, and the three string built-ins the plugin calls
    (strtolower, str_contains, strrpos). */
module PhpRuntime {

  /** A PHP value that may be `null`. */
  datatype Option<+T> = None | Some(value: T)

  /** Truthiness of a nullable integer: `null` and `0` are falsy. */
  predicate TruthyInt(v: Option<int>) {
    v.Some? && v.value != 0
  }

  /** Truthiness of a nullable float: `null` and `0.0` are falsy. */
  predicate TruthyReal(v: Option<real>) {
    v.Some? && v.value != 0.0
  }

  /** Truthiness of a nullable string: `null`, `""` and `"0"` are falsy. */
  predicate TruthyStr(v: Option<string>) {
    v.Some? && v.value != "" && v.value != "0"
  }

  predicate IsUpper(c: char) {
    'A' <= c <= 'Z'
  }

  /** strtolower on one character: ASCII letters only, every other character kept. */
  function LowerChar(c: char): (r: char)
    ensures !IsUpper(r)
    ensures r == c <==> !IsUpper(c)
    ensures r != c ==> r as int - c as int == 32
  {
    if IsUpper(c) then (c as int + 32) as char else c
  }

  /** strtolower: every character lowered, length kept. */
  function ToLower(s: string): (r: string)
    ensures |r| == |s|
    ensures forall i :: 0 <= i < |s| ==> r[i] == LowerChar(s[i])
  {
    if s == [] then [] else [LowerChar(s[0])] + ToLower(s[1..])
  }

  /** Lower-casing twice is lower-casing once. */
  lemma ToLowerIdempotent(s: string)
    ensures ToLower(ToLower(s)) == ToLower(s)
  {
  }

  /** Lower-casing leaves the two falsy strings falsy and nothing else becomes falsy. */
  lemma ToLowerKeepsTruthiness(s: string)
    ensures TruthyStr(Some(ToLower(s))) == TruthyStr(Some(s))
  {
  }

  /** `needle` occurs in `haystack` starting at index `i`. */
  ghost predicate OccursAt(haystack: string, needle: string, i: int)
    requires 0 <= i <= |haystack| - |needle|
  {
    haystack[i..i + |needle|] == needle
  }

  /** str_contains: whether `needle` occurs in `haystack` as a contiguous substring. */
  function Contains(haystack: string, needle: string): (r: bool)
    ensures r <==> exists i :: 0 <= i <= |haystack| - |needle| && OccursAt(haystack, needle, i)
    decreases |haystack|
  {
    if |haystack| < |needle| then false
    else if haystack[..|needle|] == needle then
      assert OccursAt(haystack, needle, 0);
      true
    else
      var rest := Contains(haystack[1..], needle);
      assert forall i :: 1 <= i <= |haystack| - |needle| ==>
        (OccursAt(haystack, needle, i) <==> OccursAt(haystack[1..], needle, i - 1)) by {
        forall i | 1 <= i <= |haystack| - |needle|
          ensures OccursAt(haystack, needle, i) <==> OccursAt(haystack[1..], needle, i - 1)
        {
          assert haystack[1..][i - 1..i - 1 + |needle|] == haystack[i..i + |needle|];
        }
      }
      assert rest ==> exists i :: 0 <= i <= |haystack| - |needle| && OccursAt(haystack, needle, i) by {
        if rest {
          var j :| 0 <= j <= |haystack[1..]| - |needle| && OccursAt(haystack[1..], needle, j);
          assert OccursAt(haystack, needle, j + 1);
        }
      }
      rest
  }

  /** strrpos for one character: the index of its last occurrence, or `false` (None). */
  function LastIndexOf(s: string, c: char): (r: Option<nat>)
    ensures r.None? <==> c !in s
    ensures r.Some? ==> r.value < |s| && s[r.value] == c && c !in s[r.value + 1..]
  {
    if s == [] then None
    else if s[|s| - 1] == c then Some(|s| - 1)
    else
      var front := s[..|s| - 1];
      assert s == front + [s[|s| - 1]];
      var r := LastIndexOf(front, c);
      assert r.Some? ==> s[r.value + 1..] == front[r.value + 1..] + [s[|s| - 1]];
      r
  }

  /** The last occurrence is unique: any index holding `c` with no `c` after it is the answer. */
  lemma LastIndexOfAt(s: string, c: char, i: nat)
    requires i < |s| && s[i] == c && c !in s[i + 1..]
    ensures LastIndexOf(s, c) == Some(i)
  {
  }
}
