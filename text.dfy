/**
 * JavaScript's `String.prototype.trim` and the "blank" test built on it
 * (`!s.trim()`), which the task forms use to validate titles and to turn
 * empty descriptions into `null`.
 */
module Text {

  /** The code points ECMAScript counts as WhiteSpace or LineTerminator: exactly what `trim` strips. */
  predicate IsJsWhitespace(c: char) {
    c == '\t' || c == '\n' || c == '\U{000B}' || c == '\U{000C}' || c == '\r' || c == ' '
    || c == '\U{00A0}' || c == '\U{1680}' || ('\U{2000}' <= c <= '\U{200A}')
    || c == '\U{2028}' || c == '\U{2029}' || c == '\U{202F}' || c == '\U{205F}'
    || c == '\U{3000}' || c == '\U{FEFF}'
  }

  predicate AllWhitespace(s: string) {
    forall i :: 0 <= i < |s| ==> IsJsWhitespace(s[i])
  }

  /** The number of whitespace characters `s` starts with. */
  function LeadingWhitespace(s: string): (n: nat)
    ensures n <= |s|
    ensures AllWhitespace(s[..n])
    ensures n == |s| || !IsJsWhitespace(s[n])
  {
    if |s| > 0 && IsJsWhitespace(s[0]) then
      var n := 1 + LeadingWhitespace(s[1..]);
      assert s[..n] == [s[0]] + s[1..][..n - 1];
      n
    else
      0
  }

  /** Drops trailing whitespace: the result is the prefix of `s` that ends at its last non-whitespace character. */
  function TrimEnd(s: string): (r: string)
    ensures |r| <= |s| && r == s[..|r|]
    ensures AllWhitespace(s[|r|..])
    ensures r == [] || !IsJsWhitespace(r[|r| - 1])
  {
    if |s| > 0 && IsJsWhitespace(s[|s| - 1]) then
      var r := TrimEnd(s[..|s| - 1]);
      assert s[|r|..] == s[..|s| - 1][|r|..] + [s[|s| - 1]];
      r
    else
      s
  }

  /**
   * `s.trim()`: the slice of `s` that starts after its leading whitespace
   * and neither starts nor ends with whitespace, everything cut away after
   * it being whitespace too; it is empty exactly when `s` is all whitespace.
   */
  function Trim(s: string): (r: string)
    ensures LeadingWhitespace(s) + |r| <= |s|
    ensures r == s[LeadingWhitespace(s)..LeadingWhitespace(s) + |r|]
    ensures AllWhitespace(s[LeadingWhitespace(s) + |r|..])
    ensures r == [] || (!IsJsWhitespace(r[0]) && !IsJsWhitespace(r[|r| - 1]))
    ensures r == [] <==> AllWhitespace(s)
  {
    var i := LeadingWhitespace(s);
    var r := TrimEnd(s[i..]);
    if r == [] then
      assert i == |s|;
      assert s[..i] == s;
      r
    else
      assert s[i] == r[0];
      r
  }

  /** `!s.trim()` in the source: the string is empty or all whitespace. */
  predicate IsBlank(s: string)
    ensures IsBlank(s) <==> AllWhitespace(s)
  {
    Trim(s) == []
  }

  /** Trimming a trimmed string changes nothing. */
  lemma TrimIdempotent(s: string)
    ensures Trim(Trim(s)) == Trim(s)
  {
    var t := Trim(s);
    if t != [] {
      assert LeadingWhitespace(t) == 0;
      assert TrimEnd(t) == t;
    }
  }

  /** A string that is not blank trims to a string that is not blank either. */
  lemma TrimOfNonBlankIsNonBlank(s: string)
    requires !IsBlank(s)
    ensures Trim(s) != [] && !IsBlank(Trim(s))
  {
    TrimIdempotent(s);
  }
}

/** JavaScript truthiness of strings: the source's `s || null` and `x || ''`. */
module Nullable {
  import opened Wrappers

  /** `s || null`: the empty string, being falsy, becomes `null`; any other string is kept as it is. */
  function OrNull(s: string): (r: Option<string>)
    ensures r == None <==> s == ""
    ensures r.Some? ==> r.value == s
  {
    if s == "" then None else Some(s)
  }

  /** `x || ''` for an optional string: `null` becomes the empty string. */
  function OrEmpty(x: Option<string>): (r: string)
    ensures x.None? ==> r == ""
    ensures x.Some? ==> r == x.value
  {
    x.GetOr("")
  }

  /** Turning `null` into '' and back restores the value unless it was the empty string itself. */
  lemma OrNullOrEmpty(x: Option<string>)
    ensures OrNull(OrEmpty(x)) == (if x == Some("") then None else x)
  {
  }
}
