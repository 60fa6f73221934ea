/**
 * The few Python string operations the modelled code relies on:
 * `str.isspace`, `str.strip`, `str.join`, `str.lower` and `str(n)` for a
 * natural number. Strings are sequences of Unicode scalar values.
 */
module PyStrings {

  /** Python's `str.isspace()` for one character (Unicode whitespace, as CPython defines it). */
  predicate IsSpace(c: char) {
    ('\t' <= c <= '\r') || ('\U{1C}' <= c <= ' ') || c == '\U{85}' || c == '\U{A0}'
    || c == '\U{1680}' || ('\U{2000}' <= c <= '\U{200A}') || c == '\U{2028}' || c == '\U{2029}'
    || c == '\U{202F}' || c == '\U{205F}' || c == '\U{3000}'
  }

  /** Python's `not s.strip()`: empty or whitespace only. */
  predicate IsBlank(s: string) {
    forall i | 0 <= i < |s| :: IsSpace(s[i])
  }

  /** Neither end of `s` is whitespace (the empty string qualifies). */
  predicate Trimmed(s: string) {
    s == [] || (!IsSpace(s[0]) && !IsSpace(s[|s| - 1]))
  }

  /** The index of the first non-whitespace character at or after `i`, or `|s|`. */
  function SkipSpaceForward(s: string, i: nat): (r: nat)
    requires i <= |s|
    ensures i <= r <= |s|
    ensures forall k | i <= k < r :: IsSpace(s[k])
    ensures r == |s| || !IsSpace(s[r])
    decreases |s| - i
  {
    if i < |s| && IsSpace(s[i]) then SkipSpaceForward(s, i + 1) else i
  }

  /** The index just after the last non-whitespace character before `j` and at or after `lo`, or `lo`. */
  function SkipSpaceBackward(s: string, lo: nat, j: nat): (r: nat)
    requires lo <= j <= |s|
    ensures lo <= r <= j
    ensures forall k | r <= k < j :: IsSpace(s[k])
    ensures r == lo || !IsSpace(s[r - 1])
    decreases j
  {
    if lo < j && IsSpace(s[j - 1]) then SkipSpaceBackward(s, lo, j - 1) else j
  }

  /** `s.strip()`: drop the whitespace at both ends. */
  function Strip(s: string): (r: string)
    ensures Trimmed(r)
  {
    var i := SkipSpaceForward(s, 0);
    var j := SkipSpaceBackward(s, i, |s|);
    s[i..j]
  }

  /** `s.strip()` is the infix of `s` between a whitespace prefix and a whitespace suffix. */
  lemma StripInfix(s: string) returns (i: nat)
    ensures i + |Strip(s)| <= |s| && Strip(s) == s[i..i + |Strip(s)|]
    ensures forall k | 0 <= k < i :: IsSpace(s[k])
    ensures forall k | i + |Strip(s)| <= k < |s| :: IsSpace(s[k])
  {
    i := SkipSpaceForward(s, 0);
  }

  /** `s.strip()` is empty exactly when `s` is blank. */
  lemma StripEmptyIff(s: string)
    ensures Strip(s) == [] <==> IsBlank(s)
  {
    var i := StripInfix(s);
    if !IsBlank(s) {
      var k :| 0 <= k < |s| && !IsSpace(s[k]);
      assert i <= k < i + |Strip(s)|;
    }
  }

  /** `sep.join(parts[..n])`. */
  function JoinPrefix(sep: string, parts: seq<string>, n: nat): string
    requires n <= |parts|
  {
    if n == 0 then ""
    else if n == 1 then parts[0]
    else JoinPrefix(sep, parts, n - 1) + sep + parts[n - 1]
  }

  /** Python's `sep.join(parts)`. */
  function Join(sep: string, parts: seq<string>): string {
    JoinPrefix(sep, parts, |parts|)
  }

  /** The joined prefix starts with the first part and ends with the `n`-th one. */
  lemma {:induction false} JoinPrefixEnds(sep: string, parts: seq<string>, n: nat)
    requires 0 < n <= |parts|
    ensures |JoinPrefix(sep, parts, n)| >= |parts[0]| && JoinPrefix(sep, parts, n)[..|parts[0]|] == parts[0]
    ensures |JoinPrefix(sep, parts, n)| >= |parts[n - 1]|
    ensures JoinPrefix(sep, parts, n)[|JoinPrefix(sep, parts, n)| - |parts[n - 1]|..] == parts[n - 1]
  {
    if n > 1 {
      JoinPrefixEnds(sep, parts, n - 1);
      var j := JoinPrefix(sep, parts, n - 1);
      assert (j + sep + parts[n - 1])[..|parts[0]|] == j[..|parts[0]|];
    }
  }

  /** Joining parts that are all non-empty and trimmed gives a trimmed string that is empty only for no parts. */
  lemma JoinTrimmed(sep: string, parts: seq<string>)
    requires forall k | 0 <= k < |parts| :: parts[k] != [] && Trimmed(parts[k])
    ensures Trimmed(Join(sep, parts))
    ensures Join(sep, parts) == [] <==> parts == []
  {
    if parts != [] {
      JoinPrefixEnds(sep, parts, |parts|);
      var j := Join(sep, parts);
      var first, last := parts[0], parts[|parts| - 1];
      assert j[0] == j[..|first|][0] == first[0];
      assert j[|j| - 1] == j[|j| - |last|..][|last| - 1] == last[|last| - 1];
    }
  }

  /** Python's `c.lower()` for an ASCII letter; every other character is left as it is. */
  function LowerChar(c: char): char {
    if 'A' <= c <= 'Z' then (c as int - 'A' as int + 'a' as int) as char else c
  }

  /** `s.lower()`, for the ASCII case mapping. */
  function Lower(s: string): (r: string)
    ensures |r| == |s|
  {
    seq(|s|, i requires 0 <= i < |s| => LowerChar(s[i]))
  }

  /** The decimal digit for `d`. */
  function DigitChar(d: nat): char
    requires d < 10
  {
    "0123456789"[d]
  }

  /** `str(n)` for a natural number: its decimal digits, without leading zeros. */
  function NatToString(n: nat): (r: string)
    ensures r != [] && forall i | 0 <= i < |r| :: '0' <= r[i] <= '9'
    ensures r[0] == '0' ==> n == 0
  {
    if n < 10 then [DigitChar(n)] else NatToString(n / 10) + [DigitChar(n % 10)]
  }
}
