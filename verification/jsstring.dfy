/** The few JavaScript string built-ins the page scripts rely on, with their ECMAScript meaning:
    the `\s` character class, `trim`, `toLowerCase` (ASCII part) and number-to-decimal conversion. */
module JsString {
  import opened Wrappers

  /** ECMAScript WhiteSpace and LineTerminator code points: what the regular-expression class
      `\s` matches and what `String.prototype.trim` removes. */
  predicate IsSpace(c: char) {
    var u := c as int;
    || u == 0x09 || u == 0x0A || u == 0x0B || u == 0x0C || u == 0x0D || u == 0x20
    || u == 0xA0 || u == 0x1680 || (0x2000 <= u <= 0x200A) || u == 0x2028 || u == 0x2029
    || u == 0x202F || u == 0x205F || u == 0x3000 || u == 0xFEFF
  }

  predicate NoSpace(s: string) {
    forall i :: 0 <= i < |s| ==> !IsSpace(s[i])
  }

  predicate AllSpace(s: string) {
    forall i :: 0 <= i < |s| ==> IsSpace(s[i])
  }

  /** The suffix left after dropping every leading space: the rest of a `\s+` run that
      `replace(/\s+/g, '_')` consumes after its first space. */
  function TrimStart(s: string): (r: string)
    ensures |r| <= |s| && r == s[|s| - |r|..]
    ensures AllSpace(s[..|s| - |r|])
    ensures r == [] || !IsSpace(r[0])
  {
    if |s| > 0 && IsSpace(s[0]) then
      var tail := s[1..];
      var r := TrimStart(tail);
      assert tail[|tail| - |r|..] == s[|s| - |r|..];
      var dropped := s[..|s| - |r|];
      assert AllSpace(dropped) by {
        forall k | 0 <= k < |dropped| ensures IsSpace(dropped[k]) {
          if k > 0 {
            assert dropped[k] == tail[..|tail| - |r|][k - 1];
          }
        }
      }
      r
    else s
  }

  /** Where the run of spaces starting at position `i` ends. */
  function SpacesEnd(s: string, i: nat): (j: nat)
    requires i <= |s|
    ensures i <= j <= |s|
    ensures forall m :: i <= m < j ==> IsSpace(s[m])
    ensures j == |s| || !IsSpace(s[j])
    decreases |s| - i
  {
    if i < |s| && IsSpace(s[i]) then SpacesEnd(s, i + 1) else i
  }

  /** Where the run of spaces ending at position `j` starts, looking no further back than `lo`. */
  function SpacesStart(s: string, lo: nat, j: nat): (i: nat)
    requires lo <= j <= |s|
    ensures lo <= i <= j
    ensures forall m :: i <= m < j ==> IsSpace(s[m])
    ensures i == lo || !IsSpace(s[i - 1])
    decreases j
  {
    if lo < j && IsSpace(s[j - 1]) then SpacesStart(s, lo, j - 1) else j
  }

  /** `s.trim()`: the text between the leading and the trailing spaces. The result is empty exactly
      when every character of `s` is a space; otherwise it starts and ends with a non-space
      character of `s`. */
  function Trim(s: string): (r: string)
    ensures r == [] <==> AllSpace(s)
    ensures r != [] ==> !IsSpace(r[0]) && !IsSpace(r[|r| - 1])
    ensures |r| <= |s|
  {
    var a := SpacesEnd(s, 0);
    var b := SpacesStart(s, a, |s|);
    assert a < |s| ==> a < b;
    s[a..b]
  }

  /** `s.trim()` is a run of `s` with nothing but spaces before and after it. */
  lemma TrimRemovesOuterSpace(s: string) returns (k: nat)
    ensures k + |Trim(s)| <= |s| && Trim(s) == s[k..k + |Trim(s)|]
    ensures AllSpace(s[..k]) && AllSpace(s[k + |Trim(s)|..])
  {
    k := SpacesEnd(s, 0);
    var b := SpacesStart(s, k, |s|);
    assert Trim(s) == s[k..b];
  }

  /** Text that neither starts nor ends with a space is its own trimmed text. */
  lemma TrimUnpadded(s: string)
    requires |s| > 0 && !IsSpace(s[0]) && !IsSpace(s[|s| - 1])
    ensures Trim(s) == s
  {
    var k := TrimRemovesOuterSpace(s);
    assert s[0..|s|] == s;
  }

  /** ASCII part of `String.prototype.toLowerCase` on one character. */
  function LowerChar(c: char): (d: char)
    ensures !('A' <= d <= 'Z')
    ensures IsSpace(d) == IsSpace(c)
    ensures !('A' <= c <= 'Z') ==> d == c
  {
    if 'A' <= c <= 'Z' then (c as int + 32) as char else c
  }

  predicate NoUpper(s: string) {
    forall i :: 0 <= i < |s| ==> !('A' <= s[i] <= 'Z')
  }

  /** `s.toLowerCase()` restricted to ASCII letters: same length, character by character. */
  function ToLower(s: string): (r: string)
    ensures |r| == |s|
    ensures forall i :: 0 <= i < |s| ==> r[i] == LowerChar(s[i])
    ensures NoUpper(r)
    ensures NoUpper(s) ==> r == s
  {
    seq(|s|, i requires 0 <= i < |s| => LowerChar(s[i]))
  }

  predicate IsDigit(c: char) {
    '0' <= c <= '9'
  }

  predicate AllDigits(s: string) {
    forall i :: 0 <= i < |s| ==> IsDigit(s[i])
  }

  function DigitChar(d: nat): (c: char)
    requires d < 10
    ensures IsDigit(c) && c as int - '0' as int == d
  {
    ('0' as int + d) as char
  }

  function DigitValue(c: char): (d: nat)
    requires IsDigit(c)
    ensures d < 10 && DigitChar(d) == c
  {
    c as int - '0' as int
  }

  /** The decimal numeral JavaScript produces for a non-negative integer in a template literal. */
  function DecimalString(n: nat): (r: string)
    ensures |r| > 0 && AllDigits(r)
    ensures r[0] == '0' ==> n == 0
    decreases n
  {
    if n < 10 then [DigitChar(n)] else DecimalString(n / 10) + [DigitChar(n % 10)]
  }

  /** The value of a numeral, read from the most significant digit. */
  function DecimalValue(s: string): nat
    requires AllDigits(s)
  {
    if |s| == 0 then 0 else DecimalValue(s[..|s| - 1]) * 10 + DigitValue(s[|s| - 1])
  }

  /** Reading back a printed counter gives the counter: the numeral determines the number. */
  lemma {:induction false} DecimalRoundTrip(n: nat)
    ensures DecimalValue(DecimalString(n)) == n
    decreases n
  {
    if n >= 10 {
      var s := DecimalString(n);
      assert s[..|s| - 1] == DecimalString(n / 10);
      DecimalRoundTrip(n / 10);
    }
  }

  /** `s.indexOf(c)`, with "not found" as `None`: the first position holding `c`. */
  function IndexOf(s: string, c: char): (r: Option<nat>)
    ensures r.Some? ==> r.value < |s| && s[r.value] == c && c !in s[..r.value]
    ensures r.Some? ==> forall j :: 0 <= j < r.value ==> s[j] != c
    ensures r.None? <==> c !in s
  {
    if |s| == 0 then None
    else if s[0] == c then Some(0)
    else
      var rest := IndexOf(s[1..], c);
      if rest.None? then None
      else
        assert s[..rest.value + 1] == [s[0]] + s[1..][..rest.value];
        Some(rest.value + 1)
  }

  /** A position holding `c` with no `c` before it is the one `IndexOf` finds. */
  lemma IndexOfFirst(s: string, c: char, i: nat)
    requires i < |s| && s[i] == c
    requires forall j :: 0 <= j < i ==> s[j] != c
    ensures IndexOf(s, c) == Some(i)
  {
    assert c in s;
  }
}
