/** Character-level helpers behind the colour code: ASCII upper-casing (what
    Python's `str.upper` does to the characters of a colour string) and
    two-digit hexadecimal bytes (`int(s, 16)` on a pair, `format(n, "02X")`). */
module Strings {
  import opened Wrappers

  predicate IsLower(ch: char)
  {
    'a' <= ch <= 'z'
  }

  function UpperChar(ch: char): char
  {
    if IsLower(ch) then (ch as int - 32) as char else ch
  }

  function Upper(s: string): (u: string)
    ensures |u| == |s|
    ensures forall i :: 0 <= i < |s| ==> u[i] == UpperChar(s[i])
  {
    seq(|s|, i requires 0 <= i < |s| => UpperChar(s[i]))
  }

  /** No lower-case ASCII letter occurs in `s`. */
  predicate NoLower(s: string)
  {
    forall i :: 0 <= i < |s| ==> !IsLower(s[i])
  }

  /** Upper-casing leaves no lower-case letter, changes nothing else than
      lower-case letters, and commutes with taking a slice. */
  lemma UpperFacts(s: string, i: nat, j: nat)
    requires i <= j <= |s|
    ensures NoLower(Upper(s))
    ensures NoLower(s) ==> Upper(s) == s
    ensures Upper(s)[i..j] == Upper(s[i..j])
  {
    if NoLower(s) {
      assert forall k :: 0 <= k < |s| ==> Upper(s)[k] == s[k];
    }
    assert forall k :: 0 <= k < j - i ==> Upper(s)[i..j][k] == Upper(s[i..j])[k];
  }

  predicate IsHexDigit(ch: char)
  {
    '0' <= ch <= '9' || 'a' <= ch <= 'f' || 'A' <= ch <= 'F'
  }

  predicate IsUpperHexDigit(ch: char)
  {
    '0' <= ch <= '9' || 'A' <= ch <= 'F'
  }

  function DigitValue(ch: char): (d: int)
    requires IsHexDigit(ch)
    ensures 0 <= d < 16
  {
    if '0' <= ch <= '9' then ch as int - '0' as int
    else if 'a' <= ch <= 'f' then ch as int - 'a' as int + 10
    else ch as int - 'A' as int + 10
  }

  /** The upper-case hexadecimal digit for `d`. */
  function HexDigit(d: int): (ch: char)
    requires 0 <= d < 16
    ensures IsUpperHexDigit(ch) && DigitValue(ch) == d
  {
    if d < 10 then ('0' as int + d) as char else ('A' as int + d - 10) as char
  }

  /** `int(s, 16)` for a two-character `s`: None where Python raises ValueError.
      (Python also accepts a sign or surrounding blanks, as in "+F"; the model
      treats such a pair as not hexadecimal.) */
  function ParseHexByte(s: string): (r: Option<int>)
    requires |s| == 2
    ensures r.Some? <==> IsHexDigit(s[0]) && IsHexDigit(s[1])
    ensures r.Some? ==> 0 <= r.value < 256
    ensures r.Some? ==> HexDigit(r.value / 16) == UpperChar(s[0]) && HexDigit(r.value % 16) == UpperChar(s[1])
  {
    if IsHexDigit(s[0]) && IsHexDigit(s[1]) then
      HexDigitOfValue(s[0]);
      HexDigitOfValue(s[1]);
      Some(16 * DigitValue(s[0]) + DigitValue(s[1]))
    else None
  }

  /** A hexadecimal digit's value is written back as that digit, upper-cased. */
  lemma HexDigitOfValue(ch: char)
    requires IsHexDigit(ch)
    ensures HexDigit(DigitValue(ch)) == UpperChar(ch)
  {
  }

  /** `format(n, "02X")` for a channel value. */
  function HexByte(n: int): (s: string)
    requires 0 <= n < 256
    ensures |s| == 2 && IsUpperHexDigit(s[0]) && IsUpperHexDigit(s[1])
    ensures ParseHexByte(s) == Some(n)
  {
    [HexDigit(n / 16), HexDigit(n % 16)]
  }

  /** Parsing a pair and formatting the value gives the pair back, upper-cased. */
  lemma ParseHexByteRoundTrip(s: string)
    requires |s| == 2 && ParseHexByte(s).Some?
    ensures HexByte(ParseHexByte(s).value) == Upper(s)
  {
  }
}
