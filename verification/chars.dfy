/** Character classes used by the URL codec, number formatting and percent-encoding. */
module Chars {

  /** An ASCII decimal digit: what `\d` matches in a JavaScript regular expression without the `u` flag. */
  predicate IsDigit(c: char) {
    '0' <= c <= '9'
  }

  predicate IsDigits(s: string) {
    forall i :: 0 <= i < |s| ==> IsDigit(s[i])
  }

  predicate IsAsciiChar(c: char) {
    c as int < 128
  }

  predicate IsAscii(s: string) {
    forall i :: 0 <= i < |s| ==> IsAsciiChar(s[i])
  }

  function DigitValue(c: char): (d: nat)
    requires IsDigit(c)
    ensures d < 10
  {
    c as int - '0' as int
  }

  /** The digit character for `d`; inverse of `DigitValue`. */
  function DigitChar(d: nat): (c: char)
    requires d < 10
    ensures IsDigit(c) && DigitValue(c) == d
  {
    ('0' as int + d) as char
  }

  predicate IsHexDigit(c: char) {
    IsDigit(c) || 'A' <= c <= 'F' || 'a' <= c <= 'f'
  }

  function HexValue(c: char): (d: nat)
    requires IsHexDigit(c)
    ensures d < 16
  {
    if IsDigit(c) then c as int - '0' as int
    else if 'A' <= c <= 'F' then c as int - 'A' as int + 10
    else c as int - 'a' as int + 10
  }

  /** The upper-case hexadecimal digit for `d`; inverse of `HexValue`. */
  function HexDigitChar(d: nat): (c: char)
    requires d < 16
    ensures IsHexDigit(c) && HexValue(c) == d
    ensures IsDigit(c) || 'A' <= c <= 'F'
  {
    if d < 10 then ('0' as int + d) as char else ('A' as int + d - 10) as char
  }
}
