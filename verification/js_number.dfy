/**
 * JavaScript numbers as the client uses them: integer page numbers, ids and
 * HTTP statuses, turned into text by a template literal `${n}`.
 */
module JsNumber {
  import opened Wrappers
  import opened Chars

  /** `Number.MAX_SAFE_INTEGER`, 2^53 - 1. */
  const MaxSafeInteger: int := 9007199254740991

  /**
   * An integral JavaScript number in the safe range, where every integer is
   * representable and `${n}` prints all its digits. Beyond it most integers
   * are not representable, and from 10^21 on `${n}` uses exponent notation.
   */
  type JsInt = n: int | -MaxSafeInteger <= n <= MaxSafeInteger

  /** Shortest decimal text of a natural number. */
  function NatToDecimal(n: nat): (s: string)
    ensures |s| > 0 && IsDigits(s)
    ensures s[0] == '0' ==> s == "0"
    decreases n
  {
    if n < 10 then [DigitChar(n)] else NatToDecimal(n / 10) + [DigitChar(n % 10)]
  }

  /** The template literal `${n}` for an integral number `n`. */
  function NumberToString(n: int): (s: string)
    ensures |s| > 0
    ensures IsDigits(s) <==> n >= 0
    ensures n < 0 ==> s[0] == '-'
    ensures s[0] == '0' ==> s == "0"
    ensures n < 0 ==> |s| > 1 && s[1] != '0' && IsDigits(s[1..])
  {
    if n < 0 then
      var s := "-" + NatToDecimal(-n);
      assert !IsDigit(s[0]);
      assert s[1..] == NatToDecimal(-n);
      s
    else NatToDecimal(n)
  }

  /** Value of a run of decimal digits; leading zeros are allowed. */
  function ParseNat(s: string): nat
    requires IsDigits(s)
  {
    if s == [] then 0 else ParseNat(s[..|s| - 1]) * 10 + DigitValue(s[|s| - 1])
  }

  /** Reads an optionally negative decimal integer, as a server reads a `page` parameter. */
  function ParseInteger(s: string): Option<int> {
    if |s| > 0 && IsDigits(s) then Some(ParseNat(s) as int)
    else if |s| > 1 && s[0] == '-' && IsDigits(s[1..]) then Some(-(ParseNat(s[1..]) as int))
    else None
  }

  lemma {:induction false} ParseNatToDecimal(n: nat)
    ensures ParseNat(NatToDecimal(n)) == n
    decreases n
  {
    if n >= 10 {
      var s := NatToDecimal(n);
      ParseNatToDecimal(n / 10);
      assert s[..|s| - 1] == NatToDecimal(n / 10);
    }
  }

  /** `${n}` loses nothing: the number is read back from its text. */
  lemma NumberToStringRoundTrip(n: int)
    ensures ParseInteger(NumberToString(n)) == Some(n)
  {
    if n < 0 {
      ParseNatToDecimal(-n);
      assert NumberToString(n)[1..] == NatToDecimal(-n);
    } else {
      ParseNatToDecimal(n);
    }
  }

  lemma NumberToStringInjective(a: int, b: int)
    ensures NumberToString(a) == NumberToString(b) <==> a == b
  {
    NumberToStringRoundTrip(a);
    NumberToStringRoundTrip(b);
  }
}
