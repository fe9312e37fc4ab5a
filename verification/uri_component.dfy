/**
 * `encodeURIComponent` on ASCII text, as section 19.2.6 of ECMA-262 describes it:
 * the characters of `IsUnreserved` pass through, every other character becomes an
 * upper-case `%XX` triplet (section 2.1 of RFC 3986).
 */
module UriComponent {
  import opened Wrappers
  import opened Chars

  /** Letters, digits and `- _ . ! ~ * ' ( )`: left unescaped by `encodeURIComponent`. */
  predicate IsUnreserved(c: char) {
    || 'A' <= c <= 'Z'
    || 'a' <= c <= 'z'
    || IsDigit(c)
    || c == '-' || c == '_' || c == '.' || c == '!' || c == '~'
    || c == '*' || c == '\'' || c == '(' || c == ')'
  }

  /** Text `encodeURIComponent` can produce: unreserved characters and `%`. */
  predicate IsEncodedText(t: string) {
    forall i :: 0 <= i < |t| ==> IsUnreserved(t[i]) || t[i] == '%'
  }

  function EncodeChar(c: char): (e: string)
    requires IsAsciiChar(c)
    ensures IsEncodedText(e)
    ensures IsUnreserved(c) ==> e == [c]
    ensures !IsUnreserved(c) ==>
      && |e| == 3 && e[0] == '%' && IsHexDigit(e[1]) && IsHexDigit(e[2])
      && HexValue(e[1]) * 16 + HexValue(e[2]) == c as int
    ensures !IsUnreserved(c) ==>
      && (IsDigit(e[1]) || 'A' <= e[1] <= 'F')
      && (IsDigit(e[2]) || 'A' <= e[2] <= 'F')
  {
    if IsUnreserved(c) then [c]
    else ['%', HexDigitChar(c as int / 16), HexDigitChar(c as int % 16)]
  }

  function EncodeURIComponent(s: string): (t: string)
    requires IsAscii(s)
    ensures IsEncodedText(t)
    ensures |t| >= |s|
  {
    if s == [] then [] else EncodeChar(s[0]) + EncodeURIComponent(s[1..])
  }

  /**
   * Encoding works character by character: the encoding of a concatenation is
   * the concatenation of the encodings, so with `EncodeChar` it pins down
   * every output.
   */
  lemma {:induction false} EncodeAppend(a: string, b: string)
    requires IsAscii(a) && IsAscii(b)
    ensures EncodeURIComponent(a + b) == EncodeURIComponent(a) + EncodeURIComponent(b)
    decreases |a|
  {
    if a == [] {
      assert a + b == b;
    } else {
      assert (a + b)[0] == a[0];
      assert (a + b)[1..] == a[1..] + b;
      EncodeAppend(a[1..], b);
    }
  }

  /** A one-character term encodes as that character alone. */
  lemma EncodeSingle(c: char)
    requires IsAsciiChar(c)
    ensures EncodeURIComponent([c]) == EncodeChar(c)
  {
    assert [c][1..] == [];
  }

  /** `decodeURIComponent` restricted to ASCII escapes; `None` where it would throw. */
  function DecodeURIComponent(t: string): Option<string>
    decreases |t|
  {
    if t == [] then Some([])
    else if t[0] != '%' then
      match DecodeURIComponent(t[1..])
      case Some(rest) => Some([t[0]] + rest)
      case None => None
    else if |t| >= 3 && IsHexDigit(t[1]) && IsHexDigit(t[2]) && HexValue(t[1]) < 8 then
      match DecodeURIComponent(t[3..])
      case Some(rest) => Some([(HexValue(t[1]) * 16 + HexValue(t[2])) as char] + rest)
      case None => None
    else None
  }

  lemma {:induction false} DecodeEncode(s: string)
    requires IsAscii(s)
    ensures DecodeURIComponent(EncodeURIComponent(s)) == Some(s)
    decreases |s|
  {
    if s != [] {
      var rest := EncodeURIComponent(s[1..]);
      var t := EncodeURIComponent(s);
      DecodeEncode(s[1..]);
      assert t == EncodeChar(s[0]) + rest;
      if IsUnreserved(s[0]) {
        assert t[1..] == rest;
      } else {
        assert t[3..] == rest;
      }
      assert [s[0]] + s[1..] == s;
    }
  }

  /** Distinct search terms give distinct encoded terms. */
  lemma EncodeInjective(a: string, b: string)
    requires IsAscii(a) && IsAscii(b)
    ensures EncodeURIComponent(a) == EncodeURIComponent(b) <==> a == b
  {
    DecodeEncode(a);
    DecodeEncode(b);
  }

  /** An encoded term cannot end the parameter, start another, or open a fragment or path segment. */
  lemma EncodedHasNoDelimiters(s: string)
    requires IsAscii(s)
    ensures var t := EncodeURIComponent(s);
      forall i :: 0 <= i < |t| ==>
        t[i] != '&' && t[i] != '=' && t[i] != '?' && t[i] != '#' && t[i] != '/' && t[i] != ' '
  {
  }

  /** Text of unreserved characters only is sent as it is, and only such text. */
  lemma {:induction false} EncodeIdentityIff(s: string)
    requires IsAscii(s)
    ensures EncodeURIComponent(s) == s <==> forall i :: 0 <= i < |s| ==> IsUnreserved(s[i])
    decreases |s|
  {
    if s != [] {
      EncodeIdentityIff(s[1..]);
      var rest := EncodeURIComponent(s[1..]);
      if IsUnreserved(s[0]) {
        if forall i :: 0 <= i < |s[1..]| ==> IsUnreserved(s[1..][i]) {
          assert [s[0]] + s[1..] == s;
        } else {
          var j :| 0 <= j < |s[1..]| && !IsUnreserved(s[1..][j]);
          assert !IsUnreserved(s[j + 1]);
          assert rest != s[1..];
          assert EncodeURIComponent(s)[1..] == rest;
        }
      } else {
        assert |EncodeURIComponent(s)| >= 3 + |s[1..]| > |s|;
      }
    }
  }

  /** A space is not unreserved: it is sent as `%20`. */
  lemma EncodeSpace()
    ensures EncodeURIComponent(" ") == "%20"
  {
  }
}
