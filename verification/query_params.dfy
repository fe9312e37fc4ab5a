/**
 * The query parts the path builders append: the optional `?page=` parameter,
 * guarded by JavaScript truthiness, and the `?search=` parameter.
 */
module QueryParams {
  import opened Wrappers
  import opened Chars
  import opened JsNumber
  import opened UriComponent

  /** JavaScript truthiness of an optional page number: absent and `0` are both falsy. */
  predicate Truthy(page: Option<JsInt>) {
    page.Some? && page.value != 0
  }

  /**
   * The expression `page ? `?page=${page}` : ''`: no page parameter exactly
   * when the page is absent or `0`; any other page reads back as itself.
   */
  function PageParams(page: Option<JsInt>): (q: string)
    ensures q == "" <==> !Truthy(page)
    ensures Truthy(page) ==> q == "?page=" + NumberToString(page.value)
    ensures ReadPageParams(q) == if Truthy(page) then Some(page.value as int) else None
  {
    if Truthy(page) then
      var q := "?page=" + NumberToString(page.value);
      assert q[..6] == "?page=";
      assert q[6..] == NumberToString(page.value);
      NumberToStringRoundTrip(page.value);
      q
    else ""
  }

  /** The page number a server reads from a query string; `None` when there is no page parameter. */
  function ReadPageParams(q: string): Option<int> {
    if |q| >= 6 && q[..6] == "?page=" then ParseInteger(q[6..]) else None
  }

  /** The term a server reads from a `?search=` query string. */
  function ReadSearchParams(q: string): Option<string> {
    if |q| >= 8 && q[..8] == "?search=" then DecodeURIComponent(q[8..]) else None
  }

  /** Characters that would end a path or split a query string. */
  predicate HasNoQuerySyntax(s: string) {
    forall i :: 0 <= i < |s| ==> s[i] != '?' && s[i] != '&' && s[i] != '#'
  }

  /** A search parameter reads back as the term it was built from. */
  lemma SearchParamsRoundTrip(term: string)
    requires IsAscii(term)
    ensures ReadSearchParams("?search=" + EncodeURIComponent(term)) == Some(term)
  {
    var q := "?search=" + EncodeURIComponent(term);
    assert q[..8] == "?search=";
    assert q[8..] == EncodeURIComponent(term);
    DecodeEncode(term);
  }

  /**
   * `base + "?search=" + encodeURIComponent(term)` has exactly one `?`, right
   * after `base`, no `&` or `#`, so it carries one query parameter, and that
   * parameter reads back as `term`.
   */
  lemma SearchPathShape(base: string, term: string)
    requires HasNoQuerySyntax(base)
    requires IsAscii(term)
    ensures var p := base + "?search=" + EncodeURIComponent(term);
      && p[..|base|] == base
      && p[|base|..] == "?search=" + EncodeURIComponent(term)
      && p[|base|] == '?'
      && (forall i :: 0 <= i < |p| && p[i] == '?' ==> i == |base|)
      && (forall i :: 0 <= i < |p| ==> p[i] != '&' && p[i] != '#')
      && ReadSearchParams(p[|base|..]) == Some(term)
  {
    var t := EncodeURIComponent(term);
    var p := base + "?search=" + t;
    EncodedHasNoDelimiters(term);
    forall i | 0 <= i < |p|
      ensures p[i] != '&' && p[i] != '#' && (p[i] == '?' ==> i == |base|)
    {
      if i < |base| {
        assert p[i] == base[i];
      } else if i >= |base| + 8 {
        assert p[i] == t[i - |base| - 8];
      }
    }
    assert p[..|base|] == base;
    assert p[|base|..] == "?search=" + t;
    SearchParamsRoundTrip(term);
  }
}
