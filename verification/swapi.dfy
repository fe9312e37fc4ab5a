/**
 * The resource-URL id codec and the request paths of the high-level API
 * functions (`getX`, `searchX`). Each function returns the path it hands to
 * the shared HTTP client; the request itself is not modelled.
 */
module Swapi {
  import opened Wrappers
  import opened Chars
  import opened JsNumber
  import opened UriComponent
  import opened QueryParams

  /** A resource id as `\d+` matches it: a non-empty run of ASCII digits. */
  predicate IsIdText(id: string) {
    |id| > 0 && IsDigits(id)
  }

  /** `url` ends in `/<id>/`, `id` a non-empty digit run: the pattern `/\/(\d+)\/$/` with capture `id`. */
  predicate EndsWithId(url: string, id: string) {
    && IsIdText(id)
    && |url| >= |id| + 2
    && url[|url| - |id| - 2..] == "/" + id + "/"
  }

  function InvalidUrlMessage(url: string): string {
    "Invalid SWAPI URL format: " + url
  }

  /** Length of the longest run of digits at the end of `s`. */
  function TrailingDigitCount(s: string): (k: nat)
    ensures k <= |s|
    ensures IsDigits(s[|s| - k..])
    ensures k < |s| ==> !IsDigit(s[|s| - k - 1])
  {
    if |s| == 0 || !IsDigit(s[|s| - 1]) then 0
    else
      var k := 1 + TrailingDigitCount(s[..|s| - 1]);
      assert s[|s| - k..] == s[..|s| - 1][|s| - k..] + [s[|s| - 1]];
      k
  }

  /**
   * `extractIdFromUrl`: the digits between the last two slashes, returned as
   * text, or the error it throws. The check `!match[1]` in the source can never
   * fire, since a match always captures at least one digit.
   */
  function ExtractIdFromUrl(url: string): (r: Result<string, string>)
    ensures r.Success? ==> EndsWithId(url, r.value)
    ensures r.Failure? ==> r.error == InvalidUrlMessage(url)
  {
    if |url| == 0 || url[|url| - 1] != '/' then Failure(InvalidUrlMessage(url))
    else
      var body := url[..|url| - 1];
      var k := TrailingDigitCount(body);
      if k == 0 || k == |body| || body[|body| - k - 1] != '/' then Failure(InvalidUrlMessage(url))
      else
        var id := body[|body| - k..];
        var j := |body| - k - 1;
        assert body[j..] == [body[j]] + id;
        assert url == body + [url[|url| - 1]];
        assert url[j..] == body[j..] + [url[|url| - 1]];
        Success(id)
  }

  /** The maximal trailing digit run is the one bounded by a non-digit (or the start). */
  lemma TrailingDigitCountUnique(s: string, m: nat)
    requires m <= |s|
    requires IsDigits(s[|s| - m..])
    requires m < |s| ==> !IsDigit(s[|s| - m - 1])
    ensures TrailingDigitCount(s) == m
  {
  }

  lemma ExtractIdComplete(url: string, id: string)
    requires EndsWithId(url, id)
    ensures ExtractIdFromUrl(url) == Success(id)
  {
    var body := url[..|url| - 1];
    var tail := url[|url| - |id| - 2..];
    assert url[|url| - 1] == tail[|tail| - 1] == '/';
    assert body[|body| - |id|..] == id by {
      forall i | 0 <= i < |id| ensures body[|body| - |id|..][i] == id[i] {
        assert body[|body| - |id| + i] == tail[i + 1];
      }
    }
    assert body[|body| - |id| - 1] == tail[0] == '/';
    TrailingDigitCountUnique(body, |id|);
  }

  /** Extraction returns `id` exactly when the URL ends in `/<id>/` with `id` a digit run. */
  lemma ExtractIdFromUrlIff(url: string, id: string)
    ensures ExtractIdFromUrl(url) == Success(id) <==> EndsWithId(url, id)
  {
    if EndsWithId(url, id) {
      ExtractIdComplete(url, id);
    }
  }

  /** Extraction fails, with the fixed message, exactly when no id suffix is present. */
  lemma ExtractIdFailsIff(url: string)
    ensures ExtractIdFromUrl(url) == Failure(InvalidUrlMessage(url)) <==> forall id :: !EndsWithId(url, id)
  {
    if ExtractIdFromUrl(url).Failure? {
      forall id ensures !EndsWithId(url, id) {
        if EndsWithId(url, id) {
          ExtractIdComplete(url, id);
        }
      }
    }
  }

  /** Any prefix, then `/`, then digits, then `/`: the digits come back verbatim. */
  lemma ExtractIdOfSegment(prefix: string, id: string)
    requires IsIdText(id)
    ensures ExtractIdFromUrl(prefix + "/" + id + "/") == Success(id)
  {
    var url := prefix + "/" + id + "/";
    assert url[|url| - |id| - 2..] == "/" + id + "/";
    ExtractIdComplete(url, id);
  }

  /** A final segment that does not consist of digits only (`/x/`, `/-5/`, `/5a/`...) is rejected. */
  lemma ExtractIdRejectsNonDigitSegment(prefix: string, c: char, digits: string)
    requires !IsDigit(c) && c != '/'
    requires IsDigits(digits)
    ensures ExtractIdFromUrl(prefix + [c] + digits + "/").Failure?
  {
    var url := prefix + [c] + digits + "/";
    var body := url[..|url| - 1];
    assert body == prefix + [c] + digits;
    assert body[|body| - |digits|..] == digits;
    TrailingDigitCountUnique(body, |digits|);
  }

  /** A signed final segment such as `/-5/`, the text `${n}` gives for a negative n, is rejected. */
  lemma ExtractIdRejectsSignedSegment(prefix: string, text: string)
    requires |text| > 1 && text[0] == '-' && IsDigits(text[1..])
    ensures ExtractIdFromUrl(prefix + text + "/").Failure?
  {
    assert text == [text[0]] + text[1..];
    assert prefix + text + "/" == prefix + ['-'] + text[1..] + "/";
    ExtractIdRejectsNonDigitSegment(prefix, '-', text[1..]);
  }

  /** An empty final segment (`//` at the end) is rejected. */
  lemma ExtractIdRejectsEmptySegment(prefix: string)
    ensures ExtractIdFromUrl(prefix + "//").Failure?
  {
  }

  /** A URL without the trailing slash (`.../people/5`) is rejected. */
  lemma ExtractIdRejectsMissingSlash(url: string)
    requires |url| == 0 || url[|url| - 1] != '/'
    ensures ExtractIdFromUrl(url) == Failure(InvalidUrlMessage(url))
  {
  }

  // Request paths.

  /**
   * `getPeople(page)`: the bare collection exactly when the page is absent or
   * `0`; otherwise its query reads back as the page.
   */
  function GetPeople(page: Option<JsInt>): (path: string)
    ensures path == "/people/" <==> !Truthy(page)
    ensures |path| >= 8 && path[..8] == "/people/"
    ensures ReadPageParams(path[8..]) == if Truthy(page) then Some(page.value as int) else None
    ensures Truthy(page) ==> path[8..] == "?page=" + NumberToString(page.value)
  {
    var path := "/people/" + PageParams(page);
    assert path[8..] == PageParams(page);
    path
  }

  /** `getPerson(id)`: the id is placed verbatim, and comes back by extraction exactly when it is a digit run. */
  function GetPerson(id: string): (path: string)
    ensures |path| >= 8 && path[..8] == "/people/" && path[8..] == id + "/"
    ensures ExtractIdFromUrl(path) == Success(id) <==> IsIdText(id)
  {
    ItemPathRoundTrip("/people/", id);
    var path := "/people/" + id + "/";
    assert path[8..] == id + "/";
    path
  }

  /** `getFilms()`: the films listing, with no page parameter and no item id. */
  function GetFilms(): (path: string)
    ensures |path| >= 7 && path[..7] == "/films/" && ReadPageParams(path[7..]) == None
    ensures ExtractIdFromUrl(path).Failure?
  {
    ExtractIdRejectsNonDigitSegment("/film", 's', "");
    assert "/film" + ['s'] + "" + "/" == "/films/";
    "/films/"
  }

  function GetFilm(id: string): (path: string)
    ensures |path| >= 7 && path[..7] == "/films/" && path[7..] == id + "/"
    ensures ExtractIdFromUrl(path) == Success(id) <==> IsIdText(id)
  {
    ItemPathRoundTrip("/films/", id);
    var path := "/films/" + id + "/";
    assert path[7..] == id + "/";
    path
  }

  function GetPlanets(page: Option<JsInt>): (path: string)
    ensures path == "/planets/" <==> !Truthy(page)
    ensures |path| >= 9 && path[..9] == "/planets/"
    ensures ReadPageParams(path[9..]) == if Truthy(page) then Some(page.value as int) else None
    ensures Truthy(page) ==> path[9..] == "?page=" + NumberToString(page.value)
  {
    var path := "/planets/" + PageParams(page);
    assert path[9..] == PageParams(page);
    path
  }

  function GetPlanet(id: string): (path: string)
    ensures |path| >= 9 && path[..9] == "/planets/" && path[9..] == id + "/"
    ensures ExtractIdFromUrl(path) == Success(id) <==> IsIdText(id)
  {
    ItemPathRoundTrip("/planets/", id);
    var path := "/planets/" + id + "/";
    assert path[9..] == id + "/";
    path
  }

  /** `searchPeople(query)`: one query parameter, which reads back as the query. */
  function SearchPeople(query: string): (p: string)
    requires IsAscii(query)
    ensures |p| >= 8 && p[..8] == "/people/"
    ensures forall i :: 0 <= i < |p| && p[i] == '?' ==> i == 8
    ensures forall i :: 0 <= i < |p| ==> p[i] != '&' && p[i] != '#'
    ensures ReadSearchParams(p[8..]) == Some(query)
    ensures p[8..] == "?search=" + EncodeURIComponent(query)
  {
    SearchPathShape("/people/", query);
    "/people/" + "?search=" + EncodeURIComponent(query)
  }

  function SearchFilms(query: string): (p: string)
    requires IsAscii(query)
    ensures |p| >= 7 && p[..7] == "/films/"
    ensures forall i :: 0 <= i < |p| && p[i] == '?' ==> i == 7
    ensures forall i :: 0 <= i < |p| ==> p[i] != '&' && p[i] != '#'
    ensures ReadSearchParams(p[7..]) == Some(query)
    ensures p[7..] == "?search=" + EncodeURIComponent(query)
  {
    SearchPathShape("/films/", query);
    "/films/" + "?search=" + EncodeURIComponent(query)
  }

  function SearchPlanets(query: string): (p: string)
    requires IsAscii(query)
    ensures |p| >= 9 && p[..9] == "/planets/"
    ensures forall i :: 0 <= i < |p| && p[i] == '?' ==> i == 9
    ensures forall i :: 0 <= i < |p| ==> p[i] != '&' && p[i] != '#'
    ensures ReadSearchParams(p[9..]) == Some(query)
    ensures p[9..] == "?search=" + EncodeURIComponent(query)
  {
    SearchPathShape("/planets/", query);
    "/planets/" + "?search=" + EncodeURIComponent(query)
  }

  /** `head + id + "/"` with `head` ending in a slash yields `id` back exactly when `id` is a digit run. */
  lemma ItemPathRoundTrip(head: string, id: string)
    requires |head| > 0 && head[|head| - 1] == '/'
    ensures ExtractIdFromUrl(head + id + "/") == Success(id) <==> IsIdText(id)
  {
    ExtractIdFromUrlIff(head + id + "/", id);
    if IsIdText(id) {
      var url := head + id + "/";
      assert url[|url| - |id| - 2..] == "/" + id + "/";
    }
  }

  /** Extraction inverts `getPerson` behind any base URL, for digit ids and only for them. */
  lemma GetPersonRoundTrip(base: string, id: string)
    ensures ExtractIdFromUrl(base + GetPerson(id)) == Success(id) <==> IsIdText(id)
  {
    var path := GetPerson(id);
    assert path == "/people/" + id + "/";
    assert base + path == (base + "/people/") + id + "/";
    ItemPathRoundTrip(base + "/people/", id);
  }

  lemma GetFilmRoundTrip(base: string, id: string)
    ensures ExtractIdFromUrl(base + GetFilm(id)) == Success(id) <==> IsIdText(id)
  {
    var path := GetFilm(id);
    assert path == "/films/" + id + "/";
    assert base + path == (base + "/films/") + id + "/";
    ItemPathRoundTrip(base + "/films/", id);
  }

  lemma GetPlanetRoundTrip(base: string, id: string)
    ensures ExtractIdFromUrl(base + GetPlanet(id)) == Success(id) <==> IsIdText(id)
  {
    var path := GetPlanet(id);
    assert path == "/planets/" + id + "/";
    assert base + path == (base + "/planets/") + id + "/";
    ItemPathRoundTrip(base + "/planets/", id);
  }
}
