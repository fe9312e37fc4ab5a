/** Request paths of the people accessors (`fetchPerson`, `fetchPeople`, `searchPeople`). */
module PeopleApi {
  import opened Wrappers
  import opened Chars
  import opened JsNumber
  import opened UriComponent
  import opened QueryParams
  import Swapi

  /**
   * `fetchPerson(id)`: the id is a number written with `${id}`, which gives the
   * path `getPerson` builds from its decimal text. A non-negative id comes back
   * by extraction as that text, which reads back as the id; a negative id
   * gives a path from which no id can be extracted.
   */
  function FetchPerson(id: JsInt): (path: string)
    ensures path == Swapi.GetPerson(NumberToString(id))
    ensures id >= 0 ==> Swapi.ExtractIdFromUrl(path) == Success(NumberToString(id))
    ensures id >= 0 ==> ParseInteger(Swapi.ExtractIdFromUrl(path).value) == Some(id as int)
    ensures id < 0 ==> Swapi.ExtractIdFromUrl(path).Failure?
  {
    var path := "/people/" + NumberToString(id) + "/";
    if id >= 0 then
      Swapi.ItemPathRoundTrip("/people/", NumberToString(id));
      NumberToStringRoundTrip(id);
      path
    else
      Swapi.ExtractIdRejectsSignedSegment("/people/", NumberToString(id));
      path
  }

  /** `fetchPeople(page)` builds the same path as `getPeople(page)`. */
  function FetchPeople(page: Option<JsInt>): (path: string)
    ensures path == Swapi.GetPeople(page)
  {
    "/people/" + PageParams(page)
  }

  /** `searchPeople(name)` builds the same path as the `searchPeople` of the swapi module. */
  function SearchPeople(name: string): (p: string)
    requires IsAscii(name)
    ensures p == Swapi.SearchPeople(name)
  {
    "/people/" + "?search=" + EncodeURIComponent(name)
  }

  /**
   * Two pages give the same path exactly when both are falsy (absent or `0`)
   * or both are the same non-zero number.
   */
  lemma FetchPeoplePaging(p: Option<JsInt>, q: Option<JsInt>)
    ensures FetchPeople(p) == "/people/" <==> !Truthy(p)
    ensures FetchPeople(p) == FetchPeople(q) <==> if Truthy(p) then Truthy(q) && p.value == q.value else !Truthy(q)
  {
    if FetchPeople(p) == FetchPeople(q) {
      assert FetchPeople(p)[8..] == PageParams(p);
      assert FetchPeople(q)[8..] == PageParams(q);
    }
  }

  /** The extraction facts of `fetchPerson` hold behind any base URL. */
  lemma FetchPersonRoundTrip(base: string, id: JsInt)
    ensures id >= 0 ==> Swapi.ExtractIdFromUrl(base + FetchPerson(id)) == Success(NumberToString(id))
    ensures id < 0 ==> Swapi.ExtractIdFromUrl(base + FetchPerson(id)).Failure?
  {
    var head := base + "/people/";
    var text := NumberToString(id);
    assert base + FetchPerson(id) == head + text + "/" by {
      assert FetchPerson(id) == "/people/" + text + "/";
    }
    if id >= 0 {
      Swapi.ItemPathRoundTrip(head, text);
    } else {
      Swapi.ExtractIdRejectsSignedSegment(head, text);
    }
  }
}
