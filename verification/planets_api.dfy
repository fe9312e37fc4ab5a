/** Request paths of the planets accessors (`fetchPlanet`, `fetchPlanets`, `searchPlanets`). */
module PlanetsApi {
  import opened Wrappers
  import opened Chars
  import opened JsNumber
  import opened UriComponent
  import opened QueryParams
  import Swapi

  /**
   * `fetchPlanet(id)`: the id is a number written with `${id}`, which gives the
   * path `getPlanet` builds from its decimal text. A non-negative id comes back
   * by extraction as that text, which reads back as the id; a negative id
   * gives a path from which no id can be extracted.
   */
  function FetchPlanet(id: JsInt): (path: string)
    ensures path == Swapi.GetPlanet(NumberToString(id))
    ensures id >= 0 ==> Swapi.ExtractIdFromUrl(path) == Success(NumberToString(id))
    ensures id >= 0 ==> ParseInteger(Swapi.ExtractIdFromUrl(path).value) == Some(id as int)
    ensures id < 0 ==> Swapi.ExtractIdFromUrl(path).Failure?
  {
    var path := "/planets/" + NumberToString(id) + "/";
    if id >= 0 then
      Swapi.ItemPathRoundTrip("/planets/", NumberToString(id));
      NumberToStringRoundTrip(id);
      path
    else
      Swapi.ExtractIdRejectsSignedSegment("/planets/", NumberToString(id));
      path
  }

  /** `fetchPlanets(page)` builds the same path as `getPlanets(page)`. */
  function FetchPlanets(page: Option<JsInt>): (path: string)
    ensures path == Swapi.GetPlanets(page)
  {
    "/planets/" + PageParams(page)
  }

  /** `searchPlanets(name)` builds the same path as the `searchPlanets` of the swapi module. */
  function SearchPlanets(name: string): (p: string)
    requires IsAscii(name)
    ensures p == Swapi.SearchPlanets(name)
  {
    "/planets/" + "?search=" + EncodeURIComponent(name)
  }

  /**
   * Two pages give the same path exactly when both are falsy (absent or `0`)
   * or both are the same non-zero number.
   */
  lemma FetchPlanetsPaging(p: Option<JsInt>, q: Option<JsInt>)
    ensures FetchPlanets(p) == "/planets/" <==> !Truthy(p)
    ensures FetchPlanets(p) == FetchPlanets(q) <==> if Truthy(p) then Truthy(q) && p.value == q.value else !Truthy(q)
  {
    if FetchPlanets(p) == FetchPlanets(q) {
      assert FetchPlanets(p)[9..] == PageParams(p);
      assert FetchPlanets(q)[9..] == PageParams(q);
    }
  }

  /** The extraction facts of `fetchPlanet` hold behind any base URL. */
  lemma FetchPlanetRoundTrip(base: string, id: JsInt)
    ensures id >= 0 ==> Swapi.ExtractIdFromUrl(base + FetchPlanet(id)) == Success(NumberToString(id))
    ensures id < 0 ==> Swapi.ExtractIdFromUrl(base + FetchPlanet(id)).Failure?
  {
    var head := base + "/planets/";
    var text := NumberToString(id);
    assert base + FetchPlanet(id) == head + text + "/" by {
      assert FetchPlanet(id) == "/planets/" + text + "/";
    }
    if id >= 0 {
      Swapi.ItemPathRoundTrip(head, text);
    } else {
      Swapi.ExtractIdRejectsSignedSegment(head, text);
    }
  }
}
