/** The planet hooks (`usePlanet`, `usePlanets` and `usePlanetsSearch`) as query descriptors. */
module PlanetHooks {
  import opened Wrappers
  import opened Chars
  import opened JsNumber
  import opened QueryKeys
  import PlanetsApi
  import Swapi
  import UriComponent

  /** `usePlanet(id)`: key `["planet", id]`, enabled only for a non-null id. */
  function UsePlanet(id: Option<JsInt>): (q: Query)
    ensures q.Enabled() <==> id.Some?
    ensures q.Enabled() ==> q.request == Some(PlanetsApi.FetchPlanet(id.value))
    ensures |q.key| == 2 && q.key[0] == Text("planet") && q.key[1] == NumberPart(id)
  {
    Query([Text("planet"), NumberPart(id)], if id.Some? then Some(PlanetsApi.FetchPlanet(id.value)) else None)
  }

  /** `usePlanets(page)`: key `["planets", page]`; no `enabled` option, so it always runs. */
  function UsePlanets(page: Option<JsInt>): (q: Query)
    ensures q.Enabled()
    ensures q.request == Some(PlanetsApi.FetchPlanets(page))
    ensures |q.key| == 2 && q.key[0] == Text("planets") && q.key[1] == NumberPart(page)
  {
    Query([Text("planets"), NumberPart(page)], Some(PlanetsApi.FetchPlanets(page)))
  }

  /** `usePlanetsSearch(name)`: key `["planets", "search", name]`, enabled for any non-empty term. */
  function UsePlanetsSearch(name: string): (q: Query)
    requires IsAscii(name)
    ensures q.Enabled() <==> |name| > 0
    ensures q.Enabled() ==> q.request == Some(PlanetsApi.SearchPlanets(name))
    ensures |q.key| == 3 && q.key[0] == Text("planets") && q.key[1] == Text("search")
      && q.key[2] == Text(name)
  {
    Query([Text("planets"), Text("search"), Text(name)], if |name| > 0 then Some(PlanetsApi.SearchPlanets(name)) else None)
  }

  /** Distinct ids have distinct cache entries. */
  lemma PlanetKeyInjective(a: Option<JsInt>, b: Option<JsInt>)
    ensures UsePlanet(a).key == UsePlanet(b).key <==> a == b
  {
  }

  /** Distinct terms have distinct cache entries. */
  lemma PlanetsSearchKeyInjective(a: string, b: string)
    requires IsAscii(a) && IsAscii(b)
    ensures UsePlanetsSearch(a).key == UsePlanetsSearch(b).key <==> a == b
  {
  }

  /**
   * The gate only tests the length: a blank term such as `" "` is sent,
   * percent-encoded, while the empty term is not.
   */
  lemma PlanetsSearchGate()
    ensures !UsePlanetsSearch("").Enabled()
    ensures UsePlanetsSearch(" ").request == Some("/planets/?search=%20")
  {
    UriComponent.EncodeSpace();
    assert "/planets/" + "?search=" + "%20" == "/planets/?search=%20";
  }

  /** The id inside an enabled by-id request comes back out of the URL the service would return for it. */
  lemma PlanetRequestRoundTrip(base: string, id: JsInt)
    requires id >= 0
    ensures UsePlanet(Some(id)).request.Some?
    ensures Swapi.ExtractIdFromUrl(base + UsePlanet(Some(id)).request.value) == Success(NumberToString(id))
  {
    PlanetsApi.FetchPlanetRoundTrip(base, id);
  }

  /**
   * The three key families never meet: `"planet"` differs from `"planets"`, and
   * listing keys have two parts where search keys have three.
   */
  lemma PlanetKeyFamiliesDisjoint(id: Option<JsInt>, page: Option<JsInt>, name: string)
    requires IsAscii(name)
    ensures UsePlanet(id).key != UsePlanets(page).key
    ensures UsePlanet(id).key != UsePlanetsSearch(name).key
    ensures UsePlanets(page).key != UsePlanetsSearch(name).key
  {
  }

  /** Page `0` and no page are separate cache entries that fetch the same path. */
  lemma PlanetsZeroPageAlias()
    ensures UsePlanets(Some(0)).key != UsePlanets(None).key
    ensures UsePlanets(Some(0)).request == UsePlanets(None).request == Some("/planets/")
  {
    assert UsePlanets(Some(0)).key[1] != UsePlanets(None).key[1];
    PlanetsApi.FetchPlanetsPaging(None, Some(0));
  }

  /** Listing keys identify the page exactly, though page `0` and no page share a path. */
  lemma PlanetsKeyInjective(a: Option<JsInt>, b: Option<JsInt>)
    ensures UsePlanets(a).key == UsePlanets(b).key <==> a == b
  {
  }
}
