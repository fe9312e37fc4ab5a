/** The film hooks (`useFilm`, `useFilms` and `useFilmsSearch`) as query descriptors. */
module FilmHooks {
  import opened Wrappers
  import opened Chars
  import opened JsNumber
  import opened QueryKeys
  import FilmsApi
  import Swapi
  import UriComponent

  /** `useFilm(id)`: key `["film", id]`, enabled only for a non-null id. */
  function UseFilm(id: Option<JsInt>): (q: Query)
    ensures q.Enabled() <==> id.Some?
    ensures q.Enabled() ==> q.request == Some(FilmsApi.FetchFilm(id.value))
    ensures |q.key| == 2 && q.key[0] == Text("film") && q.key[1] == NumberPart(id)
  {
    Query([Text("film"), NumberPart(id)], if id.Some? then Some(FilmsApi.FetchFilm(id.value)) else None)
  }

  /** `useFilms(page)`: key `["films", page]`; no `enabled` option, so it always runs. */
  function UseFilms(page: Option<JsInt>): (q: Query)
    ensures q.Enabled()
    ensures q.request == Some(FilmsApi.FetchFilms(page))
    ensures |q.key| == 2 && q.key[0] == Text("films") && q.key[1] == NumberPart(page)
  {
    Query([Text("films"), NumberPart(page)], Some(FilmsApi.FetchFilms(page)))
  }

  /** `useFilmsSearch(title)`: key `["films", "search", title]`, enabled for any non-empty term. */
  function UseFilmsSearch(title: string): (q: Query)
    requires IsAscii(title)
    ensures q.Enabled() <==> |title| > 0
    ensures q.Enabled() ==> q.request == Some(FilmsApi.SearchFilms(title))
    ensures |q.key| == 3 && q.key[0] == Text("films") && q.key[1] == Text("search")
      && q.key[2] == Text(title)
  {
    Query([Text("films"), Text("search"), Text(title)], if |title| > 0 then Some(FilmsApi.SearchFilms(title)) else None)
  }

  /** Distinct ids have distinct cache entries. */
  lemma FilmKeyInjective(a: Option<JsInt>, b: Option<JsInt>)
    ensures UseFilm(a).key == UseFilm(b).key <==> a == b
  {
  }

  /** Distinct terms have distinct cache entries. */
  lemma FilmsSearchKeyInjective(a: string, b: string)
    requires IsAscii(a) && IsAscii(b)
    ensures UseFilmsSearch(a).key == UseFilmsSearch(b).key <==> a == b
  {
  }

  /**
   * The gate only tests the length: a blank term such as `" "` is sent,
   * percent-encoded, while the empty term is not.
   */
  lemma FilmsSearchGate()
    ensures !UseFilmsSearch("").Enabled()
    ensures UseFilmsSearch(" ").request == Some("/films/?search=%20")
  {
    UriComponent.EncodeSpace();
    assert "/films/" + "?search=" + "%20" == "/films/?search=%20";
  }

  /** The id inside an enabled by-id request comes back out of the URL the service would return for it. */
  lemma FilmRequestRoundTrip(base: string, id: JsInt)
    requires id >= 0
    ensures UseFilm(Some(id)).request.Some?
    ensures Swapi.ExtractIdFromUrl(base + UseFilm(Some(id)).request.value) == Success(NumberToString(id))
  {
    FilmsApi.FetchFilmRoundTrip(base, id);
  }

  /**
   * The three key families never meet: `"film"` differs from `"films"`, and
   * listing keys have two parts where search keys have three.
   */
  lemma FilmKeyFamiliesDisjoint(id: Option<JsInt>, page: Option<JsInt>, title: string)
    requires IsAscii(title)
    ensures UseFilm(id).key != UseFilms(page).key
    ensures UseFilm(id).key != UseFilmsSearch(title).key
    ensures UseFilms(page).key != UseFilmsSearch(title).key
  {
  }

  /** Page `0` and no page are separate cache entries that fetch the same path. */
  lemma FilmsZeroPageAlias()
    ensures UseFilms(Some(0)).key != UseFilms(None).key
    ensures UseFilms(Some(0)).request == UseFilms(None).request == Some("/films/")
  {
    assert UseFilms(Some(0)).key[1] != UseFilms(None).key[1];
    FilmsApi.FetchFilmsPaging(None, Some(0));
  }

  /** Listing keys identify the page exactly, though page `0` and no page share a path. */
  lemma FilmsKeyInjective(a: Option<JsInt>, b: Option<JsInt>)
    ensures UseFilms(a).key == UseFilms(b).key <==> a == b
  {
  }
}
