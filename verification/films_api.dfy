/** Request paths of the films accessors (`fetchFilm`, `fetchFilms`, `searchFilms`). */
module FilmsApi {
  import opened Wrappers
  import opened Chars
  import opened JsNumber
  import opened UriComponent
  import opened QueryParams
  import Swapi

  /**
   * `fetchFilm(id)`: the id is a number written with `${id}`, which gives the
   * path `getFilm` builds from its decimal text. A non-negative id comes back
   * by extraction as that text, which reads back as the id; a negative id
   * gives a path from which no id can be extracted.
   */
  function FetchFilm(id: JsInt): (path: string)
    ensures path == Swapi.GetFilm(NumberToString(id))
    ensures id >= 0 ==> Swapi.ExtractIdFromUrl(path) == Success(NumberToString(id))
    ensures id >= 0 ==> ParseInteger(Swapi.ExtractIdFromUrl(path).value) == Some(id as int)
    ensures id < 0 ==> Swapi.ExtractIdFromUrl(path).Failure?
  {
    var path := "/films/" + NumberToString(id) + "/";
    if id >= 0 then
      Swapi.ItemPathRoundTrip("/films/", NumberToString(id));
      NumberToStringRoundTrip(id);
      path
    else
      Swapi.ExtractIdRejectsSignedSegment("/films/", NumberToString(id));
      path
  }

  /**
   * `fetchFilms(page)`: unlike `getFilms`, it sends a page parameter, and so
   * agrees with `getFilms` exactly when the page is falsy (absent or `0`);
   * a truthy page reads back from the query.
   */
  function FetchFilms(page: Option<JsInt>): (path: string)
    ensures path == Swapi.GetFilms() <==> !Truthy(page)
    ensures |path| >= 7 && path[..7] == "/films/"
    ensures ReadPageParams(path[7..]) == if Truthy(page) then Some(page.value as int) else None
    ensures Truthy(page) ==> path[7..] == "?page=" + NumberToString(page.value)
  {
    var path := "/films/" + PageParams(page);
    assert path[7..] == PageParams(page);
    path
  }

  /** `searchFilms(title)` builds the same path as the `searchFilms` of the swapi module. */
  function SearchFilms(title: string): (p: string)
    requires IsAscii(title)
    ensures p == Swapi.SearchFilms(title)
  {
    "/films/" + "?search=" + EncodeURIComponent(title)
  }

  /**
   * Two pages give the same path exactly when both are falsy (absent or `0`)
   * or both are the same non-zero number.
   */
  lemma FetchFilmsPaging(p: Option<JsInt>, q: Option<JsInt>)
    ensures FetchFilms(p) == "/films/" <==> !Truthy(p)
    ensures FetchFilms(p) == FetchFilms(q) <==> if Truthy(p) then Truthy(q) && p.value == q.value else !Truthy(q)
  {
    if FetchFilms(p) == FetchFilms(q) {
      assert FetchFilms(p)[7..] == PageParams(p);
      assert FetchFilms(q)[7..] == PageParams(q);
    }
  }

  /** The extraction facts of `fetchFilm` hold behind any base URL. */
  lemma FetchFilmRoundTrip(base: string, id: JsInt)
    ensures id >= 0 ==> Swapi.ExtractIdFromUrl(base + FetchFilm(id)) == Success(NumberToString(id))
    ensures id < 0 ==> Swapi.ExtractIdFromUrl(base + FetchFilm(id)).Failure?
  {
    var head := base + "/films/";
    var text := NumberToString(id);
    assert base + FetchFilm(id) == head + text + "/" by {
      assert FetchFilm(id) == "/films/" + text + "/";
    }
    if id >= 0 {
      Swapi.ItemPathRoundTrip(head, text);
    } else {
      Swapi.ExtractIdRejectsSignedSegment(head, text);
    }
  }
}
