/**
 * The pure parts of the usage examples: the film-matching step of
 * `getPersonWithFilms` and the id-extraction examples of
 * `demonstrateUrlExtraction`. The requests and logging around them are not modelled.
 */
module ApiExamples {
  import opened Wrappers
  import opened SwapiTypes
  import Swapi

  /** `a` is `b` with some elements left out, order kept. */
  predicate IsSubsequence<T(==)>(a: seq<T>, b: seq<T>)
    decreases |b|
  {
    if b == [] then a == []
    else IsSubsequence(a, b[1..]) || (a != [] && a[0] == b[0] && IsSubsequence(a[1..], b[1..]))
  }

  /** No two films share a URL. */
  predicate DistinctUrls(films: seq<Film>) {
    forall i, j :: 0 <= i < j < |films| ==> films[i].url != films[j].url
  }

  /**
   * `films.filter(film => urls.has(film.url))`: every film with a listed URL
   * is kept as often as it occurs, every other film is dropped.
   */
  function FilterByUrls(films: seq<Film>, urls: set<string>): (r: seq<Film>)
    ensures |r| <= |films|
    ensures forall i :: 0 <= i < |r| ==> r[i].url in urls && r[i] in films
    ensures forall i :: 0 <= i < |films| && films[i].url in urls ==> films[i] in r
    ensures forall f :: multiset(r)[f] == if f.url in urls then multiset(films)[f] else 0
  {
    if films == [] then []
    else
      assert films == [films[0]] + films[1..];
      assert multiset(films) == multiset{films[0]} + multiset(films[1..]);
      if films[0].url in urls then [films[0]] + FilterByUrls(films[1..], urls)
      else FilterByUrls(films[1..], urls)
  }

  lemma {:induction false} FilterIsSubsequence(films: seq<Film>, urls: set<string>)
    ensures IsSubsequence(FilterByUrls(films, urls), films)
    decreases |films|
  {
    if films != [] {
      FilterIsSubsequence(films[1..], urls);
      var r := FilterByUrls(films, urls);
      if films[0].url in urls {
        assert r[0] == films[0] && r[1..] == FilterByUrls(films[1..], urls);
      }
    }
  }

  lemma {:induction false} FilterKeepsDistinctUrls(films: seq<Film>, urls: set<string>)
    requires DistinctUrls(films)
    ensures DistinctUrls(FilterByUrls(films, urls))
    decreases |films|
  {
    if films != [] {
      var rest := FilterByUrls(films[1..], urls);
      DistinctUrlsTail(films);
      FilterKeepsDistinctUrls(films[1..], urls);
      if films[0].url in urls {
        forall j | 0 <= j < |rest| ensures rest[j].url != films[0].url {
          NotHeadUrl(films, rest[j]);
        }
        DistinctUrlsCons(films[0], rest);
      }
    }
  }

  /** Dropping the head keeps URLs distinct. */
  lemma DistinctUrlsTail(films: seq<Film>)
    requires |films| > 0 && DistinctUrls(films)
    ensures DistinctUrls(films[1..])
  {
    forall i, j | 0 <= i < j < |films[1..]| ensures films[1..][i].url != films[1..][j].url {
      assert films[1..][i] == films[i + 1] && films[1..][j] == films[j + 1];
    }
  }

  /** A head whose URL the distinct tail lacks keeps URLs distinct. */
  lemma DistinctUrlsCons(head: Film, rest: seq<Film>)
    requires DistinctUrls(rest)
    requires forall j :: 0 <= j < |rest| ==> rest[j].url != head.url
    ensures DistinctUrls([head] + rest)
  {
    var r := [head] + rest;
    forall i, j | 0 <= i < j < |r| ensures r[i].url != r[j].url {
      assert r[j] == rest[j - 1];
      if i > 0 {
        assert r[i] == rest[i - 1];
      }
    }
  }

  /** In a list with distinct URLs, a film from the tail does not share the head's URL. */
  lemma NotHeadUrl(films: seq<Film>, f: Film)
    requires |films| > 0 && DistinctUrls(films)
    requires f in films[1..]
    ensures f.url != films[0].url
  {
    var k :| 0 <= k < |films[1..]| && films[1..][k] == f;
    assert films[k + 1] == f;
  }

  /** The films of `person` found in the fetched page. */
  function MatchPersonFilms(person: Person, allFilms: ApiResponse<Film>): (films: seq<Film>)
    ensures forall f :: f in films <==> f in allFilms.results && f.url in person.films
    ensures forall f :: multiset(films)[f] == if f.url in person.films then multiset(allFilms.results)[f] else 0
    ensures |films| <= |allFilms.results|
    ensures IsSubsequence(films, allFilms.results)
  {
    var urls := set u | u in person.films;
    FilterIsSubsequence(allFilms.results, urls);
    FilterByUrls(allFilms.results, urls)
  }

  /**
   * Only the set of referenced URLs matters: repeating a reference, or
   * listing references in another order, changes nothing.
   */
  lemma MatchDependsOnlyOnReferenceSet(p1: Person, p2: Person, allFilms: ApiResponse<Film>)
    requires forall u :: u in p1.films <==> u in p2.films
    ensures MatchPersonFilms(p1, allFilms) == MatchPersonFilms(p2, allFilms)
  {
    assert (set u | u in p1.films) == (set u | u in p2.films);
  }

  /** A page whose films have distinct URLs yields distinct matches, however often a URL is referenced. */
  lemma MatchHasNoDuplicates(person: Person, allFilms: ApiResponse<Film>)
    requires DistinctUrls(allFilms.results)
    ensures DistinctUrls(MatchPersonFilms(person, allFilms))
  {
    FilterKeepsDistinctUrls(allFilms.results, set u | u in person.films);
  }

  /** A reference missing from the page is dropped: no error, just no film. */
  lemma DanglingReferenceDropped(person: Person, allFilms: ApiResponse<Film>, u: string)
    requires u in person.films
    requires forall i :: 0 <= i < |allFilms.results| ==> allFilms.results[i].url != u
    ensures forall i :: 0 <= i < |MatchPersonFilms(person, allFilms)| ==> MatchPersonFilms(person, allFilms)[i].url != u
  {
  }

  /** The example person URL gives id `1`. */
  lemma PersonUrlExample()
    ensures Swapi.ExtractIdFromUrl("https://swapi.dev/api/people/1/") == Success("1")
  {
    assert "https://swapi.dev/api/people/1/" == "https://swapi.dev/api/people" + "/" + "1" + "/";
    Swapi.ExtractIdOfSegment("https://swapi.dev/api/people", "1");
  }

  /** The example film URL gives id `5`. */
  lemma FilmUrlExample()
    ensures Swapi.ExtractIdFromUrl("https://swapi.dev/api/films/5/") == Success("5")
  {
    assert "https://swapi.dev/api/films/5/" == "https://swapi.dev/api/films" + "/" + "5" + "/";
    Swapi.ExtractIdOfSegment("https://swapi.dev/api/films", "5");
  }

  /** The example planet URL gives id `42`. */
  lemma PlanetUrlExample()
    ensures Swapi.ExtractIdFromUrl("https://swapi.dev/api/planets/42/") == Success("42")
  {
    assert "https://swapi.dev/api/planets/42/" == "https://swapi.dev/api/planets" + "/" + "42" + "/";
    Swapi.ExtractIdOfSegment("https://swapi.dev/api/planets", "42");
  }
}
