/** The person hooks (`usePerson` and `usePeopleSearch`) as query descriptors. */
module PersonHooks {
  import opened Wrappers
  import opened Chars
  import opened JsNumber
  import opened QueryKeys
  import PeopleApi
  import Swapi
  import UriComponent

  /** `usePerson(id)`: key `["person", id]`, enabled only for a non-null id. */
  function UsePerson(id: Option<JsInt>): (q: Query)
    ensures q.Enabled() <==> id.Some?
    ensures q.Enabled() ==> q.request == Some(PeopleApi.FetchPerson(id.value))
    ensures |q.key| == 2 && q.key[0] == Text("person") && q.key[1] == NumberPart(id)
  {
    Query([Text("person"), NumberPart(id)], if id.Some? then Some(PeopleApi.FetchPerson(id.value)) else None)
  }

  /** `usePeopleSearch(name)`: key `["people", "search", name]`, enabled for any non-empty term. */
  function UsePeopleSearch(name: string): (q: Query)
    requires IsAscii(name)
    ensures q.Enabled() <==> |name| > 0
    ensures q.Enabled() ==> q.request == Some(PeopleApi.SearchPeople(name))
    ensures |q.key| == 3 && q.key[0] == Text("people") && q.key[1] == Text("search")
      && q.key[2] == Text(name)
  {
    Query([Text("people"), Text("search"), Text(name)], if |name| > 0 then Some(PeopleApi.SearchPeople(name)) else None)
  }

  /** Distinct ids have distinct cache entries. */
  lemma PersonKeyInjective(a: Option<JsInt>, b: Option<JsInt>)
    ensures UsePerson(a).key == UsePerson(b).key <==> a == b
  {
  }

  /** Distinct terms have distinct cache entries. */
  lemma PeopleSearchKeyInjective(a: string, b: string)
    requires IsAscii(a) && IsAscii(b)
    ensures UsePeopleSearch(a).key == UsePeopleSearch(b).key <==> a == b
  {
  }

  /**
   * The gate only tests the length: a blank term such as `" "` is sent,
   * percent-encoded, while the empty term is not.
   */
  lemma PeopleSearchGate()
    ensures !UsePeopleSearch("").Enabled()
    ensures UsePeopleSearch(" ").request == Some("/people/?search=%20")
  {
    UriComponent.EncodeSpace();
    assert "/people/" + "?search=" + "%20" == "/people/?search=%20";
  }

  /** The id inside an enabled by-id request comes back out of the URL the service would return for it. */
  lemma PersonRequestRoundTrip(base: string, id: JsInt)
    requires id >= 0
    ensures UsePerson(Some(id)).request.Some?
    ensures Swapi.ExtractIdFromUrl(base + UsePerson(Some(id)).request.value) == Success(NumberToString(id))
  {
    PeopleApi.FetchPersonRoundTrip(base, id);
  }

  /** A by-id key never equals a search key: the first element differs. */
  lemma PersonKeyFamiliesDisjoint(id: Option<JsInt>, name: string)
    requires IsAscii(name)
    ensures UsePerson(id).key != UsePeopleSearch(name).key
  {
  }
}
