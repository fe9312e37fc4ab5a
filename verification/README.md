# SWAPI client core in Dafny

A model of the logic of a small browser client for the Star Wars API (SWAPI):
the codec that pulls a resource id out of a resource URL, the request paths
built by the two parallel API modules (`swapi.ts` with `getX`/`searchX`, and
`fetchPeople.ts`, `fetchFilms.ts`, `fetchPlanets.ts` with `fetchX`/`searchX`),
the error normaliser `handleApiError`, the query descriptors built by the data
hooks (cache key, `enabled` gate, request path), and the film-matching step of
the `getPersonWithFilms` example.

Everything is a pure function over immutable datatypes. The JavaScript details
that shape the results are written out:

- `page ? `?page=${page}` : ''` treats an absent page and page `0` alike (`QueryParams.Truthy`).
- `${n}` on an integral number is `JsNumber.NumberToString`, with a leading `-` for negatives.
  Numbers (pages, ids, HTTP statuses) are the safe integers (`JsNumber.JsInt`, |n| ≤ 2^53 − 1), where `${n}` prints every digit.
- `encodeURIComponent` on ASCII text is `UriComponent.EncodeURIComponent`. It follows section 19.2.6
  of ECMA-262: letters, digits and `- _ . ! ~ * ' ( )` pass through; every other character becomes an
  upper-case `%XX` triplet, as in section 2.1 of RFC 3986.
- `a || b` on optional string fields skips both `undefined` and `""` (`Client.OrElse`).
- The regular expression `/\/(\d+)\/$/` is `Swapi.ExtractIdFromUrl`, specified by `Swapi.EndsWithId`.

Each builder has a partner it is proved against:

- `JsNumber.ParseInteger` reads a number back from its text.
- `UriComponent.DecodeURIComponent` reads an encoded term back.
- `QueryParams.ReadPageParams` and `QueryParams.ReadSearchParams` read the query parameters back.
- `Swapi.ExtractIdFromUrl` reads an id back out of a by-id path.
- The two API modules are proved to agree with each other: each `fetchX` path is the `getX` path, except that `fetchFilms` sends a page parameter that `getFilms` lacks.

`handleApiError` has no timeout branch. An axios timeout carries a request and no
response, so it gets the no-response text (src/api/client.ts:35-38).

Modules, one per source file or shared concept:

| file | module | models |
|---|---|---|
| wrappers.dfy | Wrappers | `Option`, `Result` |
| chars.dfy | Chars | digit and hex-digit classes |
| js_number.dfy | JsNumber | integral numbers and `${n}` |
| uri_component.dfy | UriComponent | `encodeURIComponent` on ASCII |
| query_params.dfy | QueryParams | the `?page=` and `?search=` query parts |
| swapi_types.dfy | SwapiTypes | records, page envelope, error body (src/types/swapi.ts) |
| swapi.dfy | Swapi | src/api/swapi.ts |
| swapi_examples.dfy | SwapiExamples | the documented `extractIdFromUrl` examples |
| client.dfy | Client | `handleApiError` in src/api/client.ts |
| people_api.dfy, films_api.dfy, planets_api.dfy | PeopleApi, FilmsApi, PlanetsApi | src/api/fetch{People,Films,Planets}.ts |
| query_keys.dfy | QueryKeys | key parts and the query descriptor |
| person_hooks.dfy, film_hooks.dfy, planet_hooks.dfy | PersonHooks, FilmHooks, PlanetHooks | src/hooks/use{Person,Film,Planet}.ts |
| api_examples.dfy | ApiExamples | the pure steps of docs/API_EXAMPLES.ts |

## Model

| member | source | states |
|---|---|---|
| JsNumber.NatToDecimal | src/api/fetchPeople.ts:14 | the decimal text of a natural number is non-empty, all digits, and starts with `0` only for zero |
| JsNumber.NumberToString | src/api/fetchPeople.ts:14 | `${n}` is non-empty, is all digits exactly when n ≥ 0, and is `-` then digits when n < 0; it has no leading zero (only `0` itself starts with `0`), so with the read-back it is the one canonical decimal text of n |
| JsNumber.ParseNatToDecimal | src/api/fetchPeople.ts:14 | reading the decimal text of n gives n back |
| JsNumber.NumberToStringRoundTrip | src/api/swapi.ts:47 | `${n}` reads back as n for every integer, negatives included |
| JsNumber.NumberToStringInjective | src/api/swapi.ts:47 | distinct numbers have distinct texts |
| UriComponent.EncodeChar | src/api/swapi.ts:156 | an unreserved character stays itself; any other ASCII character becomes `%` and two upper-case hex digits whose value is the character code |
| UriComponent.EncodeURIComponent | src/api/swapi.ts:156 | the encoded term consists only of unreserved characters and `%`, and is no shorter than the input |
| UriComponent.EncodeAppend | src/api/swapi.ts:156 | encoding a concatenation concatenates the encodings, so the output is the per-character encodings in order |
| UriComponent.EncodeSingle | src/api/swapi.ts:156 | a one-character term encodes exactly as that character does |
| UriComponent.DecodeEncode | src/api/swapi.ts:156 | decoding the encoded term gives the term back |
| UriComponent.EncodeInjective | src/api/fetchPeople.ts:33 | distinct terms encode to distinct text |
| UriComponent.EncodedHasNoDelimiters | src/api/fetchPeople.ts:33 | an encoded term contains no `&`, `=`, `?`, `#`, `/` or space |
| UriComponent.EncodeIdentityIff | src/api/fetchFilms.ts:33 | a term is sent unchanged exactly when all its characters are unreserved |
| UriComponent.EncodeSpace | src/api/fetchPlanets.ts:33 | a space is sent as `%20` |
| QueryParams.PageParams | src/api/swapi.ts:47 | no page parameter is sent exactly when the page is absent or 0; any other page gives `?page=` followed by its canonical decimal text `${page}`, which reads back as the page |
| QueryParams.SearchParamsRoundTrip | src/api/fetchPeople.ts:33 | a `?search=` parameter reads back as the term it was built from |
| QueryParams.SearchPathShape | src/api/swapi.ts:155-157 | a search path is the collection path followed by `?search=` and the encoded term; it has exactly one `?`, right after the collection path, no `&` or `#`, and its parameter reads back as the term |
| Swapi.TrailingDigitCount | src/api/swapi.ts:25 | the count is the length of the maximal digit run at the end of the text |
| Swapi.ExtractIdFromUrl | src/api/swapi.ts:24-30 | a success is a non-empty digit run d with the URL ending in `/d/`; a failure carries `Invalid SWAPI URL format: <url>` |
| Swapi.ExtractIdFromUrlIff | src/api/swapi.ts:24-29 | extraction returns d exactly when the URL ends in `/d/` with d a non-empty digit run |
| Swapi.ExtractIdFailsIff | src/api/swapi.ts:25-27 | extraction fails with the fixed message exactly when the URL ends in no `/<digits>/` |
| Swapi.ExtractIdOfSegment | src/api/swapi.ts:24-29 | for any prefix, `prefix/d/` with d digits yields d verbatim |
| Swapi.ExtractIdRejectsNonDigitSegment | src/api/swapi.ts:25-27 | a last segment with a non-digit in it (`/x/`, `/-5/`) is rejected |
| Swapi.ExtractIdRejectsSignedSegment | src/api/swapi.ts:25-27 | a last segment `-` followed by digits, the text `${n}` gives for n < 0, is rejected |
| Swapi.ExtractIdRejectsEmptySegment | src/api/swapi.ts:25-27 | an empty last segment (`//` at the end) is rejected |
| Swapi.ExtractIdRejectsMissingSlash | src/api/swapi.ts:25-27 | a URL without the trailing slash (`.../people/5`) is rejected with the fixed message |
| SwapiExamples.ExtractIdExamples | src/api/swapi.ts:17-22 | the documented examples give `5` and `1` |
| SwapiExamples.ExtractIdKeepsLeadingZeros | src/api/swapi.ts:24-29 | the id is returned as text: `.../people/007/` gives `007` |
| SwapiExamples.ExtractIdRejectsWordExample | src/api/swapi.ts:24-27 | `/api/x/`, whose last segment is not numeric, is rejected |
| SwapiExamples.ExtractIdRejectsSignedExample | src/api/swapi.ts:24-27 | `/people/-5/` is rejected: the pattern allows no sign |
| SwapiExamples.ExtractIdMissingSlashExample | src/api/swapi.ts:24-27 | `.../people/5` without the trailing slash is rejected with the fixed message |
| Swapi.GetPeople | src/api/swapi.ts:46-48 | `getPeople` gives `/people/` exactly when the page is absent or 0, and otherwise `/people/?page=` followed by `${page}`, which reads back as the page |
| Swapi.GetPerson | src/api/swapi.ts:65-67 | the path is `/people/`, the id verbatim, then `/`; the id comes back out of the path by extraction exactly when it is a non-empty digit run |
| Swapi.GetFilms | src/api/swapi.ts:82-84 | `getFilms` sends no page parameter, and no id can be extracted from its path |
| Swapi.GetFilm | src/api/swapi.ts:100-102 | the path is `/films/`, the id verbatim, then `/`; the id comes back out of the path by extraction exactly when it is a non-empty digit run |
| Swapi.GetPlanets | src/api/swapi.ts:118-120 | `getPlanets` gives `/planets/` exactly when the page is absent or 0, and otherwise `/planets/?page=` followed by `${page}`, which reads back as the page |
| Swapi.GetPlanet | src/api/swapi.ts:137-139 | the path is `/planets/`, the id verbatim, then `/`; the id comes back out of the path by extraction exactly when it is a non-empty digit run |
| Swapi.SearchPeople | src/api/swapi.ts:155-157 | the parameter is `?search=` followed by `encodeURIComponent(query)`; the people search path has one `?`, right after `/people/`, no `&` or `#`, and its parameter reads back as the query |
| Swapi.SearchFilms | src/api/swapi.ts:173-175 | the parameter is `?search=` followed by `encodeURIComponent(query)`; the films search path has one `?`, right after `/films/`, no `&` or `#`, and its parameter reads back as the query |
| Swapi.SearchPlanets | src/api/swapi.ts:191-193 | the parameter is `?search=` followed by `encodeURIComponent(query)`; the planets search path has one `?`, right after `/planets/`, no `&` or `#`, and its parameter reads back as the query |
| Swapi.ItemPathRoundTrip | src/api/swapi.ts:24-29 | for a base ending in `/`, extraction from `base + id + "/"` gives id exactly when id is a digit run |
| Swapi.GetPersonRoundTrip | src/api/swapi.ts:65-67 | extraction inverts `getPerson` behind any base, exactly for non-empty digit ids |
| Swapi.GetFilmRoundTrip | src/api/swapi.ts:100-102 | extraction inverts `getFilm` behind any base, exactly for non-empty digit ids |
| Swapi.GetPlanetRoundTrip | src/api/swapi.ts:137-139 | extraction inverts `getPlanet` behind any base, exactly for non-empty digit ids |
| PeopleApi.FetchPerson | src/api/fetchPeople.ts:13-15 | `fetchPerson(id)` is `getPerson` of the decimal text of id; for id ≥ 0 extraction gives that text, which reads back as id; for id < 0 extraction fails |
| PeopleApi.FetchPeople | src/api/fetchPeople.ts:22-24 | `fetchPeople(page)` builds the same path as `getPeople(page)` of swapi.ts |
| PeopleApi.SearchPeople | src/api/fetchPeople.ts:32-34 | `searchPeople(name)` builds the same path as `searchPeople` of swapi.ts |
| PeopleApi.FetchPeoplePaging | src/api/fetchPeople.ts:22-24 | `fetchPeople()` and `fetchPeople(0)` both give `/people/`; two pages give one path exactly when both are falsy or both are the same number |
| PeopleApi.FetchPersonRoundTrip | src/api/fetchPeople.ts:13-15 | behind any base URL, extraction from the path gives `${id}` for id ≥ 0 and fails for id < 0 |
| FilmsApi.FetchFilm | src/api/fetchFilms.ts:13-15 | `fetchFilm(id)` is `getFilm` of the decimal text of id; for id ≥ 0 extraction gives that text, which reads back as id; for id < 0 extraction fails |
| FilmsApi.FetchFilms | src/api/fetchFilms.ts:22-24 | `fetchFilms(page)` equals `getFilms()` exactly when the page is absent or 0; otherwise it is `/films/?page=` followed by `${page}`, which reads back as the page |
| FilmsApi.SearchFilms | src/api/fetchFilms.ts:32-34 | `searchFilms(title)` builds the same path as `searchFilms` of swapi.ts |
| FilmsApi.FetchFilmsPaging | src/api/fetchFilms.ts:22-24 | `fetchFilms()` and `fetchFilms(0)` both give `/films/`; two pages give one path exactly when both are falsy or both are the same number |
| FilmsApi.FetchFilmRoundTrip | src/api/fetchFilms.ts:13-15 | behind any base URL, extraction from the path gives `${id}` for id ≥ 0 and fails for id < 0 |
| PlanetsApi.FetchPlanet | src/api/fetchPlanets.ts:13-15 | `fetchPlanet(id)` is `getPlanet` of the decimal text of id; for id ≥ 0 extraction gives that text, which reads back as id; for id < 0 extraction fails |
| PlanetsApi.FetchPlanets | src/api/fetchPlanets.ts:22-24 | `fetchPlanets(page)` builds the same path as `getPlanets(page)` of swapi.ts |
| PlanetsApi.SearchPlanets | src/api/fetchPlanets.ts:32-34 | `searchPlanets(name)` builds the same path as `searchPlanets` of swapi.ts |
| PlanetsApi.FetchPlanetsPaging | src/api/fetchPlanets.ts:22-24 | `fetchPlanets()` and `fetchPlanets(0)` both give `/planets/`; two pages give one path exactly when both are falsy or both are the same number |
| PlanetsApi.FetchPlanetRoundTrip | src/api/fetchPlanets.ts:13-15 | behind any base URL, extraction from the path gives `${id}` for id ≥ 0 and fails for id < 0 |
| Client.HandleApiError | src/api/client.ts:29-41 | the message is never empty; with a response it is the non-empty detail, else the non-empty message, else `API Error: ` plus text that reads back as the status; a sent request without a response gives the no-response text; anything else gives the generic text |
| Client.MessageOrigins | src/api/client.ts:29-41 | every message is the detail, the message, the status text or one of the two fixed texts; there is no timeout text |
| Client.ResponseTakesPriority | src/api/client.ts:31-37 | with a response the request flag is irrelevant, and the no-response text appears only if the server sent it |
| Client.BodyStatusIgnored | src/api/client.ts:33-34 | the body's own `status` field never changes the message |
| Client.StatusMessageIdentifiesStatus | src/api/client.ts:34 | with an empty body, distinct statuses give distinct messages |
| QueryKeys.NumberPart | src/hooks/usePerson.ts:17 | a number becomes a number key part; only an absent value becomes the absent part |
| PersonHooks.UsePerson | src/hooks/usePerson.ts:15-21 | the query runs exactly for a non-null id, requests `fetchPerson(id)`, and is keyed `["person", id]` |
| PersonHooks.UsePeopleSearch | src/hooks/usePerson.ts:28-34 | the query runs exactly for a non-empty name, requests `searchPeople(name)`, and is keyed `["people", "search", name]` |
| PersonHooks.PersonKeyInjective | src/hooks/usePerson.ts:17 | two person keys are equal exactly when the ids are |
| PersonHooks.PeopleSearchKeyInjective | src/hooks/usePerson.ts:30 | two search keys are equal exactly when the names are |
| PersonHooks.PeopleSearchGate | src/hooks/usePerson.ts:32 | the empty name is gated off; a blank name `" "` is sent as `%20` |
| PersonHooks.PersonRequestRoundTrip | src/hooks/usePerson.ts:18 | the id comes back out of the requested path by extraction |
| PersonHooks.PersonKeyFamiliesDisjoint | src/hooks/usePerson.ts:17-30 | a person key never equals a people-search key |
| FilmHooks.UseFilm | src/hooks/useFilm.ts:15-21 | the query runs exactly for a non-null id, requests `fetchFilm(id)`, and is keyed `["film", id]` |
| FilmHooks.UseFilms | src/hooks/useFilm.ts:28-33 | the query always runs, requests `fetchFilms(page)`, and is keyed `["films", page]` |
| FilmHooks.UseFilmsSearch | src/hooks/useFilm.ts:40-46 | the query runs exactly for a non-empty title, requests `searchFilms(title)`, and is keyed `["films", "search", title]` |
| FilmHooks.FilmKeyInjective | src/hooks/useFilm.ts:17 | two film keys are equal exactly when the ids are |
| FilmHooks.FilmsSearchKeyInjective | src/hooks/useFilm.ts:42 | two search keys are equal exactly when the titles are |
| FilmHooks.FilmsSearchGate | src/hooks/useFilm.ts:44 | the empty title is gated off; a blank title `" "` is sent as `%20` |
| FilmHooks.FilmRequestRoundTrip | src/hooks/useFilm.ts:18 | the id comes back out of the requested path by extraction |
| FilmHooks.FilmKeyFamiliesDisjoint | src/hooks/useFilm.ts:17-42 | film, films-listing and films-search keys never collide |
| FilmHooks.FilmsZeroPageAlias | src/hooks/useFilm.ts:30-31 | `useFilms(0)` and `useFilms()` have distinct keys but both request `/films/` |
| FilmHooks.FilmsKeyInjective | src/hooks/useFilm.ts:30 | two listing keys are equal exactly when the pages are |
| PlanetHooks.UsePlanet | src/hooks/usePlanet.ts:15-21 | the query runs exactly for a non-null id, requests `fetchPlanet(id)`, and is keyed `["planet", id]` |
| PlanetHooks.UsePlanets | src/hooks/usePlanet.ts:28-33 | the query always runs, requests `fetchPlanets(page)`, and is keyed `["planets", page]` |
| PlanetHooks.UsePlanetsSearch | src/hooks/usePlanet.ts:40-46 | the query runs exactly for a non-empty name, requests `searchPlanets(name)`, and is keyed `["planets", "search", name]` |
| PlanetHooks.PlanetKeyInjective | src/hooks/usePlanet.ts:17 | two planet keys are equal exactly when the ids are |
| PlanetHooks.PlanetsSearchKeyInjective | src/hooks/usePlanet.ts:42 | two search keys are equal exactly when the names are |
| PlanetHooks.PlanetsSearchGate | src/hooks/usePlanet.ts:44 | the empty name is gated off; a blank name `" "` is sent as `%20` |
| PlanetHooks.PlanetRequestRoundTrip | src/hooks/usePlanet.ts:18 | the id comes back out of the requested path by extraction |
| PlanetHooks.PlanetKeyFamiliesDisjoint | src/hooks/usePlanet.ts:17-42 | planet, planets-listing and planets-search keys never collide |
| PlanetHooks.PlanetsZeroPageAlias | src/hooks/usePlanet.ts:30-31 | `usePlanets(0)` and `usePlanets()` have distinct keys but both request `/planets/` |
| PlanetHooks.PlanetsKeyInjective | src/hooks/usePlanet.ts:30 | two listing keys are equal exactly when the pages are |
| ApiExamples.FilterByUrls | docs/API_EXAMPLES.ts:233 | the result is no longer than the page; every kept film has a listed URL and comes from the page; every page film with a listed URL is kept; each film occurs in the result exactly as often as in the page if its URL is listed, and not at all otherwise |
| ApiExamples.FilterIsSubsequence | docs/API_EXAMPLES.ts:233 | the kept films appear in page order: the result is a subsequence of the page |
| ApiExamples.FilterKeepsDistinctUrls | docs/API_EXAMPLES.ts:233 | filtering a page with distinct URLs gives films with distinct URLs |
| ApiExamples.MatchPersonFilms | docs/API_EXAMPLES.ts:232-233 | a film is matched exactly when it is in the page and its URL is in `person.films`; each matched film occurs as often as in the page; the result is an order-keeping subsequence of the page, no longer than it |
| ApiExamples.MatchDependsOnlyOnReferenceSet | docs/API_EXAMPLES.ts:232 | repeated or reordered references in `person.films` do not change the result |
| ApiExamples.MatchHasNoDuplicates | docs/API_EXAMPLES.ts:232-233 | duplicate references produce no duplicate films when the page's URLs are distinct |
| ApiExamples.DanglingReferenceDropped | docs/API_EXAMPLES.ts:233 | a reference with no film in the page yields no film and no error |
| ApiExamples.PersonUrlExample | docs/API_EXAMPLES.ts:196-205 | `https://swapi.dev/api/people/1/` gives `1` |
| ApiExamples.FilmUrlExample | docs/API_EXAMPLES.ts:196-205 | `https://swapi.dev/api/films/5/` gives `5` |
| ApiExamples.PlanetUrlExample | docs/API_EXAMPLES.ts:196-205 | `https://swapi.dev/api/planets/42/` gives `42` |

## Left out

- HTTP transport: `swapiClient`, `request` and `requestPaginated` (src/api/client.ts:19-22, 48-61) perform network I/O. Each path function returns the path it would request; the response is not modelled.
- The start-up check of the base-URL environment variable (src/api/client.ts:10-14) is configuration.
- The query library's behaviour (staleness, gc time, single retry, what `enabled` does at run time) is not shown in the source. Only the descriptor each hook builds is modelled.
- `usePeople`, re-exported by src/hooks/index.ts:6, is not defined in src/hooks/usePerson.ts; there is nothing to model. Infinite pagination and next-URL cursor parsing have no code in the source either.
- A timeout error category: `handleApiError` has no timeout branch, so there is none to model (see above).
- All UI: cards, pages, router, navigation, loading and error components, docs/COMPONENT_EXAMPLES.tsx.
- The asynchronous calls, logging and `null` on error in docs/API_EXAMPLES.ts. Only the film filter and the extraction examples are modelled.
- Records keep a name or title, their self URL and these reference lists: `homeworld` and `films` of a person, `characters` and `planets` of a film, `residents` and `films` of a planet. The other reference lists (`species`, `vehicles`, `starships` of a person and of a film; src/types/swapi.ts:20-22, 40-42) are left out because no modelled operation reads them; the remaining fields are display data and timestamps.
- Client.HandleApiError: a response whose body is `null` makes `handleApiError` itself throw a `TypeError`; the model's body is always a record, and a non-object body is the record with every field absent.
- JsNumber.NumberToString: only safe integers are modelled. Fractions, `NaN` and `-0` (printed `0`) are outside `JsInt`, and so are integers beyond 2^53 − 1: most of those are not representable as numbers at all, and from 10^21 on `${n}` switches to exponent notation.
- UriComponent.EncodeURIComponent: requires ASCII input. Non-ASCII characters (UTF-8 expansion) and lone surrogates (`URIError`) are not modelled.
- UriComponent.EncodeIdentityIff: requires ASCII input, as `EncodeURIComponent` does.
- UriComponent.DecodeEncode: requires ASCII input, as `EncodeURIComponent` does.
- UriComponent.EncodeInjective: requires ASCII input, as `EncodeURIComponent` does.
- UriComponent.EncodedHasNoDelimiters: requires ASCII input, as `EncodeURIComponent` does.
- QueryParams.SearchPathShape: requires an ASCII term, as `EncodeURIComponent` does.
- Swapi.SearchPeople: requires an ASCII query, as `EncodeURIComponent` does; so do `Swapi.SearchFilms` and `Swapi.SearchPlanets`.
- PeopleApi.SearchPeople: requires an ASCII name, as `EncodeURIComponent` does; so do `FilmsApi.SearchFilms` and `PlanetsApi.SearchPlanets`.
- UriComponent.EncodeChar: requires an ASCII character, as `EncodeURIComponent` does; so do `UriComponent.EncodeAppend` and `UriComponent.EncodeSingle`.
- PersonHooks.UsePeopleSearch: requires an ASCII name, as `EncodeURIComponent` does; so do `FilmHooks.UseFilmsSearch` and `PlanetHooks.UsePlanetsSearch`.
- PersonHooks.PeopleSearchKeyInjective: requires ASCII names; so do the film and planet search-key lemmas and the key-family lemmas.
