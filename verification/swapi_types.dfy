/**
 * The records the service returns, reduced to their self URL, a display
 * name and some of their reference lists (a person's and a film's species,
 * vehicles and starships are dropped), plus the page envelope and the error
 * body.
 */
module SwapiTypes {
  import opened Wrappers
  import opened JsNumber

  datatype Person = Person(name: string, homeworld: string, films: seq<string>, url: string)

  datatype Film = Film(title: string, characters: seq<string>, planets: seq<string>, url: string)

  datatype Planet = Planet(name: string, residents: seq<string>, films: seq<string>, url: string)

  /** A page of results: total count, neighbouring page URLs and the page-local records in server order. */
  datatype ApiResponse<T> = ApiResponse(count: int, next: Option<string>, previous: Option<string>, results: seq<T>)

  /** The JSON body of an error response; every field may be missing. */
  datatype ApiError = ApiError(detail: Option<string>, status: Option<JsInt>, message: Option<string>)
}
