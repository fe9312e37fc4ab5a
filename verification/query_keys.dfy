/**
 * What a data hook hands to the query library: the cache key and the request
 * the query function makes. Staleness, retries and caching are the library's
 * and are not modelled.
 */
module QueryKeys {
  import opened Wrappers
  import opened JsNumber

  /**
   * One element of a query key. `Absent` stands for both `null` and
   * `undefined`, which the library's key hashing writes alike.
   */
  datatype KeyPart = Text(text: string) | Number(n: int) | Absent

  /**
   * A query descriptor: the key, and the path the query function requests,
   * `None` when the `enabled` option is false and the function never runs.
   */
  datatype Query = Query(key: seq<KeyPart>, request: Option<string>) {
    predicate Enabled() {
      request.Some?
    }
  }

  /** An optional number as a key element. */
  function NumberPart(v: Option<JsInt>): (p: KeyPart)
    ensures p.Absent? <==> v.None?
    ensures v.Some? ==> p == Number(v.value)
  {
    if v.Some? then Number(v.value) else Absent
  }

}
