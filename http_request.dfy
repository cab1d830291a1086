/** The read-only view of an inbound HTTP request that the authentication
    layer inspects: its method, its header map, its parsed query and its path. */
module HttpRequest {

  /** A header or query map: canonical key to the list of values received for it. */
  type Values = map<string, seq<string>>

  datatype Request = Request(
    httpMethod: string,
    header: Values,
    query: Values,
    path: string)

  /** `r.Header[key]` succeeds: the key is present, possibly with no values. */
  predicate HasHeader(r: Request, key: string)
  {
    key in r.header
  }

  /** `r.Header.Get(key)`: the first value received for `key`, or the empty
      string when the key is absent or carries no values. */
  function HeaderGet(r: Request, key: string): (v: string)
    ensures HasHeader(r, key) && |r.header[key]| > 0 ==> v == r.header[key][0]
    ensures !HasHeader(r, key) || |r.header[key]| == 0 ==> v == ""
  {
    if key in r.header && |r.header[key]| > 0 then r.header[key][0] else ""
  }

  /** `r.URL.Query()[key]` succeeds. */
  predicate HasQuery(r: Request, key: string)
  {
    key in r.query
  }
}
