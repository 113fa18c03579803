/** The HTTP values the proxy handler works on, as immutable records:
    hyper's `Uri` split into its three optional components, a header map,
    requests and responses. Bodies are byte sequences; hyper streams them,
    which does not change what is passed along. */
module Http {
  import opened Wrappers
  import opened Net

  /** Header names are stored lower-case, as hyper normalises them. */
  type HeaderName = string

  /** `HeaderValue::from_str` validates its input and then keeps the same
      characters; the value therefore carries the text it was made from. */
  datatype HeaderValue = HeaderValue(text: string)

  /** hyper's `HeaderMap`: each name maps to the non-empty list of its
      values, in insertion order. */
  type HeaderMap = map<HeaderName, seq<HeaderValue>>

  const HOST: HeaderName := "host"

  /** Two header maps agree on every name except `name`. */
  ghost predicate SameExcept(a: HeaderMap, b: HeaderMap, name: HeaderName) {
    forall k :: k != name ==> (k in a <==> k in b) && (k in a ==> a[k] == b[k])
  }

  /** `HeaderMap::insert`: `v` becomes the only value of `name`, every
      earlier value of `name` is dropped, other names are untouched. */
  function Insert(h: HeaderMap, name: HeaderName, v: HeaderValue): (r: HeaderMap)
    ensures name in r && r[name] == [v]
    ensures SameExcept(r, h, name)
  {
    h[name := [v]]
  }

  /** hyper's `Uri`: optional scheme, authority (`host[:port]`) and
      path-and-query, each kept as the text `as_str()` returns. */
  datatype Uri = Uri(scheme: Option<string>, authority: Option<string>, pathAndQuery: Option<string>)

  /** `verb` is the HTTP method (GET, POST, ...). */
  datatype Request = Request(verb: string, uri: Uri, headers: HeaderMap, body: seq<byte>)

  datatype Response = Response(status: u16, headers: HeaderMap, body: seq<byte>)

  const OK: u16 := 200
  const BAD_GATEWAY: u16 := 502

  /** `Response::new(body)`: status 200 OK and no headers. */
  function NewResponse(body: seq<byte>): (r: Response)
    ensures r.status == 200 && r.headers == map[] && r.body == body
  {
    Response(OK, map[], body)
  }
}
