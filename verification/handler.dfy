/** The request handler `proxy` and its failure response `error_response`.
    An inbound request's path-and-query names the destination URL; the
    handler parses it, points the request at it, rewrites `Host` to the
    destination's authority and forwards it through the shared client.
    hyper's URI parser, the header-value validator and the client call are
    not modelled: they are passed in as functions, so every property holds
    whatever those library pieces do. */
module Handler {
  import opened Wrappers
  import opened Net
  import opened Http

  /** The two library checks the translation consults: `str::parse::<Uri>`
      (`None` for an error) and `str::parse::<HeaderValue>` (whether the
      text is a valid header value). */
  datatype Library = Library(
    parseUri: string -> Option<Uri>,
    isHeaderValue: string -> bool)

  datatype ClientError = ClientError(cause: string)

  /** One call of the shared client: the upstream response, or a transport
      failure. */
  type Client = Request -> Result<Response, ClientError>

  /** The two ways translation can fail; the handler reports both with the
      same response. */
  datatype TranslateError = MalformedDestination | MalformedAuthority

  /** What handling one request amounts to: the response returned to the
      caller and the outbound request handed to the client, if any. */
  datatype Exchange = Exchange(response: Response, sent: Option<Request>)

  /** The bytes of the ASCII text "Error". */
  const ERROR_BODY: seq<byte> := [0x45, 0x72, 0x72, 0x6F, 0x72]

  /** `error_response()`: 502 Bad Gateway, body "Error", no headers. */
  function ErrorResponse(): (r: Response)
    ensures r.status == 502 && r.body == ERROR_BODY && r.headers == map[]
  {
    NewResponse(ERROR_BODY).(status := BAD_GATEWAY)
  }

  /** The end of the run of `/` that starts at index `i` of `s`. */
  function SlashRunEnd(s: string, i: nat): (k: nat)
    requires i <= |s|
    ensures i <= k <= |s|
    ensures forall j :: i <= j < k ==> s[j] == '/'
    ensures k == |s| || s[k] != '/'
    decreases |s| - i
  {
    if i < |s| && s[i] == '/' then SlashRunEnd(s, i + 1) else i
  }

  /** `trim_start_matches('/')`: drops every leading `/`, not just one. */
  function TrimLeadingSlashes(s: string): (r: string)
    ensures |r| <= |s| && r == s[|s| - |r|..]
    ensures forall i :: 0 <= i < |s| - |r| ==> s[i] == '/'
    ensures |r| == 0 || r[0] != '/'
  {
    s[SlashRunEnd(s, 0)..]
  }

  /** The text handed to the URI parser: the inbound path-and-query, or
      the empty string when the URI has none, without its leading slashes. */
  function Destination(req: Request): (r: string)
    ensures |r| == 0 || r[0] != '/'
    ensures req.uri.pathAndQuery.None? ==> r == ""
    ensures req.uri.pathAndQuery.Some? ==> r == TrimLeadingSlashes(req.uri.pathAndQuery.value)
  {
    TrimLeadingSlashes(req.uri.pathAndQuery.GetOr(""))
  }

  /** The text the `Host` header is made from: the URI's authority, or the
      empty string when it has none. */
  function AuthorityText(uri: Uri): (r: string)
    ensures uri.authority.Some? ==> r == uri.authority.value
    ensures uri.authority.None? ==> r == ""
  {
    uri.authority.GetOr("")
  }

  /** `out` is `req` pointed at `dest`: same method and body, URI `dest`,
      a single `Host` value holding `dest`'s authority text, and every other
      header exactly as it was. */
  ghost predicate IsRetargeted(out: Request, req: Request, dest: Uri) {
    && out.verb == req.verb
    && out.body == req.body
    && out.uri == dest
    && HOST in out.headers
    && out.headers[HOST] == [HeaderValue(AuthorityText(dest))]
    && SameExcept(out.headers, req.headers, HOST)
  }

  /** Whether the request gets past translation: its destination parses as
      a URI whose authority text is a valid header value. */
  predicate Translatable(req: Request, lib: Library) {
    var parsed := lib.parseUri(Destination(req));
    parsed.Some? && lib.isHeaderValue(AuthorityText(parsed.value))
  }

  /** The translation step of `proxy`: parse the destination, put it on
      the request, and overwrite `Host` with its authority. */
  function Translate(req: Request, lib: Library): (r: Result<Request, TranslateError>)
    ensures r == Err(MalformedDestination) <==> lib.parseUri(Destination(req)).None?
    ensures r == Err(MalformedAuthority) <==>
      lib.parseUri(Destination(req)).Some? &&
      !lib.isHeaderValue(AuthorityText(lib.parseUri(Destination(req)).value))
    ensures r.Ok? <==> Translatable(req, lib)
    ensures r.Ok? ==> IsRetargeted(r.value, req, lib.parseUri(Destination(req)).value)
  {
    match lib.parseUri(Destination(req))
    case None => Err(MalformedDestination)
    case Some(uri) =>
      var retargeted := req.(uri := uri);
      var authority := AuthorityText(retargeted.uri);
      if !lib.isHeaderValue(authority) then
        Err(MalformedAuthority)
      else
        Ok(retargeted.(headers := Insert(retargeted.headers, HOST, HeaderValue(authority))))
  }

  /** The forwarding step of `proxy`: the upstream response unchanged, or
      the error response when the client fails. */
  function Forward(out: Request, client: Client): (r: Response)
    ensures client(out).Ok? ==> r == client(out).value
    ensures client(out).Err? ==> r == ErrorResponse()
  {
    match client(out)
    case Ok(res) => res
    case Err(_) => ErrorResponse()
  }

  /** `proxy(req)`. It returns `Result<_, Infallible>` in the source, so
      it always yields a response; here it is a total function. A request
      that fails translation gets the error response and reaches no client. */
  function Proxy(req: Request, lib: Library, client: Client): (r: Exchange)
    ensures r.sent.None? <==> !Translatable(req, lib)
    ensures r.sent.None? ==> r.response == ErrorResponse()
    ensures r.sent.Some? ==>
      IsRetargeted(r.sent.value, req, lib.parseUri(Destination(req)).value)
    ensures r.sent.Some? && client(r.sent.value).Ok? ==> r.response == client(r.sent.value).value
    ensures r.sent.Some? && client(r.sent.value).Err? ==> r.response == ErrorResponse()
  {
    match Translate(req, lib)
    case Err(_) => Exchange(ErrorResponse(), None)
    case Ok(out) => Exchange(Forward(out, client), Some(out))
  }

  /** Trimming is determined by its contract: removing a run of slashes
      from the front of a text that does not itself start with one gives
      back exactly that text. */
  lemma TrimLeadingSlashesExact(slashes: string, rest: string)
    requires forall i :: 0 <= i < |slashes| ==> slashes[i] == '/'
    requires |rest| == 0 || rest[0] != '/'
    ensures TrimLeadingSlashes(slashes + rest) == rest
  {
    var s := slashes + rest;
    var k := SlashRunEnd(s, 0);
    assert forall j :: 0 <= j < |slashes| ==> s[j] == slashes[j];
    assert |rest| == 0 || s[|slashes|] == rest[0];
    assert k == |slashes|;
    assert s[k..] == rest;
  }

  lemma TrimLeadingSlashesIdempotent(s: string)
    ensures TrimLeadingSlashes(TrimLeadingSlashes(s)) == TrimLeadingSlashes(s)
  {
  }

  /** Every leading slash goes, not only the separator before the URL: a
      path with one slash and a path with two name the same destination. */
  lemma EveryLeadingSlashRemoved(url: string)
    requires |url| == 0 || url[0] != '/'
    ensures TrimLeadingSlashes("/" + url) == url
    ensures TrimLeadingSlashes("//" + url) == url
  {
    TrimLeadingSlashesExact("/", url);
    TrimLeadingSlashesExact("//", url);
  }

  /** `IsRetargeted` leaves nothing open: it fixes the outbound request
      completely. */
  lemma RetargetedIsUnique(a: Request, b: Request, req: Request, dest: Uri)
    requires IsRetargeted(a, req, dest) && IsRetargeted(b, req, dest)
    ensures a == b
  {
    assert a.headers.Keys == b.headers.Keys;
    assert forall k :: k in a.headers ==> a.headers[k] == b.headers[k];
    assert a.headers == b.headers;
  }

  /** A request that fails translation is answered without the client: any
      two clients give the same exchange, and it is the error response. */
  lemma FailureSkipsClient(req: Request, lib: Library, c1: Client, c2: Client)
    ensures !Translatable(req, lib) ==>
      Proxy(req, lib, c1) == Proxy(req, lib, c2) == Exchange(ErrorResponse(), None)
  {
  }

  /** Whether a request is forwarded depends on its path-and-query alone,
      never on its method, headers or body. */
  lemma ForwardingDependsOnTargetOnly(r1: Request, r2: Request, lib: Library, client: Client)
    requires r1.uri.pathAndQuery == r2.uri.pathAndQuery
    ensures Proxy(r1, lib, client).sent.Some? <==> Proxy(r2, lib, client).sent.Some?
  {
  }

  /** Every response is either the error response or what the client
      returned for the request that was sent. */
  lemma ResponseIsUpstreamOrError(req: Request, lib: Library, client: Client)
    ensures var r := Proxy(req, lib, client);
      r.response == ErrorResponse() || (r.sent.Some? && client(r.sent.value) == Ok(r.response))
  {
  }

  /** A destination without an authority is not rejected by the handler:
      if the validator accepts the empty text, the request goes out with an
      empty `Host`. */
  lemma MissingAuthorityStillForwarded(req: Request, lib: Library, client: Client)
    ensures var parsed := lib.parseUri(Destination(req));
      parsed.Some? && parsed.value.authority.None? && lib.isHeaderValue("") ==>
        var sent := Proxy(req, lib, client).sent;
        sent.Some? && HOST in sent.value.headers && sent.value.headers[HOST] == [HeaderValue("")]
  {
  }

  /** The inbound request `GET /https://example.org/foo?x=1`, sent to the
      proxy at `localhost:1080` by a page from `https://app.test`. */
  const EXAMPLE_URL: string := "https://example.org/foo?x=1"

  const EXAMPLE_INBOUND: Request :=
    Request("GET", Uri(None, None, Some("/" + EXAMPLE_URL)),
      map["origin" := [HeaderValue("https://app.test")], HOST := [HeaderValue("localhost:1080")]], [])

  const EXAMPLE_DEST: Uri := Uri(Some("https"), Some("example.org"), Some("/foo?x=1"))

  /** `GET https://example.org/foo?x=1` with `Host: example.org`. */
  const EXAMPLE_OUTBOUND: Request :=
    Request("GET", EXAMPLE_DEST,
      map["origin" := [HeaderValue("https://app.test")], HOST := [HeaderValue("example.org")]], [])

  /** With a URI parser that reads the destination in the usual way, the
      example request goes out to example.org with `Host: example.org`, keeps
      its `Origin` header, and comes back with the upstream's response. */
  lemma ExampleOrgScenario(lib: Library, client: Client, upstream: Response)
    requires lib.parseUri(EXAMPLE_URL) == Some(EXAMPLE_DEST)
    requires lib.isHeaderValue("example.org")
    ensures Proxy(EXAMPLE_INBOUND, lib, client).sent == Some(EXAMPLE_OUTBOUND)
    ensures client(EXAMPLE_OUTBOUND) == Ok(upstream) ==>
      Proxy(EXAMPLE_INBOUND, lib, client).response == upstream
  {
    EveryLeadingSlashRemoved(EXAMPLE_URL);
    var sent := Proxy(EXAMPLE_INBOUND, lib, client).sent.value;
    RetargetedIsUnique(sent, EXAMPLE_OUTBOUND, EXAMPLE_INBOUND, EXAMPLE_DEST);
  }
}
