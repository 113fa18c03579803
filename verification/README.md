# corsp — a verified model of the CORS proxy core

`corsp` is a small open HTTP proxy. A browser script asks it for
`/<destination URL>`. The proxy forwards the request to that URL and returns the
destination's response with permissive CORS headers. All of its logic lives in
`src/main.rs`. This project models the two pure pieces of that file and proves
properties of them in Dafny:

- **Bind-address resolution** (`default_addr`, `to_socket_addr`, and the
  `unwrap_or_else(default_addr)` in `main`). This is the `--bind` argument tried
  in a fixed order:
  1. as `IP:PORT`;
  2. as a bare IP, which gets port 1080;
  3. as a bare `u16` port, which gets address `0.0.0.0`;
  4. otherwise an error message that names the input.
- **Request translation and forwarding** (`proxy`, `error_response`). The
  handler takes the inbound path-and-query and strips every leading `/`. It
  parses the rest as a URI and sets it as the request's URI. It replaces `Host`
  with the URI's authority. Then it forwards the request through the client.
  Any failure becomes a 502 response with body `Error`.

Files (one module each):

- `wrappers.dfy`: `Option` and `Result`.
- `net.dfy`: IPv4/IPv6 addresses, `SocketAddr`, `SocketAddr::new`, `ip()`, `port()`.
- `decimal.dfy`: the `u16` parser for a bare port (`str::parse::<u16>`), checked against an independent positional-value definition.
- `bind.dfy`: `default_addr`, `to_socket_addr`, and the bind address `main` uses.
- `http.dfy`: `Uri`, header map, request, response, `HeaderMap::insert`, `Response::new`.
- `handler.dfy`: `error_response`, the slash trimming, the translation, the forwarding and `proxy`.

Library code that cannot be seen is not modelled. Instead it is a parameter, so
every property holds for every behaviour of that code:

- the `SocketAddr` parser and the `IpAddr` parser (`string -> Option<..>`);
- hyper's `Uri` parser (`string -> Option<Uri>`);
- the `HeaderValue` validity check (`string -> bool`);
- the shared HTTP client (`Request -> Result<Response, ClientError>`).

The accessors `Net.Ip` and `Net.Port` (`SocketAddr::ip()` and `port()`) have no
contract of their own. Their meaning is fixed by `Net.NewSocketAddr`, which
reads the stored address and port back through them, and by `Net.SocketAddrRebuild`.

`HeaderValue::from_str` copies the text it validates, so a header value
carries that same text. The `u16` parse is modelled concretely. It follows the
grammar of Rust's `from_str_radix` for unsigned integers in radix 10:

- an optional leading `+`, then one or more ASCII digits;
- the digits are accumulated with checked arithmetic, so anything past 65535 is an error;
- `""`, a lone `+` or `-`, and a leading `-` are errors.

`proxy` returns `Result<Response, Infallible>`, so it always answers. `Handler.Proxy`
is a total function that returns an `Exchange`. An `Exchange` holds the response
and the outbound request passed to the client. That request is `None` when no
client call is made.

Two behaviours of the code are easy to misread, and the model states them as
the code has them:

- `trim_start_matches('/')` removes every leading `/`, not exactly one (`Handler.EveryLeadingSlashRemoved`).
- A destination URI with no authority is not rejected by the handler. The handler
  takes the empty text as the authority, and if the validator accepts it, the
  request is forwarded with an empty `Host` (`Handler.MissingAuthorityStillForwarded`).

## Model

| member | source | states |
|---|---|---|
| Net.NewSocketAddr | src/main.rs:126-130 | `SocketAddr::new(ip, port)` gives back exactly that ip and port; an IPv6 address gets zero flow info and scope id |
| Net.SocketAddrRebuild | src/main.rs:126-130 | `SocketAddr::new(addr.ip(), addr.port())` gives `addr` back exactly when `addr` is IPv4 or has zero IPv6 flow info and scope id, so `ip()` and `port()` read back what the constructor stored |
| Net.NewSocketAddrInjective | src/main.rs:126-130 | two constructed socket addresses are equal exactly when their ip and port are equal |
| Bind.DefaultAddr | src/main.rs:115-117 | the default bind address is the unspecified IPv4 address 0.0.0.0 with port 1080 |
| Bind.ToSocketAddr | src/main.rs:119-134 | a full socket address is returned as is; else a bare IP gets port 1080; else a `u16` literal gets 0.0.0.0 with its decimal value as port; it fails exactly when all three parses fail, and the error message gives back the input |
| Bind.BindError | src/main.rs:133 | the input can be read back from the error message, so the message names it exactly and distinct inputs give distinct messages |
| Bind.SocketFormShadowsOthers | src/main.rs:121-123 | when the input parses as a socket address, the IP parser is never consulted: any IP parser gives the same result |
| Bind.IpFormShadowsPort | src/main.rs:125-127 | a bare IP always gets port 1080, even when the text would also read as a port |
| Bind.BarePortBindsAllInterfaces | src/main.rs:129-131 | every port written in decimal binds 0.0.0.0 on that port, unless the library parsers claim the text first |
| Bind.PortLiteralAccepted | src/main.rs:129-130 | `8080` and `+80` bind 0.0.0.0:8080 and 0.0.0.0:80 |
| Bind.SignedPortRejected | src/main.rs:129-133 | `-80` and a lone `+` are not ports and give the error message with the input |
| Bind.OversizedPortRejected | src/main.rs:129-133 | `65536` overflows `u16` and is an error |
| Bind.BindAddress | src/main.rs:29-40 | with no `--bind` the default address 0.0.0.0:1080 is used; with one, the address is the one `to_socket_addr` resolves, it succeeds exactly when one of the three parses succeeds, and an error names the argument |
| Decimal.ParseU16 | src/main.rs:129 | the parse succeeds exactly on an optional `+` followed by digits whose value is at most 65535, and the result is that value |
| Decimal.Accumulate | src/main.rs:129 | the left-to-right checked accumulation of digits equals the positional value and fails exactly on a non-digit or on overflow |
| Decimal.OverflowIsFinal | src/main.rs:129 | once the digits read so far are worth more than 65535, the whole text cannot be a `u16`, so stopping early is correct |
| Decimal.ParseShowRoundTrip | src/main.rs:129 | every port printed in decimal parses back to itself |
| Http.Insert | src/main.rs:101 | inserting `Host` leaves that one value for `Host`, drops all earlier ones, and leaves every other header name as it was |
| Http.NewResponse | src/main.rs:66 | a new response has status 200, no headers and the given body |
| Handler.ErrorResponse | src/main.rs:65-69 | the failure response is 502 Bad Gateway with body `Error` and no headers |
| Handler.SlashRunEnd | src/main.rs:80 | the run of `/` starting at an index ends at the first character that is not `/`, or at the end of the text |
| Handler.TrimLeadingSlashes | src/main.rs:80 | the result is a suffix of the input, everything removed is `/`, and the result does not start with `/` |
| Handler.TrimLeadingSlashesExact | src/main.rs:80 | a run of slashes in front of a text that does not start with `/` is removed and the text comes back exactly |
| Handler.TrimLeadingSlashesIdempotent | src/main.rs:80 | trimming twice is the same as trimming once |
| Handler.EveryLeadingSlashRemoved | src/main.rs:80 | `//https://example.org` names `https://example.org`, and `/` names the empty text |
| Handler.Destination | src/main.rs:72-80 | the text given to the URI parser is the path-and-query (empty when absent) with its leading slashes removed, so it never starts with `/` |
| Handler.AuthorityText | src/main.rs:90-94 | the text for `Host` is the URI's authority, or the empty text when the URI has none |
| Handler.Translate | src/main.rs:72-101 | a failed URI parse is `MalformedDestination`; an authority that is not a valid header value is `MalformedAuthority`; otherwise the request keeps its method, body and non-`Host` headers, has the parsed URI, and has a single `Host` value equal to the authority text |
| Handler.RetargetedIsUnique | src/main.rs:86-101 | the translation's description fixes the outbound request completely |
| Handler.Forward | src/main.rs:105-108 | the client's response is returned unchanged; a client failure gives the error response |
| Handler.Proxy | src/main.rs:71-113 | a request that fails translation gets the error response and nothing is sent; otherwise the translated request is sent, and the upstream response or, on a client failure, the error response is returned |
| Handler.FailureSkipsClient | src/main.rs:81-99 | when translation fails, the exchange is the same for every client and is the error response with nothing sent |
| Handler.ForwardingDependsOnTargetOnly | src/main.rs:72-99 | whether a request is forwarded depends only on its path-and-query, not on its method, headers or body |
| Handler.ResponseIsUpstreamOrError | src/main.rs:105-112 | every response is either the error response or the client's response to the request that was sent |
| Handler.MissingAuthorityStillForwarded | src/main.rs:90-101 | a destination with no authority is forwarded with an empty `Host` if the validator accepts the empty text |
| Handler.ExampleOrgScenario | src/main.rs:71-112 | `GET /https://example.org/foo?x=1` goes out as `GET https://example.org/foo?x=1` with `Host: example.org` and its other headers, and the upstream response comes back |

## Left out

- The shared `CLIENT` (src/main.rs:15-23) is left out: the HTTP(S) transport, TLS roots and connection pooling are network I/O inside libraries. One client call is a function parameter that returns a response or a failure.
- The CORS layer (src/main.rs:44-46) is left out. Its headers and its answers to `OPTIONS` preflight requests are computed inside `tower_http`, which is not visible.
- Binding, serving and `process::exit(1)` on a bind failure (src/main.rs:53-62) are left out as process and network plumbing.
- Logging (`info!`, `error!`) and `clap`'s argument handling are left out (src/main.rs:26-42). Only the `--bind` value and the default fallback are modelled. For a bad `--bind`, `Bind.BindAddress` returns the value parser's error; clap reports that error and exits by itself.
- The grammars of std's `SocketAddr` and `IpAddr` parsers, hyper's `Uri` parser and `HeaderValue` validation are left out. They are parameters, so no assumption is made about them.
- The async runtime, concurrency and body streaming are left out; they do not affect translation.
- Request fields other than method, URI, headers and body (HTTP version, extensions) are left out. hyper carries them over unchanged.
- Header names are assumed to be already lower-case, since hyper normalises them. Case folding is not modelled.
