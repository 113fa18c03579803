/** Resolution of the `--bind` argument (`to_socket_addr`, `default_addr`
    and the `unwrap_or_else(default_addr)` in `main`). The standard
    library's `SocketAddr` and `IpAddr` parsers are not modelled: they are
    passed in as partial functions, so every property below holds whatever
    grammar those parsers accept. The `u16` parse is the concrete one of
    module `Decimal`. */
module Bind {
  import opened Wrappers
  import opened Net
  import opened Decimal

  /** The two library parsers `to_socket_addr` consults, as partial
      functions (`None` for a parse error). */
  datatype AddrParsers = AddrParsers(
    socketAddr: string -> Option<SocketAddr>,
    ipAddr: string -> Option<IpAddr>)

  const DEFAULT_PORT: u16 := 1080

  /** `default_addr()`: all IPv4 interfaces, port 1080. */
  function DefaultAddr(): (r: SocketAddr)
    ensures Ip(r) == V4(UNSPECIFIED_V4) && Port(r) == 1080
    ensures r.SocketV4? && r.ip4.a == 0 && r.ip4.b == 0 && r.ip4.c == 0 && r.ip4.d == 0
  {
    NewSocketAddr(V4(UNSPECIFIED_V4), DEFAULT_PORT)
  }

  const ERROR_PREFIX: string := "Cannot parse `"
  const ERROR_SUFFIX: string := "` to SocketAddr"

  /** Reads the offending input back out of an error message; `None` for a
      message of another shape. */
  function BindErrorInput(m: string): Option<string> {
    if |m| >= |ERROR_PREFIX| + |ERROR_SUFFIX|
       && m[..|ERROR_PREFIX|] == ERROR_PREFIX
       && m[|m| - |ERROR_SUFFIX|..] == ERROR_SUFFIX
    then Some(m[|ERROR_PREFIX|..|m| - |ERROR_SUFFIX|])
    else None
  }

  /** The message of the error `to_socket_addr` returns for input `s`. It
      names the input exactly: the input can be read back, so distinct
      inputs give distinct messages. */
  function BindError(s: string): (m: string)
    ensures BindErrorInput(m) == Some(s)
  {
    var m := ERROR_PREFIX + s + ERROR_SUFFIX;
    assert m[..|ERROR_PREFIX|] == ERROR_PREFIX;
    assert m[|m| - |ERROR_SUFFIX|..] == ERROR_SUFFIX;
    assert m[|ERROR_PREFIX|..|m| - |ERROR_SUFFIX|] == s;
    m
  }

  /** `to_socket_addr(s)`: a full `IP:PORT` first, then a bare IP with the
      default port, then a bare port on the default address, else an
      error naming the input. */
  function ToSocketAddr(s: string, p: AddrParsers): (r: Result<SocketAddr, string>)
    ensures p.socketAddr(s).Some? ==> r == Ok(p.socketAddr(s).value)
    ensures p.socketAddr(s).None? && p.ipAddr(s).Some? ==>
      r.Ok? && Ip(r.value) == p.ipAddr(s).value && Port(r.value) == 1080
    ensures p.socketAddr(s).None? && p.ipAddr(s).None? && IsU16Literal(s) ==>
      r.Ok? && Ip(r.value) == V4(UNSPECIFIED_V4) && Port(r.value) as int == Value(Unsigned(s))
    ensures r.Err? <==> p.socketAddr(s).None? && p.ipAddr(s).None? && !IsU16Literal(s)
    ensures r.Err? ==> BindErrorInput(r.error) == Some(s)
  {
    match p.socketAddr(s)
    case Some(addr) => Ok(addr)
    case None =>
      match p.ipAddr(s)
      case Some(ip) => Ok(NewSocketAddr(ip, Port(DefaultAddr())))
      case None =>
        match ParseU16(s)
        case Some(port) => Ok(NewSocketAddr(Ip(DefaultAddr()), port))
        case None => Err(BindError(s))
  }

  /** The address the server binds: the `--bind` argument when one is
      given (an unparsable one is a command-line error), the default
      otherwise. */
  function BindAddress(arg: Option<string>, p: AddrParsers): (r: Result<SocketAddr, string>)
    ensures arg.None? ==> r == Ok(DefaultAddr()) && Port(r.value) == 1080
    ensures arg.Some? ==> r == ToSocketAddr(arg.value, p)
    ensures arg.Some? ==> (r.Ok? <==>
      p.socketAddr(arg.value).Some? || p.ipAddr(arg.value).Some? || IsU16Literal(arg.value))
    ensures r.Err? ==> arg.Some? && BindErrorInput(r.error) == arg
  {
    match arg
    case None => Ok(DefaultAddr())
    case Some(s) => ToSocketAddr(s, p)
  }

  /** When the input is a full socket address, the IP-only and port-only
      parsers are never consulted: any other IP parser gives the same
      outcome. */
  lemma SocketFormShadowsOthers(s: string, p: AddrParsers, ipAddr: string -> Option<IpAddr>)
    requires p.socketAddr(s).Some?
    ensures ToSocketAddr(s, p) == ToSocketAddr(s, p.(ipAddr := ipAddr))
    ensures ToSocketAddr(s, p) == Ok(p.socketAddr(s).value)
  {
  }

  /** When the input is a bare IP, whether it would also read as a port
      makes no difference: the port is always the default 1080. */
  lemma IpFormShadowsPort(s: string, p: AddrParsers)
    requires p.socketAddr(s).None? && p.ipAddr(s).Some?
    ensures ToSocketAddr(s, p) == Ok(NewSocketAddr(p.ipAddr(s).value, 1080))
  {
    var r := ToSocketAddr(s, p);
    NewSocketAddrInjective(Ip(r.value), Port(r.value), p.ipAddr(s).value, 1080);
  }

  /** Every port, written in decimal, binds 0.0.0.0 on that port, provided
      the library parsers do not claim the text first. */
  lemma BarePortBindsAllInterfaces(port: u16, p: AddrParsers)
    requires p.socketAddr(Show(port as nat)).None? && p.ipAddr(Show(port as nat)).None?
    ensures ToSocketAddr(Show(port as nat), p) == Ok(SocketV4(UNSPECIFIED_V4, port))
  {
    ParseShowRoundTrip(port);
  }

  /** A decimal port, with or without a leading `+`, binds all interfaces. */
  lemma PortLiteralAccepted(p: AddrParsers)
    requires p.socketAddr("8080").None? && p.ipAddr("8080").None?
    requires p.socketAddr("+80").None? && p.ipAddr("+80").None?
    ensures ToSocketAddr("8080", p) == Ok(SocketV4(UNSPECIFIED_V4, 8080))
    ensures ToSocketAddr("+80", p) == Ok(SocketV4(UNSPECIFIED_V4, 80))
  {
    assert Unsigned("8080") == "8080";
    assert Value("8") == 8 by { assert "8"[..0] == ""; }
    assert Value("80") == 80 by { assert "80"[..1] == "8"; }
    assert Value("808") == 808 by { assert "808"[..2] == "80"; }
    assert Value("8080") == 8080 by { assert "8080"[..3] == "808"; }
    assert Unsigned("+80") == "80";
  }

  /** A leading `-` and a lone sign are not ports. */
  lemma SignedPortRejected(p: AddrParsers)
    requires p.socketAddr("-80").None? && p.ipAddr("-80").None?
    requires p.socketAddr("+").None? && p.ipAddr("+").None?
    ensures ToSocketAddr("-80", p) == Err("Cannot parse `-80` to SocketAddr")
    ensures ToSocketAddr("+", p) == Err("Cannot parse `+` to SocketAddr")
  {
    assert !IsU16Literal("-80") by { assert !IsDigit(Unsigned("-80")[0]); }
    assert BindError("-80") == "Cannot parse `-80` to SocketAddr";
    assert Unsigned("+") == "";
    assert BindError("+") == "Cannot parse `+` to SocketAddr";
  }

  /** A port past 65535 overflows `u16` and is an error. */
  lemma OversizedPortRejected(p: AddrParsers)
    requires p.socketAddr("65536").None? && p.ipAddr("65536").None?
    ensures ToSocketAddr("65536", p).Err?
  {
    assert Unsigned("65536") == "65536";
    assert Value("6") == 6 by { assert "6"[..0] == ""; }
    assert Value("65") == 65 by { assert "65"[..1] == "6"; }
    assert Value("655") == 655 by { assert "655"[..2] == "65"; }
    assert Value("6553") == 6553 by { assert "6553"[..3] == "655"; }
    assert Value("65536") == 65536 by { assert "65536"[..4] == "6553"; }
  }
}
