/** Socket addresses as Rust's `std::net` represents them: an IPv4 or IPv6
    address plus a 16-bit port. Only construction and the two accessors the
    bind-address code uses (`ip()`, `port()`) are modelled; the textual
    parsers stay abstract (see module `Bind`). */
module Net {

  newtype byte = x: int | 0 <= x < 0x100
  newtype u16 = x: int | 0 <= x < 0x1_0000
  newtype u32 = x: int | 0 <= x < 0x1_0000_0000

  datatype Ipv4Addr = Ipv4Addr(a: byte, b: byte, c: byte, d: byte)

  /** The eight 16-bit segments of an IPv6 address. */
  type Segments = s: seq<u16> | |s| == 8 witness [0, 0, 0, 0, 0, 0, 0, 0]

  datatype Ipv6Addr = Ipv6Addr(segments: Segments)

  datatype IpAddr = V4(v4: Ipv4Addr) | V6(v6: Ipv6Addr)

  /** `SocketAddr::V4` / `SocketAddr::V6`; the IPv6 form also carries the
      flow information and scope id fields of `SocketAddrV6`. */
  datatype SocketAddr =
    | SocketV4(ip4: Ipv4Addr, port4: u16)
    | SocketV6(ip6: Ipv6Addr, port6: u16, flowinfo: u32, scopeId: u32)

  /** `Ipv4Addr::UNSPECIFIED`, the address 0.0.0.0 (all interfaces). */
  const UNSPECIFIED_V4: Ipv4Addr := Ipv4Addr(0, 0, 0, 0)

  /** `SocketAddr::ip()`. */
  function Ip(addr: SocketAddr): IpAddr {
    match addr
    case SocketV4(ip, _) => V4(ip)
    case SocketV6(ip, _, _, _) => V6(ip)
  }

  /** `SocketAddr::port()`. */
  function Port(addr: SocketAddr): u16 {
    match addr
    case SocketV4(_, p) => p
    case SocketV6(_, p, _, _) => p
  }

  /** `SocketAddr::new(ip, port)`: the variant follows the address family,
      and an IPv6 socket address gets zero flow information and scope id. */
  function NewSocketAddr(ip: IpAddr, port: u16): (r: SocketAddr)
    ensures Ip(r) == ip && Port(r) == port
    ensures r.SocketV6? ==> r.flowinfo == 0 && r.scopeId == 0
  {
    match ip
    case V4(a) => SocketV4(a, port)
    case V6(a) => SocketV6(a, port, 0, 0)
  }

  /** `ip()` and `port()` are all there is to a socket address whose IPv6
      extra fields are zero: rebuilding it from them gives it back. */
  lemma SocketAddrRebuild(addr: SocketAddr)
    ensures addr.SocketV4? || (addr.flowinfo == 0 && addr.scopeId == 0) <==>
      NewSocketAddr(Ip(addr), Port(addr)) == addr
  {
  }

  /** A socket address built by `SocketAddr::new` is determined by its
      address and port: the constructor loses nothing. */
  lemma NewSocketAddrInjective(ip1: IpAddr, p1: u16, ip2: IpAddr, p2: u16)
    ensures NewSocketAddr(ip1, p1) == NewSocketAddr(ip2, p2) <==> ip1 == ip2 && p1 == p2
  {
    if NewSocketAddr(ip1, p1) == NewSocketAddr(ip2, p2) {
      assert Ip(NewSocketAddr(ip1, p1)) == ip1;
      assert Ip(NewSocketAddr(ip2, p2)) == ip2;
    }
  }
}
