/** Host names and socket addresses, their texts, and the `Host` header. */
module Addr {
  import opened Wrappers
  import opened Text

  type V4 = b: Bytes | |b| == 4 witness [0, 0, 0, 0]
  type V6 = b: Bytes | |b| == 16 witness [0, 0, 0, 0, 0, 0, 0, 0, 0, 0, 0, 0, 0, 0, 0, 0]

  datatype HostName = V4Host(v4: V4) | V6Host(v6: V6) | Domain(name: string)

  datatype SocketAddr = SocketAddr(hostname: HostName, port: Port)

  // ---------------------------------------------------------------------------
  // Texts of IP addresses
  // ---------------------------------------------------------------------------

  /**
    What this model takes from its libraries: the text form of IPv6 addresses, which bytes are UTF-8, and which texts
    the `http` crate takes for the three parts of a URI.
   */
  datatype Library = Library(
    printV6: V6 -> string,
    parseV6: string -> Option<V6>,
    isUtf8: Bytes -> bool,
    validScheme: string -> bool,
    validAuthority: string -> bool,
    validPath: string -> bool)

  /** Printed IPv6 text is read back, has a colon, and has none of the characters that delimit a host. */
  ghost predicate Faithful(lib: Library) {
    forall v: V6 {:trigger lib.printV6(v)} ::
      && lib.parseV6(lib.printV6(v)) == Some(v)
      && ':' in lib.printV6(v)
      && '[' !in lib.printV6(v) && ']' !in lib.printV6(v) && '@' !in lib.printV6(v) && '\0' !in lib.printV6(v)
  }

  function PrintV4(v: V4): string {
    Decimal(v[0]) + "." + (Decimal(v[1]) + "." + (Decimal(v[2]) + "." + Decimal(v[3])))
  }

  /** One to three digits, no leading zero, at most 255. */
  function ParseOctet(s: string): Option<Byte> {
    if 1 <= |s| <= 3 && AllDigits(s) && (|s| == 1 || s[0] != '0') && Value(s) < 256 then Some(Value(s)) else None
  }

  function ParseV4(s: string): Option<V4> {
    var parts := Split(s, '.');
    if |parts| != 4 then None
    else
      var a, b, c, d := ParseOctet(parts[0]), ParseOctet(parts[1]), ParseOctet(parts[2]), ParseOctet(parts[3]);
      if a.Some? && b.Some? && c.Some? && d.Some? then Some([a.value, b.value, c.value, d.value]) else None
  }

  /** `to_ipv4_mapped` holds a value: the address is ::ffff:a.b.c.d. */
  predicate Mapped(v: V6) {
    v[..12] == [0, 0, 0, 0, 0, 0, 0, 0, 0, 0, 0xff, 0xff]
  }

  /** The host name of an IPv6 address. */
  function FromV6(v: V6): HostName {
    if Mapped(v) then V4Host(v[12..]) else V6Host(v)
  }

  /** `IpAddr::from_str`, as a host name. */
  function ParseIp(lib: Library, s: string): Option<HostName> {
    match ParseV4(s)
    case Some(v4) => Some(V4Host(v4))
    case None =>
      match lib.parseV6(s)
      case Some(v6) => Some(FromV6(v6))
      case None => None
  }

  // ---------------------------------------------------------------------------
  // Host names and addresses
  // ---------------------------------------------------------------------------

  predicate Bracketed(s: string) {
    |s| >= 2 && s[0] == '[' && s[|s| - 1] == ']'
  }

  function Unbracketed(s: string): string {
    if Bracketed(s) then s[1..|s| - 1] else s
  }

  /** `HostName::from_str`, which cannot fail. */
  function ParseHostName(lib: Library, s: string): HostName {
    match ParseIp(lib, Unbracketed(s))
    case Some(ip) => ip
    case None => Domain(Unbracketed(s))
  }

  /** `Display` of a host name. */
  function Print(lib: Library, h: HostName): string {
    match h
    case V4Host(v4) => PrintV4(v4)
    case V6Host(v6) => lib.printV6(v6)
    case Domain(name) => name
  }

  function UrlStyle(lib: Library, h: HostName): string {
    match h
    case V6Host(v6) => "[" + lib.printV6(v6) + "]"
    case _ => Print(lib, h)
  }

  function PrintAddr(lib: Library, a: SocketAddr): string {
    UrlStyle(lib, a.hostname) + ":" + Decimal(a.port)
  }

  function ParseAddr(lib: Library, s: string): Result<SocketAddr> {
    match RSplitOnce(s, ':')
    case None => Err
    case Some((hostname, port)) =>
      match ParsePort(port)
      case None => Err
      case Some(p) => Ok(SocketAddr(ParseHostName(lib, hostname), p))
  }

  datatype Authority = Authority(hostname: HostName, port: Option<Port>)

  /** A host with its port, if it has one, as it stands in a URL or a `Host` header. */
  function PrintAuthority(lib: Library, a: Authority): string {
    match a.port
    case None => UrlStyle(lib, a.hostname)
    case Some(p) => UrlStyle(lib, a.hostname) + ":" + Decimal(p)
  }

  function ParseHostHeader(lib: Library, host: string): Result<Authority> {
    match RSplitOnce(host, ':')
    case None => Ok(Authority(ParseHostName(lib, host), None))
    case Some((hostname, port)) =>
      match ParsePort(port)
      case None => Err
      case Some(p) => Ok(Authority(ParseHostName(lib, hostname), Some(p)))
  }

  // ---------------------------------------------------------------------------
  // Which of them survive being printed and parsed
  // ---------------------------------------------------------------------------

  /** The one host name among those with the same text that parsing gives. */
  predicate Canonical(lib: Library, h: HostName) {
    match h
    case V4Host(_) => true
    case V6Host(v6) => !Mapped(v6)
    case Domain(name) => !Bracketed(name) && ParseIp(lib, name).None?
  }

  /** Without a port, the text of the host must not hold a colon. */
  predicate PortSafe(lib: Library, a: Authority) {
    a.port.Some? || ':' !in UrlStyle(lib, a.hostname)
  }
}
