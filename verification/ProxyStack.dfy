/** The proxy stack: how the configuration becomes a list, and what connection the list describes. */
module ProxyStack {
  import opened Wrappers
  import opened Text
  import opened Addr
  import Socks4
  import Socks5

  datatype Kind = HttpKind | Socks4Kind | Socks5Kind

  /** An entry of the stack. A proxy knows the address of its own server. */
  datatype Entry = Raw | Tls | Fragment | Proxy(kind: Kind, server: SocketAddr)

  /**
    A configured proxy as text: "tls+tls+socks5" and a server. The user may have been asked for on the console, and
    is empty if there is none.
   */
  datatype ProxyConfig = ProxyConfig(protocol: string, server: string, user: Bytes, password: Option<Bytes>)

  /** A configured proxy: the number of TLS layers around its connection, its kind, and its server. */
  datatype Hop = Hop(tls: nat, kind: Kind, server: SocketAddr)

  // ---------------------------------------------------------------------------
  // From the configuration to the stack
  // ---------------------------------------------------------------------------

  function KindOf(name: string): Option<Kind> {
    if name == "http" then Some(HttpKind)
    else if name == "socks4" then Some(Socks4Kind)
    else if name == "socks5" then Some(Socks5Kind)
    else None
  }

  /** The limits that the protocols put on user and password. */
  predicate Usable(kind: Kind, c: ProxyConfig) {
    match kind
    case HttpKind => true
    case Socks4Kind => 0 !in c.user && 0 !in OrEmpty(c.password)
    case Socks5Kind => |c.user| <= 255 && |OrEmpty(c.password)| <= 255
  }

  /** The layers come first and are all "tls"; the protocol proper comes last. */
  function HopOf(lib: Library, c: ProxyConfig): Result<Hop> {
    var parts := Split(c.protocol, '+');
    var n := |parts| - 1;
    var server := ParseAddr(lib, c.server);
    if (forall i :: 0 <= i < n ==> parts[i] == "tls")
       && KindOf(parts[n]).Some? && Usable(KindOf(parts[n]).value, c) && server.Ok?
    then Ok(Hop(n, KindOf(parts[n]).value, server.value)) else Err
  }

  function TlsLayers(n: nat): seq<Entry> {
    if n == 0 then [] else TlsLayers(n - 1) + [Tls]
  }

  function EntriesOf(hop: Hop): seq<Entry> {
    TlsLayers(hop.tls) + [Proxy(hop.kind, hop.server)]
  }

  /** The stack without the fragment layer: the raw connection at the bottom, then hop after hop. */
  function BaseStack(hops: seq<Hop>): seq<Entry> {
    if hops == [] then [Raw] else BaseStack(hops[..|hops| - 1]) + EntriesOf(hops[|hops| - 1])
  }

  /** `Some(2..) | None`. */
  predicate FragmentsAll(fragment: Option<nat>) {
    fragment.None? || fragment.value >= 2
  }

  function StackOf(hops: seq<Hop>, fragment: Option<nat>): seq<Entry> {
    BaseStack(hops) + if FragmentsAll(fragment) then [Fragment] else []
  }

  /** All the configured hops, or an error as soon as one of them cannot be read. */
  function HopsOf(lib: Library, configs: seq<ProxyConfig>): Result<seq<Hop>> {
    if configs == [] then Ok([])
    else
      var before, hop := HopsOf(lib, configs[..|configs| - 1]), HopOf(lib, configs[|configs| - 1]);
      if before.Ok? && hop.Ok? then Ok(before.value + [hop.value]) else Err
  }

  lemma {:induction false} HopsOfPrefix(lib: Library, configs: seq<ProxyConfig>, i: nat)
    requires i <= |configs| && HopsOf(lib, configs[..i]).Err?
    ensures HopsOf(lib, configs).Err?
  {
    if i == |configs| {
      assert configs[..i] == configs;
    } else {
      assert configs[..|configs| - 1][..i] == configs[..i];
      HopsOfPrefix(lib, configs[..|configs| - 1], i);
    }
  }

  /** `new` of the three kinds of proxies. An empty user is none. */
  method NewProxy(lib: Library, kind: Kind, c: ProxyConfig) returns (r: Result<Entry>)
    ensures r.Ok? <==> Usable(kind, c) && ParseAddr(lib, c.server).Ok?
    ensures r.Ok? ==> r.value == Proxy(kind, ParseAddr(lib, c.server).value)
  {
    var user := if c.user == [] then None else Some(c.user);
    match kind {
      case HttpKind =>
      case Socks4Kind =>
        if Socks4.NewAuth(user, c.password).Err? {
          return Err;
        }
      case Socks5Kind =>
        if Socks5.NewCredentials(user, c.password).Err? {
          return Err;
        }
    }
    var server := ParseAddr(lib, c.server);
    return if server.Ok? then Ok(Proxy(kind, server.value)) else Err;
  }

  /** The inner loop of `main`: the layers of one proxy. What makes it panic is an error. */
  method PushLayers(below: seq<Entry>, parts: seq<string>) returns (r: Result<seq<Entry>>)
    requires parts != []
    ensures r.Ok? <==> forall i :: 0 <= i < |parts| - 1 ==> parts[i] == "tls"
    ensures r.Ok? ==> r.value == below + TlsLayers(|parts| - 1)
  {
    var stack := below;
    for i := 0 to |parts| - 1
      invariant forall k :: 0 <= k < i ==> parts[k] == "tls"
      invariant stack == below + TlsLayers(i)
    {
      if parts[i] != "tls" {
        return Err;
      }
      stack := stack + [Tls];
    }
    return Ok(stack);
  }

  /** One proxy is pushed, after its layers. */
  method PushProxy(lib: Library, below: seq<Entry>, c: ProxyConfig) returns (r: Result<seq<Entry>>)
    ensures var hop := HopOf(lib, c);
            r == if hop.Ok? then Ok(below + EntriesOf(hop.value)) else Err
  {
    var parts := Split(c.protocol, '+');
    var layered := PushLayers(below, parts);
    if layered.Err? {
      return Err;
    }
    var kind := KindOf(parts[|parts| - 1]);
    if kind.None? {
      return Err;
    }
    var proxy := NewProxy(lib, kind.value, c);
    if proxy.Err? {
      return Err;
    }
    var stack := layered.value + [proxy.value];
    assert stack == below + EntriesOf(Hop(|parts| - 1, kind.value, proxy.value.server));
    return Ok(stack);
  }

  /** The loop of `main` over the configured proxies, and the fragment layer after it. */
  method BuildStack(lib: Library, configs: seq<ProxyConfig>, fragment: Option<nat>) returns (r: Result<seq<Entry>>)
    ensures var hops := HopsOf(lib, configs);
            r == if hops.Ok? then Ok(StackOf(hops.value, fragment)) else Err
  {
    var stack := [Raw];
    ghost var hops: seq<Hop> := [];
    for i := 0 to |configs|
      invariant HopsOf(lib, configs[..i]) == Ok(hops) && stack == BaseStack(hops)
    {
      assert configs[..i + 1][..i] == configs[..i];
      var pushed := PushProxy(lib, stack, configs[i]);
      if pushed.Err? {
        HopsOfPrefix(lib, configs, i + 1);
        return Err;
      }
      stack := pushed.value;
      ghost var hop := HopOf(lib, configs[i]).value;
      assert (hops + [hop])[..|hops|] == hops;
      hops := hops + [hop];
    }
    assert configs[..|configs|] == configs;
    if FragmentsAll(fragment) {
      stack := stack + [Fragment];
    } else {
      assert stack + [] == stack;
    }
    return Ok(stack);
  }

  // ---------------------------------------------------------------------------
  // Connecting
  // ---------------------------------------------------------------------------

  /** What a connection is made of, from the socket outwards. */
  datatype Conn =
    | Tcp(addr: SocketAddr)
    | TlsOver(inner: Conn, host: HostName)
    | FragmentOver(inner: Conn)
    | Via(inner: Conn, kind: Kind, target: SocketAddr)

  /**
    `connect` of the last entry, with the rest of the stack as its iterator, when every step of it succeeds.
    There is no connection if an entry needs a next one and the iterator is exhausted.
   */
  function Connect(stack: seq<Entry>, addr: SocketAddr): Option<Conn> {
    if stack == [] then None
    else
      var top, rest := stack[|stack| - 1], stack[..|stack| - 1];
      match top
      case Raw => if rest == [] then Some(Tcp(addr)) else Connect(rest, addr)
      case Tls =>
        var inner := Connect(rest, addr);
        if inner.Some? then Some(TlsOver(inner.value, addr.hostname)) else None
      case Fragment =>
        var inner := Connect(rest, addr);
        if inner.Some? then Some(FragmentOver(inner.value)) else None
      case Proxy(kind, server) =>
        var inner := Connect(rest, server);
        if inner.Some? then Some(Via(inner.value, kind, addr)) else None
  }

  /** What an HTTP request travels over: a connection to a forwarding proxy, or one to the origin. */
  datatype Route = Forwarded(proxy: Conn) | Direct(origin: Conn)

  /** `http_proxy_`: connect to the origin, with TLS on top for https. */
  function DirectRoute(stack: seq<Entry>, scheme: string, addr: SocketAddr): Option<Route> {
    var conn := Connect(stack, addr);
    if conn.None? then None
    else Some(Direct(if scheme == "https" then TlsOver(conn.value, addr.hostname) else conn.value))
  }

  /** `http_proxy` of the last entry. Only the fragment layer passes plain http on, and only HTTP proxies forward it. */
  function Dispatch(stack: seq<Entry>, scheme: string, addr: SocketAddr): Option<Route> {
    if stack == [] then None
    else
      var top, rest := stack[|stack| - 1], stack[..|stack| - 1];
      if top.Fragment? && scheme == "http" then Dispatch(rest, scheme, addr)
      else if top.Proxy? && top.kind.HttpKind? && scheme == "http" then
        var conn := Connect(rest, top.server);
        if conn.Some? then Some(Forwarded(conn.value)) else None
      else DirectRoute(stack, scheme, addr)
  }

  /** `pop` does nothing to an empty stack. */
  function Popped(stack: seq<Entry>): seq<Entry> {
    if stack == [] then [] else stack[..|stack| - 1]
  }

  /** The stack that `send_request` uses: it may take the configured fragment layer off, or put one on. */
  method SelectStack(stack: seq<Entry>, config: Option<nat>, request: Option<bool>) returns (proxies: seq<Entry>)
    ensures request.None? ==> proxies == stack
    ensures request.Some? && FragmentsAll(config) ==> proxies == if request.value then stack else Popped(stack)
    ensures request.Some? && !FragmentsAll(config) ==> proxies == stack + if request.value then [Fragment] else []
  {
    proxies := stack;
    if request.Some? {
      if FragmentsAll(config) {
        if !request.value {
          proxies := Popped(proxies);
        }
      } else if request.value {
        proxies := proxies + [Fragment];
      }
    }
  }
}
