/** The chain of hops that results from any configuration, and where the fragment layer sits. */
module ProxyStackTheorems {
  import opened Wrappers
  import opened Text
  import opened Addr
  import opened AddrTheorems
  import opened ProxyStack

  // ---------------------------------------------------------------------------
  // Hop order
  // ---------------------------------------------------------------------------

  /** One thing done while a connection is set up. */
  datatype Action =
    | DialTcp(addr: SocketAddr)
    | StartTls(host: HostName)
    | StartFragmenting
    | Ask(kind: Kind, target: SocketAddr)

  /** What was done to set up a connection, in the order in which it was done. */
  function History(conn: Conn): seq<Action> {
    match conn
    case Tcp(addr) => [DialTcp(addr)]
    case TlsOver(inner, host) => History(inner) + [StartTls(host)]
    case FragmentOver(inner) => History(inner) + [StartFragmenting]
    case Via(inner, kind, target) => History(inner) + [Ask(kind, target)]
  }

  /** Whom to reach first in order to go through `hops` to `addr`. */
  function FirstStop(hops: seq<Hop>, addr: SocketAddr): SocketAddr {
    if hops == [] then addr else hops[0].server
  }

  function StartTlsTimes(n: nat, host: HostName): seq<Action> {
    if n == 0 then [] else StartTlsTimes(n - 1, host) + [StartTls(host)]
  }

  /** Front to back: the TLS layers with each hop's own server, and then the question for the next stop. */
  function Through(hops: seq<Hop>, addr: SocketAddr): seq<Action> {
    if hops == [] then []
    else
      StartTlsTimes(hops[0].tls, hops[0].server.hostname)
      + [Ask(hops[0].kind, FirstStop(hops[1..], addr))]
      + Through(hops[1..], addr)
  }

  /** The plan for a configuration: dial the first stop, and go through the hops in their configured order. */
  function Plan(hops: seq<Hop>, addr: SocketAddr): seq<Action> {
    [DialTcp(FirstStop(hops, addr))] + Through(hops, addr)
  }

  /** The last hop at the back: through the others to its server, then its TLS layers, and then the question. */
  lemma {:induction false} ThroughLast(hops: seq<Hop>, last: Hop, addr: SocketAddr)
    ensures Through(hops + [last], addr)
         == Through(hops, last.server) + StartTlsTimes(last.tls, last.server.hostname) + [Ask(last.kind, addr)]
    ensures FirstStop(hops + [last], addr) == FirstStop(hops, last.server)
  {
    var all := hops + [last];
    var mine := StartTlsTimes(last.tls, last.server.hostname) + [Ask(last.kind, addr)];
    if hops == [] {
      assert all[1..] == [];
      assert Through(all, addr) == mine + [];
    } else {
      assert all[1..] == hops[1..] + [last];
      ThroughLast(hops[1..], last, addr);
    }
  }

  /** TLS layers on top of a stack wrap its connection, each with the address asked for. */
  lemma {:induction false} ConnectTls(stack: seq<Entry>, n: nat, addr: SocketAddr)
    requires Connect(stack, addr).Some?
    ensures var conn := Connect(stack + TlsLayers(n), addr);
            && conn.Some?
            && History(conn.value) == History(Connect(stack, addr).value) + StartTlsTimes(n, addr.hostname)
  {
    if n == 0 {
      assert stack + TlsLayers(0) == stack;
      assert History(Connect(stack, addr).value) + [] == History(Connect(stack, addr).value);
    } else {
      var all := stack + TlsLayers(n);
      assert all[..|all| - 1] == stack + TlsLayers(n - 1);
      ConnectTls(stack, n - 1, addr);
    }
  }

  /** A proxy on top of its TLS layers reaches its server through the stack, and is asked for the address. */
  lemma ConnectHop(stack: seq<Entry>, hop: Hop, addr: SocketAddr)
    requires Connect(stack, hop.server).Some?
    ensures var conn := Connect(stack + EntriesOf(hop), addr);
            && conn.Some?
            && History(conn.value) == History(Connect(stack, hop.server).value)
                                      + StartTlsTimes(hop.tls, hop.server.hostname) + [Ask(hop.kind, addr)]
  {
    ConnectTls(stack, hop.tls, hop.server);
    var all := stack + EntriesOf(hop);
    assert all == stack + TlsLayers(hop.tls) + [Proxy(hop.kind, hop.server)];
    assert all[..|all| - 1] == stack + TlsLayers(hop.tls);
  }

  lemma PlanLast(hops: seq<Hop>, last: Hop, addr: SocketAddr)
    ensures Plan(hops + [last], addr)
         == Plan(hops, last.server) + StartTlsTimes(last.tls, last.server.hostname) + [Ask(last.kind, addr)]
  {
    ThroughLast(hops, last, addr);
  }

  /** Whatever the hops, the iterator is never exhausted and the connection is set up according to plan. */
  lemma {:induction false} ConnectFollowsPlan(hops: seq<Hop>, addr: SocketAddr)
    ensures Connect(BaseStack(hops), addr).Some?
    ensures History(Connect(BaseStack(hops), addr).value) == Plan(hops, addr)
    decreases |hops|
  {
    if hops == [] {
      assert Connect([Raw], addr) == Some(Tcp(addr));
    } else {
      var before, last := hops[..|hops| - 1], hops[|hops| - 1];
      assert hops == before + [last];
      ConnectFollowsPlan(before, last.server);
      ConnectHop(BaseStack(before), last, addr);
      PlanLast(before, last, addr);
    }
  }

  /** With the fragment layer, the same connection is set up and fragmenting starts last. */
  lemma FragmentingComesLast(hops: seq<Hop>, fragment: Option<nat>, addr: SocketAddr)
    ensures var conn := Connect(StackOf(hops, fragment), addr);
            && conn.Some?
            && History(conn.value) == Plan(hops, addr) + if FragmentsAll(fragment) then [StartFragmenting] else []
  {
    ConnectFollowsPlan(hops, addr);
    var stack := StackOf(hops, fragment);
    if FragmentsAll(fragment) {
      assert stack[..|stack| - 1] == BaseStack(hops);
    } else {
      assert stack == BaseStack(hops);
      assert Plan(hops, addr) + [] == Plan(hops, addr);
    }
  }

  // ---------------------------------------------------------------------------
  // Where the fragment layer sits
  // ---------------------------------------------------------------------------

  /** Whether a request is fragmented: its own wish comes first, and then the configuration. */
  predicate Wanted(config: Option<nat>, request: Option<bool>) {
    if request.Some? then request.value else FragmentsAll(config)
  }

  lemma {:induction false} BaseStackHasNoFragment(hops: seq<Hop>)
    ensures Fragment !in BaseStack(hops) && BaseStack(hops) != []
  {
    if hops != [] {
      BaseStackHasNoFragment(hops[..|hops| - 1]);
      TlsLayersAreTls(hops[|hops| - 1].tls);
    }
  }

  lemma {:induction false} TlsLayersAreTls(n: nat)
    ensures forall e :: e in TlsLayers(n) ==> e == Tls
  {
    if n > 0 {
      TlsLayersAreTls(n - 1);
    }
  }

  /** The stack used is the base stack, with one fragment layer on top exactly when it is wanted. */
  method SelectedStack(hops: seq<Hop>, config: Option<nat>, request: Option<bool>) returns (proxies: seq<Entry>)
    ensures proxies == BaseStack(hops) + if Wanted(config, request) then [Fragment] else []
    ensures Fragment in proxies <==> Wanted(config, request)
  {
    BaseStackHasNoFragment(hops);
    proxies := SelectStack(StackOf(hops, config), config, request);
  }

  /** The wish of a DoH request: it asks for fragmenting when the configuration is 1, and says nothing otherwise. */
  function DohWish(config: Option<nat>): Option<bool> {
    if config == Some(1) then Some(true) else None
  }

  /** DoH requests are fragmented unless the configuration is 0, other requests unless it is 0 or 1. */
  lemma DohIsFragmentedUnlessDisabled(config: Option<nat>)
    ensures Wanted(config, DohWish(config)) <==> config != Some(0)
    ensures Wanted(config, None) <==> config != Some(0) && config != Some(1)
  {
  }

  /**
    Plain http goes to the last hop's own server if that hop is an HTTP proxy, through all hops before it and its TLS
    layers, and is forwarded there. In every other case it goes to the origin through all hops, without TLS on top.
   */
  lemma PlainHttpRoute(hops: seq<Hop>, addr: SocketAddr)
    ensures var route := Dispatch(BaseStack(hops), "http", addr);
            route.Some? &&
            if hops != [] && hops[|hops| - 1].kind == HttpKind then
              var before, last := hops[..|hops| - 1], hops[|hops| - 1];
              && route.value.Forwarded?
              && History(route.value.proxy)
                 == Plan(before, last.server) + StartTlsTimes(last.tls, last.server.hostname)
            else
              route.value.Direct? && History(route.value.origin) == Plan(hops, addr)
  {
    ConnectFollowsPlan(hops, addr);
    if hops != [] {
      var before, last := hops[..|hops| - 1], hops[|hops| - 1];
      var base := BaseStack(hops);
      assert base[..|base| - 1] == BaseStack(before) + TlsLayers(last.tls);
      ConnectFollowsPlan(before, last.server);
      ConnectTls(BaseStack(before), last.tls, last.server);
    }
  }

  /** Plain http takes the same route with and without the fragment layer. */
  lemma PlainHttpSkipsFragment(hops: seq<Hop>, addr: SocketAddr)
    ensures Dispatch(BaseStack(hops) + [Fragment], "http", addr) == Dispatch(BaseStack(hops), "http", addr)
    ensures Dispatch(BaseStack(hops), "http", addr).Some?
  {
    var stack := BaseStack(hops) + [Fragment];
    assert stack[..|stack| - 1] == BaseStack(hops);
    PlainHttpRoute(hops, addr);
  }

  /** Https goes to the origin through all hops, HTTP proxies too, and ends with TLS over any fragment layer. */
  lemma HttpsRoute(hops: seq<Hop>, fragmented: bool, addr: SocketAddr)
    ensures var route := Dispatch(BaseStack(hops) + if fragmented then [Fragment] else [], "https", addr);
            && route.Some? && route.value.Direct?
            && History(route.value.origin)
               == Plan(hops, addr) + (if fragmented then [StartFragmenting] else []) + [StartTls(addr.hostname)]
  {
    ConnectFollowsPlan(hops, addr);
    BaseStackHasNoFragment(hops);
    var stack := BaseStack(hops) + if fragmented then [Fragment] else [];
    if fragmented {
      assert stack[..|stack| - 1] == BaseStack(hops);
    } else {
      assert stack == BaseStack(hops);
    }
  }

  // ---------------------------------------------------------------------------
  // The configuration as text
  // ---------------------------------------------------------------------------

  function NameOf(kind: Kind): string {
    match kind
    case HttpKind => "http"
    case Socks4Kind => "socks4"
    case Socks5Kind => "socks5"
  }

  /** "tls+" for each TLS layer, and the name of the protocol. */
  function ProtocolText(tls: nat, kind: Kind): string {
    if tls == 0 then NameOf(kind) else "tls" + "+" + ProtocolText(tls - 1, kind)
  }

  lemma {:induction false} SplitProtocol(tls: nat, kind: Kind)
    ensures var parts := Split(ProtocolText(tls, kind), '+');
            && |parts| == tls + 1 && parts[tls] == NameOf(kind)
            && forall i :: 0 <= i < tls ==> parts[i] == "tls"
  {
    if tls == 0 {
      SplitLast(NameOf(kind), '+');
    } else {
      SplitFirst("tls", '+', ProtocolText(tls - 1, kind));
      SplitProtocol(tls - 1, kind);
    }
  }

  lemma {:induction false} JoinProtocol(parts: seq<string>, kind: Kind)
    requires parts != [] && parts[|parts| - 1] == NameOf(kind)
    requires forall i :: 0 <= i < |parts| - 1 ==> parts[i] == "tls"
    ensures Join(parts, '+') == ProtocolText(|parts| - 1, kind)
  {
    if |parts| > 1 {
      JoinProtocol(parts[1..], kind);
    }
  }

  lemma KindOfName(kind: Kind, name: string)
    ensures KindOf(name) == Some(kind) <==> name == NameOf(kind)
  {
  }

  /** What the protocols ask of user and password: no NUL for SOCKS4, and at most 255 bytes each for SOCKS5. */
  predicate Fit(kind: Kind, user: Bytes, password: Option<Bytes>) {
    && (kind == Socks4Kind ==> 0 !in user && (password.Some? ==> 0 !in password.value))
    && (kind == Socks5Kind ==> |user| <= 255 && (password.Some? ==> |password.value| <= 255))
  }

  /**
    A configured proxy is a hop exactly when its protocol is the text of the hop's layers and kind, its server is an
    address, and user and password fit.
   */
  lemma HopOfIff(lib: Library, c: ProxyConfig, hop: Hop)
    ensures HopOf(lib, c) == Ok(hop) <==>
              && c.protocol == ProtocolText(hop.tls, hop.kind)
              && ParseAddr(lib, c.server) == Ok(hop.server)
              && Fit(hop.kind, c.user, c.password)
  {
    SplitProtocol(hop.tls, hop.kind);
    KindOfName(hop.kind, NameOf(hop.kind));
    if HopOf(lib, c) == Ok(hop) {
      var parts := Split(c.protocol, '+');
      JoinSplit(c.protocol, '+');
      KindOfName(hop.kind, parts[|parts| - 1]);
      JoinProtocol(parts, hop.kind);
    }
  }
}
