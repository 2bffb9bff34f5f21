/**
  `happy_eyeballs` as a step system. Two branches look the host up and dial what they find, each with a clone of the
  iterator over the remaining stack; when both have failed, the host is dialled by name with the iterator itself.
  Every await is a point where the other branch may go on, and every step of a dial may fail.
 */
module HappyEyeballs {
  import opened Wrappers
  import opened Addr
  import opened ProxyStack

  // ---------------------------------------------------------------------------
  // A dial, entry by entry
  // ---------------------------------------------------------------------------

  /** What an entry does to the connection that the rest of the stack gives it. */
  datatype Wrap = AddTls(host: HostName) | AddFragment | AddProxy(kind: Kind, target: SocketAddr)

  function Wrapped(conn: Conn, w: Wrap): Conn {
    match w
    case AddTls(host) => TlsOver(conn, host)
    case AddFragment => FragmentOver(conn)
    case AddProxy(kind, target) => Via(conn, kind, target)
  }

  /**
    A dial first goes down the stack: `entry` is asked for `addr` and owns the iterator. What the entries above it
    will do waits in `wraps`, and is done on the way up, last one first.
   */
  datatype Dial =
    | Down(entry: Entry, iter: seq<Entry>, addr: SocketAddr, wraps: seq<Wrap>)
    | Up(conn: Conn, wraps: seq<Wrap>)
    | Connected(conn: Conn)
    | Broken

  function Risen(conn: Conn, wraps: seq<Wrap>): Dial {
    if wraps == [] then Connected(conn) else Up(conn, wraps)
  }

  /** An entry that is not at the bottom takes the next one out of the iterator and hands the iterator on. */
  function Descended(d: Dial): Dial
    requires d.Down? && d.iter != []
  {
    var next, rest := d.iter[|d.iter| - 1], d.iter[..|d.iter| - 1];
    match d.entry
    case Raw => Down(next, rest, d.addr, d.wraps)
    case Tls => Down(next, rest, d.addr, d.wraps + [AddTls(d.addr.hostname)])
    case Fragment => Down(next, rest, d.addr, d.wraps + [AddFragment])
    case Proxy(kind, server) => Down(next, rest, server, d.wraps + [AddProxy(kind, d.addr)])
  }

  function DialStep(d: Dial, ok: bool): Dial {
    if !ok then Broken
    else
      match d
      case Down(entry, iter, addr, wraps) =>
        if iter != [] then Descended(d)
        else if entry.Raw? then Risen(Tcp(addr), wraps)
        else Broken
      case Up(conn, wraps) =>
        if wraps == [] then Connected(conn)
        else Risen(Wrapped(conn, wraps[|wraps| - 1]), wraps[..|wraps| - 1])
      case _ => d
  }

  // ---------------------------------------------------------------------------
  // The race
  // ---------------------------------------------------------------------------

  /** The two branches, by the record type that they ask for. */
  datatype Family = AAAA | A

  /** What a lookup comes to: an error, no address among the answers, or an address. */
  datatype Lookup = LookupFailed | NoRecord | Found(ip: HostName)

  datatype Branch = Resolving | Dialling(dial: Dial) | Won(conn: Conn) | Failed

  datatype Dialler = ByBranch(family: Family) | ByName

  /** A dial that was started, the iterator it was given, and the address it was for. */
  datatype Attempt = Attempt(who: Dialler, iter: seq<Entry>, addr: SocketAddr)

  /**
    `entry` is `self` and `iter` is `proxies`, which is gone once the dial by name owns it. The last three fields
    record what was found out and done.
   */
  datatype Race = Race(
    entry: Entry,
    iter: Option<seq<Entry>>,
    addr: SocketAddr,
    v6: Branch,
    v4: Branch,
    dohFailedV6: bool,
    dohFailedV4: bool,
    byName: Option<Branch>,
    result: Option<Result<Conn>>,
    foundV6: Option<Lookup>,
    foundV4: Option<Lookup>,
    warned: bool,
    attempts: seq<Attempt>)

  /** There is a race only with DoH, and only for a name. */
  predicate Races(doh: bool, addr: SocketAddr) {
    doh && addr.hostname.Domain?
  }

  /** The dial by name takes the iterator. */
  function DialByName(r: Race): Race
    requires r.iter.Some?
  {
    r.(iter := None,
       byName := Some(Dialling(Down(r.entry, r.iter.value, r.addr, []))),
       attempts := r.attempts + [Attempt(ByName, r.iter.value, r.addr)])
  }

  function Start(entry: Entry, stack: seq<Entry>, addr: SocketAddr, doh: bool): Race {
    var r := Race(entry, Some(stack), addr, Resolving, Resolving, true, true, None, None, None, None, false, []);
    if Races(doh, addr) then r else DialByName(r)
  }

  function BranchOf(r: Race, f: Family): Branch {
    if f.AAAA? then r.v6 else r.v4
  }

  function WithBranch(r: Race, f: Family, b: Branch): Race {
    if f.AAAA? then r.(v6 := b) else r.(v4 := b)
  }

  /** Once both branches have failed the host is dialled by name, with a warning if a flag is still set. */
  function Fallback(r: Race): Race
    requires r.iter.Some?
  {
    if r.v6.Failed? && r.v4.Failed?
    then DialByName(r.(warned := r.dohFailedV6 || r.dohFailedV4)) else r
  }

  /** The flag of a branch is cleared as soon as its lookup has not failed. */
  function WithLookup(r: Race, f: Family, found: Lookup): Race {
    if f.AAAA? then r.(foundV6 := Some(found), dohFailedV6 := found.LookupFailed?)
    else r.(foundV4 := Some(found), dohFailedV4 := found.LookupFailed?)
  }

  /** A lookup is answered: the branch fails, or dials with a clone of the iterator. */
  function Resolved(r: Race, f: Family, found: Lookup): Race
    requires r.iter.Some?
  {
    var s := WithLookup(r, f, found);
    if !found.Found? then Fallback(WithBranch(s, f, Failed))
    else
      var addr := SocketAddr(found.ip, r.addr.port);
      WithBranch(s, f, Dialling(Down(r.entry, r.iter.value, addr, [])))
      .(attempts := r.attempts + [Attempt(ByBranch(f), r.iter.value, addr)])
  }

  function BranchDialled(r: Race, f: Family, d: Dial): Race
    requires r.iter.Some?
  {
    match d
    case Connected(conn) => WithBranch(r, f, Won(conn)).(result := Some(Ok(conn)))
    case Broken => Fallback(WithBranch(r, f, Failed))
    case _ => WithBranch(r, f, Dialling(d))
  }

  function NameDialled(r: Race, d: Dial): Race {
    match d
    case Connected(conn) => r.(byName := Some(Won(conn)), result := Some(Ok(conn)))
    case Broken => r.(byName := Some(Failed), result := Some(Err))
    case _ => r.(byName := Some(Dialling(d)))
  }

  datatype Event = Answered(family: Family, found: Lookup) | Advance(who: Dialler, ok: bool)

  /** One step of one branch or of the dial by name. With a result, what is left of the race has been dropped. */
  function Step(r: Race, e: Event): Race {
    if r.result.Some? then r
    else
      match e
      case Answered(f, found) =>
        if r.iter.Some? && BranchOf(r, f).Resolving? then Resolved(r, f, found) else r
      case Advance(ByBranch(f), ok) =>
        if r.iter.Some? && BranchOf(r, f).Dialling?
        then BranchDialled(r, f, DialStep(BranchOf(r, f).dial, ok)) else r
      case Advance(ByName, ok) =>
        if r.byName.Some? && r.byName.value.Dialling?
        then NameDialled(r, DialStep(r.byName.value.dial, ok)) else r
  }

  /** Any interleaving, with any answers and outcomes. */
  function Run(r: Race, events: seq<Event>): Race {
    if events == [] then r else Step(Run(r, events[..|events| - 1]), events[|events| - 1])
  }
}
