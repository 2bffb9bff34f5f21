/** What holds over every interleaving of a race, and what its winner is connected to. */
module HappyEyeballsTheorems {
  import opened Wrappers
  import opened Addr
  import opened ProxyStack
  import opened ProxyStackTheorems
  import opened HappyEyeballs

  // ---------------------------------------------------------------------------
  // A dial in steps is `Connect`
  // ---------------------------------------------------------------------------

  function Finished(conn: Conn, wraps: seq<Wrap>): Conn
    decreases |wraps|
  {
    if wraps == [] then conn
    else Finished(Wrapped(conn, wraps[|wraps| - 1]), wraps[..|wraps| - 1])
  }

  function FinishedIfAny(conn: Option<Conn>, wraps: seq<Wrap>): Option<Conn> {
    if conn.Some? then Some(Finished(conn.value, wraps)) else None
  }

  /** If all of its steps succeed, the dial ends with `goal`. */
  ghost predicate HeadsFor(d: Dial, goal: Option<Conn>) {
    match d
    case Down(entry, iter, addr, wraps) => goal == FinishedIfAny(Connect(iter + [entry], addr), wraps)
    case Up(conn, wraps) => goal == Some(Finished(conn, wraps))
    case Connected(conn) => goal == Some(conn)
    case Broken => true
  }

  /** `Connect` with an entry on top of a stack that is not empty. */
  function ConnectOver(iter: seq<Entry>, entry: Entry, addr: SocketAddr): Option<Conn> {
    match entry
    case Raw => Connect(iter, addr)
    case Tls => FinishedIfAny(Connect(iter, addr), [AddTls(addr.hostname)])
    case Fragment => FinishedIfAny(Connect(iter, addr), [AddFragment])
    case Proxy(kind, server) => FinishedIfAny(Connect(iter, server), [AddProxy(kind, addr)])
  }

  lemma FinishedOne(conn: Conn, w: Wrap)
    ensures Finished(conn, [w]) == Wrapped(conn, w)
  {
    assert [w][..0] == [];
    assert Finished(conn, [w]) == Finished(Wrapped(conn, w), []);
  }

  lemma ConnectTop(iter: seq<Entry>, entry: Entry, addr: SocketAddr)
    requires iter != []
    ensures Connect(iter + [entry], addr) == ConnectOver(iter, entry, addr)
  {
    assert (iter + [entry])[..|iter|] == iter;
    var inner := Connect(iter, if entry.Proxy? then entry.server else addr);
    if inner.Some? {
      match entry
      case Raw =>
      case Tls => FinishedOne(inner.value, AddTls(addr.hostname));
      case Fragment => FinishedOne(inner.value, AddFragment);
      case Proxy(kind, _) => FinishedOne(inner.value, AddProxy(kind, addr));
    }
  }

  lemma FinishedSnoc(conn: Option<Conn>, wraps: seq<Wrap>, w: Wrap)
    ensures FinishedIfAny(FinishedIfAny(conn, [w]), wraps) == FinishedIfAny(conn, wraps + [w])
  {
    assert (wraps + [w])[..|wraps|] == wraps;
    if conn.Some? {
      FinishedOne(conn.value, w);
    }
  }

  lemma RisenHeads(conn: Conn, wraps: seq<Wrap>)
    ensures HeadsFor(Risen(conn, wraps), Some(Finished(conn, wraps)))
  {
  }

  lemma DescentHeads(d: Dial, goal: Option<Conn>)
    requires d.Down? && d.iter != [] && HeadsFor(d, goal)
    ensures HeadsFor(Descended(d), goal)
  {
    assert d.iter[..|d.iter| - 1] + [d.iter[|d.iter| - 1]] == d.iter;
    ConnectTop(d.iter, d.entry, d.addr);
    match d.entry
    case Raw =>
    case Tls => FinishedSnoc(Connect(d.iter, d.addr), d.wraps, AddTls(d.addr.hostname));
    case Fragment => FinishedSnoc(Connect(d.iter, d.addr), d.wraps, AddFragment);
    case Proxy(kind, server) => FinishedSnoc(Connect(d.iter, server), d.wraps, AddProxy(kind, d.addr));
  }

  /** No step of a dial changes what it heads for. */
  lemma StepHeads(d: Dial, ok: bool, goal: Option<Conn>)
    requires HeadsFor(d, goal)
    ensures HeadsFor(DialStep(d, ok), goal)
  {
    if ok && d.Down? {
      if d.iter != [] {
        DescentHeads(d, goal);
      } else {
        assert d.iter + [d.entry] == [d.entry] && [d.entry][..0] == [];
        RisenHeads(Tcp(d.addr), d.wraps);
      }
    } else if ok && d.Up? && d.wraps != [] {
      var last := |d.wraps| - 1;
      RisenHeads(Wrapped(d.conn, d.wraps[last]), d.wraps[..last]);
    }
  }

  // ---------------------------------------------------------------------------
  // The invariant
  // ---------------------------------------------------------------------------

  /** The connection that a dial to `addr` over the whole stack gives. */
  function Goal(r: Race, stack: seq<Entry>, addr: SocketAddr): Option<Conn> {
    Connect(stack + [r.entry], addr)
  }

  /** A dial under way heads for the goal, and one that has won has got there. */
  ghost predicate Faithfully(b: Branch, goal: Option<Conn>) {
    match b
    case Dialling(dial) => HeadsFor(dial, goal) && !dial.Connected? && !dial.Broken?
    case Won(conn) => goal == Some(conn)
    case _ => true
  }

  /** How a branch, its flag and its lookup fit together. */
  ghost predicate BranchHolds(r: Race, stack: seq<Entry>, b: Branch, flag: bool, found: Option<Lookup>) {
    && (b.Resolving? <==> found.None?)
    && (flag <==> found.None? || found.value.LookupFailed?)
    && (b.Dialling? || b.Won? ==>
          && found.Some? && found.value.Found?
          && Faithfully(b, Goal(r, stack, SocketAddr(found.value.ip, r.addr.port))))
  }

  /** Whom an attempt is for. */
  ghost predicate AttemptHolds(r: Race, stack: seq<Entry>, a: Attempt) {
    && a.iter == stack
    && match a.who
       case ByName => r.byName.Some? && a.addr == r.addr
       case ByBranch(f) =>
         var found := if f.AAAA? then r.foundV6 else r.foundV4;
         found.Some? && found.value.Found? && a.addr == SocketAddr(found.value.ip, r.addr.port)
  }

  ghost predicate AttemptsHold(r: Race, stack: seq<Entry>) {
    && (forall i :: 0 <= i < |r.attempts| ==> AttemptHolds(r, stack, r.attempts[i]))
    && (forall i, j :: 0 <= i < j < |r.attempts| ==> r.attempts[i].who != r.attempts[j].who)
  }

  /** The iterator is untouched while there is a race; the dial by name comes after it. */
  ghost predicate StageHolds(r: Race, stack: seq<Entry>, raced: bool) {
    && (r.iter.Some? <==> r.byName.None?)
    && (r.iter.Some? ==> r.iter.value == stack && raced && !r.warned)
    && (r.byName.Some? ==>
          && Faithfully(r.byName.value, Goal(r, stack, r.addr)) && !r.byName.value.Resolving?
          && (if raced then r.v6.Failed? && r.v4.Failed? else r.v6.Resolving? && r.v4.Resolving?)
          && (r.warned <==> raced && (r.foundV6 == Some(LookupFailed) || r.foundV4 == Some(LookupFailed))))
  }

  /** Who has won, if anyone. */
  function Winners(r: Race): seq<Conn> {
    (if r.v6.Won? then [r.v6.conn] else [])
    + (if r.v4.Won? then [r.v4.conn] else [])
    + (if r.byName.Some? && r.byName.value.Won? then [r.byName.value.conn] else [])
  }

  ghost predicate ResultHolds(r: Race) {
    match r.result
    case None => Winners(r) == [] && r.byName != Some(Failed)
    case Some(Ok(conn)) => Winners(r) == [conn] && r.byName != Some(Failed)
    case Some(Err) => Winners(r) == [] && r.byName == Some(Failed)
  }

  ghost predicate Core(r: Race, stack: seq<Entry>, raced: bool) {
    && BranchHolds(r, stack, r.v6, r.dohFailedV6, r.foundV6)
    && BranchHolds(r, stack, r.v4, r.dohFailedV4, r.foundV4)
    && AttemptsHold(r, stack)
    && StageHolds(r, stack, raced)
    && ResultHolds(r)
  }

  ghost predicate Holds(r: Race, stack: seq<Entry>, raced: bool) {
    Core(r, stack, raced) && (r.iter.Some? ==> !(r.v6.Failed? && r.v4.Failed?))
  }

  lemma StartHolds(entry: Entry, stack: seq<Entry>, addr: SocketAddr, doh: bool)
    ensures Holds(Start(entry, stack, addr, doh), stack, Races(doh, addr))
  {
  }

  /** More found out, and one more attempt. */
  lemma AttemptsGrow(r: Race, s: Race, stack: seq<Entry>, more: seq<Attempt>)
    requires AttemptsHold(r, stack) && s.attempts == r.attempts + more && |more| <= 1
    requires s.addr == r.addr && (r.byName.Some? ==> s.byName.Some?)
    requires (r.foundV6.Some? ==> s.foundV6 == r.foundV6) && (r.foundV4.Some? ==> s.foundV4 == r.foundV4)
    requires more != [] ==>
               AttemptHolds(s, stack, more[0]) && forall i :: 0 <= i < |r.attempts| ==> r.attempts[i].who != more[0].who
    ensures AttemptsHold(s, stack)
  {
    forall i | 0 <= i < |s.attempts| ensures AttemptHolds(s, stack, s.attempts[i]) {
      if i < |r.attempts| {
        assert AttemptHolds(r, stack, r.attempts[i]);
      }
    }
  }

  lemma FallbackKeeps(r: Race, stack: seq<Entry>)
    requires Core(r, stack, true) && r.iter.Some? && r.result.None?
    ensures Holds(Fallback(r), stack, true)
  {
    if r.v6.Failed? && r.v4.Failed? {
      var s := Fallback(r);
      assert forall i :: 0 <= i < |r.attempts| ==> AttemptHolds(r, stack, r.attempts[i]);
      AttemptsGrow(r, s, stack, [Attempt(ByName, stack, r.addr)]);
    }
  }

  lemma FailureKeeps(r: Race, stack: seq<Entry>, f: Family)
    requires Holds(r, stack, true) && r.iter.Some? && r.result.None? && BranchOf(r, f).Dialling?
    ensures Holds(Fallback(WithBranch(r, f, Failed)), stack, true)
  {
    var s := WithBranch(r, f, Failed);
    AttemptsGrow(r, s, stack, []);
    FallbackKeeps(s, stack);
  }

  lemma ResolvedKeeps(r: Race, stack: seq<Entry>, f: Family, found: Lookup)
    requires Holds(r, stack, true) && r.iter.Some? && r.result.None? && BranchOf(r, f).Resolving?
    ensures Holds(Resolved(r, f, found), stack, true)
  {
    assert forall i :: 0 <= i < |r.attempts| ==> AttemptHolds(r, stack, r.attempts[i]);
    if found.Found? {
      var addr := SocketAddr(found.ip, r.addr.port);
      var s := Resolved(r, f, found);
      AttemptsGrow(r, s, stack, [Attempt(ByBranch(f), stack, addr)]);
      NothingFinished(Connect(stack + [r.entry], addr));
    } else {
      var s := WithBranch(WithLookup(r, f, found), f, Failed);
      AttemptsGrow(r, s, stack, []);
      FallbackKeeps(s, stack);
    }
  }

  lemma NothingFinished(conn: Option<Conn>)
    ensures FinishedIfAny(conn, []) == conn
  {
  }

  lemma BranchDialledKeeps(r: Race, stack: seq<Entry>, f: Family, ok: bool)
    requires Holds(r, stack, true) && r.iter.Some? && r.result.None? && BranchOf(r, f).Dialling?
    ensures Holds(BranchDialled(r, f, DialStep(BranchOf(r, f).dial, ok)), stack, true)
  {
    var found := if f.AAAA? then r.foundV6 else r.foundV4;
    var d := DialStep(BranchOf(r, f).dial, ok);
    StepHeads(BranchOf(r, f).dial, ok, Goal(r, stack, SocketAddr(found.value.ip, r.addr.port)));
    if d.Broken? {
      FailureKeeps(r, stack, f);
    } else {
      AttemptsGrow(r, BranchDialled(r, f, d), stack, []);
    }
  }

  lemma NameDialledKeeps(r: Race, stack: seq<Entry>, raced: bool, ok: bool)
    requires Holds(r, stack, raced) && r.result.None? && r.byName.Some? && r.byName.value.Dialling?
    ensures Holds(NameDialled(r, DialStep(r.byName.value.dial, ok)), stack, raced)
  {
    StepHeads(r.byName.value.dial, ok, Goal(r, stack, r.addr));
    AttemptsGrow(r, NameDialled(r, DialStep(r.byName.value.dial, ok)), stack, []);
  }

  lemma StepKeeps(r: Race, stack: seq<Entry>, raced: bool, e: Event)
    requires Holds(r, stack, raced)
    ensures Holds(Step(r, e), stack, raced)
  {
    if r.result.None? {
      match e
      case Answered(f, found) =>
        if r.iter.Some? && BranchOf(r, f).Resolving? {
          ResolvedKeeps(r, stack, f, found);
        }
      case Advance(ByBranch(f), ok) =>
        if r.iter.Some? && BranchOf(r, f).Dialling? {
          BranchDialledKeeps(r, stack, f, ok);
        }
      case Advance(ByName, ok) =>
        if r.byName.Some? && r.byName.value.Dialling? {
          NameDialledKeeps(r, stack, raced, ok);
        }
    }
  }

  /** What only an answer changes, and what nothing changes. */
  lemma DialsFindNothing(r: Race, f: Family, d: Dial)
    ensures r.iter.Some? ==>
              var s := BranchDialled(r, f, d);
              s.entry == r.entry && s.addr == r.addr && s.foundV6 == r.foundV6 && s.foundV4 == r.foundV4
    ensures var s := NameDialled(r, d);
            s.entry == r.entry && s.addr == r.addr && s.foundV6 == r.foundV6 && s.foundV4 == r.foundV4
  {
  }

  lemma AnswerIsFound(r: Race, f: Family, found: Lookup)
    requires r.iter.Some?
    ensures var s := Resolved(r, f, found);
            && s.entry == r.entry && s.addr == r.addr
            && s.foundV6 == (if f.AAAA? then Some(found) else r.foundV6)
            && s.foundV4 == (if f.A? then Some(found) else r.foundV4)
  {
  }

  /** What a step finds out. */
  lemma StepFinds(r: Race, e: Event)
    ensures var s := Step(r, e);
            && s.entry == r.entry && s.addr == r.addr
            && (if e.Answered? && r.result.None? && r.iter.Some? && BranchOf(r, e.family).Resolving?
                then if e.family.AAAA? then s.foundV6 == Some(e.found) && s.foundV4 == r.foundV4
                                       else s.foundV6 == r.foundV6 && s.foundV4 == Some(e.found)
                else s.foundV6 == r.foundV6 && s.foundV4 == r.foundV4)
  {
    match e
    case Answered(f, found) =>
      if r.iter.Some? {
        AnswerIsFound(r, f, found);
      }
    case Advance(ByBranch(f), ok) =>
      if BranchOf(r, f).Dialling? {
        DialsFindNothing(r, f, DialStep(BranchOf(r, f).dial, ok));
      }
    case Advance(ByName, ok) =>
      if r.byName.Some? && r.byName.value.Dialling? {
        DialsFindNothing(r, A, DialStep(r.byName.value.dial, ok));
      }
  }

  lemma {:induction false} EveryRaceHolds(entry: Entry, stack: seq<Entry>, addr: SocketAddr, doh: bool,
                                          events: seq<Event>)
    ensures var r := Run(Start(entry, stack, addr, doh), events);
            Holds(r, stack, Races(doh, addr)) && r.entry == entry && r.addr == addr
  {
    if events == [] {
      StartHolds(entry, stack, addr, doh);
    } else {
      var before := events[..|events| - 1];
      EveryRaceHolds(entry, stack, addr, doh, before);
      StepKeeps(Run(Start(entry, stack, addr, doh), before), stack, Races(doh, addr), events[|events| - 1]);
      StepFinds(Run(Start(entry, stack, addr, doh), before), events[|events| - 1]);
    }
  }

  // ---------------------------------------------------------------------------
  // What it means
  // ---------------------------------------------------------------------------

  /** The result is an error exactly when the dial by name has failed and, if they raced, both branches before it. */
  lemma FailsIff(entry: Entry, stack: seq<Entry>, addr: SocketAddr, doh: bool, events: seq<Event>)
    ensures var r := Run(Start(entry, stack, addr, doh), events);
            r.result == Some(Err)
            <==> r.byName == Some(Failed) && (doh && addr.hostname.Domain? ==> r.v6.Failed? && r.v4.Failed?)
  {
    EveryRaceHolds(entry, stack, addr, doh, events);
  }

  lemma ResultIsWinner(r: Race)
    requires ResultHolds(r)
    ensures |Winners(r)| <= 1
    ensures forall conn :: r.result == Some(Ok(conn)) <==> Winners(r) == [conn]
  {
    forall conn ensures r.result == Some(Ok(conn)) <==> Winners(r) == [conn] {
      assert [conn][0] == conn;
    }
  }

  lemma {:induction false} UnracedTriesOnce(entry: Entry, stack: seq<Entry>, addr: SocketAddr, doh: bool,
                                            events: seq<Event>)
    requires !(doh && addr.hostname.Domain?)
    ensures Run(Start(entry, stack, addr, doh), events).attempts == [Attempt(ByName, stack, addr)]
  {
    if events != [] {
      UnracedTriesOnce(entry, stack, addr, doh, events[..|events| - 1]);
      EveryRaceHolds(entry, stack, addr, doh, events[..|events| - 1]);
    }
  }

  /**
    With DoH, a name is not dialled before both branches have failed. Without DoH, and for an IP address, the address
    asked for is all that is ever dialled, and at once.
   */
  lemma ByNameComesLast(entry: Entry, stack: seq<Entry>, addr: SocketAddr, doh: bool, events: seq<Event>)
    ensures var r := Run(Start(entry, stack, addr, doh), events);
            if doh && addr.hostname.Domain? then
              forall a :: a in r.attempts && a.who == ByName ==> r.v6.Failed? && r.v4.Failed?
            else
              r.attempts == [Attempt(ByName, stack, addr)]
  {
    if doh && addr.hostname.Domain? {
      EveryRaceHolds(entry, stack, addr, doh, events);
      var r := Run(Start(entry, stack, addr, doh), events);
      forall a | a in r.attempts && a.who == ByName ensures r.v6.Failed? && r.v4.Failed? {
        var i :| 0 <= i < |r.attempts| && r.attempts[i] == a;
        assert AttemptHolds(r, stack, r.attempts[i]);
      }
    } else {
      UnracedTriesOnce(entry, stack, addr, doh, events);
    }
  }

  /** At most one dial wins, and the result is its connection. */
  lemma AtMostOneWins(entry: Entry, stack: seq<Entry>, addr: SocketAddr, doh: bool, events: seq<Event>)
    ensures |Winners(Run(Start(entry, stack, addr, doh), events))| <= 1
    ensures forall conn :: Run(Start(entry, stack, addr, doh), events).result == Some(Ok(conn))
                           <==> Winners(Run(Start(entry, stack, addr, doh), events)) == [conn]
  {
    EveryRaceHolds(entry, stack, addr, doh, events);
    ResultIsWinner(Run(Start(entry, stack, addr, doh), events));
  }

  /**
    Whatever the others have done to theirs, every attempt gets the iterator as it was at the start, for an
    address of its own branch or for the name; no branch and no name is tried twice.
   */
  lemma EveryAttemptStartsFresh(entry: Entry, stack: seq<Entry>, addr: SocketAddr, doh: bool, events: seq<Event>)
    ensures var r := Run(Start(entry, stack, addr, doh), events);
            && AttemptsHold(r, stack)
            && (forall a :: a in r.attempts ==> a.iter == stack && a.addr.port == addr.port)
  {
    EveryRaceHolds(entry, stack, addr, doh, events);
    var r := Run(Start(entry, stack, addr, doh), events);
    forall a | a in r.attempts ensures a.iter == stack && a.addr.port == addr.port {
      var i :| 0 <= i < |r.attempts| && r.attempts[i] == a;
      assert AttemptHolds(r, stack, r.attempts[i]);
    }
  }

  /** The address that the winner was dialled for. */
  function WonFor(r: Race): Option<SocketAddr> {
    var port := r.addr.port;
    if r.v6.Won? && r.foundV6.Some? && r.foundV6.value.Found? then Some(SocketAddr(r.foundV6.value.ip, port))
    else if r.v4.Won? && r.foundV4.Some? && r.foundV4.value.Found? then Some(SocketAddr(r.foundV4.value.ip, port))
    else if r.byName.Some? then Some(r.addr)
    else None
  }

  lemma SoleWinner(r: Race, conn: Conn)
    requires Winners(r) == [conn]
    ensures r.v6 == Won(conn) || (!r.v6.Won? && (r.v4 == Won(conn) || (!r.v4.Won? && r.byName == Some(Won(conn)))))
  {
    assert Winners(r)[0] == conn;
  }

  lemma WinnerGotThere(r: Race, stack: seq<Entry>, raced: bool, conn: Conn)
    requires Holds(r, stack, raced) && r.result == Some(Ok(conn))
    ensures WonFor(r).Some? && Connect(stack + [r.entry], WonFor(r).value) == Some(conn)
  {
    SoleWinner(r, conn);
  }

  /** The winner's connection is what `connect` over the whole stack gives for its address. */
  lemma WinnerIsConnected(entry: Entry, stack: seq<Entry>, addr: SocketAddr, doh: bool, events: seq<Event>)
    ensures var r := Run(Start(entry, stack, addr, doh), events);
            r.result.Some? && r.result.value.Ok? ==>
              WonFor(r).Some? && Connect(stack + [entry], WonFor(r).value) == Some(r.result.value.value)
  {
    EveryRaceHolds(entry, stack, addr, doh, events);
    var r := Run(Start(entry, stack, addr, doh), events);
    if r.result.Some? && r.result.value.Ok? {
      WinnerGotThere(r, stack, Races(doh, addr), r.result.value.value);
    }
  }

  /** Over a configured stack the winner has gone through all the hops in order, and fragments last if that is on. */
  lemma WinnerFollowsPlan(hops: seq<Hop>, fragment: Option<nat>, addr: SocketAddr, doh: bool, events: seq<Event>)
    ensures var all := StackOf(hops, fragment);
            && all != []
            && var r := Run(Start(all[|all| - 1], all[..|all| - 1], addr, doh), events);
            r.result.Some? && r.result.value.Ok? ==>
              && WonFor(r).Some?
              && History(r.result.value.value)
                 == Plan(hops, WonFor(r).value) + if FragmentsAll(fragment) then [StartFragmenting] else []
  {
    BaseStackHasNoFragment(hops);
    var all := StackOf(hops, fragment);
    var r := Run(Start(all[|all| - 1], all[..|all| - 1], addr, doh), events);
    WinnerIsConnected(all[|all| - 1], all[..|all| - 1], addr, doh, events);
    if r.result.Some? && r.result.value.Ok? {
      assert all[..|all| - 1] + [all[|all| - 1]] == all;
      FragmentingComesLast(hops, fragment, WonFor(r).value);
    }
  }

  // ---------------------------------------------------------------------------
  // The warning
  // ---------------------------------------------------------------------------

  /** The first answer to the lookup of a branch. */
  function FirstAnswer(events: seq<Event>, f: Family): Option<Lookup> {
    if events == [] then None
    else
      var before, last := FirstAnswer(events[..|events| - 1], f), events[|events| - 1];
      if before.None? && last.Answered? && last.family == f then Some(last.found) else before
  }

  /** Until a branch has won, no answer is missed. */
  ghost predicate NothingMissed(r: Race, events: seq<Event>) {
    r.v6.Won? || r.v4.Won?
    || (r.foundV6 == FirstAnswer(events, AAAA) && r.foundV4 == FirstAnswer(events, A))
  }

  lemma AnswersAreKept(r: Race, stack: seq<Entry>, events: seq<Event>, e: Event)
    requires Holds(r, stack, true) && NothingMissed(r, events)
    ensures NothingMissed(Step(r, e), events + [e])
  {
    assert (events + [e])[..|events|] == events;
    StepFinds(r, e);
    if r.result.Some? {
      assert Step(r, e) == r;
    }
  }

  lemma {:induction false} EveryAnswerIsKept(entry: Entry, stack: seq<Entry>, addr: SocketAddr, doh: bool,
                                             events: seq<Event>)
    requires Races(doh, addr)
    ensures NothingMissed(Run(Start(entry, stack, addr, doh), events), events)
  {
    if events != [] {
      var before, last := events[..|events| - 1], events[|events| - 1];
      EveryAnswerIsKept(entry, stack, addr, doh, before);
      EveryRaceHolds(entry, stack, addr, doh, before);
      AnswersAreKept(Run(Start(entry, stack, addr, doh), before), stack, before, last);
      assert before + [last] == events;
    }
  }

  /**
    There is a warning exactly when both branches have failed and the answer to one of the lookups was an error:
    not when the names had no address, and not when the addresses could not be dialled.
   */
  lemma WarnedIff(entry: Entry, stack: seq<Entry>, addr: SocketAddr, doh: bool, events: seq<Event>)
    ensures var r := Run(Start(entry, stack, addr, doh), events);
            r.warned <==>
              && doh && addr.hostname.Domain? && r.v6.Failed? && r.v4.Failed?
              && (FirstAnswer(events, AAAA) == Some(LookupFailed) || FirstAnswer(events, A) == Some(LookupFailed))
  {
    EveryRaceHolds(entry, stack, addr, doh, events);
    if Races(doh, addr) {
      EveryAnswerIsKept(entry, stack, addr, doh, events);
    }
  }

  // ---------------------------------------------------------------------------
  // Progress
  // ---------------------------------------------------------------------------

  function DialEffort(d: Dial): nat {
    match d
    case Down(_, iter, _, wraps) => 2 * |iter| + |wraps| + 2
    case Up(_, wraps) => |wraps| + 1
    case _ => 0
  }

  /** The most steps that a branch can still take over a stack of `n` more entries. */
  function BranchEffort(b: Branch, n: nat): nat {
    match b
    case Resolving => 2 * n + 4
    case Dialling(dial) => DialEffort(dial) + 1
    case _ => 0
  }

  function Effort(r: Race, n: nat): nat {
    if r.result.Some? then 0
    else
      var byName := if r.byName.Some? then r.byName.value else Resolving;
      BranchEffort(r.v6, n) + BranchEffort(r.v4, n) + BranchEffort(byName, n)
  }

  lemma DialStepTakesEffort(d: Dial, ok: bool)
    requires d.Down? || d.Up?
    ensures DialEffort(DialStep(d, ok)) < DialEffort(d)
  {
  }

  lemma AnswerTakesEffort(r: Race, stack: seq<Entry>, f: Family, found: Lookup)
    requires r.result.None? && r.iter == Some(stack) && r.byName.None? && BranchOf(r, f).Resolving?
    ensures Effort(Resolved(r, f, found), |stack|) < Effort(r, |stack|)
  {
  }

  lemma BranchTakesEffort(r: Race, stack: seq<Entry>, f: Family, d: Dial)
    requires r.result.None? && r.iter == Some(stack) && r.byName.None? && BranchOf(r, f).Dialling?
    requires DialEffort(d) < DialEffort(BranchOf(r, f).dial)
    ensures Effort(BranchDialled(r, f, d), |stack|) < Effort(r, |stack|)
  {
  }

  lemma NameTakesEffort(r: Race, n: nat, d: Dial)
    requires r.result.None? && r.byName.Some? && r.byName.value.Dialling?
    requires DialEffort(d) < DialEffort(r.byName.value.dial)
    ensures Effort(NameDialled(r, d), n) < Effort(r, n)
  {
  }

  /** Every step that changes anything brings the race nearer to its end. */
  lemma StepTakesEffort(r: Race, stack: seq<Entry>, raced: bool, e: Event)
    requires Holds(r, stack, raced)
    ensures Step(r, e) == r || Effort(Step(r, e), |stack|) < Effort(r, |stack|)
  {
    if r.result.None? {
      match e
      case Answered(f, found) =>
        if r.iter.Some? && BranchOf(r, f).Resolving? {
          AnswerTakesEffort(r, stack, f, found);
        }
      case Advance(ByBranch(f), ok) =>
        if r.iter.Some? && BranchOf(r, f).Dialling? {
          DialStepTakesEffort(BranchOf(r, f).dial, ok);
          BranchTakesEffort(r, stack, f, DialStep(BranchOf(r, f).dial, ok));
        }
      case Advance(ByName, ok) =>
        if r.byName.Some? && r.byName.value.Dialling? {
          DialStepTakesEffort(r.byName.value.dial, ok);
          NameTakesEffort(r, |stack|, DialStep(r.byName.value.dial, ok));
        }
    }
  }

  /** As long as there is no result, something can go on. */
  lemma NeverStuck(r: Race, stack: seq<Entry>, raced: bool) returns (e: Event)
    requires Holds(r, stack, raced) && r.result.None?
    ensures Step(r, e) != r
  {
    if r.byName.Some? {
      e := Advance(ByName, false);
    } else {
      var f := if r.v6.Failed? then A else AAAA;
      e := if BranchOf(r, f).Resolving? then Answered(f, NoRecord) else Advance(ByBranch(f), false);
    }
  }

  /** Each event of the sequence changes something. */
  ghost predicate Effective(start: Race, events: seq<Event>) {
    forall i :: 0 <= i < |events| ==> Run(start, events[..i + 1]) != Run(start, events[..i])
  }

  /** A race over a stack of n + 1 entries is over after at most 6n + 12 steps. */
  lemma {:induction false} EveryRaceEnds(entry: Entry, stack: seq<Entry>, addr: SocketAddr, doh: bool,
                                         events: seq<Event>)
    requires Effective(Start(entry, stack, addr, doh), events)
    ensures |events| + Effort(Run(Start(entry, stack, addr, doh), events), |stack|) <= 6 * |stack| + 12
  {
    if events != [] {
      var start, before := Start(entry, stack, addr, doh), events[..|events| - 1];
      assert events[..|before| + 1] == events;
      forall i | 0 <= i < |before| ensures Run(start, before[..i + 1]) != Run(start, before[..i]) {
        assert before[..i + 1] == events[..i + 1] && before[..i] == events[..i];
      }
      EveryRaceEnds(entry, stack, addr, doh, before);
      EveryRaceHolds(entry, stack, addr, doh, before);
      StepTakesEffort(Run(start, before), stack, Races(doh, addr), events[|events| - 1]);
    }
  }

  // ---------------------------------------------------------------------------
  // Each of the three can win
  // ---------------------------------------------------------------------------

  lemma {:induction false} RunCons(r: Race, e: Event, events: seq<Event>)
    ensures Run(r, [e] + events) == Run(Step(r, e), events)
  {
    var all := [e] + events;
    if events == [] {
      assert all[..0] == [] && all == [e];
      assert Run(r, all) == Step(Run(r, []), e);
    } else {
      assert all[..|all| - 1] == [e] + events[..|events| - 1];
      RunCons(r, e, events[..|events| - 1]);
    }
  }

  lemma OnlyRawIsLast(entry: Entry, addr: SocketAddr)
    ensures Connect([entry], addr).Some? ==> entry.Raw?
  {
    assert [entry][..0] == [];
    assert Connect([], if entry.Proxy? then entry.server else addr).None?;
  }

  /** A dial that heads for a connection does not break off by itself. */
  lemma DialGoesOn(d: Dial, conn: Conn)
    requires (d.Down? || d.Up?) && HeadsFor(d, Some(conn))
    ensures HeadsFor(DialStep(d, true), Some(conn)) && !DialStep(d, true).Broken?
    ensures DialStep(d, true).Connected? ==> DialStep(d, true).conn == conn
  {
    StepHeads(d, true, Some(conn));
    if d.Down? && d.iter == [] {
      assert d.iter + [d.entry] == [d.entry];
      OnlyRawIsLast(d.entry, d.addr);
    }
  }

  lemma {:induction false} BranchArrives(r: Race, f: Family, conn: Conn) returns (events: seq<Event>)
    requires r.result.None? && r.iter.Some? && BranchOf(r, f).Dialling?
    requires (BranchOf(r, f).dial.Down? || BranchOf(r, f).dial.Up?) && HeadsFor(BranchOf(r, f).dial, Some(conn))
    ensures Run(r, events).result == Some(Ok(conn)) && BranchOf(Run(r, events), f) == Won(conn)
    decreases DialEffort(BranchOf(r, f).dial)
  {
    var d := BranchOf(r, f).dial;
    var e := Advance(ByBranch(f), true);
    DialGoesOn(d, conn);
    DialStepTakesEffort(d, true);
    var more: seq<Event> := [];
    if !DialStep(d, true).Connected? {
      more := BranchArrives(Step(r, e), f, conn);
    }
    RunCons(r, e, more);
    events := [e] + more;
  }

  lemma {:induction false} NameArrives(r: Race, conn: Conn) returns (events: seq<Event>)
    requires r.result.None? && r.byName.Some? && r.byName.value.Dialling?
    requires (r.byName.value.dial.Down? || r.byName.value.dial.Up?) && HeadsFor(r.byName.value.dial, Some(conn))
    ensures Run(r, events).result == Some(Ok(conn)) && Run(r, events).byName == Some(Won(conn))
    ensures Run(r, events).warned == r.warned
    decreases DialEffort(r.byName.value.dial)
  {
    var d := r.byName.value.dial;
    var e := Advance(ByName, true);
    DialGoesOn(d, conn);
    DialStepTakesEffort(d, true);
    var more: seq<Event> := [];
    if !DialStep(d, true).Connected? {
      more := NameArrives(Step(r, e), conn);
    }
    RunCons(r, e, more);
    events := [e] + more;
  }

  /** With DoH, for every name and address there is a run in which the branch that finds the address wins with it. */
  lemma BranchCanWin(entry: Entry, stack: seq<Entry>, addr: SocketAddr, f: Family, ip: HostName, conn: Conn)
    returns (events: seq<Event>)
    requires addr.hostname.Domain? && Connect(stack + [entry], SocketAddr(ip, addr.port)) == Some(conn)
    ensures var r := Run(Start(entry, stack, addr, true), events);
            r.result == Some(Ok(conn)) && BranchOf(r, f) == Won(conn)
  {
    var start := Start(entry, stack, addr, true);
    var e := Answered(f, Found(ip));
    var r := Step(start, e);
    assert BranchOf(r, f) == Dialling(Down(entry, stack, SocketAddr(ip, addr.port), []));
    NothingFinished(Some(conn));
    var more := BranchArrives(r, f, conn);
    RunCons(start, e, more);
    events := [e] + more;
  }

  /** After two lookups without an address there is a run in which the name itself wins; an error gives a warning. */
  lemma NameCanWin(entry: Entry, stack: seq<Entry>, addr: SocketAddr, v6: Lookup, v4: Lookup, conn: Conn)
    returns (events: seq<Event>)
    requires addr.hostname.Domain? && !v6.Found? && !v4.Found? && Connect(stack + [entry], addr) == Some(conn)
    ensures var r := Run(Start(entry, stack, addr, true), [Answered(AAAA, v6), Answered(A, v4)] + events);
            r.result == Some(Ok(conn)) && (r.warned <==> v6.LookupFailed? || v4.LookupFailed?)
  {
    var start, a, b := Start(entry, stack, addr, true), Answered(AAAA, v6), Answered(A, v4);
    var r := Step(Step(start, a), b);
    NothingFinished(Some(conn));
    events := NameArrives(r, conn);
    RunCons(Step(start, a), b, events);
    RunCons(start, a, [b] + events);
    assert [a] + ([b] + events) == [a, b] + events;
  }
}
