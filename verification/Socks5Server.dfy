/** A reference SOCKS5 server, and what comes of the client talking to it. */
module Socks5Server {
  import opened Wrappers
  import opened Handshake
  import opened Socks5

  // ---------------------------------------------------------------------------
  // Reading the client's messages (sections 3 and 4 of RFC 1928, section 2 of RFC 1929)
  // ---------------------------------------------------------------------------

  datatype Message<T> = Incomplete | Complete(value: T, rest: Bytes)

  function ReadGreeting(s: Bytes): Message<Bytes> {
    if |s| < 2 || s[0] != 5 then Incomplete
    else
      var n: nat := s[1];
      if |s| < 2 + n then Incomplete else Complete(s[2..2 + n], s[2 + n..])
  }

  function ReadCredentials(s: Bytes): Message<Credentials> {
    if |s| < 2 || s[0] != 1 then Incomplete
    else
      var n: nat := s[1];
      if |s| < 3 + n then Incomplete
      else
        var k: nat := s[2 + n];
        if |s| < 3 + n + k then Incomplete
        else Complete(Credentials(s[2..2 + n], s[3 + n..3 + n + k]), s[3 + n + k..])
  }

  /** An address type byte, an address of that type, and a port. */
  function ReadDestination(s: Bytes): Message<Destination> {
    if |s| >= 7 && s[0] == 1 then
      Complete(Destination(Ip4(s[1..5]), PortOf(s[5..7])), s[7..])
    else if |s| >= 19 && s[0] == 4 then
      Complete(Destination(Ip6(s[1..17]), PortOf(s[17..19])), s[19..])
    else if |s| >= 2 && s[0] == 3 then
      var k: nat := s[1];
      var n := 2 + k;
      if |s| < n + 2 then Incomplete
      else Complete(Destination(Name(s[2..n]), PortOf(s[n..n + 2])), s[n + 2..])
    else Incomplete
  }

  function ReadRequest(s: Bytes): Message<Destination> {
    if |s| < 3 || s[..3] != [5, 1, 0] then Incomplete else ReadDestination(s[3..])
  }

  // ---------------------------------------------------------------------------
  // The server
  // ---------------------------------------------------------------------------

  /**
    The server's side: the method it chooses, the status it gives to credentials, the version, code and reserved byte
    of its reply, the bound address it reports, and what the destination sends through the tunnel at once.
   */
  datatype Policy = Policy(choice: Byte, judges: Credentials -> Byte, verdict: Verdict, bound: Bound, tunnel: Bytes)

  type Verdict = b: Bytes | |b| == 3 witness [5, 0, 0]

  /** A bound address that can be reported. */
  type Bound = d: Destination | Fits(d) witness Destination(Ip4([0, 0, 0, 0]), 0)

  function ServerOf(p: Policy): Server {
    (s: Bytes) => Output(p, s)
  }

  /** The method is one of the two: no authentication (0), or user name and password (2). */
  predicate Offered(p: Policy) {
    p.choice == 0 || p.choice == 2
  }

  /** A reply (section 6 of RFC 1928). Refusals have the same form, with another code than 0. */
  function ReplyBytes(verdict: Verdict, bound: Bound): Bytes {
    verdict + HostBytes(bound) + PortBytes(bound.port)
  }

  function Answer(p: Policy, s: Bytes): Bytes {
    match ReadRequest(s)
    case Incomplete => []
    case Complete(_, _) => ReplyBytes(p.verdict, p.bound) + p.tunnel
  }

  function AnswerAfterAuth(p: Policy, s: Bytes): Bytes {
    match ReadCredentials(s)
    case Incomplete => []
    case Complete(c, rest) => [1, p.judges(c)] + if p.judges(c) == 0 then Answer(p, rest) else []
  }

  /** All that the server has sent once it has received `s`. */
  function Output(p: Policy, s: Bytes): Bytes {
    match ReadGreeting(s)
    case Incomplete => []
    case Complete(methods, rest) =>
      if p.choice !in methods then [5, 0xff]
      else [5, p.choice] + if p.choice == 2 then AnswerAfterAuth(p, rest) else Answer(p, rest)
  }

  /** What the server has learnt: the credentials, if it asked for them, and the destination. */
  datatype Learnt = Learnt(credentials: Option<Credentials>, destination: Destination, rest: Bytes)

  function Learn(p: Policy, s: Bytes): Option<Learnt> {
    match ReadGreeting(s)
    case Incomplete => None
    case Complete(_, rest) =>
      if p.choice == 2 then
        (match ReadCredentials(rest)
         case Incomplete => None
         case Complete(c, rest') =>
           match ReadRequest(rest')
           case Incomplete => None
           case Complete(d, after) => Some(Learnt(Some(c), d, after)))
      else
        match ReadRequest(rest)
        case Incomplete => None
        case Complete(d, after) => Some(Learnt(None, d, after))
  }

  // ---------------------------------------------------------------------------
  // Each message is read back
  // ---------------------------------------------------------------------------

  lemma GreetingIsRead(more: Bytes)
    ensures ReadGreeting(GREETING + more) == Complete([0, 2], more)
  {
    var s := GREETING + more;
    assert s[2..4] == [0, 2] && s[4..] == more;
  }

  lemma CredentialsAreRead(c: Credentials, more: Bytes)
    requires |c.user| <= 255 && |c.password| <= 255
    ensures ReadCredentials(AuthBytes(c) + more) == Complete(c, more)
  {
    var s := AuthBytes(c) + more;
    var n := |c.user|;
    assert s[2..2 + n] == c.user;
    var k := |c.password|;
    assert s[2 + n] == k && s[3 + n..3 + n + k] == c.password && s[3 + n + k..] == more;
  }

  lemma DestinationIsRead(d: Destination, more: Bytes)
    requires Fits(d)
    ensures ReadDestination(HostBytes(d) + PortBytes(d.port) + more) == Complete(d, more)
  {
    var s := HostBytes(d) + PortBytes(d.port) + more;
    PortRoundTrip(d.port);
    match d.host
    case Ip4(v4) =>
      assert s[1..5] == v4 && s[5..7] == PortBytes(d.port) && s[7..] == more;
    case Ip6(v6) =>
      assert s[1..17] == v6 && s[17..19] == PortBytes(d.port) && s[19..] == more;
    case Name(name) =>
      var n := 2 + |name|;
      assert s[2..n] == name && s[n..n + 2] == PortBytes(d.port) && s[n + 2..] == more;
  }

  lemma RequestIsRead(d: Destination, more: Bytes)
    requires Fits(d)
    ensures ReadRequest(RequestBytes(d) + more) == Complete(d, more)
  {
    var s := RequestBytes(d) + more;
    assert s[..3] == [5, 1, 0] && s[3..] == HostBytes(d) + PortBytes(d.port) + more;
    DestinationIsRead(d, more);
  }

  /**
    The client takes a reply for a success exactly when its first three bytes are 5, 0 and 0. It then reads exactly the
    reply, whatever the type of the bound address, and nothing of the tunnel.
   */
  lemma ReplyIsMeasured(verdict: Verdict, bound: Bound, tunnel: Bytes)
    ensures ReplyLength(ReplyBytes(verdict, bound) + tunnel)
         == if verdict == [5, 0, 0] then Some(|ReplyBytes(verdict, bound)|) else None
  {
    var s := ReplyBytes(verdict, bound) + tunnel;
    assert s[..3] == verdict && s[3..] == HostBytes(bound) + PortBytes(bound.port) + tunnel;
  }

  // ---------------------------------------------------------------------------
  // The conversation
  // ---------------------------------------------------------------------------

  function AuthPart(p: Policy, c: Credentials): Bytes
    requires |c.user| <= 255 && |c.password| <= 255
  {
    if p.choice == 2 then AuthBytes(c) else []
  }

  function AuthReplies(p: Policy): Bytes {
    [5, p.choice] + if p.choice == 2 then [1, 0] else []
  }

  /** After the greeting alone, the server has answered it and nothing else. */
  lemma AfterGreeting(p: Policy)
    ensures Output(p, GREETING) == if Offered(p) then [5, p.choice] else [5, 0xff]
  {
    GreetingIsRead([]);
    assert GREETING == GREETING + [];
  }

  lemma AfterCredentials(p: Policy, c: Credentials)
    requires p.choice == 2 && |c.user| <= 255 && |c.password| <= 255
    ensures Output(p, GREETING + AuthBytes(c)) == [5, 2, 1, p.judges(c)]
  {
    GreetingIsRead(AuthBytes(c));
    CredentialsAreRead(c, []);
    assert AuthBytes(c) + [] == AuthBytes(c);
  }

  lemma AfterOpenRequest(p: Policy, d: Destination)
    requires Fits(d) && p.choice == 0
    ensures var s := GREETING + RequestBytes(d);
            && Output(p, s) == [5, 0] + (ReplyBytes(p.verdict, p.bound) + p.tunnel)
            && Learn(p, s) == Some(Learnt(None, d, []))
  {
    RequestIsRead(d, []);
    assert RequestBytes(d) + [] == RequestBytes(d);
    GreetingIsRead(RequestBytes(d));
  }

  lemma AfterPasswordRequest(p: Policy, c: Credentials, d: Destination)
    requires Fits(d) && p.choice == 2 && p.judges(c) == 0 && |c.user| <= 255 && |c.password| <= 255
    ensures var s := GREETING + (AuthBytes(c) + RequestBytes(d));
            && Output(p, s) == [5, 2] + ([1, 0] + (ReplyBytes(p.verdict, p.bound) + p.tunnel))
            && Learn(p, s) == Some(Learnt(Some(c), d, []))
  {
    RequestIsRead(d, []);
    assert RequestBytes(d) + [] == RequestBytes(d);
    CredentialsAreRead(c, RequestBytes(d));
    GreetingIsRead(AuthBytes(c) + RequestBytes(d));
  }

  lemma AfterRequest(p: Policy, c: Credentials, d: Destination)
    requires Fits(d) && Offered(p) && |c.user| <= 255 && |c.password| <= 255
    requires p.choice == 2 ==> p.judges(c) == 0
    ensures var s := GREETING + AuthPart(p, c) + RequestBytes(d);
            && Output(p, s) == AuthReplies(p) + (ReplyBytes(p.verdict, p.bound) + p.tunnel)
            && Learn(p, s) == Some(Learnt(if p.choice == 2 then Some(c) else None, d, []))
  {
    var tail := ReplyBytes(p.verdict, p.bound) + p.tunnel;
    if p.choice == 2 {
      AfterPasswordRequest(p, c, d);
      Reassociate(GREETING, AuthBytes(c), RequestBytes(d));
      Reassociate([5, 2], [1, 0], tail);
    } else {
      AfterOpenRequest(p, d);
      Reassociate(GREETING, [], RequestBytes(d));
      Reassociate([5, 0], [], tail);
    }
  }

  lemma Reassociate(a: Bytes, b: Bytes, c: Bytes)
    ensures a + b + c == a + (b + c)
    ensures a + [] == a && [] + c == c
  {
  }

  /** Up to the request, the client gets through exactly when its method is offered and its credentials are accepted. */
  lemma AuthComposes(p: Policy, c: Credentials)
    requires |c.user| <= 255 && |c.password| <= 255
    ensures Authenticated(ServerOf(p), Talk([], 0), c)
         == if Offered(p) && (p.choice == 2 ==> p.judges(c) == 0)
            then Some(Talk(GREETING + AuthPart(p, c), |AuthReplies(p)|)) else None
  {
    GreetingIsAnswered(p);
    if p.choice == 2 {
      PasswordIsJudged(p, c);
    } else {
      Reassociate(GREETING, [], []);
      Reassociate([5, p.choice], [], []);
    }
  }

  lemma GreetingIsAnswered(p: Policy)
    ensures Sent(Talk([], 0), GREETING) == Talk(GREETING, 0)
    ensures Unread(ServerOf(p), Talk(GREETING, 0)) == if Offered(p) then [5, p.choice] else [5, 0xff]
    ensures Chosen(Unread(ServerOf(p), Talk(GREETING, 0))) == if Offered(p) then Some(p.choice) else None
  {
    AfterGreeting(p);
    Reassociate([], [], GREETING);
    UnreadTail(ServerOf(p), Talk(GREETING, 0), [], Output(p, GREETING));
  }

  lemma PasswordIsJudged(p: Policy, c: Credentials)
    requires p.choice == 2 && |c.user| <= 255 && |c.password| <= 255
    ensures Unread(ServerOf(p), Talk(GREETING + AuthBytes(c), 2)) == [1, p.judges(c)]
  {
    AfterCredentials(p, c);
    var status := [1, p.judges(c)];
    UnreadTail(ServerOf(p), Talk(GREETING + AuthBytes(c), 2), [5, 2], status);
  }

  /** The server knows what the client meant, with nothing left over, and the client has read up to the tunnel. */
  predicate Understood(p: Policy, c: Credentials, d: Destination, end: Talk) {
    && Learn(p, end.sent) == Some(Learnt(if p.choice == 2 then Some(c) else None, d, []))
    && Unread(ServerOf(p), end) == p.tunnel
  }

  /**
    Against the reference server the handshake succeeds exactly when the server chooses one of the two methods,
    gives the credentials the status 0 if it asks for them, the name fits its length byte, and the reply is a
    success (version 5, code 0, reserved 0). Then the server has learnt the credentials and the destination exactly,
    nothing it received is left over, and the client has read everything up to the first byte of the tunnel.
   */
  lemma HandshakeComposes(p: Policy, c: Credentials, d: Destination)
    requires |c.user| <= 255 && |c.password| <= 255
    ensures var end := Connected(ServerOf(p), Talk([], 0), c, d);
            && (end.Some? <==>
                  && Offered(p) && (p.choice == 2 ==> p.judges(c) == 0)
                  && (d.host.Name? ==> |d.host.name| <= 255)
                  && p.verdict == [5, 0, 0])
            && (end.Some? ==> Understood(p, c, d, end.value))
  {
    AuthComposes(p, c);
    if Offered(p) && (p.choice == 2 ==> p.judges(c) == 0) && Fits(d) {
      AskComposes(p, c, d);
    }
  }

  lemma AskComposes(p: Policy, c: Credentials, d: Destination)
    requires Fits(d) && Offered(p) && |c.user| <= 255 && |c.password| <= 255
    requires p.choice == 2 ==> p.judges(c) == 0
    ensures var asked := Sent(Talk(GREETING + AuthPart(p, c), |AuthReplies(p)|), RequestBytes(d));
            var reply := ReplyBytes(p.verdict, p.bound);
            && ReplyLength(Unread(ServerOf(p), asked)) == (if p.verdict == [5, 0, 0] then Some(|reply|) else None)
            && Understood(p, c, d, Skip(asked, |reply|))
  {
    AfterRequest(p, c, d);
    var reply := ReplyBytes(p.verdict, p.bound);
    var asked := Sent(Talk(GREETING + AuthPart(p, c), |AuthReplies(p)|), RequestBytes(d));
    UnreadTail(ServerOf(p), asked, AuthReplies(p), reply + p.tunnel);
    ReplyIsMeasured(p.verdict, p.bound, p.tunnel);
    Reassociate(AuthReplies(p), reply, p.tunnel);
    UnreadTail(ServerOf(p), Skip(asked, |reply|), AuthReplies(p) + reply, p.tunnel);
  }

  lemma UnreadTail(server: Server, t: Talk, seen: Bytes, tail: Bytes)
    requires server(t.sent) == seen + tail && t.read == |seen|
    ensures Unread(server, t) == tail
  {
  }

  // ---------------------------------------------------------------------------
  // Any server
  // ---------------------------------------------------------------------------

  /** The server has granted everything: a method, the credentials if it wanted any, and the request. */
  predicate Granted(server: Server, t: Talk, c: Credentials, d: Destination)
    requires |c.user| <= 255 && |c.password| <= 255 && Fits(d)
  {
    var greeted := Talk(t.sent + [5, 2, 0, 2], t.read);
    var choice := Unread(server, greeted);
    && |choice| >= 2 && choice[0] == 5 && (choice[1] == 0 || choice[1] == 2)
    && var offered := Talk(greeted.sent + AuthBytes(c), t.read + 2);
    && (choice[1] == 2 ==> [1, 0] <= Unread(server, offered))
    && var ready := if choice[1] == 2 then Talk(offered.sent, t.read + 4) else Talk(greeted.sent, t.read + 2);
    var reply := Unread(server, Talk(ready.sent + RequestBytes(d), ready.read));
    [5, 0, 0] <= reply && |reply| > 3 && (reply[3] == 1 || reply[3] == 3 || reply[3] == 4)
  }

  /** Whatever the server is, the client reports a tunnel only if all of this was granted. */
  lemma SuccessIsGranted(server: Server, t: Talk, c: Credentials, d: Destination)
    requires |c.user| <= 255 && |c.password| <= 255
    ensures Connected(server, t, c, d).Some? ==> Fits(d) && Granted(server, t, c, d)
  {
    if Connected(server, t, c, d).Some? {
      var ready := Authenticated(server, t, c).value;
      var reply := Unread(server, Sent(ready, RequestBytes(d)));
      assert reply[..3] == [5, 0, 0];
    }
  }
}
