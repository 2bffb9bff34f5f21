/** A reference SOCKS4A server, and which requests it reads as they were meant. */
module Socks4Server {
  import opened Wrappers
  import opened Text
  import opened Addr
  import opened Handshake
  import opened Socks4

  /** What a server makes of a request: the port, the user id, the address, and the host text if there is one. */
  datatype Request = Request(port: Port, userId: Bytes, ip: V4, host: Option<Bytes>, rest: Bytes)

  /** The address is 0.0.0.x with x not 0, and so a host text follows. */
  predicate AnnouncesHost(ip: V4) {
    ip[0] == 0 && ip[1] == 0 && ip[2] == 0 && ip[3] != 0
  }

  /** Reads NUL-terminated fields. */
  function ReadRequest(s: Bytes): Option<Request> {
    if |s| < 8 || s[..2] != [4, 1] then None
    else
      var port, ip: V4 := PortOf(s[2..4]), s[4..8];
      match SplitOnce(s[8..], 0)
      case None => None
      case Some((userId, tail)) =>
        if !AnnouncesHost(ip) then Some(Request(port, userId, ip, None, tail))
        else
          match SplitOnce(tail, 0)
          case None => None
          case Some((host, rest)) => Some(Request(port, userId, ip, Some(host), rest))
  }

  /** A field that holds a NUL is cut short. */
  lemma CutsAtFirstNul(field: Bytes, more: Bytes)
    requires 0 in field
    ensures var cut := SplitOnce(field + [0] + more, 0); cut.Some? && cut.value.0 != field
  {
    SplitOnceParts(field + [0] + more, 0);
  }

  /** The fixed part and the user id of a request, in front of anything. */
  lemma RequestFront(auth: Option<Bytes>, port: Port, ip: V4, tail: Bytes)
    requires 0 !in OrEmpty(auth)
    ensures var s := [4, 1] + PortBytes(port) + ip + OrEmpty(auth) + [0] + tail;
            && |s| >= 8 && s[..2] == [4, 1] && PortOf(s[2..4]) == port && s[4..8] == ip
            && SplitOnce(s[8..], 0) == Some((OrEmpty(auth), tail))
  {
    var s := [4, 1] + PortBytes(port) + ip + OrEmpty(auth) + [0] + tail;
    assert s[2..4] == PortBytes(port) && s[4..8] == ip && s[8..] == OrEmpty(auth) + [0] + tail;
    PortRoundTrip(port);
    SplitOnceAt(OrEmpty(auth), 0, tail);
  }

  lemma RequestWithoutHost(auth: Option<Bytes>, port: Port, ip: V4, more: Bytes)
    requires 0 !in OrEmpty(auth)
    ensures var r := ReadRequest(RequestBytes(auth, port, Fields(ip, None)) + more);
            if AnnouncesHost(ip) then r.Some? ==> r.value.host.Some?
            else r == Some(Request(port, OrEmpty(auth), ip, None, more))
  {
    var front := [4, 1] + PortBytes(port) + ip + OrEmpty(auth) + [0];
    assert RequestBytes(auth, port, Fields(ip, None)) + more == front + more;
    RequestFront(auth, port, ip, more);
  }

  lemma RequestWithHost(auth: Option<Bytes>, port: Port, ip: V4, host: Bytes, more: Bytes)
    requires 0 !in OrEmpty(auth) && AnnouncesHost(ip)
    ensures var r := ReadRequest(RequestBytes(auth, port, Fields(ip, Some(host))) + more);
            if 0 in host then r.Some? ==> r.value.host != Some(host)
            else r == Some(Request(port, OrEmpty(auth), ip, Some(host), more))
  {
    var front, tail := [4, 1] + PortBytes(port) + ip + OrEmpty(auth) + [0], host + [0] + more;
    assert RequestBytes(auth, port, Fields(ip, Some(host))) + more == front + tail;
    RequestFront(auth, port, ip, tail);
    if 0 in host {
      CutsAtFirstNul(host, more);
    } else {
      SplitOnceAt(host, 0, more);
    }
  }

  /** The request names the destination: the address itself, or a host text that an address announces. */
  predicate Names(r: Request, d: Destination, text: V6 -> Bytes) {
    && r.port == d.port
    && match d.host
       case Ip4(v4) => r.ip == v4 && r.host.None?
       case Ip6(v6) => AnnouncesHost(r.ip) && r.host == Some(text(v6))
       case Name(name) => AnnouncesHost(r.ip) && r.host == Some(name)
  }

  /** The server has read user id and destination as they were meant, and nothing more. */
  predicate ReadAsMeant(s: Bytes, userId: Bytes, d: Destination, text: V6 -> Bytes, more: Bytes) {
    var r := ReadRequest(s);
    r.Some? && r.value.userId == userId && Names(r.value, d, text) && r.value.rest == more
  }

  /** The only destinations that cannot be named: IPv4 addresses that announce a host, and names with a NUL. */
  predicate Nameable(d: Destination) {
    match d.host
    case Ip4(v4) => !AnnouncesHost(v4)
    case Ip6(_) => true
    case Name(name) => 0 !in name
  }

  /**
    Whatever follows it, the server reads a request as it was meant - the same port, user id and destination, and
    nothing more - exactly when the destination can be named. Those are the ones that the client's checks let pass.
   */
  lemma RequestIsUnambiguousIff(auth: Option<Bytes>, d: Destination, text: V6 -> Bytes, more: Bytes)
    requires 0 !in OrEmpty(auth)
    requires d.host.Ip6? ==> 0 !in text(d.host.v6)
    ensures ReadAsMeant(RequestFor(auth, d, text) + more, OrEmpty(auth), d, text, more) <==> Nameable(d)
    ensures Sendable(d) <==> Nameable(d)
  {
    var f := FieldsFor(d, text);
    match f.host
    case None => RequestWithoutHost(auth, d.port, f.ip, more);
    case Some(host) => RequestWithHost(auth, d.port, f.ip, host, more);
  }

  /** The server's side: it answers a complete request with two bytes and six more, and then the tunnel follows. */
  datatype Policy = Policy(version: Byte, code: Byte, bound: Bytes, tunnel: Bytes)

  function ReplyOf(p: Policy): Bytes {
    [p.version, p.code] + p.bound + p.tunnel
  }

  function ServerOf(p: Policy): Server {
    (s: Bytes) => if ReadRequest(s).Some? then ReplyOf(p) else []
  }

  /**
    Against the reference server the handshake succeeds exactly when the destination can be named and the server
    grants the request (version 0, code 90). The server has then read it as it was meant, the client has read
    eight bytes, and the tunnel is unread.
   */
  lemma HandshakeComposes(p: Policy, auth: Option<Bytes>, d: Destination, text: V6 -> Bytes)
    requires |p.bound| == 6
    requires 0 !in OrEmpty(auth)
    requires d.host.Ip6? ==> 0 !in text(d.host.v6)
    ensures var end := Connected(ServerOf(p), Talk([], 0), auth, d, text);
            && (end.Some? <==> Nameable(d) && p.version == 0 && p.code == 90)
            && (end.Some? ==>
                  && ReadAsMeant(end.value.sent, OrEmpty(auth), d, text, [])
                  && end.value.read == 8 && Unread(ServerOf(p), end.value) == p.tunnel)
  {
    RequestIsAnswered(p, auth, d, text);
    if Nameable(d) {
      ReplyIsJudged(p);
      var asked := Talk(RequestFor(auth, d, text), 0);
      assert Unread(ServerOf(p), asked) == ReplyOf(p);
      assert Talk([], 0).(sent := [] + asked.sent) == asked;
    }
  }

  lemma RequestIsAnswered(p: Policy, auth: Option<Bytes>, d: Destination, text: V6 -> Bytes)
    requires 0 !in OrEmpty(auth)
    requires d.host.Ip6? ==> 0 !in text(d.host.v6)
    ensures var request := RequestFor(auth, d, text);
            && (Sendable(d) <==> Nameable(d)) && [] + request == request
            && (Nameable(d) ==>
                  ReadAsMeant(request, OrEmpty(auth), d, text, []) && ServerOf(p)(request) == ReplyOf(p))
  {
    var request := RequestFor(auth, d, text);
    RequestIsUnambiguousIff(auth, d, text, []);
    assert request + [] == request;
  }

  lemma ReplyIsJudged(p: Policy)
    requires |p.bound| == 6
    ensures [0, 90] <= ReplyOf(p) <==> p.version == 0 && p.code == 90
    ensures |ReplyOf(p)| >= 8 && ReplyOf(p)[8..] == p.tunnel && ReplyOf(p)[0..] == ReplyOf(p)
  {
    assert ReplyOf(p)[..2] == [p.version, p.code];
    if [0, 90] <= ReplyOf(p) {
      assert ReplyOf(p)[0] == [0, 90][0] && ReplyOf(p)[1] == [0, 90][1];
    }
  }

  // ---------------------------------------------------------------------------
  // What the user id says
  // ---------------------------------------------------------------------------

  /** A server that takes the user id apart at its first colon. */
  function ReadUserId(auth: Option<Bytes>): (Bytes, Option<Bytes>) {
    match SplitOnce(OrEmpty(auth), ':' as Byte)
    case None => (OrEmpty(auth), None)
    case Some((user, password)) => (user, Some(password))
  }

  /** The server finds user and password again exactly when the user holds no colon. */
  lemma UserIdIsReadIff(user: Bytes, password: Option<Bytes>)
    requires NewAuth(Some(user), password).Ok?
    ensures ReadUserId(NewAuth(Some(user), password).value) == (user, password) <==> ':' as Byte !in user
  {
    var colon: Byte := ':' as Byte;
    var id := OrEmpty(NewAuth(Some(user), password).value);
    SplitOnceParts(id, colon);
    match password
    case None =>
      assert id == user;
    case Some(p) =>
      assert id == user + [colon] + p;
      if colon !in user {
        SplitOnceAt(user, colon, p);
      }
  }
}
