/** The SOCKS5 client (RFC 1928, and RFC 1929 for user names and passwords). */
module Socks5 {
  import opened Wrappers
  import opened Handshake

  const NO_AUTH: Byte := 0
  const USER_PASSWORD: Byte := 2

  datatype Credentials = Credentials(user: Bytes, password: Bytes)

  /** `Socks5Proxy::new`: missing strings are empty, and the only error is one of more than 255 bytes. */
  function NewCredentials(user: Option<Bytes>, password: Option<Bytes>): (r: Result<Credentials>)
    ensures r.Err? <==> (user.Some? && |user.value| > 255) || (password.Some? && |password.value| > 255)
    ensures r.Ok? ==> r.value.user == OrEmpty(user) && r.value.password == OrEmpty(password)
    ensures r.Ok? ==> |r.value.user| <= 255 && |r.value.password| <= 255
  {
    var u, p := OrEmpty(user), OrEmpty(password);
    if |u| > 255 || |p| > 255 then Err else Ok(Credentials(u, p))
  }

  // ---------------------------------------------------------------------------
  // What the client sends
  // ---------------------------------------------------------------------------

  const GREETING: Bytes := [5, 2, NO_AUTH, USER_PASSWORD]

  function AuthBytes(c: Credentials): Bytes
    requires |c.user| <= 255 && |c.password| <= 255
  {
    [1, |c.user|] + c.user + [|c.password|] + c.password
  }

  /** A domain name is sent behind its length, which must fit a byte. */
  predicate Fits(d: Destination) {
    d.host.Name? ==> |d.host.name| <= 255
  }

  function HostBytes(d: Destination): Bytes
    requires Fits(d)
  {
    match d.host
    case Ip4(v4) => [1] + v4
    case Ip6(v6) => [4] + v6
    case Name(name) => [3, |name|] + name
  }

  function RequestBytes(d: Destination): Bytes
    requires Fits(d)
  {
    [5, 1, 0] + HostBytes(d) + PortBytes(d.port)
  }

  // ---------------------------------------------------------------------------
  // What the client accepts
  // ---------------------------------------------------------------------------

  /** The length of a bound address with its type byte and its port. */
  function BoundLength(s: Bytes): Option<nat> {
    if s == [] then None
    else if s[0] == 1 then Some(7)
    else if s[0] == 4 then Some(19)
    else if s[0] == 3 && |s| >= 2 then (var n: nat := s[1]; Some(n + 4))
    else None
  }

  /** The length of the success reply at the front of `s`, if all of it is there. */
  function ReplyLength(s: Bytes): Option<nat> {
    if |s| < 3 || s[..3] != [5, 0, 0] then None
    else
      var bound := BoundLength(s[3..]);
      if bound.Some? && 3 + bound.value <= |s| then Some(3 + bound.value) else None
  }

  function Sent(t: Talk, data: Bytes): Talk {
    t.(sent := t.sent + data)
  }

  function Skip(t: Talk, n: nat): Talk {
    t.(read := t.read + n)
  }

  /** The method that the server has chosen, if it answered the greeting properly. */
  function Chosen(unread: Bytes): Option<Byte> {
    if |unread| >= 2 && unread[0] == 5 && (unread[1] == NO_AUTH || unread[1] == USER_PASSWORD)
    then Some(unread[1]) else None
  }

  /** Greeting and authentication: where the conversation stands if both succeed. */
  function Authenticated(server: Server, t: Talk, c: Credentials): Option<Talk>
    requires |c.user| <= 255 && |c.password| <= 255
  {
    var greeted := Sent(t, GREETING);
    match Chosen(Unread(server, greeted))
    case None => None
    case Some(m) =>
      if m == NO_AUTH then Some(Skip(greeted, 2))
      else
        var offered := Sent(Skip(greeted, 2), AuthBytes(c));
        if [1, 0] <= Unread(server, offered) then Some(Skip(offered, 2)) else None
  }

  /** The whole handshake, message by message: where the conversation stands if it succeeds. */
  function Connected(server: Server, t: Talk, c: Credentials, d: Destination): Option<Talk>
    requires |c.user| <= 255 && |c.password| <= 255
  {
    match Authenticated(server, t, c)
    case None => None
    case Some(ready) =>
      if !Fits(d) then None
      else
        var asked := Sent(ready, RequestBytes(d));
        match ReplyLength(Unread(server, asked))
        case None => None
        case Some(n) => Some(Skip(asked, n))
  }

  // ---------------------------------------------------------------------------
  // The client, byte by byte
  // ---------------------------------------------------------------------------

  /** The greeting and the answer to it. */
  method Greet(stream: Stream) returns (m: Option<Byte>)
    modifies stream
    ensures var greeted := old(Sent(stream.View(), GREETING));
            && m == Chosen(Unread(stream.server, greeted))
            && (m.Some? ==> stream.View() == Skip(greeted, 2))
  {
    stream.WriteAll([5, 2, 0, 2]);
    var version := stream.ReadU8();
    if version != Some(5) {
      return None;
    }
    m := stream.ReadU8();
    if m != Some(NO_AUTH) && m != Some(USER_PASSWORD) {
      return None;
    }
  }

  /** The user name and the password, and the answer to them. */
  method Authenticate(stream: Stream, c: Credentials) returns (ok: bool)
    requires |c.user| <= 255 && |c.password| <= 255
    modifies stream
    ensures var offered := old(Sent(stream.View(), AuthBytes(c)));
            && (ok <==> [1, 0] <= Unread(stream.server, offered))
            && (ok ==> stream.View() == Skip(offered, 2))
  {
    ghost var before := stream.sent;
    stream.WriteAll([1, |c.user|]);
    stream.WriteAll(c.user);
    stream.WriteAll([|c.password|]);
    stream.WriteAll(c.password);
    assert stream.sent == before + AuthBytes(c);
    var version := stream.ReadU8();
    if version != Some(1) {
      return false;
    }
    var status := stream.ReadU8();
    return status == Some(0);
  }

  /** The request, with its fields written one after the other. */
  method Ask(stream: Stream, d: Destination) returns (ok: bool)
    modifies stream
    ensures ok <==> Fits(d)
    ensures ok ==> stream.View() == old(Sent(stream.View(), RequestBytes(d)))
  {
    ghost var before := stream.sent;
    stream.WriteAll([5, 1, 0]);
    match d.host {
      case Ip4(v4) =>
        stream.WriteAll([1]);
        stream.WriteAll(v4);
      case Ip6(v6) =>
        stream.WriteAll([4]);
        stream.WriteAll(v6);
      case Name(name) =>
        if |name| > 255 {
          return false;
        }
        stream.WriteAll([3, |name|]);
        stream.WriteAll(name);
    }
    assert stream.sent == before + [5, 1, 0] + HostBytes(d);
    stream.WriteAll(PortBytes(d.port));
    assert stream.sent == before + RequestBytes(d);
    return true;
  }

  /** The bound address of the reply is read and dropped. */
  method SkipBound(stream: Stream) returns (ok: bool)
    modifies stream
    ensures var unread := old(Unread(stream.server, stream.View()));
            && (ok <==> BoundLength(unread).Some? && BoundLength(unread).value <= |unread|)
            && (ok ==> stream.View() == old(Skip(stream.View(), BoundLength(unread).value)))
  {
    var kind := stream.ReadU8();
    if kind.None? {
      return false;
    }
    if kind.value == 1 {
      ok := stream.ReadExact(4);
    } else if kind.value == 3 {
      var n := stream.ReadU8();
      if n.None? {
        return false;
      }
      ok := stream.ReadExact(n.value);
    } else if kind.value == 4 {
      ok := stream.ReadExact(16);
    } else {
      return false;
    }
    if ok {
      ok := stream.ReadExact(2);
    }
  }

  method ReadReply(stream: Stream) returns (ok: bool)
    modifies stream
    ensures var unread := old(Unread(stream.server, stream.View()));
            && (ok <==> ReplyLength(unread).Some?)
            && (ok ==> stream.View() == old(Skip(stream.View(), ReplyLength(unread).value)))
  {
    ghost var unread := Unread(stream.server, stream.View());
    assert |unread| >= 3 ==> (unread[..3] == [5, 0, 0] <==> unread[0] == 5 && unread[1] == 0 && unread[2] == 0);
    var version := stream.ReadU8();
    if version != Some(5) {
      return false;
    }
    var status := stream.ReadU8();
    if status != Some(0) {
      return false;
    }
    var reserved := stream.ReadU8();
    if reserved != Some(0) {
      return false;
    }
    assert unread[..3] == [5, 0, 0] && Unread(stream.server, stream.View()) == unread[3..];
    ok := SkipBound(stream);
  }

  /** `connect`, from the connection to the proxy's server on. */
  method Connect(stream: Stream, c: Credentials, d: Destination) returns (ok: bool)
    requires |c.user| <= 255 && |c.password| <= 255
    modifies stream
    ensures var end := old(Connected(stream.server, stream.View(), c, d));
            (ok <==> end.Some?) && (ok ==> stream.View() == end.value)
  {
    var m := Greet(stream);
    if m.None? {
      return false;
    }
    if m.value == USER_PASSWORD {
      ok := Authenticate(stream, c);
      if !ok {
        return;
      }
    }
    ok := Ask(stream, d);
    if !ok {
      return;
    }
    ok := ReadReply(stream);
  }
}
