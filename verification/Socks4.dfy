/** The SOCKS4 and SOCKS4A client. */
module Socks4 {
  import opened Wrappers
  import opened Text
  import opened Addr
  import opened Handshake

  /** What the user id is made of. */
  function Joined(user: Option<Bytes>, password: Option<Bytes>): Bytes {
    OrEmpty(user) + if password.Some? then [':' as Byte] + password.value else []
  }

  /**
    `Socks4Proxy::new`: there is one user id, and none if neither a user nor a password is configured. Only a
    NUL byte in one of them is an error.
   */
  function NewAuth(user: Option<Bytes>, password: Option<Bytes>): (r: Result<Option<Bytes>>)
    ensures r.Err? <==> (user.Some? && 0 in user.value) || (password.Some? && 0 in password.value)
    ensures r.Ok? ==> 0 !in OrEmpty(r.value) && OrEmpty(r.value) == Joined(user, password)
    ensures r == Ok(None) <==> (user == None || user == Some([])) && password.None?
    ensures r.Ok? ==> r.value != Some([])
  {
    var auth := Joined(user, password);
    if 0 in auth then Err else Ok(if auth == [] then None else Some(auth))
  }

  /** Addresses 0.0.0.x with x not 0 announce a host name (the SOCKS 4A extension). */
  predicate IsMarker(v4: V4) {
    v4[..3] == [0, 0, 0] && v4[3] != 0
  }

  /** The address and the host text of a request. */
  datatype Fields = Fields(ip: V4, host: Option<Bytes>)

  /** What is put into the request for a destination, if nothing is checked. An IPv6 address goes as its text. */
  function FieldsFor(d: Destination, text: V6 -> Bytes): Fields {
    match d.host
    case Ip4(v4) => Fields(v4, None)
    case Ip6(v6) => Fields([0, 0, 0, 1], Some(text(v6)))
    case Name(name) => Fields([0, 0, 0, 1], Some(name))
  }

  /** The client's checks. */
  predicate Sendable(d: Destination) {
    match d.host
    case Ip4(v4) => !IsMarker(v4)
    case Ip6(_) => true
    case Name(name) => 0 !in name
  }

  function RequestBytes(auth: Option<Bytes>, port: Port, f: Fields): Bytes {
    [4, 1] + PortBytes(port) + f.ip + OrEmpty(auth) + [0] + if f.host.Some? then f.host.value + [0] else []
  }

  /** What the client sends for a destination, if nothing is checked. */
  function RequestFor(auth: Option<Bytes>, d: Destination, text: V6 -> Bytes): Bytes {
    RequestBytes(auth, d.port, FieldsFor(d, text))
  }

  /** The whole handshake: where the conversation stands if it succeeds. */
  function Connected(server: Server, t: Talk, auth: Option<Bytes>, d: Destination, text: V6 -> Bytes): Option<Talk> {
    if !Sendable(d) then None
    else
      var asked := t.(sent := t.sent + RequestFor(auth, d, text));
      var unread := Unread(server, asked);
      if [0, 90] <= unread && |unread| >= 8 then Some(asked.(read := asked.read + 8)) else None
  }

  /** The checks and the choice of fields at the start of `connect`. */
  method Choose(d: Destination, text: V6 -> Bytes) returns (f: Option<Fields>)
    ensures f == if Sendable(d) then Some(FieldsFor(d, text)) else None
  {
    var ip: V4 := [0, 0, 0, 1];
    var host := None;
    match d.host {
      case Ip4(v4) =>
        if v4[0] == 0 && v4[1] == 0 && v4[2] == 0 && v4[3] != 0 {
          return None;
        }
        ip := v4;
      case Ip6(v6) =>
        host := Some(text(v6));
      case Name(name) =>
        if 0 in name {
          return None;
        }
        host := Some(name);
    }
    return Some(Fields(ip, host));
  }

  /** The request, with its fields written one after the other. */
  method Ask(stream: Stream, auth: Option<Bytes>, port: Port, f: Fields)
    modifies stream
    ensures stream.View() == old(Talk(stream.sent + RequestBytes(auth, port, f), stream.read))
  {
    ghost var before := stream.sent;
    stream.WriteAll([4, 1]);
    stream.WriteAll(PortBytes(port));
    stream.WriteAll(f.ip);
    if auth.Some? {
      stream.WriteAll(auth.value);
    }
    stream.WriteAll([0]);
    assert stream.sent == before + ([4, 1] + PortBytes(port) + f.ip + OrEmpty(auth) + [0]);
    if f.host.Some? {
      stream.WriteAll(f.host.value);
      stream.WriteAll([0]);
    }
    assert stream.sent == before + RequestBytes(auth, port, f);
  }

  /** `connect`, with the connection to the proxy's server at hand. */
  method Connect(stream: Stream, auth: Option<Bytes>, d: Destination, text: V6 -> Bytes) returns (ok: bool)
    modifies stream
    ensures var end := old(Connected(stream.server, stream.View(), auth, d, text));
            (ok <==> end.Some?) && (ok ==> stream.View() == end.value)
  {
    var f := Choose(d, text);
    if f.None? {
      return false;
    }
    Ask(stream, auth, d.port, f.value);
    var version := stream.ReadU8();
    if version != Some(0) {
      return false;
    }
    var status := stream.ReadU8();
    if status != Some(90) {
      return false;
    }
    ok := stream.ReadExact(6);
  }
}
