/** What the two SOCKS clients share: destinations, and a byte stream with a server at its other end. */
module Handshake {
  import opened Wrappers
  import opened Text
  import opened Addr

  /** A domain is here the bytes of its name. */
  datatype Host = Ip4(v4: V4) | Ip6(v6: V6) | Name(name: Bytes)

  datatype Destination = Destination(host: Host, port: Port)

  /** Most significant byte first. */
  function PortBytes(p: Port): (b: Bytes)
    ensures |b| == 2 && 256 * b[0] as int + b[1] as int == p
  {
    [p / 256, p % 256]
  }

  function PortOf(b: Bytes): Port
    requires |b| == 2
  {
    var high: int, low: int := b[0], b[1];
    256 * high + low
  }

  /** Ports are big-endian, in both directions. */
  lemma PortIsBigEndian(p: Port, high: Byte, low: Byte)
    ensures PortBytes(p) == [high, low] <==> p == 256 * high + low
    ensures PortOf([high, low]) == 256 * high + low
  {
  }

  lemma PortRoundTrip(p: Port)
    ensures PortOf(PortBytes(p)) == p
  {
  }

  /** Any deterministic server: all that it has sent, given all that it has received. */
  type Server = Bytes -> Bytes

  /** The client's side of a conversation: what it has sent, and how much it has read. */
  datatype Talk = Talk(sent: Bytes, read: nat)

  /** What the server has sent and the client has not read. */
  function Unread(server: Server, t: Talk): Bytes {
    if t.read <= |server(t.sent)| then server(t.sent)[t.read..] else []
  }

  /** A stream to a server. A read that finds nothing fails: the server will not go on by itself. */
  class Stream {
    const server: Server
    var sent: Bytes
    var read: nat

    function View(): Talk
      reads this
    {
      Talk(sent, read)
    }

    constructor (server: Server)
      ensures this.server == server && View() == Talk([], 0)
    {
      this.server := server;
      sent, read := [], 0;
    }

    method WriteAll(data: Bytes)
      modifies this
      ensures View() == Talk(old(sent) + data, old(read))
    {
      sent := sent + data;
    }

    method ReadU8() returns (b: Option<Byte>)
      modifies this
      ensures var available := old(Unread(server, View()));
              && b == (if available == [] then None else Some(available[0]))
              && View() == Talk(old(sent), old(read) + if b.Some? then 1 else 0)
    {
      if read >= |server(sent)| {
        return None;
      }
      b := Some(server(sent)[read]);
      read := read + 1;
    }

    method ReadExact(n: nat) returns (ok: bool)
      modifies this
      ensures ok <==> n <= |old(Unread(server, View()))|
      ensures ok ==> View() == Talk(old(sent), old(read) + n)
    {
      if read + n > |server(sent)| && n > 0 {
        return false;
      }
      read := read + n;
      return true;
    }
  }
}
