/** Exactly when a host, an address or an authority survives being printed and parsed. */
module AddrTheorems {
  import opened Wrappers
  import opened Text
  import opened Addr

  lemma SplitFirst(a: string, c: char, rest: string)
    requires c !in a
    ensures Split(a + [c] + rest, c) == [a] + Split(rest, c)
  {
    SplitOnceAt(a, c, rest);
  }

  lemma SplitLast(a: string, c: char)
    requires c !in a
    ensures Split(a, c) == [a]
  {
    SplitOnceParts(a, c);
  }

  lemma ParsePrintedOctet(n: Byte)
    ensures ParseOctet(Decimal(n)) == Some(n) && '.' !in Decimal(n)
  {
    ValueOfDecimal(n);
    if n >= 10 {
      var tens: nat := n / 10;
      assert Decimal(n)[0] == Decimal(tens)[0];
      if tens >= 10 {
        assert |Decimal(tens / 10)| == 1;
      }
    }
  }

  lemma ParsePrintedV4(v: V4)
    ensures ParseV4(PrintV4(v)) == Some(v)
  {
    var a, b, c, d := Decimal(v[0]), Decimal(v[1]), Decimal(v[2]), Decimal(v[3]);
    ParsePrintedOctet(v[0]);
    ParsePrintedOctet(v[1]);
    ParsePrintedOctet(v[2]);
    ParsePrintedOctet(v[3]);
    SplitLast(d, '.');
    SplitFirst(c, '.', d);
    SplitFirst(b, '.', c + ['.'] + d);
    SplitFirst(a, '.', b + ['.'] + (c + ['.'] + d));
    assert PrintV4(v) == a + ['.'] + (b + ['.'] + (c + ['.'] + d));
    assert v == [v[0], v[1], v[2], v[3]];
  }

  /** A character of a text is the separator or in one of the parts. */
  lemma {:induction false} SplitCovers(s: string, c: char, x: char)
    requires x in s && x != c
    ensures exists k :: 0 <= k < |Split(s, c)| && x in Split(s, c)[k]
    decreases |s|
  {
    var cut := SplitOnce(s, c);
    if cut.None? {
      assert x in Split(s, c)[0];
    } else {
      SplitOnceParts(s, c);
      SplitShorter(s, c);
      var (a, b) := cut.value;
      if x in a {
        assert x in Split(s, c)[0];
      } else {
        SplitCovers(b, c, x);
        var k :| 0 <= k < |Split(b, c)| && x in Split(b, c)[k];
        assert Split(s, c)[k + 1] == Split(b, c)[k];
      }
    }
  }

  lemma V4TextHasNoColon(s: string)
    requires ':' in s
    ensures ParseV4(s).None?
  {
    SplitCovers(s, '.', ':');
  }

  /** A host name is read back from its text exactly when it is canonical. */
  lemma HostNameRoundTripIff(lib: Library, h: HostName)
    requires Faithful(lib)
    ensures ParseHostName(lib, Print(lib, h)) == h <==> Canonical(lib, h)
    ensures ParseHostName(lib, UrlStyle(lib, h)) == h <==> Canonical(lib, h)
  {
    match h
    case V4Host(v4) =>
      ParsePrintedV4(v4);
      assert IsDigit(PrintV4(v4)[0]);
    case V6Host(v6) =>
      var text := lib.printV6(v6);
      V4TextHasNoColon(text);
      assert ("[" + text + "]")[1..|text| + 1] == text;
    case Domain(name) =>
  }

  lemma HostNameNotLonger(lib: Library, s: string)
    ensures ParseHostName(lib, s).Domain? ==> |ParseHostName(lib, s).name| <= |s|
  {
  }

  lemma ParseWithPort(lib: Library, host: string, p: Port)
    ensures RSplitOnce(host + ":" + Decimal(p), ':') == Some((host, Decimal(p))) && ParsePort(Decimal(p)) == Some(p)
  {
    RSplitOnceAt(host, ':', Decimal(p));
    ParsePrintedPort(p);
  }

  /** A socket address is read back from its text exactly when its host is canonical. */
  lemma SocketAddrRoundTripIff(lib: Library, a: SocketAddr)
    requires Faithful(lib)
    ensures ParseAddr(lib, PrintAddr(lib, a)) == Ok(a) <==> Canonical(lib, a.hostname)
  {
    ParseWithPort(lib, UrlStyle(lib, a.hostname), a.port);
    HostNameRoundTripIff(lib, a.hostname);
  }

  /** A bracketed IPv6 host without a port is rejected: it is cut at a colon inside the brackets. */
  lemma BareV6IsRejected(lib: Library, v6: V6)
    requires Faithful(lib)
    ensures ParseHostHeader(lib, UrlStyle(lib, V6Host(v6))).Err?
  {
    var text := "[" + lib.printV6(v6) + "]";
    RSplitOnceParts(text, ':');
    var (host, port) := RSplitOnce(text, ':').value;
    assert text[|text| - 1] == ']';
    assert port != "" && port[|port| - 1] == ']';
  }

  /** An authority is read back from its text exactly when its host is canonical and it has a port if it needs one. */
  lemma AuthorityRoundTripIff(lib: Library, a: Authority)
    requires Faithful(lib)
    ensures ParseHostHeader(lib, PrintAuthority(lib, a)) == Ok(a) <==> Canonical(lib, a.hostname) && PortSafe(lib, a)
  {
    var host := UrlStyle(lib, a.hostname);
    HostNameRoundTripIff(lib, a.hostname);
    match a.port
    case Some(p) =>
      ParseWithPort(lib, host, p);
    case None =>
      RSplitOnceParts(host, ':');
      if a.hostname.V6Host? {
        BareV6IsRejected(lib, a.hostname.v6);
      }
  }

  /** Only IPv6 texts and odd domains hold a colon, so for the other hosts the port is optional. */
  lemma PortIsOptional(lib: Library, h: HostName)
    requires Faithful(lib)
    ensures ':' in UrlStyle(lib, h) <==> h.V6Host? || (h.Domain? && ':' in h.name)
  {
    match h
    case V4Host(v4) =>
      ParsePrintedV4(v4);
      if ':' in PrintV4(v4) {
        V4TextHasNoColon(PrintV4(v4));
      }
    case V6Host(v6) =>
      var k :| 0 <= k < |lib.printV6(v6)| && lib.printV6(v6)[k] == ':';
      assert UrlStyle(lib, h)[k + 1] == ':';
    case Domain(_) =>
  }

  // ---------------------------------------------------------------------------
  // Which texts are IP addresses
  // ---------------------------------------------------------------------------

  lemma OctetText(s: string)
    requires ParseOctet(s).Some?
    ensures s == Decimal(ParseOctet(s).value)
  {
    var k := DigitsArePadded(s);
    assert k == 0;
  }

  lemma JoinFour(parts: seq<string>, c: char)
    requires |parts| == 4
    ensures Join(parts, c) == parts[0] + [c] + (parts[1] + [c] + (parts[2] + [c] + parts[3]))
  {
    assert parts[1..][1..] == parts[2..] && parts[2..][1..] == parts[3..];
    assert Join(parts[3..], c) == parts[3];
    assert Join(parts[2..], c) == parts[2] + [c] + parts[3];
    assert Join(parts[1..], c) == parts[1] + [c] + (parts[2] + [c] + parts[3]);
  }

  /** The only text of an IPv4 address is its dotted decimal one: no leading zeros, no missing parts, no spaces. */
  lemma ParseV4Iff(s: string, v: V4)
    ensures ParseV4(s) == Some(v) <==> s == PrintV4(v)
  {
    ParsePrintedV4(v);
    if ParseV4(s) == Some(v) {
      var parts := Split(s, '.');
      JoinSplit(s, '.');
      JoinFour(parts, '.');
      OctetText(parts[0]);
      OctetText(parts[1]);
      OctetText(parts[2]);
      OctetText(parts[3]);
    }
  }

  /** The text of ::ffff:a.b.c.d is the IPv4 address a.b.c.d, in brackets or not. */
  lemma MappedTextIsV4(lib: Library, v4: V4)
    requires Faithful(lib)
    ensures var text := lib.printV6([0, 0, 0, 0, 0, 0, 0, 0, 0, 0, 255, 255] + v4);
            ParseHostName(lib, text) == V4Host(v4) && ParseHostName(lib, "[" + text + "]") == V4Host(v4)
  {
    var v6: V6 := [0, 0, 0, 0, 0, 0, 0, 0, 0, 0, 255, 255] + v4;
    var text := lib.printV6(v6);
    V4TextHasNoColon(text);
    assert v6[..12] == [0, 0, 0, 0, 0, 0, 0, 0, 0, 0, 255, 255] && v6[12..] == v4;
    assert ("[" + text + "]")[1..|text| + 1] == text;
  }
}
