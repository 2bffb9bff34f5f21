/** What the next hop makes of the headers that `send_request` writes. */
module HttpTheorems {
  import opened Wrappers
  import opened Text
  import opened Addr
  import opened AddrTheorems
  import opened HttpProxy
  import opened UriParse
  import Base64

  /**
    The address dialled from the header is the target with its effective port exactly when the host is canonical
    and, if no port is shown, its text holds no colon.
   */
  lemma ElisionIsInvisibleIff(lib: Library, scheme: string, a: Authority)
    requires Faithful(lib) && DefaultPort(scheme).Some?
    ensures var port := if a.port.Some? then a.port.value else DefaultPort(scheme).value;
            DialAddress(lib, scheme, HostHeader(lib, scheme, a)) == Ok(SocketAddr(a.hostname, port))
            <==> Canonical(lib, a.hostname) && PortSafe(lib, Authority(a.hostname, ShownPort(scheme, a.port)))
  {
    var shown := Authority(a.hostname, ShownPort(scheme, a.port));
    AuthorityRoundTripIff(lib, shown);
    if !PortSafe(lib, shown) {
      RSplitOnceParts(UrlStyle(lib, a.hostname), ':');
      ColonHostIsAnother(lib, a.hostname);
    } else if shown.port.Some? {
      ParseWithPort(lib, UrlStyle(lib, a.hostname), shown.port.value);
    } else {
      RSplitOnceParts(UrlStyle(lib, a.hostname), ':');
    }
  }

  /** A host text that is cut at a colon gives another host, if any. */
  lemma ColonHostIsAnother(lib: Library, h: HostName)
    requires Faithful(lib) && ':' in UrlStyle(lib, h)
    ensures var parsed := ParseHostHeader(lib, UrlStyle(lib, h)); parsed.Ok? ==> parsed.value.hostname != h
  {
    PortIsOptional(lib, h);
    if h.V6Host? {
      BareV6IsRejected(lib, h.v6);
    } else {
      RSplitOnceParts(h.name, ':');
      HostNameNotLonger(lib, RSplitOnce(h.name, ':').value.0);
    }
  }

  /** For IPv6 the elision is visible exactly when it leaves the host without a port. */
  lemma V6NeedsAnotherPort(lib: Library, scheme: string, v6: V6, port: Option<Port>)
    requires Faithful(lib) && DefaultPort(scheme).Some? && !Mapped(v6)
    ensures DialAddress(lib, scheme, HostHeader(lib, scheme, Authority(V6Host(v6), port))).Ok?
            <==> port.Some? && port != DefaultPort(scheme)
  {
    var shown := ShownPort(scheme, port);
    if shown.Some? {
      ParseWithPort(lib, UrlStyle(lib, V6Host(v6)), shown.value);
    } else {
      BareV6IsRejected(lib, v6);
    }
  }

  // ---------------------------------------------------------------------------
  // The other headers
  // ---------------------------------------------------------------------------

  /** How a server reads Basic credentials: the user ends at the first colon (section 2 of RFC 7617). */
  function ReadBasicAuth(value: string): Option<(Bytes, Bytes)> {
    if !("Basic " <= value) then None
    else
      match Base64.Decode(value[6..])
      case None => None
      case Some(bytes) => SplitOnce(bytes, ':' as Byte)
  }

  /** The server finds user and password again exactly when the user holds no colon. */
  lemma BasicAuthIsReadIff(user: Bytes, password: Option<Bytes>)
    ensures ReadBasicAuth(BasicAuth(user, password)) == Some((user, OrEmpty(password))) <==> ':' as Byte !in user
  {
    var colon: Byte := ':' as Byte;
    var bytes := user + [colon] + OrEmpty(password);
    assert BasicAuth(user, password)[6..] == Base64.Encode(bytes);
    Base64.DecodeEncode(bytes);
    SplitOnceParts(bytes, colon);
    if colon !in user {
      SplitOnceAt(user, colon, OrEmpty(password));
    }
  }

  predicate AreLetters(word: string) {
    forall i :: 0 <= i < |word| ==> 'a' <= word[i] <= 'z'
  }

  lemma LoneWordIsListed(word: string)
    requires word == "trailers" && AreLetters(word)
    ensures ListsTrailers(word) && IsHeaderText(word)
  {
    assert ',' !in word && ';' !in word;
    SplitOnceParts(word, ',');
    SplitOnceParts(word, ';');
    assert Split(word, ',') == [word] && Split(word, ';') == [word];
    assert Trim(word) == word;
    assert Split(Split(word, ',')[0], ';')[0] == word;
  }

  lemma TrailersAreListed()
    ensures ListsTrailers("trailers") && IsHeaderText("trailers")
  {
    assert AreLetters("trailers");
    LoneWordIsListed("trailers");
  }

  lemma TeIsStable(before: Headers, after: Headers)
    requires Lookup(after, "te") == TeOf(before)
    ensures TeOf(after) == Lookup(after, "te")
  {
    TrailersAreListed();
    if "te" in after {
      assert FirstText(after, "te") == Ok("trailers");
    }
  }

  /** A second proxy of this kind, which gets a URI without a scheme, changes no header but `Host`. */
  lemma ForwardingAgainChangesNothing(before: Headers, u: ParsedUri, host: string, after: Headers,
                                      u': ParsedUri, host': string, again: Headers)
    requires Forwards(before, u, host, after) && Forwards(after, u', host', again) && u'.scheme.None?
    ensures forall name :: name != "host" ==> Lookup(again, name) == Lookup(after, name)
  {
    TeIsStable(before, after);
    forall name | name != "host" ensures Lookup(again, name) == Lookup(after, name) {
      if name != "te" && name != "authorization" {
        PassedTwice(before, u, host, after, u', host', again, name);
      }
    }
  }

  lemma PassedTwice(before: Headers, u: ParsedUri, host: string, after: Headers,
                    u': ParsedUri, host': string, again: Headers, name: string)
    requires Forwards(before, u, host, after) && Forwards(after, u', host', again) && name !in REWRITTEN
    ensures Lookup(again, name) == Lookup(after, name)
  {
  }

  /** `v` has an item "trailers", with any spaces around the word and any parameters behind a semicolon. */
  predicate HasTrailers(v: string, before: string, left: string, right: string, params: string, after: string) {
    && v == before + (left + "trailers" + right + params) + after
    && (before == "" || before[|before| - 1] == ',') && (after == "" || after[0] == ',')
    && AllSpaces(left) && AllSpaces(right)
    && (params == "" || params[0] == ';') && ',' !in params
  }

  lemma ItemWithTrailers(left: string, word: string, right: string, params: string)
    requires AllSpaces(left) && AllSpaces(right) && word != "" && AreLetters(word)
    requires params == "" || params[0] == ';'
    ensures Trim(Split(left + word + right + params, ';')[0]) == word
    ensures ',' !in left + word + right
  {
    var head := left + word + right;
    assert ';' !in head;
    TrimOf(left, word, right);
    if params == "" {
      assert head + params == head;
      SplitLast(head, ';');
    } else {
      assert head + params == head + [';'] + params[1..];
      SplitFirst(head, ';', params[1..]);
    }
  }

  lemma TrailersInItem(item: string) returns (left: string, right: string, params: string)
    requires ',' !in item && Trim(Split(item, ';')[0]) == "trailers"
    ensures item == left + "trailers" + right + params && AllSpaces(left) && AllSpaces(right)
    ensures (params == "" || params[0] == ';') && ',' !in params
  {
    SplitOnceParts(item, ';');
    var head := Split(item, ';')[0];
    left, right := TrimParts(head);
    params := item[|head|..];
    assert item == head + params;
  }

  lemma HasTrailersIsListed(v: string, before: string, left: string, right: string, params: string, after: string)
    requires HasTrailers(v, before, left, right, params, after)
    ensures ListsTrailers(v)
  {
    assert AreLetters("trailers");
    var item := left + "trailers" + right + params;
    ItemWithTrailers(left, "trailers", right, params);
    assert ',' !in item;
    ItemIsSplitOff(v, ',', before, item, after);
    var i :| 0 <= i < |Split(v, ',')| && Split(v, ',')[i] == item;
  }

  /** The `te` header is kept exactly when one of its items is the word "trailers". */
  lemma ListsTrailersIff(v: string)
    ensures ListsTrailers(v) <==>
              exists before, left, right, params, after :: HasTrailers(v, before, left, right, params, after)
  {
    if ListsTrailers(v) {
      var i :| 0 <= i < |Split(v, ',')| && Trim(Split(Split(v, ',')[i], ';')[0]) == "trailers";
      var before, after := SplitOffIsItem(v, ',', Split(v, ',')[i]);
      var left, right, params := TrailersInItem(Split(v, ',')[i]);
      assert HasTrailers(v, before, left, right, params, after);
    }
    if before, left, right, params, after :| HasTrailers(v, before, left, right, params, after) {
      HasTrailersIsListed(v, before, left, right, params, after);
    }
  }

  /**
    What the next hop finds in the headers that a rewrite decides on. The request's own `authorization` is never
    touched; otherwise the user of a full URI is filled in, and no one else.
   */
  lemma ForwardedHeaders(before: Headers, u: ParsedUri, host: string, after: Headers)
    requires Forwards(before, u, host, after)
    ensures "authorization" in before ==> Lookup(after, "authorization") == Some(before["authorization"])
    ensures "authorization" !in before && (u.scheme.None? || u.user.None?) ==> "authorization" !in after
    ensures "authorization" !in before && u.scheme.Some? && u.user.Some? ==>
              && "authorization" in after && |after["authorization"]| == 1
              && (ReadBasicAuth(after["authorization"][0]) == Some((u.user.value, OrEmpty(u.password)))
                  <==> ':' as Byte !in u.user.value)
    ensures "te" in after <==> "te" in before && IsHeaderText(before["te"][0]) && ListsTrailers(before["te"][0])
    ensures "te" in after ==> after["te"] == ["trailers"]
  {
    if u.user.Some? {
      BasicAuthIsReadIff(u.user.value, u.password);
    }
  }

  /** No other header is lost, added or changed, but for those whose names start with "proxy-". */
  lemma OtherHeadersPassThrough(before: Headers, u: ParsedUri, host: string, after: Headers, name: string)
    requires Forwards(before, u, host, after) && name != "host" && name != "te" && name != "authorization"
    ensures name in after <==> name in before && !(|name| >= 6 && name[..6] == "proxy-")
    ensures name in after ==> after[name] == before[name]
  {
    assert Lookup(after, name) == if IsProxyHeader(name) then None else Lookup(before, name);
    assert IsProxyHeader(name) <==> |name| >= 6 && name[..6] == "proxy-";
  }

  // ---------------------------------------------------------------------------
  // Ports and targets
  // ---------------------------------------------------------------------------

  /** Port 80 is left out for http, and port 443 for https, and no other. */
  lemma OnlyDefaultPortsAreLeftOut(lib: Library, scheme: string, h: HostName, p: Port)
    requires scheme == "http" || scheme == "https"
    ensures HostHeader(lib, scheme, Authority(h, None)) == UrlStyle(lib, h)
    ensures HostHeader(lib, scheme, Authority(h, Some(p)))
         == UrlStyle(lib, h) + if p == (if scheme == "http" then 80 else 443) then "" else ":" + Decimal(p)
  {
  }

  /** A host without a port is dialled at port 80 for http, at 443 for https, and not at all for any other scheme. */
  lemma DefaultPortsAreDialled(lib: Library, h: HostName)
    requires Faithful(lib) && Canonical(lib, h) && ':' !in UrlStyle(lib, h)
    ensures DialAddress(lib, "http", UrlStyle(lib, h)) == Ok(SocketAddr(h, 80))
    ensures DialAddress(lib, "https", UrlStyle(lib, h)) == Ok(SocketAddr(h, 443))
    ensures forall scheme :: scheme != "http" && scheme != "https" ==> DialAddress(lib, scheme, UrlStyle(lib, h)).Err?
  {
    AuthorityRoundTripIff(lib, Authority(h, None));
  }

  /** A full URI is the target if it is an http or https one with a host; any other request is http to its `Host`. */
  lemma TargetIff(lib: Library, u: ParsedUri, headers: Headers, target: Target)
    ensures TargetOf(lib, u, headers) == Ok(target) <==>
              if u.scheme.Some? then
                && (target.scheme == "http" || target.scheme == "https") && u.scheme.value == target.scheme
                && u.hostname.Some? && target.authority == Authority(u.hostname.value, u.port)
              else
                && target.scheme == "http" && "host" in headers && IsHeaderText(headers["host"][0])
                && ParseHostHeader(lib, headers["host"][0]) == Ok(target.authority)
  {
  }

  /** The text with a slash in front if it has no path, and without a question mark that nothing follows. */
  function Tidy(s: string): string {
    var rooted := if s == "" || s[0] == '?' then "/" + s else s;
    if rooted[|rooted| - 1] == '?' && '?' !in rooted[..|rooted| - 1] then rooted[..|rooted| - 1] else rooted
  }

  /** What is left of the URI of a request is the tidy text of its path and query. */
  lemma ReducedText(lib: Library, uri: Uri)
    requires Parse(lib, uri).Ok?
    ensures PrintPathAndQuery(Parse(lib, uri).value) == Tidy(uri.pathAndQuery)
  {
    var s := uri.pathAndQuery;
    var cut := SplitOnce(s, '?');
    SplitOnceParts(s, '?');
    if cut.Some? {
      var (path, query) := cut.value;
      var root := if path == "" then "/" else path;
      assert s == path + ['?'] + query && '?' !in root;
      TidyCut(path, query);
    } else if s != "" {
      assert '?' !in s;
    }
  }

  lemma TidyCut(path: string, query: string)
    requires '?' !in path
    ensures var root := if path == "" then "/" else path;
            Tidy(path + ['?'] + query) == if query == "" then root else root + "?" + query
  {
    var root := if path == "" then "/" else path;
    var s := path + ['?'] + query;
    var rooted := if s[0] == '?' then "/" + s else s;
    assert rooted == root + ['?'] + query;
    if query == "" {
      assert rooted[..|rooted| - 1] == root;
    } else {
      assert rooted[|root|] == '?';
      assert rooted[..|rooted| - 1][|root|] == '?';
    }
  }

  /** Header text is made of tabs and the visible ASCII characters, with the space. */
  lemma HeaderTextIff(s: string)
    ensures IsHeaderText(s) <==> forall i :: 0 <= i < |s| ==> s[i] as int == 9 || 32 <= s[i] as int <= 126
  {
  }
}
