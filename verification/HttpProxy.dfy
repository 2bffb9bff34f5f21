/** How `send_request` rewrites a request, and what `http_proxy_` reads out of its `Host` header. */
module HttpProxy {
  import opened Wrappers
  import opened Text
  import opened Addr
  import opened UriParse
  import Base64

  /** The port that a scheme implies. */
  function DefaultPort(scheme: string): Option<Port> {
    if scheme == "http" then Some(80) else if scheme == "https" then Some(443) else None
  }

  /** The port that is left in the header: the default port of the scheme is dropped. */
  function ShownPort(scheme: string, port: Option<Port>): Option<Port> {
    if port.Some? && port == DefaultPort(scheme) then None else port
  }

  function HostHeader(lib: Library, scheme: string, a: Authority): string {
    PrintAuthority(lib, Authority(a.hostname, ShownPort(scheme, a.port)))
  }

  /** `http_proxy_`: the address to dial for a request with this `Host` header. */
  function DialAddress(lib: Library, scheme: string, host: string): Result<SocketAddr> {
    match ParseHostHeader(lib, host)
    case Err => Err
    case Ok(a) =>
      var port := if a.port.Some? then a.port else DefaultPort(scheme);
      if port.Some? then Ok(SocketAddr(a.hostname, port.value)) else Err
  }

  // ---------------------------------------------------------------------------
  // The request
  // ---------------------------------------------------------------------------

  /** The values of a header that is there, in order. */
  type Values = v: seq<string> | v != [] witness [""]

  /** Header names in lower case, each with its values. */
  type Headers = map<string, Values>

  function Lookup(headers: Headers, name: string): Option<Values> {
    if name in headers then Some(headers[name]) else None
  }

  /** The headers with the values of one of them replaced, or with that one removed. */
  function Updated(headers: Headers, name: string, values: Option<Values>): Headers {
    if values.Some? then headers[name := values.value] else headers - {name}
  }

  /** A header value that can be made from text and read as text. */
  predicate IsHeaderText(s: string) {
    forall i :: 0 <= i < |s| ==> ' ' <= s[i] <= '~' || s[i] == '\t'
  }

  predicate IsProxyHeader(name: string) {
    "proxy-" <= name
  }

  /** The first value of a header, if it is text. */
  function FirstText(headers: Headers, name: string): Result<string> {
    if name in headers && IsHeaderText(headers[name][0]) then Ok(headers[name][0]) else Err
  }

  datatype Target = Target(scheme: string, authority: Authority)

  /** The URI with its target filled in: one without a scheme takes it from the `Host` header. */
  function Targeted(lib: Library, u: ParsedUri, headers: Headers): Result<ParsedUri> {
    match u.scheme
    case Some(scheme) => if DefaultPort(scheme).Some? then Ok(u) else Err
    case None =>
      match FirstText(headers, "host")
      case Err => Err
      case Ok(host) =>
        match ParseHostHeader(lib, host)
        case Err => Err
        case Ok(a) => Ok(u.(scheme := Some("http"), hostname := Some(a.hostname), port := a.port))
  }

  /** Where a request goes. */
  function TargetOf(lib: Library, u: ParsedUri, headers: Headers): Result<Target> {
    match Targeted(lib, u, headers)
    case Err => Err
    case Ok(t) =>
      if t.scheme.Some? && t.hostname.Some?
      then Ok(Target(t.scheme.value, Authority(t.hostname.value, t.port))) else Err
  }

  /** The value that carries a user name and a password, which is empty if there is none (RFC 7617). */
  function BasicAuth(user: Bytes, password: Option<Bytes>): string {
    "Basic " + Base64.Encode(user + [':' as Byte] + OrEmpty(password))
  }

  /** The `authorization` that goes to the next hop: the request's own, or else the one that its full URI holds. */
  function AuthorizationOf(u: ParsedUri, headers: Headers): Option<Values> {
    if "authorization" in headers || u.scheme.None? || u.user.None? then Lookup(headers, "authorization")
    else Some([BasicAuth(u.user.value, u.password)])
  }

  /** Whether "trailers" is in a comma-separated list whose items may have parameters, and spaces around them. */
  predicate ListsTrailers(v: string) {
    exists i :: 0 <= i < |Split(v, ',')| && Trim(Split(Split(v, ',')[i], ';')[0]) == "trailers"
  }

  /** The `te` that goes to the next hop. */
  function TeOf(headers: Headers): Option<Values> {
    var te := FirstText(headers, "te");
    if te.Ok? && ListsTrailers(te.value) then Some(["trailers"]) else None
  }

  /** The headers that a rewrite decides on; all others it only keeps or drops. */
  const REWRITTEN: set<string> := {"host", "te", "authorization"}

  function WithoutProxyHeaders(headers: Headers): Headers {
    map name | name in headers && !IsProxyHeader(name) :: headers[name]
  }

  /** What becomes of each header of a request whose URI was `u`. */
  ghost predicate Forwards(before: Headers, u: ParsedUri, host: string, after: Headers) {
    && Lookup(after, "host") == Some([host])
    && Lookup(after, "authorization") == AuthorizationOf(u, before)
    && Lookup(after, "te") == TeOf(before)
    && forall name :: name !in REWRITTEN ==>
         Lookup(after, name) == if IsProxyHeader(name) then None else Lookup(before, name)
  }

  lemma StepsForward(before: Headers, u: ParsedUri, host: string, after: Headers)
    requires var filled := Updated(before, "authorization", AuthorizationOf(u, before));
             after == WithoutProxyHeaders(Updated(filled, "te", TeOf(filled)))["host" := [host]]
    ensures Forwards(before, u, host, after)
  {
    assert !IsProxyHeader("authorization") by {
      assert "proxy-"[0] != "authorization"[0];
    }
    assert !IsProxyHeader("te") by {
      assert "proxy-"[0] != "te"[0];
    }
  }

  lemma BasicAuthIsText(user: Bytes, password: Option<Bytes>)
    ensures IsHeaderText(BasicAuth(user, password))
  {
    var bytes := user + [':' as Byte] + OrEmpty(password);
    forall i | 0 <= i < |BasicAuth(user, password)| ensures ' ' <= BasicAuth(user, password)[i] <= '~' {
      if i >= 6 {
        Base64.EncodedIsVisible(bytes, i - 6);
        assert BasicAuth(user, password)[i] == Base64.Encode(bytes)[i - 6];
      }
    }
  }

  /** The path and the query of a request's URI are found again behind one another. */
  lemma ReducedPath(lib: Library, uri: Uri)
    requires Parse(lib, uri).Ok?
    ensures var u := Parse(lib, uri).value;
            var s := PrintPathAndQuery(u);
            && '#' !in s && WithoutFragment(s) == s
            && PathOf(s) == PathOf(uri.pathAndQuery)
            && (QueryOf(s) == QueryOf(uri.pathAndQuery) || QueryOf(uri.pathAndQuery) == Some(""))
  {
    var u := Parse(lib, uri).value;
    var s := PrintPathAndQuery(u);
    SplitOnceParts(uri.pathAndQuery, '?');
    assert '?' !in u.path && u.path != "" && '#' !in s;
    SplitOnceParts(s, '#');
    SplitOnceParts(u.path, '?');
    if u.query.Some? {
      SplitOnceAt(u.path, '?', u.query.value);
      assert s == u.path + ['?'] + u.query.value;
    }
  }

  class Request {
    var uri: Uri
    var headers: Headers

    /** Removes the headers that were meant for this proxy. */
    method RemoveProxyHeaders()
      modifies this`headers
      ensures headers == WithoutProxyHeaders(old(headers))
    {
      var names := set name | name in headers && IsProxyHeader(name);
      while names != {}
        invariant forall name :: name in names ==> name in headers && IsProxyHeader(name)
        invariant forall name :: name in headers ==> name in old(headers) && headers[name] == old(headers)[name]
        invariant forall name :: name in old(headers) && name !in headers ==> IsProxyHeader(name)
        invariant forall name :: name in headers && IsProxyHeader(name) ==> name in names
        decreases |names|
      {
        var name :| name in names;
        headers := headers - {name};
        names := names - {name};
      }
    }

    /** Fills in the `authorization` header from a full URI. */
    method FillAuthorization(u: ParsedUri)
      requires u.scheme.Some?
      modifies this`headers
      ensures headers == Updated(old(headers), "authorization", AuthorizationOf(u, old(headers)))
    {
      if "authorization" !in headers {
        if u.user.Some? {
          BasicAuthIsText(u.user.value, u.password);
          headers := headers["authorization" := [BasicAuth(u.user.value, u.password)]];
        }
      }
    }

    /** Where the request goes; a full URI also fills in the `authorization` header. */
    method FillTarget(lib: Library, u: ParsedUri) returns (r: Result<ParsedUri>)
      modifies this`headers
      ensures r == Targeted(lib, u, old(headers))
      ensures r.Ok? ==> headers == Updated(old(headers), "authorization", AuthorizationOf(u, old(headers)))
    {
      if u.scheme.Some? {
        if u.scheme.value != "http" && u.scheme.value != "https" {
          return Err;
        }
        FillAuthorization(u);
        return Ok(u);
      }
      var host := FirstText(headers, "host");
      if host.Err? {
        return Err;
      }
      var a := ParseHostHeader(lib, host.value);
      if a.Err? {
        return Err;
      }
      return Ok(u.(scheme := Some("http"), hostname := Some(a.value.hostname), port := a.value.port));
    }

    /** Keeps of the `te` header that trailers are welcome, and nothing else. */
    method FilterTe()
      modifies this`headers
      ensures headers == Updated(old(headers), "te", TeOf(old(headers)))
    {
      var te := FirstText(headers, "te");
      if te.Ok? && ListsTrailers(te.value) {
        headers := headers["te" := ["trailers"]];
      } else {
        headers := headers - {"te"};
      }
    }

    /** Writes the `Host` header, without the default port of the scheme. */
    method RewriteHost(lib: Library, u: ParsedUri) returns (r: Result<Authority>)
      requires u.scheme.Some? && DefaultPort(u.scheme.value).Some?
      modifies this`headers
      ensures r.Ok? <==> u.hostname.Some? && IsHeaderText(
                HostHeader(lib, u.scheme.value, Authority(u.hostname.value, u.port)))
      ensures r.Ok? ==> r.value == Authority(u.hostname.value, u.port)
      ensures r.Ok? ==>
                headers == old(headers)["host" := [HostHeader(lib, u.scheme.value, r.value)]]
    {
      var scheme := u.scheme.value;
      if u.hostname.None? {
        return Err;
      }
      var hostHeader := UrlStyle(lib, u.hostname.value);
      if u.port.Some? {
        if !((scheme == "http" && u.port.value == 80) || (scheme == "https" && u.port.value == 443)) {
          hostHeader := hostHeader + ":";
          hostHeader := hostHeader + Decimal(u.port.value);
        }
      }
      var a := Authority(u.hostname.value, u.port);
      assert hostHeader == HostHeader(lib, scheme, a);
      if !IsHeaderText(hostHeader) {
        return Err;
      }
      headers := headers["host" := [hostHeader]];
      return Ok(a);
    }

    /** Leaves of the URI its path and query. */
    method ReduceUri(lib: Library, u: ParsedUri) returns (ok: bool)
      requires Parse(lib, uri).Ok?
      requires u.path == Parse(lib, uri).value.path && u.query == Parse(lib, uri).value.query
      modifies this`uri
      ensures ok <==> lib.validPath(PrintPathAndQuery(u))
      ensures ok ==>
                && uri.scheme.None? && uri.authority.None?
                && PathOf(uri.pathAndQuery) == PathOf(old(uri).pathAndQuery)
                && (QueryOf(uri.pathAndQuery) == QueryOf(old(uri).pathAndQuery)
                    || QueryOf(old(uri).pathAndQuery) == Some(""))
    {
      ReducedPath(lib, uri);
      var reduced := u.(scheme := None, user := None, password := None, hostname := None, port := None);
      var built := BuildUri(lib, reduced);
      if built.Err? {
        return false;
      }
      uri := built.value;
      return true;
    }

    /** All that is done to the headers. */
    method RewriteHeaders(lib: Library, parsed: ParsedUri) returns (r: Result<ParsedUri>)
      modifies this`headers
      ensures var target := TargetOf(lib, parsed, old(headers));
              && (r.Ok? <==> target.Ok? && IsHeaderText(HostHeader(lib, target.value.scheme, target.value.authority)))
              && (r.Ok? ==>
                    && r == Targeted(lib, parsed, old(headers))
                    && Forwards(old(headers), parsed, HostHeader(lib, target.value.scheme, target.value.authority),
                                headers))
    {
      r := FillTarget(lib, parsed);
      if r.Err? {
        return;
      }
      var u := r.value;
      FilterTe();
      RemoveProxyHeaders();
      var target := RewriteHost(lib, u);
      if target.Err? {
        return Err;
      }
      StepsForward(old(headers), parsed, HostHeader(lib, u.scheme.value, target.value), headers);
    }

    /**
      The part of `send_request` that rewrites the request for the next hop. On success the target's
      scheme is returned, the `Host` header names the target, `authorization` and `te` are as the functions above say,
      no proxy header is left, all other headers are as they were, and the URI is reduced to its path and query.
     */
    method Rewrite(lib: Library) returns (r: Result<string>)
      modifies this
      ensures var parsed := Parse(lib, old(uri));
              var target := if parsed.Ok? then TargetOf(lib, parsed.value, old(headers)) else Err;
              && (r.Ok? <==>
                    && target.Ok? && IsHeaderText(HostHeader(lib, target.value.scheme, target.value.authority))
                    && lib.validPath(PrintPathAndQuery(parsed.value)))
              && (r.Ok? ==>
                    && r.value == target.value.scheme
                    && Forwards(old(headers), parsed.value, HostHeader(lib, r.value, target.value.authority), headers)
                    && uri.scheme.None? && uri.authority.None?
                    && PathOf(uri.pathAndQuery) == PathOf(old(uri).pathAndQuery)
                    && (QueryOf(uri.pathAndQuery) == QueryOf(old(uri).pathAndQuery)
                        || QueryOf(old(uri).pathAndQuery) == Some("")))
    {
      var parsed := Parse(lib, uri);
      if parsed.Err? {
        return Err;
      }
      var target := RewriteHeaders(lib, parsed.value);
      if target.Err? {
        return Err;
      }
      var reduced := ReduceUri(lib, target.value);
      return if reduced then Ok(target.value.scheme.value) else Err;
    }
  }
}
