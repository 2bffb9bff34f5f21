/** Exactly when a URI survives being printed and parsed. */
module UriTheorems {
  import opened Wrappers
  import opened Text
  import opened Addr
  import opened AddrTheorems
  import opened Percent
  import opened UriParse

  lemma PartsOf(s: string, path: string, query: Option<string>)
    requires '?' !in path && s == if query.None? then path else path + "?" + query.value
    ensures PathOf(s) == (if path == "" then "/" else path) && QueryOf(s) == query
  {
    SplitOnceParts(s, '?');
    if query.Some? {
      SplitOnceAt(path, '?', query.value);
      assert s == path + ['?'] + query.value;
    }
  }

  /** The parts of a text hold no characters that the text does not hold, and the path no question mark. */
  lemma PartsAreClean(s: string)
    ensures '?' !in PathOf(s) && PathOf(s) != ""
    ensures '#' !in s ==> '#' !in PathOf(s) && (QueryOf(s).Some? ==> '#' !in QueryOf(s).value)
  {
    SplitOnceParts(s, '?');
  }

  /** Everything from the first '#' on is dropped, and nothing else. */
  lemma FragmentIsDropped(front: string, tail: string)
    requires '#' !in front
    ensures WithoutFragment(front) == front && WithoutFragment(front + "#" + tail) == front
  {
    SplitOnceParts(front, '#');
    SplitOnceAt(front, '#', tail);
  }

  /**
    Path and query are found again exactly when neither is empty, the path holds no '?', and neither holds a '#'.
   */
  lemma PathRoundTripIff(u: ParsedUri)
    ensures var s := WithoutFragment(PrintPathAndQuery(u));
            && PathOf(s) == u.path
            && (if QueryOf(s) == Some("") then None else QueryOf(s)) == u.query
            <==> PathSurvives(u)
  {
    var text := PrintPathAndQuery(u);
    PartsAreClean(WithoutFragment(text));
    SplitOnceParts(text, '#');
    if PathSurvives(u) {
      assert '#' !in text;
      PartsOf(text, u.path, u.query);
    }
  }

  lemma NoColonInEncoded(bytes: Bytes)
    ensures ':' !in Encode(bytes)
  {
    if ':' in Encode(bytes) {
      EncodedIsPlain(bytes, ':');
    }
  }

  lemma UserRoundTrip(lib: Library, user: Bytes)
    requires lib.isUtf8(user)
    ensures ParseUserInfo(lib, Encode(user)) == Ok(UserInfo(Some(user), None))
  {
    DecodeEncode(user);
    NoColonInEncoded(user);
    SplitOnceParts(Encode(user), ':');
  }

  lemma UserAndPasswordRoundTrip(lib: Library, user: Bytes, password: Bytes)
    requires lib.isUtf8(user) && lib.isUtf8(password)
    ensures ParseUserInfo(lib, Encode(user) + [':'] + Encode(password)) == Ok(UserInfo(Some(user), Some(password)))
  {
    DecodeEncode(user);
    DecodeEncode(password);
    NoColonInEncoded(user);
    SplitOnceAt(Encode(user), ':', Encode(password));
  }

  /** The user info is read back from its text, whatever bytes the user name and password are. */
  lemma UserInfoRoundTrip(lib: Library, u: ParsedUri)
    requires WellTyped(lib, u) && u.user.Some?
    ensures var text := PrintUserInfo(u);
            && text != "" && text[|text| - 1] == '@'
            && ParseUserInfo(lib, text[..|text| - 1]) == Ok(UserInfo(u.user, u.password))
  {
    var text := PrintUserInfo(u);
    var user := Encode(u.user.value);
    if u.password.Some? {
      UserAndPasswordRoundTrip(lib, u.user.value, u.password.value);
      assert text[..|text| - 1] == user + [':'] + Encode(u.password.value);
    } else {
      UserRoundTrip(lib, u.user.value);
      assert text[..|text| - 1] == user;
    }
  }

  lemma NoAtInPort(p: Port)
    ensures '@' !in Decimal(p)
  {
  }

  lemma AuthorityHasAt(lib: Library, a: Authority)
    ensures '@' in PrintAuthority(lib, a) <==> '@' in UrlStyle(lib, a.hostname)
  {
    if a.port.Some? {
      NoAtInPort(a.port.value);
      var host := UrlStyle(lib, a.hostname);
      if '@' in host {
        var k :| 0 <= k < |host| && host[k] == '@';
        assert PrintAuthority(lib, a)[k] == '@';
      }
    }
  }

  /** With an '@' in the host, what comes after the last one is too short to be the host. */
  lemma CutHostIsAnother(lib: Library, a: Authority)
    requires Faithful(lib)
    requires '@' in UrlStyle(lib, a.hostname)
    ensures RSplitOnce(PrintAuthority(lib, a), '@').Some?
    ensures ParseHostHeader(lib, RSplitOnce(PrintAuthority(lib, a), '@').value.1) != Ok(a)
  {
    V4HasNoAt(lib, a.hostname);
    var host := UrlStyle(lib, a.hostname);
    RSplitOnceParts(host, '@');
    var (before, after) := RSplitOnce(host, '@').value;
    if a.port.None? {
      ShorterHost(lib, after);
    } else {
      var port := Decimal(a.port.value);
      NoAtInPort(a.port.value);
      assert host + ":" + port == before + ['@'] + (after + ":" + port);
      RSplitOnceAt(before, '@', after + ":" + port);
      ParseWithPort(lib, after, a.port.value);
      HostNameNotLonger(lib, after);
    }
  }

  /** Parsing gives no domain longer than the text. */
  lemma ShorterHost(lib: Library, s: string)
    ensures var parsed := ParseHostHeader(lib, s);
            parsed.Ok? && parsed.value.hostname.Domain? ==> |parsed.value.hostname.name| <= |s|
  {
    HostNameNotLonger(lib, s);
    RSplitOnceParts(s, ':');
    if RSplitOnce(s, ':').Some? {
      HostNameNotLonger(lib, RSplitOnce(s, ':').value.0);
    }
  }

  lemma V4HasNoAt(lib: Library, h: HostName)
    requires Faithful(lib)
    ensures '@' in UrlStyle(lib, h) ==> h.Domain?
  {
  }

  lemma SiteRoundTripIff(lib: Library, u: ParsedUri)
    requires Faithful(lib) && WellTyped(lib, u)
    ensures ParseSite(lib, PrintSite(lib, u)) == Ok(Site(UserInfo(u.user, u.password), u.hostname, u.port))
            <==> SiteSurvives(lib, u)
  {
    if u.hostname.Some? {
      var a := Authority(u.hostname.value, u.port);
      var host := PrintAuthority(lib, a);
      AuthorityHasAt(lib, a);
      AuthorityRoundTripIff(lib, a);
      var info := PrintUserInfo(u);
      if '@' in UrlStyle(lib, a.hostname) {
        CutHostIsAnother(lib, a);
        RSplitOncePrefixed(info, host, '@');
      } else if u.user.Some? {
        UserInfoRoundTrip(lib, u);
        assert info + host == info[..|info| - 1] + ['@'] + host;
        RSplitOnceAt(info[..|info| - 1], '@', host);
      } else {
        RSplitOnceParts(host, '@');
        assert info + host == host;
      }
    }
  }

  /** Text in front does not move the last split. */
  lemma RSplitOncePrefixed(front: string, s: string, c: char)
    requires c in s
    ensures RSplitOnce(s, c).Some? && RSplitOnce(front + s, c).Some?
    ensures RSplitOnce(front + s, c).value.1 == RSplitOnce(s, c).value.1
  {
    RSplitOnceParts(s, c);
    var (a, b) := RSplitOnce(s, c).value;
    assert front + s == front + a + [c] + b;
    RSplitOnceAt(front + a, c, b);
  }

  /**
    Parsing a printed URI gives the URI back exactly when: the library takes its texts, and scheme and host come
    together; its user info and port have a host, a password has a user, the host is canonical, holds no '@' and has
    a port if it holds a colon; path and query are not empty, the path holds no '?', and neither holds a '#'.
   */
  lemma UriRoundTripIff(lib: Library, u: ParsedUri)
    requires Faithful(lib) && WellTyped(lib, u)
    ensures var printed := UriParse.Print(lib, u);
            printed.Ok? && Parse(lib, printed.value) == Ok(u)
            <==>
              && (u.scheme.Some? <==> u.hostname.Some?)
              && (u.scheme.Some? ==>
                    lib.validScheme(u.scheme.value) && lib.validAuthority(PrintSite(lib, u).value))
              && lib.validPath(PrintPathAndQuery(u))
              && SiteSurvives(lib, u) && PathSurvives(u)
  {
    SiteRoundTripIff(lib, u);
    PathRoundTripIff(u);
  }

  /** An authority with user info: the text before the last '@', and the host and port behind it. */
  predicate HasUserInfo(authority: string, info: string, host: string) {
    authority == info + "@" + host && '@' !in host
  }

  /** Whatever URI is parsed, its user name and password are UTF-8, and it has a user exactly when there is an '@'. */
  lemma ParsedIsWellTyped(lib: Library, uri: Uri)
    ensures var u := Parse(lib, uri);
            u.Ok? ==>
              && WellTyped(lib, u.value)
              && (u.value.user.Some? <==> uri.authority.Some? && '@' in uri.authority.value)
  {
    if uri.authority.Some? {
      RSplitOnceParts(uri.authority.value, '@');
    }
  }

  /** The first colon of the user info ends the user name. */
  predicate EndsAtColon(info: string, user: string, password: string) {
    info == user + ":" + password && ':' !in user
  }

  /** User info is read exactly when the decoded user, and the decoded password if there is a colon, are UTF-8. */
  lemma UserInfoIsReadIff(lib: Library, info: string)
    ensures ParseUserInfo(lib, info).Ok? <==>
              if ':' in info then
                forall user, password :: EndsAtColon(info, user, password) ==>
                  lib.isUtf8(Decode(user)) && lib.isUtf8(Decode(password))
              else
                lib.isUtf8(Decode(info))
  {
    SplitOnceParts(info, ':');
    forall user, password | EndsAtColon(info, user, password)
      ensures SplitOnce(info, ':') == Some((user, password))
    {
      SplitOnceAt(user, ':', password);
    }
    if ':' in info {
      var (user, password) := SplitOnce(info, ':').value;
      assert EndsAtColon(info, user, password);
    }
  }

  /** A URI with user info is parsed exactly when that can be read, and the host and port behind it can be. */
  lemma UserInfoIsParsedIff(lib: Library, uri: Uri, info: string, host: string)
    requires uri.authority.Some? && HasUserInfo(uri.authority.value, info, host)
    ensures Parse(lib, uri).Ok? <==> ParseHostHeader(lib, host).Ok? && ParseUserInfo(lib, info).Ok?
  {
    RSplitOnceAt(info, '@', host);
  }
}
