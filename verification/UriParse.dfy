/** `ParsedUri`: a URI taken apart into its fields, and put together again. */
module UriParse {
  import opened Wrappers
  import opened Text
  import opened Addr
  import opened Percent

  /** User names and passwords are the bytes of their UTF-8 strings. */
  datatype ParsedUri = ParsedUri(
    scheme: Option<string>,
    user: Option<Bytes>,
    password: Option<Bytes>,
    hostname: Option<HostName>,
    port: Option<Port>,
    path: string,
    query: Option<string>)

  /** The library keeps no fragment. */
  type PathAndQuery = s: string | '#' !in s witness ""

  /** The library's URI: its three parts as text. */
  datatype Uri = Uri(scheme: Option<string>, authority: Option<string>, pathAndQuery: PathAndQuery)

  /** The text up to the first '#'. */
  function WithoutFragment(s: string): PathAndQuery {
    SplitOnceParts(s, '#');
    match SplitOnce(s, '#') case Some((front, _)) => front case None => s
  }

  /** The library gives an empty path as a slash. */
  function PathOf(pathAndQuery: string): string {
    var path := match SplitOnce(pathAndQuery, '?') case Some((p, _)) => p case None => pathAndQuery;
    if path == "" then "/" else path
  }

  function QueryOf(pathAndQuery: string): Option<string> {
    match SplitOnce(pathAndQuery, '?') case Some((_, q)) => Some(q) case None => None
  }

  datatype UserInfo = UserInfo(user: Option<Bytes>, password: Option<Bytes>)

  function DecodeText(lib: Library, s: string): Result<Bytes> {
    if lib.isUtf8(Decode(s)) then Ok(Decode(s)) else Err
  }

  function ParseUserInfo(lib: Library, auth: string): Result<UserInfo> {
    match SplitOnce(auth, ':')
    case Some((user, password)) =>
      var u, p := DecodeText(lib, user), DecodeText(lib, password);
      if u.Ok? && p.Ok? then Ok(UserInfo(Some(u.value), Some(p.value))) else Err
    case None =>
      var u := DecodeText(lib, auth);
      if u.Ok? then Ok(UserInfo(Some(u.value), None)) else Err
  }

  datatype Site = Site(info: UserInfo, hostname: Option<HostName>, port: Option<Port>)

  function ParseSite(lib: Library, authority: Option<string>): Result<Site> {
    match authority
    case None => Ok(Site(UserInfo(None, None), None, None))
    case Some(text) =>
      var (info, host) := match RSplitOnce(text, '@')
        case Some((auth, h)) => (ParseUserInfo(lib, auth), h)
        case None => (Ok(UserInfo(None, None)), text);
      var parsed := ParseHostHeader(lib, host);
      if info.Ok? && parsed.Ok?
      then Ok(Site(info.value, Some(parsed.value.hostname), parsed.value.port)) else Err
  }

  /** `TryFrom<Uri>`. */
  function Parse(lib: Library, uri: Uri): Result<ParsedUri> {
    match ParseSite(lib, uri.authority)
    case Err => Err
    case Ok(Site(info, hostname, port)) =>
      var query := QueryOf(uri.pathAndQuery);
      Ok(ParsedUri(uri.scheme, info.user, info.password, hostname, port,
                   PathOf(uri.pathAndQuery), if query == Some("") then None else query))
  }

  function PrintUserInfo(u: ParsedUri): string {
    if u.user.None? then ""
    else Encode(u.user.value) + (if u.password.None? then "" else ":" + Encode(u.password.value)) + "@"
  }

  /** The authority is kept only if there is a host. */
  function PrintSite(lib: Library, u: ParsedUri): Option<string> {
    if u.hostname.None? then None
    else Some(PrintUserInfo(u) + PrintAuthority(lib, Authority(u.hostname.value, u.port)))
  }

  function PrintPathAndQuery(u: ParsedUri): string {
    if u.query.None? then u.path else u.path + "?" + u.query.value
  }

  /**
    The library builds a URI from texts that it takes for its parts. As there is always a path, a scheme needs an
    authority and an authority needs a scheme.
   */
  predicate Builds(lib: Library, u: ParsedUri) {
    && (u.scheme.Some? <==> u.hostname.Some?)
    && (u.scheme.Some? ==> lib.validScheme(u.scheme.value))
    && (u.hostname.Some? ==> lib.validAuthority(PrintSite(lib, u).value))
    && lib.validPath(PrintPathAndQuery(u))
  }

  /** `TryInto<Uri>`. */
  function Print(lib: Library, u: ParsedUri): Result<Uri> {
    if Builds(lib, u) then Ok(Uri(u.scheme, PrintSite(lib, u), WithoutFragment(PrintPathAndQuery(u)))) else Err
  }

  /** The end of `build`: the checks of the parts, and then of which of them are there. */
  function Built(lib: Library, scheme: Option<string>, authority: Option<string>, pathAndQuery: string): Result<Uri> {
    if scheme.Some? && !lib.validScheme(scheme.value) then Err
    else if authority.Some? && !lib.validAuthority(authority.value) then Err
    else if !lib.validPath(pathAndQuery) then Err
    else if scheme.Some? && authority.None? then Err
    else if scheme.None? && authority.Some? then Err
    else Ok(Uri(scheme, authority, WithoutFragment(pathAndQuery)))
  }

  /** `TryInto<Uri>` as the program writes it: the authority and the path grow piece by piece. */
  method BuildUri(lib: Library, u: ParsedUri) returns (r: Result<Uri>)
    ensures r == Print(lib, u)
    ensures r.Ok? ==> (r.value.scheme.Some? <==> r.value.authority.Some?) && r.value.scheme == u.scheme
  {
    var authority := "";
    if u.user.Some? {
      authority := Encode(u.user.value);
      if u.password.Some? {
        authority := authority + ":";
        authority := authority + Encode(u.password.value);
      }
      authority := authority + "@";
      assert authority == PrintUserInfo(u);
    }
    var site: Option<string> := None;
    if u.hostname.Some? {
      authority := authority + UrlStyle(lib, u.hostname.value);
      if u.port.Some? {
        authority := authority + ":";
        authority := authority + Decimal(u.port.value);
      }
      assert authority == PrintUserInfo(u) + PrintAuthority(lib, Authority(u.hostname.value, u.port));
      site := Some(authority);
    }
    var pathAndQuery := u.path;
    if u.query.Some? {
      pathAndQuery := pathAndQuery + "?";
      pathAndQuery := pathAndQuery + u.query.value;
    }
    return Built(lib, u.scheme, site, pathAndQuery);
  }

  // ---------------------------------------------------------------------------
  // Which of them survive being printed and parsed
  // ---------------------------------------------------------------------------

  /** The strings of the program are UTF-8. */
  predicate WellTyped(lib: Library, u: ParsedUri) {
    (u.user.Some? ==> lib.isUtf8(u.user.value)) && (u.password.Some? ==> lib.isUtf8(u.password.value))
  }

  /** There is a host for the other parts of the authority, and it can be found again. */
  predicate SiteSurvives(lib: Library, u: ParsedUri) {
    match u.hostname
    case None => u.user.None? && u.password.None? && u.port.None?
    case Some(h) =>
      && (u.password.Some? ==> u.user.Some?)
      && '@' !in UrlStyle(lib, h)
      && Canonical(lib, h) && PortSafe(lib, Authority(h, u.port))
  }

  /** The path and the query are not empty and hold none of the characters that end them. */
  predicate PathSurvives(u: ParsedUri) {
    && u.path != "" && '?' !in u.path && '#' !in u.path
    && (u.query.Some? ==> u.query.value != "" && '#' !in u.query.value)
  }
}
