/** Canonicalisation of Threads post permalinks: the parser of the service against an independent grammar. */
module Permalink {
  import opened Wrappers
  import opened Text
  import Transactions

  const CANONICAL_HOST := "www.threads.net"
  const MAX_INPUT_LEN := 2048
  const HANDLE_MAX_LEN := 30
  const CODE_MAX_LEN := 128

  datatype Error =
    | TooLong(length: nat) | InvalidUrl | Scheme | NonAscii | PercentEncoded | Port | Host
    | ShortFormUnsupported | PathShape | HandleGrammar | PostCodeGrammar

  // ----- The grammar -------------------------------------------------------------------------

  predicate IsLetterOrDigit(c: char) {
    'a' <= c <= 'z' || 'A' <= c <= 'Z' || '0' <= c <= '9'
  }

  predicate ValidHandle(handle: string) {
    1 <= |handle| <= HANDLE_MAX_LEN &&
    forall i :: 0 <= i < |handle| ==> IsLetterOrDigit(handle[i]) || handle[i] == '.' || handle[i] == '_'
  }

  predicate ValidCode(code: string) {
    1 <= |code| <= CODE_MAX_LEN &&
    forall i :: 0 <= i < |code| ==> IsLetterOrDigit(code[i]) || code[i] == '_' || code[i] == '-'
  }

  /** Handles and post codes, character by character. */
  lemma NamesAreSpelled(name: string)
    ensures ValidHandle(name) <==>
            1 <= |name| <= 30 &&
            forall i :: 0 <= i < |name| ==> name[i] in LOWER_LETTERS + UPPER_LETTERS + DECIMAL_DIGITS + "._"
    ensures ValidCode(name) <==>
            1 <= |name| <= 128 &&
            forall i :: 0 <= i < |name| ==> name[i] in LOWER_LETTERS + UPPER_LETTERS + DECIMAL_DIGITS + "_-"
  {
    CharactersAreListed();
  }

  predicate AcceptedHost(host: string) {
    var lower := Lower(host);
    lower == "threads.net" || lower == "www.threads.net" || lower == "threads.com" || lower == "www.threads.com"
  }

  predicate AcceptedScheme(scheme: string) {
    Lower(scheme) == "http" || Lower(scheme) == "https"
  }

  /** Authority and path: `<host>[:<port>]/@<handle>/post/<code>` and trailing slashes. */
  datatype Location = Location(host: string, port: string, handle: string, code: string, slashes: string) {
    predicate Valid() {
      && AcceptedHost(host) && (port == "" || port == ":80" || port == ":443")
      && ValidHandle(handle) && ValidCode(code) && All(slashes, '/')
    }

    function Path(): string {
      "@" + handle + "/post/" + (code + slashes)
    }

    function Render(): string {
      host + port + "/" + Path()
    }
  }

  /** A whole permalink text; query and fragment carry their own mark. */
  datatype Url = Url(scheme: string, location: Location, query: string, fragment: string) {
    predicate Valid() {
      && AcceptedScheme(scheme) && location.Valid()
      && (query == "" || (query[0] == '?' && '#' !in query))
      && (fragment == "" || fragment[0] == '#')
      && |Render()| <= MAX_INPUT_LEN
    }

    function Render(): string {
      scheme + "://" + (location.Render() + query + fragment)
    }
  }

  // ----- The parser --------------------------------------------------------------------------

  function SplitPort(authority: string): Result<(string, string), Error> {
    var parts := SplitLast(authority, ':');
    if parts.None? then Success((authority, ""))
    else if parts.value.1 != "80" && parts.value.1 != "443" then Failure(Port)
    else Success((parts.value.0, ":" + parts.value.1))
  }

  function ParsePath(path: string): Result<(string, string, string), Error> {
    if |path| >= 2 && path[..2] == "t/" then Failure(ShortFormUnsupported)
    else if path == "" || path[0] != '@' then Failure(PathShape)
    else
      var parts := SplitOnce(path[1..], "/post/");
      if parts.None? then Failure(PathShape)
      else
        var (handle, rest) := parts.value;
        var (code, slashes) := TrimEnd(rest, '/');
        if !ValidHandle(handle) then Failure(HandleGrammar)
        else if !ValidCode(code) then Failure(PostCodeGrammar)
        else Success((handle, code, slashes))
  }

  function ParseLocation(text: string): Result<Location, Error> {
    if !IsAscii(text) then Failure(NonAscii)
    else if '%' in text then Failure(PercentEncoded)
    else
      var parts := SplitOnce(text, "/");
      var (authority, path) := if parts.Some? then parts.value else (text, "");
      match SplitPort(authority)
      case Failure(error) => Failure(error)
      case Success((host, port)) =>
        if !AcceptedHost(host) then Failure(Host)
        else
          match ParsePath(path)
          case Failure(error) => Failure(error)
          case Success((handle, code, slashes)) => Success(Location(host, port, handle, code, slashes))
  }

  /** The text before the first `c`, and from it on. */
  function CutAt(s: string, c: char): (cut: (string, string))
    ensures s == cut.0 + cut.1 && (cut.1 == "" || cut.1[0] == c)
  {
    var parts := SplitOnce(s, [c]);
    if parts.None? then (s, "") else (parts.value.0, [c] + parts.value.1)
  }

  function Parse(raw: string): Result<Url, Error> {
    if |raw| > MAX_INPUT_LEN then Failure(TooLong(|raw|))
    else
      var parts := SplitOnce(raw, "://");
      if parts.None? then Failure(InvalidUrl)
      else if !AcceptedScheme(parts.value.0) then Failure(Scheme)
      else
        var (beforeFragment, fragment) := CutAt(parts.value.1, '#');
        var (text, query) := CutAt(beforeFragment, '?');
        match ParseLocation(text)
        case Failure(error) => Failure(error)
        case Success(location) => Success(Url(parts.value.0, location, query, fragment))
  }

  function Canonical(handle: string, code: string): string {
    "https" + "://" + (CANONICAL_HOST + "/" + ("@" + Lower(handle) + "/post/" + code))
  }

  /** `TryFrom<&str> for CanonicalizedUrl` */
  function Canonicalize(raw: string): Result<string, Error> {
    match Parse(raw)
    case Failure(error) => Failure(error)
    case Success(url) => Success(Canonical(url.location.handle, url.location.code))
  }

  // ----- The parser accepts exactly the grammar ----------------------------------------------

  lemma CutsBefore(s: string, c: char)
    ensures c !in CutAt(s, c).0
  {
    NotBefore(s, c);
  }

  lemma CutsThere(a: string, b: string, c: char)
    requires c !in a && (b == "" || b[0] == c)
    ensures CutAt(a + b, c) == (a, b)
  {
    if b == "" {
      assert a + b == a;
      FindsNone(a, [c]);
    } else {
      assert b == [c] + b[1..];
      assert a + b == a + [c] + b[1..];
      SplitsFirst(a, [c], b[1..]);
    }
  }

  /** A character an accepted host may hold. */
  predicate IsHostChar(c: char) {
    'a' <= c <= 'z' || 'A' <= c <= 'Z' || c == '.'
  }

  lemma HostChars(host: string)
    requires AcceptedHost(host)
    ensures forall i :: 0 <= i < |host| ==> IsHostChar(host[i])
  {
    var lower := Lower(host);
    forall i | 0 <= i < |host| ensures IsHostChar(host[i]) {
      assert lower[i] == LowerChar(host[i]);
      assert 'a' <= lower[i] <= 'z' || lower[i] == '.';
    }
  }

  lemma PathRoundTrip(l: Location)
    requires l.Valid()
    ensures ParsePath(l.Path()) == Success((l.handle, l.code, l.slashes))
  {
    var path := l.Path();
    assert path[0] == '@' && path[1..] == l.handle + "/post/" + (l.code + l.slashes);
    assert path[..2][0] == '@';
    SplitsFirst(l.handle, "/post/", l.code + l.slashes);
    Trims(l.code, l.slashes, '/');
  }

  lemma PortRoundTrip(l: Location)
    requires l.Valid()
    ensures SplitPort(l.host + l.port) == Success((l.host, l.port))
  {
    HostChars(l.host);
    if l.port == "" {
      assert l.host + l.port == l.host;
      SplitsNowhere(l.host, ':');
    } else {
      assert l.port == ":" + l.port[1..];
      assert l.host + l.port == l.host + ":" + l.port[1..];
      SplitsLast(l.host, ':', l.port[1..]);
    }
  }

  /** A character that ends neither authority, path nor query, and is no escape. */
  predicate IsPlain(c: char) {
    c as int < 128 && c != '%' && c != '?' && c != '#'
  }

  lemma PathChars(l: Location)
    requires l.Valid()
    ensures forall c :: c in l.Path() ==> IsPlain(c)
  {
    var marker := "/post/";
    assert forall c :: c in marker ==> IsPlain(c);
    assert forall c :: c in l.handle ==> IsPlain(c);
    assert forall c :: c in l.code ==> IsPlain(c);
    assert forall c :: c in l.slashes ==> IsPlain(c);
  }

  lemma AuthorityChars(l: Location)
    requires l.Valid()
    ensures forall c :: c in l.host + l.port ==> IsPlain(c) && c != '/'
  {
    HostChars(l.host);
  }

  lemma LocationChars(l: Location)
    requires l.Valid()
    ensures IsAscii(l.Render())
    ensures '%' !in l.Render() && '?' !in l.Render() && '#' !in l.Render()
    ensures '/' !in l.host + l.port
  {
    PathChars(l);
    AuthorityChars(l);
    assert forall c :: c in l.Render() ==> c in l.host + l.port || c == '/' || c in l.Path();
    assert forall i :: 0 <= i < |l.Render()| ==> l.Render()[i] in l.Render();
  }

  lemma LocationRoundTrip(l: Location)
    requires l.Valid()
    ensures ParseLocation(l.Render()) == Success(l)
  {
    LocationChars(l);
    SplitsFirst(l.host + l.port, "/", l.Path());
    PortRoundTrip(l);
    PathRoundTrip(l);
  }

  lemma PathSound(path: string)
    requires ParsePath(path).Success?
    ensures var (handle, code, slashes) := ParsePath(path).value;
            && ValidHandle(handle) && ValidCode(code) && All(slashes, '/')
            && path == "@" + handle + "/post/" + (code + slashes)
  {
    var rest := path[1..];
    assert path == "@" + rest;
    var (handle, code, slashes) := ParsePath(path).value;
    var marked := SplitOnce(rest, "/post/").value.1;
    assert marked == code + slashes;
    assert path == "@" + (handle + "/post/" + marked);
    assert "@" + (handle + "/post/" + marked) == "@" + handle + "/post/" + marked;
  }

  lemma PortSound(authority: string)
    requires SplitPort(authority).Success?
    ensures var (host, port) := SplitPort(authority).value;
            authority == host + port && (port == "" || port == ":80" || port == ":443")
  {
  }

  lemma LocationSound(text: string)
    ensures ParseLocation(text).Success? ==>
            ParseLocation(text).value.Valid() && ParseLocation(text).value.Render() == text
  {
    if ParseLocation(text).Success? {
      var parts := SplitOnce(text, "/");
      var (authority, path) := if parts.Some? then parts.value else (text, "");
      PortSound(authority);
      PathSound(path);
      assert text == authority + "/" + path;
    }
  }

  /** Every text of the grammar is accepted and read back part by part. */
  lemma ParseRender(url: Url)
    requires url.Valid()
    ensures Parse(url.Render()) == Success(url)
  {
    var text := url.location.Render();
    assert ':' !in url.scheme;
    SplitsFirst(url.scheme, "://", text + url.query + url.fragment);
    LocationChars(url.location);
    CutsThere(text + url.query, url.fragment, '#');
    CutsThere(text, url.query, '?');
    LocationRoundTrip(url.location);
  }

  /** Every accepted text belongs to the grammar and is the rendering of what was read. */
  lemma RenderParse(raw: string)
    ensures Parse(raw).Success? ==> Parse(raw).value.Valid() && Parse(raw).value.Render() == raw
  {
    if Parse(raw).Success? {
      var (scheme, rest) := SplitOnce(raw, "://").value;
      var (beforeFragment, fragment) := CutAt(rest, '#');
      var (text, query) := CutAt(beforeFragment, '?');
      CutsBefore(rest, '#');
      LocationSound(text);
      assert '#' !in query;
      assert text + query + fragment == rest;
    }
  }

  // ----- What a refusal says -----------------------------------------------------------------

  /** Scheme, text, query and fragment of a permalink whose text is not looked at yet. */
  ghost predicate Cut(raw: string, scheme: string, text: string, query: string, fragment: string) {
    && raw == scheme + "://" + (text + query + fragment) && AcceptedScheme(scheme)
    && '?' !in text && '#' !in text + query
    && (query == "" || query[0] == '?') && (fragment == "" || fragment[0] == '#')
  }

  /** Authority and path; the path is the rest of the text from its first slash on. */
  ghost predicate Located(text: string, authority: string, path: string) {
    text == authority + path && '/' !in authority && (path == "" || path[0] == '/')
  }

  ghost predicate AcceptedPort(authority: string, host: string) {
    authority == host || authority == host + ":80" || authority == host + ":443"
  }

  /** The part after the last colon of the authority is neither `80` nor `443`. */
  ghost predicate OtherPort(authority: string) {
    exists at: nat :: at < |authority| && authority[at] == ':' && ':' !in authority[at + 1..] &&
      authority[at + 1..] != "80" && authority[at + 1..] != "443"
  }

  ghost predicate HandleFails(path: string, handle: string, rest: string) {
    path == "/@" + (handle + "/post/" + rest) && !ValidHandle(handle)
  }

  ghost predicate CodeFails(path: string, handle: string, code: string, slashes: string) {
    && path == "/@" + (handle + "/post/" + (code + slashes)) && All(slashes, '/')
    && ValidHandle(handle) && !ValidCode(code)
  }

  ghost predicate PathRefused(path: string, error: Error) {
    match error
    case ShortFormUnsupported => |path| >= 3 && path[..3] == "/t/"
    case PathShape => |path| < 2 || path[..2] != "/@" || Nowhere(path[2..], "/post/")
    case HandleGrammar => exists handle, rest :: HandleFails(path, handle, rest)
    case PostCodeGrammar => exists handle, code, slashes :: CodeFails(path, handle, code, slashes)
    case _ => false
  }

  ghost predicate HostRefused(authority: string, host: string, path: string, error: Error) {
    AcceptedPort(authority, host) &&
    if error.Host? then !AcceptedHost(host) else AcceptedHost(host) && PathRefused(path, error)
  }

  ghost predicate LocationRefused(authority: string, path: string, error: Error) {
    if error.Port? then OtherPort(authority) else exists host :: HostRefused(authority, host, path, error)
  }

  ghost predicate TextRefused(text: string, error: Error) {
    match error
    case NonAscii => !IsAscii(text)
    case PercentEncoded => IsAscii(text) && '%' in text
    case _ => exists authority, path :: Located(text, authority, path) && LocationRefused(authority, path, error)
  }

  /** The text has the fault the error names. */
  ghost predicate Refused(raw: string, error: Error) {
    match error
    case TooLong(length) => length == |raw| && MAX_INPUT_LEN < |raw|
    case InvalidUrl => Nowhere(raw, "://")
    case Scheme => exists scheme, rest :: raw == scheme + "://" + rest && !AcceptedScheme(scheme)
    case _ =>
      exists scheme, text, query, fragment :: Cut(raw, scheme, text, query, fragment) && TextRefused(text, error)
  }

  lemma PathRefusal(path: string)
    requires ParsePath(path).Failure?
    ensures PathRefused("/" + path, ParsePath(path).error)
  {
    var whole := "/" + path;
    if |path| >= 2 && path[..2] == "t/" {
      assert whole[..3] == "/" + path[..2];
    } else if path == "" || path[0] != '@' {
      assert |whole| >= 2 ==> whole[..2][1] == path[0];
    } else {
      assert whole[2..] == path[1..];
      MarkedRefusal(path);
    }
  }

  lemma MarkedRefusal(path: string)
    requires path != "" && path[0] == '@' && ParsePath(path).Failure?
    ensures PathRefused("/" + path, ParsePath(path).error)
  {
    var whole, marked := "/" + path, path[1..];
    assert whole == "/@" + marked && whole[2..] == marked;
    assert !(|path| >= 2 && path[..2] == "t/") by {
      assert |path| >= 2 ==> path[..2][0] == '@';
    }
    NotFoundIsNowhere(marked, "/post/");
    var parts := SplitOnce(marked, "/post/");
    if parts.Some? {
      var (handle, rest) := parts.value;
      var (code, slashes) := TrimEnd(rest, '/');
      if !ValidHandle(handle) {
        assert HandleFails(whole, handle, rest);
      } else {
        assert CodeFails(whole, handle, code, slashes);
      }
    }
  }

  lemma PortRefusal(authority: string)
    requires SplitPort(authority).Failure?
    ensures SplitPort(authority).error.Port? && OtherPort(authority)
  {
    var (host, port) := SplitLast(authority, ':').value;
    assert authority[|host|] == ':' && authority[|host| + 1..] == port;
  }

  lemma AuthorityRefusal(authority: string, path: string, tail: string)
    requires tail == "/" + path || (tail == "" && path == "")
    requires SplitPort(authority).Success?
    ensures var host := SplitPort(authority).value.0;
            (!AcceptedHost(host) ==> HostRefused(authority, host, tail, Host)) &&
            (AcceptedHost(host) && ParsePath(path).Failure? ==>
               HostRefused(authority, host, tail, ParsePath(path).error))
  {
    PortSound(authority);
    assert AcceptedPort(authority, SplitPort(authority).value.0);
    if ParsePath(path).Failure? {
      PathRefusal(path);
    }
  }

  lemma SlashSplit(text: string) returns (authority: string, path: string, tail: string)
    ensures (authority, path) == if SplitOnce(text, "/").Some? then SplitOnce(text, "/").value else (text, "")
    ensures tail == "/" + path || (tail == "" && path == "")
    ensures Located(text, authority, tail)
  {
    var parts := SplitOnce(text, "/");
    NotBefore(text, '/');
    if parts.Some? {
      authority, path, tail := parts.value.0, parts.value.1, "/" + parts.value.1;
      assert text == authority + tail;
    } else {
      authority, path, tail := text, "", "";
    }
  }

  lemma LocationRefusal(text: string)
    requires ParseLocation(text).Failure?
    ensures TextRefused(text, ParseLocation(text).error)
    ensures var error := ParseLocation(text).error; !error.TooLong? && !error.InvalidUrl? && !error.Scheme?
  {
    if IsAscii(text) && '%' !in text {
      var authority, path, tail := SlashSplit(text);
      if SplitPort(authority).Failure? {
        PortRefusal(authority);
      } else {
        AuthorityRefusal(authority, path, tail);
      }
      assert LocationRefused(authority, tail, ParseLocation(text).error);
    }
  }

  /** Every refusal is true: the text has the fault its error names, and what is read before it is in order. */
  lemma RefusalIsTrue(raw: string)
    requires Parse(raw).Failure?
    ensures Refused(raw, Parse(raw).error)
  {
    NotFoundIsNowhere(raw, "://");
    if |raw| <= MAX_INPUT_LEN && SplitOnce(raw, "://").Some? {
      var (scheme, rest) := SplitOnce(raw, "://").value;
      if AcceptedScheme(scheme) {
        var (beforeFragment, fragment) := CutAt(rest, '#');
        var (text, query) := CutAt(beforeFragment, '?');
        CutsBefore(rest, '#');
        CutsBefore(beforeFragment, '?');
        assert Cut(raw, scheme, text, query, fragment);
        LocationRefusal(text);
      }
    }
  }

  // ----- What canonicalisation promises ------------------------------------------------------

  function CanonicalUrl(handle: string, code: string): Url {
    Url("https", Location(CANONICAL_HOST, "", Lower(handle), code, ""), "", "")
  }

  lemma LowerHandle(handle: string)
    requires ValidHandle(handle)
    ensures ValidHandle(Lower(handle))
  {
    var lower := Lower(handle);
    forall i | 0 <= i < |lower| ensures IsLetterOrDigit(lower[i]) || lower[i] == '.' || lower[i] == '_' {
      assert lower[i] == LowerChar(handle[i]);
    }
  }

  lemma CanonicalRenders(handle: string, code: string)
    ensures CanonicalUrl(handle, code).Render() == Canonical(handle, code)
  {
    var url := CanonicalUrl(handle, code);
    assert code + "" == code && CANONICAL_HOST + "" == CANONICAL_HOST;
    assert url.location.Render() + url.query + url.fragment == url.location.Render();
  }

  lemma CanonicalIsValid(handle: string, code: string)
    requires ValidHandle(handle) && ValidCode(code)
    ensures CanonicalUrl(handle, code).Valid() && CanonicalUrl(handle, code).Render() == Canonical(handle, code)
  {
    LowerHandle(handle);
    LowerKeeps("https");
    LowerKeeps(CANONICAL_HOST);
    CanonicalRenders(handle, code);
    assert |Canonical(handle, code)| == 25 + |handle| + 6 + |code|;
  }

  /** The canonical form of an accepted text is accepted and is its own canonical form. */
  lemma CanonicalIsFixed(raw: string)
    ensures Canonicalize(raw).Success? ==> Canonicalize(Canonicalize(raw).value) == Canonicalize(raw)
  {
    if Canonicalize(raw).Success? {
      RenderParse(raw);
      var l := Parse(raw).value.location;
      CanonicalIsValid(l.handle, l.code);
      ParseRender(CanonicalUrl(l.handle, l.code));
      LowerTwice(l.handle);
    }
  }

  /**
   Two accepted texts have the same permalink exactly when their codes are equal and their handles
   are equal up to ASCII case, whatever scheme, host, port, query, fragment or trailing slashes.
   */
  lemma SamePermalinkIffSamePost(a: Url, b: Url)
    requires a.Valid() && b.Valid()
    ensures Canonicalize(a.Render()).Success? && Canonicalize(b.Render()).Success?
    ensures Canonicalize(a.Render()) == Canonicalize(b.Render()) <==>
            a.location.code == b.location.code && Lower(a.location.handle) == Lower(b.location.handle)
  {
    ParseRender(a);
    ParseRender(b);
    var l, m := a.location, b.location;
    CanonicalIsValid(l.handle, l.code);
    CanonicalIsValid(m.handle, m.code);
    if Canonical(l.handle, l.code) == Canonical(m.handle, m.code) {
      ParseRender(CanonicalUrl(l.handle, l.code));
      ParseRender(CanonicalUrl(m.handle, m.code));
    }
  }

  /** The provider identity an observation of a canonical permalink carries is its post code. */
  lemma IdentityIsCode(handle: string, code: string)
    requires ValidCode(code)
    ensures Transactions.LastSegment(Canonical(handle, code)) == code
  {
    var front := "https" + "://" + (CANONICAL_HOST + "/" + ("@" + Lower(handle) + "/post"));
    assert Canonical(handle, code) == front + "/" + code;
    LastSegmentIs(front + "/", code);
  }

  lemma {:induction false} LastSegmentIs(front: string, code: string)
    requires front != "" && front[|front| - 1] == '/' && '/' !in code
    ensures Transactions.LastSegment(front + code) == code
    decreases |code|
  {
    if code == "" {
      assert front + code == front;
    } else {
      var init, last := code[..|code| - 1], code[|code| - 1];
      assert last in code;
      assert (front + code)[..|front + code| - 1] == front + init;
      LastSegmentIs(front, init);
      assert code == init + [last];
    }
  }
}
