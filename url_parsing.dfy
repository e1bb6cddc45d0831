/** utils/url_parsing.py: `parse_host_url` turns what a user types after `--host` into a complete
    base URL with a scheme and a port. Input with "://" goes through `urllib.parse.urlparse`,
    whose relevant part is modelled here as well; other input is completed to `http://...:8000`. */
module UrlParsing {
  import opened Wrappers
  import opened Text

  /** The `ValueError`s `parse_host_url` raises, its own and those `urlparse` raises through it. */
  datatype HostError =
    | EmptyHost                     // "Host URL cannot be empty"
    | InvalidHostUrl(input: string) // "Invalid host URL: <input>"
    | InvalidIpv6Url                // urlsplit: a netloc with one bracket but not the other
    | PortNotInteger(port: string)  // the `port` property: not ASCII digits
    | PortOutOfRange                // the `port` property: above 65535

  // ---------------------------------------------------------------------------------------------
  // Characters and searching

  predicate IsAsciiAlpha(c: char) {
    'a' <= c <= 'z' || 'A' <= c <= 'Z'
  }

  /** The characters `urllib.parse` allows in a scheme. */
  predicate IsSchemeChar(c: char) {
    IsAsciiAlpha(c) || IsDigit(c) || c == '+' || c == '-' || c == '.'
  }

  /** A scheme: a letter, then scheme characters. */
  predicate IsScheme(s: string) {
    |s| > 0 && IsAsciiAlpha(s[0]) && forall i | 0 <= i < |s| :: IsSchemeChar(s[i])
  }

  /** The characters of the address inside the brackets of the IPv6 pattern, `[a-fA-F0-9:]`. */
  predicate IsHexOrColon(c: char) {
    IsDigit(c) || 'a' <= c <= 'f' || 'A' <= c <= 'F' || c == ':'
  }

  /** The index of the first character of `s` in `stops`, or `|s|` when there is none. */
  function FirstOf(s: string, stops: set<char>): (i: nat)
    ensures i <= |s| && (i < |s| ==> s[i] in stops)
    ensures forall j | 0 <= j < i :: s[j] !in stops
  {
    if s == [] || s[0] in stops then 0 else 1 + FirstOf(s[1..], stops)
  }

  /** The length of the longest prefix of `s` made of `[a-fA-F0-9:]`. */
  function HexRun(s: string): (n: nat)
    ensures n <= |s| && (n < |s| ==> !IsHexOrColon(s[n]))
    ensures forall j | 0 <= j < n :: IsHexOrColon(s[j])
  {
    if s == [] || !IsHexOrColon(s[0]) then 0 else 1 + HexRun(s[1..])
  }

  /** `s.partition(c)[2]`: the text after the first `c`, or "" when there is none. */
  function AfterFirst(s: string, c: char): (r: string)
    ensures c in s ==> s == BeforeFirst(s, c) + [c] + r
    ensures c !in s ==> r == []
  {
    var b := BeforeFirst(s, c);
    if |b| < |s| then
      assert s == b + [c] + s[|b| + 1..];
      s[|b| + 1..]
    else
      assert b == s;
      []
  }

  // ---------------------------------------------------------------------------------------------
  // urlparse

  /** The leading characters `urlsplit` strips first: the C0 controls and the space. */
  function StripC0Left(s: string): (r: string)
  {
    if s != [] && s[0] <= ' ' then StripC0Left(s[1..]) else s
  }

  /** The tab, carriage return and line feed `urlsplit` removes wherever they are. */
  function RemoveUnsafe(s: string): (r: string)
    ensures '\t' !in r && '\r' !in r && '\n' !in r
  {
    if s == [] then []
    else (if s[0] in {'\t', '\r', '\n'} then [] else [s[0]]) + RemoveUnsafe(s[1..])
  }

  /** The parts of a URL `parse_host_url` reads: the scheme (lower-cased), the network location
      and the path (without its query, fragment and parameters). */
  datatype Parsed = Parsed(scheme: string, netloc: string, path: string)

  /** A scheme is text before the first ':' that starts with a letter and holds only scheme
      characters; otherwise there is none and the whole URL is the rest. */
  function SplitScheme(url: string): (r: (string, string))
    ensures r.0 == [] || IsScheme(r.0)
  {
    var i := |BeforeFirst(url, ':')|;
    if 0 < i < |url| && IsAsciiAlpha(url[0]) && (forall k | 0 <= k < i :: IsSchemeChar(url[k])) then
      (Lower(url[..i]), url[i + 1..])
    else ("", url)
  }

  /** After "//", the network location runs to the first '/', '?' or '#'. */
  function SplitNetloc(rest: string): (r: (string, string))
  {
    if |rest| >= 2 && rest[..2] == "//" then
      var j := 2 + FirstOf(rest[2..], {'/', '?', '#'});
      (rest[2..j], rest[j..])
    else ("", rest)
  }

  /** The schemes whose last path segment may carry `;parameters`. */
  const UsesParams: set<string> := {"", "ftp", "hdl", "prospero", "http", "imap", "https", "shttp",
    "rtsp", "rtsps", "rtspu", "sip", "sips", "mms", "sftp", "tel"}

  /** `_splitparams(path)[0]`: the path without the parameters of its last segment. */
  function DropParams(path: string): (r: string)
    ensures |r| <= |path| && r == path[..|r|]
  {
    if '/' in path then
      var slash := |path| - |AfterLast(path, '/')| - 1;
      var k := FirstOf(path[slash..], {';'});
      if slash + k == |path| then path else path[..slash + k]
    else path[..FirstOf(path, {';'})]
  }

  /** The path: what follows the network location up to a '?' or '#', without parameters. */
  function PathOf(scheme: string, rest: string): string {
    var p := rest[..FirstOf(rest, {'?', '#'})];
    if scheme in UsesParams && ';' in p then DropParams(p) else p
  }

  /** `urlparse(url)`, as far as `parse_host_url` uses it. */
  function UrlParse(url: string): (r: Result<Parsed, HostError>)
    ensures r.Ok? ==> r.value.scheme == [] || IsScheme(r.value.scheme)
    ensures r.Err? ==> r.error == InvalidIpv6Url
  {
    var u := RemoveUnsafe(StripC0Left(url));
    var (scheme, rest) := SplitScheme(u);
    var (netloc, rest') := SplitNetloc(rest);
    if ('[' in netloc) != (']' in netloc) then Err(InvalidIpv6Url)
    else Ok(Parsed(scheme, netloc, PathOf(scheme, rest')))
  }

  /** The host and the port text of a network location: after the last '@', either the text
      between '[' and ']' and what follows a ':' after the ']', or the text around the first ':'. */
  function HostInfo(netloc: string): (string, string) {
    var info := AfterLast(netloc, '@');
    if '[' in info then
      var bracketed := AfterFirst(info, '[');
      (BeforeFirst(bracketed, ']'), AfterFirst(AfterFirst(bracketed, ']'), ':'))
    else (BeforeFirst(info, ':'), AfterFirst(info, ':'))
  }

  /** The `port` property: none, a number from 0 to 65535, or an error. */
  function PortOf(netloc: string): (r: Result<Option<nat>, HostError>)
    ensures r.Ok? && r.value.Some? ==> r.value.value <= 65535
    ensures r.Err? ==> r.error.PortNotInteger? || r.error.PortOutOfRange?
  {
    var p := HostInfo(netloc).1;
    if p == [] then Ok(None)
    else if !IsDigits(p) then Err(PortNotInteger(p))
    else if DigitsValue(p) > 65535 then Err(PortOutOfRange)
    else Ok(Some(DigitsValue(p)))
  }

  /** The `hostname` property: none for an empty host, otherwise the host lower-cased up to a '%'
      and kept as it is from there. */
  function Hostname(netloc: string): Option<string> {
    var h := HostInfo(netloc).0;
    if h == [] then None
    else
      var b := BeforeFirst(h, '%');
      Some(Lower(b) + h[|b|..])
  }

  // ---------------------------------------------------------------------------------------------
  // parse_host_url

  /** How an f-string shows an optional host. */
  function HostText(h: Option<string>): string {
    match h
    case Some(s) => s
    case None => "None"
  }

  /** The port added when a URL has none. */
  function DefaultPort(scheme: string): string {
    if scheme == "https" then "443" else "8000"
  }

  /** The branch for input with "://": the URL must have a scheme and a network location; a path
      of "/" alone is dropped; without a port (or with port 0) the lower-cased host gets the
      scheme's default port, otherwise the network location is kept as written. */
  function FromUrl(h: string): (r: Result<string, HostError>)
    ensures r.Err? ==> r.error != EmptyHost
    ensures r.Err? && r.error.InvalidHostUrl? ==> r.error.input == h
  {
    match UrlParse(h)
    case Err(e) => Err(e)
    case Ok(p) =>
      if p.scheme == [] || p.netloc == [] then Err(InvalidHostUrl(h))
      else
        var path := if p.path == "/" then "" else p.path;
        match PortOf(p.netloc)
        case Err(e) => Err(e)
        case Ok(port) =>
          if port == None || port == Some(0) then
            Ok(p.scheme + "://" + (HostText(Hostname(p.netloc)) + ":" + DefaultPort(p.scheme) + path))
          else Ok(p.scheme + "://" + (p.netloc + path))
  }

  /** One trailing '/' removed. */
  function WithoutTrailingSlash(h: string): (r: string) {
    if |h| > 0 && h[|h| - 1] == '/' then h[..|h| - 1] else h
  }

  /** The pattern `^\[([a-fA-F0-9:]+)\](?::(\d+))?$`: the address and the port, if any. As `$`
      does, the match may end just before a final line feed. */
  function MatchIpv6(h: string): (r: Option<(string, Option<string>)>)
  {
    if h == [] || h[0] != '[' then None
    else
      var n := HexRun(h[1..]);
      var close := 1 + n;
      if n == 0 || close >= |h| || h[close] != ']' then None
      else
        var addr := h[1..close];
        var tail := h[close + 1..];
        var body := if |tail| > 0 && tail[|tail| - 1] == '\n' then tail[..|tail| - 1] else tail;
        if body == [] then Some((addr, None))
        else if body[0] == ':' && IsDigits(body[1..]) then Some((addr, Some(body[1..])))
        else None
  }

  /** The branch for input without "://": a bracketed IPv6 address keeps its port or gets 8000;
      text with two or more ':' is an IPv6 address, bracketed if it is not already; text with one
      ':' keeps a port of digits and otherwise gets ":8000"; anything else gets ":8000". */
  function FromHost(h: string): (r: string)
    ensures StartsWith(r, "http://")
  {
    match MatchIpv6(h)
    case Some((addr, port)) => "http://[" + addr + "]:" + port.GetOr("8000")
    case None =>
      var colons := CountChar(h, ':');
      if colons >= 2 then
        if |h| > 0 && h[0] == '[' && h[|h| - 1] == ']' then "http://" + h + ":8000" else "http://[" + h + "]:8000"
      else if colons == 1 then
        if IsDigits(AfterLast(h, ':')) then "http://" + h else "http://" + h + ":8000"
      else "http://" + h + ":8000"
  }

  /** `parse_host_url`: `None` and blank input are refused; otherwise the stripped input goes to
      the "://" branch or, without its trailing '/', to the host branch. */
  function ParseHostUrl(input: Option<string>): (r: Result<string, HostError>)
    ensures r == Err(EmptyHost) <==> input.None? || IsBlank(input.value)
    ensures input.Some? && !IsBlank(input.value) && !Contains(Strip(input.value), "://") ==>
      r.Ok? && StartsWith(r.value, "http://")
    ensures r.Err? && r.error.InvalidHostUrl? ==>
      input.Some? && r.error.input == Strip(input.value) && Contains(Strip(input.value), "://")
  {
    if input.None? || IsBlank(input.value) then Err(EmptyHost)
    else
      var h := Strip(input.value);
      if Contains(h, "://") then FromUrl(h) else Ok(FromHost(WithoutTrailingSlash(h)))
  }

  // ---------------------------------------------------------------------------------------------
  // Searching, characterised

  /** The first `c` of `s` is right after `a`. */
  lemma {:induction false} BeforeFirstIs(s: string, c: char, a: string)
    requires StartsWith(s, a) && c !in a && (|a| < |s| ==> s[|a|] == c)
    ensures BeforeFirst(s, c) == a
  {
    if s != [] && s[0] != c {
      BeforeFirstIs(s[1..], c, a[1..]);
    }
  }

  /** The last `c` of `s` is right before `t`. */
  lemma {:induction false} AfterLastIs(s: string, c: char, t: string)
    requires EndsWith(s, t) && c !in t && (|t| < |s| ==> s[|s| - |t| - 1] == c)
    ensures AfterLast(s, c) == t
  {
    if s != [] && s[|s| - 1] != c {
      AfterLastIs(s[..|s| - 1], c, t[..|t| - 1]);
    }
  }

  /** The first character of `s` in `stops` is at `i`. */
  lemma {:induction false} FirstOfIs(s: string, stops: set<char>, i: nat)
    requires i <= |s| && (forall j | 0 <= j < i :: s[j] !in stops) && (i < |s| ==> s[i] in stops)
    ensures FirstOf(s, stops) == i
  {
    if s != [] && s[0] !in stops {
      FirstOfIs(s[1..], stops, i - 1);
    }
  }

  /** Text in which no ':' is followed by a '/' holds no "://". */
  lemma {:induction false} NoSeparator(s: string)
    requires forall i | 0 <= i < |s| - 1 :: s[i] != ':' || s[i + 1] != '/'
    ensures !Contains(s, "://")
  {
    if s != [] {
      if |s| >= 3 {
        assert s[..3][0] == s[0] && s[..3][1] == s[1];
      }
      NoSeparator(s[1..]);
    }
  }

  lemma {:induction false} CountCharAppend(a: string, b: string, c: char)
    ensures CountChar(a + b, c) == CountChar(a, c) + CountChar(b, c)
  {
    if b == [] {
      assert a + b == a;
    } else {
      CountCharAppend(a, b[..|b| - 1], c);
      assert (a + b)[..|a + b| - 1] == a + b[..|b| - 1];
    }
  }

  /** Visible ASCII: neither whitespace nor a control character. */
  predicate IsVisible(c: char) {
    '!' <= c <= '~'
  }

  /** `urlsplit` leaves text of visible characters as it is. */
  lemma {:induction false} CleanUnchanged(s: string)
    requires forall i | 0 <= i < |s| :: IsVisible(s[i])
    ensures StripC0Left(s) == s && RemoveUnsafe(s) == s
  {
    if s != [] {
      CleanUnchanged(s[1..]);
      assert s == [s[0]] + s[1..];
    }
  }

  /** `parse_host_url` strips nothing from non-empty text of visible characters. */
  lemma VisibleInput(s: string)
    requires s != [] && forall i | 0 <= i < |s| :: IsVisible(s[i])
    ensures !IsBlank(s) && Strip(s) == s && RemoveUnsafe(StripC0Left(s)) == s
  {
    assert !IsSpace(s[0]);
    StripUnchanged(s);
    CleanUnchanged(s);
  }

  // ---------------------------------------------------------------------------------------------
  // The inputs the properties are stated for

  /** The characters of a plain host name or IPv4 address. */
  predicate PlainChar(c: char) {
    IsAsciiAlpha(c) || IsDigit(c) || c == '.' || c == '-' || c == '_'
  }

  /** A host name or IPv4 address without a port, user, brackets or path. */
  predicate PlainHost(h: string) {
    |h| > 0 && forall i | 0 <= i < |h| :: PlainChar(h[i])
  }

  /** Text of plain characters, possibly empty. */
  predicate PlainText(t: string) {
    forall i | 0 <= i < |t| :: PlainChar(t[i])
  }

  /** A path of plain segments: empty, or starting with '/'. */
  predicate PlainPath(p: string) {
    p == [] || (p[0] == '/' && forall i | 0 <= i < |p| :: PlainChar(p[i]) || p[i] == '/')
  }

  /** A scheme in lower case. */
  predicate LowerScheme(s: string) {
    |s| > 0 && 'a' <= s[0] <= 'z'
    && forall i | 0 <= i < |s| :: 'a' <= s[i] <= 'z' || IsDigit(s[i]) || s[i] == '+' || s[i] == '-' || s[i] == '.'
  }

  /** A network location `urlsplit` passes on unchanged: visible characters other than '/', '?',
      '#' and the brackets. */
  predicate PlainNetloc(n: string) {
    forall i | 0 <= i < |n| :: IsVisible(n[i]) && n[i] != '/' && n[i] != '?' && n[i] != '#' && n[i] != '[' && n[i] != ']'
  }

  /** Input the host branch receives as it is: visible, and no ':' followed by '/'. */
  predicate HostInput(s: string) {
    && s != []
    && (forall i | 0 <= i < |s| :: IsVisible(s[i]))
    && (forall i | 0 <= i < |s| - 1 :: s[i] != ':' || s[i + 1] != '/')
  }

  // ---------------------------------------------------------------------------------------------
  // One step at a time

  /** Input that needs no stripping goes to the host branch when it holds no "://"... */
  lemma HostBranch(s: string)
    requires !IsBlank(s) && Strip(s) == s && !Contains(s, "://")
    ensures ParseHostUrl(Some(s)) == Ok(FromHost(WithoutTrailingSlash(s)))
  {
  }

  /** ... and to the URL branch when it does. */
  lemma UrlBranch(s: string)
    requires !IsBlank(s) && Strip(s) == s && Contains(s, "://")
    ensures ParseHostUrl(Some(s)) == FromUrl(s)
  {
  }

  lemma HostInputBranch(s: string)
    requires HostInput(s)
    ensures ParseHostUrl(Some(s)) == Ok(FromHost(WithoutTrailingSlash(s)))
  {
    VisibleInput(s);
    NoSeparator(s);
    HostBranch(s);
  }

  /** A '/' appended to host input not ending in ':' is host input again, and is removed again. */
  lemma SlashAppended(s: string)
    requires HostInput(s) && s[|s| - 1] != ':'
    ensures HostInput(s + "/") && WithoutTrailingSlash(s + "/") == s
  {
    var t := s + "/";
    assert forall i | 0 <= i < |s| :: t[i] == s[i];
    assert t[..|s|] == s;
  }

  lemma FromHostNoColon(h: string)
    requires h != [] && h[0] != '[' && CountChar(h, ':') == 0
    ensures FromHost(h) == "http://" + h + ":8000"
  {
  }

  lemma FromHostOneColon(h: string, text: string)
    requires h != [] && h[0] != '[' && CountChar(h, ':') == 1 && AfterLast(h, ':') == text
    ensures FromHost(h) == if IsDigits(text) then "http://" + h else "http://" + h + ":8000"
  {
  }

  lemma FromHostColons(h: string)
    requires h != [] && h[0] != '[' && CountChar(h, ':') >= 2
    ensures FromHost(h) == "http://[" + h + "]:8000"
  {
  }

  lemma FromHostMatched(h: string, addr: string, port: Option<string>)
    requires MatchIpv6(h) == Some((addr, port))
    ensures FromHost(h) == "http://[" + addr + "]:" + port.GetOr("8000")
  {
  }

  /** Without a port, or with port 0, the host gets the scheme's default port. */
  lemma FromUrlDefault(h: string, p: Parsed, hostname: string)
    requires UrlParse(h) == Ok(p) && p.scheme != [] && p.netloc != []
    requires PortOf(p.netloc) == Ok(None) || PortOf(p.netloc) == Ok(Some(0))
    requires Hostname(p.netloc) == Some(hostname)
    ensures FromUrl(h) == Ok(p.scheme + "://" + (hostname + ":" + DefaultPort(p.scheme) + (if p.path == "/" then "" else p.path)))
  {
  }

  /** With any other port, the network location is kept. */
  lemma FromUrlKept(h: string, p: Parsed, port: nat)
    requires UrlParse(h) == Ok(p) && p.scheme != [] && p.netloc != []
    requires PortOf(p.netloc) == Ok(Some(port)) && port != 0
    ensures FromUrl(h) == Ok(p.scheme + "://" + (p.netloc + (if p.path == "/" then "" else p.path)))
  {
  }

  lemma FromUrlPortError(h: string, p: Parsed)
    requires UrlParse(h) == Ok(p) && p.scheme != [] && p.netloc != [] && PortOf(p.netloc).Err?
    ensures FromUrl(h) == Err(PortOf(p.netloc).error)
  {
  }

  lemma FromUrlInvalid(h: string, p: Parsed)
    requires UrlParse(h) == Ok(p) && (p.scheme == [] || p.netloc == [])
    ensures FromUrl(h) == Err(InvalidHostUrl(h))
  {
  }

  /** The path without its last segment's parameters is the path itself when it has no ';'. */
  lemma PathOfPlain(scheme: string, p: string)
    requires PlainPath(p)
    ensures PathOf(scheme, p) == p
  {
    FirstOfIs(p, {'?', '#'}, |p|);
    assert p[..|p|] == p;
  }

  lemma SplitSchemeOf(scheme: string, rest: string)
    requires LowerScheme(scheme)
    ensures SplitScheme(scheme + ":" + rest) == (scheme, rest)
  {
    var u := scheme + ":" + rest;
    assert u[..|scheme|] == scheme;
    BeforeFirstIs(u, ':', scheme);
    assert forall k | 0 <= k < |scheme| :: u[k] == scheme[k];
    assert u[|scheme| + 1..] == rest;
    assert Lower(scheme) == scheme;
  }

  lemma SplitNetlocOf(netloc: string, path: string)
    requires PlainNetloc(netloc) && PlainPath(path)
    ensures SplitNetloc("//" + netloc + path) == (netloc, path)
  {
    var rest := "//" + netloc + path;
    assert rest[..2] == "//";
    assert rest[2..] == netloc + path;
    var np := netloc + path;
    assert forall j | 0 <= j < |netloc| :: np[j] == netloc[j];
    FirstOfIs(np, {'/', '?', '#'}, |netloc|);
    assert rest[2..2 + |netloc|] == netloc && rest[2 + |netloc|..] == path;
  }

  lemma UrlVisible(scheme: string, netloc: string, path: string)
    requires LowerScheme(scheme) && PlainNetloc(netloc) && PlainPath(path)
    ensures var u := scheme + "://" + netloc + path; forall i | 0 <= i < |u| :: IsVisible(u[i])
  {
    var u := scheme + "://" + netloc + path;
    forall i | 0 <= i < |u| ensures IsVisible(u[i]) {
      if i < |scheme| { assert u[i] == scheme[i]; }
      else if i < |scheme| + 3 { }
      else if i < |scheme| + 3 + |netloc| { assert u[i] == netloc[i - |scheme| - 3]; }
      else { assert u[i] == path[i - |scheme| - 3 - |netloc|]; }
    }
  }

  /** `urlparse` of a URL built from a lower-case scheme, a plain network location and a plain path
      gives back those three parts. */
  lemma UrlParseOf(scheme: string, netloc: string, path: string)
    requires LowerScheme(scheme) && PlainNetloc(netloc) && PlainPath(path)
    ensures UrlParse(scheme + "://" + netloc + path) == Ok(Parsed(scheme, netloc, path))
  {
    var u := scheme + "://" + netloc + path;
    UrlVisible(scheme, netloc, path);
    CleanUnchanged(u);
    assert u == scheme + ":" + ("//" + netloc + path);
    SplitSchemeOf(scheme, "//" + netloc + path);
    SplitNetlocOf(netloc, path);
    PathOfPlain(scheme, path);
  }

  /** The input `scheme://netloc/path` goes to the URL branch as it is, and parses into its parts. */
  lemma UrlInput(scheme: string, netloc: string, path: string)
    requires LowerScheme(scheme) && PlainNetloc(netloc) && PlainPath(path)
    ensures var u := scheme + "://" + netloc + path;
      ParseHostUrl(Some(u)) == FromUrl(u) && UrlParse(u) == Ok(Parsed(scheme, netloc, path))
  {
    var u := scheme + "://" + netloc + path;
    UrlVisible(scheme, netloc, path);
    VisibleInput(u);
    assert u[|scheme|..|scheme| + 3] == "://";
    ContainsAt(u, "://", |scheme|);
    UrlBranch(u);
    UrlParseOf(scheme, netloc, path);
  }

  lemma HostInfoUnbracketed(n: string)
    requires '@' !in n && '[' !in n
    ensures HostInfo(n) == (BeforeFirst(n, ':'), AfterFirst(n, ':'))
  {
  }

  lemma HostnameIs(n: string, host: string)
    requires HostInfo(n).0 == host && host != [] && '%' !in host
    ensures Hostname(n) == Some(Lower(host))
  {
    NoZone(host);
  }

  /** A host without a '%' has no zone to keep out of the lower-casing. */
  lemma NoZone(host: string)
    requires '%' !in host
    ensures var b := BeforeFirst(host, '%'); Lower(b) + host[|b|..] == Lower(host)
  {
    assert host[..|host|] == host;
    BeforeFirstIs(host, '%', host);
    assert Lower(host) + host[|host|..] == Lower(host);
  }

  /** A plain host has no port, and its host name is itself in lower case. */
  lemma HostOf(host: string)
    requires PlainHost(host)
    ensures PlainNetloc(host) && host != []
    ensures PortOf(host) == Ok(None) && Hostname(host) == Some(Lower(host))
  {
    PlainHostText(host);
    HostInfoUnbracketed(host);
    HostnameIs(host, host);
  }

  lemma PlainHostText(host: string)
    requires PlainHost(host)
    ensures PlainNetloc(host) && '@' !in host && '[' !in host && '%' !in host
    ensures BeforeFirst(host, ':') == host && AfterFirst(host, ':') == []
  {
    assert host[..|host|] == host;
    BeforeFirstIs(host, ':', host);
  }

  /** `host:port` has the port text `port` and the host name `host` in lower case. */
  lemma HostAndPortOf(host: string, port: string)
    requires PlainHost(host) && PlainText(port)
    ensures var n := host + ":" + port;
      && PlainNetloc(n) && n != [] && HostInfo(n) == (host, port) && Hostname(n) == Some(Lower(host))
  {
    var n := host + ":" + port;
    HostPortText(host, port);
    HostInfoUnbracketed(n);
    HostnameIs(n, host);
  }

  lemma HostPortText(host: string, port: string)
    requires PlainHost(host) && PlainText(port)
    ensures var n := host + ":" + port;
      && PlainNetloc(n) && n != [] && '@' !in n && '[' !in n && '%' !in host
      && BeforeFirst(n, ':') == host && AfterFirst(n, ':') == port
  {
    var n := host + ":" + port;
    forall i | 0 <= i < |n| ensures PlainChar(n[i]) || n[i] == ':' {
      if i < |host| { assert n[i] == host[i]; }
      else if i > |host| { assert n[i] == port[i - |host| - 1]; }
    }
    assert n[..|host|] == host;
    BeforeFirstIs(n, ':', host);
    assert n == host + [':'] + port;
  }

  /** `host:text` is host input with one ':', after which comes `text`. */
  lemma HostColonText(host: string, text: string)
    requires PlainHost(host) && PlainText(text)
    ensures var s := host + ":" + text;
      && HostInput(s) && s[0] != '[' && WithoutTrailingSlash(s) == s
      && CountChar(s, ':') == 1 && AfterLast(s, ':') == text
  {
    var s := host + ":" + text;
    forall i | 0 <= i < |s| ensures IsVisible(s[i]) && s[i] != '/' && (s[i] == ':' ==> i == |host|) {
      if i < |host| { assert s[i] == host[i]; }
      else if i > |host| { assert s[i] == text[i - |host| - 1]; }
    }
    assert s[0] == host[0];
    assert s[|s| - 1] != '/';
    OneColon(host, text);
    assert s[|s| - |text|..] == text;
    AfterLastIs(s, ':', text);
  }

  lemma OneColon(a: string, b: string)
    requires ':' !in a && ':' !in b
    ensures CountChar(a + ":" + b, ':') == 1
  {
    CountCharZero(a, ':');
    CountCharZero(b, ':');
    assert CountChar(":", ':') == 1 by {
      assert ":"[..0] == [];
    }
    CountCharAppend(a, ":", ':');
    CountCharAppend(a + ":", b, ':');
  }

  lemma {:induction false} HexRunIs(s: string, n: nat)
    requires n <= |s| && (forall j | 0 <= j < n :: IsHexOrColon(s[j])) && (n < |s| ==> !IsHexOrColon(s[n]))
    ensures HexRun(s) == n
  {
    if s != [] && IsHexOrColon(s[0]) {
      HexRunIs(s[1..], n - 1);
    }
  }

  /** The IPv6 pattern matches "[addr]" and "[addr]:port", which are host input. */
  lemma BracketedMatch(addr: string, tail: string)
    requires addr != [] && (forall i | 0 <= i < |addr| :: IsHexOrColon(addr[i]))
    requires tail == [] || (tail[0] == ':' && IsDigits(tail[1..]))
    ensures var s := "[" + addr + "]" + tail;
      && HostInput(s) && s[|s| - 1] != ':' && WithoutTrailingSlash(s) == s
      && MatchIpv6(s) == Some((addr, if tail == [] then None else Some(tail[1..])))
  {
    var s := "[" + addr + "]" + tail;
    forall i | 0 <= i < |s| ensures IsVisible(s[i]) && s[i] != '/' {
      if 0 < i <= |addr| { assert s[i] == addr[i - 1]; }
      else if i > |addr| + 2 { assert s[i] == tail[i - |addr| - 2]; }
    }
    assert s[|s| - 1] != '/' && s[|s| - 1] != ':';
    var r := s[1..];
    assert forall j | 0 <= j < |addr| :: r[j] == addr[j];
    assert r[|addr|] == ']';
    HexRunIs(r, |addr|);
    assert s[1..1 + |addr|] == addr;
    assert s[2 + |addr|..] == tail;
  }

  /** How the bracketed forms are spelled. */
  lemma BracketSpelling(addr: string, port: string)
    requires IsDigits(port)
    ensures "[" + addr + "]" + [] == "[" + addr + "]"
    ensures "[" + addr + "]" + (":" + port) == "[" + addr + "]:" + port
    ensures var t := ":" + port; t[0] == ':' && t[1..] == port
    ensures "http://[" + addr + "]:" + "8000" == "http://[" + addr + "]:8000"
  {
    assert (":" + port)[1..] == port;
  }

  /** How the normalised forms are spelled. */
  lemma HttpSpelling(s: string)
    ensures "http" + "://" + s + [] == "http://" + s
    ensures "http" + "://" + (s + []) == "http://" + s
  {
  }

  lemma EightThousand(host: string)
    ensures LowerScheme("http")
    ensures IsDigits("8000") && DigitsValue("8000") == 8000 && PlainText("8000")
    ensures "http://" + (host + ":" + "8000") == "http://" + host + ":8000"
  {
    assert "8000"[..3] == "800" && "800"[..2] == "80" && "80"[..1] == "8";
  }

  /** Text of hex digits and ':' is host input. */
  lemma HexIsHostInput(addr: string)
    requires addr != [] && (forall i | 0 <= i < |addr| :: IsHexOrColon(addr[i]))
    ensures HostInput(addr) && addr[0] != '[' && WithoutTrailingSlash(addr) == addr
  {
    assert forall i | 0 <= i < |addr| :: IsVisible(addr[i]) && addr[i] != '/';
  }

  /** A plain host is host input with no ':'. */
  lemma PlainIsHostInput(host: string)
    requires PlainHost(host)
    ensures HostInput(host) && host[0] != '[' && host[|host| - 1] != ':' && WithoutTrailingSlash(host) == host
    ensures CountChar(host, ':') == 0
  {
    assert forall i | 0 <= i < |host| :: IsVisible(host[i]) && host[i] != ':' && host[i] != '/';
    CountCharZero(host, ':');
  }

  /** "://rest" is visible text that `urlsplit` finds no scheme and no network location in. */
  lemma NoSchemeText(rest: string)
    requires PlainPath(rest)
    ensures var u := "://" + rest;
      && !IsBlank(u) && Strip(u) == u && Contains(u, "://") && RemoveUnsafe(StripC0Left(u)) == u
      && SplitScheme(u) == ("", u) && SplitNetloc(u) == ("", u)
  {
    var u := "://" + rest;
    forall i | 0 <= i < |u| ensures IsVisible(u[i]) {
      if i >= 3 { assert u[i] == rest[i - 3]; }
    }
    VisibleInput(u);
    ContainsAt(u, "://", 0);
    BeforeFirstIs(u, ':', []);
    assert u[..2] != "//" by {
      assert u[..2][0] == ':';
    }
  }

  // ---------------------------------------------------------------------------------------------
  // Properties

  /** Every URL `parse_host_url` returns starts with a scheme and "://". */
  ghost predicate SchemeLed(u: string) {
    exists k | 0 < k && k + 3 <= |u| :: IsScheme(u[..k]) && u[k..k + 3] == "://"
  }

  lemma SchemeLedBy(scheme: string, rest: string)
    requires IsScheme(scheme)
    ensures SchemeLed(scheme + "://" + rest)
  {
    var u := scheme + "://" + rest;
    assert u[..|scheme|] == scheme && u[|scheme|..|scheme| + 3] == "://";
  }

  /** The URL branch returns URLs led by the scheme it parsed. */
  lemma FromUrlIsSchemeLed(h: string)
    ensures FromUrl(h).Ok? ==> SchemeLed(FromUrl(h).value)
  {
    if FromUrl(h).Ok? {
      var p := UrlParse(h).value;
      var path := if p.path == "/" then "" else p.path;
      var port := PortOf(p.netloc).value;
      if port == None || port == Some(0) {
        SchemeLedBy(p.scheme, HostText(Hostname(p.netloc)) + ":" + DefaultPort(p.scheme) + path);
      } else {
        SchemeLedBy(p.scheme, p.netloc + path);
      }
    }
  }

  lemma ResultIsSchemeLed(input: Option<string>)
    ensures ParseHostUrl(input).Ok? ==> SchemeLed(ParseHostUrl(input).value)
  {
    if ParseHostUrl(input).Ok? {
      var h := Strip(input.value);
      if Contains(h, "://") {
        FromUrlIsSchemeLed(h);
      } else {
        var r := ParseHostUrl(input).value;
        assert r == "http" + "://" + r[7..];
        SchemeLedBy("http", r[7..]);
      }
    }
  }

  /** A plain host name or IPv4 address, with or without a trailing '/', gets "http://" and port
      8000. */
  lemma PlainHostGetsDefaults(host: string)
    requires PlainHost(host)
    ensures ParseHostUrl(Some(host)) == Ok("http://" + host + ":8000")
    ensures ParseHostUrl(Some(host + "/")) == Ok("http://" + host + ":8000")
  {
    PlainIsHostInput(host);
    HostInputBranch(host);
    FromHostNoColon(host);
    SlashAppended(host);
    HostInputBranch(host + "/");
  }

  /** `host:port` with a port of digits, with or without a trailing '/', gets "http://" and keeps
      its port. */
  lemma HostWithPortKeepsIt(host: string, port: string)
    requires PlainHost(host) && IsDigits(port)
    ensures ParseHostUrl(Some(host + ":" + port)) == Ok("http://" + (host + ":" + port))
    ensures ParseHostUrl(Some(host + ":" + port + "/")) == Ok("http://" + (host + ":" + port))
  {
    var s := host + ":" + port;
    HostColonText(host, port);
    HostInputBranch(s);
    FromHostOneColon(s, port);
    SlashAppended(s);
    HostInputBranch(s + "/");
  }

  /** `host:text` where the text after the ':' is not a port gets "http://" and ":8000" on top of
      it. */
  lemma HostWithOtherTextGetsDefaults(host: string, text: string)
    requires PlainHost(host) && PlainText(text) && !IsDigits(text)
    ensures ParseHostUrl(Some(host + ":" + text)) == Ok("http://" + (host + ":" + text) + ":8000")
  {
    var s := host + ":" + text;
    HostColonText(host, text);
    HostInputBranch(s);
    FromHostOneColon(s, text);
  }

  /** A bracketed IPv6 address gets "http://" and keeps its port, or gets port 8000 when it has
      none; a trailing '/' makes no difference. */
  lemma BracketedAddressKeepsPort(addr: string, port: string)
    requires addr != [] && (forall i | 0 <= i < |addr| :: IsHexOrColon(addr[i])) && IsDigits(port)
    ensures ParseHostUrl(Some("[" + addr + "]")) == Ok("http://[" + addr + "]:8000")
    ensures ParseHostUrl(Some("[" + addr + "]" + "/")) == Ok("http://[" + addr + "]:8000")
    ensures ParseHostUrl(Some("[" + addr + "]:" + port)) == Ok("http://[" + addr + "]:" + port)
  {
    var b := "[" + addr + "]";
    BracketSpelling(addr, port);
    BracketedMatch(addr, []);
    HostInputBranch(b);
    FromHostMatched(b, addr, None);
    SlashAppended(b);
    HostInputBranch(b + "/");
    BracketedMatch(addr, ":" + port);
    HostInputBranch(b + (":" + port));
    FromHostMatched(b + (":" + port), addr, Some(port));
  }

  /** An unbracketed IPv6 address (two ':' or more) gets brackets, "http://" and port 8000. */
  lemma BareAddressGetsBrackets(addr: string)
    requires addr != [] && (forall i | 0 <= i < |addr| :: IsHexOrColon(addr[i])) && CountChar(addr, ':') >= 2
    ensures ParseHostUrl(Some(addr)) == Ok("http://[" + addr + "]:8000")
  {
    HexIsHostInput(addr);
    HostInputBranch(addr);
    FromHostColons(addr);
  }

  /** A URL with a scheme and a plain host but no port gets the host in lower case and the
      scheme's default port: 443 for https, 8000 otherwise; a path of "/" alone is dropped and
      any other plain path kept. */
  lemma UrlWithoutPortGetsDefault(scheme: string, host: string, path: string)
    requires LowerScheme(scheme) && PlainHost(host) && PlainPath(path)
    ensures ParseHostUrl(Some(scheme + "://" + host + path))
      == Ok(scheme + "://" + (Lower(host) + ":" + DefaultPort(scheme) + (if path == "/" then "" else path)))
  {
    HostOf(host);
    UrlInput(scheme, host, path);
    FromUrlDefault(scheme + "://" + host + path, Parsed(scheme, host, path), Lower(host));
  }

  /** A URL with a scheme, a plain host and a port of digits: port 0 counts as none (the host is
      lower-cased and gets the default port), ports 1 to 65535 are kept with the network location
      as written, larger ones are refused. */
  lemma UrlWithPort(scheme: string, host: string, port: string, path: string)
    requires LowerScheme(scheme) && PlainHost(host) && IsDigits(port) && PlainPath(path)
    ensures var r := ParseHostUrl(Some(scheme + "://" + (host + ":" + port) + path));
      var tail := if path == "/" then "" else path;
      && (DigitsValue(port) == 0 ==> r == Ok(scheme + "://" + (Lower(host) + ":" + DefaultPort(scheme) + tail)))
      && (0 < DigitsValue(port) <= 65535 ==> r == Ok(scheme + "://" + (host + ":" + port + tail)))
      && (DigitsValue(port) > 65535 ==> r == Err(PortOutOfRange))
  {
    var n := host + ":" + port;
    var u := scheme + "://" + n + path;
    HostAndPortOf(host, port);
    UrlInput(scheme, n, path);
    var p := Parsed(scheme, n, path);
    if DigitsValue(port) == 0 {
      FromUrlDefault(u, p, Lower(host));
    } else if DigitsValue(port) <= 65535 {
      FromUrlKept(u, p, DigitsValue(port));
    } else {
      FromUrlPortError(u, p);
    }
  }

  /** A URL whose port is not made of digits is refused. */
  lemma UrlWithBadPortRefused(scheme: string, host: string, port: string, path: string)
    requires LowerScheme(scheme) && PlainHost(host) && PlainPath(path)
    requires PlainText(port) && port != [] && !IsDigits(port)
    ensures ParseHostUrl(Some(scheme + "://" + (host + ":" + port) + path)) == Err(PortNotInteger(port))
  {
    var n := host + ":" + port;
    HostAndPortOf(host, port);
    UrlInput(scheme, n, path);
    FromUrlPortError(scheme + "://" + n + path, Parsed(scheme, n, path));
  }

  /** A URL with a scheme but no network location is refused as invalid. */
  lemma UrlWithoutHostRefused(scheme: string, path: string)
    requires LowerScheme(scheme) && PlainPath(path)
    ensures ParseHostUrl(Some(scheme + "://" + path)) == Err(InvalidHostUrl(scheme + "://" + path))
  {
    assert scheme + "://" + [] + path == scheme + "://" + path;
    UrlInput(scheme, [], path);
    FromUrlInvalid(scheme + "://" + path, Parsed(scheme, [], path));
  }

  /** Input with "://" but nothing before it is refused as invalid. */
  lemma UrlWithoutSchemeRefused(rest: string)
    requires PlainPath(rest)
    ensures ParseHostUrl(Some("://" + rest)) == Err(InvalidHostUrl("://" + rest))
  {
    var u := "://" + rest;
    NoSchemeText(rest);
    UrlBranch(u);
    FromUrlInvalid(u, UrlParse(u).value);
  }

  /** What `parse_host_url` returns for a plain host, with or without a port from 1 to 65535, comes
      back unchanged when parsed again. */
  lemma NormalFormIsFixed(host: string, port: string)
    requires PlainHost(host) && IsDigits(port) && 0 < DigitsValue(port) <= 65535
    ensures var u := "http://" + host + ":8000";
      ParseHostUrl(Some(host)) == Ok(u) && ParseHostUrl(Some(u)) == Ok(u)
    ensures var u := "http://" + (host + ":" + port);
      ParseHostUrl(Some(host + ":" + port)) == Ok(u) && ParseHostUrl(Some(u)) == Ok(u)
  {
    PlainHostGetsDefaults(host);
    HostWithPortKeepsIt(host, port);
    EightThousand(host);
    UrlWithPort("http", host, "8000", []);
    HttpSpelling(host + ":" + "8000");
    UrlWithPort("http", host, port, []);
    HttpSpelling(host + ":" + port);
  }
}
