/**
 Signed image links.  The backend prints `<origin>/t1/<width>/<signature>/<host><path>?<query>`; the image
 worker takes such a link apart again and recomputes the signed text.  HMAC (section 2 of RFC 2104) is any
 function giving 64 hexadecimal digits.
 */
module SignedImage {
  import opened Wrappers
  import opened Digits
  import opened Text

  type Mac = (string, string) -> string

  const KTO_HOST := "tong.visitkorea.or.kr"
  const ALLOWED_HOSTS := {"upload.wikimedia.org", "commons.wikimedia.org", KTO_HOST}
  const T1_MIN_WIDTH := 16
  const T1_MAX_WIDTH := 1620

  predicate IsHex(s: string) {
    forall i | 0 <= i < |s| :: '0' <= s[i] <= '9' || 'a' <= s[i] <= 'f'
  }

  ghost predicate IsMac(mac: Mac) {
    forall secret, payload :: |mac(secret, payload)| == 64 && IsHex(mac(secret, payload))
  }

  // ----- the backend: urlparse and t1_transform_url -----

  predicate IsLetter(c: char) {
    'a' <= c <= 'z' || 'A' <= c <= 'Z'
  }

  predicate IsSchemeName(s: string) {
    s != "" && IsLetter(s[0]) && forall i | 0 <= i < |s| :: IsLetter(s[i]) || IsDigit(s[i]) || s[i] in {'+', '-', '.'}
  }

  function Lower(s: string): string {
    seq(|s|, i requires 0 <= i < |s| => if 'A' <= s[i] <= 'Z' then (s[i] as int + 32) as char else s[i])
  }

  function AfterLastAt(s: string): string {
    if s == "" then ""
    else if s[|s| - 1] == '@' then ""
    else AfterLastAt(s[..|s| - 1]) + [s[|s| - 1]]
  }

  function HostName(netloc: string): string {
    var host := AfterLastAt(netloc);
    Lower(host[..FirstOf(host, {':'})])
  }

  lemma AfterLastAtEnd(s: string, c: char)
    ensures AfterLastAt(s + [c]) == if c == '@' then "" else AfterLastAt(s) + [c]
  {
    assert (s + [c])[..|s|] == s;
  }

  lemma {:induction false} AfterAt(user: string, rest: string)
    requires Free(rest, {'@'})
    ensures AfterLastAt(user + "@" + rest) == rest && AfterLastAt(rest) == rest
  {
    if rest == "" {
      AfterLastAtEnd(user, '@');
      assert user + "@" + rest == user + ['@'];
    } else {
      var front, last := rest[..|rest| - 1], rest[|rest| - 1];
      assert Free(front, {'@'}) && last != '@';
      hide AfterLastAt, Free;
      AfterAt(user, front);
      AfterLastAtEnd(front, last);
      AfterLastAtEnd(user + "@" + front, last);
      assert rest == front + [last];
      assert user + "@" + rest == user + "@" + front + [last];
    }
  }

  /** The host of an authority, without user information and port. */
  lemma HostNameIsRead(user: string, host: string, port: string)
    requires Free(host, {'@', ':'}) && Free(port, {'@'}) && Lower(host) == host
    ensures HostName(host) == HostName(host + ":" + port) == host
    ensures HostName(user + "@" + host) == HostName(user + "@" + (host + ":" + port)) == host
  {
    assert Free(host, {'@'}) && Free(host, {':'}) && Free(":", {'@'});
    FreeTogether(host, ":", {'@'});
    FreeTogether(host + ":", port, {'@'});
    AfterAt(user, host);
    AfterAt(user, host + ":" + port);
    CutAt(host, "", {':'});
    CutAt(host, ":" + port, {':'});
    hide AfterLastAt, Lower, FirstOf, Free;
    assert host + "" == host && host + ":" + port == host + (":" + port);
  }

  datatype Parsed = Parsed(hostname: string, path: string, query: string)

  function AfterScheme(url: string): string {
    var colon := FirstOf(url, {':'});
    if colon < |url| && IsSchemeName(url[..colon]) then url[colon + 1..] else url
  }

  /** What the backend uses of `urlparse`. */
  function UrlParse(url: string): Parsed {
    var rest := AfterScheme(url);
    if |rest| >= 2 && rest[..2] == "//" then Authority(rest[2..]) else Tail("", rest)
  }

  function Authority(text: string): Parsed {
    var n := FirstOf(text, {'/', '?', '#'});
    Tail(HostName(text[..n]), text[n..])
  }

  function Tail(hostname: string, tail: string): Parsed {
    var text := tail[..FirstOf(tail, {'#'})];
    var q := FirstOf(text, {'?'});
    Parsed(hostname, text[..q], if q < |text| then text[q + 1..] else "")
  }

  predicate IsKtoHost(url: string) {
    UrlParse(url).hostname == KTO_HOST
  }

  function HttpsKtoImage(url: string): string {
    if |url| >= 7 && url[..7] == "http://" && IsKtoHost(url) then "https://" + url[7..] else url
  }

  function WidthText(width: int): string {
    if width < 0 then "-" + Decimal(-width) else Decimal(width)
  }

  function WithQuery(query: string): string {
    if query == "" then "" else "?" + query
  }

  function Target(parsed: Parsed): string {
    parsed.hostname + (parsed.path + WithQuery(parsed.query))
  }

  /** `/t1/<width>/<signature>/<target>`. */
  function SignedPath(width: string, sig: string, target: string): string {
    "/t1/" + (width + ("/" + (sig + ("/" + target))))
  }

  function Payload(width: int, target: string): string {
    WidthText(width) + ("/" + target)
  }

  function Link(mac: Mac, secret: string, width: int, target: string): string {
    SignedPath(WidthText(width), mac(secret, Payload(width, target)), target)
  }

  function T1TransformUrl(mac: Mac, url: Option<string>, width: int, secret: string, origin: string): Option<string> {
    if url.None? || url.value == "" || secret == "" then None
    else
      var upgraded := HttpsKtoImage(url.value);
      if !IsKtoHost(upgraded) then None
      else
        Some(origin + Link(mac, secret, width, Target(UrlParse(upgraded))))
  }

  // ----- the worker: resolveUpstream and resolveT1 -----

  /** The parts of a URL object; taking its parts apart and parsing them again changes nothing. */
  datatype Url = Url(pathname: string, search: string)

  /** The URL object of `<origin><rest>`, for a `rest` the URL parser leaves as it is. */
  function UrlAt(rest: string): Url {
    var q := FirstOf(rest, {'?'});
    Url(rest[..q], if q + 1 < |rest| then rest[q..] else "")
  }

  function ResolveUpstream(url: Url): Option<string> {
    var path := url.pathname;
    if path == "" then None
    else
      var slash := FirstOf(path[1..], {'/'}) + 1;
      if slash == |path| then None
      else
        var host, rest := path[1..slash], path[slash..];
        if host !in ALLOWED_HOSTS || |rest| <= 1 then None
        else Some("https://" + host + rest + url.search)
  }

  datatype T1Upstream = T1Upstream(upstream: string, width: nat, sig: string, payload: string)

  datatype T1Match = T1Match(width: string, sig: string, rest: string)

  /** The pattern: `/t1/`, digits, a slash, 64 hexadecimal digits, a slash and at least one character. */
  function T1Pattern(path: string): Option<T1Match> {
    if |path| < 4 || path[..4] != "/t1/" then None
    else
      var k := FirstOf(path[4..], {'/'});
      var width, after := path[4..][..k], path[4..][k..];
      if width == "" || !AllDigits(width) || |after| < 67 then None
      else if !IsHex(after[1..65]) || after[65] != '/' then None
      else Some(T1Match(width, after[1..65], after[65..]))
  }

  function ResolveT1(url: Url): Option<T1Upstream> {
    var m := T1Pattern(url.pathname);
    if m.None? then None
    else
      var width := if AllDigits(m.value.width) then Number(m.value.width) else 0;
      if width < T1_MIN_WIDTH || width > T1_MAX_WIDTH then None
      else
        var upstream := ResolveUpstream(Url(m.value.rest, url.search));
        if upstream.None? then None
        else
          var host := HostOfHttps(upstream.value);
          if host != KTO_HOST then None
          else Some(T1Upstream(upstream.value, width, m.value.sig, Payload(width, upstream.value[8..])))
  }

  /** The host of an `https://` URL that `ResolveUpstream` built. */
  function HostOfHttps(url: string): string {
    if |url| < 8 then "" else url[8..][..FirstOf(url[8..], {'/'})]
  }

  datatype Answer = NotFound | Forbidden | Fetch(upstream: string, width: Option<nat>)

  /** The worker's choice of what to fetch: an unsigned link first, then a signed one. */
  function Choose(mac: Mac, secret: string, url: Url): Answer {
    var plain := ResolveUpstream(url);
    if plain.Some? then Fetch(plain.value, None)
    else
      var t1 := ResolveT1(url);
      if t1.None? then NotFound
      else if secret == "" || mac(secret, t1.value.payload) != t1.value.sig then Forbidden
      else Fetch(t1.value.upstream, Some(t1.value.width))
  }

  // ----- what the parts of a KTO URL are -----

  predicate PlainPath(path: string) {
    (path == "" || path[0] == '/') && Free(path, {'?', '#', ';'})
  }

  /** A URL in pieces: scheme, authority, a plain path and an optional query. */
  predicate Pieces(scheme: string, netloc: string, path: string, query: string) {
    && IsSchemeName(scheme) && Free(netloc, {'/', '?', '#'}) && HostName(netloc) == KTO_HOST
    && PlainPath(path) && Free(query, {'#'})
  }

  predicate IsPrintable(c: char) {
    '!' <= c <= '~' && c !in {'"', '<', '>', '\\', '^', '`', '{', '|', '}'}
  }

  predicate IsDot(s: string) {
    s == "." || s == "%2e" || s == "%2E"
  }

  /** A path segment a URL parser would resolve instead of keeping it. */
  predicate IsDotSegment(s: string) {
    IsDot(s) || exists k | 0 < k < |s| :: IsDot(s[..k]) && IsDot(s[k..])
  }

  predicate IsSegment(path: string, i: nat, j: nat) {
    i < j <= |path| && path[i] == '/' && (j == |path| || path[j] == '/')
  }

  /** Text that the URL parsers of both sides leave as it is: nothing to encode, strip or resolve. */
  ghost predicate NothingToNormalise(netloc: string, path: string, query: string) {
    && (forall i | 0 <= i < |netloc| :: IsPrintable(netloc[i]))
    && (forall i | 0 <= i < |path| :: IsPrintable(path[i]))
    && (forall i | 0 <= i < |query| :: IsPrintable(query[i]) && query[i] != '\'')
    && (forall i: nat, j: nat | IsSegment(path, i, j) :: !IsDotSegment(path[i + 1..j]))
  }

  function Joined(scheme: string, netloc: string, path: string, query: string): string {
    scheme + "://" + netloc + path + WithQuery(query)
  }

  lemma TailOfPieces(host: string, path: string, query: string)
    requires PlainPath(path) && Free(query, {'#'})
    ensures Tail(host, path + WithQuery(query)) == Parsed(host, path, query)
  {
    var tail := path + WithQuery(query);
    FreeTogether(path, WithQuery(query), {'#'});
    CutAt(path, WithQuery(query), {'?'});
    CutAt(tail, "", {'#'});
    hide FirstOf, Free, PlainPath;
    assert tail + "" == tail;
    assert query != "" ==> tail[|path| + 1..] == query;
  }

  lemma SchemeIsCut(scheme: string, rest: string)
    requires IsSchemeName(scheme)
    ensures AfterScheme(scheme + (":" + rest)) == rest
  {
    assert Free(scheme, {':'});
    CutAt(scheme, ":" + rest, {':'});
    hide FirstOf;
    assert (scheme + (":" + rest))[|scheme| + 1..] == rest;
  }

  lemma AuthorityIsCut(netloc: string, path: string, query: string)
    requires Free(netloc, {'/', '?', '#'}) && PlainPath(path) && Free(query, {'#'})
    ensures Authority(netloc + (path + WithQuery(query))) == Parsed(HostName(netloc), path, query)
  {
    var tail := path + WithQuery(query);
    CutAt(netloc, tail, {'/', '?', '#'});
    hide FirstOf, HostName, Tail;
    TailOfPieces(HostName(netloc), path, query);
  }

  lemma PiecesParse(scheme: string, netloc: string, path: string, query: string)
    requires Pieces(scheme, netloc, path, query)
    ensures UrlParse(Joined(scheme, netloc, path, query)) == Parsed(KTO_HOST, path, query)
  {
    hide AfterScheme, Authority, HostName, WithQuery, PlainPath, IsSchemeName;
    var tail := path + WithQuery(query);
    var rest := "//" + (netloc + tail);
    JoinedText(scheme, netloc, path, query);
    SchemeIsCut(scheme, rest);
    assert rest[..2] == "//" && rest[2..] == netloc + tail;
    AuthorityIsCut(netloc, path, query);
  }

  /** Upgrading to https keeps host, path and query. */
  lemma UpgradeKeepsPieces(scheme: string, netloc: string, path: string, query: string)
    requires Pieces(scheme, netloc, path, query)
    ensures UrlParse(HttpsKtoImage(Joined(scheme, netloc, path, query))) == Parsed(KTO_HOST, path, query)
  {
    PiecesParse(scheme, netloc, path, query);
    hide UrlParse, Pieces;
    var url := Joined(scheme, netloc, path, query);
    if |url| >= 7 && url[..7] == "http://" {
      HttpPieces(scheme, netloc, path, query);
      PiecesOfHttps(netloc, path, query);
      PiecesParse("https", netloc, path, query);
    }
  }

  lemma HttpPieces(scheme: string, netloc: string, path: string, query: string)
    requires Pieces(scheme, netloc, path, query)
    requires var url := Joined(scheme, netloc, path, query); |url| >= 7 && url[..7] == "http://"
    ensures scheme == "http"
  {
    SchemeHasNoColon(scheme, netloc, path, query);
    JoinedText(scheme, netloc, path, query);
    hide Pieces, WithQuery, Free, Joined;
    HttpIsTheScheme(scheme, "//" + (netloc + (path + WithQuery(query))));
  }

  lemma JoinedText(scheme: string, netloc: string, path: string, query: string)
    ensures Joined(scheme, netloc, path, query) == scheme + (":" + ("//" + (netloc + (path + WithQuery(query)))))
  {
    hide WithQuery;
  }

  lemma SchemeHasNoColon(scheme: string, netloc: string, path: string, query: string)
    requires Pieces(scheme, netloc, path, query)
    ensures Free(scheme, {':'})
  {
  }

  lemma PiecesOfHttps(netloc: string, path: string, query: string)
    requires Pieces("http", netloc, path, query)
    ensures Pieces("https", netloc, path, query)
    ensures "https://" + Joined("http", netloc, path, query)[7..] == Joined("https", netloc, path, query)
  {
    hide HostName, WithQuery, PlainPath, Free;
    var rest := netloc + path + WithQuery(query);
    assert Joined("http", netloc, path, query) == "http://" + rest;
    assert Joined("https", netloc, path, query) == "https://" + rest;
  }

  lemma HttpIsTheScheme(scheme: string, rest: string)
    requires Free(scheme, {':'}) && var url := scheme + (":" + rest); |url| >= 7 && url[..7] == "http://"
    ensures scheme == "http"
  {
    var url := scheme + (":" + rest);
    CutAt(scheme, ":" + rest, {':'});
    CutAt("http", url[4..], {':'});
    hide FirstOf;
    assert url == "http" + url[4..];
  }

  // ----- printing and parsing agree -----

  lemma LinkIsPrinted(mac: Mac, secret: string, width: int, origin: string, scheme: string, netloc: string, path: string,
                      query: string)
    requires Pieces(scheme, netloc, path, query) && secret != ""
    ensures T1TransformUrl(mac, Some(Joined(scheme, netloc, path, query)), width, secret, origin)
            == Some(origin + Link(mac, secret, width, KTO_HOST + (path + WithQuery(query))))
  {
    UpgradeKeepsPieces(scheme, netloc, path, query);
    hide UrlParse, HttpsKtoImage, Link, Pieces, WithQuery;
    assert |Joined(scheme, netloc, path, query)| > 0;
  }

  lemma SignedPathExtends(width: string, sig: string, target: string, more: string)
    ensures SignedPath(width, sig, target + more) == SignedPath(width, sig, target) + more
  {
    assert "/" + (target + more) == ("/" + target) + more;
    var a := "/" + target;
    assert sig + (a + more) == (sig + a) + more;
    var b := sig + a;
    assert "/" + (b + more) == ("/" + b) + more;
    var c := "/" + b;
    assert width + (c + more) == (width + c) + more;
    var d := width + c;
    assert "/t1/" + (d + more) == ("/t1/" + d) + more;
  }

  lemma SignedPathIsFree(width: string, sig: string, target: string)
    requires Free(width, {'?'}) && Free(sig, {'?'}) && Free(target, {'?'})
    ensures Free(SignedPath(width, sig, target), {'?'})
  {
    FreeTogether("/", target, {'?'});
    FreeTogether(sig, "/" + target, {'?'});
    FreeTogether("/", sig + ("/" + target), {'?'});
    FreeTogether(width, "/" + (sig + ("/" + target)), {'?'});
    FreeTogether("/t1/", width + ("/" + (sig + ("/" + target))), {'?'});
  }

  /** The worker's URL object of the printed link. */
  lemma LinkAsUrl(width: string, sig: string, path: string, query: string)
    requires Free(width, {'?'}) && Free(sig, {'?'}) && PlainPath(path)
    ensures UrlAt(SignedPath(width, sig, KTO_HOST + (path + WithQuery(query))))
            == Url(SignedPath(width, sig, KTO_HOST + path), WithQuery(query))
  {
    var host := KTO_HOST;
    assert Free(host, {'?'});
    FreeTogether(host, path, {'?'});
    SignedPathIsFree(width, sig, host + path);
    SignedPathExtends(width, sig, host + path, WithQuery(query));
    assert host + (path + WithQuery(query)) == (host + path) + WithQuery(query);
    hide SignedPath;
    CutAt(SignedPath(width, sig, host + path), WithQuery(query), {'?'});
  }

  // ----- the worker reads the link back -----

  lemma PatternReads(width: string, sig: string, target: string)
    requires Free(width, {'/'}) && |sig| == 64 && IsHex(sig) && target != ""
    ensures T1Pattern(SignedPath(width, sig, target))
            == if width != "" && AllDigits(width) then Some(T1Match(width, sig, "/" + target)) else None
  {
    hide FirstOf, AllDigits, IsHex;
    var after := "/" + (sig + ("/" + target));
    var path := SignedPath(width, sig, target);
    assert path[..4] == "/t1/" && path[4..] == width + after;
    CutAt(width, after, {'/'});
    assert after[1..65] == sig && after[65..] == "/" + target;
  }

  /** The first route sees the host `t1`, which is not one of its hosts. */
  lemma UnsignedRouteRejects(width: string, sig: string, target: string, search: string)
    ensures ResolveUpstream(Url(SignedPath(width, sig, target), search)).None?
  {
    var path := SignedPath(width, sig, target);
    var rest := "/" + (width + ("/" + (sig + ("/" + target))));
    assert path == "/t1/" + rest[1..];
    assert path[1..] == "t1" + rest;
    CutAt("t1", rest, {'/'});
    assert path[1..3] == "t1";
  }

  lemma UnsignedParts(host: string, path: string)
    requires Free(host, {'/'}) && (path == "" || path[0] == '/')
    ensures var whole := "/" + (host + path);
            && FirstOf(whole[1..], {'/'}) == |host| && |whole| == 1 + |host| + |path|
            && whole[1..|host| + 1] == host && whole[|host| + 1..] == path
  {
    var whole := "/" + (host + path);
    assert whole[1..] == host + path;
    CutAt(host, path, {'/'});
    hide FirstOf, Free;
  }

  lemma Grouped(a: string, b: string, c: string, d: string)
    ensures a + b + c + d == a + (b + (c + d))
  {
  }

  lemma UnsignedHost(host: string, path: string, search: string)
    requires Free(host, {'/'}) && (path == "" || path[0] == '/')
    ensures ResolveUpstream(Url("/" + (host + path), search))
            == if host in ALLOWED_HOSTS && |path| > 1 then Some("https://" + (host + (path + search))) else None
  {
    UnsignedParts(host, path);
    Grouped("https://", host, path, search);
    hide FirstOf, Free;
  }

  lemma KtoPathResolves(path: string, search: string)
    requires path == "" || path[0] == '/'
    ensures ResolveUpstream(Url("/" + (KTO_HOST + path), search))
            == if |path| > 1 then Some("https://" + (KTO_HOST + (path + search))) else None
    ensures |path| > 1 ==> HostOfHttps("https://" + (KTO_HOST + (path + search))) == KTO_HOST
  {
    assert Free(KTO_HOST, {'/'}) && KTO_HOST in ALLOWED_HOSTS;
    UnsignedHost(KTO_HOST, path, search);
    if |path| > 1 {
      hide ResolveUpstream, FirstOf, KTO_HOST;
      CutAt(KTO_HOST, path + search, {'/'});
      assert ("https://" + (KTO_HOST + (path + search)))[8..] == KTO_HOST + (path + search);
    }
  }

  /** `resolveT1` gives back the https image, the width, the signature and the very text that was signed. */
  lemma LinkReadsBack(width: int, sig: string, path: string, query: string)
    requires |sig| == 64 && IsHex(sig) && (path == "" || path[0] == '/')
    ensures var target := KTO_HOST + (path + WithQuery(query));
            ResolveT1(Url(SignedPath(WidthText(width), sig, KTO_HOST + path), WithQuery(query)))
            == if T1_MIN_WIDTH <= width <= T1_MAX_WIDTH && |path| > 1
               then Some(T1Upstream("https://" + target, width, sig, Payload(width, target)))
               else None
  {
    WidthTextReads(width);
    assert KTO_HOST + path != "";
    hide KTO_HOST;
    PatternReads(WidthText(width), sig, KTO_HOST + path);
    KtoPathResolves(path, WithQuery(query));
    hide T1Pattern, SignedPath, ResolveUpstream, HostOfHttps, WidthText, AllDigits, Number, WithQuery, Payload, IsHex, Free, FirstOf;
    AfterHttps(KTO_HOST + (path + WithQuery(query)));
  }

  lemma AfterHttps(text: string)
    ensures ("https://" + text)[8..] == text
  {
  }

  lemma WidthTextReads(width: int)
    ensures var text := WidthText(width);
            && Free(text, {'/', '?'}) && Free(text, {'/'}) && Free(text, {'?'}) && text != ""
            && (AllDigits(text) <==> width >= 0) && (width >= 0 ==> Number(text) == width)
  {
    if width < 0 {
      var digits := Decimal(-width);
      assert !IsDigit(WidthText(width)[0]);
      assert forall i :: 0 < i < |digits| + 1 ==> WidthText(width)[i] == digits[i - 1] && IsDigit(digits[i - 1]);
    }
  }

  /**
   The printer and the worker agree: for every KTO URL the printed link makes the worker fetch the same
   image over https at the printed width, exactly when the width is in range and the path names something;
   any other link it answers with "not found".
   */
  lemma PrintedLinkIsServedIff(mac: Mac, secret: string, width: int, origin: string, scheme: string, netloc: string,
                               path: string, query: string)
    requires IsMac(mac) && secret != "" && Pieces(scheme, netloc, path, query) && NothingToNormalise(netloc, path, query)
    ensures var link := T1TransformUrl(mac, Some(Joined(scheme, netloc, path, query)), width, secret, origin);
            && link.Some? && origin <= link.value
            && Choose(mac, secret, UrlAt(link.value[|origin|..]))
               == if T1_MIN_WIDTH <= width <= T1_MAX_WIDTH && |path| > 1
                  then Fetch("https://" + (KTO_HOST + (path + WithQuery(query))), Some(width))
                  else NotFound
  {
    var target := KTO_HOST + (path + WithQuery(query));
    var sig := mac(secret, Payload(width, target));
    LinkIsPrinted(mac, secret, width, origin, scheme, netloc, path, query);
    SignatureIsHex(mac, secret, Payload(width, target));
    WidthTextReads(width);
    LinkAsUrl(WidthText(width), sig, path, query);
    UnsignedRouteRejects(WidthText(width), sig, KTO_HOST + path, WithQuery(query));
    LinkReadsBack(width, sig, path, query);
    hide T1TransformUrl, ResolveT1, ResolveUpstream, UrlAt, SignedPath, WidthText, WithQuery, Payload, Pieces, IsMac;
    var link := Link(mac, secret, width, target);
    assert (origin + link)[|origin|..] == link;
  }

  lemma SignatureIsHex(mac: Mac, secret: string, payload: string)
    requires IsMac(mac)
    ensures var sig := mac(secret, payload); |sig| == 64 && IsHex(sig) && Free(sig, {'?'})
  {
  }

  /** A link of that form under another signature, or checked without a secret, is refused. */
  lemma ForgedLinkIsForbidden(mac: Mac, secret: string, width: int, sig: string, path: string, query: string)
    requires |sig| == 64 && IsHex(sig) && T1_MIN_WIDTH <= width <= T1_MAX_WIDTH && |path| > 1 && path[0] == '/'
    requires secret == "" || mac(secret, Payload(width, KTO_HOST + (path + WithQuery(query)))) != sig
    ensures Choose(mac, secret, Url(SignedPath(WidthText(width), sig, KTO_HOST + path), WithQuery(query))) == Forbidden
  {
    UnsignedRouteRejects(WidthText(width), sig, KTO_HOST + path, WithQuery(query));
    LinkReadsBack(width, sig, path, query);
    hide ResolveT1, ResolveUpstream, SignedPath, WidthText, WithQuery, Payload, IsHex;
  }

  lemma UnsignedUrl(host: string, path: string, query: string)
    requires Free(host, {'/', '?'}) && path != "" && path[0] == '/' && Free(path, {'?'})
    ensures UrlAt("/" + (host + (path + WithQuery(query)))) == Url("/" + (host + path), WithQuery(query))
  {
    var front := "/" + (host + path);
    assert Free(host, {'?'}) && Free("/", {'?'});
    FreeTogether(host, path, {'?'});
    FreeTogether("/", host + path, {'?'});
    assert "/" + (host + (path + WithQuery(query))) == front + WithQuery(query);
    CutAt(front, WithQuery(query), {'?'});
    hide FirstOf;
  }

  /**
   The unsigned route fetches an image as it is named, exactly from the three hosts and when the path names
   something.
   */
  lemma UnsignedLinkIsServedIff(mac: Mac, secret: string, host: string, path: string, query: string)
    requires Free(host, {'/', '?'}) && path != "" && path[0] == '/' && Free(path, {'?'})
    ensures Choose(mac, secret, UrlAt("/" + (host + (path + WithQuery(query)))))
            == Fetch("https://" + (host + (path + WithQuery(query))), None)
            <==> host in {"upload.wikimedia.org", "commons.wikimedia.org", "tong.visitkorea.or.kr"} && |path| > 1
  {
    assert Free(host, {'/'});
    UnsignedUrl(host, path, query);
    UnsignedHost(host, path, WithQuery(query));
    hide ResolveUpstream, ResolveT1, UrlAt, WithQuery, Payload;
  }

  /** A link is printed exactly for a KTO image, and only where there is a secret to sign it with. */
  lemma PrintedIff(mac: Mac, url: Option<string>, width: int, secret: string, origin: string)
    ensures T1TransformUrl(mac, url, width, secret, origin).Some?
            <==> url.Some? && url.value != "" && secret != "" && IsKtoHost(HttpsKtoImage(url.value))
  {
    hide HttpsKtoImage, UrlParse, Link;
  }

  /** Whatever the URL: a resized image comes only from a link whose signature covers its width and target. */
  lemma OnlySignedLinksAreResized(mac: Mac, secret: string, url: Url)
    requires Choose(mac, secret, url).Fetch?
    ensures match Choose(mac, secret, url).width
            case Some(width) =>
              var upstream := Choose(mac, secret, url).upstream;
              && T1_MIN_WIDTH <= width <= T1_MAX_WIDTH && "https://" + KTO_HOST + "/" <= upstream && secret != ""
              && T1Pattern(url.pathname).Some? && T1Pattern(url.pathname).value.sig == mac(secret, Payload(width, upstream[8..]))
            case None =>
              exists host :: host in ALLOWED_HOSTS && "https://" + host + "/" <= Choose(mac, secret, url).upstream
  {
    hide T1Pattern, Payload;
    if ResolveUpstream(url).Some? {
      var host := UpstreamIsAllowed(url);
    } else {
      var m := T1Pattern(url.pathname).value;
      var host := UpstreamIsAllowed(Url(m.rest, url.search));
      HostIsRead(host, ResolveUpstream(Url(m.rest, url.search)).value);
    }
  }

  lemma UpstreamIsAllowed(url: Url) returns (host: string)
    requires ResolveUpstream(url).Some?
    ensures host in ALLOWED_HOSTS && "https://" + host + "/" <= ResolveUpstream(url).value
    ensures Free(host, {'/'})
  {
    var path := url.pathname;
    var slash := FirstOf(path[1..], {'/'}) + 1;
    host := path[1..slash];
    hide FirstOf;
    assert path[slash] == path[1..][slash - 1] == '/';
    assert host == path[1..][..slash - 1];
    HostThenSlash(host, path, slash, url.search);
  }

  lemma HostThenSlash(host: string, path: string, slash: nat, search: string)
    requires slash < |path| && path[slash] == '/'
    ensures "https://" + host + "/" <= "https://" + host + path[slash..] + search
  {
    var front := "https://" + host;
    assert path[slash..] == "/" + path[slash + 1..];
    assert front + path[slash..] + search == (front + "/") + (path[slash + 1..] + search);
  }

  lemma HostIsRead(host: string, upstream: string)
    requires Free(host, {'/'}) && "https://" + host + "/" <= upstream
    ensures HostOfHttps(upstream) == host
  {
    var front := "https://" + host + "/";
    assert upstream == front + upstream[|front|..];
    assert upstream[8..] == host + ("/" + upstream[|front|..]);
    CutAt(host, "/" + upstream[|front|..], {'/'});
  }

  /** One signed text stands for one image at one width, however the link is written. */
  lemma SamePayloadSameImage(a: Url, b: Url)
    requires ResolveT1(a).Some? && ResolveT1(b).Some? && ResolveT1(a).value.payload == ResolveT1(b).value.payload
    ensures ResolveT1(a).value.upstream == ResolveT1(b).value.upstream && ResolveT1(a).value.width == ResolveT1(b).value.width
  {
    var x, y := ResolveT1(a).value, ResolveT1(b).value;
    ReadWidth(a, x);
    ReadWidth(b, y);
    hide ResolveT1, Payload, FirstOf, AllDigits, Number;
    PayloadParts(x.width, x.upstream[8..]);
    PayloadParts(y.width, y.upstream[8..]);
  }

  lemma PayloadParts(width: nat, target: string)
    ensures var payload := Payload(width, target);
            var k := FirstOf(payload, {'/'});
            k < |payload| && AllDigits(payload[..k]) && Number(payload[..k]) == width && payload[k + 1..] == target
  {
    WidthTextReads(width);
    CutAt(WidthText(width), "/" + target, {'/'});
    hide FirstOf, WidthText, AllDigits, Number;
    assert Payload(width, target)[|WidthText(width)| + 1..] == target;
  }

  lemma UpstreamIsHttps(url: Url)
    requires ResolveUpstream(url).Some?
    ensures var upstream := ResolveUpstream(url).value; |upstream| >= 8 && upstream == "https://" + upstream[8..]
  {
    hide ResolveUpstream;
    var host := UpstreamIsAllowed(url);
    var upstream := ResolveUpstream(url).value;
    assert upstream[..8] == "https://";
  }

  lemma ReadWidth(url: Url, t1: T1Upstream)
    requires ResolveT1(url) == Some(t1)
    ensures |t1.upstream| >= 8 && t1.upstream == "https://" + t1.upstream[8..]
    ensures t1.payload == Payload(t1.width, t1.upstream[8..])
  {
    var m := T1Pattern(url.pathname).value;
    hide T1Pattern, Payload, ResolveUpstream;
    UpstreamIsHttps(Url(m.rest, url.search));
  }
}
