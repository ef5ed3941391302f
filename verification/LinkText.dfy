// Share links on the wire: the `ct_link` query parameter, the session cookie and the
// 302 between them (native/src/local_auth.rs). Text is a sequence of characters; bytes
// outside ASCII are not decoded here.
module LinkText {
  import opened Wrappers
  import opened Strings

  const LINK_QUERY_PARAM := "ct_link"
  const LINK_COOKIE_NAME := "ct_link_session"
  const MAX_HEADER_BYTES: nat := 8 * 1024

  // 43 characters of base64url in practice; anything outside the alphabet is refused.
  predicate IsTokenChar(c: char) {
    '0' <= c <= '9' || 'a' <= c <= 'z' || 'A' <= c <= 'Z' || c == '-' || c == '_'
  }

  predicate LooksLikeLinkToken(s: string) {
    s != "" && |s| <= 128 && forall c :: c in s ==> IsTokenChar(c)
  }

  // What the agent draws: 32 random bytes as base64url without padding.
  predicate IsSecret(s: string) {
    |s| == 43 && forall c :: c in s ==> '0' <= c <= '9' || 'a' <= c <= 'z' || 'A' <= c <= 'Z' || c == '-' || c == '_'
  }

  // ---- the request target -------------------------------------------------------------

  function Key(pair: string): string {
    match SplitOnce(pair, '=') case Some(kv) => kv.0 case None => pair
  }

  function PairValue(pair: string): string {
    match SplitOnce(pair, '=') case Some(kv) => kv.1 case None => ""
  }

  // The value of the first link parameter.
  function FirstToken(pairs: seq<string>): Option<string> {
    if pairs == [] then None
    else if Key(pairs[0]) == LINK_QUERY_PARAM then Some(PairValue(pairs[0]))
    else FirstToken(pairs[1..])
  }

  predicate IsNotLink(pair: string) { Key(pair) != LINK_QUERY_PARAM }

  predicate IsOther(pair: string) { IsPresent(pair) && IsNotLink(pair) }

  // The non-empty parameters other than the link's, in order.
  function Others(pairs: seq<string>): seq<string> {
    Filter(IsOther, pairs)
  }

  function Rebuilt(path: string, rest: seq<string>): string {
    if rest == [] then path else path + "?" + Join(rest, "&")
  }

  function TokenInTarget(target: string): Option<(string, string)> {
    match SplitOnce(target, '?')
    case None => None
    case Some(parts) =>
      var pairs := Split(parts.1, '&');
      match FirstToken(pairs)
      case None => None
      case Some(token) => Some((token, Rebuilt(parts.0, Others(pairs))))
  }

  lemma {:induction false} FirstTokenSnoc(pairs: seq<string>, pair: string)
    ensures FirstToken(pairs + [pair]) ==
            if FirstToken(pairs).Some? then FirstToken(pairs)
            else if Key(pair) == LINK_QUERY_PARAM then Some(PairValue(pair)) else None
  {
    if pairs == [] {
      assert [] + [pair] == [pair];
    } else {
      FirstTokenSnoc(pairs[1..], pair);
      assert (pairs + [pair])[1..] == pairs[1..] + [pair];
    }
  }

  // One more turn of the scan.
  lemma ScanStep(pairs: seq<string>, i: nat)
    requires i < |pairs|
    ensures var before, after, isLink := pairs[..i], pairs[..i + 1], Key(pairs[i]) == LINK_QUERY_PARAM;
            && FirstToken(after) == (if isLink && FirstToken(before).None? then Some(PairValue(pairs[i])) else FirstToken(before))
            && Others(after) == Others(before) + if IsOther(pairs[i]) then [pairs[i]] else []
  {
    assert pairs[..i + 1] == pairs[..i] + [pairs[i]];
    FirstTokenSnoc(pairs[..i], pairs[i]);
    FilterSnoc(IsOther, pairs[..i], pairs[i]);
  }

  // If `target` carries the link parameter: its token, and the target without it.
  method LinkTokenInTarget(target: string) returns (r: Option<(string, string)>)
    ensures r == TokenInTarget(target)
  {
    var parts := SplitOnce(target, '?');
    if parts.None? {
      return None;
    }
    var (path, query) := parts.value;
    var token: Option<string> := None;
    var rest: seq<string> := [];
    var pairs := Split(query, '&');
    for i := 0 to |pairs|
      invariant token == FirstToken(pairs[..i])
      invariant rest == Others(pairs[..i])
    {
      var pair := pairs[i];
      ScanStep(pairs, i);
      if Key(pair) == LINK_QUERY_PARAM {
        if token.None? {
          token := Some(PairValue(pair));
        }
      } else if pair != "" {
        rest := rest + [pair];
      }
    }
    assert pairs[..|pairs|] == pairs;
    if token.None? {
      return None;
    }
    r := Some((token.value, Rebuilt(path, rest)));
  }

  // A target's path and its non-empty parameters.
  function Path(target: string): string {
    match SplitOnce(target, '?') case Some(parts) => parts.0 case None => target
  }

  function Params(target: string): seq<string> {
    match SplitOnce(target, '?') case Some(parts) => NonEmpty(Split(parts.1, '&')) case None => []
  }

  function WithoutLink(pairs: seq<string>): seq<string> {
    Filter(IsNotLink, pairs)
  }

  lemma {:induction false} NoFirstToken(pairs: seq<string>)
    requires forall i :: 0 <= i < |pairs| ==> IsNotLink(pairs[i])
    ensures FirstToken(pairs).None?
  {
    if pairs != [] {
      NoFirstToken(pairs[1..]);
    }
  }

  lemma OthersAreClean(pairs: seq<string>)
    ensures Others(pairs) == WithoutLink(NonEmpty(pairs))
    ensures NonEmpty(Others(pairs)) == Others(pairs)
    ensures FirstToken(Others(pairs)).None?
  {
    FilterTwice(IsPresent, IsNotLink, IsOther, pairs);
    FilterMembers(IsOther, pairs);
    FilterAll(IsPresent, Others(pairs));
    NoFirstToken(Others(pairs));
  }

  // A rebuilt target splits into what it was built from.
  lemma RebuiltSplits(path: string, rest: seq<string>)
    requires '?' !in path && rest != [] && forall p :: p in rest ==> '&' !in p
    ensures SplitOnce(Rebuilt(path, rest), '?') == Some((path, Join(rest, "&")))
    ensures Split(Join(rest, "&"), '&') == rest
  {
    SplitJoin(rest, '&');
    SplitOnceAt(path, '?', Join(rest, "&"));
  }

  // The redirect target keeps the path and every other parameter in order, and carries
  // no link parameter: stripping it again finds nothing.
  lemma StrippedTargetIsClean(target: string)
    requires TokenInTarget(target).Some?
    ensures var stripped := TokenInTarget(target).value.1;
            && TokenInTarget(stripped).None?
            && Path(stripped) == Path(target)
            && Params(stripped) == WithoutLink(Params(target))
  {
    var (path, query) := SplitOnce(target, '?').value;
    var rest := Others(Split(query, '&'));
    OthersAreClean(Split(query, '&'));
    if rest == [] {
      assert SplitOnce(path, '?').None?;
    } else {
      FilterMembers(IsOther, Split(query, '&'));
      RebuiltSplits(path, rest);
    }
  }

  lemma {:induction false} FirstTokenAt(pairs: seq<string>, i: nat)
    requires i < |pairs| && Key(pairs[i]) == LINK_QUERY_PARAM
    requires forall j :: 0 <= j < i ==> Key(pairs[j]) != LINK_QUERY_PARAM
    ensures FirstToken(pairs) == Some(PairValue(pairs[i]))
  {
    if i > 0 { FirstTokenAt(pairs[1..], i - 1); }
  }

  // A target built with a link parameter yields that very token, whatever parameters stand
  // around it; of several the first counts.
  lemma BuiltTargetIsRead(path: string, pairs: seq<string>, i: nat, token: string)
    requires '?' !in path && i < |pairs| && forall p :: p in pairs ==> '&' !in p
    requires pairs[i] == LINK_QUERY_PARAM + ['='] + token
    requires forall j :: 0 <= j < i ==> Key(pairs[j]) != LINK_QUERY_PARAM
    ensures TokenInTarget(Rebuilt(path, pairs)) == Some((token, Rebuilt(path, Others(pairs))))
  {
    RebuiltSplits(path, pairs);
    LinkPair(token);
    FirstTokenAt(pairs, i);
  }

  lemma LinkPair(token: string)
    ensures Key(LINK_QUERY_PARAM + ['='] + token) == LINK_QUERY_PARAM
    ensures PairValue(LINK_QUERY_PARAM + ['='] + token) == token
  {
    assert '=' !in LINK_QUERY_PARAM;
    SplitOnceAt(LINK_QUERY_PARAM, '=', token);
  }

  // ---- the 302 --------------------------------------------------------------------------

  predicate IsAsciiControl(c: char) {
    c as int < 32 || c as int == 127
  }

  predicate SameOriginPath(location: string) {
    "/" <= location && !("//" <= location) && !("/\\" <= location)
  }

  function SafeLocation(location: string): (r: string)
    ensures '\r' !in r && '\n' !in r && ' ' !in r
    ensures "/" <= r && !("//" <= r) && !("/\\" <= r)
  {
    if !SameOriginPath(location) || exists c :: c in location && (IsAsciiControl(c) || c == ' ') then "/" else location
  }

  function SafeSession(session: string): (r: string)
    ensures forall c :: c in r ==> IsTokenChar(c)
  {
    if LooksLikeLinkToken(session) then session else ""
  }

  // The cookie's pair and its attributes, which "; " separates.
  function CookieParts(session: string, maxAge: U64): seq<string> {
    [LINK_COOKIE_NAME + "=" + SafeSession(session), " Path=/", " HttpOnly", " Secure", " SameSite=Lax",
     " Max-Age=" + Decimal(maxAge)]
  }

  function SetCookie(session: string, maxAge: U64): string {
    Join(CookieParts(session, maxAge), ";")
  }

  // The six lines of the head, and the empty one that ends it.
  function HeadLines(location: string, session: string, maxAge: U64): seq<string> {
    ["HTTP/1.1 302 Found",
     "Location: " + SafeLocation(location),
     "Set-Cookie: " + SetCookie(session, maxAge),
     "Cache-Control: no-store",
     "Content-Length: 0",
     "Connection: close",
     ""]
  }

  // Every line followed by CR LF.
  function Ended(lines: seq<string>): string {
    if lines == [] then "" else lines[0] + CRLF + Ended(lines[1..])
  }

  function LinkRedirect(location: string, session: string, maxAge: U64): string {
    Ended(HeadLines(location, session, maxAge))
  }

  lemma {:induction false} SplitEnded(lines: seq<string>)
    requires forall l :: l in lines ==> '\r' !in l
    ensures SplitCrlf(Ended(lines)) == lines + [""]
  {
    if lines != [] {
      SplitEnded(lines[1..]);
      assert '\r' !in lines[0];
      SplitCrlfAt(lines[0], Ended(lines[1..]));
      assert lines + [""] == [lines[0]] + (lines[1..] + [""]);
    }
  }

  lemma TokenCharsOnly(s: string, c: char)
    requires forall x :: x in s ==> IsTokenChar(x)
    requires !IsTokenChar(c)
    ensures c !in s
  {
  }

  lemma {:induction false} JoinAvoids(parts: seq<string>, sep: string, c: char)
    requires c !in sep && forall i :: 0 <= i < |parts| ==> c !in parts[i]
    ensures c !in Join(parts, sep)
  {
    if |parts| > 1 { JoinAvoids(parts[1..], sep, c); }
  }

  lemma CookiePartsAvoid(session: string, maxAge: U64, c: char)
    requires c == ';' || c == '\r'
    ensures forall p :: p in CookieParts(session, maxAge) ==> c !in p
  {
    TokenCharsOnly(SafeSession(session), c);
    TokenCharsOnly(Decimal(maxAge), c);
    assert c !in LINK_COOKIE_NAME && c !in "=" && c !in " Max-Age=";
    assert c !in " Path=/" && c !in " HttpOnly" && c !in " Secure" && c !in " SameSite=Lax";
  }

  lemma SetCookieHasNoCr(session: string, maxAge: U64)
    ensures '\r' !in SetCookie(session, maxAge)
  {
    CookiePartsAvoid(session, maxAge, '\r');
    JoinAvoids(CookieParts(session, maxAge), ";", '\r');
  }

  // A location that is a path of this origin, without control characters or spaces, is sent
  // as it is; any other becomes the root.
  lemma CleanLocationIsKept(location: string)
    ensures SafeLocation(location) ==
            if && location != "" && location[0] == '/'
               && (|location| > 1 ==> location[1] != '/' && location[1] != '\\')
               && (forall c :: c in location ==> 33 <= c as int && c as int != 127)
            then location else "/"
  {
    assert "/" <= location <==> location != "" && location[0] == '/';
    assert "//" <= location <==> |location| > 1 && location[0] == '/' && location[1] == '/';
    assert "/\\" <= location <==> |location| > 1 && location[0] == '/' && location[1] == '\\';
  }

  // The cookie is exactly its pair and five attributes, and its Max-Age reads back as the
  // lifetime given.
  lemma CookieHasExactlyItsParts(session: string, maxAge: U64)
    ensures Split(SetCookie(session, maxAge), ';') ==
            ["ct_link_session" + "=" + SafeSession(session), " Path=/", " HttpOnly", " Secure", " SameSite=Lax",
             " Max-Age=" + Decimal(maxAge)]
    ensures Value(Decimal(maxAge)) == maxAge
  {
    CookiePartsAvoid(session, maxAge, ';');
    SplitJoin(CookieParts(session, maxAge), ';');
    ValueDecimal(maxAge);
  }

  // Whatever location and session go in, the response is its six fixed lines and the
  // blank one that ends the head; nothing can be injected.
  lemma RedirectHasExactlyItsLines(location: string, session: string, maxAge: U64)
    ensures SplitCrlf(LinkRedirect(location, session, maxAge)) ==
            ["HTTP/1.1 302 Found",
             "Location: " + SafeLocation(location),
             "Set-Cookie: " + SetCookie(session, maxAge),
             "Cache-Control: no-store",
             "Content-Length: 0",
             "Connection: close",
             "",
             ""]
  {
    SetCookieHasNoCr(session, maxAge);
    var ls := HeadLines(location, session, maxAge);
    forall l | l in ls
      ensures '\r' !in l
    {
    }
    SplitEnded(ls);
  }

  // ---- the request head and its cookies --------------------------------------------------

  type Header = (string, string)

  datatype RequestHead = RequestHead(verb: string, target: string, headers: seq<Header>)

  // CR LF CR LF
  predicate HeadEnds(s: string, k: nat) {
    CrlfAt(s, k) && CrlfAt(s, k + 2)
  }

  // Index of the first CR LF CR LF, or |s|.
  function FindHeadEnd(s: string): (k: nat)
    ensures k <= |s|
    ensures k < |s| ==> HeadEnds(s, k)
  {
    if s == "" || HeadEnds(s, 0) then 0 else 1 + FindHeadEnd(s[1..])
  }

  function ParseHeaders(lines: seq<string>): seq<Header> {
    if lines == [] then []
    else match SplitOnce(lines[0], ':')
         case None => ParseHeaders(lines[1..])
         case Some(nv) => [(Trim(nv.0), Trim(nv.1))] + ParseHeaders(lines[1..])
  }

  function ParseRequestHead(buf: string): Option<RequestHead> {
    var scan := if |buf| > MAX_HEADER_BYTES then buf[..MAX_HEADER_BYTES] else buf;
    var end := FindHeadEnd(scan);
    if end == |scan| then None
    else
      var lines := SplitCrlf(scan[..end]);
      var parts := NonEmpty(Split(lines[0], ' '));
      if |parts| < 2 then None else Some(RequestHead(parts[0], parts[1], ParseHeaders(lines[1..])))
  }

  lemma HeadEndSkip(c: char, s: string)
    requires !HeadEnds([c] + s, 0)
    ensures FindHeadEnd([c] + s) == 1 + FindHeadEnd(s)
  {
    assert ([c] + s)[1..] == s;
  }

  // Text without a CR holds no end of the head.
  lemma {:induction false} HeadEndAfter(a: string, s: string)
    requires '\r' !in a
    ensures FindHeadEnd(a + s) == |a| + FindHeadEnd(s)
  {
    if a == "" {
      assert a + s == s;
    } else {
      HeadEndAfter(a[1..], s);
      HeadEndSkip(a[0], a[1..] + s);
      assert a + s == [a[0]] + (a[1..] + s);
    }
  }

  lemma HeadEndPastCrlf(s: string)
    requires s != "" && s[0] != '\r'
    ensures FindHeadEnd(CRLF + s) == 2 + FindHeadEnd(s)
  {
    HeadEndSkip('\n', s);
    HeadEndSkip('\r', ['\n'] + s);
    assert CRLF + s == ['\r'] + (['\n'] + s);
  }

  lemma HeadEndLine(line: string, s: string)
    requires '\r' !in line && s != "" && s[0] != '\r'
    ensures FindHeadEnd(line + (CRLF + s)) == |line| + 2 + FindHeadEnd(s)
  {
    HeadEndAfter(line, CRLF + s);
    HeadEndPastCrlf(s);
  }

  lemma HeadEndLast(line: string, body: string)
    requires '\r' !in line
    ensures FindHeadEnd(line + (CRLF + CRLF + body)) == |line|
  {
    HeadEndAfter(line, CRLF + CRLF + body);
    assert HeadEnds(CRLF + CRLF + body, 0);
  }

  predicate HeadLine(line: string) {
    line != "" && '\r' !in line
  }

  lemma JoinStarts(lines: seq<string>)
    requires lines != [] && HeadLine(lines[0])
    ensures Join(lines, CRLF) != "" && Join(lines, CRLF)[0] != '\r'
  {
    assert lines[0][0] in lines[0];
  }

  // The head ends where its lines, none of them empty, do.
  lemma {:induction false} HeadEndAt(lines: seq<string>, body: string)
    requires lines != [] && forall i :: 0 <= i < |lines| ==> HeadLine(lines[i])
    ensures FindHeadEnd(Join(lines, CRLF) + (CRLF + CRLF + body)) == |Join(lines, CRLF)|
  {
    if |lines| == 1 {
      HeadEndLast(lines[0], body);
    } else {
      var line, tail, rest := lines[0], Join(lines[1..], CRLF), CRLF + CRLF + body;
      HeadEndAt(lines[1..], body);
      JoinStarts(lines[1..]);
      HeadEndLine(line, tail + rest);
      assert Join(lines, CRLF) + rest == line + (CRLF + (tail + rest));
    }
  }

  // A request as a client writes it, and what it must keep to.
  datatype Request = Request(verb: string, target: string, version: string, headers: seq<Header>, body: string)
  {
    function Head(): string {
      Join([Join([verb, target, version], " ")] + HeaderLines(headers), CRLF)
    }

    function Bytes(): string {
      Head() + (CRLF + CRLF + body)
    }

    predicate WellFormed() {
      && verb != "" && target != "" && ' ' !in verb && ' ' !in target && ' ' !in version
      && '\r' !in verb && '\r' !in target && '\r' !in version
      && (forall i :: 0 <= i < |headers| ==> ':' !in headers[i].0 && HeadLine(HeaderLines(headers)[i]))
      && |Head()| + 4 <= 8192
    }
  }

  // Bytes whose first 8192 hold no blank line are no request.
  lemma HeadIsBounded(buf: string)
    requires forall k: nat :: k + 4 <= |buf| && k + 4 <= 8192 ==> !HeadEnds(buf, k)
    ensures ParseRequestHead(buf).None?
  {
    var scan := if |buf| > MAX_HEADER_BYTES then buf[..MAX_HEADER_BYTES] else buf;
    var k := FindHeadEnd(scan);
    if k < |scan| { assert HeadEnds(buf, k); }
  }

  // It is parsed back to its method, its target and its headers, each name and value
  // trimmed, whatever body follows.
  lemma RequestIsRead(r: Request)
    requires r.WellFormed()
    ensures ParseRequestHead(r.Bytes()) == Some(RequestHead(r.verb, r.target, Trimmed(r.headers)))
  {
    HeadersAreRead(r.headers);
    LinesAreRead(r.verb, r.target, r.version, HeaderLines(r.headers), r.body);
  }

  lemma LinesAreRead(verb: string, target: string, version: string, headers: seq<string>, body: string)
    requires verb != "" && target != "" && ' ' !in verb && ' ' !in target && ' ' !in version
    requires '\r' !in verb && '\r' !in target && '\r' !in version
    requires forall i :: 0 <= i < |headers| ==> HeadLine(headers[i])
    requires |Join([Join([verb, target, version], " ")] + headers, CRLF)| + 4 <= MAX_HEADER_BYTES
    ensures ParseRequestHead(Join([Join([verb, target, version], " ")] + headers, CRLF) + (CRLF + CRLF + body))
         == Some(RequestHead(verb, target, ParseHeaders(headers)))
  {
    var parts := [verb, target, version];
    var line := Join(parts, " ");
    RequestLine(verb, target, version);
    var lines := [line] + headers;
    var head := Join(lines, CRLF);
    var buf := head + (CRLF + CRLF + body);
    assert forall i :: 0 <= i < |lines| ==> HeadLine(lines[i]);
    var scan := if |buf| > MAX_HEADER_BYTES then buf[..MAX_HEADER_BYTES] else buf;
    var kept := if |buf| > MAX_HEADER_BYTES then body[..MAX_HEADER_BYTES - |head| - 4] else body;
    assert scan == head + (CRLF + CRLF + kept);
    HeadEndAt(lines, kept);
    SplitJoinCrlf(lines);
    assert scan[..|head|] == head;
    assert lines[1..] == headers && lines[0] == line;
  }

  lemma RequestLine(verb: string, target: string, version: string)
    requires verb != "" && target != "" && ' ' !in verb && ' ' !in target && ' ' !in version
    requires '\r' !in verb && '\r' !in target && '\r' !in version
    ensures var line := Join([verb, target, version], " ");
            && line != "" && '\r' !in line
            && var parts := NonEmpty(Split(line, ' ')); |parts| >= 2 && parts[0] == verb && parts[1] == target
  {
    var parts := [verb, target, version];
    assert parts[1..] == [target, version] && [target, version][1..] == [version];
    assert Join([target, version], " ") == target + " " + Join([version], " ");
    assert Join(parts, " ") == verb + " " + (target + " " + version);
    SplitJoin(parts, ' ');
    FilterAll(IsPresent, [verb, target]);
    FilterSnoc(IsPresent, [verb, target], version);
    assert [verb, target] + [version] == parts;
  }

  // Headers as they are written, one line each, and as they are read.
  function HeaderLines(headers: seq<Header>): (lines: seq<string>)
    ensures |lines| == |headers|
    ensures forall i :: 0 <= i < |lines| ==> lines[i] == headers[i].0 + [':'] + headers[i].1
  {
    seq(|headers|, i requires 0 <= i < |headers| => headers[i].0 + [':'] + headers[i].1)
  }

  function Trimmed(headers: seq<Header>): (r: seq<Header>)
    ensures |r| == |headers|
    ensures forall i :: 0 <= i < |r| ==> r[i] == (Trim(headers[i].0), Trim(headers[i].1))
  {
    seq(|headers|, i requires 0 <= i < |headers| => (Trim(headers[i].0), Trim(headers[i].1)))
  }

  lemma HeaderIsRead(name: string, value: string, rest: seq<string>)
    requires ':' !in name
    ensures ParseHeaders([name + [':'] + value] + rest) == [(Trim(name), Trim(value))] + ParseHeaders(rest)
  {
    var lines := [name + [':'] + value] + rest;
    SplitOnceAt(name, ':', value);
    assert lines[0] == name + [':'] + value && lines[1..] == rest;
  }

  lemma HeadersCons(h: Header, rest: seq<Header>)
    ensures HeaderLines([h] + rest) == [h.0 + [':'] + h.1] + HeaderLines(rest)
    ensures Trimmed([h] + rest) == [(Trim(h.0), Trim(h.1))] + Trimmed(rest)
  {
  }

  // Each line yields its name and value, trimmed, in order.
  lemma {:induction false} HeadersAreRead(headers: seq<Header>)
    requires forall i :: 0 <= i < |headers| ==> ':' !in headers[i].0
    ensures ParseHeaders(HeaderLines(headers)) == Trimmed(headers)
  {
    if headers != [] {
      var h, rest := headers[0], headers[1..];
      HeadersAreRead(rest);
      HeaderIsRead(h.0, h.1, HeaderLines(rest));
      HeadersCons(h, rest);
      assert headers == [h] + rest;
    }
  }

  // One `name=value` piece of a Cookie header, if it is the session cookie.
  function SessionPiece(piece: string): Option<string> {
    match SplitOnce(Trim(piece), '=')
    case None => None
    case Some(nv) => if Trim(nv.0) == LINK_COOKIE_NAME then Some(Trim(nv.1)) else None
  }

  function SessionInPieces(pieces: seq<string>): Option<string> {
    FirstSome(SessionPiece, pieces)
  }

  function SessionInHeader(h: Header): Option<string> {
    if EqIgnoreAsciiCase(h.0, "cookie") then SessionInPieces(Split(h.1, ';')) else None
  }

  function SessionInCookies(headers: seq<Header>): Option<string> {
    FirstSome(SessionInHeader, headers)
  }

  // Only headers called "cookie", in any case, are looked at.
  lemma CookieNameIff(name: string)
    ensures EqIgnoreAsciiCase(name, "cookie") <==>
            && |name| == 6 && name[0] in "cC" && name[1] in "oO" && name[2] in "oO"
            && name[3] in "kK" && name[4] in "iI" && name[5] in "eE"
  {
  }

  // A session found is the value of a piece with the session cookie's name in such a header.
  lemma SessionIsFromCookie(headers: seq<Header>) returns (h: nat, i: nat)
    requires SessionInCookies(headers).Some?
    ensures h < |headers| && EqIgnoreAsciiCase(headers[h].0, "cookie") && i < |Split(headers[h].1, ';')|
    ensures SessionPiece(Split(headers[h].1, ';')[i]) == SessionInCookies(headers)
  {
    h := FirstSomeFrom(SessionInHeader, headers);
    i := FirstSomeFrom(SessionPiece, Split(headers[h].1, ';'));
  }

  // What a browser keeps of a Set-Cookie line: the text up to the first ';'.
  function CookiePair(setCookie: string): string {
    Split(setCookie, ';')[0]
  }

  lemma TokenIsPlain(session: string)
    requires LooksLikeLinkToken(session)
    ensures Trim(session) == session && ';' !in session && '=' !in session && '\r' !in session
  {
    TokenCharsOnly(session, ';');
    TokenCharsOnly(session, '=');
    TokenCharsOnly(session, '\r');
    assert session[0] in session && session[|session| - 1] in session;
  }

  lemma PairSurvives(session: string, maxAge: U64)
    requires LooksLikeLinkToken(session)
    ensures CookiePair(SetCookie(session, maxAge)) == LINK_COOKIE_NAME + "=" + session
  {
    CookieHasExactlyItsParts(session, maxAge);
  }

  lemma PieceIsSession(piece: string, session: string, maxAge: U64)
    requires LooksLikeLinkToken(session) && Trim(piece) == CookiePair(SetCookie(session, maxAge))
    ensures SessionPiece(piece) == Some(session)
  {
    TokenIsPlain(session);
    PairSurvives(session, maxAge);
    assert '=' !in LINK_COOKIE_NAME;
    assert LINK_COOKIE_NAME + "=" + session == LINK_COOKIE_NAME + ['='] + session;
    SplitOnceAt(LINK_COOKIE_NAME, '=', session);
  }

  lemma HeaderCarries(h: Header, pieces: seq<string>, i: nat, session: string)
    requires EqIgnoreAsciiCase(h.0, "cookie") && h.1 == Join(pieces, ";")
    requires i < |pieces| && forall p :: p in pieces ==> ';' !in p
    requires SessionPiece(pieces[i]) == Some(session) && forall j :: 0 <= j < i ==> SessionPiece(pieces[j]).None?
    ensures SessionInHeader(h) == Some(session)
  {
    SplitJoin(pieces, ';');
    FirstSomeAt(SessionPiece, pieces, i);
  }

  // The session the 302 sets is the session the gate reads back: a browser that stores
  // the pair and sends it among other cookies, padded or not, in any later request.
  lemma SessionComesBack(session: string, maxAge: U64, headers: seq<Header>, h: nat, pieces: seq<string>, i: nat)
    requires LooksLikeLinkToken(session)
    requires h < |headers| && EqIgnoreAsciiCase(headers[h].0, "cookie")
    requires forall j :: 0 <= j < h ==> SessionInHeader(headers[j]).None?
    requires headers[h].1 == Join(pieces, ";") && i < |pieces| && forall p :: p in pieces ==> ';' !in p
    requires Trim(pieces[i]) == CookiePair(SetCookie(session, maxAge))
    requires forall j :: 0 <= j < i ==> SessionPiece(pieces[j]).None?
    ensures SessionInCookies(headers) == Some(session)
  {
    PieceIsSession(pieces[i], session, maxAge);
    HeaderCarries(headers[h], pieces, i, session);
    FirstSomeAt(SessionInHeader, headers, h);
  }
}
