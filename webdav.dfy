/**
 * The WebDAV proxy that lets the browser reach a WebDAV server across
 * origins: which paths it serves, the target URL it builds from
 * `X-WebDAV-URL`, the headers and body it forwards (with a `Content-Length`
 * that counts UTF-8 bytes), and how the server's answer is passed back
 * (redirects refused as 502, CORS headers added, `WWW-Authenticate` removed).
 * The verbs used are those of RFC 4918 (PROPFIND in section 9.1, MKCOL in
 * section 9.3, with the Depth header of section 10.2); redirects are the
 * 3xx codes of section 15.4 of RFC 9110.
 */
module WebDav {
  import opened Wrappers
  import opened Strings
  import opened Encoding
  import opened Config
  import opened Http

  const MissingUrlMessage := "Missing X-WebDAV-URL header"
  const ProxyErrorPrefix := "WebDAV proxy error: "
  const RedirectPrefix := "WebDAV 服务器返回重定向，请检查是否需要使用 HTTPS URL。重定向目标: "
  const ClientAgent := "WebDAV-Client/1.0"
  const AllowMethods := "GET, PUT, POST, DELETE, PROPFIND, MKCOL, OPTIONS"
  const AllowHeaders := "Content-Type, Authorization, Depth, X-WebDAV-URL, X-WebDAV-Auth"

  /** The upstream statuses treated as redirects. */
  const RedirectStatuses: set<int> := {301, 302, 303, 307, 308}

  /** The verbs whose body is not read or forwarded. */
  const BodylessVerbs: seq<string> := ["GET", "HEAD", "OPTIONS"]

  /** A preflight the gateway answers itself: OPTIONS on any path starting `/webdav`. */
  predicate IsPreflight(verb: string, path: string)
  {
    verb == "OPTIONS" && StartsWith(path, "/webdav")
  }

  /** The paths the proxy serves: `/webdav` itself and everything below `/webdav/`. */
  predicate IsProxyPath(path: string)
  {
    path == "/webdav" || StartsWith(path, "/webdav/")
  }

  /** The headers of the 204 preflight reply. */
  function PreflightHeaders(): (h: Headers)
    ensures "access-control-allow-origin" in h && h["access-control-allow-origin"] == "*"
    ensures "access-control-allow-methods" in h && h["access-control-allow-methods"] == AllowMethods
    ensures "access-control-allow-headers" in h && h["access-control-allow-headers"] == AllowHeaders
    ensures "access-control-max-age" in h && h["access-control-max-age"] == "86400"
  {
    map["access-control-allow-origin" := "*",
        "access-control-allow-methods" := AllowMethods,
        "access-control-allow-headers" := AllowHeaders,
        "access-control-max-age" := "86400"]
  }

  /**
   * Every path the proxy serves is also a preflight path, so an OPTIONS
   * request on it is answered locally; `/webdavx` is a preflight path the
   * proxy does not serve.
   */
  lemma ProxyPathsArePreflighted(path: string)
    ensures IsProxyPath(path) ==> IsPreflight("OPTIONS", path)
    ensures IsPreflight("OPTIONS", "/webdavx") && !IsProxyPath("/webdavx")
  {
    if StartsWith(path, "/webdav/") {
      assert path[..7] == path[..8][..7];
    }
    var x := "/webdavx";
    assert x[..7] == "/webdav";
    assert x[7] != '/';
    assert x[..8] != "/webdav/" by {
      assert x[..8][7] != "/webdav/"[7];
    }
  }

  /**
   * The server URL for `path`: `/webdav` targets `X-WebDAV-URL` as given;
   * below it, the URL loses one trailing slash and the rest of the path
   * (from its `/` on) is appended.
   */
  function Target(webdavUrl: string, path: string): (target: string)
    requires IsProxyPath(path)
    ensures path == "/webdav" ==> target == webdavUrl
    ensures StartsWith(path, "/webdav/") ==> target == StripTrailingSlash(webdavUrl) + path[7..]
  {
    if StartsWith(path, "/webdav/") then StripTrailingSlash(webdavUrl) + path[7..] else webdavUrl
  }

  /**
   * A configured URL with or without its one trailing slash leads to the
   * same file: the sub-path is joined with exactly one `/`.
   */
  lemma TargetJoinsWithOneSlash(base: string, sub: string)
    requires !EndsWith(base, "/")
    ensures Target(base, "/webdav/" + sub) == base + "/" + sub
    ensures Target(base + "/", "/webdav/" + sub) == base + "/" + sub
  {
    var path := "/webdav/" + sub;
    assert path[..8] == "/webdav/";
    assert path[7..] == "/" + sub;
    StripOneSlash(base);
  }

  /** What the proxy sends on: the verb, the headers it built, and the body if one is sent. */
  datatype Forward = Forward(target: string, verb: string, headers: Headers, body: Option<string>)

  /** The proxy's decision before contacting the server. */
  datatype Plan = MissingUrl | Send(request: Forward)

  /** The body is read and forwarded for every verb except GET, HEAD and OPTIONS. */
  predicate SendsBody(verb: string)
  {
    verb !in BodylessVerbs
  }

  /**
   * The headers the proxy sends: its own `User-Agent`; `Authorization` from
   * `X-WebDAV-Auth`, `Content-Type` and `Depth` exactly when the caller sent
   * them non-empty; for a non-empty body on a verb that sends one, its length
   * in UTF-8 bytes; and nothing else.
   */
  ghost predicate ProxyHeaders(h: Headers, verb: string, incoming: Headers, body: string)
  {
    && "user-agent" in h && h["user-agent"] == ClientAgent
    && ("authorization" in h <==> Present(incoming, "x-webdav-auth"))
    && ("authorization" in h ==> h["authorization"] == incoming["x-webdav-auth"])
    && ("content-type" in h <==> Present(incoming, "content-type"))
    && ("content-type" in h ==> h["content-type"] == incoming["content-type"])
    && ("depth" in h <==> Present(incoming, "depth"))
    && ("depth" in h ==> h["depth"] == incoming["depth"])
    && ("content-length" in h <==> SendsBody(verb) && body != "")
    && ("content-length" in h ==> h["content-length"] == NatToDecimal(|Utf8Encode(body)|))
    && (forall name :: name in h ==>
          name in {"user-agent", "authorization", "content-type", "depth", "content-length"})
  }

  /** The forwarded headers, set one after another as the proxy does. */
  method ForwardHeaders(verb: string, incoming: Headers, body: string) returns (h: Headers)
    ensures ProxyHeaders(h, verb, incoming, body)
  {
    h := map["user-agent" := ClientAgent];
    if Present(incoming, "x-webdav-auth") {
      h := h["authorization" := incoming["x-webdav-auth"]];
    }
    if Present(incoming, "content-type") {
      h := h["content-type" := incoming["content-type"]];
    }
    if Present(incoming, "depth") {
      h := h["depth" := incoming["depth"]];
    }
    if SendsBody(verb) && body != "" {
      h := h["content-length" := NatToDecimal(|Utf8Encode(body)|)];
    }
  }

  /**
   * The proxy's request for `verb` on `path` (a proxied path), or the 400
   * for a missing or empty `X-WebDAV-URL`.
   */
  method PlanRequest(verb: string, path: string, incoming: Headers, body: string) returns (p: Plan)
    requires IsProxyPath(path)
    ensures !Present(incoming, "x-webdav-url") <==> p == MissingUrl
    ensures p.Send? ==>
      && p.request.target == Target(incoming["x-webdav-url"], path)
      && p.request.verb == verb
      && ProxyHeaders(p.request.headers, verb, incoming, body)
      && (p.request.body == if SendsBody(verb) then Some(body) else None)
  {
    if !Present(incoming, "x-webdav-url") {
      return MissingUrl;
    }
    var target := Target(incoming["x-webdav-url"], path);
    var headers := ForwardHeaders(verb, incoming, body);
    var sent := if SendsBody(verb) then Some(body) else None;
    p := Send(Forward(target, verb, headers, sent));
  }

  /**
   * The `Content-Length` the proxy writes reads back as the UTF-8 byte count
   * of the body; it equals the character count exactly when the body is
   * plain ASCII, and exceeds it as soon as one character is not.
   */
  lemma ContentLengthCountsBytes(body: string)
    ensures DecimalValue(NatToDecimal(|Utf8Encode(body)|)) == |Utf8Encode(body)|
    ensures (forall i :: 0 <= i < |body| ==> (body[i] as int) < 0x80) ==> |Utf8Encode(body)| == |body|
    ensures (exists i :: 0 <= i < |body| && (body[i] as int) >= 0x80) ==> |Utf8Encode(body)| > |body|
  {
    DecimalRoundTrip(|Utf8Encode(body)|);
    if forall i :: 0 <= i < |body| ==> (body[i] as int) < 0x80 {
      Utf8AsciiLength(body);
    }
    if exists i :: 0 <= i < |body| && (body[i] as int) >= 0x80 {
      var i :| 0 <= i < |body| && (body[i] as int) >= 0x80;
      Utf8NonAsciiLonger(body, i);
    }
  }

  /** The outcome of the server call: a network failure, or a status with headers. */
  datatype Fetched = FetchFailed(error: string) | Answered(status: int, headers: Headers)

  /**
   * The server's answer as passed back: the three CORS headers set (replacing
   * any the server sent), `WWW-Authenticate` removed, everything else kept.
   */
  ghost predicate CorsHeaders(h: Headers, upstream: Headers)
  {
    && "access-control-allow-origin" in h && h["access-control-allow-origin"] == "*"
    && "access-control-allow-methods" in h && h["access-control-allow-methods"] == AllowMethods
    && "access-control-allow-headers" in h && h["access-control-allow-headers"] == AllowHeaders
    && "www-authenticate" !in h
    && (forall name :: name in upstream && name !in CorsNames() && name != "www-authenticate" ==>
          name in h && h[name] == upstream[name])
    && (forall name :: name in h ==> name in upstream || name in CorsNames())
  }

  /** Adds the CORS headers to the server's answer and drops its challenge. */
  method WithCors(upstream: Headers) returns (h: Headers)
    ensures CorsHeaders(h, upstream)
  {
    h := upstream;
    h := h["access-control-allow-origin" := "*"];
    h := h["access-control-allow-methods" := AllowMethods];
    h := h["access-control-allow-headers" := AllowHeaders];
    h := h - {"www-authenticate"};
  }

  /** The header names `WithCors` sets. */
  function CorsNames(): set<string>
  {
    {"access-control-allow-origin", "access-control-allow-methods", "access-control-allow-headers"}
  }

  /** The text a redirect's `Location` contributes: its value, or `null` when there is none. */
  function LocationText(headers: Headers): string
  {
    if "location" in headers then headers["location"] else "null"
  }

  /** The reply for the server's answer. */
  method Respond(answer: Fetched) returns (r: Reply)
    ensures answer.FetchFailed? ==> r == Failure(502, ProxyErrorPrefix + answer.error)
    ensures answer.Answered? && answer.status in RedirectStatuses ==>
      r == Failure(502, RedirectPrefix + LocationText(answer.headers))
    ensures answer.Answered? && answer.status !in RedirectStatuses ==>
      && r.Forwarded? && r.status == answer.status
      && CorsHeaders(r.headers, answer.headers)
  {
    match answer
    case FetchFailed(e) =>
      r := Failure(502, ProxyErrorPrefix + e);
    case Answered(status, headers) =>
      if status in RedirectStatuses {
        r := Failure(502, RedirectPrefix + LocationText(headers));
      } else {
        var h := WithCors(headers);
        r := Forwarded(status, h);
      }
  }

  /** A redirect is never followed: it becomes a 502 whose message names where it pointed. */
  lemma RedirectNamesLocation(status: int, headers: Headers)
    requires status in RedirectStatuses && "location" in headers
    ensures Contains(RedirectPrefix + LocationText(headers), headers["location"])
  {
    ContainsPrefix(headers["location"], RedirectPrefix, "");
    assert RedirectPrefix + headers["location"] + "" == RedirectPrefix + headers["location"];
  }
}
