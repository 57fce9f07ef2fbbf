/**
 * The request dispatcher (`handleRequest`): a first-match chain on path and
 * upper-cased verb, ending in the `/v1` relay, and the relay handler itself —
 * credential, gate, query-key substitution, upstream target and request.
 */
module Gateway {
  import opened Wrappers
  import opened Strings
  import opened Config
  import opened KeySelector
  import opened DemoLimit
  import opened CredentialGate
  import opened Query
  import opened Http
  import opened Relay
  import opened WebDav

  /** The handler a request reaches. */
  datatype Route =
    | AppPage | Favicon | Manifest | WhoAmI
    | SearchCall | SummarizeCall
    | WebDavPreflight | WebDavProxy
    | InvalidPath | RelayCall

  /** The static paths answered before anything else. */
  const PagePaths: seq<string> := ["/", "/index.html"]
  const ManifestPaths: seq<string> := ["/manifest.json", "/site.webmanifest"]

  /** The route for `path` and `verb`, tried in the source's order. */
  function Dispatch(path: string, verb: string): Route
  {
    var v := Upper(verb);
    if path in PagePaths then AppPage
    else if path == "/favicon.svg" then Favicon
    else if path in ManifestPaths then Manifest
    else if path == "/whoami" then WhoAmI
    else if path == "/search" && v == "POST" then SearchCall
    else if path == "/summarize" && v == "POST" then SummarizeCall
    else if IsPreflight(v, path) then WebDavPreflight
    else if IsProxyPath(path) then WebDavProxy
    else if !StartsWith(path, "/v1") then InvalidPath
    else RelayCall
  }

  /** The 400 for a path no route serves. */
  function InvalidPathMessage(path: string): string
  {
    path + " Invalid API path. Must start with /v1"
  }

  /** None of the fixed paths starts with `/v1`. */
  lemma FixedPathsOutsideV1(path: string)
    requires path in PagePaths || path in ManifestPaths || path in ["/favicon.svg", "/whoami", "/search", "/summarize"]
      || StartsWith(path, "/webdav")
    ensures !StartsWith(path, "/v1")
  {
    if |path| >= 3 {
      if StartsWith(path, "/webdav") {
        assert path[1] == path[..7][1];
      }
      assert path[1] != 'v';
      assert path[..3][1] != "/v1"[1];
    }
  }

  /**
   * Exactly the paths under `/v1` are relayed, whatever the verb; every other
   * path that no earlier rule serves is a 400.
   */
  lemma RelayExactlyV1(path: string, verb: string)
    ensures Dispatch(path, verb) == RelayCall <==> StartsWith(path, "/v1")
    ensures Dispatch(path, verb) == InvalidPath <==>
      !StartsWith(path, "/v1") && Dispatch(path, verb) !in
        {AppPage, Favicon, Manifest, WhoAmI, SearchCall, SummarizeCall, WebDavPreflight, WebDavProxy}
  {
    var v := Upper(verb);
    if path in PagePaths || path in ManifestPaths || path in ["/favicon.svg", "/whoami", "/search", "/summarize"] {
      FixedPathsOutsideV1(path);
    } else if IsPreflight(v, path) {
      FixedPathsOutsideV1(path);
    } else if IsProxyPath(path) {
      ProxyPathsArePreflighted(path);
      FixedPathsOutsideV1(path);
    }
  }

  /**
   * The answer to a path no route serves: a 400 whose message opens with the
   * path itself. Paths under `/v1` never get it.
   */
  function InvalidPathReply(path: string, verb: string): (r: Option<(int, string)>)
    ensures r.Some? <==> Dispatch(path, verb) == InvalidPath
    ensures StartsWith(path, "/v1") ==> r.None?
    ensures r.Some? ==> r.value.0 == 400 && StartsWith(r.value.1, path)
  {
    RelayExactlyV1(path, verb);
    if Dispatch(path, verb) == InvalidPath then
      var m := InvalidPathMessage(path);
      assert m[..|path|] == path;
      Some((400, m))
    else None
  }

  /** The verb is compared upper-cased: `post /search` is a search. */
  lemma VerbCaseIgnored(path: string)
    ensures Dispatch(path, "post") == Dispatch(path, "POST")
  {
    assert Upper("post") == "POST";
    assert Upper("POST") == "POST";
  }

  /** Only POST searches: any other verb on `/search` falls through to the 400. */
  lemma SearchNeedsPost(verb: string)
    requires Upper(verb) != "POST"
    ensures Dispatch("/search", verb) == InvalidPath
  {
    var p := "/search";
    assert p !in PagePaths && p !in ManifestPaths;
    assert p[..3] != "/v1" by { assert p[1] == 's'; }
    assert !StartsWith(p, "/webdav") by { assert p[1] == 's'; }
  }

  /** The relay's decision before contacting the upstream. */
  datatype RelayPlan =
    | Refused(status: int, message: string)
    | Crash
    | Upstream(target: string, key: string)

  /**
   * How the password in the query is swapped for the pool key: `AsWritten`
   * is the text replace on the serialized query that the relay performs;
   * `Corrected` gives every `key` parameter carrying the password the pool key.
   */
  datatype QueryRule = AsWritten | Corrected

  /** The query string sent upstream once the gate granted `key`. */
  function UpstreamQuery(rule: QueryRule, params: seq<Param>, apiKey: string, key: string, cfg: Settings): string
  {
    match rule
    case AsWritten => SubstituteAsWritten(Serialize(params), apiKey, key, cfg.secretPassword, cfg.demoPassword)
    case Corrected => Serialize(SubstituteKeyParam(params, apiKey, key, cfg.secretPassword, cfg.demoPassword))
  }

  /**
   * The relay as a function of the selector cursor and limiter state:
   * the credential (query `key`, then `Authorization`) through the gate, then
   * the target with the password in the query replaced as the relay writes it.
   */
  function RelayDecision(path: string, params: seq<Param>, authorization: Option<string>, cfg: Settings,
                         hour: int, cursor: nat, st: LimiterState)
    : (RelayPlan, nat, LimiterState)
  {
    RelayWithCredential(AsWritten, ExtractCredential(Get(params, "key"), authorization), path, params, cfg, hour, cursor, st)
  }

  /** The same relay with the corrected query substitution. */
  function CorrectedRelayDecision(path: string, params: seq<Param>, authorization: Option<string>, cfg: Settings,
                                  hour: int, cursor: nat, st: LimiterState)
    : (RelayPlan, nat, LimiterState)
  {
    RelayWithCredential(Corrected, ExtractCredential(Get(params, "key"), authorization), path, params, cfg, hour, cursor, st)
  }

  /** The relay once the credential has been read. */
  function RelayWithCredential(rule: QueryRule, apiKey: string, path: string, params: seq<Param>, cfg: Settings,
                               hour: int, cursor: nat, st: LimiterState)
    : (RelayPlan, nat, LimiterState)
  {
    var (g, c1, st1) := Gate(apiKey, 1.0, hour, cfg, cursor, st);
    match g
    case Rejected(status, message) => (Refused(status, message), c1, st1)
    case PoolEmpty => (Crash, c1, st1)
    case Granted(key) => (Upstream(RelayTarget(cfg.apiBase, path, UpstreamQuery(rule, params, apiKey, key, cfg)), key), c1, st1)
  }

  /** What the relay does. */
  datatype RelayReply = RelayRefused(status: int, message: string) | RelayCrash | Sent(target: string, request: ProxyRequest)

  /** `request.headers.get('Authorization')`. */
  function AuthorizationOf(incoming: Headers): Option<string>
  {
    if "authorization" in incoming then Some(incoming["authorization"]) else None
  }

  /**
   * The relay did what its plan says: the upstream request carries the verb
   * and the body, follows redirects, holds exactly the allow-listed headers
   * the caller sent (with their values) and `Authorization: Bearer <key>`.
   */
  ghost predicate Performs(r: RelayReply, plan: RelayPlan, verb: string, incoming: Headers, body: string)
  {
    && (plan.Refused? ==> r == RelayRefused(plan.status, plan.message))
    && (plan.Crash? ==> r == RelayCrash)
    && (plan.Upstream? ==>
          && r.Sent? && r.target == plan.target
          && r.request.verb == verb && r.request.body == body && r.request.followRedirects
          && "authorization" in r.request.headers
          && r.request.headers["authorization"] == "Bearer " + plan.key
          && (forall h :: h in r.request.headers <==> h == "authorization" || (h in ForwardedHeaders && Present(incoming, h)))
          && (forall h :: h in ForwardedHeaders && Present(incoming, h) ==> r.request.headers[h] == incoming[h]))
  }

  /**
   * The `/v1` relay with the shared selector and limiter: a demo call is
   * charged 1; the upstream request carries the allow-listed headers and the
   * resolved key, and the query as the relay rewrites it.
   */
  method HandleRelay(path: string, params: seq<Param>, verb: string, incoming: Headers, body: string,
                     cfg: Settings, nowMs: int, rotator: Rotator, limiter: DemoLimiter)
    returns (r: RelayReply)
    modifies rotator, limiter
    ensures var d := RelayDecision(path, params, AuthorizationOf(incoming), cfg, HourOf(nowMs),
                                   old(rotator.cursor), old(limiter.State()));
      rotator.cursor == d.1 && limiter.State() == d.2 && Performs(r, d.0, verb, incoming, body)
  {
    var apiKey := ExtractCredential(Get(params, "key"), AuthorizationOf(incoming));
    r := RelayCredential(apiKey, path, params, verb, incoming, body, cfg, nowMs, rotator, limiter);
  }

  /** The relay once the credential has been read, with the shared selector and limiter. */
  method RelayCredential(apiKey: string, path: string, params: seq<Param>, verb: string, incoming: Headers,
                         body: string, cfg: Settings, nowMs: int, rotator: Rotator, limiter: DemoLimiter)
    returns (r: RelayReply)
    modifies rotator, limiter
    ensures var d := RelayWithCredential(AsWritten, apiKey, path, params, cfg, HourOf(nowMs),
                                         old(rotator.cursor), old(limiter.State()));
      rotator.cursor == d.1 && limiter.State() == d.2 && Performs(r, d.0, verb, incoming, body)
  {
    var g := Validate(apiKey, 1.0, nowMs, cfg, rotator, limiter);
    match g
    case Rejected(status, message) =>
      r := RelayRefused(status, message);
    case PoolEmpty =>
      r := RelayCrash;
    case Granted(key) =>
      var search := SubstituteAsWritten(Serialize(params), apiKey, key, cfg.secretPassword, cfg.demoPassword);
      var target := RelayTarget(cfg.apiBase, path, search);
      var request := BuildProxyRequest(verb, incoming, body, key);
      r := Sent(target, request);
  }

  /**
   * A caller holding a password is sent upstream with the pool key under the
   * cursor in `Authorization`, to the target whose query is the serialized
   * query after the as-written substitution of that key for the password.
   */
  lemma RelayUsesPoolKey(path: string, params: seq<Param>, authorization: Option<string>, cfg: Settings,
                         hour: int, cursor: nat, st: LimiterState)
    requires var apiKey := ExtractCredential(Get(params, "key"), authorization);
      apiKey != "" && (apiKey == cfg.secretPassword || (cfg.demoPassword != "" && apiKey == cfg.demoPassword))
    ensures var plan := RelayDecision(path, params, authorization, cfg, hour, cursor, st).0;
      plan.Upstream? ==> cfg.apiKeyList != [] && plan.key == cfg.apiKeyList[cursor % |cfg.apiKeyList|]
    ensures var plan := RelayDecision(path, params, authorization, cfg, hour, cursor, st).0;
      var apiKey := ExtractCredential(Get(params, "key"), authorization);
      plan.Upstream? ==>
        plan.target == RelayTarget(cfg.apiBase, path, SubstituteAsWritten(Serialize(params), apiKey, plan.key, cfg.secretPassword, cfg.demoPassword))
  {
    var apiKey := ExtractCredential(Get(params, "key"), authorization);
    assert RelayDecision(path, params, authorization, cfg, hour, cursor, st)
        == RelayWithCredential(AsWritten, apiKey, path, params, cfg, hour, cursor, st);
    PasswordGetsPoolKey(AsWritten, apiKey, path, params, cfg, hour, cursor, st);
    RelayKeyIsGateKey(AsWritten, apiKey, path, params, cfg, hour, cursor, st);
  }

  /** Under either rule, a password holder is relayed with the pool key under the cursor. */
  lemma PasswordGetsPoolKey(rule: QueryRule, apiKey: string, path: string, params: seq<Param>, cfg: Settings,
                            hour: int, cursor: nat, st: LimiterState)
    requires apiKey != "" && (apiKey == cfg.secretPassword || (cfg.demoPassword != "" && apiKey == cfg.demoPassword))
    ensures var plan := RelayWithCredential(rule, apiKey, path, params, cfg, hour, cursor, st).0;
      plan.Upstream? ==> cfg.apiKeyList != [] && plan.key == cfg.apiKeyList[cursor % |cfg.apiKeyList|]
  {
    GateNeverLeaksPassword(apiKey, 1.0, hour, cfg, cursor, st);
    RelayKeyIsGateKey(rule, apiKey, path, params, cfg, hour, cursor, st);
  }

  /** As written, a password at the very front of the serialized query is replaced by the relayed key. */
  lemma PasswordPrefixReplaced(apiKey: string, path: string, params: seq<Param>, cfg: Settings,
                               hour: int, cursor: nat, st: LimiterState)
    requires IsPassword(apiKey, cfg.secretPassword, cfg.demoPassword)
    ensures var plan := RelayWithCredential(AsWritten, apiKey, path, params, cfg, hour, cursor, st).0;
      var search := Serialize(params);
      plan.Upstream? && StartsWith(search, "key=" + apiKey) ==>
        plan.target == RelayTarget(cfg.apiBase, path, "key=" + plan.key + search[|apiKey| + 4..])
  {
    var plan := RelayWithCredential(AsWritten, apiKey, path, params, cfg, hour, cursor, st).0;
    var search := Serialize(params);
    if plan.Upstream? && StartsWith(search, "key=" + apiKey) {
      RelayKeyIsGateKey(AsWritten, apiKey, path, params, cfg, hour, cursor, st);
      SubstituteAtFront(search, apiKey, plan.key, cfg.secretPassword, cfg.demoPassword);
    }
  }

  /**
   * The relay goes upstream only on a granted key, sends that key, and
   * targets the base and path with the query its rule produces for that key.
   */
  lemma RelayKeyIsGateKey(rule: QueryRule, apiKey: string, path: string, params: seq<Param>, cfg: Settings,
                          hour: int, cursor: nat, st: LimiterState)
    ensures var plan := RelayWithCredential(rule, apiKey, path, params, cfg, hour, cursor, st).0;
      var g := Gate(apiKey, 1.0, hour, cfg, cursor, st).0;
      plan.Upstream? ==>
        && g.Granted? && plan.key == g.key
        && plan.target == RelayTarget(cfg.apiBase, path, UpstreamQuery(rule, params, apiKey, g.key, cfg))
  {
  }

  /**
   * As written, a shared password holding a space reaches the upstream: the
   * target carries the caller's query unchanged.
   */
  lemma RelayLeaksSpacedPassword(path: string, params: seq<Param>, authorization: Option<string>, cfg: Settings,
                                 hour: int, cursor: nat, st: LimiterState)
    requires ExtractCredential(Get(params, "key"), authorization) == cfg.secretPassword
    requires ' ' in cfg.secretPassword
    ensures var plan := RelayDecision(path, params, authorization, cfg, hour, cursor, st).0;
      plan.Upstream? ==> plan.target == RelayTarget(cfg.apiBase, path, Serialize(params))
  {
    var apiKey := cfg.secretPassword;
    RelayKeyIsGateKey(AsWritten, apiKey, path, params, cfg, hour, cursor, st);
    var g := Gate(apiKey, 1.0, hour, cfg, cursor, st).0;
    if g.Granted? {
      AsWrittenMissesSpacedPassword(params, g.key, cfg.secretPassword, cfg.demoPassword);
    }
  }

  /**
   * With the corrected substitution, a caller holding a password is sent with
   * the pool key under the cursor, and the target's query is the caller's
   * parameters in order with no `key` parameter still carrying the password
   * (when no pool key is itself read as the password).
   */
  lemma CorrectedRelayHidesPassword(path: string, params: seq<Param>, authorization: Option<string>, cfg: Settings,
                                    hour: int, cursor: nat, st: LimiterState)
    requires var apiKey := ExtractCredential(Get(params, "key"), authorization);
      apiKey != "" && (apiKey == cfg.secretPassword || (cfg.demoPassword != "" && apiKey == cfg.demoPassword))
    requires forall k :: k in cfg.apiKeyList ==> CredentialOf(k) != ExtractCredential(Get(params, "key"), authorization)
    ensures var plan := CorrectedRelayDecision(path, params, authorization, cfg, hour, cursor, st).0;
      var apiKey := ExtractCredential(Get(params, "key"), authorization);
      plan.Upstream? ==>
        && cfg.apiKeyList != [] && plan.key == cfg.apiKeyList[cursor % |cfg.apiKeyList|]
        && var q := SubstituteKeyParam(params, apiKey, plan.key, cfg.secretPassword, cfg.demoPassword);
           && plan.target == RelayTarget(cfg.apiBase, path, Serialize(q))
           && |q| == |params|
           && (forall i :: 0 <= i < |q| && q[i].0 == "key" ==> CredentialOf(q[i].1) != apiKey)
           && (forall i :: 0 <= i < |q| && params[i].0 != "key" ==> q[i] == params[i])
  {
    var apiKey := ExtractCredential(Get(params, "key"), authorization);
    assert CorrectedRelayDecision(path, params, authorization, cfg, hour, cursor, st)
        == RelayWithCredential(Corrected, apiKey, path, params, cfg, hour, cursor, st);
    CorrectedPlanHides(apiKey, path, params, cfg, hour, cursor, st);
  }

  /** `CorrectedRelayHidesPassword` once the credential has been read. */
  lemma CorrectedPlanHides(apiKey: string, path: string, params: seq<Param>, cfg: Settings,
                           hour: int, cursor: nat, st: LimiterState)
    requires apiKey != "" && (apiKey == cfg.secretPassword || (cfg.demoPassword != "" && apiKey == cfg.demoPassword))
    requires forall k :: k in cfg.apiKeyList ==> CredentialOf(k) != apiKey
    ensures var plan := RelayWithCredential(Corrected, apiKey, path, params, cfg, hour, cursor, st).0;
      plan.Upstream? ==>
        && cfg.apiKeyList != [] && plan.key == cfg.apiKeyList[cursor % |cfg.apiKeyList|]
        && var q := SubstituteKeyParam(params, apiKey, plan.key, cfg.secretPassword, cfg.demoPassword);
           && plan.target == RelayTarget(cfg.apiBase, path, Serialize(q))
           && |q| == |params|
           && (forall i :: 0 <= i < |q| && q[i].0 == "key" ==> CredentialOf(q[i].1) != apiKey)
           && (forall i :: 0 <= i < |q| && params[i].0 != "key" ==> q[i] == params[i])
  {
    var plan := RelayWithCredential(Corrected, apiKey, path, params, cfg, hour, cursor, st).0;
    if plan.Upstream? {
      PasswordGetsPoolKey(Corrected, apiKey, path, params, cfg, hour, cursor, st);
      RelayKeyIsGateKey(Corrected, apiKey, path, params, cfg, hour, cursor, st);
      assert plan.key in cfg.apiKeyList;
      CorrectedHidesPassword(params, apiKey, plan.key, cfg.secretPassword, cfg.demoPassword);
    }
  }
}
