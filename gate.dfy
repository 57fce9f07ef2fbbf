/**
 * The credential gate (`validateAndProcessApiKey`): an ordered decision over
 * the caller's credential — missing, the shared password, the demo password
 * (charged against the hourly quota), too short to be a real key, or a key of
 * the caller's own that is passed through — and the way the credential is
 * read from the request (`?key=` first, then `Authorization`, minus `Bearer `).
 */
module CredentialGate {
  import opened Wrappers
  import opened Strings
  import opened Config
  import opened KeySelector
  import opened DemoLimit

  /** Credentials of this length or shorter that match no password are refused. */
  const ShortKeyLength := 10

  const MissingKeyMessage := "Missing API key. Provide via ?key= parameter or Authorization header"
  const WrongPasswordMessage := "Wrong password."

  /** `url.searchParams.get('key') || request.headers.get('Authorization') || ''`. */
  function RawCredential(queryKey: Option<string>, authorization: Option<string>): (raw: string)
    ensures queryKey.Some? && queryKey.value != "" ==> raw == queryKey.value
    ensures (queryKey.None? || queryKey.value == "") && authorization.Some? ==> raw == authorization.value
    ensures (queryKey.None? || queryKey.value == "") && authorization.None? ==> raw == ""
  {
    if queryKey.Some? && queryKey.value != "" then queryKey.value
    else if authorization.Some? && authorization.value != "" then authorization.value
    else ""
  }

  /**
   * The credential as every route reads it: the raw value with its first
   * `Bearer ` removed (wherever it occurs), then trimmed.
   */
  function ExtractCredential(queryKey: Option<string>, authorization: Option<string>): string
  {
    Trim(ReplaceFirst(RawCredential(queryKey, authorization), "Bearer ", ""))
  }

  /** A bearer header without a query key yields the token, trimmed. */
  lemma BearerCredential(token: string)
    ensures ExtractCredential(None, Some("Bearer " + token)) == Trim(token)
  {
    var raw := "Bearer " + token;
    var stripped := ReplaceFirst(raw, "Bearer ", "");
    assert RawCredential(None, Some(raw)) == raw;
    ReplaceFirstAtFront("Bearer ", token, "");
    assert stripped == "" + token;
    assert "" + token == token;
  }

  /** A non-empty query key wins over the header. */
  lemma QueryKeyWins(key: string, authorization: Option<string>)
    requires key != "" && !Contains(key, "Bearer ")
    ensures ExtractCredential(Some(key), authorization) == Trim(key)
  {
    assert RawCredential(Some(key), authorization) == key;
    ReplaceFirstAbsent(key, "Bearer ", "");
  }

  /** Neither source present: the credential is empty (and the gate answers 401). */
  lemma NoCredential()
    ensures ExtractCredential(None, None) == ""
  {
    assert RawCredential(None, None) == "";
    assert IndexOf("", "Bearer ") == None;
    assert ReplaceFirst("", "Bearer ", "") == "";
  }

  /** Which branch of the gate a credential takes. */
  datatype Kind = Missing | Shared | Demo | TooShort | PassThrough

  /** The gate's branches, tried in the source's order. */
  function Classify(apiKey: string, secret: string, demo: string): Kind
  {
    if apiKey == "" then Missing
    else if apiKey == secret then Shared
    else if apiKey == demo && demo != "" then Demo
    else if |apiKey| <= ShortKeyLength then TooShort
    else PassThrough
  }

  /**
   * Each branch is taken exactly when the earlier tests fail and its own
   * test succeeds; in particular a credential is passed through exactly when
   * it is non-empty, matches neither password, and is longer than 10.
   */
  lemma ClassifyOrder(apiKey: string, secret: string, demo: string)
    ensures Classify(apiKey, secret, demo) == Missing <==> apiKey == ""
    ensures Classify(apiKey, secret, demo) == Shared <==> apiKey != "" && apiKey == secret
    ensures Classify(apiKey, secret, demo) == Demo <==>
      apiKey != "" && apiKey != secret && apiKey == demo
    ensures Classify(apiKey, secret, demo) == TooShort <==>
      apiKey != "" && apiKey != secret && apiKey != demo && |apiKey| <= ShortKeyLength
    ensures Classify(apiKey, secret, demo) == PassThrough <==>
      apiKey != secret && apiKey != demo && |apiKey| > ShortKeyLength
  {
  }

  /** The gate's answer: a usable upstream key, a refusal, or the empty-pool exception. */
  datatype GateResult = Granted(key: string) | Rejected(status: int, message: string) | PoolEmpty

  /** A round-robin pick as a gate answer. */
  function FromPick(p: Pick): GateResult
  {
    match p
    case Picked(k) => Granted(k)
    case EmptyPool => PoolEmpty
  }

  /**
   * The gate as a function of the selector cursor and the limiter state
   * before it: the answer, the cursor after it, and the limiter state after it.
   */
  function Gate(apiKey: string, demoIncrement: real, hour: int, cfg: Settings, cursor: nat, st: LimiterState)
    : (GateResult, nat, LimiterState)
  {
    match Classify(apiKey, cfg.secretPassword, cfg.demoPassword)
    case Missing => (Rejected(401, MissingKeyMessage), cursor, st)
    case Shared =>
      var (p, c') := RoundRobinStep(cfg.apiKeyList, cursor);
      (FromPick(p), c', st)
    case Demo =>
      var (v, st') := Step(st, hour, demoIncrement, cfg.demoMaxTimes);
      if !v.allowed then (Rejected(429, v.message), cursor, st')
      else
        var (p, c') := RoundRobinStep(cfg.apiKeyList, cursor);
        (FromPick(p), c', st')
    case TooShort => (Rejected(401, WrongPasswordMessage), cursor, st)
    case PassThrough => (Granted(apiKey), cursor, st)
  }

  /**
   * `validateAndProcessApiKey(apiKey, demoIncrement)` at clock reading
   * `nowMs`, using and advancing the shared selector and limiter.
   */
  method Validate(apiKey: string, demoIncrement: real, nowMs: int, cfg: Settings,
                  rotator: Rotator, limiter: DemoLimiter) returns (r: GateResult)
    modifies rotator, limiter
    ensures (r, rotator.cursor, limiter.State()) ==
      Gate(apiKey, demoIncrement, HourOf(nowMs), cfg, old(rotator.cursor), old(limiter.State()))
  {
    if apiKey == "" {
      return Rejected(401, MissingKeyMessage);
    }
    if apiKey == cfg.secretPassword {
      var p := rotator.Next(cfg.apiKeyList);
      return FromPick(p);
    }
    if apiKey == cfg.demoPassword && cfg.demoPassword != "" {
      var v := limiter.CheckAndUpdate(nowMs, demoIncrement, cfg.demoMaxTimes);
      if !v.allowed {
        return Rejected(429, v.message);
      }
      var p := rotator.Next(cfg.apiKeyList);
      return FromPick(p);
    }
    if |apiKey| <= ShortKeyLength {
      return Rejected(401, WrongPasswordMessage);
    }
    r := Granted(apiKey);
  }

  /** An empty credential is refused with 401 and charges nothing. */
  lemma GateMissing(demoIncrement: real, hour: int, cfg: Settings, cursor: nat, st: LimiterState)
    ensures Gate("", demoIncrement, hour, cfg, cursor, st) == (Rejected(401, MissingKeyMessage), cursor, st)
  {
  }

  /**
   * The passwords never reach the upstream: a credential equal to the shared
   * password, or to a configured demo password, is only ever granted as a
   * key of the pool, namely the one under the cursor.
   */
  lemma GateNeverLeaksPassword(apiKey: string, demoIncrement: real, hour: int, cfg: Settings,
                               cursor: nat, st: LimiterState)
    requires apiKey != ""
    requires apiKey == cfg.secretPassword || (cfg.demoPassword != "" && apiKey == cfg.demoPassword)
    ensures var (r, c', st') := Gate(apiKey, demoIncrement, hour, cfg, cursor, st);
      r.Granted? ==>
        && cfg.apiKeyList != []
        && r.key == cfg.apiKeyList[cursor % |cfg.apiKeyList|]
        && r.key in cfg.apiKeyList
        && c' == (cursor + 1) % |cfg.apiKeyList|
  {
  }

  /** The shared password never touches the demo quota; an empty pool is the thrown error. */
  lemma GateShared(apiKey: string, demoIncrement: real, hour: int, cfg: Settings, cursor: nat, st: LimiterState)
    requires apiKey != "" && apiKey == cfg.secretPassword
    ensures var (r, c', st') := Gate(apiKey, demoIncrement, hour, cfg, cursor, st);
      && st' == st
      && (cfg.apiKeyList == [] <==> r == PoolEmpty)
      && (cfg.apiKeyList != [] ==> r == Granted(cfg.apiKeyList[cursor % |cfg.apiKeyList|]))
  {
  }

  /**
   * The demo password is charged against the quota first: a denial is a 429
   * carrying the limiter's message with the cursor untouched; otherwise a pool
   * key is handed out. Either way the limiter state is the one `Step` gives,
   * so the quota is charged even when the pool then turns out empty.
   */
  lemma GateDemo(apiKey: string, demoIncrement: real, hour: int, cfg: Settings, cursor: nat, st: LimiterState)
    requires apiKey != "" && apiKey != cfg.secretPassword && apiKey == cfg.demoPassword
    ensures var (r, c', st') := Gate(apiKey, demoIncrement, hour, cfg, cursor, st);
      var (v, stStep) := Step(st, hour, demoIncrement, cfg.demoMaxTimes);
      && st' == stStep
      && (!v.allowed ==> r == Rejected(429, v.message) && c' == cursor)
      && (v.allowed && cfg.apiKeyList == [] ==> r == PoolEmpty)
      && (v.allowed && cfg.apiKeyList != [] ==> r == Granted(cfg.apiKeyList[cursor % |cfg.apiKeyList|]))
  {
  }

  /**
   * Any other credential is refused with 401 when it is 10 characters or
   * shorter, and otherwise granted unchanged as the caller's own key; neither
   * touches the cursor or the quota.
   */
  lemma GateOther(apiKey: string, demoIncrement: real, hour: int, cfg: Settings, cursor: nat, st: LimiterState)
    requires apiKey != "" && apiKey != cfg.secretPassword
    requires !(cfg.demoPassword != "" && apiKey == cfg.demoPassword)
    ensures var (r, c', st') := Gate(apiKey, demoIncrement, hour, cfg, cursor, st);
      && c' == cursor && st' == st
      && (|apiKey| <= ShortKeyLength ==> r == Rejected(401, WrongPasswordMessage))
      && (|apiKey| > ShortKeyLength ==> r == Granted(apiKey))
  {
  }
}
