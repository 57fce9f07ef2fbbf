/**
 * The `/summarize` route, which asks the lite model for a short title of one
 * question/answer exchange: both texts must be present, the caller must pass
 * the gate and must have used one of the two passwords (a caller's own key
 * is refused with 403), and each text is cut to its first and last 150
 * characters around `......` when longer than 300.
 */
module Summarize {
  import opened Wrappers
  import opened Strings
  import opened Config
  import opened KeySelector
  import opened DemoLimit
  import opened CredentialGate

  const MissingTextMessage := "Missing question or answer parameter"
  const NotPasswordMessage := "Invalid API key. Provide a valid key."
  const FailedMessage := "Failed to generate summary"

  /** Quota charged per summary by the demo password. */
  const SummaryCharge: real := 0.1

  /** Texts up to this length are sent whole. */
  const KeepWhole := 300
  /** Characters kept from each end of a longer text. */
  const KeepEnd := 150
  const Ellipsis := "......"

  /** A question or answer as sent to the model. */
  function Truncate(s: string): (t: string)
    ensures |s| <= KeepWhole ==> t == s
    ensures |s| > KeepWhole ==> |t| == 2 * KeepEnd + |Ellipsis|
    ensures |s| > KeepWhole ==> t[..KeepEnd] == s[..KeepEnd]
    ensures |s| > KeepWhole ==> t[KeepEnd..KeepEnd + |Ellipsis|] == Ellipsis
    ensures |s| > KeepWhole ==> t[KeepEnd + |Ellipsis|..] == s[|s| - KeepEnd..]
  {
    if |s| <= KeepWhole then s
    else
      var t := s[..KeepEnd] + Ellipsis + s[|s| - KeepEnd..];
      assert t[KeepEnd..KeepEnd + |Ellipsis|] == Ellipsis;
      assert t[KeepEnd + |Ellipsis|..] == s[|s| - KeepEnd..];
      t
  }

  /**
   * Truncation never yields more than 306 characters; it lengthens exactly
   * the texts of 301 to 305 characters, which come out at 306.
   */
  lemma TruncateBounds(s: string)
    ensures |Truncate(s)| <= 2 * KeepEnd + |Ellipsis|
    ensures |Truncate(s)| > |s| <==> KeepWhole < |s| < 2 * KeepEnd + |Ellipsis|
  {
  }

  /** A truncated text is truncated no further. */
  lemma TruncateIdempotent(s: string)
    ensures Truncate(Truncate(s)) == Truncate(s)
  {
  }

  /** How the route answers. */
  datatype SummaryReply =
    | Summary(text: string)
    | Refused(status: int, message: string)
    | Crash

  /** The route's extra rule: only the two passwords may ask for a summary. */
  predicate MayAskSummary(apiKey: string, cfg: Settings)
  {
    apiKey == cfg.demoPassword || apiKey == cfg.secretPassword
  }

  /**
   * The route as a function of the selector cursor and limiter state before
   * it. `model` stands for the model call made with the truncated texts
   * (`None` when it fails); its answer is returned trimmed.
   */
  function SummarizeRoute(question: string, answer: string, apiKey: string, cfg: Settings, hour: int,
                          cursor: nat, st: LimiterState, model: (string, string) -> Option<string>)
    : (SummaryReply, nat, LimiterState)
  {
    if question == "" || answer == "" then (Refused(400, MissingTextMessage), cursor, st)
    else
      var (g, c1, st1) := Gate(apiKey, SummaryCharge, hour, cfg, cursor, st);
      match g
      case Rejected(status, message) => (Refused(status, message), c1, st1)
      case PoolEmpty => (Crash, c1, st1)
      case Granted(_) =>
        if !MayAskSummary(apiKey, cfg) then (Refused(403, NotPasswordMessage), c1, st1)
        else
          var (p, c2) := RoundRobinStep(cfg.apiKeyList, c1);
          if p.EmptyPool? then (Refused(500, FailedMessage), c2, st1)
          else
            match model(Truncate(question), Truncate(answer))
            case None => (Refused(500, FailedMessage), c2, st1)
            case Some(text) => (Summary(Trim(text)), c2, st1)
  }

  /** `/summarize` with the shared selector and limiter. */
  method HandleSummarize(question: string, answer: string, apiKey: string, cfg: Settings, nowMs: int,
                         rotator: Rotator, limiter: DemoLimiter, model: (string, string) -> Option<string>)
    returns (r: SummaryReply)
    modifies rotator, limiter
    ensures (r, rotator.cursor, limiter.State()) ==
      SummarizeRoute(question, answer, apiKey, cfg, HourOf(nowMs), old(rotator.cursor), old(limiter.State()), model)
  {
    if question == "" || answer == "" {
      return Refused(400, MissingTextMessage);
    }
    var g := Validate(apiKey, SummaryCharge, nowMs, cfg, rotator, limiter);
    match g
    case Rejected(status, message) =>
      r := Refused(status, message);
    case PoolEmpty =>
      r := Crash;
    case Granted(_) =>
      if !MayAskSummary(apiKey, cfg) {
        return Refused(403, NotPasswordMessage);
      }
      var p := rotator.Next(cfg.apiKeyList);
      if p.EmptyPool? {
        return Refused(500, FailedMessage);
      }
      match model(Truncate(question), Truncate(answer))
      case None =>
        r := Refused(500, FailedMessage);
      case Some(text) =>
        r := Summary(Trim(text));
  }

  /**
   * A caller's own key (long enough to pass the gate, matching neither
   * password) is refused with 403, and neither the cursor nor the quota moves.
   */
  lemma OwnKeyRefused(question: string, answer: string, apiKey: string, cfg: Settings, hour: int,
                      cursor: nat, st: LimiterState, model: (string, string) -> Option<string>)
    requires question != "" && answer != ""
    requires apiKey != cfg.secretPassword && apiKey != cfg.demoPassword && |apiKey| > ShortKeyLength
    ensures SummarizeRoute(question, answer, apiKey, cfg, hour, cursor, st, model) ==
      (Refused(403, NotPasswordMessage), cursor, st)
  {
    ClassifyOrder(apiKey, cfg.secretPassword, cfg.demoPassword);
  }

  /**
   * A summary is only ever produced for a password holder, and always from
   * the truncated texts.
   */
  lemma SummaryOnlyForPasswords(question: string, answer: string, apiKey: string, cfg: Settings, hour: int,
                                cursor: nat, st: LimiterState, model: (string, string) -> Option<string>)
    ensures var r := SummarizeRoute(question, answer, apiKey, cfg, hour, cursor, st, model).0;
      r.Summary? ==>
        && apiKey != ""
        && MayAskSummary(apiKey, cfg)
        && model(Truncate(question), Truncate(answer)).Some?
        && r.text == Trim(model(Truncate(question), Truncate(answer)).value)
  {
  }
}
