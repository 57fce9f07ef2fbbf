/**
 * The `/search` route: a planning call to the lite model returns free text;
 * the object in it (newlines removed, then the greedy `/({.*})/` match, from
 * the first `{` to the last `}` on that line) is parsed as the search plan;
 * one web lookup per planned query is made with a randomly drawn lookup key;
 * the failed lookups are dropped and the rest returned in query order.
 * JSON parsing and the lookups themselves are supplied from outside.
 */
module Search {
  import opened Wrappers
  import opened Strings
  import opened Config
  import opened KeySelector
  import opened DemoLimit
  import opened CredentialGate
  import opened Relay
  import opened LiteModel

  const MissingQueryMessage := "Missing query parameter"

  /** Quota charged per search call by the demo password. */
  const SearchCharge: real := 0.1

  /** A character the regular-expression `.` does not match. */
  predicate IsLineTerminator(c: char)
  {
    c == '\n' || c == '\r' || c as int == 0x2028 || c as int == 0x2029
  }

  /** `{` at `i` and `}` at `j`, with no line terminator in between: `/{.*}/` can match `s[i..j + 1]`. */
  predicate Spans(s: string, i: nat, j: nat)
  {
    i < j < |s| && s[i] == '{' && s[j] == '}' && forall k :: i < k < j ==> !IsLineTerminator(s[k])
  }

  /** The first line terminator at or after `i`, or the end. */
  function LineEnd(s: string, i: nat): (e: nat)
    requires i <= |s|
    ensures i <= e <= |s|
    ensures forall k :: i <= k < e ==> !IsLineTerminator(s[k])
    ensures e < |s| ==> IsLineTerminator(s[e])
    decreases |s| - i
  {
    if i == |s| || IsLineTerminator(s[i]) then i else LineEnd(s, i + 1)
  }

  /** The last `}` in `s[lo..hi]`. */
  function LastClose(s: string, lo: nat, hi: nat): (r: Option<nat>)
    requires lo <= hi <= |s|
    ensures r.Some? ==> lo <= r.value < hi && s[r.value] == '}' && forall k :: r.value < k < hi ==> s[k] != '}'
    ensures r.None? ==> forall k :: lo <= k < hi ==> s[k] != '}'
    decreases hi - lo
  {
    if hi == lo then None else if s[hi - 1] == '}' then Some(hi - 1) else LastClose(s, lo, hi - 1)
  }

  /** The end of the greedy match starting at `i`, if one starts there. */
  function MatchAt(s: string, i: nat): (r: Option<nat>)
    requires i < |s|
    ensures r.Some? ==> Spans(s, i, r.value) && forall j :: r.value < j < |s| ==> !Spans(s, i, j)
    ensures r.None? ==> forall j :: i < j < |s| ==> !Spans(s, i, j)
  {
    if s[i] != '{' then None
    else
      var e := LineEnd(s, i + 1);
      assert forall j :: i < j < |s| && Spans(s, i, j) ==> j < e by {
        forall j | i < j < |s| && Spans(s, i, j) ensures j < e {
          assert e < |s| ==> IsLineTerminator(s[e]);
        }
      }
      LastClose(s, i + 1, e)
  }

  /** The leftmost match, tried from position `from` on: its start and the index of its closing `}`. */
  function BraceMatch(s: string, from: nat): (r: Option<(nat, nat)>)
    ensures r.Some? ==> from <= r.value.0 < r.value.1 < |s| && Spans(s, r.value.0, r.value.1)
    ensures r.Some? ==> forall i: nat, j: nat :: from <= i < r.value.0 && j < |s| ==> !Spans(s, i, j)
    ensures r.Some? ==> forall j :: r.value.1 < j < |s| ==> !Spans(s, r.value.0, j)
    ensures r.None? ==> forall i: nat, j: nat :: from <= i && j < |s| ==> !Spans(s, i, j)
    decreases |s| - from
  {
    if from >= |s| then None
    else
      match MatchAt(s, from)
      case Some(j) => Some((from, j))
      case None => BraceMatch(s, from + 1)
  }

  /**
   * On one line, the match runs from the first `{` to the last `}`: with
   * several objects in the text it spans all of them, not the first one.
   */
  lemma GreedyFirstToLast(s: string, i: nat, j: nat)
    requires forall k :: 0 <= k < |s| ==> !IsLineTerminator(s[k])
    requires i < j < |s| && s[i] == '{' && s[j] == '}'
    requires forall k :: 0 <= k < i ==> s[k] != '{'
    requires forall k :: j < k < |s| ==> s[k] != '}'
    ensures BraceMatch(s, 0) == Some((i, j))
  {
    assert Spans(s, i, j);
    var r := BraceMatch(s, 0);
    assert r.Some?;
    var (a, b) := r.value;
    assert Spans(s, a, b);
    assert a == i;
    assert b == j;
  }

  /** The text from `s[i]` to `s[j]` inclusive, trimmed. */
  function TrimmedSpan(s: string, i: nat, j: nat): string
    requires i <= j < |s|
  {
    Trim(s[i..j + 1])
  }

  /** The text handed to the parser: the trimmed match, or the reply unchanged when nothing matched. */
  function PlanText(content: string): (t: string)
    ensures var s := RemoveAll(content, '\n'); var m := BraceMatch(s, 0);
      && (m.Some? ==> t == TrimmedSpan(s, m.value.0, m.value.1))
      && (m.None? ==> t == content)
  {
    var s := RemoveAll(content, '\n');
    var m := BraceMatch(s, 0);
    if m.Some? then TrimmedSpan(s, m.value.0, m.value.1) else content
  }

  /** A parsed plan: a falsy JSON value, or a truthy one with its `num_results` and `search_queries`. */
  datatype PlanJson =
    | Falsy
    | Truthy(numResults: Option<int>, queries: Option<seq<string>>)

  /** What the plan asks for. */
  datatype Plan = NoSearch | Malformed | Queries(queries: seq<string>, maxResults: Option<int>)

  /**
   * The plan for a planner reply, `parse` standing for `JSON.parse` (`None`
   * when it throws): no search when parsing fails, the value is falsy or
   * `num_results` is 0; a plan without `search_queries` is malformed.
   */
  function PlanOf(content: string, parse: string -> Option<PlanJson>): (p: Plan)
    ensures parse(PlanText(content)).None? ==> p == NoSearch
    ensures parse(PlanText(content)) == Some(Falsy) ==> p == NoSearch
    ensures forall qs :: parse(PlanText(content)) == Some(Truthy(Some(0), qs)) ==> p == NoSearch
    ensures p == Malformed <==>
      exists n :: n != Some(0) && parse(PlanText(content)) == Some(Truthy(n, None))
    ensures forall n, qs :: n != Some(0) && parse(PlanText(content)) == Some(Truthy(n, Some(qs))) ==>
      p == Queries(qs, n)
  {
    match parse(PlanText(content))
    case None => NoSearch
    case Some(Falsy) => NoSearch
    case Some(Truthy(n, qs)) =>
      if n == Some(0) then NoSearch
      else if qs.None? then Malformed
      else Queries(qs.value, n)
  }

  /** One web lookup: the query, the lookup key drawn for it, and the result count asked for. */
  datatype Lookup = Lookup(query: string, key: string, maxResults: Option<int>)

  /**
   * The lookups for the planned queries, in order, each with a key drawn by
   * `roll(i)`; an empty lookup-key pool is an error as soon as one lookup is made.
   */
  function Lookups(queries: seq<string>, pool: seq<string>, roll: nat -> real, maxResults: Option<int>)
    : (r: Option<seq<Lookup>>)
    requires forall i: nat :: 0.0 <= roll(i) < 1.0
    ensures r.None? <==> pool == [] && queries != []
    ensures r.Some? ==> |r.value| == |queries|
    ensures r.Some? ==> forall i :: 0 <= i < |queries| ==>
      r.value[i].query == queries[i] && r.value[i].key in pool && r.value[i].maxResults == maxResults
  {
    if queries == [] then Some([])
    else if pool == [] then None
    else
      var ls := seq(|queries|, i requires 0 <= i < |queries| =>
        Lookup(queries[i], RandomKey(pool, roll(i)).key, maxResults));
      assert forall i :: 0 <= i < |queries| ==> ls[i].key == RandomKey(pool, roll(i)).key;
      assert forall i :: 0 <= i < |queries| ==> RandomKey(pool, roll(i)).key in pool;
      Some(ls)
  }

  /** The successful lookup results (JSON texts), in order (`results.filter(r => r !== null)`). */
  function Aggregate(answers: seq<Option<string>>): (r: seq<string>)
    ensures |r| <= |answers|
    ensures forall x :: x in r <==> Some(x) in answers
  {
    if answers == [] then []
    else
      var rest := Aggregate(answers[1..]);
      assert forall x :: Some(x) in answers <==> Some(x) == answers[0] || Some(x) in answers[1..];
      if answers[0].Some? then [answers[0].value] + rest else rest
  }

  /** The number of lookups that failed. */
  function Failures(answers: seq<Option<string>>): nat
  {
    if answers == [] then 0 else (if answers[0].None? then 1 else 0) + Failures(answers[1..])
  }

  /** Exactly the failed lookups are dropped. */
  lemma {:induction false} AggregateCount(answers: seq<Option<string>>)
    ensures |Aggregate(answers)| + Failures(answers) == |answers|
  {
    if answers != [] {
      AggregateCount(answers[1..]);
    }
  }

  /** Results keep the order of their queries. */
  lemma {:induction false} AggregateAppend(a: seq<Option<string>>, b: seq<Option<string>>)
    ensures Aggregate(a + b) == Aggregate(a) + Aggregate(b)
  {
    if a == [] {
      assert a + b == b;
    } else {
      assert (a + b)[0] == a[0];
      assert (a + b)[1..] == a[1..] + b;
      AggregateAppend(a[1..], b);
    }
  }

  /** Two failures out of three lookups leave one result, the successful one. */
  lemma TwoOfThreeFail(x: string, k: nat)
    requires k < 3
    ensures var answers := seq(3, i requires 0 <= i < 3 => if i == k then Some(x) else None);
      Aggregate(answers) == [x]
  {
    var answers := seq(3, i requires 0 <= i < 3 => if i == k then Some(x) else None);
    assert answers[1..][1..][1..] == [];
    assert Aggregate(answers[1..][1..]) == Aggregate(answers[1..][1..][1..]) + (if k == 2 then [x] else []);
  }

  /** How the route answers. */
  datatype SearchReply =
    | Results(results: seq<string>)
    | Refused(status: int, message: string)
    | Crash

  /**
   * The planning call's outcome: the call failed or timed out, its body is
   * not JSON, or the reply's `choices[0].message.content` (`''` when absent
   * or empty).
   */
  datatype PlannerReply = PlannerFailed | NotJson | Content(text: string)

  /** The planning call: where it goes, for which model, with which pool key. */
  datatype PlannerCall = PlannerCall(url: string, model: Option<string>, key: string)

  /** The planning call the route makes with the key `key`. */
  function PlannerRequest(cfg: Settings, key: string): (c: PlannerCall)
    ensures c.model == LiteChoice(cfg.modelIds) && c.key == key
  {
    PlannerCall(ReplaceApiUrl(cfg.apiBase + "/v1/chat/completions"), LiteChoice(cfg.modelIds), key)
  }

  /**
   * Everything after the planning call: the plan, the lookups, and the
   * aggregated answer. `lookup` stands for one lookup call (`None` when it
   * fails or is refused).
   */
  function AfterPlanning(content: string, parse: string -> Option<PlanJson>, tavilyKeys: seq<string>,
                         roll: nat -> real, lookup: Lookup -> Option<string>): (r: SearchReply)
    requires forall i: nat :: 0.0 <= roll(i) < 1.0
    ensures PlanOf(content, parse).NoSearch? ==> r == Results([])
    ensures PlanOf(content, parse).Malformed? ==> r == Crash
    ensures PlanOf(content, parse).Queries? && PlanOf(content, parse).queries == [] ==> r == Results([])
    ensures PlanOf(content, parse).Queries? && PlanOf(content, parse).queries != [] && tavilyKeys == [] ==>
      r == Crash
    ensures var p := PlanOf(content, parse);
      p.Queries? && tavilyKeys != [] ==>
        var ls := Lookups(p.queries, tavilyKeys, roll, p.maxResults).value;
        r == Results(Aggregate(seq(|ls|, i requires 0 <= i < |ls| => lookup(ls[i]))))
  {
    match PlanOf(content, parse)
    case NoSearch => Results([])
    case Malformed => Crash
    case Queries(qs, n) =>
      match Lookups(qs, tavilyKeys, roll, n)
      case None => Crash
      case Some(ls) => Results(Aggregate(seq(|ls|, i requires 0 <= i < |ls| => lookup(ls[i]))))
  }

  /**
   * The route as a function of the selector cursor and limiter state before
   * it. `planner` gives the outcome of a planning call: a failed call
   * answers `[]`, a body that is not JSON throws.
   */
  function SearchRoute(query: string, apiKey: string, cfg: Settings, hour: int, cursor: nat, st: LimiterState,
                       planner: PlannerCall -> PlannerReply, parse: string -> Option<PlanJson>,
                       roll: nat -> real, lookup: Lookup -> Option<string>)
    : (SearchReply, nat, LimiterState)
    requires forall i: nat :: 0.0 <= roll(i) < 1.0
  {
    if query == "" then (Refused(400, MissingQueryMessage), cursor, st)
    else
      var (g, c1, st1) := Gate(apiKey, SearchCharge, hour, cfg, cursor, st);
      match g
      case Rejected(status, message) => (Refused(status, message), c1, st1)
      case PoolEmpty => (Crash, c1, st1)
      case Granted(_) =>
        var (p, c2) := RoundRobinStep(cfg.apiKeyList, c1);
        (PlanningReply(p, cfg, planner, parse, roll, lookup), c2, st1)
  }

  /**
   * The answer once the planning key `p` is drawn: `[]` when the pool is
   * empty (the throw is caught), otherwise the planning call made with it.
   */
  function PlanningReply(p: Pick, cfg: Settings, planner: PlannerCall -> PlannerReply, parse: string -> Option<PlanJson>,
                         roll: nat -> real, lookup: Lookup -> Option<string>): SearchReply
    requires forall i: nat :: 0.0 <= roll(i) < 1.0
  {
    if p.EmptyPool? then Results([])
    else Planned(planner(PlannerRequest(cfg, p.key)), parse, cfg.tavilyKeyList, roll, lookup)
  }

  /** The answer once the planning call returned: `[]` when it failed, a throw when its body is not JSON. */
  function Planned(reply: PlannerReply, parse: string -> Option<PlanJson>, tavilyKeys: seq<string>,
                   roll: nat -> real, lookup: Lookup -> Option<string>): SearchReply
    requires forall i: nat :: 0.0 <= roll(i) < 1.0
  {
    match reply
    case PlannerFailed => Results([])
    case NotJson => Crash
    case Content(text) => AfterPlanning(text, parse, tavilyKeys, roll, lookup)
  }

  /**
   * `/search` with the shared selector and limiter: the gate first (demo
   * calls charged 0.1), then one more round-robin key for the planning call.
   */
  method HandleSearch(query: string, apiKey: string, cfg: Settings, nowMs: int,
                      rotator: Rotator, limiter: DemoLimiter,
                      planner: PlannerCall -> PlannerReply, parse: string -> Option<PlanJson>,
                      roll: nat -> real, lookup: Lookup -> Option<string>)
    returns (r: SearchReply)
    requires forall i: nat :: 0.0 <= roll(i) < 1.0
    modifies rotator, limiter
    ensures (r, rotator.cursor, limiter.State()) ==
      SearchRoute(query, apiKey, cfg, HourOf(nowMs), old(rotator.cursor), old(limiter.State()),
                  planner, parse, roll, lookup)
  {
    if query == "" {
      return Refused(400, MissingQueryMessage);
    }
    var g := Validate(apiKey, SearchCharge, nowMs, cfg, rotator, limiter);
    match g
    case Rejected(status, message) =>
      r := Refused(status, message);
    case PoolEmpty =>
      r := Crash;
    case Granted(_) =>
      var p := rotator.Next(cfg.apiKeyList);
      if p.EmptyPool? {
        r := Results([]);
      } else {
        match planner(PlannerRequest(cfg, p.key))
        case PlannerFailed =>
          r := Results([]);
        case NotJson =>
          r := Crash;
        case Content(text) =>
          r := AfterPlanning(text, parse, cfg.tavilyKeyList, roll, lookup);
      }
  }

  /** An empty query is refused before the gate: nothing is charged and no key is used. */
  lemma SearchNeedsQuery(apiKey: string, cfg: Settings, hour: int, cursor: nat, st: LimiterState,
                         planner: PlannerCall -> PlannerReply, parse: string -> Option<PlanJson>,
                         roll: nat -> real, lookup: Lookup -> Option<string>)
    requires forall i: nat :: 0.0 <= roll(i) < 1.0
    ensures SearchRoute("", apiKey, cfg, hour, cursor, st, planner, parse, roll, lookup)
      == (Refused(400, MissingQueryMessage), cursor, st)
  {
  }

  /**
   * The shared password takes two pool keys per search: one in the gate
   * (unused by this route) and one for the planning call.
   */
  lemma SharedSearchTakesTwoKeys(query: string, cfg: Settings, hour: int, cursor: nat, st: LimiterState,
                                 planner: PlannerCall -> PlannerReply, parse: string -> Option<PlanJson>,
                                 roll: nat -> real, lookup: Lookup -> Option<string>)
    requires forall i: nat :: 0.0 <= roll(i) < 1.0
    requires query != "" && cfg.secretPassword != "" && cfg.apiKeyList != []
    ensures SearchRoute(query, cfg.secretPassword, cfg, hour, cursor, st, planner, parse, roll, lookup).1
      == (cursor + 2) % |cfg.apiKeyList|
  {
    var n := |cfg.apiKeyList|;
    SharedGateStep(cfg, hour, cursor, st);
    calc {
      SearchRoute(query, cfg.secretPassword, cfg, hour, cursor, st, planner, parse, roll, lookup).1;
      { GrantedSearchCursor(query, cfg.secretPassword, cfg, hour, cursor, st, planner, parse, roll, lookup); }
      RoundRobinStep(cfg.apiKeyList, Gate(cfg.secretPassword, SearchCharge, hour, cfg, cursor, st).1).1;
      RoundRobinStep(cfg.apiKeyList, (cursor + 1) % n).1;
      { ModShift(cursor, 2, n); }
      (cursor + 2) % n;
    }
  }

  /** The shared password, charged as a search, is granted and advances the cursor by one. */
  lemma SharedGateStep(cfg: Settings, hour: int, cursor: nat, st: LimiterState)
    requires cfg.secretPassword != "" && cfg.apiKeyList != []
    ensures var gate := Gate(cfg.secretPassword, SearchCharge, hour, cfg, cursor, st);
      gate.0.Granted? && gate.1 == (cursor + 1) % |cfg.apiKeyList|
  {
    GateShared(cfg.secretPassword, SearchCharge, hour, cfg, cursor, st);
    GateNeverLeaksPassword(cfg.secretPassword, SearchCharge, hour, cfg, cursor, st);
  }

  /** Once the gate grants, the route draws one more round-robin key after the gate's. */
  lemma GrantedSearchCursor(query: string, apiKey: string, cfg: Settings, hour: int, cursor: nat, st: LimiterState,
                            planner: PlannerCall -> PlannerReply, parse: string -> Option<PlanJson>,
                            roll: nat -> real, lookup: Lookup -> Option<string>)
    requires forall i: nat :: 0.0 <= roll(i) < 1.0
    requires query != "" && Gate(apiKey, SearchCharge, hour, cfg, cursor, st).0.Granted?
    ensures SearchRoute(query, apiKey, cfg, hour, cursor, st, planner, parse, roll, lookup).1
      == RoundRobinStep(cfg.apiKeyList, Gate(apiKey, SearchCharge, hour, cfg, cursor, st).1).1
  {
  }

  /**
   * A caller's own key (long enough to pass the gate, matching neither
   * password) is searched for on the operator's keys: nothing is charged,
   * and the planning call goes out with the pool key under the cursor and
   * the lite model, where `/summarize` refuses the same key.
   */
  lemma OwnKeySearchesOnPool(query: string, apiKey: string, cfg: Settings, hour: int, cursor: nat, st: LimiterState,
                             planner: PlannerCall -> PlannerReply, parse: string -> Option<PlanJson>,
                             roll: nat -> real, lookup: Lookup -> Option<string>)
    requires forall i: nat :: 0.0 <= roll(i) < 1.0
    requires query != "" && cfg.apiKeyList != []
    requires apiKey != cfg.secretPassword && apiKey != cfg.demoPassword && |apiKey| > ShortKeyLength
    ensures var call := PlannerRequest(cfg, cfg.apiKeyList[cursor % |cfg.apiKeyList|]);
      && call.model == LiteChoice(cfg.modelIds)
      && SearchRoute(query, apiKey, cfg, hour, cursor, st, planner, parse, roll, lookup) ==
        (Planned(planner(call), parse, cfg.tavilyKeyList, roll, lookup), (cursor + 1) % |cfg.apiKeyList|, st)
  {
    GateOther(apiKey, SearchCharge, hour, cfg, cursor, st);
  }

  /**
   * Whatever the plan, a granted search answers with the successful lookups
   * of the planned queries in query order, or `[]` when nothing is planned.
   */
  lemma SearchResultsAreLookups(content: string, parse: string -> Option<PlanJson>, tavilyKeys: seq<string>,
                                roll: nat -> real, lookup: Lookup -> Option<string>)
    requires forall i: nat :: 0.0 <= roll(i) < 1.0
    requires PlanOf(content, parse).Queries? && tavilyKeys != []
    ensures var qs := PlanOf(content, parse).queries;
      var r := AfterPlanning(content, parse, tavilyKeys, roll, lookup);
      && r.Results?
      && |r.results| <= |qs|
      && (forall x :: x in r.results ==> exists i :: 0 <= i < |qs| && lookup(Lookups(qs, tavilyKeys, roll, PlanOf(content, parse).maxResults).value[i]) == Some(x))
    ensures var p := PlanOf(content, parse);
      var ls := Lookups(p.queries, tavilyKeys, roll, p.maxResults).value;
      var r := AfterPlanning(content, parse, tavilyKeys, roll, lookup);
      forall i :: 0 <= i < |ls| && lookup(ls[i]).Some? ==> lookup(ls[i]).value in r.results
  {
    var qs := PlanOf(content, parse).queries;
    var ls := Lookups(qs, tavilyKeys, roll, PlanOf(content, parse).maxResults).value;
    var answers := seq(|ls|, i requires 0 <= i < |ls| => lookup(ls[i]));
    forall i | 0 <= i < |ls| && lookup(ls[i]).Some?
      ensures lookup(ls[i]).value in Aggregate(answers)
    {
      assert answers[i] == Some(lookup(ls[i]).value);
    }
    forall x | x in Aggregate(answers)
      ensures exists i :: 0 <= i < |qs| && lookup(ls[i]) == Some(x)
    {
      var i :| 0 <= i < |answers| && answers[i] == Some(x);
    }
  }
}
