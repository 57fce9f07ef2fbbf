/**
 * Per-request configuration of the gateway: the environment values read with
 * defaults, the credential-pool parsing (split on commas, trim, drop empty),
 * the single trailing-slash strip of the upstream base URL, the
 * `DEMO_MAX_TIMES_PER_HOUR` number (JavaScript `parseInt(...) || 15`), and the
 * title keyword chain that picks the chat type.
 */
module Config {
  import opened Wrappers
  import opened Strings

  const ApiKeysDefault := "sk-xxxxx,sk-yyyyy"
  const ModelIdsDefault := "gpt-5-pro,gpt-5,gpt-5-mini"
  const ApiBaseDefault := "https://api.openai.com"
  const DemoMaxTimesDefault := 15
  const TitleDefault := "OpenAI Chat"

  /** A pool entry as the parser leaves it: non-empty and without surrounding white space. */
  predicate Clean(key: string)
  {
    key != [] && Trim(key) == key
  }

  /** `x` is the image under `f` of one of the pieces. */
  ghost predicate ImageOfSome(f: string -> string, x: string, pieces: seq<string>)
  {
    exists i :: 0 <= i < |pieces| && x == f(pieces[i])
  }

  /** The image of the first piece, and any image of a later piece, is an image of some piece. */
  lemma ImageOfSomeCons(f: string -> string, pieces: seq<string>, rest: seq<string>)
    requires pieces != [] && forall x :: x in rest ==> ImageOfSome(f, x, pieces[1..])
    ensures ImageOfSome(f, f(pieces[0]), pieces)
    ensures forall x :: x in rest ==> ImageOfSome(f, x, pieces)
  {
    assert f(pieces[0]) == f(pieces[0]);
    forall x | x in rest
      ensures ImageOfSome(f, x, pieces)
    {
      var i :| 0 <= i < |pieces[1..]| && x == f(pieces[1..][i]);
      assert x == f(pieces[i + 1]);
    }
  }

  /** The trimmed, non-empty entries of a list of raw pieces, in order. */
  function NonEmptyTrimmed(pieces: seq<string>): (keys: seq<string>)
    ensures |keys| <= |pieces|
    ensures forall k :: 0 <= k < |keys| ==> Clean(keys[k])
  {
    if pieces == [] then []
    else
      var t := Trim(pieces[0]);
      var rest := NonEmptyTrimmed(pieces[1..]);
      TrimIdempotent(pieces[0]);
      assert t != [] ==> Clean(t);
      if t == [] then rest else [t] + rest
  }

  /** `raw.split(',').map(i => i.trim()).filter(i => i)`: the credential pool. */
  function ParseKeyList(raw: string): (keys: seq<string>)
    ensures forall k :: 0 <= k < |keys| ==> Clean(keys[k]) && ',' !in keys[k]
    ensures forall x :: x in keys ==> ImageOfSome(Trim, x, Split(raw, ','))
  {
    var pieces := Split(raw, ',');
    var keys := NonEmptyTrimmed(pieces);
    NoCommaSurvives(pieces);
    NonEmptyTrimmedSound(pieces);
    keys
  }

  /** Entries of the parsed pool come from comma-free pieces, so contain no comma. */
  lemma {:induction false} NoCommaSurvives(pieces: seq<string>)
    requires forall k :: 0 <= k < |pieces| ==> ',' !in pieces[k]
    ensures forall k :: 0 <= k < |NonEmptyTrimmed(pieces)| ==> ',' !in NonEmptyTrimmed(pieces)[k]
  {
    if pieces != [] {
      NoCommaSurvives(pieces[1..]);
      var t := Trim(pieces[0]);
      TrimIsSlice(pieces[0]);
    }
  }

  /** A trimmed string is a slice of the original, so adds no character. */
  lemma TrimIsSlice(s: string)
    ensures forall c :: c in Trim(s) ==> c in s
  {
    var a := TrimStart(s);
    var r := TrimEnd(a);
    var from := |s| - |a|;
    assert r == s[from..from + |r|] by {
      assert a == s[from..] && r == a[..|r|];
    }
    SliceMembers(s, from, from + |r|);
  }

  /** A slice holds only characters of the text it is cut from. */
  lemma SliceMembers(s: string, lo: int, hi: int)
    requires 0 <= lo <= hi <= |s|
    ensures forall c :: c in s[lo..hi] ==> c in s
  {
    forall c | c in s[lo..hi] ensures c in s {
      var i :| 0 <= i < hi - lo && s[lo..hi][i] == c;
      assert s[lo + i] == c;
    }
  }

  /** A pool whose entries are already clean is fixed by the trim-and-drop step. */
  lemma {:induction false} NonEmptyTrimmedClean(keys: seq<string>)
    requires forall k :: 0 <= k < |keys| ==> Clean(keys[k])
    ensures NonEmptyTrimmed(keys) == keys
  {
    if keys != [] {
      NonEmptyTrimmedClean(keys[1..]);
      assert [keys[0]] + keys[1..] == keys;
    }
  }

  /**
   * Round trip: writing a pool of clean keys (non-empty, no surrounding white
   * space, no comma) as a comma-separated value and parsing it gives the pool back.
   */
  lemma ParseJoinedKeys(keys: seq<string>)
    requires |keys| >= 1
    requires forall k :: 0 <= k < |keys| ==> Clean(keys[k]) && ',' !in keys[k]
    ensures ParseKeyList(Join(keys, ',')) == keys
  {
    SplitJoin(keys, ',');
    NonEmptyTrimmedClean(keys);
  }

  /** No non-blank piece is lost: its trim is among the keys. */
  lemma {:induction false} NonEmptyTrimmedComplete(pieces: seq<string>, i: int)
    requires 0 <= i < |pieces| && Trim(pieces[i]) != ""
    ensures Trim(pieces[i]) in NonEmptyTrimmed(pieces)
  {
    var rest := NonEmptyTrimmed(pieces[1..]);
    if i == 0 {
      assert NonEmptyTrimmed(pieces) == [Trim(pieces[0])] + rest;
    } else {
      assert pieces[1..][i - 1] == pieces[i];
      NonEmptyTrimmedComplete(pieces[1..], i - 1);
      NonEmptyTrimmedTail(pieces);
    }
  }

  /** The keys of the later pieces are a suffix of the keys of all of them. */
  lemma NonEmptyTrimmedTail(pieces: seq<string>)
    requires pieces != []
    ensures forall x :: x in NonEmptyTrimmed(pieces[1..]) ==> x in NonEmptyTrimmed(pieces)
  {
  }

  /** A blank piece contributes nothing. */
  lemma NonEmptyTrimmedSkipsBlank(p: string, ps: seq<string>)
    requires Trim(p) == ""
    ensures NonEmptyTrimmed([p] + ps) == NonEmptyTrimmed(ps)
  {
    assert ([p] + ps)[1..] == ps;
  }

  /** The non-empty images of the pieces under `f`, in order. */
  function NonEmptyImages(f: string -> string, pieces: seq<string>): seq<string>
  {
    if pieces == [] then []
    else
      var t := f(pieces[0]);
      var rest := NonEmptyImages(f, pieces[1..]);
      if t == [] then rest else [t] + rest
  }

  /** Every non-empty image comes from some piece. */
  lemma {:induction false} NonEmptyImagesSound(f: string -> string, pieces: seq<string>)
    ensures forall x :: x in NonEmptyImages(f, pieces) ==> ImageOfSome(f, x, pieces)
  {
    if pieces != [] {
      NonEmptyImagesSound(f, pieces[1..]);
      ImageOfSomeCons(f, pieces, NonEmptyImages(f, pieces[1..]));
    }
  }

  /** No key is invented: every key is the trim of some piece. */
  lemma NonEmptyTrimmedSound(pieces: seq<string>)
    ensures forall x :: x in NonEmptyTrimmed(pieces) ==> ImageOfSome(Trim, x, pieces)
  {
    NonEmptyTrimmedIsImages(pieces);
    NonEmptyImagesSound(Trim, pieces);
  }

  /** The pool parser keeps the non-empty images under `trim`. */
  lemma {:induction false} NonEmptyTrimmedIsImages(pieces: seq<string>)
    ensures NonEmptyTrimmed(pieces) == NonEmptyImages(Trim, pieces)
  {
    if pieces != [] {
      NonEmptyTrimmedIsImages(pieces[1..]);
    }
  }

  /** Pieces whose images are all non-empty give exactly those images, in order. */
  lemma {:induction false} NonEmptyImagesAll(f: string -> string, pieces: seq<string>, keys: seq<string>)
    requires |pieces| == |keys|
    requires forall k :: 0 <= k < |pieces| ==> f(pieces[k]) == keys[k] && keys[k] != ""
    ensures NonEmptyImages(f, pieces) == keys
  {
    if pieces != [] {
      var ps, ks := pieces[1..], keys[1..];
      assert forall k :: 0 <= k < |ps| ==> ps[k] == pieces[k + 1] && ks[k] == keys[k + 1];
      NonEmptyImagesAll(f, ps, ks);
      assert keys == [keys[0]] + ks;
    }
  }

  /** Pieces whose trims are all non-empty give exactly their trims, in order. */
  lemma NonEmptyTrimmedPadded(pieces: seq<string>, keys: seq<string>)
    requires |pieces| == |keys|
    requires forall k :: 0 <= k < |pieces| ==> Trim(pieces[k]) == keys[k] && keys[k] != ""
    ensures NonEmptyTrimmed(pieces) == keys
  {
    NonEmptyTrimmedIsImages(pieces);
    NonEmptyImagesAll(Trim, pieces, keys);
  }

  /** A comma-separated list parses to the non-blank trims of its pieces, in order. */
  lemma ParseJoinedPieces(pieces: seq<string>)
    requires |pieces| >= 1
    requires forall k :: 0 <= k < |pieces| ==> ',' !in pieces[k]
    ensures ParseKeyList(Join(pieces, ',')) == NonEmptyTrimmed(pieces)
  {
    SplitJoin(pieces, ',');
  }

  /** Each key with white space written before and after it. */
  function Padded(before: seq<string>, keys: seq<string>, after: seq<string>): (pieces: seq<string>)
    requires |before| == |keys| == |after|
    ensures |pieces| == |keys|
  {
    seq(|keys|, i requires 0 <= i < |keys| => before[i] + keys[i] + after[i])
  }

  /**
   * A pool written with white space around its keys (`sk-a, sk-b`) parses to
   * the keys themselves, in order.
   */
  lemma ParseSpacedKeys(before: seq<string>, keys: seq<string>, after: seq<string>)
    requires |keys| >= 1 && |before| == |keys| == |after|
    requires forall k :: 0 <= k < |keys| ==> Clean(keys[k]) && ',' !in keys[k]
    requires forall k :: 0 <= k < |keys| ==> AllSpace(before[k]) && AllSpace(after[k])
    ensures ParseKeyList(Join(Padded(before, keys, after), ',')) == keys
  {
    var pieces := Padded(before, keys, after);
    forall k | 0 <= k < |keys|
      ensures ',' !in pieces[k]
      ensures Trim(pieces[k]) == keys[k] && keys[k] != ""
    {
      TrimEnds(keys[k]);
      TrimPadded(before[k], keys[k], after[k]);
      assert ',' !in before[k] && ',' !in after[k];
    }
    ParseJoinedPieces(pieces);
    NonEmptyTrimmedPadded(pieces, keys);
  }

  /** An unset credential pool parses to the empty pool. */
  lemma ParseEmptyKeyList()
    ensures ParseKeyList("") == []
  {
    var pieces := Split("", ',');
    assert pieces == [""];
    assert pieces[1..] == [];
    assert Trim(pieces[0]) == "";
    assert NonEmptyTrimmed(pieces) == NonEmptyTrimmed(pieces[1..]);
  }

  /** `s.replace(/\/$/, '')`: removes one trailing slash, if there is one. */
  function StripTrailingSlash(s: string): (r: string)
    ensures EndsWith(s, "/") ==> r + "/" == s
    ensures !EndsWith(s, "/") ==> r == s
  {
    if |s| > 0 && s[|s| - 1] == '/' then s[..|s| - 1] else s
  }

  /** Only one slash goes: a base written with a slash loses exactly that slash. */
  lemma StripOneSlash(base: string)
    ensures StripTrailingSlash(base + "/") == base
  {
    assert EndsWith(base + "/", "/");
    assert (base + "/")[..|base|] == base;
  }

  /** `getEnv(key, env) || fallback`: an unset or empty variable takes the fallback. */
  function EnvOr(env: map<string, string>, key: string, fallback: string): (v: string)
    ensures key in env && env[key] != "" ==> v == env[key]
    ensures !(key in env && env[key] != "") ==> v == fallback
  {
    if key in env && env[key] != "" then env[key] else fallback
  }

  /** The value of a hexadecimal digit, or `None` for any other character. */
  function DigitIn(c: char, base: nat): Option<nat>
    requires base == 10 || base == 16
  {
    if '0' <= c <= '9' then Some(c as int - '0' as int)
    else if base == 16 && 'a' <= c <= 'f' then Some(c as int - 'a' as int + 10)
    else if base == 16 && 'A' <= c <= 'F' then Some(c as int - 'A' as int + 10)
    else None
  }

  /** The number of leading characters of `s` that are digits in `base`. */
  function DigitRun(s: string, base: nat): (n: nat)
    requires base == 10 || base == 16
    ensures n <= |s|
    ensures forall i :: 0 <= i < n ==> DigitIn(s[i], base).Some?
    ensures n < |s| ==> DigitIn(s[n], base).None?
  {
    if s == [] || DigitIn(s[0], base).None? then 0 else 1 + DigitRun(s[1..], base)
  }

  /** The value of a string of digits in `base`, most significant first. */
  function DigitsValue(s: string, base: nat): nat
    requires base == 10 || base == 16
    requires forall i :: 0 <= i < |s| ==> DigitIn(s[i], base).Some?
  {
    if s == [] then 0
    else base * DigitsValue(s[..|s| - 1], base) + DigitIn(s[|s| - 1], base).value
  }

  /** The optional sign in front of the digits: whether it is `-`, and what follows it. */
  function SplitSign(t: string): (bool, string)
  {
    if |t| > 0 && (t[0] == '-' || t[0] == '+') then (t[0] == '-', t[1..]) else (false, t)
  }

  /** The radix `parseInt` infers: 16 after a `0x`/`0X` prefix (dropped), 10 otherwise. */
  function SplitRadix(u: string): (r: (nat, string))
    ensures r.0 == 10 || r.0 == 16
  {
    if |u| >= 2 && u[0] == '0' && (u[1] == 'x' || u[1] == 'X') then (16, u[2..]) else (10, u)
  }

  /** The value of the longest leading run of digits, `None` if there is none. */
  function ReadDigits(digits: string, base: nat): Option<nat>
    requires base == 10 || base == 16
  {
    var n := DigitRun(digits, base);
    if n == 0 then None else Some(DigitsValue(digits[..n], base))
  }

  /**
   * `parseInt(s)` without a radix: leading white space skipped, an optional
   * sign, a `0x`/`0X` prefix switching to base 16, then the longest run of
   * digits; `None` stands for `NaN` (no digit at all).
   */
  function ParseIntJs(s: string): Option<int>
  {
    var (neg, u) := SplitSign(TrimStart(s));
    var (base, digits) := SplitRadix(u);
    match ReadDigits(digits, base)
    case None => None
    case Some(v) => Some(if neg then -(v as int) else v as int)
  }

  /** `parseInt(raw) || 15`: `NaN` and zero both fall back to the default. */
  function DemoMaxTimes(raw: string): (m: int)
    ensures m != 0
    ensures ParseIntJs(raw).Some? && ParseIntJs(raw).value != 0 ==> m == ParseIntJs(raw).value
    ensures ParseIntJs(raw).None? || ParseIntJs(raw) == Some(0) ==> m == DemoMaxTimesDefault
  {
    match ParseIntJs(raw)
    case None => DemoMaxTimesDefault
    case Some(v) => if v == 0 then DemoMaxTimesDefault else v
  }

  /** Decimal digits read the same through `DigitIn` in base 10 as through `DigitValue`. */
  lemma {:induction false} DecimalDigitsValue(s: string)
    requires forall i :: 0 <= i < |s| ==> '0' <= s[i] <= '9'
    ensures DigitRun(s, 10) == |s|
    ensures DigitsValue(s, 10) == DecimalValue(s)
  {
    if s != [] {
      DecimalDigitsValue(s[..|s| - 1]);
      DecimalDigitsValue(s[1..]);
    }
  }

  /** A plain non-empty string of decimal digits is read by `parseInt` as its decimal value. */
  lemma ParseIntDecimal(s: string)
    requires s != []
    requires forall i :: 0 <= i < |s| ==> '0' <= s[i] <= '9'
    ensures ParseIntJs(s) == Some(DecimalValue(s))
  {
    assert !IsJsSpace(s[0]);
    assert TrimStart(s) == s;
    assert SplitSign(s) == (false, s);
    assert SplitRadix(s) == (10, s);
    DecimalDigitsValue(s);
    assert s[..|s|] == s;
    assert ReadDigits(s, 10) == Some(DecimalValue(s));
  }

  /**
   * A quota written as a plain decimal number is taken as is, except that
   * zero (falsy in JavaScript) silently becomes the default of 15.
   */
  /** With the variable unset the quota is 15 calls an hour. */
  lemma DemoMaxTimesUnset()
    ensures DemoMaxTimes("") == DemoMaxTimesDefault
  {
  }

  lemma DemoMaxTimesDecimal(n: nat)
    ensures DemoMaxTimes(NatToDecimal(n)) == if n == 0 then DemoMaxTimesDefault else n
  {
    DecimalRoundTrip(n);
    ParseIntDecimal(NatToDecimal(n));
  }

  /** The chat flavour chosen from the page title; it drives the icon. */
  datatype ChatType = Bot | OpenAI | Gemini | Claude | Qwen | DeepSeek | Router

  /** The keyword chain in priority order (the keywords are lower case, so `/k/i` is containment in the lower-cased title). */
  const ChatKeywords: seq<(string, ChatType)> := [
    ("openai", OpenAI), ("gemini", Gemini), ("claude", Claude),
    ("qwen", Qwen), ("deepseek", DeepSeek), ("router", Router)
  ]

  /** The `if (/openai/i.test(TITLE)) ... else if ...` chain; `Bot` when no keyword occurs. */
  function ChatTypeOf(title: string): ChatType
  {
    FirstKeyword(Lower(title), ChatKeywords)
  }

  /** One link of the chain per keyword, tried in order. */
  function FirstKeyword(t: string, ks: seq<(string, ChatType)>): ChatType
  {
    if ks == [] then Bot
    else if Contains(t, ks[0].0) then ks[0].1
    else FirstKeyword(t, ks[1..])
  }

  /** The chat types a chain can yield are pairwise different and none is `Bot`. */
  predicate DistinctTypes(ks: seq<(string, ChatType)>)
  {
    && (forall i :: 0 <= i < |ks| ==> ks[i].1 != Bot)
    && (forall i, j :: 0 <= i < j < |ks| ==> ks[i].1 != ks[j].1)
  }

  /**
   * Over keywords with distinct types, the chain yields the type of the first
   * keyword found, and `Bot` exactly when none is found.
   */
  lemma {:induction false} FirstKeywordIsFirst(t: string, ks: seq<(string, ChatType)>)
    requires DistinctTypes(ks)
    ensures FirstKeyword(t, ks) == Bot <==> forall i :: 0 <= i < |ks| ==> !Contains(t, ks[i].0)
    ensures forall i :: 0 <= i < |ks| && FirstKeyword(t, ks) == ks[i].1 ==>
      Contains(t, ks[i].0) && forall j :: 0 <= j < i ==> !Contains(t, ks[j].0)
  {
    if ks != [] {
      var rest := ks[1..];
      assert forall i :: 1 <= i < |ks| ==> ks[i] == rest[i - 1];
      FirstKeywordIsFirst(t, rest);
      if !Contains(t, ks[0].0) {
        var r := FirstKeyword(t, rest);
        if r != Bot {
          var k :| 0 <= k < |rest| && Contains(t, rest[k].0);
          var m := FirstFound(t, rest, k);
          assert r == rest[m].1 == ks[m + 1].1;
        }
      }
    }
  }

  /** When some keyword is found, the chain yields the type of a found keyword at or before it. */
  lemma {:induction false} FirstFound(t: string, ks: seq<(string, ChatType)>, k: nat) returns (m: nat)
    requires k < |ks| && Contains(t, ks[k].0)
    ensures m <= k && FirstKeyword(t, ks) == ks[m].1
  {
    if Contains(t, ks[0].0) {
      m := 0;
    } else {
      var m' := FirstFound(t, ks[1..], k - 1);
      m := m' + 1;
    }
  }

  /**
   * The chat type is the one of the first keyword (in priority order) found
   * in the title, ignoring case, and `Bot` exactly when none is found.
   */
  lemma ChatTypeFirstKeyword(title: string)
    ensures ChatTypeOf(title) == Bot <==>
      forall i :: 0 <= i < |ChatKeywords| ==> !Contains(Lower(title), ChatKeywords[i].0)
    ensures forall i :: 0 <= i < |ChatKeywords| && ChatTypeOf(title) == ChatKeywords[i].1 ==>
      Contains(Lower(title), ChatKeywords[i].0) &&
      forall j :: 0 <= j < i ==> !Contains(Lower(title), ChatKeywords[j].0)
  {
    FirstKeywordIsFirst(Lower(title), ChatKeywords);
  }

  /** The configuration one request works with. */
  datatype Settings = Settings(
    secretPassword: string,
    apiKeyList: seq<string>,
    modelIds: string,
    apiBase: string,
    demoPassword: string,
    demoMaxTimes: int,
    tavilyKeys: string,
    tavilyKeyList: seq<string>,
    title: string,
    chatType: ChatType)

  /**
   * Reads the environment with defaults. `secretDefault` is the process-wide
   * fallback password `yijiaren.<n>`, drawn once at start-up with n in 0..999.
   */
  function Resolve(env: map<string, string>, secretSuffix: nat): (c: Settings)
    requires secretSuffix < 1000
    ensures c.secretPassword != ""
    ensures c.demoMaxTimes != 0
    ensures !("DEMO_MAX_TIMES_PER_HOUR" in env && env["DEMO_MAX_TIMES_PER_HOUR"] != "") ==>
      c.demoMaxTimes == DemoMaxTimesDefault
  {
    DemoMaxTimesUnset();
    var secretDefault := "yijiaren." + NatToDecimal(secretSuffix);
    var apiKeys := EnvOr(env, "API_KEYS", ApiKeysDefault);
    var tavilyKeys := EnvOr(env, "TAVILY_KEYS", "");
    var title := EnvOr(env, "TITLE", TitleDefault);
    Settings(
      EnvOr(env, "SECRET_PASSWORD", secretDefault),
      ParseKeyList(apiKeys),
      EnvOr(env, "MODEL_IDS", ModelIdsDefault),
      StripTrailingSlash(EnvOr(env, "API_BASE", ApiBaseDefault)),
      EnvOr(env, "DEMO_PASSWORD", ""),
      DemoMaxTimes(EnvOr(env, "DEMO_MAX_TIMES_PER_HOUR", "")),
      tavilyKeys,
      ParseKeyList(tavilyKeys),
      title,
      ChatTypeOf(title))
  }
}
