/**
 * The `/v1` relay: the Gemini-compatible path rewrite (`replaceApiUrl`), the
 * upstream target, the header allow-list of `buildProxyRequest`, and the
 * substitution of a password in the query string by the resolved pool key.
 */
module Relay {
  import opened Wrappers
  import opened Strings
  import opened Encoding
  import opened Query
  import opened CredentialGate
  import opened Http

  /** Hosts that only speak the OpenAI dialect under `/v1beta/openai`. */
  const GeminiHosts: seq<string> := ["generativelanguage.googleapis.com", "gateway.ai.cloudflare.com"]

  /** The URL names one of the Gemini-style hosts anywhere in it. */
  predicate IsGemini(url: string)
  {
    exists i :: 0 <= i < |GeminiHosts| && Contains(url, GeminiHosts[i])
  }

  /** `replaceApiUrl(url)`. */
  function ReplaceApiUrl(url: string): (r: string)
    ensures !IsGemini(url) ==> r == url
    ensures IsGemini(url) && !Contains(url, "/v1/chat") && !Contains(url, "/v1/models") ==> r == url
  {
    if !IsGemini(url) then url
    else
      var once := ReplaceFirst(url, "/v1/chat", "/v1beta/openai/chat");
      assert !Contains(url, "/v1/chat") ==> once == url by {
        if !Contains(url, "/v1/chat") { ReplaceFirstAbsent(url, "/v1/chat", "/v1beta/openai/chat"); }
      }
      ReplaceFirstAbsentIf(once, "/v1/models", "/v1beta/openai/models");
      ReplaceFirst(once, "/v1/models", "/v1beta/openai/models")
  }

  lemma ReplaceFirstAbsentIf(s: string, pat: string, rep: string)
    ensures !Contains(s, pat) ==> ReplaceFirst(s, pat, rep) == s
  {
    if !Contains(s, pat) { ReplaceFirstAbsent(s, pat, rep); }
  }

  lemma ChatBorderFree()
    ensures BorderFree("/v1/chat")
  {
    var p := "/v1/chat";
    forall k | 0 < k < |p| ensures p[k..] != p[..|p| - k] {
      if k == 3 {
        assert p[k..][1] != p[..|p| - k][1];
      } else {
        assert p[k..][0] != p[..|p| - k][0];
      }
    }
  }

  lemma ModelsBorderFree()
    ensures BorderFree("/v1/models")
  {
    var p := "/v1/models";
    forall k | 0 < k < |p| ensures p[k..] != p[..|p| - k] {
      if k == 3 {
        assert p[k..][1] != p[..|p| - k][1];
      } else {
        assert p[k..][0] != p[..|p| - k][0];
      }
    }
  }

  lemma ChatNotInModels()
    ensures !Contains("/v1/models", "/v1/chat")
    ensures NoStraddle("/v1/chat", "/v1/models")
  {
    var t := "/v1/models";
    var p := "/v1/chat";
    assert 'c' in p;
    assert 'c' !in t;
    if Contains(t, p) { ContainsChar(t, p, 'c'); }
    forall m | 0 < m < |p| && m <= |t| ensures t[..m] != p[|p| - m..] {
      if m == 5 {
        assert t[..m][1] != p[|p| - m..][1];
      } else {
        assert t[..m][0] != p[|p| - m..][0];
      }
    }
  }

  lemma ModelsNotInChat()
    ensures !Contains("/v1beta/openai/chat/completions", "/v1/models")
  {
    var t := "/v1beta/openai/chat/completions";
    var p := "/v1/models";
    assert p[6] == 'd';
    assert forall i :: 0 <= i < |t| ==> t[i] != 'd';
    if Contains(t, p) { ContainsChar(t, p, 'd'); }
  }

  lemma ModelsNoStraddle()
    ensures NoStraddle("/v1/models", "/v1beta/openai/chat/completions")
  {
    var t := "/v1beta/openai/chat/completions";
    var p := "/v1/models";
    forall m | 0 < m < |p| && m <= |t| ensures t[..m] != p[|p| - m..] {
      var a, b := t[..m], p[|p| - m..];
      if m == 7 {
        assert a[1] == t[1] == 'v' && b[1] == p[4] == 'm';
      } else {
        assert a[0] == t[0] == '/' && b[0] == p[|p| - m] != '/';
      }
    }
  }

  /** A Gemini base keeps naming its host after a path is appended. */
  lemma GeminiExtend(base: string, path: string)
    requires IsGemini(base)
    ensures IsGemini(base + path)
  {
    var i :| 0 <= i < |GeminiHosts| && Contains(base, GeminiHosts[i]);
    ContainsExtend(base, path, GeminiHosts[i]);
  }

  /**
   * The chat endpoint on a Gemini-style base is moved under `/v1beta/openai`
   * (the base itself holds neither endpoint path).
   */
  lemma GeminiChatRewrite(base: string)
    requires IsGemini(base)
    requires !Contains(base, "/v1/chat") && !Contains(base, "/v1/models")
    ensures ReplaceApiUrl(base + "/v1/chat/completions") == base + "/v1beta/openai/chat/completions"
  {
    var url := base + "/v1/chat/completions";
    GeminiExtend(base, "/v1/chat/completions");
    RewriteSteps(url);
    ChatSeam(base);
    ModelsAbsentAfterChat(base);
    ReplaceFirstAbsent(base + "/v1beta/openai/chat/completions", "/v1/models", "/v1beta/openai/models");
  }

  /** On a Gemini URL the rewrite is the two first-occurrence replacements, chat first. */
  lemma RewriteSteps(url: string)
    requires IsGemini(url)
    ensures ReplaceApiUrl(url) ==
      ReplaceFirst(ReplaceFirst(url, "/v1/chat", "/v1beta/openai/chat"), "/v1/models", "/v1beta/openai/models")
  {
  }

  /** The first replacement acts on the appended chat path. */
  lemma ChatSeam(base: string)
    requires !Contains(base, "/v1/chat")
    ensures ReplaceFirst(base + "/v1/chat/completions", "/v1/chat", "/v1beta/openai/chat")
      == base + "/v1beta/openai/chat/completions"
  {
    var chat, tail, rewritten := "/v1/chat", "/completions", "/v1beta/openai/chat";
    ChatPathPieces();
    assert base + "/v1/chat/completions" == base + chat + tail;
    ChatBorderFree();
    ReplaceFirstAtSeam(base, chat, tail, rewritten);
  }

  /** After it, no `/v1/models` is left for the second replacement. */
  lemma ModelsAbsentAfterChat(base: string)
    requires !Contains(base, "/v1/models")
    ensures !Contains(base + "/v1beta/openai/chat/completions", "/v1/models")
  {
    ModelsNotInChat();
    ModelsNoStraddle();
    AbsentAcrossSeam(base, "/v1beta/openai/chat/completions", "/v1/models");
  }

  /** The two chat paths, cut at the point where the rewrite acts. */
  lemma ChatPathPieces()
    ensures "/v1/chat/completions" == "/v1/chat" + "/completions"
    ensures "/v1beta/openai/chat/completions" == "/v1beta/openai/chat" + "/completions"
  {
  }

  /** Likewise the model listing. */
  lemma GeminiModelsRewrite(base: string)
    requires IsGemini(base)
    requires !Contains(base, "/v1/chat") && !Contains(base, "/v1/models")
    ensures ReplaceApiUrl(base + "/v1/models") == base + "/v1beta/openai/models"
  {
    var url := base + "/v1/models";
    GeminiExtend(base, "/v1/models");
    ChatNotInModels();
    AbsentAcrossSeam(base, "/v1/models", "/v1/chat");
    ReplaceFirstAbsent(url, "/v1/chat", "/v1beta/openai/chat");
    ModelsBorderFree();
    assert url == base + "/v1/models" + "";
    ReplaceFirstAtSeam(base, "/v1/models", "", "/v1beta/openai/models");
    assert base + "/v1beta/openai/models" + "" == base + "/v1beta/openai/models";
  }

  /** The upstream URL of a relayed call: base and path, rewritten, then `?` and the query. */
  function RelayTarget(apiBase: string, apiPath: string, search: string): (target: string)
    ensures !IsGemini(apiBase + apiPath) ==> target == apiBase + apiPath + "?" + search
  {
    ReplaceApiUrl(apiBase + apiPath) + "?" + search
  }

  /** The request headers `buildProxyRequest` copies, by lower-case name. */
  const ForwardedHeaders: seq<string> := ["content-type", "accept", "accept-encoding", "user-agent"]

  /** What is handed to `fetch` for the upstream call. */
  datatype ProxyRequest = ProxyRequest(verb: string, headers: map<string, string>, body: string, followRedirects: bool)

  /**
   * `buildProxyRequest(request, apiKey)`: only the allow-listed headers the
   * caller actually sent are copied, then `Authorization` is set to the
   * resolved key; the verb and body pass through and redirects are followed.
   * Header names are the lower-case names the `Headers` object normalises to.
   */
  method BuildProxyRequest(verb: string, incoming: map<string, string>, body: string, apiKey: string)
    returns (req: ProxyRequest)
    ensures req.verb == verb && req.body == body && req.followRedirects
    ensures "authorization" in req.headers && req.headers["authorization"] == "Bearer " + apiKey
    ensures forall h :: h in req.headers <==> h == "authorization" || (h in ForwardedHeaders && Present(incoming, h))
    ensures forall h :: h in ForwardedHeaders && Present(incoming, h) ==> req.headers[h] == incoming[h]
  {
    var headers: map<string, string> := map[];
    var i := 0;
    while i < |ForwardedHeaders|
      invariant 0 <= i <= |ForwardedHeaders|
      invariant forall h :: h in headers <==> h in ForwardedHeaders[..i] && Present(incoming, h)
      invariant forall h :: h in headers ==> headers[h] == incoming[h]
    {
      var name := ForwardedHeaders[i];
      if Present(incoming, name) {
        headers := headers[name := incoming[name]];
      }
      assert ForwardedHeaders[..i + 1] == ForwardedHeaders[..i] + [name];
      i := i + 1;
    }
    assert ForwardedHeaders[..i] == ForwardedHeaders;
    assert "authorization" !in ForwardedHeaders;
    headers := headers["authorization" := "Bearer " + apiKey];
    req := ProxyRequest(verb, headers, body, true);
  }

  /** The credential one query value stands for, read as the gate reads it. */
  function CredentialOf(value: string): string
  {
    ExtractCredential(Some(value), None)
  }

  /** The caller authenticated with one of the two passwords. */
  predicate IsPassword(original: string, secret: string, demo: string)
  {
    original == secret || original == demo
  }

  /**
   * The substitution as the relay writes it: on the serialized query, the
   * first `key=<password>` is replaced by `key=<pool key>`.
   */
  function SubstituteAsWritten(search: string, original: string, resolved: string, secret: string, demo: string)
    : (r: string)
    ensures !IsPassword(original, secret, demo) ==> r == search
    ensures IsPassword(original, secret, demo) && (forall j: nat :: !OccursAt(search, "key=" + original, j)) ==>
      r == search
    ensures forall i: nat :: IsPassword(original, secret, demo) && FirstAt(search, "key=" + original, i) ==>
      r == search[..i] + "key=" + resolved + search[i + |original| + 4..]
  {
    var pat := "key=" + original;
    assert |pat| == |original| + 4;
    // Both branches of the source rewrite `key=<the caller's password>`.
    if IsPassword(original, secret, demo) then ReplaceFirst(search, pat, "key=" + resolved)
    else search
  }

  /** A query that opens with `key=<password>` has that opening rewritten and the rest kept. */
  lemma SubstituteAtFront(search: string, original: string, resolved: string, secret: string, demo: string)
    requires IsPassword(original, secret, demo) && StartsWith(search, "key=" + original)
    ensures SubstituteAsWritten(search, original, resolved, secret, demo) == "key=" + resolved + search[|original| + 4..]
  {
    var pat := "key=" + original;
    assert search == pat + search[|pat|..];
    ReplaceFirstAtFront(pat, search[|pat|..], "key=" + resolved);
  }

  /** A serialized query never holds a space: spaces are written as `+`. */
  lemma {:induction false} SerializeNoSpace(params: seq<Param>)
    ensures ' ' !in Serialize(params)
  {
    if params != [] {
      SerializeSplits(params);
      var pieces := EncodePairs(params);
      forall i | 0 <= i < |pieces| ensures ' ' !in pieces[i] {
        FormEncodeNoSeparators(params[i].0);
        FormEncodeNoSeparators(params[i].1);
      }
      JoinNoChar(pieces, '&', ' ');
    }
  }

  /** Joining pieces without `x` by a separator other than `x` gives a string without `x`. */
  lemma {:induction false} JoinNoChar(parts: seq<string>, c: char, x: char)
    requires |parts| >= 1 && c != x
    requires forall k :: 0 <= k < |parts| ==> x !in parts[k]
    ensures x !in Join(parts, c)
  {
    if |parts| > 1 {
      JoinNoChar(parts[1..], c, x);
    }
  }

  /**
   * As written, a shared password holding a space is never substituted:
   * the query is compared in its encoded form, where the space is a `+`,
   * so the query goes upstream unchanged, password and all.
   */
  lemma AsWrittenMissesSpacedPassword(params: seq<Param>, resolved: string, secret: string, demo: string)
    requires ' ' in secret
    ensures SubstituteAsWritten(Serialize(params), secret, resolved, secret, demo) == Serialize(params)
  {
    var search := Serialize(params);
    var pat := "key=" + secret;
    SerializeNoSpace(params);
    assert ' ' in pat;
    if Contains(search, pat) {
      ContainsChar(search, pat, ' ');
    }
    ReplaceFirstAbsent(search, pat, "key=" + resolved);
  }

  /**
   * A caller who sends a spaced shared password as the only query parameter
   * passes the gate with it, and the query goes upstream still carrying it.
   */
  lemma SpacedPasswordLeaks(pw: string, resolved: string, demo: string)
    requires ' ' in pw && CredentialOf(pw) == pw
    ensures var params := [("key", pw)];
      && Get(params, "key") == Some(pw)
      && CredentialOf(Get(params, "key").value) == pw
      && Serialize(params) == "key=" + FormEncode(pw)
      && SubstituteAsWritten(Serialize(params), pw, resolved, pw, demo) == Serialize(params)
  {
    var params := [("key", pw)];
    SerializeKey(pw);
    AsWrittenMissesSpacedPassword(params, resolved, pw, demo);
  }

  /**
   * A plain shared password sent as `?key=%20<pw>` passes the gate, which
   * trims the space away, but the query is written `key=+<pw>`, which the
   * text substitution never matches, so the password goes upstream.
   */
  lemma PaddedPasswordLeaks(pw: string, resolved: string, demo: string)
    requires pw != [] && forall i :: 0 <= i < |pw| ==> PlainChar(pw[i])
    ensures var params := [("key", " " + pw)];
      && CredentialOf(Get(params, "key").value) == pw
      && Serialize(params) == "key=+" + pw
      && SubstituteAsWritten(Serialize(params), pw, resolved, pw, demo) == Serialize(params)
  {
    PaddedIsCredential(pw);
    SerializePadded(pw);
    PaddedNeverMatches(pw);
  }

  /** The lone parameter `key` with the value `" " + pw` is written `key=+<pw>`. */
  lemma SerializePadded(pw: string)
    requires forall i :: 0 <= i < |pw| ==> PlainChar(pw[i])
    ensures Serialize([("key", " " + pw)]) == "key=+" + pw
  {
    SerializeKey(" " + pw);
    FormEncodeAppend(" ", pw);
    FormEncodeSpace();
    FormEncodePlain(pw);
  }

  /** `key=<pw>` occurs nowhere in `key=+<pw>` when the password is plain. */
  lemma PaddedNeverMatches(pw: string)
    requires pw != [] && forall i :: 0 <= i < |pw| ==> PlainChar(pw[i])
    ensures forall j: nat :: !OccursAt("key=+" + pw, "key=" + pw, j)
  {
    var search := "key=+" + pw;
    var pat := "key=" + pw;
    forall j: nat
      ensures !OccursAt(search, pat, j)
    {
      if j + |pat| <= |search| {
        if j == 0 {
          assert PlainChar(pw[0]);
          assert search[j..j + |pat|][4] == '+' != pw[0] == pat[4];
        } else {
          assert search[j..j + |pat|][3] == '+' != '=' == pat[3];
        }
      }
    }
  }

  /** The gate trims the leading space off `" " + pw` and reads the plain password. */
  lemma PaddedIsCredential(pw: string)
    requires pw != [] && forall i :: 0 <= i < |pw| ==> PlainChar(pw[i])
    ensures CredentialOf(" " + pw) == pw
  {
    var v := " " + pw;
    assert RawCredential(Some(v), None) == v;
    PaddedHoldsNoBearer(pw);
    ReplaceFirstAbsent(v, "Bearer ", "");
    assert AllSpace(" ") && AllSpace([]);
    assert !IsJsSpace(pw[0]) by { assert PlainChar(pw[0]); }
    assert !IsJsSpace(pw[|pw| - 1]) by { assert PlainChar(pw[|pw| - 1]); }
    assert v == " " + pw + [];
    TrimPadded(" ", pw, []);
  }

  /** The only space in `" " + pw` is its first character, so `Bearer ` cannot occur in it. */
  lemma PaddedHoldsNoBearer(pw: string)
    requires forall i :: 0 <= i < |pw| ==> PlainChar(pw[i])
    ensures !Contains(" " + pw, "Bearer ")
  {
    var v := " " + pw;
    var bearer := "Bearer ";
    forall i: nat
      ensures !OccursAt(v, bearer, i)
    {
      if i + |bearer| <= |v| {
        assert PlainChar(pw[i + 5]);
        assert v[i..i + |bearer|][6] == pw[i + 5] != ' ' == bearer[6];
      }
    }
    ContainsIff(v, bearer);
  }

  /** `open sesame` holds no `Bearer ` and no outer white space. */
  lemma SesameIsItsCredential()
    ensures ' ' in "open sesame"
    ensures CredentialOf("open sesame") == "open sesame"
  {
    var pw := "open sesame";
    assert pw[4] == ' ';
    assert 'B' !in pw by {
      assert forall i :: 0 <= i < |pw| ==> pw[i] != 'B';
    }
    assert pw[0] == 'o' && pw[|pw| - 1] == 'e';
    NoBearerIsCredential(pw, 'B');
  }

  /**
   * A text lacking one of the characters of `Bearer ` (so not holding it),
   * with no white space at either end, is read by the gate as itself.
   */
  lemma NoBearerIsCredential(s: string, c: char)
    requires (c == 'B' || c == ' ') && c !in s
    requires s != [] && !IsJsSpace(s[0]) && !IsJsSpace(s[|s| - 1])
    ensures CredentialOf(s) == s
  {
    var bearer := "Bearer ";
    assert bearer[0] == 'B' && bearer[6] == ' ';
    if Contains(s, bearer) { ContainsChar(s, bearer, c); }
    ReplaceFirstAbsent(s, bearer, "");
    assert RawCredential(Some(s), None) == s;
    TrimNoSpace(s);
  }

  /** A lone `key` parameter is serialized as `key=` and the encoded value. */
  lemma SerializeKey(v: string)
    ensures Serialize([("key", v)]) == "key=" + FormEncode(v)
  {
    SerializeOne("key", v);
    KeyIsPlain();
  }

  /** The parameter name `key` is written as it is. */
  lemma KeyIsPlain()
    ensures FormEncode("key") == "key"
  {
    var k := "key";
    assert PlainChar(k[0]) && PlainChar(k[1]) && PlainChar(k[2]);
    FormEncodePlain(k);
  }

  /** The pair is a `key` parameter carrying the credential `original`. */
  predicate Carries(p: Param, original: string)
  {
    p.0 == "key" && CredentialOf(p.1) == original
  }

  /** One pair after the substitution. */
  function ResolvePair(p: Param, original: string, resolved: string): (q: Param)
    ensures q.0 == p.0
    ensures Carries(p, original) ==> q.1 == resolved
    ensures !Carries(p, original) ==> q == p
  {
    if Carries(p, original) then (p.0, resolved) else p
  }

  /** Every `key` parameter whose credential is `original` now holds `resolved`. */
  function ReplaceKeyValues(params: seq<Param>, original: string, resolved: string): (r: seq<Param>)
    ensures |r| == |params|
    ensures forall i :: 0 <= i < |params| ==> r[i] == ResolvePair(params[i], original, resolved)
  {
    seq(|params|, i requires 0 <= i < |params| => ResolvePair(params[i], original, resolved))
  }

  /**
   * The substitution done on the decoded parameters: when the caller used a
   * password, every `key` parameter carrying it is given the pool key.
   */
  function SubstituteKeyParam(params: seq<Param>, original: string, resolved: string, secret: string, demo: string)
    : (r: seq<Param>)
    ensures !IsPassword(original, secret, demo) ==> r == params
  {
    if IsPassword(original, secret, demo) then ReplaceKeyValues(params, original, resolved) else params
  }

  /**
   * With the substitution on decoded parameters, no `key` parameter still
   * carries the password (provided the pool key is not itself the password),
   * every other parameter is untouched, and the order is kept.
   */
  lemma CorrectedHidesPassword(params: seq<Param>, original: string, resolved: string, secret: string, demo: string)
    requires IsPassword(original, secret, demo)
    requires CredentialOf(resolved) != original
    ensures var r := SubstituteKeyParam(params, original, resolved, secret, demo);
      && |r| == |params|
      && (forall i :: 0 <= i < |r| && r[i].0 == "key" ==> CredentialOf(r[i].1) != original)
      && (forall i :: 0 <= i < |r| && params[i].0 != "key" ==> r[i] == params[i])
  {
    var r := ReplaceKeyValues(params, original, resolved);
    forall i | 0 <= i < |r|
      ensures r[i].0 == "key" ==> CredentialOf(r[i].1) != original
      ensures params[i].0 != "key" ==> r[i] == params[i]
    {
      ResolvedPairHides(params[i], original, resolved);
    }
  }

  /** One pair after the substitution no longer carries the password, and a non-`key` pair is untouched. */
  lemma ResolvedPairHides(p: Param, original: string, resolved: string)
    requires CredentialOf(resolved) != original
    ensures var q := ResolvePair(p, original, resolved);
      && (q.0 == "key" ==> CredentialOf(q.1) != original)
      && (p.0 != "key" ==> q == p)
  {
  }

  /** The `key` the upstream reads is the pool key whenever the caller's `key` was the password. */
  lemma CorrectedKeyIsResolved(params: seq<Param>, original: string, resolved: string, secret: string, demo: string)
    requires IsPassword(original, secret, demo)
    requires Get(params, "key").Some? && CredentialOf(Get(params, "key").value) == original
    ensures Get(SubstituteKeyParam(params, original, resolved, secret, demo), "key") == Some(resolved)
  {
    var r := SubstituteKeyParam(params, original, resolved, secret, demo);
    var v := Get(params, "key").value;
    var i := FirstIndexOf(params, "key");
    assert r[i] == ("key", resolved);
    forall j | 0 <= j < i ensures r[j].0 != "key" {
      assert r[j].0 == params[j].0;
    }
    GetAt(r, "key", i);
  }

  /** Text the form encoder leaves alone is read by the gate as exactly itself. */
  lemma PlainIsCredential(s: string)
    requires s != [] && forall i :: 0 <= i < |s| ==> PlainChar(s[i])
    ensures CredentialOf(s) == s
  {
    assert ' ' !in s;
    assert PlainChar(s[0]) && PlainChar(s[|s| - 1]);
    NoBearerIsCredential(s, ' ');
  }

  /**
   * A password the encoder leaves alone still leaks when another parameter's
   * name ends in `key`: the gate reads the `key` parameter, but the text
   * substitution rewrites the first `key=<password>` it finds, inside `xkey`.
   */
  lemma ShadowedKeyLeaks(pw: string, resolved: string, demo: string)
    requires pw != [] && forall i :: 0 <= i < |pw| ==> PlainChar(pw[i])
    ensures var params := [("xkey", pw), ("key", pw)];
      && Get(params, "key") == Some(pw)
      && CredentialOf(Get(params, "key").value) == pw
      && Serialize(params) == "xkey=" + pw + "&key=" + pw
      && SubstituteAsWritten(Serialize(params), pw, resolved, pw, demo) == "xkey=" + resolved + "&key=" + pw
  {
    PlainIsCredential(pw);
    SerializeShadowed(pw);
    SubstituteShadowed(pw, resolved, demo);
  }

  /** The two plain pairs `xkey` and `key` serialize as they are. */
  lemma SerializeShadowed(pw: string)
    requires forall i :: 0 <= i < |pw| ==> PlainChar(pw[i])
    ensures Serialize([("xkey", pw), ("key", pw)]) == "xkey=" + pw + "&key=" + pw
  {
    calc {
      Serialize([("xkey", pw), ("key", pw)]);
    == { SerializeTwo(("xkey", pw), ("key", pw)); }
      EncodePair(("xkey", pw)) + "&" + EncodePair(("key", pw));
    == { XKeyIsPlain(); KeyIsPlain(); FormEncodePlain(pw); }
      "xkey" + "=" + pw + "&" + ("key" + "=" + pw);
    == { assert "key" + "=" + pw == "key=" + pw; assert "xkey" + "=" + pw == "xkey=" + pw; }
      "xkey=" + pw + "&key=" + pw;
    }
  }

  /** The parameter name `xkey` is written as it is. */
  lemma XKeyIsPlain()
    ensures FormEncode("xkey") == "xkey"
  {
    var x := "xkey";
    assert PlainChar(x[0]) && PlainChar(x[1]) && PlainChar(x[2]) && PlainChar(x[3]);
    FormEncodePlain(x);
  }

  /** In `xkey=<pw>&key=<pw>` the first `key=<pw>` starts inside `xkey`. */
  lemma SubstituteShadowed(pw: string, resolved: string, demo: string)
    ensures SubstituteAsWritten("xkey=" + pw + "&key=" + pw, pw, resolved, pw, demo) == "xkey=" + resolved + "&key=" + pw
  {
    var search := "xkey=" + pw + "&key=" + pw;
    var pat := "key=" + pw;
    assert OccursAt(search, pat, 1) by {
      assert search[1..1 + |pat|] == pat;
    }
    assert forall j: nat :: j < 1 ==> !OccursAt(search, pat, j) by {
      assert search[0] != pat[0];
    }
    assert FirstAt(search, pat, 1);
    assert search[..1] + "key=" + resolved + search[1 + |pw| + 4..] == "xkey=" + resolved + "&key=" + pw;
  }

  /**
   * On a query that is just `key=<password>`, with password and pool key made
   * of characters the encoder leaves alone, both substitutions give
   * `key=<pool key>`: the correction changes nothing where the original worked.
   */
  lemma SubstitutionsAgreeOnPlainKeys(pw: string, resolved: string, demo: string)
    requires pw != [] && forall i :: 0 <= i < |pw| ==> PlainChar(pw[i])
    requires forall i :: 0 <= i < |resolved| ==> PlainChar(resolved[i])
    ensures var params := [("key", pw)];
      && SubstituteAsWritten(Serialize(params), pw, resolved, pw, demo) == "key=" + resolved
      && Serialize(SubstituteKeyParam(params, pw, resolved, pw, demo)) == "key=" + resolved
  {
    AsWrittenOnPlainKey(pw, resolved, demo);
    CorrectedOnPlainKey(pw, resolved, demo);
  }

  /** The text substitution on `key=<password>` with a plain password. */
  lemma AsWrittenOnPlainKey(pw: string, resolved: string, demo: string)
    requires pw != [] && forall i :: 0 <= i < |pw| ==> PlainChar(pw[i])
    ensures SubstituteAsWritten(Serialize([("key", pw)]), pw, resolved, pw, demo) == "key=" + resolved
  {
    FormEncodePlain(pw);
    SerializeKey(pw);
    var search := Serialize([("key", pw)]);
    assert search == "key=" + pw;
    assert StartsWith(search, "key=" + pw);
    assert search[|pw| + 4..] == "";
  }

  /** The parameter substitution on `key=<password>` with a plain password and pool key. */
  lemma CorrectedOnPlainKey(pw: string, resolved: string, demo: string)
    requires pw != [] && forall i :: 0 <= i < |pw| ==> PlainChar(pw[i])
    requires forall i :: 0 <= i < |resolved| ==> PlainChar(resolved[i])
    ensures Serialize(SubstituteKeyParam([("key", pw)], pw, resolved, pw, demo)) == "key=" + resolved
  {
    PlainIsCredential(pw);
    SubstituteOne(pw, resolved, demo);
    FormEncodePlain(resolved);
    SerializeKey(resolved);
  }

  /** A lone `key` parameter carrying the password is given the pool key. */
  lemma SubstituteOne(pw: string, resolved: string, demo: string)
    requires CredentialOf(pw) == pw
    ensures SubstituteKeyParam([("key", pw)], pw, resolved, pw, demo) == [("key", resolved)]
  {
    var params := [("key", pw)];
    assert Carries(params[0], pw);
    var r := ReplaceKeyValues(params, pw, resolved);
    assert r[0] == ("key", resolved);
    assert r == [("key", resolved)];
  }
}
