# openai-webui-lite gateway, modelled in Dafny

openai-webui-lite is a single-file web chat client. Its server side, `worker.js`, runs on Cloudflare Workers, Deno or Node. It is a small gateway in front of an OpenAI-compatible upstream. This project models that gateway and proves properties of the model:

- **Configuration** is read per request from the environment, with defaults. The credential pools are comma-separated lists: split on commas, trimmed, with empty entries dropped. The upstream base loses one trailing slash. The demo quota goes through `parseInt(...) || 15`. The chat type is picked from the title by a keyword chain.
- **Key selection** over the credential pool. Round-robin (`getNextApiKey`) uses a process-wide cursor, modelled as the `Rotator` class. Random selection (`getRandomApiKey`) takes the random draw as a parameter.
- **The demo limiter** (`checkAndUpdateDemoCounter`) is the `DemoLimiter` class. It counts calls per hour in a fixed window. The counter lives under `demo_counter` in an optional key-value store (`getKV`/`setKV`); an in-process record takes over when no store is bound. The method is proved equal to a step function, `Step`, which carries the quota lemmas.
- **The credential gate** (`validateAndProcessApiKey`) is an ordered decision:
  - missing credential;
  - the shared password;
  - the demo password, charged against the quota;
  - a credential of 10 characters or fewer;
  - the caller's own key.

  The credential comes from `?key=`, else from `Authorization`; the first `Bearer ` is removed and the result trimmed.
- **Routing** (`handleRequest`): a first-match chain on path and upper-cased verb. It ends in the `/v1` relay. The relay runs the gate, substitutes the resolved key for a password in the query, rewrites Gemini-style URLs (`replaceApiUrl`) and builds the upstream request (`buildProxyRequest`).
- **`/search`** asks the lite model (`getLiteModelId`) for a search plan. It extracts the plan with the greedy `/({.*})/` match, makes one web lookup per planned query with a randomly drawn lookup key, and returns the successful results in query order.
- **`/summarize`** is open only to the two passwords. It cuts long texts to their first and last 150 characters around `......`.
- **The WebDAV proxy**:
  - answers preflights itself;
  - builds the target from `X-WebDAV-URL`;
  - forwards a fixed set of headers, with a `Content-Length` in UTF-8 bytes;
  - refuses redirects with a 502;
  - adds CORS headers and removes `WWW-Authenticate`.

The clock (`Date.now()`), randomness (`Math.random()`), `JSON.parse`, the model calls and the web lookups are parameters. A route handler that changes shared state is a method over the `Rotator` and `DemoLimiter` objects. Each such method is proved equal to a function of the cursor and limiter state before it. The lemmas are stated about those functions.

Three behaviours of `worker.js` that are easy to misread:

- **Plan extraction.** The plan is the greedy match from the first `{` to the last `}` on one line, not the first top-level object. Only `\n` is removed first, so a `\r`, U+2028 or U+2029 still ends the match (`Search.BraceMatch`, `Search.GreedyFirstToLast`).
- **Short-circuit.** Only `num_results === 0` or an unparsable or falsy plan short-circuits. An empty `search_queries` gives `[]` because no lookups are made. A plan without `search_queries` throws (`Search.PlanOf`, `Search.AfterPlanning`).
- **Gemini detection** looks for the host names anywhere in the URL. The rewrite replaces the first `/v1/chat` and the first `/v1/models` wherever they occur, not only a whole path (`Relay.ReplaceApiUrl`, `Relay.RewriteSteps`).

## Model

| member | source | states |
|---|---|---|
| Config.EnvOr | worker.js:131-152 | an unset or empty variable yields the fallback, any other value is taken as is |
| Config.NonEmptyTrimmed | worker.js:134-137 | the kept entries are no more than the pieces, each non-empty and already trimmed |
| Config.NonEmptyTrimmedComplete | worker.js:134-137 | no piece with a non-blank trim is lost: its trim is among the kept entries |
| Config.NonEmptyTrimmedSkipsBlank | worker.js:134-137 | a piece that trims to nothing contributes nothing |
| Config.NonEmptyTrimmedPadded | worker.js:134-137 | pieces whose trims are all non-empty give exactly those trims, in order |
| Config.ParseKeyList | worker.js:134-137 | every pool entry is non-empty, trimmed and free of commas, and is the trim of one of the comma-separated pieces |
| Config.ImageOfSomeCons | worker.js:134-137 | the image of the first piece, and any value that is the image of a later piece, is the image of some piece of the whole list |
| Config.NonEmptyImagesSound | worker.js:134-137 | every entry kept by mapping and dropping empties is the image of some piece |
| Config.NonEmptyTrimmedSound | worker.js:134-137 | every kept entry is the trim of some piece: nothing is invented |
| Config.ParseJoinedKeys | worker.js:134-137 | writing a pool of clean, comma-free keys with commas and parsing it gives the same pool back |
| Config.ParseJoinedPieces | worker.js:134-137 | a comma-separated list of comma-free pieces parses to the non-blank trims of the pieces, in order |
| Config.ParseSpacedKeys | worker.js:134-137 | a pool written as `sk-a , sk-b`, with white space around each key, parses to exactly the keys, in order |
| Config.ParseEmptyKeyList | worker.js:147-151 | an unset lookup-key list parses to the empty pool |
| Config.StripTrailingSlash | worker.js:139-142 | a trailing `/` is removed, a base without one is unchanged |
| Config.StripOneSlash | worker.js:139-142 | only one slash goes: `base + "/"` becomes `base` |
| Config.DemoMaxTimes | worker.js:144-146 | the quota is never 0: `NaN` and 0 fall back to 15, any other parsed number is taken |
| Config.DemoMaxTimesUnset | worker.js:144-146 | an unset or empty quota variable gives the default 15 |
| Config.ParseIntDecimal | worker.js:144-146 | `parseInt` reads a plain decimal string as its decimal value |
| Config.DemoMaxTimesDecimal | worker.js:144-146 | a quota written in decimal is taken as is, except that `0` becomes 15 |
| Config.ChatTypeFirstKeyword | worker.js:154-167 | the chat type is that of the first keyword, in priority order, found case-insensitively in the title; `bot` exactly when none occurs |
| Config.FirstKeywordIsFirst | worker.js:154-167 | for any keyword chain with distinct, non-`bot` types, the result is the type of the first keyword found, and `bot` exactly when none is found |
| Config.FirstFound | worker.js:154-167 | when some keyword is found, the chain stops at a found keyword at or before it |
| Config.Resolve | worker.js:131-167 | the configuration always has a non-empty shared password and a non-zero quota, and the quota is 15 when its variable is unset or empty |
| Strings.ReplaceFirst | worker.js:791 | `String.prototype.replace` with a string pattern: unchanged when the pattern is absent, otherwise the first occurrence replaced |
| Strings.ReplaceFirstAtSeam | worker.js:974-975 | a pattern that overlaps none of its own shifts is replaced where it is appended to a text that lacks it |
| Strings.JoinSplit | worker.js:134-135 | joining the pieces of a split with the separator gives the text back |
| Strings.SplitJoin | worker.js:134-135 | splitting a join of separator-free pieces gives the pieces back |
| Strings.TrimIdempotent | worker.js:136 | `trim()` applied twice is `trim()` applied once |
| Strings.TrimNoSpace | worker.js:136 | a text without white space at either end is its own trim |
| Strings.TrimStartPadded | worker.js:136 | `trimStart()` removes exactly the white space before a text that does not start with white space |
| Strings.TrimEndPadded | worker.js:136 | `trimEnd()` removes exactly the white space after a text that does not end with white space |
| Strings.TrimPadded | worker.js:136 | `trim()` of a text with white space around it is the text, when the text has none at either end |
| Strings.RemoveAll | worker.js:402 | removing every `\n` leaves no `\n` and keeps every other character; a text without `\n` is unchanged |
| Strings.RemoveAllAppend | worker.js:402 | removal distributes over concatenation |
| Strings.DecimalRoundTrip | worker.js:720-723 | the decimal text of a number reads back as that number |
| Encoding.Utf8Encode | worker.js:720-723 | the UTF-8 encoding takes between one and four bytes per character |
| Encoding.Utf8CharRoundTrip | worker.js:720-723 | decoding the bytes of an encoded character gives the character back |
| Encoding.Utf8EncodeAppend | worker.js:720-723 | encoding distributes over concatenation |
| Encoding.Utf8AsciiLength | worker.js:720-723 | ASCII text takes one byte per character |
| Encoding.Utf8NonAsciiLonger | worker.js:720-723 | one non-ASCII character makes the byte count exceed the character count |
| Encoding.FormByte | worker.js:792 | unreserved bytes stay, a space becomes `+`, any other byte becomes `%XX` whose two upper-case hex digits read back as the byte |
| Encoding.HexValue | worker.js:792 | the value of an upper-case hex digit is below 16 and writes back as that digit |
| Encoding.HexValueOfDigit | worker.js:792 | reading a written hex digit gives the value it was written from |
| Encoding.FormEncodeSpace | worker.js:792 | a space is written `+` |
| Encoding.FormEncodeAppend | worker.js:792 | form encoding distributes over concatenation |
| Encoding.FormEncodeNoSeparators | worker.js:792 | an encoded name or value holds no `&`, `=` or space |
| Encoding.FormEncodePlain | worker.js:792 | text made only of unreserved characters is its own form encoding |
| Query.Get | worker.js:790-791 | `searchParams.get`: `None` exactly when no pair has the name, otherwise the value of such a pair |
| Query.FirstIndexOf | worker.js:790-791 | the value `get` returns is that of the first pair with the name |
| Query.GetAt | worker.js:790-791 | a pair preceded by no pair of the same name is the one `get` returns |
| Query.EncodePairs | worker.js:792 | one encoded piece per pair, in order |
| Query.EncodePairShape | worker.js:792 | an encoded pair has no `&` and splits on `=` into the encoded name and value |
| Query.SerializeSplits | worker.js:792 | `toString()` reads back unambiguously: split on `&` it gives the pairs in order, each splitting on `=` into encoded name and value |
| Query.SerializeOne | worker.js:792 | a one-pair query is `name=value`, both encoded |
| Query.SerializeTwo | worker.js:792 | a two-pair query is the two encoded pairs joined by `&` |
| KeySelector.RoundRobinStep | worker.js:910-917 | an empty pool is the error with the cursor unchanged; otherwise the key is the first of the rotation and the new cursor is below the pool size |
| KeySelector.Rotator.constructor | worker.js:122-123 | the cursor starts at 0 |
| KeySelector.Rotator.Next | worker.js:910-917 | an empty pool is the error and leaves the cursor; otherwise it returns `pool[cursor % n]` and sets the cursor to `(cursor + 1) % n` |
| KeySelector.Rotation | worker.js:910-917 | `k` successive selections give `k` keys |
| KeySelector.RotationStep | worker.js:910-917 | `k + 1` selections are one round-robin step, whose key comes first, followed by `k` selections from the cursor that step leaves |
| KeySelector.RotationAt | worker.js:910-917 | selection `i` after cursor `c` is `pool[(c + i) % n]` |
| KeySelector.FullTurnIsRotation | worker.js:910-917 | `n` successive selections give the pool rotated to the cursor, a permutation of the pool |
| KeySelector.FreshRotation | worker.js:910-917 | from cursor 0 the first `n` selections give the pool in order |
| KeySelector.RotationWraps | worker.js:910-917 | selection `n + 1` repeats selection 1 |
| KeySelector.RandomIndex | worker.js:919-925 | `Math.floor(roll * n)` is a valid index for a draw in [0, 1) |
| KeySelector.RandomKey | worker.js:919-925 | the error exactly for an empty pool, otherwise a member of the pool |
| KeySelector.RandomKeyReachesEvery | worker.js:919-925 | every key of the pool is drawn by some draw in [0, 1) |
| DemoLimit.HourOf | worker.js:175 | the hour bucket contains the clock reading |
| DemoLimit.DemoLimiter.constructor | worker.js:115-120 | a limiter over the given store with the in-process record at hour 0, count 0 |
| DemoLimit.DemoLimiter.GetKV | worker.js:64-83 | a value exactly when a store is bound and holds the key, and then the stored value |
| DemoLimit.DemoLimiter.SetKV | worker.js:92-113 | writes the key exactly when a store is bound, reports whether it did, leaves the in-process record |
| DemoLimit.DemoLimiter.CheckAndUpdate | worker.js:174-227 | the verdict and the new limiter state are those of `Step` on the old state and the current hour |
| DemoLimit.DeniedChangesNothing | worker.js:190-197 | a denied call changes neither the store nor the in-process record |
| DemoLimit.StoreModeStep | worker.js:178-203 | with a store: allowed exactly when the current record, fresh if stale or absent, is below its `maxTimes`; then written back with `times + increment`, nothing else changed |
| DemoLimit.MemoryModeStep | worker.js:205-220 | without a store: allowed exactly when the quota is positive and the in-process count for this hour, reset on a new hour, is below it; then it grows by `increment` |
| DemoLimit.StepCounted | worker.js:174-227 | one whole call against a positive quota is allowed while the count is below it, and is then counted |
| DemoLimit.CallsCounted | worker.js:174-227 | after `u` counted calls, call `i` of a run in the same hour is allowed exactly when `u + i < m` |
| DemoLimit.QuotaPerHour | worker.js:174-227 | in an hour with no record, a run of whole calls has exactly the first `m` allowed |
| DemoLimit.CallsKeepOtherHoursFresh | worker.js:181-188 | calls in one hour create no record for another hour |
| DemoLimit.NewHourAllowed | worker.js:181-197 | the first call of an hour without a record is allowed |
| DemoLimit.ThreePerHour | worker.js:174-227 | with a quota of 3, calls 1 to 3 are allowed, call 4 denied, and the next hour allowed again |
| CredentialGate.RawCredential | worker.js:790-791 | a non-empty `?key=` wins, then the `Authorization` header, else the empty string |
| CredentialGate.BearerCredential | worker.js:790-792 | a `Bearer` header without a query key yields the token, trimmed |
| CredentialGate.QueryKeyWins | worker.js:790-792 | a non-empty query key is the credential, trimmed, whatever the header |
| CredentialGate.NoCredential | worker.js:790-792 | with neither source the credential is empty |
| CredentialGate.ClassifyOrder | worker.js:235-284 | each branch is taken exactly when the earlier tests fail and its own succeeds; pass-through exactly for a key that matches no password and is longer than 10 |
| CredentialGate.Validate | worker.js:235-284 | the answer, the cursor and the limiter state after it are those of `Gate` on the state before it |
| CredentialGate.GateMissing | worker.js:236-245 | an empty credential is a 401 and changes nothing |
| CredentialGate.GateNeverLeaksPassword | worker.js:247-269 | a password is only granted as the pool key under the cursor, which then advances |
| CredentialGate.GateShared | worker.js:247-252 | the shared password leaves the quota alone and is the empty-pool error exactly when the pool is empty |
| CredentialGate.GateDemo | worker.js:255-269 | the demo password is charged first; a denial is a 429 with the limiter's message and the cursor untouched; the quota is charged even when the pool then proves empty |
| CredentialGate.GateOther | worker.js:272-284 | any other credential is a 401 at 10 characters or fewer and is otherwise granted unchanged; neither touches cursor or quota |
| Relay.ReplaceApiUrl | worker.js:965-978 | a URL naming neither Gemini-style host is unchanged, and so is one holding neither endpoint path |
| Relay.RewriteSteps | worker.js:965-978 | on a Gemini-style URL the rewrite is the first-occurrence replacement of `/v1/chat`, then of `/v1/models` |
| Relay.GeminiExtend | worker.js:966-969 | appending a path to a Gemini-style base keeps it Gemini-style |
| Relay.GeminiChatRewrite | worker.js:965-978 | on a Gemini-style base, `/v1/chat/completions` becomes `/v1beta/openai/chat/completions` and nothing else changes |
| Relay.GeminiModelsRewrite | worker.js:965-978 | on a Gemini-style base, `/v1/models` becomes `/v1beta/openai/models` and nothing else changes |
| Relay.RelayTarget | worker.js:810-812 | for a non-Gemini base the target is base, path, `?` and the query |
| Relay.BuildProxyRequest | worker.js:846-873 | the verb and body pass through and redirects are followed; `Authorization` is `Bearer <key>`; the other headers are exactly the allow-listed ones the caller sent, with their values |
| Relay.SubstituteAsWritten | worker.js:804-808 | no password, no change; for either password, the first occurrence of the text `key=<password>`, wherever it stands, becomes `key=<pool key>` with everything before and after it kept, and a query without that text is unchanged |
| Relay.SubstituteAtFront | worker.js:804-808 | a query opening with `key=<password>` gets `key=<pool key>` in its place and keeps the rest |
| Relay.SerializeNoSpace | worker.js:792 | a serialized query never holds a space |
| Relay.AsWrittenMissesSpacedPassword | worker.js:792-808 | as written, a shared password holding a space is never substituted and the query goes on unchanged |
| Relay.SpacedPasswordLeaks | worker.js:790-808 | a spaced password sent as `?key=` passes as the credential and still reaches the upstream query |
| Relay.PaddedPasswordLeaks | worker.js:790-808 | a plain password sent as `?key=%20<pw>` passes as the credential, is written `key=+<pw>`, and the query goes upstream unchanged |
| Relay.PaddedIsCredential | worker.js:790-791 | the gate reads `" " + pw` as the plain password `pw` |
| Relay.PaddedHoldsNoBearer | worker.js:791 | `" " + pw` holds no `Bearer ` when the password is plain |
| Relay.SerializePadded | worker.js:792 | the lone parameter `key` with value `" " + pw` serializes as `key=+<pw>` |
| Relay.PaddedNeverMatches | worker.js:804-808 | the search text `key=<pw>` occurs nowhere in `key=+<pw>` |
| Relay.SesameIsItsCredential | worker.js:790-792 | `open sesame` holds a space and is read as exactly itself |
| Relay.ShadowedKeyLeaks | worker.js:790-808 | with `xkey=<pw>&key=<pw>` the gate reads `<pw>` from `key`, but as written the pool key lands in `xkey` and the `key` parameter keeps the password |
| Relay.SerializeShadowed | worker.js:792 | the plain pairs `xkey` and `key` serialize as `xkey=<pw>&key=<pw>` |
| Relay.SubstituteShadowed | worker.js:804-808 | in `xkey=<pw>&key=<pw>` the text replaced is the one inside `xkey` |
| Relay.XKeyIsPlain | worker.js:792 | the name `xkey` encodes to itself |
| Relay.KeyIsPlain | worker.js:792 | the parameter name `key` is serialized as it is |
| Relay.ResolvePair | worker.js:804-808 | the pair's name is kept; a `key` pair carrying the password takes the pool key, any other pair is unchanged |
| Relay.ReplaceKeyValues | worker.js:804-808 | pair by pair, in order, the result is the resolved pair |
| Relay.SubstituteKeyParam | worker.js:804-808 | a caller who did not use a password keeps the query as it is |
| Relay.CorrectedHidesPassword | worker.js:804-808 | after the corrected substitution no `key` parameter carries the password, other parameters are unchanged and the order is kept |
| Relay.ResolvedPairHides | worker.js:804-808 | one pair after the corrected substitution no longer carries the password, and a non-`key` pair is untouched |
| Relay.CorrectedKeyIsResolved | worker.js:804-808 | the `key` the upstream reads is the pool key whenever the caller's `key` was the password |
| Relay.PlainIsCredential | worker.js:790-792 | text the encoder leaves alone is read by the gate as itself |
| Relay.SubstitutionsAgreeOnPlainKeys | worker.js:804-808 | where the password and key are plain text, both substitutions give `key=<pool key>` |
| LiteModel.EntryName | worker.js:932 | the name before the first `=`, trimmed, holds no `=` |
| LiteModel.EntryNameCommaFree | worker.js:932 | the name is cut from the entry, so an entry without `,` gives a name without `,` |
| LiteModel.DropEmpty | worker.js:929-933 | `filter(i => i)` keeps exactly the non-empty strings: each kept one is from the input, every non-empty input is kept, and the list never grows |
| LiteModel.DropEmptySkip | worker.js:929-933 | an empty head is filtered away |
| LiteModel.ModelNames | worker.js:929-933 | filter, map to the name, filter: the names are non-empty and hold no `=`, nor a comma when no piece does, and each is the name of one of the pieces |
| LiteModel.ModelNamesCons | worker.js:929-933 | a non-empty first piece with a non-empty name contributes that name ahead of the names of the rest |
| LiteModel.DropEmptyCons | worker.js:929-933 | a non-empty head survives the filter, ahead of the filtered rest |
| LiteModel.ParseModelIds | worker.js:929-933 | every parsed id is non-empty, holds neither `=` nor `,`, and is the name of one entry of the configured list |
| LiteModel.ModelNamesComplete | worker.js:929-933 | no name is lost: a non-empty piece with a non-empty name contributes that name |
| LiteModel.ParseModelIdsComplete | worker.js:929-933 | every non-empty entry of the configured list whose name is non-empty is offered |
| LiteModel.NamesOfPieces | worker.js:929-933 | pieces that each name a non-empty name give exactly those names, in order |
| LiteModel.EntryNameSpaced | worker.js:932 | `  name  = alias` yields `name`: white space around the name is trimmed away |
| LiteModel.SpacedEntryNames | worker.js:929-933 | a spaced `name = alias` entry of comma-free parts is non-empty, comma-free and names `name` |
| LiteModel.ParseSpacedEntries | worker.js:929-933 | a list of `name = alias` entries with white space around the names parses to exactly the names, in order |
| LiteModel.EntryNameOfLabelled | worker.js:932 | `name=alias` and `name` both yield `name` |
| LiteModel.ParseEntries | worker.js:929-933 | a list of `name` or `name=alias` entries parses to exactly the names, in order |
| LiteModel.NamesOfEntries | worker.js:929-933 | the names step recovers the names from their entries |
| LiteModel.FirstMatch | worker.js:956 | `find`: `None` exactly when no id matches, otherwise the first matching id in list order |
| LiteModel.RankedChoice | worker.js:954-962 | the keyword loop returns the ranked choice |
| LiteModel.LiteModelId | worker.js:927-963 | an empty list setting gives `gemini-2.5-flash-lite`; any other gives the ranked choice over the parsed ids |
| LiteModel.RankedMember | worker.js:954-962 | no model exactly for an empty parsed list; otherwise the choice is a member of the list |
| LiteModel.RankedIsBest | worker.js:934-962 | the choice is the first id matching the best-ranked keyword that matches anything, or the first id when none matches |
| WebDav.PreflightHeaders | worker.js:656-668 | the preflight allows any origin, the listed verbs and headers, for a day |
| WebDav.ProxyPathsArePreflighted | worker.js:656-671 | every proxied path is answered as a preflight under OPTIONS; `/webdavx` is preflighted but not proxied |
| WebDav.Target | worker.js:682-686 | `/webdav` targets the URL as given; `/webdav/x` targets the URL minus one trailing slash, then `/x` |
| WebDav.TargetJoinsWithOneSlash | worker.js:682-686 | a URL with or without its trailing slash leads to the same target |
| WebDav.ForwardHeaders | worker.js:690-724 | a fixed `User-Agent`; `Authorization`, `Content-Type` and `Depth` exactly when sent; `Content-Length` exactly for a non-empty body of a body-carrying verb, as its UTF-8 byte count; nothing else |
| WebDav.PlanRequest | worker.js:671-739 | a 400 exactly when `X-WebDAV-URL` is missing or empty; otherwise the target, the verb, the body for every verb but GET, HEAD and OPTIONS, and every header fact of `ForwardHeaders` |
| WebDav.ContentLengthCountsBytes | worker.js:717-724 | the length written reads back as the byte count, equal to the character count exactly for ASCII bodies |
| WebDav.WithCors | worker.js:757-769 | the three CORS headers set, `WWW-Authenticate` removed, every other upstream header kept |
| WebDav.Respond | worker.js:742-779 | a network failure is a 502 with the error; a redirect is a 502 naming `Location` (`null` when absent); any other answer is passed on with its status, the three CORS headers, no `WWW-Authenticate`, and every other upstream header kept |
| WebDav.RedirectNamesLocation | worker.js:742-751 | the redirect message contains the `Location` value |
| Search.LineEnd | worker.js:402 | the first line terminator at or after a position, or the end |
| Search.LastClose | worker.js:402 | the last `}` in a range, or none |
| Search.MatchAt | worker.js:402 | the longest `{...}` on one line starting at a position, or none |
| Search.BraceMatch | worker.js:402 | the leftmost start, then the longest match from it; none when no `{...}` lies on one line |
| Search.GreedyFirstToLast | worker.js:402 | on one line the match runs from the first `{` to the last `}` |
| Search.PlanText | worker.js:402-403 | with a match, the matched text (after removing `\n`) trimmed; without one, the reply unchanged |
| Search.PlanOf | worker.js:404-416 | parse failure, a falsy value or `num_results` 0 mean no search; a plan missing `search_queries` is malformed, and only then; otherwise the plan is its queries with its `num_results` |
| Search.Lookups | worker.js:419-425 | one lookup per query, in order, each with a key from the lookup pool and the plan's result count; an error exactly when the pool is empty and a lookup is made |
| Search.Aggregate | worker.js:539-542 | no longer than the answers; holds exactly the successful results |
| Search.AggregateCount | worker.js:539-542 | exactly the failed lookups are dropped |
| Search.AggregateAppend | worker.js:539-542 | results keep their queries' order |
| Search.TwoOfThreeFail | worker.js:539-542 | two failures out of three lookups leave the one success |
| Search.PlannerRequest | worker.js:362-384 | the planning call uses the lite model of the configured list and the pool key it is given |
| Search.AfterPlanning | worker.js:402-542 | no search and an empty query list give `[]`; a malformed plan throws, and so does an empty lookup-key pool with queries planned; otherwise the answer is the successful lookups, in query order |
| Search.HandleSearch | worker.js:346-548 | the reply, cursor and limiter state are those of `SearchRoute`: query check, gate charging 0.1, a second pool key, with which the planning call (`PlannerRequest`) is made; a failed planner call gives `[]`, a reply that is not JSON throws, any other reply is planned |
| Search.SearchNeedsQuery | worker.js:352-355 | an empty query is a 400 before the gate, changing nothing |
| Search.SharedSearchTakesTwoKeys | worker.js:357-382 | a shared-password search moves the cursor two places |
| Search.SharedGateStep | worker.js:247-253 | the shared password, charged as a search, is granted and moves the cursor one place |
| Search.GrantedSearchCursor | worker.js:357-382 | once the gate grants, the route draws one more round-robin key after the gate's |
| Search.OwnKeySearchesOnPool | worker.js:357-384 | a caller's own key longer than 10 characters is searched for on the operator's pool: nothing charged, and the planning call carries the pool key under the cursor and the lite model (where `/summarize` answers the same key with 403, `Summarize.OwnKeyRefused`) |
| Search.SearchResultsAreLookups | worker.js:419-542 | a granted search answers only with results of the planned lookups, no more of them than queries, and every successful lookup's result is among them |
| Summarize.Truncate | worker.js:575-582 | up to 300 characters a text is kept; a longer one becomes its first 150, `......`, its last 150 |
| Summarize.TruncateBounds | worker.js:575-582 | at most 306 characters; longer than the input exactly for texts of 301 to 305 characters |
| Summarize.TruncateIdempotent | worker.js:575-582 | truncating twice is truncating once |
| Summarize.HandleSummarize | worker.js:552-652 | the reply, cursor and limiter state are those of `SummarizeRoute`: texts present, gate charging 0.1, passwords only, a second pool key, the model on truncated texts |
| Summarize.OwnKeyRefused | worker.js:564-572 | a caller's own key passes the gate but is a 403, with cursor and quota untouched |
| Summarize.SummaryOnlyForPasswords | worker.js:564-640 | a summary is produced only for a password holder, from the truncated texts, trimmed |
| Gateway.FixedPathsOutsideV1 | worker.js:290-787 | no fixed route path starts with `/v1` |
| Gateway.RelayExactlyV1 | worker.js:286-787 | a request is relayed exactly when its path starts with `/v1`; the 400 is exactly the rest that no earlier rule serves |
| Gateway.VerbCaseIgnored | worker.js:288 | the verb is compared upper-cased |
| Gateway.InvalidPathReply | worker.js:781-786 | exactly the requests routed nowhere get a 400 whose message opens with the path; paths under `/v1` never do |
| Gateway.SearchNeedsPost | worker.js:346 | any verb other than POST on `/search` falls through to the 400 |
| Gateway.HandleRelay | worker.js:789-873 | cursor and limiter state are those of `RelayDecision`, which substitutes in the query text as written; the reply is its refusal, its crash, or a request to its target with the verb, body, followed redirects, `Bearer <resolved key>` and exactly the allow-listed headers the caller sent |
| Gateway.RelayCredential | worker.js:796-873 | the same, once the credential is read |
| Gateway.RelayUsesPoolKey | worker.js:796-816 | a caller holding a password is relayed with the pool key under the cursor in `Authorization`, to the target whose query is the as-written substitution of that key for the password |
| Gateway.PasswordGetsPoolKey | worker.js:796-816 | under either substitution rule, a password holder goes upstream only with the pool key under the cursor |
| Gateway.PasswordPrefixReplaced | worker.js:804-812 | as written, a query that starts `key=<password>` reaches the target starting `key=<pool key>`, the rest unchanged |
| Gateway.RelayKeyIsGateKey | worker.js:796-816 | the relay goes upstream only when the gate granted a key, sends exactly that key, and targets base, path and the query its rule gives for that key |
| Gateway.RelayLeaksSpacedPassword | worker.js:790-812 | as written, a shared password holding a space reaches the upstream: the target carries the caller's query unchanged |
| Gateway.CorrectedRelayHidesPassword | worker.js:796-816 | with the corrected substitution, a password holder is relayed with the pool key under the cursor, and the target's query keeps every parameter in order with no `key` still carrying the password |
| Gateway.CorrectedPlanHides | worker.js:796-812 | the same, stated for a credential already read |

## Left out

- Every `fetch`: the relay and WebDAV response bodies, and the calls to the model and lookup services. Their outcomes are inputs: `Fetched`, `planner`, `model`, `lookup`. The streamed relay response and its 502 on a network error are not modelled.
- `doWithTimeout` and the 30-second timeouts. A failed or timed-out planning call is `planner(call) == PlannerFailed`.
- Concurrency. The unsynchronised read-modify-write of the cursor and the KV counter is not modelled; calls are sequential.
- KV backend specifics: `initKV`, the Deno/Workers split and store exceptions. The store is an optional map; `getKV` and `setKV` never fail in the model.
- `Date.now()` and `Math.random()` are parameters: the clock reading `nowMs`, a draw `roll` in [0, 1), and the start-up suffix of the default password.
- DemoLimit.Step: the count is a `real`, so ten charges of 0.1 make exactly 1. JavaScript doubles drift instead.
- Strings.Lower and Strings.Upper map ASCII letters only. `toLowerCase`/`toUpperCase` also map other scripts.
- Lengths and slices count Unicode scalar values, where JavaScript counts UTF-16 code units. This affects `Summarize.Truncate` and `CredentialGate.Classify` for texts outside the Basic Multilingual Plane.
- Strings.ReplaceFirst does not interpret `$` patterns in the replacement text. The relay's replacement is a pool key.
- JSON: `JSON.parse` is the `parse` parameter. A request body that is not JSON makes `/search` (worker.js:351) and `/summarize` (worker.js:559) throw; this is not modelled, and the routes start from the parsed fields. Bodies whose `query`, `question` or `answer` are not strings are not modelled. A `search_queries` that is not an array of strings is not modelled.
- The Tavily payload (`include_answer`, `auto_parameters`, the `exclude_domains` list) is not modelled. The prompts, the page, icon, manifest and `/whoami` bodies are templated content; only which route serves them is modelled.
- Response framing (`createErrorResponse`'s JSON and timestamp, content types, cache headers) is not modelled. Replies carry the status and the message.
- Gateway.RelayUsesPoolKey: does not promise that the password is gone from the target, because as written it stays whenever the first occurrence of the text `key=<password>` in the serialized query is not the `key` parameter's own value (another name ending in `key`, such as `xkey=<password>` before it, or a second `key` parameter after the one the gate read; `Relay.ShadowedKeyLeaks`), or whenever the `key` value differs from the password it is read as, by white space around it or a leading `Bearer ` (`?key=%20<pw>` is read as `<pw>` but written `key=+<pw>`; `Relay.PaddedPasswordLeaks`), or whenever form encoding changes the password, that is when it holds any character other than ASCII letters, digits and `*-._` (a space, `@`, `/`, `+`, non-ASCII; see Findings); the corrected relay, `Gateway.CorrectedRelayDecision`, is the one whose target never carries it (`Gateway.CorrectedRelayHidesPassword`).
- Relay.GeminiChatRewrite and Relay.GeminiModelsRewrite assume a base that does not already contain `/v1/chat` or `/v1/models`.
- Relay.ReplaceApiUrl: its contract covers the unchanged cases; the Gemini case is stated by `Relay.RewriteSteps` and the two rewrite lemmas.
- The WebDAV route is modelled as its parts (`PlanRequest`, `Respond`), not as one handler over a fetch.
- src/deploy.js is a build script and is not part of this model.

## Findings

| source | as written | input that shows it | evidently intended | confidence | as-written member | corrected member |
|---|---|---|---|---|---|---|
| worker.js:804-808 | the password is replaced in the serialized query text, searching for `key=<password>` with the password unencoded | shared password `open sesame`, request `/v1/models?key=open%20sesame`: the gate resolves a pool key, but the query is `key=open+sesame`, the search text never matches, and the password goes to the upstream; likewise any password holding a character the encoder rewrites, `?key=%20<pw>` (or `?key=Bearer%20<pw>`), which the gate trims (or strips) to the password while the query keeps `key=+<pw>`, and `?xkey=<pw>&key=<pw>`, where the pool key replaces the `xkey` value instead | every `key` parameter carrying the password is given the resolved pool key | not executed | Relay.SpacedPasswordLeaks, Relay.PaddedPasswordLeaks, Relay.ShadowedKeyLeaks, Gateway.RelayLeaksSpacedPassword | Relay.CorrectedHidesPassword, Gateway.CorrectedRelayHidesPassword |
