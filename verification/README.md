# Vime network utilities, modelled in Dafny

This project models the URL, query-string and SDK-loading helpers of the
Vime player's `utils/network.js`:

- `parseQueryString`: the global regular expression `exec` loop. Repeated names merge into arrays.
- `serializeQueryString`.
- `appendQueryStringToURL` and `appendParamsToURL`.
- `decodeQueryString`.
- `tryDecodeURIComponent`.
- `loadSDK`: the `getGlobal` lookup and the module-level `pendingSDKRequests` table.

Modules:

- `Common`, `UriComponent` (`common.dfy`).
  - `Codec` is a value that carries `encodeURIComponent`, a partial `decodeURIComponent` and the `IS_CLIENT` flag.
  - Every query-string property is proved for all codecs, or for every codec that meets a stated condition.
- `QueryScan` (`query_scan.dfy`): the regular expression `(?:^[#?]?|&)([^=&]+)(?:=([^&]*))?` with the `g` flag.
  - `MatchAt` is one attempt at a position, including the backtracking of `[#?]?` at the start.
  - `Exec` is the leftmost match from `lastIndex`.
  - `Matches` is the whole `while (match = re.exec(qs))` loop.
- `QueryString` (`query_string.dfy`): the JavaScript object as `Params`, an insertion-ordered key list plus a map.
  - `ParseQueryString` and `SerializeQueryString` are methods with the loops of the JavaScript functions. Each is proved equal to a reference function (`ParseSpec`, `SerializeSpec`).
  - URL splicing and `decodeQueryString` are also here.
- `QueryProperties` (`query_properties.dfy`): what the parse merge and serialization promise, per key and on examples, plus the cases of URL splicing.
- `QueryRoundTrip` (`query_round_trip.dfy`): parsing what serializing produces gives the object back, keys in order. It needs a codec whose output avoids `&`, `=`, `+`, `#` and `?` and decodes back, and an object whose names are non-empty and free of `[]`, and whose arrays have two or more elements with a non-empty first one. `EmptyNameIsLost` shows why names must be non-empty, and `SingleElementArrayComesBackScalar` shows why arrays need at least two elements; the other two conditions have no such lemma.
- `SdkLoader` (`sdk_loader.dfy`):
  - `getGlobal`, and JavaScript values with truthiness;
  - the `Loader` class, holding `window`, the pending table, the `loadScriptFn` calls, the settlement of every promise handed out, and the calls made to foreign handlers.
  - The asynchronous callbacks are methods the environment calls: the script load event, the script error event, and the SDK calling its ready variable.
  - `Loader.Valid` is the invariant every event method keeps (`LoadSDK`, the load and error callbacks, and calls of `window` values). Every unsettled promise waits in a table entry whose script has been requested; after a success, that script may already have loaded and nothing will settle the promise (`SdkScenarios.StaleEntryAfterSuccess`).
- `SdkScenarios` (`sdk_scenarios.dfy`): event sequences on a fresh loader:
  - `n` concurrent requests;
  - a failed load that is retried;
  - a success that leaves its entry behind;
  - a ready handler that was installed before the loader's.

The pending table entry for a URL is deleted only on a script error: the success callback (`network.js` lines 176-178) resolves the waiting requests and keeps the entry, and only the error callback (lines 191-193) deletes it. So after a success, a request whose `isLoaded` check fails joins the old entry: no script is requested for it and nothing resolves it (`SdkScenarios.StaleEntryAfterSuccess`).

## Model

| member | source | states |
|---|---|---|
| UriComponent.TryDecode | wp-content/plugins/oxyextras/components/assets/vime/@vime/core/dist/collection/utils/network.js:62-71 | the result is the fallback outside a browser or when decoding fails, and the decoded text otherwise |
| QueryScan.NameEnd | wp-content/plugins/oxyextras/components/assets/vime/@vime/core/dist/collection/utils/network.js:77 | `([^=&]+)` is greedy: the name runs over name characters and stops at `=`, `&` or the end |
| QueryScan.ValueEnd | wp-content/plugins/oxyextras/components/assets/vime/@vime/core/dist/collection/utils/network.js:77 | `([^&]*)` is greedy: the value stops at `&` or the end |
| QueryScan.MatchTail | wp-content/plugins/oxyextras/components/assets/vime/@vime/core/dist/collection/utils/network.js:77 | the name is the longest run of name characters and is non-empty; a value is captured exactly when `=` follows, and runs to the next `&` |
| QueryScan.MatchAt | wp-content/plugins/oxyextras/components/assets/vime/@vime/core/dist/collection/utils/network.js:77 | a match starts at position p exactly when p is 0 and a name character begins the string, or `&` and then a name character are at p |
| QueryScan.Exec | wp-content/plugins/oxyextras/components/assets/vime/@vime/core/dist/collection/utils/network.js:77-84 | `exec` returns the leftmost match at or after `lastIndex`; no position before it matches, and none at all when it returns null |
| QueryScan.Matches | wp-content/plugins/oxyextras/components/assets/vime/@vime/core/dist/collection/utils/network.js:84 | the `while ((match = re.exec(qs)))` loop yields nothing exactly when the first `exec` fails, starts with that leftmost match, and, since every match consumes at least one character, yields at most as many matches as there are characters left |
| QueryScan.MatchTailOfPart | wp-content/plugins/oxyextras/components/assets/vime/@vime/core/dist/collection/utils/network.js:77 | a run of name characters, `=`, then a run without `&` that ends at `&` or the end: the name and value groups capture exactly those two runs and the match ends where the value does |
| QueryScan.ExecPart | wp-content/plugins/oxyextras/components/assets/vime/@vime/core/dist/collection/utils/network.js:77-84 | a `name=value` part introduced by `&` (or by a leading `#`/`?`) is the match `exec` returns from the separator's position |
| QueryScan.MatchesShape | wp-content/plugins/oxyextras/components/assets/vime/@vime/core/dist/collection/utils/network.js:77-84 | every match of the loop has a non-empty name without `=` or `&`, and a value without `&` |
| QueryScan.LeadingMarkConsumed | wp-content/plugins/oxyextras/components/assets/vime/@vime/core/dist/collection/utils/network.js:77 | a leading `#` or `?` followed by a name character is not part of the first name |
| QueryScan.LoneMarkIsAName | wp-content/plugins/oxyextras/components/assets/vime/@vime/core/dist/collection/utils/network.js:77 | `?=x` yields the name `?` with the value `x`, because `[#?]?` backtracks |
| QueryScan.LeadingEqualsSkipped | wp-content/plugins/oxyextras/components/assets/vime/@vime/core/dist/collection/utils/network.js:77-84 | in `=x&a=1` the text before the first `&` is skipped; only `a=1` is found |
| QueryString.PutPut | wp-content/plugins/oxyextras/components/assets/vime/@vime/core/dist/collection/utils/network.js:90-92 | assigning a property twice equals assigning the second value, and the key keeps its first position |
| QueryString.PutKeepsValid | wp-content/plugins/oxyextras/components/assets/vime/@vime/core/dist/collection/utils/network.js:79-92 | property assignment keeps the key list duplicate-free and in step with the map |
| QueryString.RemoveFirstBracketsUnchanged | wp-content/plugins/oxyextras/components/assets/vime/@vime/core/dist/collection/utils/network.js:85 | `replace('[]', '')` leaves a name without `[]` unchanged |
| QueryString.RemoveFirstBracketsAt | wp-content/plugins/oxyextras/components/assets/vime/@vime/core/dist/collection/utils/network.js:85 | `replace('[]', '')` removes only the first `[]` and keeps the text before and after it |
| QueryString.PlusToSpace | wp-content/plugins/oxyextras/components/assets/vime/@vime/core/dist/collection/utils/network.js:87 | each `+` of the value becomes a space and every other character is kept in place, so no `+` is left and the length is kept |
| QueryString.DecodeMatch | wp-content/plugins/oxyextras/components/assets/vime/@vime/core/dist/collection/utils/network.js:85-88 | the name is decoded when that succeeds in a browser and kept raw otherwise, and only then loses its first `[]`; the value has `+` read as a space and is decoded when that succeeds in a browser, and is otherwise the raw text; a name with no `=` gets `""` |
| QueryString.RemoveFirstBrackets | wp-content/plugins/oxyextras/components/assets/vime/@vime/core/dist/collection/utils/network.js:85 | `replace('[]', '')` either removes exactly two characters or returns the name as it is |
| QueryString.WrapThenPush | wp-content/plugins/oxyextras/components/assets/vime/@vime/core/dist/collection/utils/network.js:89-92 | wrapping a truthy scalar in an array and then pushing the new value gives the two-element array `[old, new]`, which is what a merge step does |
| QueryString.Step | wp-content/plugins/oxyextras/components/assets/vime/@vime/core/dist/collection/utils/network.js:89-92 | a name holding nothing or `""` is set to the value; a non-empty string becomes the array `[old, value]`; an array gets the value pushed; no other name changes, and a new name goes to the end of the key order |
| QueryString.StepKeepsShape | wp-content/plugins/oxyextras/components/assets/vime/@vime/core/dist/collection/utils/network.js:89-92 | one merge step keeps every property a string, or an array of at least two strings |
| QueryString.AccumulateKeepsShape | wp-content/plugins/oxyextras/components/assets/vime/@vime/core/dist/collection/utils/network.js:84-93 | the merge loop keeps that shape |
| QueryString.ParseSpec | wp-content/plugins/oxyextras/components/assets/vime/@vime/core/dist/collection/utils/network.js:78-95 | undefined input gives an empty object; every result has the parsed shape |
| QueryString.ParseQueryString | wp-content/plugins/oxyextras/components/assets/vime/@vime/core/dist/collection/utils/network.js:78-95 | the `exec` loop, with its in-place wrap and push, computes `ParseSpec`, the decoded matches merged from left to right |
| QueryString.ItemPairs | wp-content/plugins/oxyextras/components/assets/vime/@vime/core/dist/collection/utils/network.js:109 | an array value emits one pair per element, in array order |
| QueryString.FormatAllAppend | wp-content/plugins/oxyextras/components/assets/vime/@vime/core/dist/collection/utils/network.js:101-103 | formatting pairs distributes over concatenation |
| QueryString.PushEach | wp-content/plugins/oxyextras/components/assets/vime/@vime/core/dist/collection/utils/network.js:109 | the inner `forEach` appends one `encode(name)=encode(v)` part per element to the parts so far |
| QueryString.SerializeQueryString | wp-content/plugins/oxyextras/components/assets/vime/@vime/core/dist/collection/utils/network.js:99-116 | the outer loop computes `SerializeSpec`: the encoded pairs of every key, in key order, joined by `&` |
| QueryString.BeforeMark | wp-content/plugins/oxyextras/components/assets/vime/@vime/core/dist/collection/utils/network.js:138 | the first piece of `split('?')` is a `?`-free prefix that ends at the first `?` |
| QueryString.SplitAtMark | wp-content/plugins/oxyextras/components/assets/vime/@vime/core/dist/collection/utils/network.js:138 | `split('?', 2)` has a second piece exactly when the URL holds a `?`; the pieces and the mark between them form a prefix of the URL |
| QueryString.AppendQueryStringToURL | wp-content/plugins/oxyextras/components/assets/vime/@vime/core/dist/collection/utils/network.js:135-141 | an undefined or empty query string leaves the URL unchanged; otherwise the result ends with the query string |
| QueryString.AppendParamsToURL | wp-content/plugins/oxyextras/components/assets/vime/@vime/core/dist/collection/utils/network.js:145 | an object is serialized before it is appended, and one that emits no pairs leaves the URL unchanged; a string (or `undefined`) is passed to `appendQueryStringToURL` as it is |
| QueryString.DecodeQueryString | wp-content/plugins/oxyextras/components/assets/vime/@vime/core/dist/collection/utils/network.js:149-153 | a non-string gives undefined; a string gives what `parseQueryString` gives |
| QueryProperties.AccumulateIntoArray | wp-content/plugins/oxyextras/components/assets/vime/@vime/core/dist/collection/utils/network.js:90-92 | once a name holds an array, further values for it are appended in order |
| QueryProperties.RepeatedNameCollects | wp-content/plugins/oxyextras/components/assets/vime/@vime/core/dist/collection/utils/network.js:89-92 | two or more values for a new name, the first non-empty, collect into an array in order of appearance |
| QueryProperties.EmptyValueIsOverwritten | wp-content/plugins/oxyextras/components/assets/vime/@vime/core/dist/collection/utils/network.js:89-92 | a stored `""` is falsy, so the next value replaces it instead of starting an array |
| QueryProperties.StepOther | wp-content/plugins/oxyextras/components/assets/vime/@vime/core/dist/collection/utils/network.js:89-92 | one loop iteration changes only the property it names |
| QueryProperties.AccumulateOnlyNamed | wp-content/plugins/oxyextras/components/assets/vime/@vime/core/dist/collection/utils/network.js:84-92 | the value a name ends up with depends only on the pairs carrying that name, in order; other names in between do not affect it |
| QueryProperties.RepeatedNameCollectsInterleaved | wp-content/plugins/oxyextras/components/assets/vime/@vime/core/dist/collection/utils/network.js:84-92 | a name absent (or `""`) at the start that occurs two or more times, its first value non-empty, collects all its values into an array in order of appearance, even with other names in between |
| QueryProperties.AccumulateIntoArrayInterleaved | wp-content/plugins/oxyextras/components/assets/vime/@vime/core/dist/collection/utils/network.js:90-92 | once a name holds an array, its later values are pushed in order, even with other names in between |
| QueryProperties.InterleavedExample | wp-content/plugins/oxyextras/components/assets/vime/@vime/core/dist/collection/utils/network.js:84-92 | merging the pairs `a=1`, `b=2`, `a=3` gives `a: ["1", "3"]` and `b: "2"` |
| QueryProperties.InterleavedParse | wp-content/plugins/oxyextras/components/assets/vime/@vime/core/dist/collection/utils/network.js:77-95 | `a=1&b=2&a=3` parses to `a: ["1", "3"]` and `b: "2"` |
| QueryProperties.EmptyThenValueExample | wp-content/plugins/oxyextras/components/assets/vime/@vime/core/dist/collection/utils/network.js:84-92 | `a&a=1` parses to `{ a: "1" }` |
| QueryProperties.ExampleMatches | wp-content/plugins/oxyextras/components/assets/vime/@vime/core/dist/collection/utils/network.js:77-84 | the matches of `?a=1&a=2&b=x` are `a=1`, `a=2` and `b=x` |
| QueryProperties.ParseExample | wp-content/plugins/oxyextras/components/assets/vime/@vime/core/dist/collection/utils/network.js:78-95 | `?a=1&a=2&b=x` parses to `{ a: ["1", "2"], b: "x" }` |
| QueryProperties.NamedPairsOf | wp-content/plugins/oxyextras/components/assets/vime/@vime/core/dist/collection/utils/network.js:104-114 | for distinct keys, the pairs emitted for one name are exactly that key's pairs, or none if the name is not a key |
| QueryProperties.EntriesForKey | wp-content/plugins/oxyextras/components/assets/vime/@vime/core/dist/collection/utils/network.js:104-114 | a null or undefined property emits nothing; an array emits one pair per element, in order; a scalar emits one pair |
| QueryProperties.SerializeEmpty | wp-content/plugins/oxyextras/components/assets/vime/@vime/core/dist/collection/utils/network.js:115 | an empty object serializes to `""`, with no leading `?` |
| QueryProperties.SerializeExample | wp-content/plugins/oxyextras/components/assets/vime/@vime/core/dist/collection/utils/network.js:99-116 | `{ a: ["1", "2"], b: "x" }` serializes to `a=1&a=2&b=x` |
| QueryProperties.SplitAtFirstMark | wp-content/plugins/oxyextras/components/assets/vime/@vime/core/dist/collection/utils/network.js:138 | `split('?', 2)` cuts at the first `?`, and its second piece ends at the next `?` |
| QueryProperties.AppendWithoutMark | wp-content/plugins/oxyextras/components/assets/vime/@vime/core/dist/collection/utils/network.js:138-140 | with no `?` in the URL, the result is `url + "?" + qs` |
| QueryProperties.AppendAfterQuery | wp-content/plugins/oxyextras/components/assets/vime/@vime/core/dist/collection/utils/network.js:138-140 | with one `?`, the query string is joined to the existing query with `&` |
| QueryProperties.AppendDropsAfterSecondMark | wp-content/plugins/oxyextras/components/assets/vime/@vime/core/dist/collection/utils/network.js:138-140 | anything after a second `?` is dropped |
| QueryProperties.AppendExample | wp-content/plugins/oxyextras/components/assets/vime/@vime/core/dist/collection/utils/network.js:135-145 | appending `w=2` to `http://x/y?z=1` gives `http://x/y?z=1&w=2` |
| QueryRoundTrip.MatchesOfWire | wp-content/plugins/oxyextras/components/assets/vime/@vime/core/dist/collection/utils/network.js:77-84 | the `exec` loop over `name=value` parts joined by `&` returns exactly those parts, in order |
| QueryRoundTrip.DecodeEncoded | wp-content/plugins/oxyextras/components/assets/vime/@vime/core/dist/collection/utils/network.js:85-88 | with an invertible codec, decoding the matches of encoded pairs gives the pairs back |
| QueryRoundTrip.AccumulateAppend | wp-content/plugins/oxyextras/components/assets/vime/@vime/core/dist/collection/utils/network.js:84-93 | merging a concatenation of pairs is merging one part after the other |
| QueryRoundTrip.AccumulateEntries | wp-content/plugins/oxyextras/components/assets/vime/@vime/core/dist/collection/utils/network.js:89-92 | merging every pair a canonical object emits rebuilds the object, key order included |
| QueryRoundTrip.ParseInvertsSerialize | wp-content/plugins/oxyextras/components/assets/vime/@vime/core/dist/collection/utils/network.js:78-116 | for non-empty, bracket-free keys, parsing the serialization merges exactly the emitted pairs |
| QueryRoundTrip.ParseSerializeRoundTrip | wp-content/plugins/oxyextras/components/assets/vime/@vime/core/dist/collection/utils/network.js:78-116 | `parseQueryString(serializeQueryString(p))` equals `p` for every canonical object |
| QueryRoundTrip.EmptyNameIsLost | wp-content/plugins/oxyextras/components/assets/vime/@vime/core/dist/collection/utils/network.js:77-102 | `{ "": v }` serializes to `=v`, which parses to an empty object |
| QueryRoundTrip.SingleElementArrayComesBackScalar | wp-content/plugins/oxyextras/components/assets/vime/@vime/core/dist/collection/utils/network.js:90-92 | a one-element array comes back as a scalar |
| SdkLoader.GetGlobal | wp-content/plugins/oxyextras/components/assets/vime/@vime/core/dist/collection/utils/network.js:156-165 | a defined `window[key]` wins; otherwise a truthy `window.exports[key]` is returned before `window.module.exports[key]` is looked at, and the latter is returned only when it is truthy and the former is not; the result is undefined exactly when no source supplies a value |
| SdkLoader.SettleAll | wp-content/plugins/oxyextras/components/assets/vime/@vime/core/dist/collection/utils/network.js:177 | settling a list of waiters keeps every promise already settled, with its outcome, and adds only promises from that list |
| SdkLoader.CallEffect | wp-content/plugins/oxyextras/components/assets/vime/@vime/core/dist/collection/utils/network.js:182-186 | calling a value that is not a function throws and changes nothing; a call only appends to the log of foreign calls |
| SdkLoader.WindowShadowsExports | wp-content/plugins/oxyextras/components/assets/vime/@vime/core/dist/collection/utils/network.js:157-158 | a `null` in `window` hides a loaded SDK in `exports` |
| SdkLoader.ExportsBeforeModuleExports | wp-content/plugins/oxyextras/components/assets/vime/@vime/core/dist/collection/utils/network.js:159-163 | when `window[key]` is missing and both `window.exports[key]` and `window.module.exports[key]` are truthy, the value from `window.exports` is returned |
| SdkLoader.SettleAllSpec | wp-content/plugins/oxyextras/components/assets/vime/@vime/core/dist/collection/utils/network.js:176-178 | settling an entry's waiters settles each pending one with the same outcome and leaves settled promises unchanged |
| SdkLoader.InstallReady | wp-content/plugins/oxyextras/components/assets/vime/@vime/core/dist/collection/utils/network.js:179-187 | with a ready variable, `window[sdkReadyVar]` becomes a wrapper closing over the URL, the global name and the old handler; nothing else changes |
| SdkLoader.CallEffectMonotone | wp-content/plugins/oxyextras/components/assets/vime/@vime/core/dist/collection/utils/network.js:179-187 | a call never changes a settled promise, settles only promises waiting in the table, and only appends to the call log |
| SdkLoader.WrapperCallsPreviousFirst | wp-content/plugins/oxyextras/components/assets/vime/@vime/core/dist/collection/utils/network.js:181-186 | the wrapper calls the handler it replaced before it resolves the URL's requests with the global |
| SdkLoader.NonFunctionPreviousThrows | wp-content/plugins/oxyextras/components/assets/vime/@vime/core/dist/collection/utils/network.js:182-183 | a replaced value that is defined but not a function makes the wrapper throw before anything is resolved |
| SdkLoader.Loader.constructor | wp-content/plugins/oxyextras/components/assets/vime/@vime/core/dist/collection/utils/network.js:154 | the table starts empty, and no script or promise exists yet |
| SdkLoader.Loader.SetGlobal | wp-content/plugins/oxyextras/components/assets/vime/@vime/core/dist/collection/utils/network.js:157-158 | another script assigning the global `window[key]` that `getGlobal` reads changes that one key and nothing else, and keeps the loader's invariant |
| SdkLoader.Loader.LoadSDK | wp-content/plugins/oxyextras/components/assets/vime/@vime/core/dist/collection/utils/network.js:155-196 | a loaded global resolves at once and touches nothing else; a request for a URL in the table joins its entry without a script; the first request creates the entry, installs the wrapper and requests one script |
| SdkLoader.Loader.SettleEach | wp-content/plugins/oxyextras/components/assets/vime/@vime/core/dist/collection/utils/network.js:177 | the `forEach` over an entry settles its waiters in order, as `SettleAll` states |
| SdkLoader.Loader.ScriptLoaded | wp-content/plugins/oxyextras/components/assets/vime/@vime/core/dist/collection/utils/network.js:188-190 | without a ready variable, the load event resolves every waiter with the current global and keeps the entry, or throws if the entry is gone; with one, it does nothing |
| SdkLoader.Loader.ScriptFailed | wp-content/plugins/oxyextras/components/assets/vime/@vime/core/dist/collection/utils/network.js:190-193 | the error event rejects every waiter with the same error and deletes the entry, or throws if the entry is gone |
| SdkLoader.Loader.Invoke | wp-content/plugins/oxyextras/components/assets/vime/@vime/core/dist/collection/utils/network.js:179-187 | calling a stored function has the effect `CallEffect` states and keeps the invariant |
| SdkLoader.Loader.CallGlobal | wp-content/plugins/oxyextras/components/assets/vime/@vime/core/dist/collection/utils/network.js:179-187 | the SDK calling `window[sdkReadyVar]()` runs whatever is stored there now |
| SdkScenarios.JoinPending | wp-content/plugins/oxyextras/components/assets/vime/@vime/core/dist/collection/utils/network.js:171-174 | a request for a URL already in the table, before the SDK defines its global, is appended to that entry; no script is requested and nothing else changes |
| SdkScenarios.QueueRequests | wp-content/plugins/oxyextras/components/assets/vime/@vime/core/dist/collection/utils/network.js:171-175 | n requests for one URL leave one entry, holding them in order, and one script request |
| SdkScenarios.SignalSuccess | wp-content/plugins/oxyextras/components/assets/vime/@vime/core/dist/collection/utils/network.js:176-190 | the load event, or the ready call, resolves every waiter with the global the SDK defined |
| SdkScenarios.ConcurrentLoads | wp-content/plugins/oxyextras/components/assets/vime/@vime/core/dist/collection/utils/network.js:171-190 | n concurrent requests for one URL lead to exactly one script request, and all n promises resolve with the same global |
| SdkScenarios.FailedLoadIsRetried | wp-content/plugins/oxyextras/components/assets/vime/@vime/core/dist/collection/utils/network.js:171-193 | a failure rejects all waiters with the same error; the next request calls `loadScriptFn` again |
| SdkScenarios.StaleEntryAfterSuccess | wp-content/plugins/oxyextras/components/assets/vime/@vime/core/dist/collection/utils/network.js:171-178 | after a success, a request whose `isLoaded` fails joins the kept entry, gets no script and stays pending |
| SdkScenarios.PreviousReadyHandlerRuns | wp-content/plugins/oxyextras/components/assets/vime/@vime/core/dist/collection/utils/network.js:179-187 | a handler installed earlier under the ready variable is still called, and the request then resolves |

## Left out

- Encoding:
  - Real percent-encoding is not modelled. `encodeURIComponent` and `decodeURIComponent` are fields of `Codec`, with failure as `None`. `encodeURIComponent` throwing on a lone surrogate is not modelled.
  - `IS_CLIENT` (`utils/support.js`) is the codec's `isClient` flag. `support.js` is not part of this model.
- Key order: `Object.keys` lists integer-like keys first, in ascending order, before the other keys. The model keeps plain insertion order for every key.
- Values:
  - Query values are strings. A number, boolean or `null` inside an array would be converted to text by `encodeURIComponent`; that conversion is not modelled.
  - Arrays are told apart from scalars by the `ParamValue` constructors.
  - `isObject` (`utils/unit.js`) is not part of this model. `ParamsArg` says whether `appendParamsToURL` got an object or a string.
- QueryString.ParseSpec: parsing takes `undefined` or a string. A `null` or other non-string argument would be converted to text by `exec`; that case is not modelled.
- QueryString.DecodeQueryString: every non-string argument is `None`.
- QueryString.AppendQueryStringToURL: the query string is `Option<string>`, with `None` for `undefined`. `appendQueryStringToURL(url, null)` throws when it reads `qs.length` (line 136); that `null` argument, and so that throw, is not modelled.
- Regular expression state: the regular expression's `lastIndex` is not global state. The loop starts at index 0, as it does in `parseQueryString` whenever the previous call ran the loop to the end.
- JavaScript values in `getGlobal`:
  - `window` is a map of JavaScript values, and objects are values whose properties can be read.
  - Properties of primitives read as `undefined`.
  - Properties of function values, and inherited (prototype) properties of `exports` or `module.exports` objects, also read as `undefined` in `Field`: only own properties of plain objects are modelled.
  - `NaN` is not a `Num`.
  - Prototype properties of `pendingSDKRequests` (a URL such as `constructor`) are not modelled.
- SdkLoader.Loader.LoadSDK:
  - `isLoaded` is a pure function of the global.
  - `loadScriptFn` only records its call. The load and error events are methods the environment calls, in any order and any number of times.
  - Foreign handlers are recorded when called; they neither throw nor change state.
- Promises: promises are numbers. Settling keeps the first outcome. Thenable adoption and microtask scheduling are not modelled.
- Other helpers: `loadImage`, `loadScript`, `preconnect`, `loadSprite`, `tryParseJSON`, `isObjOrJSON`, `objOrParseJSON` and `decodeJSON` are DOM, `fetch` and `JSON.parse` glue, and are not modelled.
