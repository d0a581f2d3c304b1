# labs.srirams.me request router — a Dafny model

The router sits in front of `labs.srirams.me` and maps a path prefix such as
`/aic` to the upstream deployment that serves that project. It exists in two
forms, and both are modelled here:

- `functions/_middleware.js` is a Cloudflare Pages middleware. Its routing
  table is rebuilt from a remote project list and cached for five minutes.
  On a match it forwards the request and injects a `<base href>` tag into
  HTML responses. On no match it falls through to the static site.
- `worker.js` is a standalone Worker. It uses a fixed two-entry table and
  adds a CORS header to forwarded responses. On no match it answers 404
  with a JSON body.

Modules, one per concern:

- `Wrappers` holds `Option`.
- `JsStrings` models the JavaScript string operations the code uses:
  `indexOf`, `includes`, and `replace` with a string pattern, including the
  `$` substitution patterns.
- `RouteTables` models a plain JavaScript object used as a table: keys in
  insertion order, each key once. Assigning to a key that is already present
  overwrites its value and keeps its position.
- `Http` holds request, response and header values. Header names are
  case-insensitive.
- `Routing` holds the match rule, first-match dispatch, path stripping and
  the forwarded request. Both files share this code.
- `RouteCache` models `getRoutes`:
  - the `Cache` class, with the two module-level variables as fields;
  - a pure transition function `Step` that `GetRoutes` is proved against;
  - the build loop `BuildRoutes`, proved against the fold `Build`.
- `Middleware` models `onRequest`. `OnRequest` covers the path up to the
  upstream fetch; `Respond` covers the path after it.
- `Worker` models the Worker's `fetch`. `Route` decides; `Finish` builds the
  response.

## How the model reads the source

- **Inputs instead of effects.** The clock (`now`) is a parameter. So is the
  result of fetching and parsing the project list (`FetchOutcome`). Each
  handler is cut at its upstream `fetch`: a decision (forward a request, or
  fall through / 404) and a function of the upstream response.
  "No upstream fetch" means the decision holds no outbound request.
- **What counts as an exception.** A JSON `null` element makes
  `project.labUrl` throw. A non-iterable document makes `for...of` throw. The
  `catch` handles both, as it handles network and JSON errors. In every such
  case both cache variables stay as they were (`RouteCache.Step`).
- **Order of the table.** Dispatch follows `Object.entries` order: the first
  entry that matches wins. There is no longest-prefix tie-break. There are no
  redirect-class routes, no `isProxied` flag and no 302 response.
- **Leaving the upstream host.** A path like `/aic//evil.com/x` is forwarded
  with the target path `//evil.com/x`. Under section 4.2 of RFC 3986 that is
  a network-path reference, which section 5.2.2 resolves to a host of its
  own. `Routing.NetworkPathReference` states when this happens: exactly when
  the request path continues the prefix with `//`. URL resolution itself is
  not modelled, so the model does not claim the upstream host is preserved.
  When URL parsing of the text after `//` fails (no valid host, as in
  `/aic//`, or a port out of range), `new URL` throws instead; "## Left out" records that the model still forwards.

## Model

| member | source | states |
|---|---|---|
| `JsStrings.IndexOf` | functions/_middleware.js:91-94 | the result is the first index where the pattern occurs, and None exactly when it occurs nowhere |
| `JsStrings.Includes` | functions/_middleware.js:84 | true exactly when the pattern occurs somewhere in the string |
| `JsStrings.Substitute` | functions/_middleware.js:92 | the `$` substitution patterns of `replace` with a string pattern; see `SubstituteLiteral` |
| `JsStrings.ReplaceFirst` | functions/_middleware.js:92-94 | `replace` with a string pattern; see `ReplaceFirstLiteral` |
| `JsStrings.SubstituteLiteral` | functions/_middleware.js:92 | a `replace` replacement string without `$` is inserted literally |
| `JsStrings.ReplaceFirstLiteral` | functions/_middleware.js:92-94 | without `$`, `replace` swaps only the first occurrence and keeps the text around it |
| `RouteTables.Keys` | worker.js:54 | `Object.keys` lists every entry's key, in table order |
| `RouteTables.Lookup` | functions/_middleware.js:38 | a key has a value exactly when it is among the keys, and that value is stored under it |
| `RouteTables.Assign` | functions/_middleware.js:38 | assigning keeps an existing key's position, or appends a new key; the key now maps to the new value, every other key is unchanged, and keys stay unique |
| `Http.SetHeader` | worker.js:44 | after `headers.set`, the name (in any case) gives the new value and every other header is unchanged; names stay lower-cased |
| `Routing.Matches` | functions/_middleware.js:63 | the match rule; see `FirstMatch`, `TargetPath` and `OtherKeysNeverMatch` |
| `Routing.FirstMatch` | worker.js:20-21 | returns the first entry in table order that matches (equal to the prefix, or continuing it with `/`), or None when no entry matches |
| `Routing.FirstMatchUnique` | functions/_middleware.js:62-63 | any two searches meeting the first-match specification find the same entry |
| `Http.GetHeader` | functions/_middleware.js:83 | `headers.get(name)`, case-insensitive on the name; see `SetHeader` and `Middleware.IsHtml` |
| `Routing.MatchedEntry` | functions/_middleware.js:62-63 | the entry found is None exactly when no entry matches, and otherwise the entry at the first match |
| `Routing.OtherKeysNeverMatch` | functions/_middleware.js:62-63 | for a request path, which begins with `/`, dispatch finds the same entry as it would over the keys that are empty or begin with `/`, kept in table order |
| `Routing.TargetPath` | functions/_middleware.js:65 | the target path is non-empty and begins with `/`; it is `/` for an exact match, and otherwise the prefix followed by it gives back the request path |
| `Routing.NetworkPathReference` | functions/_middleware.js:65-66 | the target path starts with `//` exactly when the request path continues the prefix with `//` |
| `Routing.NetworkPathExample` | worker.js:23-24 | `/aic//evil.com/x` under `/aic` is forwarded with the path `//evil.com/x` |
| `Routing.ForwardRequest` | functions/_middleware.js:66-77 | the forwarded request carries the route's upstream, the stripped path and the original query string; it keeps the method, headers and body, and its redirect mode is manual |
| `Routing.TargetPathInjective` | functions/_middleware.js:65 | two matching paths get the same target path exactly when they are equal, or are the prefix and the prefix followed by `/` |
| `Routing.ForwardRequestInjective` | functions/_middleware.js:65-77 | two matching requests are forwarded identically exactly when they are equal, or differ only by the paths `route` and `route/` |
| `RouteCache.Dedup` | functions/_middleware.js:38 | the reference order of keys keeps every key once and loses none |
| `RouteCache.AddItem` | functions/_middleware.js:37-38 | one pass of the loop body: a `null` project throws, a project with truthy `labUrl` and `pagesWorkerUrl` is assigned, any other is skipped; see `BuildFailsIffNullish`, `BuildTable` and `BuildKeysAreLabUrls` |
| `RouteCache.Build` | functions/_middleware.js:35-40 | the table the build loop yields, or None when it throws; see `BuildFailureSticks`, `BuildFailsIffNullish`, `BuildTable`, `BuildKeysAreLabUrls` and `BuildRoutes` |
| `RouteCache.BuildFailureSticks` | functions/_middleware.js:36-40 | once reading a project throws, the whole build throws |
| `RouteCache.BuildFailsIffNullish` | functions/_middleware.js:36-37 | the build throws exactly when the project array holds a `null` |
| `RouteCache.BuildTable` | functions/_middleware.js:35-40 | a completed build has unique keys, in the order each `labUrl` first appears; each key holds the `pagesWorkerUrl` of the last project that named it |
| `RouteCache.BuildKeysAreLabUrls` | functions/_middleware.js:37-38 | a key is in the built table exactly when some project with truthy `labUrl` and `pagesWorkerUrl` names it |
| `RouteCache.BuildRoutes` | functions/_middleware.js:35-40 | the loop yields the table that `Build` specifies, or None when the loop throws |
| `RouteCache.Refreshed` | functions/_middleware.js:22-50 | what the `try` block yields: the built table, or a failure when the response is not ok or anything throws; see `Step`, `FailureKeepsState` and `SuccessReplacesState` |
| `RouteCache.IsFresh` | functions/_middleware.js:18 | the cache is served when it is set and younger than `CACHE_DURATION`; see `Step`, `FreshHitServesCache`, `RefreshThenExpire` and `FailureRetries` |
| `RouteCache.Step` | functions/_middleware.js:14-51 | a fetch happens exactly when the cache is not fresh; the state is either unchanged or, after a complete build, set to that table with timestamp `now`; unique keys are kept |
| `RouteCache.FreshHitServesCache` | functions/_middleware.js:18-20 | a fresh cache is returned without a fetch, whatever the fetch would give, and the state is unchanged |
| `RouteCache.FailureKeepsState` | functions/_middleware.js:26-29 | a failed refresh returns the old table, or `{}` when there is none, and leaves both variables unchanged |
| `RouteCache.SuccessReplacesState` | functions/_middleware.js:42-46 | a successful refresh sets the cache to the built table and the timestamp to `now`, and returns that table |
| `RouteCache.RefreshThenExpire` | functions/_middleware.js:12-20 | after a refresh at `t0`, a call before `t0 + CACHE_DURATION` returns the same table without fetching; any call from then on fetches |
| `RouteCache.FailureRetries` | functions/_middleware.js:47-50 | after a failed refresh, every later call fetches again |
| `RouteCache.Cache.constructor` | functions/_middleware.js:10-11 | the cache starts as `null` with timestamp 0 |
| `RouteCache.Cache.GetRoutes` | functions/_middleware.js:14-51 | the new fields, the returned table and whether a fetch happened are exactly what `Step` gives for the old fields; unique keys are kept |
| `Middleware.Dispatch` | functions/_middleware.js:62-63 | the loop returns the first matching entry in table order, or None when none matches |
| `Middleware.OnRequest` | functions/_middleware.js:53-114 | the cache moves as `Step` says; the request falls through exactly when no route matches, and otherwise it is forwarded to the first matching route |
| `Middleware.InsertionPoint` | functions/_middleware.js:91-98 | the insertion point is just past the first `<head>`, else just past the first `<HEAD>`, else 0 |
| `Middleware.BaseTag` | functions/_middleware.js:88 | the `<base href="…">` template; see `BaseTagLiteral`, `InjectSplit` and `InjectReversible` |
| `Middleware.BaseTagLiteral` | functions/_middleware.js:88 | the base tag holds no `$` when the target holds none |
| `Middleware.InsertAfterFirst` | functions/_middleware.js:92 | `html.replace(pat, pat + tag)` puts the tag just past the first `pat` |
| `Middleware.InjectBaseTag` | functions/_middleware.js:88-98 | the base-tag rewrite of an HTML body; see `InsertionPoint`, `InjectSplit` and `InjectReversible` |
| `Middleware.InjectSplit` | functions/_middleware.js:88-98 | the rewritten HTML is the original with the base tag inserted once, at the insertion point |
| `Middleware.InjectReversible` | functions/_middleware.js:88-98 | deleting the inserted base tag gives back the original document |
| `Middleware.IsHtml` | functions/_middleware.js:83-84 | a response is HTML when its `content-type`, or `""` when absent, contains `text/html`; see `Respond` |
| `Middleware.Respond` | functions/_middleware.js:83-108 | `new Response` throws exactly when the response is HTML and its status is a null body status; otherwise status, status text and headers are kept, a non-HTML response is returned as it is, and an HTML body gets the base tag at the insertion point |
| `Worker.RoutesKeys` | worker.js:12-17 | the table's keys are `/timecapsule` then `/aic` |
| `Worker.RoutesExclusive` | worker.js:12-21 | no path matches both prefixes |
| `Worker.EscapeChar` | worker.js:52 | how `JSON.stringify` writes one character of a string; see `EscapePlain` |
| `Worker.Escape` | worker.js:52 | how `JSON.stringify` writes the characters of a string; see `EscapePlain` |
| `Worker.JsonString` | worker.js:52-56 | a string written by `JSON.stringify`, in double quotes; see `NotFoundBodyLists` |
| `Worker.JsonStrings` | worker.js:54 | an array of strings written by `JSON.stringify`; see `NotFoundBodyLists` |
| `Worker.Stringify` | worker.js:52-56 | `JSON.stringify` of the 404 object, with its three fields in order; see `EscapePlain` and `NotFoundBodyLists` |
| `Worker.EscapePlain` | worker.js:52 | `JSON.stringify` writes a string that needs no escaping as itself |
| `Worker.NotFoundResponse` | worker.js:51-63 | the 404 response has status 404 and `Content-Type: application/json`, with names lower-cased |
| `Worker.NotFoundBodyLists` | worker.js:52-56 | the 404 body serialises the fixed error, the table keys in order, and the fixed message |
| `Worker.Route` | worker.js:19-51 | answers 404 exactly when no entry matches, so no upstream request is made then; otherwise forwards to the first matching entry |
| `Worker.Finish` | worker.js:40-46 | the upstream status, status text and body are kept; `Access-Control-Allow-Origin` is `*`; every other header is as the upstream sent it; lower-cased names stay lower-cased |

## Left out

- Network calls are not modelled. The project-list fetch at `functions/_middleware.js:24` is the `FetchOutcome` input. The upstream fetches at `functions/_middleware.js:80` and `worker.js:38` are the points where the handlers are cut. An upstream fetch that throws propagates uncaught in the source; the model has no step for it.
- `Date.now()` is the `now` parameter.
- `response.json()` is not modelled. The parsed document is given as items. A `labUrl` or `pagesWorkerUrl` that is a JSON number, boolean, array or object is not modelled; only strings and absent fields are.
- Parsing of `request.url` is not modelled: the request carries its `pathname` and `search`. `new URL(targetPath, target)` is kept as the triple `TargetUrl(base, path, search)`, because WHATWG URL resolution is not modelled. Percent-encoding done by the `search` setter is not modelled either; it does not change an already-serialised query.
- `Object.entries` lists keys that are array indices (such as `"7"`) first, in ascending numeric order. Assigning a string to the key `__proto__` has no effect. The model treats every key as an ordinary key in insertion order. Dispatch is unaffected: a URL pathname always begins with `/`, so such keys never match it, and `Routing.OtherKeysNeverMatch` shows that dispatch depends only on the keys that are empty or begin with `/`, whose relative order JavaScript keeps.
- `RouteCache.BuildTable`: the key order it states is the order `Object.entries` gives only when no `labUrl` is an array index such as `"7"` and none is `__proto__`.
- `RouteCache.BuildKeysAreLabUrls`: the membership it states holds in JavaScript only when no `labUrl` is `__proto__`, which never becomes an own key.
- `Middleware.Respond`: the status range check of `new Response` (a RangeError outside 200 to 599) is not modelled. An upstream response with a null body status is taken to carry a null body, so returning it as it is never throws.
- `Middleware.Respond`: the body is described only for targets without `$`. With a `$` in the target the model still computes the `replace` substitution patterns, but no lemma states the resulting body.
- `Routing.ForwardRequest`: `new URL(targetPath, target)` is taken to succeed, because URL parsing is not modelled. It throws a TypeError whenever WHATWG URL parsing fails, and the model builds the request anyway. Examples on the upstream side: a `pagesWorkerUrl` that is not an absolute URL, or one with an opaque path such as `mailto:a` or `data:,x`. Examples on the path side: a target path that starts with `//` (exactly the paths `Routing.NetworkPathReference` describes) with no valid host after it, as in `/aic//`, `/aic//:1/x` or `/aic//[/x`, or with a port out of range, as in `/aic//evil.com:70000/x`.
- `Middleware.OnRequest`: a request whose `new URL` throws, in either case of the `Routing.ForwardRequest` line, ends onRequest with an uncaught TypeError. The model returns `Forward` for it.
- `Worker.Route`: the two targets are fixed, valid origins. A request path that continues a prefix with `//` followed by text that does not parse as a host and port (`/aic//`, `/aic//[/x`, `/aic//evil.com:70000/x`) still makes `new URL` at `worker.js:24` throw an uncaught TypeError. The model returns `Forward` for it.
- `Worker.Finish`: the status range check of `new Response(response.body, response)` is not modelled, and an upstream response with a null body status is taken to carry a null body.
- `Worker.NotFoundBodyLists`: the body is stated as the serialisation of the 404 object, not as literal text.
- `Worker.Stringify` covers only the shape of the 404 object, not `JSON.stringify` in general.
- Request and response bodies are strings. Streaming, `response.text()` decoding and content-length handling are not modelled.
- A header list is a single-valued map keyed by the lower-cased name. `Http.LowerKeys` states that every name is lower-cased; `SetHeader`, `Worker.NotFoundResponse` and `Worker.Finish` keep it, but the `Headers` type does not enforce it. Repeated headers, which `headers.get` joins with `, `, are not modelled.
- Strings are sequences of Unicode characters, not UTF-16 code units. Request paths come from URL parsing and are ASCII, so the two agree there.
- `console.error` logging, `context.next()` (the `Next` decision), the Cloudflare export wrapper, and `Request`/`Response` fields other than those above are not modelled.
- Concurrent requests sharing the module-level cache are not modelled. The model has one sequential caller.
