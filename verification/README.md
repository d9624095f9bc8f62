# Request routing and settings reconciliation, modelled in Dafny

This project models the request-routing core of a browser media front-end and
the reconciliation logic of its settings page, and proves what they promise.

- **Round-robin endpoint selector** (`makeLoadbalancedList`): each of the three
  endpoint pools (generic proxies, provider-API proxies, M3U8 proxies) has its
  own selector with one mutable cursor. Every call re-reads the pool. A cursor
  that is still the sentinel `-1`, or that points past the end of the pool, is
  reset to a random index. The call then serves the endpoint under the cursor
  and moves the cursor on by one, modulo the pool length. Module
  `LoadBalancer` holds the cursor as a class field updated by a method, and a
  step function that specifies it. Module `Fetchers` holds the three
  independent selectors together with the stored API token.
- **Enabled-set filter** (`getEnabledM3U8ProxyUrls`): narrows the M3U8 pool by
  a persisted map from stringified index to boolean. It fails open (module
  `EnabledProxies`).
- **Token-augmented transport** (`fetchButWithApiTokens`): attaches the stored
  token as `X-Token` and stores a refreshed token from the response (module
  `ApiTokens`; the state-changing method is in `Fetchers`).
- **Extension fetcher** (`makeExtensionFetcher`, `makeFinalHeaders`): checks the
  envelope sent back by the browser extension. It narrows the response headers
  to the ones the caller asked to read, ignoring case (module
  `ExtensionFetcher`).
- **Settings page** (module `Settings`): merges the saved source order with the
  current providers, removes empty proxy URLs, prefixes `https://` to a backend
  URL without a scheme, and decides whether the account settings are sent to
  the backend.

Modules `Wrappers`, `Seqs` and `Text` hold the shared pieces:
`undefined`/`null` as `Option`, `Array.prototype.filter` with its laws, and
`toLowerCase` / `toString` on indices.

**An empty pool breaks a selector permanently.** One would expect an empty
pool to return `undefined` and leave the cursor alone, so that the selector
recovers once the pool fills again. The code does something else. On an empty pool, line 22 sets the cursor
to `Math.floor(Math.random() * 0) = 0`, and line 25 then computes
`(0 + 1) % 0`, which is `NaN`. `NaN === -1` and `NaN >= n` are both false, so
the reset at line 21 never fires again. From then on every call returns
`undefined`, even after the pool has become non-empty again. The model follows
the code: the cursor is `At(i) | NaN`, `Step` states that an empty pool
poisons the cursor, and `PoisonedForever` proves that a poisoned selector
serves nothing on every later pool.

## Model

| member | source | states |
|---|---|---|
| `LoadBalancer.Step` | src/backend/providers/fetchers.ts:17-27 | A cursor inside the pool serves `pool[c]` and moves to `(c+1) % n`. A sentinel or stale cursor restarts at the random index. On a non-empty pool a live cursor serves a member of the pool and stays inside it. An empty pool, or a `NaN` cursor, serves `undefined` and leaves `NaN`. |
| `LoadBalancer.AdvanceWraps` | src/backend/providers/fetchers.ts:25 | Moving on from position `i < n` gives `i+1`, wrapping to 0 past the end. |
| `LoadBalancer.Run` | src/backend/providers/fetchers.ts:19-27 | Consecutive calls on one pool serve one value per call and keep the cursor well formed. |
| `LoadBalancer.RunOver` | src/backend/providers/fetchers.ts:19-27 | Consecutive calls on pools re-read at every call serve one value per call and keep the cursor well formed. |
| `LoadBalancer.RotationIsCyclic` | src/backend/providers/fetchers.ts:17-27 | Up to `n` calls on a fixed pool of size `n > 0` serve positions `(s+j) mod n` from the start `s`. The cursor ends just after the last position served. |
| `LoadBalancer.FullRotation` | src/backend/providers/fetchers.ts:17-27 | `n` calls on a fixed pool of size `n` serve every position exactly once, in cyclic order from the start, and bring the cursor back to the start. |
| `LoadBalancer.CallFor` | src/backend/providers/fetchers.ts:25 | For every position `k` there is a call `j < n` that serves it. |
| `LoadBalancer.ShrunkPoolRestarts` | src/backend/providers/fetchers.ts:21-25 | When the pool shrinks below the cursor, the next call restarts at the random index instead of failing. |
| `LoadBalancer.PoisonedForever` | src/backend/providers/fetchers.ts:21-25 | After a call on an empty pool, the selector serves `undefined` on every later call, whatever pool it is given. |
| `LoadBalancer.LoadbalancedList.constructor` | src/backend/providers/fetchers.ts:18 | A new selector starts with the cursor at the sentinel `-1`. |
| `LoadBalancer.LoadbalancedList.Next` | src/backend/providers/fetchers.ts:19-27 | One call returns the value `Step` gives and leaves the cursor `Step` gives, given the random start `0 <= rnd < n` (0 on an empty pool). |
| `Fetchers.ProviderFetchers.constructor` | src/backend/providers/fetchers.ts:30-32 | There are three distinct selectors, one per pool type, each at the sentinel. |
| `Fetchers.ProviderFetchers.NextProxyUrl` | src/backend/providers/fetchers.ts:83-92 | Each proxied fetch selects afresh from the generic pool. Only that pool's cursor moves. |
| `Fetchers.ProviderFetchers.NextProviderApiUrl` | src/backend/providers/fetchers.ts:31-32 | A provider-API selection moves only the provider-API cursor. |
| `Fetchers.ProviderFetchers.NextM3U8ProxyUrl` | src/backend/providers/fetchers.ts:51-53 | An M3U8 selection steps over the currently enabled pool. Only the M3U8 cursor moves. |
| `Fetchers.ProviderFetchers.SetupM3U8Proxy` | src/backend/providers/fetchers.ts:76-81 | The selected M3U8 proxy becomes the library's proxy only when it is a non-empty string. Otherwise the previous setting stays. |
| `Fetchers.ProviderFetchers.FetchButWithApiTokens` | src/backend/providers/fetchers.ts:55-74 | The options handed to `fetch` are `OutgoingInit` of the stored token. The stored token becomes `TokenAfter` of the response. The response is returned unchanged. |
| `EnabledProxies.EnabledM3U8ProxyUrls` | src/backend/providers/fetchers.ts:33-49 | Fails open: with no stored map, an empty one, or one that does not parse, the whole pool is returned. The result is never longer than the pool. |
| `EnabledProxies.KeepEnabled` | src/backend/providers/fetchers.ts:43-45 | The filter is never longer than the pool. When no position is disabled, in particular under an empty map, the whole pool is kept. |
| `EnabledProxies.KeepEnabledFromAll` | src/backend/providers/fetchers.ts:43-45 | With no position disabled from `from` on, the filter keeps the whole suffix. |
| `EnabledProxies.KeepEnabledFrom` | src/backend/providers/fetchers.ts:43-45 | Filtering from position `from` keeps at most the remaining positions. |
| `EnabledProxies.KeepEnabledPositions` | src/backend/providers/fetchers.ts:43-45 | The result is the pool's elements at increasing positions. Position `i` is dropped iff its key maps to exactly `false`, so missing keys count as enabled. |
| `EnabledProxies.KeepEnabledFromPositions` | src/backend/providers/fetchers.ts:43-45 | The positional law for the filter from any position `from` on. |
| `EnabledProxies.KeepEnabledIsSubsequence` | src/backend/providers/fetchers.ts:43-45 | The filtered pool is an ordered subsequence of the pool. |
| `EnabledProxies.EnabledIsSubsequence` | src/backend/providers/fetchers.ts:33-49 | Every outcome of the operation is an ordered subsequence of the pool. |
| `EnabledProxies.DisablingOnePosition` | src/backend/providers/fetchers.ts:44 | A map whose only entry disables index `k` drops exactly the element at `k`. |
| `EnabledProxies.EnabledFilterExample` | src/backend/providers/fetchers.ts:35-48 | `["a","b","c"]` under `{"1": false}` gives `["a","c"]`. An unparsable stored string gives the whole pool. |
| `Text.NatToString` | src/backend/providers/fetchers.ts:44 | `index.toString()` is a non-empty string of decimal digits with no leading zero. |
| `Text.NatToStringDenotes` | src/backend/providers/fetchers.ts:44 | Reading `index.toString()` back as a decimal numeral gives `index`. |
| `Text.NatToStringInjective` | src/backend/providers/fetchers.ts:44 | Distinct indices have distinct keys. |
| `Text.Lower` | src/backend/providers/fetchers.ts:98-101 | Lower-casing keeps the length and lower-cases each character. |
| `Text.LowerAll` | src/backend/providers/fetchers.ts:98 | `readHeaders.map(toLowerCase)` lower-cases every name and keeps their order. |
| `ExtensionFetcher.MakeFinalHeaders` | src/backend/providers/fetchers.ts:94-104 | With no names to read, no header is kept. |
| `ExtensionFetcher.MakeFinalHeadersKeepsAllowed` | src/backend/providers/fetchers.ts:94-104 | Exactly the entries whose name equals some requested name up to case are kept. Each is kept as often as in the input, in input order, and nothing is added. |
| `ExtensionFetcher.LowerAllMember` | src/backend/providers/fetchers.ts:98-101 | `lowercasedHeaders.includes(name.toLowerCase())` holds iff some requested name equals `name` up to case. |
| `ExtensionFetcher.MakeFinalHeadersIgnoresCase` | src/backend/providers/fetchers.ts:98-101 | Lower-casing the requested names first does not change the result. |
| `ExtensionFetcher.ExtensionFetch` | src/backend/providers/fetchers.ts:114-121 | A missing envelope or a falsy `success` throws `"extension error: " + error`, with `undefined` when absent. The error is rendered as a template literal renders it: a string verbatim, `null` as `"null"`, an absent error as `"undefined"`. On success, body, final URL and status are copied, and the headers are exactly `MakeFinalHeaders` of the requested names and the response headers: a subsequence holding only allowed names. A missing `response` throws. |
| `ExtensionFetcher.ErrorText` | src/backend/providers/fetchers.ts:114 | `${result?.error}` is the error string itself, `"null"` for a `null` error, and `"undefined"` when the error or the whole envelope is absent. |
| `ExtensionFetcher.ExtensionFetchExample` | src/backend/providers/fetchers.ts:114-121 | Reading `content-type` keeps `Content-Type` and drops `Set-Cookie`. `success: false, error: "boom"` throws `"extension error: boom"`. |
| `ApiTokens.TokenKey` | src/backend/providers/fetchers.ts:61 | `"X-Token"` is filed under `"x-token"`, which is already lower case and so a valid header-map key. |
| `ApiTokens.OutgoingInit` | src/backend/providers/fetchers.ts:59-70 | Options are sent iff the caller gave options. A truthy stored token is sent as `X-Token`, replacing any caller value: every header named `X-Token` up to case carries it. Every other header and field is the caller's. Without a token the headers are unchanged. |
| `ApiTokens.ResponseToken` | src/backend/providers/fetchers.ts:71 | `response.headers.get("X-Token")` is present iff some header is named `X-Token` up to case, and then it is that header's value. |
| `ApiTokens.TokenAfter` | src/backend/providers/fetchers.ts:71-72 | The stored token is replaced by the response's `X-Token` iff that is non-empty. Otherwise it is kept. |
| `ApiTokens.RefreshedTokenIsSentNext` | src/backend/providers/fetchers.ts:59-72 | A token received in a response is the `X-Token` of the next request that has options. |
| `ApiTokens.StoredTokenKeptWithoutRefresh` | src/backend/providers/fetchers.ts:59-72 | Without a refreshed token, the next request sends what it would have sent before. |
| `ApiTokens.TokenAfterIdempotent` | src/backend/providers/fetchers.ts:71-72 | Seeing the same response twice stores the same token as seeing it once. |
| `ApiTokens.TokenStaysTruthy` | src/backend/providers/fetchers.ts:71-72 | Once a non-empty token is stored, no sequence of responses empties the store. |
| `Settings.AvailableSources` | src/pages/Settings.tsx:248-262 | Every id in the merged order is a current provider id, and every current provider id appears in it. |
| `Settings.AvailableSourcesOrder` | src/pages/Settings.tsx:253-261 | The saved ids still present come first, in saved order. The new ids follow, in provider order, and none of them was saved. |
| `Settings.AvailableSourcesIsPermutation` | src/pages/Settings.tsx:250-261 | With duplicate-free inputs, the result is duplicate-free, has the current ids as its elements, and has as many entries as there are providers. |
| `Settings.AvailableSourcesKeepsUpToDateOrder` | src/pages/Settings.tsx:250-261 | An order that already lists exactly the current ids is returned unchanged. |
| `Settings.AvailableSourcesIdempotent` | src/pages/Settings.tsx:250-261 | Merging a merged order again changes nothing. |
| `Settings.CleanProxyUrls` | src/pages/Settings.tsx:308 | `null` stays `null` and a list stays a list. No empty string remains. |
| `Settings.CleanProxyUrlsRemovesOnlyEmpty` | src/pages/Settings.tsx:354 | Cleaning removes exactly the `""` entries: every other entry is kept as often as before, in order. |
| `Settings.CleanProxyUrlsIdempotent` | src/pages/Settings.tsx:308 | Cleaning a cleaned list changes nothing. |
| `Settings.NormalizeBackendUrl` | src/pages/Settings.tsx:371-374 | `null` stays `null`. The typed URL is never altered, only prefixed with `https://`. Every non-empty result starts with `http://` or `https://`. A URL with a scheme, or an empty one, is unchanged. |
| `Settings.NormalizeBackendUrlIdempotent` | src/pages/Settings.tsx:371-374 | Normalising twice is normalising once. |
| `Settings.ShouldUpdateSettings` | src/pages/Settings.tsx:283-304 | Settings are sent only with an account and a truthy backend URL. With both, a source-order change alone sends them. Nothing is sent when no field changed. |
| `Settings.ShouldUpdateSettingsIffSyncedChange` | src/pages/Settings.tsx:283-304 | `updateSettings` is called iff there is an account and a truthy backend URL, and some field other than subtitle styling, device name, profile and backend URL changed. |
| `Settings.LocalOnlyChangesAreNotSent` | src/pages/Settings.tsx:283-304 | Changes only to subtitle styling, device name, profile or backend URL never send the settings. |

## Left out

- `Math.random` and the float arithmetic at fetchers.ts:22 are an input `rnd`. It takes the values `Math.floor(Math.random() * n)` can take: `0 <= rnd < n`, and 0 when `n = 0`. The model says nothing about uniformity.
- The pool getters (`getProxyUrls`, `getProviderApiUrls`, `getM3U8ProxyUrls`) are foreign code. The pool each call re-reads is passed as a parameter.
- `localStorage.getItem` and `JSON.parse` are inputs: the stored string as an `Option`, and the parse outcome as an optional map from key to boolean. `None` stands for a throw or an unindexable `null`. A value at a key that is not a boolean behaves like an absent key under `!== false`, so the map keeps only boolean entries. A parsed primitive, which has no index keys, is the empty map.
- `Headers` is a foreign class. A request's or response's headers are a map whose keys the type constrains to lower-case names, which gives `set`/`get` their case-insensitive, replacing behaviour. The conversion of the caller's `HeadersInit` into that form (line 60) is not modelled. Neither is the final `new Headers(...)` at line 99, with its name normalisation and merging of duplicates: `MakeFinalHeaders` returns the kept entries.
- `Text.Lower`: lower-cases ASCII letters only. Unicode case mapping in `toLowerCase` is not modelled. Header names are ASCII.
- `fetch`, `makeSimpleProxyFetcher`, `sendExtensionRequest`, `convertBodyToObject` and `getBodyTypeFromBody` are foreign code. The request handed to the extension (lines 108-113) is not modelled. What `fetch` and `sendExtensionRequest` resolve to is an input.
- `Fetchers.ProviderFetchers.FetchButWithApiTokens`: does not model a `fetch` that rejects. In that case the rejection propagates and the stored token is left alone.
- `getApiToken`/`setApiToken` are a field of the state object, and `setM3U8ProxyUrl` writes a field that stands for the provider library's setting.
- The async/await interleaving is left out. So is the last-write-wins race on the token between concurrent requests, which is about concurrency. `TokenAfterAll` applies responses in the order they resolve.
- `ExtensionFetcher.ErrorText`: the envelope's `error` is absent, `null` or a string. An error of any other type (an object, a number) and its `toString` rendering are not modelled.
- The extension envelope's `success` is a boolean and its response body a string. Other truthy `success` values, and responses with missing fields, are not modelled.
- `getAllProviders().listSources()` is foreign code. The current provider ids are an input.
- The rest of the settings page is UI and network glue and is not modelled: hooks, effects, store setters, JSX, `decryptData`/`encryptData`, and `getSettings`/`updateSettings`/`updateSession`/`editUser`/`logout`. Only the three expressions and the `updateSettings` guard are modelled.
- src/stores/banner/BannerLocation.tsx and src/components/layout/WideContainer.tsx are pure rendering and store access, and are not part of this model.
