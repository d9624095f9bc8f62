/** The process-wide state of src/backend/providers/fetchers.ts and the
    operations that update it: the three selectors created at lines 30-32 and
    51-53, the stored API token read and written by `fetchButWithApiTokens`,
    and the M3U8 proxy URL handed to the provider library by
    `setupM3U8Proxy`. Pools, stored strings, random starts and the response
    of `fetch` are parameters. */
module Fetchers {
  import opened Wrappers
  import opened LoadBalancer
  import opened EnabledProxies
  import opened ApiTokens

  class ProviderFetchers {
    /** `getLoadbalancedProxyUrl`, `getLoadbalancedProviderApiUrl` and
        `getLoadbalancedM3U8ProxyUrl`: one selector, so one cursor, per pool. */
    const proxy: LoadbalancedList
    const providerApi: LoadbalancedList
    const m3u8: LoadbalancedList
    /** The token behind `getApiToken` / `setApiToken`. */
    var apiToken: Option<string>
    /** The last URL passed to `setM3U8ProxyUrl`. */
    var m3u8ProxyUrl: Option<string>

    ghost predicate Valid()
      reads this, proxy, providerApi, m3u8
    {
      && proxy != providerApi && proxy != m3u8 && providerApi != m3u8
      && proxy.Valid() && providerApi.Valid() && m3u8.Valid()
    }

    constructor (storedToken: Option<string>)
      ensures Valid() && fresh(proxy) && fresh(providerApi) && fresh(m3u8)
      ensures proxy.cursor == Unset && providerApi.cursor == Unset && m3u8.cursor == Unset
      ensures apiToken == storedToken && m3u8ProxyUrl == None
    {
      proxy := new LoadbalancedList();
      providerApi := new LoadbalancedList();
      m3u8 := new LoadbalancedList();
      apiToken := storedToken;
      m3u8ProxyUrl := None;
    }

    /** Line 30, called afresh by every fetch of
        `makeLoadBalancedSimpleProxyFetcher` (lines 84-90). Only the proxy
        cursor moves. */
    method NextProxyUrl(pool: seq<string>, rnd: nat) returns (url: Option<string>)
      requires Valid() && RandomIndex(rnd, |pool|)
      modifies proxy
      ensures Valid()
      ensures Selection(url, proxy.cursor) == Step(old(proxy.cursor), pool, rnd)
      ensures unchanged(providerApi) && unchanged(m3u8)
    {
      url := proxy.Next(pool, rnd);
    }

    /** Lines 31-32. Only the provider-API cursor moves. */
    method NextProviderApiUrl(pool: seq<string>, rnd: nat) returns (url: Option<string>)
      requires Valid() && RandomIndex(rnd, |pool|)
      modifies providerApi
      ensures Valid()
      ensures Selection(url, providerApi.cursor) == Step(old(providerApi.cursor), pool, rnd)
      ensures unchanged(proxy) && unchanged(m3u8)
    {
      url := providerApi.Next(pool, rnd);
    }

    /** Lines 51-53: the selector over the enabled M3U8 proxies, re-filtered on
        every call. Only the M3U8 cursor moves. */
    method NextM3U8ProxyUrl(all: seq<string>, stored: Option<string>, parsed: Option<map<string, bool>>, rnd: nat)
      returns (url: Option<string>)
      requires Valid() && RandomIndex(rnd, |EnabledM3U8ProxyUrls(all, stored, parsed)|)
      modifies m3u8
      ensures Valid()
      ensures Selection(url, m3u8.cursor) == Step(old(m3u8.cursor), EnabledM3U8ProxyUrls(all, stored, parsed), rnd)
      ensures unchanged(proxy) && unchanged(providerApi)
    {
      var pool := EnabledM3U8ProxyUrls(all, stored, parsed);
      url := m3u8.Next(pool, rnd);
    }

    /** Lines 76-81: the selected M3U8 proxy is handed to the provider library
        only when it is a truthy string; otherwise the previous setting stays. */
    method SetupM3U8Proxy(all: seq<string>, stored: Option<string>, parsed: Option<map<string, bool>>, rnd: nat)
      requires Valid() && RandomIndex(rnd, |EnabledM3U8ProxyUrls(all, stored, parsed)|)
      modifies m3u8, this`m3u8ProxyUrl
      ensures Valid()
      ensures var s := Step(old(m3u8.cursor), EnabledM3U8ProxyUrls(all, stored, parsed), rnd);
              && m3u8.cursor == s.cursor
              && m3u8ProxyUrl == if Truthy(s.url) then s.url else old(m3u8ProxyUrl)
      ensures unchanged(proxy) && unchanged(providerApi) && apiToken == old(apiToken)
    {
      var proxyUrl := NextM3U8ProxyUrl(all, stored, parsed, rnd);
      if Truthy(proxyUrl) {
        m3u8ProxyUrl := proxyUrl;
      }
    }

    /** Lines 55-74, around one `fetch` that resolved to `response`: returns
        what was handed to `fetch` and what the caller gets back, and updates
        the stored token. No cursor moves. */
    method FetchButWithApiTokens(init: Option<RequestInit>, response: Response)
      returns (sent: Option<RequestInit>, result: Response)
      modifies this`apiToken
      ensures sent == OutgoingInit(init, old(apiToken))
      ensures apiToken == TokenAfter(old(apiToken), response)
      ensures result == response
    {
      var token := apiToken;
      var headers: HeaderMap := if init.Some? then init.value.headers else map[];
      if Truthy(token) {
        headers := headers[TokenKey() := token.value];
      }
      sent := if init.Some? then Some(init.value.(headers := headers)) else None;
      var newApiToken := ResponseToken(response);
      if Truthy(newApiToken) {
        apiToken := newApiToken;
      }
      result := response;
    }
  }
}
