/** The token handling of `fetchButWithApiTokens`
    (src/backend/providers/fetchers.ts:55-74), as two steps over the stored
    API token: building the options handed to `fetch`, and updating the
    stored token from the response. */
module ApiTokens {
  import opened Wrappers
  import opened Text

  /** A `Headers` object: names are kept lower-cased, so `set` and `get` are
      case-insensitive and `set` replaces any earlier value. */
  type HeaderMap = m: map<string, string> | forall name :: name in m ==> Lower(name) == name
    witness map[]

  /** `RequestInit`: the fields other than `headers` are passed through untouched. */
  datatype RequestInit = RequestInit(httpMethod: string, headers: HeaderMap, body: Option<string>)

  /** The `Response` that `fetch` resolves to. */
  datatype Response = Response(status: int, headers: HeaderMap, body: string)

  /** The key `Headers` files `"X-Token"` under. */
  function TokenKey(): (k: string)
    ensures k == "x-token" && Lower(k) == k
  {
    var k := Lower("X-Token");
    assert Lower(k) == k by { LowerIdempotent("X-Token"); }
    k
  }

  /** Lines 59-70: the options handed to `fetch`. A truthy stored token is set
      as `X-Token` on a copy of the caller's headers; without caller options
      nothing (and so no token) is sent. */
  function OutgoingInit(init: Option<RequestInit>, apiToken: Option<string>): (sent: Option<RequestInit>)
    ensures sent.Some? <==> init.Some?
    ensures init.Some? ==>
              && sent.value.httpMethod == init.value.httpMethod && sent.value.body == init.value.body
              // the token is sent exactly when one is stored, replacing any caller value ...
              && (Truthy(apiToken) ==> TokenKey() in sent.value.headers && sent.value.headers[TokenKey()] == apiToken.value)
              // `set` replaces: every header named "X-Token" up to case carries the stored token
              && (Truthy(apiToken) ==> forall name :: name in sent.value.headers && Lower(name) == Lower("X-Token") ==>
                    sent.value.headers[name] == apiToken.value)
              && (!Truthy(apiToken) ==> sent.value.headers == init.value.headers)
              // ... and every other header is the caller's
              && (forall name :: name != TokenKey() ==>
                    (name in sent.value.headers <==> name in init.value.headers))
              && (forall name :: name != TokenKey() && name in init.value.headers ==>
                    sent.value.headers[name] == init.value.headers[name])
  {
    match init
    case None => None
    case Some(ops) =>
      var headers := if Truthy(apiToken) then ops.headers[TokenKey() := apiToken.value] else ops.headers;
      Some(ops.(headers := headers))
  }

  /** `response.headers.get("X-Token")`: the value of the header named
      `X-Token` up to case, if there is one. */
  function ResponseToken(response: Response): (t: Option<string>)
    ensures t.Some? <==> exists name :: name in response.headers && Lower(name) == Lower("X-Token")
    ensures t.Some? ==> forall name :: name in response.headers && Lower(name) == Lower("X-Token") ==>
              t.value == response.headers[name]
  {
    if TokenKey() in response.headers then Some(response.headers[TokenKey()]) else None
  }

  /** Lines 71-72: the stored token after the response. */
  function TokenAfter(apiToken: Option<string>, response: Response): (t: Option<string>)
    // replaced exactly when the response carries a non-empty token, by that token
    ensures Truthy(ResponseToken(response)) ==> t == ResponseToken(response)
    ensures !Truthy(ResponseToken(response)) ==> t == apiToken
  {
    var newApiToken := ResponseToken(response);
    if Truthy(newApiToken) then newApiToken else apiToken
  }

  /** A refreshed token is what the next call sends: the token a response
      carries becomes the `X-Token` of the next request that has options. */
  lemma RefreshedTokenIsSentNext(apiToken: Option<string>, response: Response, next: RequestInit)
    requires Truthy(ResponseToken(response))
    ensures var sent := OutgoingInit(Some(next), TokenAfter(apiToken, response));
            sent.Some? && sent.value.headers[TokenKey()] == response.headers[TokenKey()]
  {
  }

  /** Without a refreshed token the next call sends the token already stored. */
  lemma StoredTokenKeptWithoutRefresh(apiToken: Option<string>, response: Response, next: RequestInit)
    requires !Truthy(ResponseToken(response))
    ensures OutgoingInit(Some(next), TokenAfter(apiToken, response)) == OutgoingInit(Some(next), apiToken)
  {
  }

  /** Seeing the same response twice stores the same token as seeing it once. */
  lemma TokenAfterIdempotent(apiToken: Option<string>, response: Response)
    ensures TokenAfter(TokenAfter(apiToken, response), response) == TokenAfter(apiToken, response)
  {
  }

  /** Once a non-empty token is stored, the store never becomes empty again. */
  lemma {:induction false} TokenStaysTruthy(apiToken: Option<string>, responses: seq<Response>)
    requires Truthy(apiToken)
    ensures Truthy(TokenAfterAll(apiToken, responses))
    decreases |responses|
  {
    if responses != [] {
      TokenStaysTruthy(TokenAfter(apiToken, responses[0]), responses[1..]);
    }
  }

  /** The stored token after a series of responses, in the order they resolve. */
  function TokenAfterAll(apiToken: Option<string>, responses: seq<Response>): Option<string>
    decreases |responses|
  {
    if responses == [] then apiToken else TokenAfterAll(TokenAfter(apiToken, responses[0]), responses[1..])
  }
}
