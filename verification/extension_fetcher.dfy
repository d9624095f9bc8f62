/** The extension-routed fetcher of `makeExtensionFetcher`
    (src/backend/providers/fetchers.ts:94-124): the envelope returned by the
    browser extension is checked and its response narrowed to the headers the
    caller asked to read. */
module ExtensionFetcher {
  import opened Wrappers
  import opened Text
  import opened Seqs

  /** One `[name, value]` pair of `Object.entries(headers)`. */
  type HeaderEntry = (string, string)

  /** Some name in `readHeaders` equals `name` up to case. */
  ghost predicate ReadAllowed(readHeaders: seq<string>, name: string)
  {
    exists h :: h in readHeaders && Lower(h) == Lower(name)
  }

  /** Lines 94-104: the entries whose lower-cased name is among the lower-cased
      `readHeaders`, in their original order. */
  function MakeFinalHeaders(readHeaders: seq<string>, headers: seq<HeaderEntry>): (r: seq<HeaderEntry>)
    ensures readHeaders == [] ==> r == []
  {
    var lowercased := LowerAll(readHeaders);
    var r := Filter(headers, (e: HeaderEntry) => Lower(e.0) in lowercased);
    assert r != [] ==> Lower(r[0].0) in lowercased;
    r
  }

  lemma LowerAllMember(readHeaders: seq<string>, name: string)
    ensures Lower(name) in LowerAll(readHeaders) <==> ReadAllowed(readHeaders, name)
  {
    var l := LowerAll(readHeaders);
    if Lower(name) in l {
      var i :| 0 <= i < |l| && l[i] == Lower(name);
      assert readHeaders[i] in readHeaders;
    }
    if ReadAllowed(readHeaders, name) {
      var h :| h in readHeaders && Lower(h) == Lower(name);
      var i :| 0 <= i < |readHeaders| && readHeaders[i] == h;
      assert l[i] == Lower(name);
    }
  }

  /** The final headers are exactly the input entries whose name is allowed,
      each as often as in the input, in the input's order; nothing is added. */
  lemma MakeFinalHeadersKeepsAllowed(readHeaders: seq<string>, headers: seq<HeaderEntry>)
    ensures var r := MakeFinalHeaders(readHeaders, headers);
            && IsSubsequence(r, headers)
            && forall e :: multiset(r)[e] == if ReadAllowed(readHeaders, e.0) then multiset(headers)[e] else 0
  {
    var lowercased := LowerAll(readHeaders);
    var p := (e: HeaderEntry) => Lower(e.0) in lowercased;
    FilterIsSubsequence(headers, p);
    FilterCount(headers, p);
    forall e: HeaderEntry ensures p(e) == ReadAllowed(readHeaders, e.0) {
      LowerAllMember(readHeaders, e.0);
    }
  }

  /** The match is case-insensitive on both sides: lower-casing the names to
      read does not change the result. */
  lemma MakeFinalHeadersIgnoresCase(readHeaders: seq<string>, headers: seq<HeaderEntry>)
    ensures MakeFinalHeaders(LowerAll(readHeaders), headers) == MakeFinalHeaders(readHeaders, headers)
  {
    var once, twice := LowerAll(readHeaders), LowerAll(LowerAll(readHeaders));
    assert twice == once by {
      forall i | 0 <= i < |once| ensures twice[i] == once[i] {
        LowerIdempotent(readHeaders[i]);
      }
    }
  }

  /** `result.response` as the extension sends it. */
  datatype ExtensionResponse = ExtensionResponse(body: string, finalUrl: string, statusCode: int, headers: seq<HeaderEntry>)

  /** The envelope `sendExtensionRequest` resolves to: `success`, an optional
      `error` and an optional `response`. */
  datatype ExtensionResult = ExtensionResult(success: bool, error: ErrorValue, response: Option<ExtensionResponse>)

  /** The envelope's `error` field: absent, `null`, or a string. */
  datatype ErrorValue = Undefined | Null | Text(text: string)

  /** What the fetcher returns to the provider library. */
  datatype FetcherResponse = FetcherResponse(body: string, finalUrl: string, statusCode: int, headers: seq<HeaderEntry>)

  datatype FetchError =
    | ExtensionError(message: string)   // line 114: `new Error(\`extension error: ${result?.error}\`)`
    | ResponseMissing                   // line 117: `res.body` on an absent `response` throws

  const ErrorPrefix: string := "extension error: "

  /** A template literal's rendering of `result?.error`: a string verbatim,
      `null` as "null", and an absent error or envelope as "undefined". */
  function ErrorText(result: Option<ExtensionResult>): (t: string)
    ensures result.Some? && result.value.error.Text? ==> t == result.value.error.text
    ensures result.Some? && result.value.error.Null? ==> t == "null"
    ensures result.None? || result.value.error.Undefined? ==> t == "undefined"
  {
    if result.None? then "undefined"
    else match result.value.error
      case Undefined => "undefined"
      case Null => "null"
      case Text(text) => text
  }

  /** Lines 114-121, given `result`, what `sendExtensionRequest` resolved to
      (`None` for `undefined`). */
  function ExtensionFetch(readHeaders: seq<string>, result: Option<ExtensionResult>): (r: Result<FetcherResponse, FetchError>)
    // a missing envelope or a falsy `success` throws, carrying the extension's error verbatim
    ensures result.None? || !result.value.success <==> r.Failure? && r.error.ExtensionError?
    ensures r.Failure? && r.error.ExtensionError? ==>
              ErrorPrefix <= r.error.message && r.error.message[|ErrorPrefix|..] == ErrorText(result)
    // on success the body, final URL and status are passed through; headers are narrowed
    ensures r.Success? <==> result.Some? && result.value.success && result.value.response.Some?
    ensures r.Success? ==>
              var res := result.value.response.value;
              && r.value.body == res.body && r.value.finalUrl == res.finalUrl
              && r.value.statusCode == res.statusCode
              && r.value.headers == MakeFinalHeaders(readHeaders, res.headers)
              && IsSubsequence(r.value.headers, res.headers)
              && forall e :: e in r.value.headers ==> ReadAllowed(readHeaders, e.0)
  {
    if result.None? || !result.value.success then
      Failure(ExtensionError(ErrorPrefix + ErrorText(result)))
    else match result.value.response
      case None => Failure(ResponseMissing)
      case Some(res) =>
        MakeFinalHeadersKeepsAllowed(readHeaders, res.headers);
        var headers := MakeFinalHeaders(readHeaders, res.headers);
        assert forall e :: e in headers ==> multiset(headers)[e] > 0;
        Success(FetcherResponse(res.body, res.finalUrl, res.statusCode, headers))
  }

  /** Asked to read `content-type`, the fetcher keeps `Content-Type` and drops
      `Set-Cookie`; an envelope reporting failure `"boom"` raises an error
      carrying `"boom"`. */
  lemma ExtensionFetchExample(body: string, finalUrl: string)
    ensures var res := ExtensionResponse(body, finalUrl, 200, [("Content-Type", "text/html"), ("Set-Cookie", "x")]);
            ExtensionFetch(["content-type"], Some(ExtensionResult(true, Undefined, Some(res))))
              == Success(FetcherResponse(body, finalUrl, 200, [("Content-Type", "text/html")]))
    ensures ExtensionFetch(["content-type"], Some(ExtensionResult(false, Text("boom"), None)))
              == Failure(ExtensionError("extension error: boom"))
  {
    var hs: seq<HeaderEntry> := [("Content-Type", "text/html"), ("Set-Cookie", "x")];
    var lowercased := LowerAll(["content-type"]);
    assert lowercased == ["content-type"] by {
      assert Lower("content-type") == "content-type";
    }
    assert Lower("Content-Type") == "content-type";
    assert Lower("Set-Cookie") != "content-type" by {
      assert Lower("Set-Cookie")[0] == 's';
    }
    var p := (e: HeaderEntry) => Lower(e.0) in lowercased;
    assert hs[1..][1..] == [];
    assert Filter(hs[1..], p) == [];
    assert Filter(hs, p) == [hs[0]];
    assert ErrorPrefix + "boom" == "extension error: boom";
  }
}
