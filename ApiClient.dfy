/**
 * The request rules of src/lib/api-client.ts: building the URL, merging the
 * headers and the rest of the fetch configuration, turning a response into a
 * value or an error, and the five verb helpers. `fetch` is a parameter that
 * maps what is sent to what comes back.
 */
module ApiClient {
  import opened Optional
  import opened Text
  import opened Js
  import opened Sequences

  datatype Method = GET | POST | PUT | DELETE | PATCH

  function MethodName(m: Method): string
  {
    match m
    case GET => "GET"
    case POST => "POST"
    case PUT => "PUT"
    case DELETE => "DELETE"
    case PATCH => "PATCH"
  }

  /** A request body: none (also what `JSON.stringify(undefined)` gives), caller text, or serialised JSON. */
  datatype Body = NoBody | Text(text: string) | JsonOf(data: Value)

  /**
   * The caller's `RequestOptions`: query parameters in iteration order,
   * headers, and the `RequestInit` fields the model keeps (`method` as `methodOverride`, `body`).
   */
  datatype RequestOptions = RequestOptions(
    params: Option<seq<(string, string)>>,
    headers: map<string, string>,
    methodOverride: Option<string>,
    body: Body)

  /** `{}` */
  const EmptyOptions := RequestOptions(None, map[], None, NoBody)

  /** The URL handed to fetch: the concatenated address and its search parameters in order. */
  datatype RequestUrl = RequestUrl(address: string, query: seq<(string, string)>)

  /** The `RequestInit` handed to fetch. */
  datatype RequestConfig = RequestConfig(methodName: string, headers: map<string, string>, body: Body)

  /** What fetch resolves to; `json` is None when the body does not parse. */
  datatype Response = Response(
    ok: bool,
    status: int,
    statusText: string,
    contentType: Option<string>,
    json: Option<Value>)

  datatype Fetched = NetworkFailure(reason: string) | Received(response: Response)

  /** Every way `request` rejects. */
  datatype RequestError =
    | FetchRejected(reason: string)   // fetch itself rejected
    | ApiError(message: string)       // the `new Error(...)` of a non-ok response
    | PropertyOfNull                  // `errorBody.message` when the body is JSON null
    | InvalidJson                     // an ok JSON response whose body does not parse
    | InvalidUrl                      // the TypeError of `new URL` for a string without a scheme

  /** The client: a base URL and fixed default headers. */
  datatype Client = Client(baseUrl: string)
  {
    function DefaultHeaders(): map<string, string>
    {
      map["Content-Type" := "application/json"]
    }
  }

  /** The base URL: the environment's NEXT_PUBLIC_API_URL when set and non-empty, otherwise "/api". */
  function BaseUrl(env: Option<string>): (r: string)
    ensures env.Some? && env.value != "" ==> r == env.value
    ensures env.None? || env.value == "" ==> r == "/api"
  {
    if env.Some? && env.value != "" then env.value else "/api"
  }

  predicate IsAsciiAlpha(c: char)
  {
    'a' <= c <= 'z' || 'A' <= c <= 'Z'
  }

  predicate IsSchemeChar(c: char)
  {
    IsAsciiAlpha(c) || '0' <= c <= '9' || c == '+' || c == '-' || c == '.'
  }

  /** Scheme characters up to the first ':'. */
  predicate SchemeRest(s: string)
    decreases |s|
  {
    |s| > 0 && (s[0] == ':' || (IsSchemeChar(s[0]) && SchemeRest(s[1..])))
  }

  /** A C0 control or space: U+0000 to U+0020. */
  predicate IsC0ControlOrSpace(c: char)
  {
    c <= ' '
  }

  /** An ASCII tab or newline: U+0009, U+000A or U+000D. */
  predicate IsTabOrNewline(c: char)
  {
    c == '\t' || c == '\n' || c == '\r'
  }

  /** The input without its leading C0 controls and spaces. */
  function TrimLeading(s: string): (r: string)
    ensures |r| <= |s| && r == s[|s| - |r|..]
    ensures forall i :: 0 <= i < |s| - |r| ==> IsC0ControlOrSpace(s[i])
    ensures r == [] || !IsC0ControlOrSpace(r[0])
  {
    if s != [] && IsC0ControlOrSpace(s[0]) then TrimLeading(s[1..]) else s
  }

  /** The input without its trailing C0 controls and spaces. */
  function TrimTrailing(s: string): (r: string)
    ensures |r| <= |s| && r == s[..|r|]
    ensures forall i :: |r| <= i < |s| ==> IsC0ControlOrSpace(s[i])
    ensures r == [] || !IsC0ControlOrSpace(r[|r| - 1])
  {
    if s != [] && IsC0ControlOrSpace(s[|s| - 1]) then TrimTrailing(s[..|s| - 1]) else s
  }

  /** The input with every tab and newline removed. */
  function RemoveTabsAndNewlines(s: string): string
  {
    if s == [] then []
    else if IsTabOrNewline(s[0]) then RemoveTabsAndNewlines(s[1..])
    else [s[0]] + RemoveTabsAndNewlines(s[1..])
  }

  /** Removal drops every tab and newline and keeps the other characters, as often as they occur and in order. */
  lemma {:induction false} RemoveTabsAndNewlinesKeepsRest(s: string)
    ensures forall c :: multiset(RemoveTabsAndNewlines(s))[c] == if IsTabOrNewline(c) then 0 else multiset(s)[c]
    ensures IsSubsequence(RemoveTabsAndNewlines(s), s)
    decreases |s|
  {
    if s != [] {
      var rest := RemoveTabsAndNewlines(s[1..]);
      RemoveTabsAndNewlinesKeepsRest(s[1..]);
      assert s == [s[0]] + s[1..];
      assert multiset(s) == multiset{s[0]} + multiset(s[1..]);
      if !IsTabOrNewline(s[0]) {
        assert multiset([s[0]] + rest) == multiset{s[0]} + multiset(rest);
        assert ([s[0]] + rest)[1..] == rest;
      }
    }
  }

  /**
   * What the URL parser reads (the basic URL parser of the WHATWG URL
   * Standard): leading and trailing C0 controls and spaces are stripped, then
   * every tab and newline is removed.
   */
  function UrlInput(s: string): string
  {
    RemoveTabsAndNewlines(TrimTrailing(TrimLeading(s)))
  }

  /** A string that starts with a character other than a control, space or letter starts with it after the cleanup too. */
  lemma UrlInputKeepsFirst(s: string)
    requires |s| > 0 && !IsC0ControlOrSpace(s[0])
    ensures |UrlInput(s)| > 0 && UrlInput(s)[0] == s[0]
  {
    var t := TrimTrailing(TrimLeading(s));
    assert TrimLeading(s) == s;
    assert |t| > 0 && t[0] == s[0];
    assert t == [t[0]] + t[1..];
  }

  /** Whether the URL parser, given no base, finds a scheme: a letter, scheme characters, then ':'. */
  predicate HasScheme(s: string)
  {
    |s| > 0 && IsAsciiAlpha(s[0]) && SchemeRest(s[1..])
  }

  /** Whatever follows a scheme, the string still has it. */
  lemma {:induction false} SchemeRestExtends(s: string, t: string)
    requires SchemeRest(s)
    ensures SchemeRest(s + t)
    decreases |s|
  {
    if s[0] != ':' {
      assert (s + t)[1..] == s[1..] + t;
      SchemeRestExtends(s[1..], t);
    }
  }

  /** A string with a scheme keeps it whatever is appended. */
  lemma SchemeExtends(s: string, t: string)
    ensures HasScheme(s) ==> HasScheme(s + t)
  {
    if HasScheme(s) {
      assert (s + t)[1..] == s[1..] + t;
      SchemeRestExtends(s[1..], t);
    }
  }

  /**
   * `new URL(`${this.baseURL}${endpoint}`)` as written: without a base it
   * throws for every string that lacks a scheme once cleaned up.
   */
  function AddressAsWritten(baseUrl: string, endpoint: string): (r: Result<string, RequestError>)
    ensures r.Ok? <==> HasScheme(UrlInput(baseUrl + endpoint))
    ensures r.Ok? ==> r.value == UrlInput(baseUrl + endpoint)
  {
    var input := UrlInput(baseUrl + endpoint);
    if HasScheme(input) then Ok(input) else Err(InvalidUrl)
  }

  /** With NEXT_PUBLIC_API_URL unset the base is "/api", and every request throws before fetch. */
  lemma DefaultBaseRejects(endpoint: string)
    ensures BaseUrl(None) == "/api"
    ensures AddressAsWritten(BaseUrl(None), endpoint) == Err(InvalidUrl)
  {
    assert (BaseUrl(None) + endpoint)[0] == '/';
    UrlInputKeepsFirst(BaseUrl(None) + endpoint);
  }

  /** Removing tabs and newlines from a concatenation removes them from each part. */
  lemma {:induction false} RemoveTabsAndNewlinesConcat(a: string, b: string)
    ensures RemoveTabsAndNewlines(a + b) == RemoveTabsAndNewlines(a) + RemoveTabsAndNewlines(b)
    decreases |a|
  {
    if a == [] {
      assert a + b == b;
    } else {
      assert (a + b)[0] == a[0] && (a + b)[1..] == a[1..] + b;
      RemoveTabsAndNewlinesConcat(a[1..], b);
      if !IsTabOrNewline(a[0]) {
        var ra, rb := RemoveTabsAndNewlines(a[1..]), RemoveTabsAndNewlines(b);
        assert [a[0]] + (ra + rb) == ([a[0]] + ra) + rb;
      }
    }
  }

  /** A string without controls and spaces holds no tab or newline to remove. */
  lemma {:induction false} NothingToRemove(s: string)
    requires forall i :: 0 <= i < |s| ==> !IsC0ControlOrSpace(s[i])
    ensures RemoveTabsAndNewlines(s) == s
    decreases |s|
  {
    if s != [] {
      NothingToRemove(s[1..]);
      assert [s[0]] + s[1..] == s;
    }
  }

  /** A string without controls and spaces is left as it is by the cleanup. */
  lemma PlainUrlInput(s: string)
    requires forall i :: 0 <= i < |s| ==> !IsC0ControlOrSpace(s[i])
    ensures UrlInput(s) == s
  {
    if s != [] {
      assert TrimLeading(s) == s;
      assert TrimTrailing(s) == s;
    }
    NothingToRemove(s);
  }

  /** Everything that starts "https:" has a scheme. */
  lemma HttpsHasScheme(rest: string)
    ensures HasScheme("https:" + rest)
  {
    assert HasScheme("https:");
    SchemeExtends("https:", rest);
  }

  /** A leading space does not stop an absolute base from parsing: `new URL` strips it. */
  lemma LeadingSpaceAccepted(rest: string)
    requires forall i :: 0 <= i < |rest| ==> !IsC0ControlOrSpace(rest[i])
    ensures AddressAsWritten(" https:", rest) == Ok("https:" + rest)
  {
    var s := "https:" + rest;
    assert forall i :: 0 <= i < |s| ==> !IsC0ControlOrSpace(s[i]) by {
      forall i | 0 <= i < |s| ensures !IsC0ControlOrSpace(s[i]) {
        if i >= 6 { assert s[i] == rest[i - 6]; }
      }
    }
    assert " https:" + rest == [' '] + s;
    assert TrimLeading([' '] + s) == TrimLeading(s);
    PlainUrlInput(s);
    HttpsHasScheme(rest);
  }

  /** A tab in front of a plain string is dropped by the removal. */
  lemma TabDropped(head: string, tail: string)
    requires forall i :: 0 <= i < |head| ==> !IsC0ControlOrSpace(head[i])
    requires forall i :: 0 <= i < |tail| ==> !IsC0ControlOrSpace(tail[i])
    ensures RemoveTabsAndNewlines(head + ['\t'] + tail) == head + tail
  {
    var tabbed := ['\t'] + tail;
    assert head + ['\t'] + tail == head + tabbed;
    RemoveTabsAndNewlinesConcat(head, tabbed);
    assert tabbed[0] == '\t' && tabbed[1..] == tail;
    assert RemoveTabsAndNewlines(tabbed) == RemoveTabsAndNewlines(tail);
    NothingToRemove(head);
    NothingToRemove(tail);
  }

  /** The cleanup of "ht\ttps:" followed by a plain string removes the tab. */
  lemma TabbedSchemeInput(rest: string)
    requires forall i :: 0 <= i < |rest| ==> !IsC0ControlOrSpace(rest[i])
    ensures UrlInput("ht\ttps:" + rest) == "https:" + rest
  {
    var tail := "tps:" + rest;
    assert forall i :: 0 <= i < |tail| ==> !IsC0ControlOrSpace(tail[i]) by {
      forall i | 0 <= i < |tail| ensures !IsC0ControlOrSpace(tail[i]) {
        if i >= 4 { assert tail[i] == rest[i - 4]; }
      }
    }
    var s := "ht" + ['\t'] + tail;
    assert "ht\ttps:" + rest == s;
    assert TrimLeading(s) == s;
    assert s[|s| - 1] == tail[|tail| - 1];
    assert TrimTrailing(s) == s;
    TabDropped("ht", tail);
  }

  /** A tab inside the scheme does not stop an absolute base from parsing: `new URL` removes it. */
  lemma TabInSchemeAccepted(rest: string)
    requires forall i :: 0 <= i < |rest| ==> !IsC0ControlOrSpace(rest[i])
    ensures AddressAsWritten("ht\ttps:", rest) == Ok("https:" + rest)
  {
    TabbedSchemeInput(rest);
    HttpsHasScheme(rest);
  }

  /**
   * The address resolved against the page origin, as `new URL(path, origin)`
   * does for a path that starts with '/'. Wherever the parse without a base
   * succeeds, the address is the one that parse gives.
   */
  function ResolvedAddress(baseUrl: string, endpoint: string, origin: string): (r: string)
    ensures AddressAsWritten(baseUrl, endpoint).Ok? ==> r == AddressAsWritten(baseUrl, endpoint).value
    ensures HasScheme(origin) ==> HasScheme(r)
  {
    var input := UrlInput(baseUrl + endpoint);
    if HasScheme(input) then input
    else
      SchemeExtends(origin, input);
      origin + input
  }

  /** `{ ...defaults, ...headers }`: every caller header wins over a default of the same name. */
  function MergeHeaders(defaults: map<string, string>, headers: map<string, string>): (r: map<string, string>)
    ensures r.Keys == defaults.Keys + headers.Keys
    ensures forall k :: k in headers ==> r[k] == headers[k]
    ensures forall k :: k in defaults && k !in headers ==> r[k] == defaults[k]
  {
    defaults + headers
  }

  /**
   * The fetch configuration: the verb and the merged headers, with the rest
   * of the options spread last, so a caller `method` or `body` wins.
   */
  function Config(client: Client, m: Method, options: RequestOptions): RequestConfig
  {
    RequestConfig(
      options.methodOverride.GetOr(MethodName(m)),
      MergeHeaders(client.DefaultHeaders(), options.headers),
      options.body)
  }

  /** The JSON content type is sent unless the caller names that header itself. */
  lemma ContentTypeDefault(client: Client, m: Method, options: RequestOptions)
    ensures "Content-Type" in Config(client, m, options).headers
    ensures "Content-Type" !in options.headers ==>
      Config(client, m, options).headers["Content-Type"] == "application/json"
    ensures "Content-Type" in options.headers ==>
      Config(client, m, options).headers["Content-Type"] == options.headers["Content-Type"]
    ensures options.methodOverride.None? ==> Config(client, m, options).methodName == MethodName(m)
  {
  }

  /** Appends every parameter to the search parameters, in order. */
  method AppendParams(url: RequestUrl, params: seq<(string, string)>) returns (r: RequestUrl)
    ensures r.address == url.address
    ensures r.query == url.query + params
  {
    r := url;
    var i := 0;
    while i < |params|
      invariant 0 <= i <= |params|
      invariant r.address == url.address
      invariant r.query == url.query + params[..i]
    {
      r := r.(query := r.query + [params[i]]);
      i := i + 1;
      assert params[..i] == params[..i - 1] + [params[i - 1]];
    }
    assert params[..|params|] == params;
  }

  /** The message of the Error thrown for a non-ok response. */
  function FailureOf(response: Response): (e: RequestError)
    requires !response.ok
    ensures e.ApiError? || e.PropertyOfNull?
  {
    // A body that does not parse becomes `{}`.
    var errorBody := response.json.GetOr(Obj(map[]));
    match Member(errorBody, "message")
    case None => PropertyOfNull
    case Some(message) =>
      if Truthy(message) then ApiError(ToText(message))
      else ApiError(StatusLine(response))
  }

  /** A content type is present and mentions application/json. */
  predicate IsJson(contentType: Option<string>)
  {
    contentType.Some? && Contains(contentType.value, "application/json")
  }

  /** How a settled fetch resolves or rejects `request`. */
  function Settle(fetched: Fetched): Result<Value, RequestError>
  {
    match fetched
    case NetworkFailure(reason) => Err(FetchRejected(reason))
    case Received(response) =>
      if !response.ok then Err(FailureOf(response))
      else if IsJson(response.contentType) then
        (if response.json.Some? then Ok(response.json.value) else Err(InvalidJson))
      else Ok(Obj(map[]))
  }

  /** The parsed body is an object whose `message` is the non-empty string `m`. */
  predicate CarriesMessage(json: Option<Value>, m: string)
  {
    json.Some? && json.value.Obj? && "message" in json.value.fields
    && json.value.fields["message"] == Str(m) && m != ""
  }

  /** The fallback message: "API Error: " followed by the status code and text. */
  function StatusLine(response: Response): string
  {
    "API Error: " + IntToText(response.status) + " " + response.statusText
  }

  /** The body is an object with a truthy `message` field. */
  predicate HasTruthyMessage(body: Value)
  {
    body.Obj? && "message" in body.fields && Truthy(body.fields["message"])
  }

  /** The body can be read from but has no truthy `message`: `{}`, `{"message": ""}`, a string, and so on. */
  predicate LacksMessage(body: Value)
  {
    !body.Null? && !body.Undefined? && !HasTruthyMessage(body)
  }

  /**
   * A non-ok response always rejects: with `String(message)` when the parsed
   * body has a truthy `message`, with the status line when the body does not
   * parse or has no truthy `message`, and with the TypeError of reading a
   * property of null when the body is null.
   */
  lemma NonOkRejects(response: Response, m: string)
    requires !response.ok
    ensures Settle(Received(response)).Err?
    ensures response.json.None? ==> Settle(Received(response)) == Err(ApiError(StatusLine(response)))
    ensures response.json.Some? && (response.json.value.Null? || response.json.value.Undefined?) ==>
      Settle(Received(response)) == Err(PropertyOfNull)
    ensures response.json.Some? && HasTruthyMessage(response.json.value) ==>
      Settle(Received(response)) == Err(ApiError(ToText(response.json.value.fields["message"])))
    ensures response.json.Some? && LacksMessage(response.json.value) ==>
      Settle(Received(response)) == Err(ApiError(StatusLine(response)))
    ensures CarriesMessage(response.json, m) ==> Settle(Received(response)) == Err(ApiError(m))
  {
  }

  /** An ok response resolves to the parsed body when it is JSON, and to `{}` otherwise (204 and the like). */
  lemma OkResolves(response: Response)
    requires response.ok
    ensures IsJson(response.contentType) && response.json.Some? ==>
      Settle(Received(response)) == Ok(response.json.value)
    ensures !IsJson(response.contentType) ==> Settle(Received(response)) == Ok(Obj(map[]))
    ensures Settle(Received(response)).Err? <==> IsJson(response.contentType) && response.json.None?
  {
  }

  /**
   * `request`: the URL is the base followed directly by the endpoint (put
   * after the page origin when the base is relative) with the parameters appended, fetch is called once with the merged configuration,
   * and its outcome is passed on (failures after logging, without retry).
   */
  method Request(client: Client, endpoint: string, m: Method, options: RequestOptions,
                 origin: string, fetch: (RequestUrl, RequestConfig) -> Fetched)
    returns (url: RequestUrl, config: RequestConfig, result: Result<Value, RequestError>)
    ensures url.address == ResolvedAddress(client.baseUrl, endpoint, origin)
    ensures AddressAsWritten(client.baseUrl, endpoint).Ok? ==>
      url.address == AddressAsWritten(client.baseUrl, endpoint).value
    ensures url.query == if options.params.Some? then options.params.value else []
    ensures config == Config(client, m, options)
    ensures result == Settle(fetch(url, config))
  {
    url := RequestUrl(ResolvedAddress(client.baseUrl, endpoint, origin), []);
    if options.params.Some? {
      url := AppendParams(url, options.params.value);
    }
    config := Config(client, m, options);
    result := Settle(fetch(url, config));
  }

  /** A call of `request`: endpoint, method and options. */
  datatype Call = Call(endpoint: string, verb: Method, options: RequestOptions)

  /** Body of the verbs that send data: `JSON.stringify(data)`, nothing for undefined data. */
  function Stringified(data: Option<Value>): Body
  {
    if data.Some? then JsonOf(data.value) else NoBody
  }

  function Get(endpoint: string, options: Option<RequestOptions>): Call
  {
    Call(endpoint, GET, options.GetOr(EmptyOptions))
  }

  function Delete(endpoint: string, options: Option<RequestOptions>): Call
  {
    Call(endpoint, DELETE, options.GetOr(EmptyOptions))
  }

  /** The caller's options with the body replaced by the serialised data. */
  function WithData(data: Option<Value>, options: Option<RequestOptions>): RequestOptions
  {
    options.GetOr(EmptyOptions).(body := Stringified(data))
  }

  function Post(endpoint: string, data: Option<Value>, options: Option<RequestOptions>): Call
  {
    Call(endpoint, POST, WithData(data, options))
  }

  function Put(endpoint: string, data: Option<Value>, options: Option<RequestOptions>): Call
  {
    Call(endpoint, PUT, WithData(data, options))
  }

  function Patch(endpoint: string, data: Option<Value>, options: Option<RequestOptions>): Call
  {
    Call(endpoint, PATCH, WithData(data, options))
  }

  /**
   * post, put and patch always send the serialised data, whatever body the
   * options held, and keep every other option; get and delete pass the
   * options on untouched.
   */
  lemma VerbOptions(endpoint: string, data: Option<Value>, options: RequestOptions)
    ensures Post(endpoint, data, Some(options)).options == options.(body := Stringified(data))
    ensures Put(endpoint, data, Some(options)).options == options.(body := Stringified(data))
    ensures Patch(endpoint, data, Some(options)).options == options.(body := Stringified(data))
    ensures data.Some? ==> Post(endpoint, data, Some(options)).options.body == JsonOf(data.value)
    ensures Get(endpoint, Some(options)).options == options
    ensures Delete(endpoint, Some(options)).options == options
    ensures Post(endpoint, data, Some(options)).verb == POST && Get(endpoint, None).verb == GET
  {
  }
}
