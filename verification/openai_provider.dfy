/** The OpenAI-compatible provider (core/providers/openai_provider.py): the request it builds, and
    how each HTTP outcome becomes a reply, a retry, None or an escaping exception. */
module OpenAiProvider {
  import opened Wrappers
  import opened JsonValues
  import opened PyStrings
  import opened ProviderBase
  import Retry

  const DEFAULT_BASE_URL: string := "http://127.0.0.1:1235/v1"

  datatype OpenAi = OpenAi(apiKey: string, model: string, baseUrl: string, timeout: real)

  /** The constructor: the base URL loses its trailing slashes. */
  function New(apiKey: string, model: string, baseUrl: string, timeout: real): (p: OpenAi)
    ensures p.apiKey == apiKey && p.model == model && p.timeout == timeout
    ensures |p.baseUrl| <= |baseUrl| && p.baseUrl == baseUrl[..|p.baseUrl|] && (p.baseUrl == "" || p.baseUrl[|p.baseUrl| - 1] != '/')
    ensures forall i :: |p.baseUrl| <= i < |baseUrl| ==> baseUrl[i] == '/'
  {
    OpenAi(apiKey, model, RStripChar(baseUrl, '/'), timeout)
  }

  /** Extra trailing slashes make no difference to the provider built. */
  lemma {:induction false} TrailingSlashIgnored(apiKey: string, model: string, baseUrl: string, timeout: real)
    ensures New(apiKey, model, baseUrl + "/", timeout) == New(apiKey, model, baseUrl, timeout)
  {
    assert (baseUrl + "/")[..|baseUrl|] == baseUrl;
  }

  /** The endpoint: the normalised base, then `/chat/completions`. */
  function ChatUrl(p: OpenAi): (url: string)
    ensures StartsWith(url, p.baseUrl) && url[|p.baseUrl|..] == "/chat/completions"
  {
    p.baseUrl + "/chat/completions"
  }

  function MessageJson(m: ChatMessage): Json {
    JObj(map["role" := JStr(m.role), "content" := JStr(m.content)])
  }

  /** The request body: model, messages, temperature and max_tokens, unchanged. */
  function Payload(p: OpenAi, messages: seq<ChatMessage>, temperature: real, maxTokens: int): (j: Object)
    ensures Get(j, "model") == JStr(p.model)
    ensures Get(j, "temperature") == JFloat(temperature) && Get(j, "max_tokens") == JInt(maxTokens)
    ensures Get(j, "messages").JArr? && |Get(j, "messages").items| == |messages|
    ensures forall i :: 0 <= i < |messages| ==> Get(j, "messages").items[i] == MessageJson(messages[i])
  {
    map["model" := JStr(p.model),
        "messages" := JArr(seq(|messages|, i requires 0 <= i < |messages| => MessageJson(messages[i]))),
        "temperature" := JFloat(temperature),
        "max_tokens" := JInt(maxTokens)]
  }

  function Headers(p: OpenAi): (h: map<string, string>)
    ensures h.Keys == {"Content-Type", "Authorization"}
    ensures h["Authorization"] == "Bearer " + p.apiKey
  {
    map["Content-Type" := "application/json", "Authorization" := "Bearer " + p.apiKey]
  }

  /** The exceptions an attempt can raise, by the class the handlers test. */
  datatype Exc =
    | Timeout            // requests.Timeout
    | ConnectionFailure  // requests.ConnectionError or the built-in ConnectionError
    | HttpError(status: int)
    | KeyErr
    | IndexErr
    | TypeErr
    | AttributeErr
    | JsonBodyError      // response.json() on a body that is not JSON
    | OtherError

  /** The retryable set: only timeouts and connection errors. */
  predicate Retryable(e: Exc) {
    e.Timeout? || e.ConnectionFailure?
  }

  /** `max_attempts=3, base_delay=1.0, max_delay=30.0`, the default exponential base 2. */
  const POLICY: Retry.Policy := Retry.Policy(3, 1.0, 30.0, 2.0)

  /** What `requests.post` gave: a response with its status and JSON body (None when the body is
      not JSON), or an exception. */
  datatype HttpOutcome = Response(status: int, body: Option<Json>) | Failed(error: Exc)

  /** `x[key]` on a decoded JSON value. */
  function Index(j: Json, key: string): Result<Json, Exc> {
    match j
    case JObj(m) => if key in m then Ok(m[key]) else Err(KeyErr)
    case _ => Err(TypeErr)
  }

  /** `x[0]` on a decoded JSON value. */
  function First(j: Json): Result<Json, Exc> {
    match j
    case JArr(a) => if a == [] then Err(IndexErr) else Ok(a[0])
    case JObj(_) => Err(KeyErr)
    case JStr(s) => if s == "" then Err(IndexErr) else Ok(JStr(s[..1]))
    case _ => Err(TypeErr)
  }

  /** `data["choices"][0]["message"]["content"].strip()`. */
  function ReplyText(body: Json): (r: Result<string, Exc>)
    ensures r.Ok? ==> r.value == [] || (!IsSpace(r.value[0]) && !IsSpace(r.value[|r.value| - 1]))
    ensures !body.JObj? ==> r == Err(TypeErr)
    ensures body.JObj? && "choices" !in body.fields ==> r == Err(KeyErr)
    ensures r.Ok? ==> body.JObj? && "choices" in body.fields
  {
    match Index(body, "choices")
    case Err(e) => Err(e)
    case Ok(choices) =>
      match First(choices)
      case Err(e) => Err(e)
      case Ok(choice) =>
        match Index(choice, "message")
        case Err(e) => Err(e)
        case Ok(message) =>
          match Index(message, "content")
          case Err(e) => Err(e)
          case Ok(content) => if content.JStr? then Ok(Strip(content.s)) else Err(AttributeErr)
  }

  /** One `_do_request`: `raise_for_status` for 4xx and 5xx, then the body. */
  function Attempt(o: HttpOutcome): (r: Retry.Outcome<string, Exc>)
    ensures o.Failed? ==> r == Retry.Raised(o.error)
    ensures o.Response? && 400 <= o.status < 600 ==> r == Retry.Raised(HttpError(o.status))
  {
    match o
    case Failed(e) => Retry.Raised(e)
    case Response(status, body) =>
      if 400 <= status < 600 then Retry.Raised(HttpError(status))
      else if body.None? then Retry.Raised(JsonBodyError)
      else
        match ReplyText(body.value)
        case Ok(s) => Retry.Returned(s)
        case Err(e) => Retry.Raised(e)
  }

  /** `generate_content`: the reply, or None after exhausted retries, an HTTP error or a malformed
      response; other exceptions escape (`Err`). `http(k)` is what the k-th attempt's request gives.
      Also returns the number of requests made. */
  function GenerateContent(http: nat -> HttpOutcome): (r: (Result<Option<string>, Exc>, nat))
    ensures r.1 <= 3
  {
    var run := Retry.RetryCall(POLICY, Retryable, k => Attempt(http(k)));
    var result := match run.result
      case Value(s) => Ok(Some(s))
      case NoValue => Ok(None)
      case RetryError(_) => Ok(None)
      case Propagated(e) =>
        if e.HttpError? || e.KeyErr? || e.IndexErr? then Ok(None) else Err(e);
    (result, run.calls)
  }

  /** A reply is returned whitespace-stripped after one request; a whitespace-only reply gives "". */
  lemma ReplyStripped(http: nat -> HttpOutcome, content: string)
    requires http(1) == Response(200, Some(JObj(map["choices" := JArr([JObj(map["message" := JObj(map["content" := JStr(content)])])])])))
    ensures GenerateContent(http) == (Ok(Some(Strip(content))), 1)
  {
    var message := JObj(map["content" := JStr(content)]);
    var choice := JObj(map["message" := message]);
    var body := JObj(map["choices" := JArr([choice])]);
    assert Index(body, "choices") == Ok(JArr([choice]));
    assert First(JArr([choice])) == Ok(choice);
    assert Index(choice, "message") == Ok(message);
    assert Index(message, "content") == Ok(JStr(content));
    assert ReplyText(body) == Ok(Strip(content));
    assert Attempt(http(1)) == Retry.Returned(Strip(content));
  }

  /** Three timeouts or connection failures in a row give None after three requests. */
  lemma ExhaustedGivesNone(http: nat -> HttpOutcome)
    requires forall k :: 1 <= k <= 3 ==> http(k).Failed? && Retryable(http(k).error)
    ensures GenerateContent(http) == (Ok(None), 3)
  {
    Retry.Exhausted(POLICY, Retryable, k => Attempt(http(k)), 1);
  }

  /** An HTTP error status is not retried: one request, None. */
  lemma HttpErrorNotRetried(http: nat -> HttpOutcome, status: int, body: Option<Json>)
    requires http(1) == Response(status, body) && 400 <= status < 600
    ensures GenerateContent(http) == (Ok(None), 1)
  {
  }

  /** A response without `choices` gives None after one request; one whose content is not a
      string raises out of the provider. */
  lemma MalformedResponse(http: nat -> HttpOutcome)
    ensures http(1) == Response(200, Some(JObj(map[]))) ==> GenerateContent(http) == (Ok(None), 1)
    ensures http(1) == Response(200, Some(JObj(map["choices" := JArr([JObj(map["message" := JObj(map["content" := JNull])])])])))
      ==> GenerateContent(http) == (Err(AttributeErr), 1)
  {
  }
}
