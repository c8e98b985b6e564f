/** The request/response rules of the Python FastAPI proxy (`ollama-proxy/main.py`):
    validation of a chat request, the upstream payload, the checks on the
    upstream reply, the health report and the header filter of the generic
    pass-through. The upstream server is a function from the payload sent to
    the reply received, so that what is sent and whether anything is sent at
    all are both visible in the model. */
module OllamaProxy {
  import opened Wrappers
  import opened OllamaApi
  import Text

  const DefaultEndpoint := "http://localhost:11434"
  const DefaultModel := "gpt-oss:20b"

  /** `os.getenv(name, default)`: the default only when the variable is unset;
      a variable set to the empty string is used as it is. */
  function GetEnv(value: Option<string>, default: string): (r: string)
    ensures value.Some? ==> r == value.value
    ensures value.None? ==> r == default
  {
    match value
    case Some(v) => v
    case None => default
  }

  function ProxyConfig(endpoint: Option<string>, model: Option<string>, systemPrompt: string): Config {
    Config(GetEnv(endpoint, DefaultEndpoint), GetEnv(model, DefaultModel), systemPrompt)
  }

  /** The request body after pydantic has filled in absent fields; an explicit
      JSON null reaches the handler as `None`. */
  datatype ChatRequest = ChatRequest(
    message: string,
    stream: Option<bool>,
    temperature: Option<real>,
    topP: Option<real>,
    maxTokens: Option<int>)

  /** The request built from a body that carries only `message`. */
  function RequestWithDefaults(message: string): (r: ChatRequest)
    ensures r.message == message
    ensures r.stream == Some(false) && r.temperature == Some(0.7) && r.topP == Some(0.9) && r.maxTokens == Some(1000)
  {
    ChatRequest(message, Some(false), Some(0.7), Some(0.9), Some(1000))
  }

  datatype Options = Options(temperature: Option<real>, topP: Option<real>, numPredict: Option<int>)

  /** The JSON object posted to `/api/chat` of the server. */
  datatype Payload = Payload(model: string, messages: seq<Turn>, stream: Option<bool>, options: Options)

  /** The `detail` of an `HTTPException`: a plain string, or the object with
      `fallback: True` that the chat endpoint uses for upstream failures. */
  datatype Detail = Plain(text: string) | Fallback(error: string, details: Option<string>, message: Option<string>)

  datatype HttpError = HttpError(status: nat, detail: Detail)

  datatype ChatResponse = ChatResponse(message: string, model: string, timestamp: string)

  /** What `http_client.post` gives back: it raised, or a status and a body. */
  datatype Upstream = Unreachable | Answered(status: nat, body: Reply)

  const NotInitialised := "HTTP client not initialized"
  const EmptyMessage := "Message is required and cannot be empty"

  function IsBlank(message: string): bool {
    Text.Trim(message, Text.IsPySpace) == []
  }

  /** The guards both chat endpoints run before anything is sent. */
  function CheckRequest(clientReady: bool, req: ChatRequest): (r: Option<HttpError>)
    ensures !clientReady ==> r == Some(HttpError(500, Plain(NotInitialised)))
    ensures clientReady ==> (r.Some? <==> Text.AllSpace(req.message, Text.IsPySpace))
    ensures clientReady && r.Some? ==> r.value == HttpError(400, Plain(EmptyMessage))
  {
    Text.TrimEmptyIff(req.message, Text.IsPySpace);
    if !clientReady then Some(HttpError(500, Plain(NotInitialised)))
    else if req.message == [] || IsBlank(req.message) then Some(HttpError(400, Plain(EmptyMessage)))
    else None
  }

  /** Payload with the given `stream` flag: the two turns, the user turn being
      the message as received (not stripped), and the sampling options passed
      through with `max_tokens` renamed to `num_predict`. */
  function BuildPayload(config: Config, req: ChatRequest, stream: Option<bool>): Payload {
    Payload(config.model, Conversation(config, req.message), stream,
            Options(req.temperature, req.topP, req.maxTokens))
  }

  /** The payload of `/api/chat`, which forwards the caller's `stream` flag. */
  function ChatPayload(config: Config, req: ChatRequest): (p: Payload)
    ensures p.model == config.model && p.stream == req.stream
    ensures p.messages == [Turn(System, config.systemPrompt), Turn(User, req.message)]
    ensures p.options == Options(req.temperature, req.topP, req.maxTokens)
  {
    BuildPayload(config, req, req.stream)
  }

  const ModelFailure := "Failed to get response from AI model"
  const InvalidFormat := "Invalid response format from AI model"
  const InternalError := "Internal server error"
  const ProcessFailure := "Failed to process chat request"

  function FailedStatus(status: nat): HttpError {
    HttpError(500, Fallback(ModelFailure, Some("Status: " + Text.NatToString(status)), None))
  }

  function Internal(): HttpError {
    HttpError(500, Fallback(InternalError, None, Some(ProcessFailure)))
  }

  /** The handling of the server's answer. `response.json()` failing, a body
      that is not an object and a truthy non-object `message` all raise
      inside the handler and become the generic internal error. */
  function ChatReply(config: Config, answer: Upstream, timestamp: string): (r: Result<ChatResponse, HttpError>)
    ensures r.Success? <==> answer.Answered? && IsSuccess(answer.status) && HasContent(answer.body)
    ensures r.Success? ==> r.value == ChatResponse(Text.Trim(answer.body.message.content.value, Text.IsPySpace), config.model, timestamp)
    ensures answer.Answered? && !IsSuccess(answer.status) ==> r == Failure(FailedStatus(answer.status))
    ensures r.Failure? ==> r.error.status == 500 && r.error.detail.Fallback?
  {
    match answer
    case Unreachable => Failure(Internal())
    case Answered(status, body) =>
      if !IsSuccess(status) then Failure(FailedStatus(status))
      else match body
        case Object(NoMessage, _) => Failure(HttpError(500, Fallback(InvalidFormat, None, None)))
        case Object(MessageObject(content), _) =>
          if content.None? || content.value == "" then Failure(HttpError(500, Fallback(InvalidFormat, None, None)))
          else Success(ChatResponse(Text.Trim(content.value, Text.IsPySpace), config.model, timestamp))
        case _ => Failure(Internal())
  }

  /** `POST /api/chat`. `server` answers the payload it is sent. */
  function Chat(config: Config, clientReady: bool, req: ChatRequest, server: Payload -> Upstream, timestamp: string)
    : (r: Result<ChatResponse, HttpError>)
    ensures CheckRequest(clientReady, req).Some? ==> r == Failure(CheckRequest(clientReady, req).value)
    ensures CheckRequest(clientReady, req).None? ==> r == ChatReply(config, server(ChatPayload(config, req)), timestamp)
  {
    match CheckRequest(clientReady, req)
    case Some(e) => Failure(e)
    case None => ChatReply(config, server(ChatPayload(config, req)), timestamp)
  }

  /** A blank message is refused with 400 whatever the server would answer:
      it is never contacted. */
  lemma BlankMessageNeverSent(config: Config, req: ChatRequest, s1: Payload -> Upstream, s2: Payload -> Upstream, ts: string)
    requires Text.AllSpace(req.message, Text.IsPySpace)
    ensures Chat(config, true, req, s1, ts) == Chat(config, true, req, s2, ts) == Failure(HttpError(400, Plain(EmptyMessage)))
  {
  }

  // ---------------------------------------------------------------------
  // GET /health

  datatype HealthResponse = HealthResponse(status: string, endpoint: string, model: string, timestamp: string, error: Option<string>)

  /** `GET /api/tags` on the server: it raised with the given text, or it answered with a status. */
  datatype Probe = ProbeRaised(text: string) | ProbeStatus(status: nat)

  /** `str()` of the `HTTPException` raised for a missing client, as
      Starlette renders it ("<status>: <detail>"). */
  const NotInitialisedText := "500: " + NotInitialised

  /** The health report. It is always a value: every exception, including the
      one for an uninitialised client, is turned into an `unhealthy` report
      that carries the exception's text. */
  function HealthCheck(config: Config, clientReady: bool, probe: Probe, timestamp: string): (r: HealthResponse)
    ensures r.endpoint == config.endpoint && r.model == config.model && r.timestamp == timestamp
    ensures r.status == "healthy" <==> clientReady && probe == ProbeStatus(200)
    ensures r.status == "healthy" || r.status == "unhealthy"
    ensures r.error.Some? <==> !clientReady || probe.ProbeRaised?
    ensures !clientReady ==> r.error == Some(NotInitialisedText)
    ensures clientReady && probe.ProbeRaised? ==> r.error == Some(probe.text)
  {
    if !clientReady then HealthResponse("unhealthy", config.endpoint, config.model, timestamp, Some(NotInitialisedText))
    else match probe
      case ProbeRaised(text) => HealthResponse("unhealthy", config.endpoint, config.model, timestamp, Some(text))
      case ProbeStatus(status) =>
        HealthResponse(if status == 200 then "healthy" else "unhealthy", config.endpoint, config.model, timestamp, None)
  }

  /** A 2xx status other than 200 is reported unhealthy by this service. */
  lemma HealthIsExactly200(config: Config, ts: string)
    ensures HealthCheck(config, true, ProbeStatus(204), ts).status == "unhealthy"
    ensures IsSuccess(204)
  {
  }

  // ---------------------------------------------------------------------
  // The generic pass-through /api/{path}

  /** Lower-casing of header names, folding A-Z only. Python's `str.lower`
      folds all of Unicode, but the two agree on the `host` test: no
      character outside A-Z lower-cases to one of the letters of `host`,
      and the server hands over header names already in lower case. */
  function Lower(s: string): (r: string)
    ensures |r| == |s|
    ensures forall i :: 0 <= i < |s| ==> r[i] == if 'A' <= s[i] <= 'Z' then (s[i] as int + 32) as char else s[i]
  {
    seq(|s|, i requires 0 <= i < |s| => if 'A' <= s[i] <= 'Z' then (s[i] as int + 32) as char else s[i])
  }

  predicate IsHost(name: string) {
    Lower(name) == "host"
  }

  /** `{k: v for k, v in request.headers.items() if k.lower() != "host"}`,
      built left to right. */
  function ForwardedHeaders(headers: seq<(string, string)>): map<string, string>
    decreases |headers|
  {
    if headers == [] then map[]
    else
      var (k, v) := headers[|headers| - 1];
      var m := ForwardedHeaders(headers[..|headers| - 1]);
      if IsHost(k) then m else m[k := v]
  }

  predicate HasHeader(headers: seq<(string, string)>, k: string) {
    exists i :: 0 <= i < |headers| && headers[i].0 == k
  }

  /** The names forwarded are those of the incoming headers except `host`, in
      any letter case. */
  lemma {:induction false} ForwardedHeaderNames(headers: seq<(string, string)>)
    ensures forall k :: k in ForwardedHeaders(headers) <==> !IsHost(k) && HasHeader(headers, k)
    decreases |headers|
  {
    if headers != [] {
      var init := headers[..|headers| - 1];
      ForwardedHeaderNames(init);
      forall k ensures HasHeader(headers, k) <==> HasHeader(init, k) || headers[|headers| - 1].0 == k {
        if HasHeader(headers, k) && headers[|headers| - 1].0 != k {
          var i :| 0 <= i < |headers| && headers[i].0 == k;
          assert init[i] == headers[i];
        }
        if HasHeader(init, k) {
          var i :| 0 <= i < |init| && init[i].0 == k;
          assert init[i] == headers[i];
        }
      }
    }
  }

  /** A repeated name is forwarded with the value of its last occurrence. */
  lemma {:induction false} ForwardedHeaderLastWins(headers: seq<(string, string)>, i: nat)
    requires i < |headers| && !IsHost(headers[i].0)
    requires forall j :: i < j < |headers| ==> headers[j].0 != headers[i].0
    ensures headers[i].0 in ForwardedHeaders(headers) && ForwardedHeaders(headers)[headers[i].0] == headers[i].1
    decreases |headers|
  {
    var init := headers[..|headers| - 1];
    if i < |headers| - 1 {
      assert init[i] == headers[i];
      forall j | i < j < |init| ensures init[j].0 != init[i].0 {
        assert init[j] == headers[j];
      }
      ForwardedHeaderLastWins(init, i);
    }
  }

  /** The request sent upstream by the pass-through: same method, the path
      under the server's `/api/`, the query parameters, the filtered headers,
      and a body only for POST and PUT. */
  datatype ProxiedRequest = ProxiedRequest(
    verb: string, url: string, params: map<string, string>, headers: map<string, string>, content: Option<string>)

  /** The pass-through before the server is called. Its catch-all handler
      also catches the exception for a missing client, so that one surfaces
      wrapped as a proxy failure. */
  function ProxyRequest(config: Config, clientReady: bool, verb: string, path: string, query: map<string, string>,
                        headers: seq<(string, string)>, body: string): (r: Result<ProxiedRequest, HttpError>)
    ensures r.Failure? <==> !clientReady
    ensures r.Failure? ==> r.error == HttpError(500, Plain("Proxy request failed: " + NotInitialisedText))
    ensures r.Success? ==> r.value.verb == verb && r.value.url == config.endpoint + "/api/" + path && r.value.params == query
    ensures r.Success? ==> (r.value.content.Some? <==> verb == "POST" || verb == "PUT")
    ensures r.Success? && r.value.content.Some? ==> r.value.content.value == body
    ensures r.Success? ==> r.value.headers == ForwardedHeaders(headers)
  {
    if !clientReady then Failure(HttpError(500, Plain("Proxy request failed: " + NotInitialisedText)))
    else Success(ProxiedRequest(verb, config.endpoint + "/api/" + path, query, ForwardedHeaders(headers),
                                if verb == "POST" || verb == "PUT" then Some(body) else None))
  }
}
