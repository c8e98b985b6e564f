/** The Next.js route `frontend/app/api/chat/route.ts`: the same proxy as the
    Python service with its own rules. It accepts a whitespace-only message,
    always asks for a non-streamed reply with fixed options, reads a
    non-object `message` as a badly formed reply, trims with JavaScript's
    whitespace set, and reports any 2xx health probe as healthy. */
module ChatRoute {
  import opened Wrappers
  import opened OllamaApi
  import Text

  const DefaultEndpoint := "http://localhost:11434"
  const DefaultModel := "llama3.2"

  /** `process.env.X || default`: an unset or empty variable falls back. */
  function EnvOr(value: Option<string>, default: string): (r: string)
    ensures value.Some? && value.value != "" ==> r == value.value
    ensures value.None? || value.value == "" ==> r == default
  {
    if value.Some? && value.value != "" then value.value else default
  }

  function RouteConfig(endpoint: Option<string>, model: Option<string>, systemPrompt: string): Config {
    Config(EnvOr(endpoint, DefaultEndpoint), EnvOr(model, DefaultModel), systemPrompt)
  }

  /** The `message` member of the parsed request body. */
  datatype MessageArg = NonString | Str(text: string)

  /** The request body: not JSON, JSON `null` (whose destructuring throws), or
      any other JSON value, whose `message` member is read. */
  datatype RequestBody = BodyNotJson | BodyNull | BodyValue(message: MessageArg)

  /** The JSON sent to `/api/chat`: `stream` is always false and the options
      are constants, the last one under the key `max_tokens`. */
  datatype RoutePayload = RoutePayload(
    model: string, messages: seq<Turn>, stream: bool, temperature: real, topP: real, maxTokens: int)

  function Payload(config: Config, message: string): (p: RoutePayload)
    ensures p.model == config.model && p.messages == [Turn(System, config.systemPrompt), Turn(User, message)]
    ensures !p.stream && p.temperature == 0.7 && p.topP == 0.9 && p.maxTokens == 1000
  {
    RoutePayload(config.model, Conversation(config, message), false, 0.7, 0.9, 1000)
  }

  /** The JSON bodies the route answers with; `note` is the fallback body's `message` member. */
  datatype RouteResponse =
    | ChatAnswer(message: string, model: string, timestamp: string)
    | BadRequest(error: string)
    | Fallback(error: string, details: Option<string>, note: Option<string>)

  function StatusOf(r: RouteResponse): nat {
    match r
    case ChatAnswer(_, _, _) => 200
    case BadRequest(_) => 400
    case Fallback(_, _, _) => 500
  }

  /** What `fetch` gives back: it threw, or a status and the decoded body. */
  datatype Upstream = Unreachable | Answered(status: nat, body: Reply)

  const NotAString := "Message is required and must be a string"
  const ModelFailure := "Failed to get response from AI model"
  const InvalidFormat := "Invalid response format from AI model"

  function Internal(): RouteResponse {
    Fallback("Internal server error", None, Some("Failed to process chat request"))
  }

  /** The checks on the server's answer. A reply whose `message` is not an
      object has no `content` and so is a badly formed reply; only a reply
      that is not JSON, or is JSON `null`, makes the handler throw. */
  function HandleAnswer(config: Config, answer: Upstream, timestamp: string): (r: RouteResponse)
    ensures r.ChatAnswer? <==> answer.Answered? && IsSuccess(answer.status) && HasContent(answer.body)
    ensures r.ChatAnswer? ==> r == ChatAnswer(Text.Trim(answer.body.message.content.value, Text.IsJsSpace), config.model, timestamp)
    ensures answer.Answered? && !IsSuccess(answer.status)
            ==> r == Fallback(ModelFailure, Some("Status: " + Text.NatToString(answer.status)), None)
    ensures answer.Answered? && IsSuccess(answer.status) && (answer.body.NonObject? || answer.body.Object?) && !HasContent(answer.body)
            ==> r == Fallback(InvalidFormat, None, None)
    ensures StatusOf(r) != 400
  {
    match answer
    case Unreachable => Internal()
    case Answered(status, body) =>
      if !IsSuccess(status) then Fallback(ModelFailure, Some("Status: " + Text.NatToString(status)), None)
      else match body
        case NotJson => Internal()
        case JsonNull => Internal()
        case NonObject => Fallback(InvalidFormat, None, None)
        case Object(message, _) =>
          if message.MessageObject? && message.content.Some? && message.content.value != "" then
            ChatAnswer(Text.Trim(message.content.value, Text.IsJsSpace), config.model, timestamp)
          else Fallback(InvalidFormat, None, None)
  }

  /** `POST`. `server` answers the payload it is sent. */
  function Post(config: Config, body: RequestBody, server: RoutePayload -> Upstream, timestamp: string): (r: RouteResponse)
    ensures StatusOf(r) == 400 <==> body.BodyValue? && (body.message.NonString? || body.message.text == "")
    ensures r.BadRequest? ==> r.error == NotAString
    ensures !body.BodyValue? ==> r == Internal()
    ensures body.BodyValue? && body.message.Str? && body.message.text != ""
            ==> r == HandleAnswer(config, server(Payload(config, body.message.text)), timestamp)
  {
    match body
    case BodyNotJson => Internal()
    case BodyNull => Internal()
    case BodyValue(arg) =>
      if arg.NonString? || arg.text == "" then BadRequest(NotAString)
      else HandleAnswer(config, server(Payload(config, arg.text)), timestamp)
  }

  /** Unlike the Python service, a message of spaces only is sent on to the server. */
  lemma WhitespaceMessageForwarded(config: Config, text: string, server: RoutePayload -> Upstream, ts: string)
    requires text != [] && Text.AllSpace(text, Text.IsJsSpace)
    ensures Post(config, BodyValue(Str(text)), server, ts) == HandleAnswer(config, server(Payload(config, text)), ts)
    ensures StatusOf(Post(config, BodyValue(Str(text)), server, ts)) != 400
  {
  }

  // ---------------------------------------------------------------------
  // GET (health)

  datatype Health = Health(status: string, endpoint: string, model: string, timestamp: string, error: Option<string>)

  /** `fetch` of `/api/tags`: it threw, or it answered with a status. */
  datatype Probe = ProbeThrew | ProbeStatus(status: nat)

  function Get(config: Config, probe: Probe, timestamp: string): (r: Health)
    ensures r.endpoint == config.endpoint && r.model == config.model && r.timestamp == timestamp
    ensures r.status == "healthy" <==> probe.ProbeStatus? && IsSuccess(probe.status)
    ensures r.status == "healthy" || r.status == "unhealthy"
    ensures r.error.Some? <==> probe.ProbeThrew?
    ensures r.error.Some? ==> r.error.value == "Connection failed"
  {
    match probe
    case ProbeThrew => Health("unhealthy", config.endpoint, config.model, timestamp, Some("Connection failed"))
    case ProbeStatus(status) =>
      Health(if IsSuccess(status) then "healthy" else "unhealthy", config.endpoint, config.model, timestamp, None)
  }
}
