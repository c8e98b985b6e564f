/** What both chat proxies (the Python service and the Next.js route) send to
    and receive from the Ollama inference server, as abstract values: the
    process configuration, the two conversation turns, and the shape of a
    decoded reply. The server itself is outside the model. */
module OllamaApi {
  import opened Wrappers

  /** `OLLAMA_ENDPOINT`, `OLLAMA_MODEL` and the fixed system prompt. The
      prompt is opaque text that is forwarded unread. */
  datatype Config = Config(endpoint: string, model: string, systemPrompt: string)

  datatype Role = System | User

  datatype Turn = Turn(role: Role, content: string)

  /** The conversation every call sends: the system prompt, then the user's message. */
  function Conversation(config: Config, message: string): (turns: seq<Turn>)
    ensures |turns| == 2
    ensures turns[0] == Turn(System, config.systemPrompt) && turns[1] == Turn(User, message)
  {
    [Turn(System, config.systemPrompt), Turn(User, message)]
  }

  /** The `message` member of a decoded reply: absent or falsy, some other
      truthy non-object value, or an object with an optional string `content`
      (`None` when absent, null or otherwise falsy). */
  datatype MessageField = NoMessage | NonObjectMessage | MessageObject(content: Option<string>)

  /** A reply body, or one line of a streamed reply, after JSON decoding.
      `done` is the truthiness of its `done` member. */
  datatype Reply = NotJson | JsonNull | NonObject | Object(message: MessageField, done: bool)

  /** The reply carries a non-empty `message.content`, the text both proxies forward. */
  predicate HasContent(r: Reply) {
    r.Object? && r.message.MessageObject? && r.message.content.Some? && r.message.content.value != ""
  }

  /** httpx's `is_success` and fetch's `response.ok`: a 2xx status. */
  predicate IsSuccess(status: nat) {
    200 <= status <= 299
  }
}
