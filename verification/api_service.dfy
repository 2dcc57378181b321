/** The streaming chat client (`ApiService`, src/services/apiService.js):
    model selection, the request it sends, the classification of a failed
    HTTP response, and the read loop that frames the streamed body into
    lines and routes each parsed event to the caller's callbacks.

    The callbacks are modelled as the trace of events they receive, in
    order: `Chunk` for `onChunk`, `Reasoning` for `onReasoning`, `Complete`
    for `onComplete` and `Error` for `onError`. Callbacks are assumed not to
    throw. */
module ApiService {
  import opened Wrappers
  import opened Text
  import opened Framing
  import opened Seqs

  // ---------------------------------------------------------------------
  // Model selection
  // ---------------------------------------------------------------------

  const ApiBaseUrl: string := "https://api.deepseek.com"
  const ChatModel: string := "deepseek-chat"
  const ReasonerModel: string := "deepseek-reasoner"

  /** The two model identifiers `setModel` accepts. */
  predicate SupportedModel(name: string) {
    name == ChatModel || name == ReasonerModel
  }

  /** The client's state: the endpoint it talks to and the selected model. */
  datatype Client = Client(baseUrl: string, model: string) {
    predicate Valid() {
      SupportedModel(model)
    }
  }

  /** The constructor: the chat model is selected until told otherwise. */
  function NewClient(): (c: Client)
    ensures c.Valid() && c.model == ChatModel
  {
    Client(ApiBaseUrl, ChatModel)
  }

  /** `setModel`: switches to a supported model; any other name is rejected
      (only a console warning in the source) and leaves the client as it
      was. */
  function SetModel(c: Client, name: string): (r: Client)
    ensures SupportedModel(name) ==> r.model == name
    ensures !SupportedModel(name) ==> r == c
    ensures r.baseUrl == c.baseUrl
    ensures c.Valid() ==> r.Valid()
  {
    if SupportedModel(name) then c.(model := name) else c
  }

  /** `getModel`: the selected model, which is always a supported one. */
  function GetModel(c: Client): (name: string)
    requires c.Valid()
    ensures name == c.model
    ensures SupportedModel(name)
  {
    c.model
  }

  // ---------------------------------------------------------------------
  // Request construction
  // ---------------------------------------------------------------------

  const HistoryWindow: nat := 10
  const SystemRole: string := "system"

  datatype Message = Message(role: string, content: string)

  /** The JSON body of the POST to `/chat/completions`. */
  datatype Request = Request(model: string, messages: seq<Message>, stream: bool)

  /** The request body: the selected model, the system prompt as the first
      message followed by the most recent `HistoryWindow` history entries
      (oldest first, only `role` and `content` kept), and `stream: true`. */
  function BuildRequest(c: Client, systemPrompt: string, history: seq<Message>): (r: Request)
    ensures r.model == c.model && r.stream
    ensures |r.messages| == 1 + Min(HistoryWindow, |history|) && |r.messages| <= HistoryWindow + 1
    ensures r.messages[0] == Message(SystemRole, systemPrompt)
    ensures forall k :: 1 <= k < |r.messages| ==>
      r.messages[k] == history[|history| - |r.messages| + k]
  {
    var window := LastN(history, HistoryWindow);
    var messages := [Message(SystemRole, systemPrompt)] + window;
    assert messages[1..] == window;
    Request(c.model, messages, true)
  }

  // ---------------------------------------------------------------------
  // HTTP failure classification
  // ---------------------------------------------------------------------

  const InvalidKeyMessage: string := "API Key 无效，请检查您的密钥是否正确。"
  const RateLimitMessage: string := "API 调用频率过高，请稍后再试。"
  const ApiErrorPrefix: string := "API 错误: "
  const UnknownErrorDetail: string := "未知错误"
  const HttpErrorPrefix: string := "HTTP 错误: "
  const StreamReadFailedMessage: string := "数据流读取失败，请重试。"
  const NetworkFailedMessage: string := "网络连接失败，请检查您的网络连接。"

  /** `response.ok`: a status in the range 200-299. */
  predicate IsOk(status: nat) {
    200 <= status <= 299
  }

  /** What `response.json()` followed by `errorData.error?.message` yields:
      either that throws (the body is not JSON, or it is JSON `null`), or it
      does not, and `message` is the error message when it is present as a
      string. */
  datatype ErrorBody = Unreadable | ErrorJson(message: Option<string>)

  /** The kinds of failed response the client tells apart. */
  datatype HttpFailure =
    | InvalidKey
    | RateLimited
    | ApiError(detail: string)
    | HttpError(status: nat)

  /** Classifies a non-OK response (src/services/apiService.js:51-62). */
  function ClassifyFailure(status: nat, body: ErrorBody): (f: HttpFailure)
    ensures f.InvalidKey? <==> status == 401
    ensures f.RateLimited? <==> status == 429
    ensures f.HttpError? <==> status != 401 && status != 429 && body.Unreadable?
    ensures f.HttpError? ==> f.status == status
    ensures f.ApiError? ==> f.detail != "" && f.detail == OrElse(body.message, UnknownErrorDetail)
  {
    if status == 401 then InvalidKey
    else if status == 429 then RateLimited
    else match body
      case Unreadable => HttpError(status)
      case ErrorJson(message) => ApiError(OrElse(message, UnknownErrorDetail))
  }

  /** The text handed to `onError` for each kind of failure. The detail of
      an API error, and the status of an HTTP error, can be read back from
      the text after its prefix. */
  function FailureMessage(f: HttpFailure): (m: string)
    ensures f.InvalidKey? ==> m == InvalidKeyMessage
    ensures f.RateLimited? ==> m == RateLimitMessage
    ensures f.ApiError? ==> StartsWith(m, ApiErrorPrefix) && m[|ApiErrorPrefix|..] == f.detail
    ensures f.HttpError? ==>
      && StartsWith(m, HttpErrorPrefix)
      && ReadsAsDecimal(m[|HttpErrorPrefix|..])
      && DecimalValue(m[|HttpErrorPrefix|..]) == f.status
  {
    match f
    case InvalidKey => InvalidKeyMessage
    case RateLimited => RateLimitMessage
    case ApiError(detail) =>
      var m := ApiErrorPrefix + detail;
      assert m[..|ApiErrorPrefix|] == ApiErrorPrefix && m[|ApiErrorPrefix|..] == detail;
      m
    case HttpError(status) =>
      var m := HttpErrorPrefix + NatToString(status);
      assert m[..|HttpErrorPrefix|] == HttpErrorPrefix && m[|HttpErrorPrefix|..] == NatToString(status);
      DecimalRoundTrip(status);
      m
  }

  // ---------------------------------------------------------------------
  // Events and line routing
  // ---------------------------------------------------------------------

  /** One callback invocation. */
  datatype Event = Chunk(text: string) | Reasoning(text: string) | Complete | Error(message: string) {
    predicate IsTerminal() {
      Complete? || Error?
    }
  }

  /** The parsed `choices[0].delta` of one event: its `content` and
      `reasoning_content` fields, when present as strings. */
  datatype Delta = Delta(content: Option<string>, reasoning: Option<string>)

  /** What one call of `sendMessageStream` reads per line: the model
      selected (`this.model`), whether an `onReasoning` callback was
      supplied, and the JSON parser, an abstract partial function from the
      payload text to its delta (`None` when `JSON.parse` throws or the
      value has no readable delta). */
  datatype StreamContext = StreamContext(model: string, hasOnReasoning: bool, parse: string -> Option<Delta>)

  const DataPrefix: string := "data: "
  const DoneSentinel: string := "data: [DONE]"

  /** The JSON payload of a line, if it is an event line: trimmed, not
      empty, not the `[DONE]` sentinel, and starting with `data: `
      (src/services/apiService.js:86-93). */
  function Payload(line: string): (p: Option<string>)
    ensures p.Some? ==> StartsWith(Trim(line), DataPrefix) && Trim(line) == DataPrefix + p.value
    ensures p.None? <==> Trim(line) == "" || Trim(line) == DoneSentinel || !StartsWith(Trim(line), DataPrefix)
  {
    var t := Trim(line);
    if t == "" || t == DoneSentinel || !StartsWith(t, DataPrefix) then None
    else
      assert t == t[..|DataPrefix|] + t[|DataPrefix|..];
      Some(t[|DataPrefix|..])
  }

  /** Whether a reasoning fragment reaches `onReasoning`: only when the
      callback was supplied and the reasoner model is selected. */
  predicate ReasoningEnabled(ctx: StreamContext) {
    ctx.hasOnReasoning && ctx.model == ReasonerModel
  }

  /** The events one complete line produces (src/services/apiService.js:86-111):
      nothing for a skipped or unparsable line; otherwise the content
      fragment, then the reasoning fragment, each only when non-empty. */
  function DispatchLine(ctx: StreamContext, line: string): (events: seq<Event>)
    ensures |events| <= 2
    ensures forall k :: 0 <= k < |events| ==> !events[k].IsTerminal() && events[k].text != ""
    ensures forall k :: 0 <= k < |events| && events[k].Reasoning? ==> ReasoningEnabled(ctx)
    ensures |events| == 2 ==> events[0].Chunk? && events[1].Reasoning?
    ensures Payload(line).None? ==> events == []
  {
    match Payload(line)
    case None => []
    case Some(json) =>
      match ctx.parse(json)
      case None => []
      case Some(delta) =>
        (if Truthy(delta.content) then [Chunk(delta.content.value)] else [])
        + (if Truthy(delta.reasoning) && ReasoningEnabled(ctx) then [Reasoning(delta.reasoning.value)] else [])
  }

  /** The callback a line reaches, as a function of the line. */
  function Route(ctx: StreamContext): string -> seq<Event> {
    line => DispatchLine(ctx, line)
  }

  /** Whether an event may be produced by a line: a non-empty fragment,
      and a reasoning fragment only when reasoning is enabled. */
  predicate LineEvent(ctx: StreamContext, e: Event) {
    !e.IsTerminal() && e.text != "" && (e.Reasoning? ==> ReasoningEnabled(ctx))
  }

  /** The events of consecutive complete lines, in order. */
  function DispatchLines(ctx: StreamContext, lines: seq<string>): (events: seq<Event>)
    ensures forall k :: 0 <= k < |events| ==> LineEvent(ctx, events[k])
  {
    FlatMapPreserves(Route(ctx), lines, e => LineEvent(ctx, e));
    FlatMap(Route(ctx), lines)
  }

  // ---------------------------------------------------------------------
  // The read loop
  // ---------------------------------------------------------------------

  /** How the transport ends the body: `reader.read()` reports `done`, or it
      throws. */
  datatype StreamEnd = Done | ReadFailed

  /** `done` completes the stream and a failed read reports the
      stream-read error; nothing else ends a trace. */
  function TerminalEvent(end: StreamEnd): (e: Event)
    ensures e.IsTerminal()
    ensures end == Done <==> e == Complete
    ensures end == ReadFailed <==> e == Error(StreamReadFailedMessage)
  {
    match end
    case Done => Complete
    case ReadFailed => Error(StreamReadFailedMessage)
  }

  /** The read loop (src/services/apiService.js:70-117) over the decoded
      chunks the transport delivers before it ends. The buffer starts empty;
      each chunk is framed against it and its complete lines are dispatched
      before the next chunk is read. At `done` the loop signals completion
      and stops, dropping whatever is left in the buffer; a read failure
      signals the stream-read error instead. The trace is what dispatching
      the complete lines of the whole body at once would give, whatever the
      chunk boundaries; it ends with exactly one terminal event, and every
      event before it is a non-empty fragment. */
  function ReadLoop(ctx: StreamContext, chunks: seq<string>, end: StreamEnd): (events: seq<Event>)
    ensures |events| >= 1 && events[|events| - 1] == TerminalEvent(end)
    ensures forall k :: 0 <= k < |events| - 1 ==> LineEvent(ctx, events[k])
  {
    var events := FeedAll(Route(ctx), "", chunks);
    assert events == DispatchLines(ctx, Completed("" + Flatten(chunks)));
    events + [TerminalEvent(end)]
  }

  /** The read loop's trace is what dispatching the complete lines of the
      whole body at once would give, followed by the terminal event. */
  lemma ReadLoopWholeText(ctx: StreamContext, chunks: seq<string>, end: StreamEnd)
    ensures ReadLoop(ctx, chunks, end) == DispatchLines(ctx, Completed(Flatten(chunks))) + [TerminalEvent(end)]
  {
    assert FeedAll(Route(ctx), "", chunks) == DispatchLines(ctx, Completed("" + Flatten(chunks)));
    assert "" + Flatten(chunks) == Flatten(chunks);
  }

  // ---------------------------------------------------------------------
  // The whole call
  // ---------------------------------------------------------------------

  /** What the network does with the request: `fetch` rejects, or a
      response arrives with its status, what its error body reads as, and
      the decoded chunks of its body followed by how the body ends. */
  datatype Transport =
    | NetworkFailure
    | Response(status: nat, errorBody: ErrorBody, chunks: seq<string>, end: StreamEnd)

  /** `sendMessageStream` (src/services/apiService.js:24-124) for one
      sequential call, as the trace of callbacks it makes; the request it
      sends is `BuildRequest` of the same client. A network failure or a
      non-OK status produces a single `onError` and no reading; an OK
      response runs the read loop with the selected model deciding whether
      reasoning fragments are delivered. Exactly one terminal event is
      signalled, last, and it is `onComplete` exactly when the response was
      OK and its body ended normally. */
  function SendMessageStream(c: Client, hasOnReasoning: bool, parse: string -> Option<Delta>,
                             transport: Transport): (events: seq<Event>)
    ensures |events| >= 1 && events[|events| - 1].IsTerminal()
    ensures forall k :: 0 <= k < |events| - 1 ==> !events[k].IsTerminal()
    ensures transport.NetworkFailure? ==> events == [Error(NetworkFailedMessage)]
    ensures transport.Response? && IsOk(transport.status) ==>
      events == DispatchLines(StreamContext(c.model, hasOnReasoning, parse),
                              Completed(Flatten(transport.chunks))) + [TerminalEvent(transport.end)]
    ensures transport.Response? && !IsOk(transport.status) ==>
      events == [Error(FailureMessage(ClassifyFailure(transport.status, transport.errorBody)))]
    ensures Complete in events <==> transport.Response? && IsOk(transport.status) && transport.end == Done
    ensures forall k :: 0 <= k < |events| && events[k].Reasoning? ==>
      c.model == ReasonerModel && hasOnReasoning
  {
    match transport
    case NetworkFailure => [Error(NetworkFailedMessage)]
    case Response(status, errorBody, chunks, end) =>
      if !IsOk(status) then
        [Error(FailureMessage(ClassifyFailure(status, errorBody)))]
      else
        var ctx := StreamContext(c.model, hasOnReasoning, parse);
        ReadLoopWholeText(ctx, chunks, end);
        var events := ReadLoop(ctx, chunks, end);
        assert Complete in events <==> events[|events| - 1] == Complete;
        events
  }
}
