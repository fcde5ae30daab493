/**
  The two REST endpoints with decision logic: `/chat`, which keeps one
  bounded history per conversation id, and `/home/control`, which reports
  the outcome of a device control call. The web framework is not modelled;
  an endpoint is a function from the request and the server state to the
  response and the new state.
 */
module RestApi {
  import opened Wrappers
  import opened Text
  import opened HomeControl
  import opened Conversation
  import opened Gemma

  /** The body of a `/chat` request. */
  datatype UserInput = UserInput(text: string, contextId: Option<string>)

  const DefaultContext := "default"

  /** `context_id or "default"`: a missing or empty id selects the default conversation. */
  function ContextIdOf(input: UserInput): (id: string)
    ensures id != ""
    ensures input.contextId.Some? && input.contextId.value != "" ==> id == input.contextId.value
    ensures input.contextId.None? || input.contextId.value == "" ==> id == DefaultContext
  {
    match input.contextId
    case Some(id) => if id != "" then id else DefaultContext
    case None => DefaultContext
  }

  /** The `/chat` response: the answer and the id used, or an HTTP error status. */
  datatype ChatReply = ChatOk(response: string, contextId: string) | ChatFailed(status: nat)

  /** The response together with the updated `conversation_contexts`. */
  datatype ChatResult = ChatResult(reply: ChatReply, contexts: map<string, seq<Message>>)

  /** The stored history of a conversation, empty for one not seen before. */
  function HistoryOf(contexts: map<string, seq<Message>>, id: string): seq<Message> {
    if id in contexts then contexts[id] else []
  }

  /** `contexts[id] = h`: only the entry of `id` changes. */
  function Store(contexts: map<string, seq<Message>>, id: string, h: seq<Message>): (r: map<string, seq<Message>>)
    ensures r.Keys == contexts.Keys + {id}
    ensures id in r && r[id] == h
    ensures forall k :: k in contexts && k != id ==> r[k] == contexts[k]
  {
    contexts[id := h]
  }

  /** The answer to a chat text: home control for a home command, the language model otherwise. */
  function ChatAnswer(text: string, d: Devices, delivered: bool, backend: Backend): Generation {
    if IsHomeCommand(text) then Response(HandleHomeCommand(text, d, delivered).reply)
    else Respond(backend, text)
  }

  /**
    The context update of `/chat` once the answer is known: the selected
    conversation gets an entry before anything else happens, and on success
    the exchange is recorded there. When the language model raised, the
    request fails with status 500 and the entry stays as it was (empty if
    new).
   */
  function Apply(contexts: map<string, seq<Message>>, id: string, text: string, answer: Generation)
    : (r: ChatResult)
    ensures r.contexts.Keys == contexts.Keys + {id}
    ensures forall k :: k in contexts && k != id ==> r.contexts[k] == contexts[k]
    ensures r.reply.ChatOk? <==> answer.Response?
    ensures r.reply.ChatOk? ==>
      && r.reply == ChatOk(answer.text, id)
      && r.contexts[id] == Record(HistoryOf(contexts, id), text, answer.text)
    ensures r.reply.ChatFailed? ==> r.reply.status == 500 && r.contexts[id] == HistoryOf(contexts, id)
  {
    var before := HistoryOf(contexts, id);
    match answer
    case Raised => ChatResult(ChatFailed(500), Store(contexts, id, before))
    case Response(t) => ChatResult(ChatOk(t, id), Store(contexts, id, Record(before, text, t)))
  }

  /** `/chat` */
  function Chat(contexts: map<string, seq<Message>>, input: UserInput, d: Devices, delivered: bool, backend: Backend)
    : (r: ChatResult)
  {
    Apply(contexts, ContextIdOf(input), input.text, ChatAnswer(input.text, d, delivered, backend))
  }

  /**
    Routing on the REST path: a home command is always answered by home
    control; otherwise the request fails exactly when the model raises.
   */
  lemma ChatRouting(
    contexts: map<string, seq<Message>>, input: UserInput, d: Devices, delivered: bool, backend: Backend)
    ensures var r := Chat(contexts, input, d, delivered, backend);
      && (IsHomeCommand(input.text) ==>
            r.reply == ChatOk(HandleHomeCommand(input.text, d, delivered).reply, ContextIdOf(input)))
      && (!IsHomeCommand(input.text) ==>
            (r.reply.ChatFailed? <==> Respond(backend, input.text).Raised?))
  {
    var g := ChatAnswer(input.text, d, delivered, backend);
  }

  /** Every stored conversation satisfies `ok`. */
  ghost predicate AllEntries(contexts: map<string, seq<Message>>, ok: seq<Message> -> bool) {
    forall k :: k in contexts ==> ok(contexts[k])
  }

  /** Every stored conversation consists of complete exchanges and holds at most ten messages. */
  ghost predicate ContextsWellFormed(contexts: map<string, seq<Message>>) {
    AllEntries(contexts, WellFormedHistory)
  }

  /** An update of one entry to a value satisfying `ok` keeps all entries satisfying `ok`. */
  lemma UpdateKeepsAll(
    contexts: map<string, seq<Message>>, after: map<string, seq<Message>>, id: string, ok: seq<Message> -> bool)
    requires AllEntries(contexts, ok)
    requires after.Keys == contexts.Keys + {id} && ok(after[id])
    requires forall k :: k in contexts && k != id ==> after[k] == contexts[k]
    ensures AllEntries(after, ok)
  {
    forall k | k in after
      ensures ok(after[k])
    {
      if k != id {
        assert after[k] == contexts[k];
      }
    }
  }

  /** The selected conversation is well formed after an update. */
  lemma ApplyKeepsSelectedWellFormed(contexts: map<string, seq<Message>>, id: string, text: string, answer: Generation)
    requires WellFormedHistory(HistoryOf(contexts, id))
    ensures WellFormedHistory(Apply(contexts, id, text, answer).contexts[id])
  {
    if answer.Response? {
      RecordPreservesAlternation(HistoryOf(contexts, id), text, answer.text);
    }
  }

  /** Recording an answer, or failing, keeps every stored conversation well formed. */
  lemma ApplyPreservesWellFormed(contexts: map<string, seq<Message>>, id: string, text: string, answer: Generation)
    requires ContextsWellFormed(contexts)
    ensures ContextsWellFormed(Apply(contexts, id, text, answer).contexts)
  {
    var after := Apply(contexts, id, text, answer).contexts;
    assert WellFormedHistory(HistoryOf(contexts, id));
    ApplyKeepsSelectedWellFormed(contexts, id, text, answer);
    UpdateKeepsAll(contexts, after, id, WellFormedHistory);
  }

  /** `/chat` keeps every stored conversation well formed. */
  lemma ChatPreservesWellFormed(
    contexts: map<string, seq<Message>>, input: UserInput, d: Devices, delivered: bool, backend: Backend)
    requires ContextsWellFormed(contexts)
    ensures ContextsWellFormed(Chat(contexts, input, d, delivered, backend).contexts)
  {
    ApplyPreservesWellFormed(contexts, ContextIdOf(input), input.text, ChatAnswer(input.text, d, delivered, backend));
  }

  /**
    The fallback model has no error handler of its own: when its generation
    raises, `/chat` answers 500 and the selected history stays as it was.
   */
  lemma FallbackErrorIsServerError(
    contexts: map<string, seq<Message>>, input: UserInput, d: Devices, delivered: bool, backend: Backend)
    requires !IsHomeCommand(input.text)
    requires backend.ThinkingBackend? && backend.decode(input.text).PipelineRaised?
    ensures var r := Chat(contexts, input, d, delivered, backend);
      r.reply == ChatFailed(500) && r.contexts[ContextIdOf(input)] == HistoryOf(contexts, ContextIdOf(input))
  {
  }

  /** Empty text is not rejected on this path: it is answered by the model and recorded. */
  lemma EmptyTextIsRecorded(
    contexts: map<string, seq<Message>>, contextId: Option<string>, d: Devices, delivered: bool, backend: Backend)
    requires backend.GemmaBackend? ==> backend.pipeline.Some?
    requires backend.ThinkingBackend? ==> backend.decode("").Generated?
    ensures var r := Chat(contexts, UserInput("", contextId), d, delivered, backend);
      r.reply.ChatOk? && r.contexts[r.reply.contextId][|r.contexts[r.reply.contextId]| - 2] == Message(UserRole, "")
  {
    assert !IsHomeCommand("") by {
      forall i | 0 <= i < |HomeKeywords| ensures !Contains(Lower(""), HomeKeywords[i]) {
        assert |HomeKeywords[i]| > 0;
      }
    }
  }

  // ---------------------------------------------------------------------------
  // `/home/control`

  /** The body of a `/home/control` request. */
  datatype HomeControlRequest = HomeControlRequest(deviceId: string, action: string, params: Params)

  /** The `/home/control` response. */
  datatype ControlReply = Success(message: string) | HttpError(status: nat)

  /**
    `/home/control`: the success message when the control call succeeds. A
    failure raises a 400 inside the endpoint's own catch-all handler, which
    turns it into a 500.
   */
  function ControlHomeDevice(d: Devices, request: HomeControlRequest, delivered: bool): (r: ControlReply)
    ensures r.Success? <==> ControlDevice(d, request.deviceId, request.action, request.params, delivered).ok
    ensures r.Success? ==> r.message == "Device " + request.deviceId + " controlled successfully"
    ensures r.HttpError? ==> r.status == 500
  {
    if ControlDevice(d, request.deviceId, request.action, request.params, delivered).ok
    then Success("Device " + request.deviceId + " controlled successfully")
    else HttpError(500)
  }

  /** An unknown device is reported as a server error, never as a bad request. */
  lemma UnknownDeviceIsServerError(d: Devices, request: HomeControlRequest, delivered: bool)
    requires request.deviceId !in d.info
    ensures ControlHomeDevice(d, request, delivered) == HttpError(500)
  {
  }
}
