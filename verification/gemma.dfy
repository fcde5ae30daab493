/**
  The text side of the language-model wrappers: Gemma's turn markers around
  a prompt or a role-tagged history, the extraction of the model's answer
  from the generated text, and the post-processing of the lighter fallback
  model.

  The text-generation pipeline is a parameter: a function from the prompt
  to the full generated text (which the pipeline returns with the prompt in
  front), or to the fact that it raised. The fallback model's tokenizer,
  sampling and decoding together are likewise one function from the prompt
  to the decoded text.
 */
module Gemma {
  import opened Wrappers
  import opened Text
  import opened Conversation

  const StartOfTurn := "<start_of_turn>"
  const EndOfTurn := "<end_of_turn>"

  /** Returned when the pipeline raises while generating. */
  const Apology := "Sorry, I couldn't process that request."

  /** The header that asks the model to answer: the last line of every prompt. */
  const ModelCue := StartOfTurn + "model\n"

  /** A user turn of the Gemma chat template. */
  function UserTurn(content: string): string {
    StartOfTurn + "user\n" + content + EndOfTurn + "\n"
  }

  /** A model turn of the Gemma chat template. */
  function ModelTurn(content: string): string {
    ModelCue + content + EndOfTurn + "\n"
  }

  /** The prompt `generate_response` sends: one user turn, then the model cue. */
  function FormatPrompt(prompt: string): (r: string)
    ensures r == UserTurn(prompt) + ModelCue
    ensures |r| == |prompt| + 55
  {
    UserTurn(prompt) + ModelCue
  }

  /** `text[n:]`: what follows the first `n` characters, empty when there are fewer. */
  function DropPrefix(text: string, n: nat): (r: string)
    ensures n <= |text| ==> text == text[..n] + r
    ensures n >= |text| ==> r == ""
  {
    if n <= |text| then text[n..] else ""
  }

  /**
    The answer inside generated text: drop the `promptLength` characters of
    the prompt, keep what comes before the first end-of-turn marker, strip.
   */
  function ExtractResponse(generated: string, promptLength: nat): (r: string)
    ensures !Contains(r, EndOfTurn)
    ensures var rest := DropPrefix(generated, promptLength);
      !Contains(rest, EndOfTurn) ==> r == Strip(rest)
    ensures var rest := DropPrefix(generated, promptLength);
      forall k: nat :: OccursAt(rest, EndOfTurn, k) && (forall j: nat :: j < k ==> !OccursAt(rest, EndOfTurn, j))
        ==> r == Strip(rest[..k])
  {
    var rest := DropPrefix(generated, promptLength);
    var answer := BeforeFirst(rest, EndOfTurn);
    StripKeepsAbsence(answer, EndOfTurn);
    Strip(answer)
  }

  /** No proper prefix of the end-of-turn marker is also a suffix of it: '<' occurs only at its start. */
  lemma MarkerHasNoBorder(x: string, j: nat)
    requires j < |x| < j + |EndOfTurn|
    ensures !OccursAt(x + EndOfTurn, EndOfTurn, j)
  {
    var s := x + EndOfTurn;
    var k := |x| - j;
    assert s[|x|] == '<';
    assert EndOfTurn[k] != '<';
    assert s[j..j + |EndOfTurn|][k] == s[|x|];
  }

  /**
    Round trip: when the pipeline returns the formatted prompt followed by an
    answer and then an end-of-turn marker, the answer comes back stripped.
   */
  lemma ExtractAfterFormat(prompt: string, answer: string, more: string)
    requires !Contains(answer, EndOfTurn)
    ensures ExtractResponse(FormatPrompt(prompt) + answer + EndOfTurn + more, |FormatPrompt(prompt)|)
         == Strip(answer)
  {
    var p := FormatPrompt(prompt);
    var rest := answer + EndOfTurn + more;
    assert DropPrefix(p + answer + EndOfTurn + more, |p|) == rest;
    assert rest[..|answer|] == answer;
    assert OccursAt(rest, EndOfTurn, |answer|);
    forall j: nat | j < |answer|
      ensures !OccursAt(rest, EndOfTurn, j)
    {
      if j + |EndOfTurn| <= |answer| {
        assert rest[j..j + |EndOfTurn|] == answer[j..j + |EndOfTurn|];
        assert !OccursAt(answer, EndOfTurn, j);
      } else {
        MarkerHasNoBorder(answer, j);
        assert rest[j..j + |EndOfTurn|] == (answer + EndOfTurn)[j..j + |EndOfTurn|];
      }
    }
  }

  /** Round trip without a closing marker: the rest of the text, stripped. */
  lemma ExtractAfterFormatUnclosed(prompt: string, answer: string)
    requires !Contains(answer, EndOfTurn)
    ensures ExtractResponse(FormatPrompt(prompt) + answer, |FormatPrompt(prompt)|) == Strip(answer)
  {
    var p := FormatPrompt(prompt);
    assert DropPrefix(p + answer, |p|) == answer;
  }

  // ---------------------------------------------------------------------------
  // Generation

  /** What one pipeline call gives: the generated text, or an exception. */
  datatype PipelineOutput = Generated(text: string) | PipelineRaised

  /** `llm_pipeline`: `None` before loading or after unloading, otherwise the pipeline. */
  type Pipeline = Option<string -> PipelineOutput>

  /**
    The result of a model's `generate_response`: an answer, or an exception
    raised out of it (for Gemma, the RuntimeError when no pipeline is loaded).
   */
  datatype Generation = Response(text: string) | Raised

  /** `GemmaWrapper.generate_response` */
  function GenerateResponse(pipeline: Pipeline, prompt: string): (g: Generation)
    ensures g.Raised? <==> pipeline.None?
    ensures g.Response? ==> !Contains(g.text, EndOfTurn)
    ensures pipeline.Some? ==> match pipeline.value(FormatPrompt(prompt))
      case PipelineRaised => g == Response(Apology)
      case Generated(text) => g == Response(ExtractResponse(text, |FormatPrompt(prompt)|))
  {
    match pipeline
    case None => Raised
    case Some(generate) =>
      match generate(FormatPrompt(prompt))
      case PipelineRaised => ApologyHasNoMarker(); Response(Apology)
      case Generated(text) => Response(ExtractResponse(text, |FormatPrompt(prompt)|))
  }

  lemma ApologyHasNoMarker()
    ensures !Contains(Apology, EndOfTurn)
  {
    ContainsChar(EndOfTurn, '<');
    if Contains(Apology, EndOfTurn) {
      ContainsTransitive(Apology, EndOfTurn, "<");
      ContainsChar(Apology, '<');
    }
  }

  // ---------------------------------------------------------------------------
  // Chat with a history

  /** The turn one history message contributes: user and assistant turns, nothing for other roles. */
  function Turn(m: Message): string {
    if m.role == UserRole then UserTurn(m.content)
    else if m.role == AssistantRole then ModelTurn(m.content)
    else ""
  }

  /** The messages of a history rendered one by one, in order, and joined. */
  function Render(context: seq<Message>, turn: Message -> string): string {
    if |context| == 0 then "" else Render(context[..|context| - 1], turn) + turn(context[|context| - 1])
  }

  /** Rendering one more message appends its rendering. */
  lemma RenderSnoc(context: seq<Message>, m: Message, turn: Message -> string)
    ensures Render(context + [m], turn) == Render(context, turn) + turn(m)
  {
    assert (context + [m])[..|context|] == context;
  }

  /** Rendering a concatenation is concatenating the renderings. */
  lemma {:induction false} RenderAppend(a: seq<Message>, b: seq<Message>, turn: Message -> string)
    ensures Render(a + b, turn) == Render(a, turn) + Render(b, turn)
    decreases |b|
  {
    if |b| == 0 {
      assert a + b == a;
    } else {
      var c := b[..|b| - 1];
      var last := b[|b| - 1];
      assert b == c + [last];
      assert a + b == (a + c) + [last];
      RenderAppend(a, c, turn);
      RenderSnoc(a + c, last, turn);
      RenderSnoc(c, last, turn);
    }
  }

  /** The history part of a chat prompt, built message by message. */
  function Transcript(context: seq<Message>): string {
    Render(context, Turn)
  }

  /** The transcript of a concatenation is the concatenation of the transcripts. */
  lemma TranscriptAppend(a: seq<Message>, b: seq<Message>)
    ensures Transcript(a + b) == Transcript(a) + Transcript(b)
  {
    RenderAppend(a, b, Turn);
  }

  /** A well-formed history reads back as user and model turns, exchange by exchange. */
  lemma TranscriptOfExchanges(h: seq<Message>, user: string, reply: string)
    ensures Transcript(h + [Message(UserRole, user), Message(AssistantRole, reply)])
         == Transcript(h) + UserTurn(user) + ModelTurn(reply)
  {
    var u := Message(UserRole, user);
    var m := Message(AssistantRole, reply);
    assert h + [u, m] == (h + [u]) + [m];
    RenderSnoc(h + [u], m, Turn);
    RenderSnoc(h, u, Turn);
  }

  /** Messages with a role other than user or assistant leave the prompt unchanged. */
  lemma TranscriptSkipsOtherRoles(context: seq<Message>, m: Message)
    requires m.role != UserRole && m.role != AssistantRole
    ensures Transcript(context + [m]) == Transcript(context)
  {
    RenderSnoc(context, m, Turn);
  }

  /** The prompt `chat` sends: the history's turns, the new user turn, the model cue. */
  function ChatPrompt(context: seq<Message>, input: string): (r: string)
    ensures r == Transcript(context) + FormatPrompt(input)
    ensures context == [] ==> r == FormatPrompt(input)
    ensures |r| >= |ModelCue| && r[|r| - |ModelCue|..] == ModelCue
    ensures Transcript(context) <= r
  {
    var t := Transcript(context);
    var r := t + UserTurn(input) + ModelCue;
    assert r[|r| - |ModelCue|..] == ModelCue;
    assert r[..|t|] == t;
    assert t <= r;
    assert r == t + FormatPrompt(input);
    r
  }

  /**
    `GemmaWrapper.chat`: unlike `generate_response` it calls the pipeline
    inside its error handler, so a missing pipeline also yields the apology.
   */
  function Chat(pipeline: Pipeline, input: string, context: seq<Message>): (r: string)
    ensures !Contains(r, EndOfTurn)
    ensures pipeline.None? ==> r == Apology
    ensures pipeline.Some? ==> match pipeline.value(ChatPrompt(context, input))
      case PipelineRaised => r == Apology
      case Generated(text) => r == ExtractResponse(text, |ChatPrompt(context, input)|)
  {
    ApologyHasNoMarker();
    match pipeline
    case None => Apology
    case Some(generate) =>
      var prompt := ChatPrompt(context, input);
      match generate(prompt)
      case PipelineRaised => Apology
      case Generated(text) => ExtractResponse(text, |prompt|)
  }

  /**
    With no history, chatting sends the same prompt as `generate_response`,
    and so answers the same for a pipeline that depends on the prompt alone.
   */
  lemma ChatWithoutContext(pipeline: Pipeline, input: string)
    requires pipeline.Some?
    ensures ChatPrompt([], input) == FormatPrompt(input)
    ensures Response(Chat(pipeline, input, [])) == GenerateResponse(pipeline, input)
  {
  }

  // ---------------------------------------------------------------------------
  // The fallback model

  /**
    `DasDThinkingModel.generate_response` after decoding: drop the prompt's
    length, strip, and keep the first line. The line is not stripped again.
   */
  function ThinkingPostProcess(decoded: string, prompt: string): (r: string)
    ensures '\n' !in r
    ensures r <= Strip(DropPrefix(decoded, |prompt|))
    ensures '\n' !in Strip(DropPrefix(decoded, |prompt|)) ==> r == Strip(DropPrefix(decoded, |prompt|))
    ensures |r| < |Strip(DropPrefix(decoded, |prompt|))| ==> Strip(DropPrefix(decoded, |prompt|))[|r|] == '\n'
  {
    var s := Strip(DropPrefix(decoded, |prompt|));
    var r := BeforeFirst(s, "\n");
    ContainsChar(r, '\n');
    ContainsChar(s, '\n');
    assert |r| < |s| ==> s[|r|] == '\n' by {
      if |r| < |s| {
        var i := Find(s, "\n").value;
        assert s[i..i + 1] == "\n";
      }
    }
    r
  }

  /**
    The language model behind the assistant: Gemma, or the fallback loaded
    when Gemma fails to load. The fallback's encode, generate and decode
    together map the prompt to the decoded text, or raise; it has no error
    handler of its own.
   */
  datatype Backend =
    | GemmaBackend(pipeline: Pipeline)
    | ThinkingBackend(decode: string -> PipelineOutput)

  /**
    `generate_response` of whichever model is loaded. Gemma raises only when
    no pipeline is loaded; the fallback raises exactly when its generation
    does, and otherwise answers with one line.
   */
  function Respond(backend: Backend, prompt: string): (g: Generation)
    ensures backend.GemmaBackend? ==> g == GenerateResponse(backend.pipeline, prompt)
    ensures backend.ThinkingBackend? ==> (g.Raised? <==> backend.decode(prompt).PipelineRaised?)
    ensures backend.ThinkingBackend? && g.Response? ==>
      g.text == ThinkingPostProcess(backend.decode(prompt).text, prompt) && '\n' !in g.text
  {
    match backend
    case GemmaBackend(pipeline) => GenerateResponse(pipeline, prompt)
    case ThinkingBackend(decode) =>
      match decode(prompt)
      case PipelineRaised => Raised
      case Generated(text) => Response(ThinkingPostProcess(text, prompt))
  }
}
