/**
  `LocalVoiceAssistant.process_command`: the command recognised after a wake
  word is either rejected as empty, routed to home control, or answered by
  the language model; the exchange is then recorded in the bounded history
  and the answer is spoken.

  Speech output is modelled as the list of texts handed to the speech
  synthesiser. Recording and transcribing the command are left to the caller,
  which supplies the transcribed text.
 */
module Assistant {
  import opened Wrappers
  import opened Text
  import opened HomeControl
  import opened Conversation
  import opened Gemma

  /** Spoken when the transcription is empty or only whitespace. */
  const NotCaught := "Sorry, I didn't catch that. Could you repeat?"

  /**
    What one command does: the new history, what is spoken, the device send
    made on the way, and whether `generate_response` raised (which leaves
    `process_command` before the history is touched).
   */
  datatype Outcome = Outcome(history: seq<Message>, spoken: seq<string>, sent: Option<Request>, raised: bool)

  /** `process_command` */
  function ProcessCommand(history: seq<Message>, input: string, d: Devices, delivered: bool, pipeline: Pipeline)
    : (o: Outcome)
    ensures AllSpace(input) ==> o == Outcome(history, [NotCaught], None, false)
    ensures o.raised <==> !AllSpace(input) && !IsHomeCommand(input) && pipeline.None?
    ensures o.raised ==> o.history == history && o.spoken == [] && o.sent.None?
    ensures !AllSpace(input) && !o.raised ==>
      && |o.spoken| == 1
      && o.history == Record(history, input, o.spoken[0])
    ensures !AllSpace(input) && IsHomeCommand(input) ==>
      var h := HandleHomeCommand(input, d, delivered);
      o.spoken == [h.reply] && o.sent == h.sent
    ensures !AllSpace(input) && !IsHomeCommand(input) && pipeline.Some? ==>
      o.spoken == [GenerateResponse(pipeline, input).text] && o.sent.None?
    ensures |history| <= MaxMessages ==> |o.history| <= MaxMessages
  {
    if Strip(input) == "" then Outcome(history, [NotCaught], None, false)
    else if IsHomeCommand(input) then
      var h := HandleHomeCommand(input, d, delivered);
      Outcome(Record(history, input, h.reply), [h.reply], h.sent, false)
    else match GenerateResponse(pipeline, input)
      case Raised => Outcome(history, [], None, true)
      case Response(answer) => Outcome(Record(history, input, answer), [answer], None, false)
  }

  /** Every command the home parser recognises passes the keyword routing to home control. */
  lemma ParsedCommandsRouteHome(command: string)
    requires ParseHomeCommand(command) != Unrecognised
    ensures IsHomeCommand(command)
  {
    var lower := Lower(command);
    if Contains(lower, "light") {
      assert HomeKeywords[0] == "light";
    } else if Contains(lower, "set brightness") {
      assert OccursAt("set brightness", "set", 0);
      ContainsTransitive(lower, "set brightness", "set");
      assert HomeKeywords[5] == "set";
    } else if Contains(lower, "set temperature") {
      assert OccursAt("set temperature", "set", 0);
      ContainsTransitive(lower, "set temperature", "set");
      assert HomeKeywords[5] == "set";
    } else {
      assert Contains(lower, "thermostat");
      assert HomeKeywords[4] == "thermostat";
    }
  }

  /**
    The routing is broader than the parser: "sunset" contains the keyword
    "set", so it goes to home control, which does not recognise it.
   */
  lemma SunsetGoesToHomeControl(d: Devices, delivered: bool)
    ensures IsHomeCommand("sunset")
    ensures HandleHomeCommand("sunset", d, delivered).reply
         == "I'm not sure how to handle that home automation command."
  {
    var s := "sunset";
    assert Lower(s) == s;
    assert OccursAt(s, "set", 3);
    assert HomeKeywords[5] == "set";
    assert !Contains(s, "light") by {
      forall i: nat | i <= |s| ensures !OccursAt(s, "light", i) {
        if i + 5 <= |s| {
          assert s[i..i + 5][0] != 'l';
        }
      }
    }
    assert !Contains(s, "dim") by {
      forall i: nat | i <= |s| ensures !OccursAt(s, "dim", i) {
        if i + 3 <= |s| {
          assert s[i..i + 3][0] != 'd';
        }
      }
    }
  }

  // ---------------------------------------------------------------------------
  // A session of commands

  /** One transcribed command and whether the device send it may cause is delivered. */
  datatype Utterance = Utterance(text: string, delivered: bool)

  /** The history and speech after a series of commands, and whether one of them raised. */
  datatype Session = Session(history: seq<Message>, spoken: seq<string>, raised: bool)

  /**
    Commands processed in order. An exception ends the session: it leaves the
    wake-word callback and so stops the detector loop.
   */
  function Converse(history: seq<Message>, utterances: seq<Utterance>, d: Devices, pipeline: Pipeline): (s: Session)
    ensures s.raised ==> |utterances| > 0
    decreases |utterances|
  {
    if utterances == [] then Session(history, [], false)
    else
      var o := ProcessCommand(history, utterances[0].text, d, utterances[0].delivered, pipeline);
      if o.raised then Session(o.history, o.spoken, true)
      else
        var rest := Converse(o.history, utterances[1..], d, pipeline);
        Session(rest.history, o.spoken + rest.spoken, rest.raised)
  }

  /**
    From a well-formed history, every session leaves a well-formed history:
    complete user/assistant exchanges, at most ten messages.
   */
  lemma {:induction false} ConverseKeepsHistoryWellFormed(
    history: seq<Message>, utterances: seq<Utterance>, d: Devices, pipeline: Pipeline)
    requires Alternating(history) && |history| <= MaxMessages
    ensures var s := Converse(history, utterances, d, pipeline);
      Alternating(s.history) && |s.history| <= MaxMessages
    decreases |utterances|
  {
    if utterances != [] {
      var u := utterances[0];
      var o := ProcessCommand(history, u.text, d, u.delivered, pipeline);
      if !AllSpace(u.text) && !o.raised {
        RecordPreservesAlternation(history, u.text, o.spoken[0]);
      }
      ConverseKeepsHistoryWellFormed(o.history, utterances[1..], d, pipeline);
    }
  }

  /** Without a language model failure, every command speaks exactly once. */
  lemma {:induction false} ConverseSpeaksOncePerCommand(
    history: seq<Message>, utterances: seq<Utterance>, d: Devices, pipeline: Pipeline)
    requires pipeline.Some?
    ensures var s := Converse(history, utterances, d, pipeline);
      !s.raised && |s.spoken| == |utterances|
    decreases |utterances|
  {
    if utterances != [] {
      var o := ProcessCommand(history, utterances[0].text, d, utterances[0].delivered, pipeline);
      ConverseSpeaksOncePerCommand(o.history, utterances[1..], d, pipeline);
    }
  }
}
