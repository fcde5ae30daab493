# Local voice assistant — decision logic in Dafny

This project models the deterministic core of a small local voice assistant
written in Python, and proves properties of that model. There are five parts:

- **Wake-word detector** (`wakeword.dfy`, module `WakeWord`). Each audio frame
  gets a two-stage energy test. A polling loop drains a FIFO queue of frames
  and fires the wake-word callback at most once per 2-second cooldown. The
  audio thread, the polling loop, `stop_listening` and `set_callback` are
  interleaved into one sequence of events, and the loop is a fold over that
  sequence.
- **Home control** (`home_control.dfy`, module `HomeControl`). Covers:
  - dispatch of a control action by the device's protocol;
  - the brightness range check;
  - toggling on the stored status;
  - device discovery with defaults;
  - `handle_home_command`, the keyword parser that turns a spoken command
    into a device action and a reply.
- **Gemma prompt handling** (`gemma.dfy`, module `Gemma`). Wraps a prompt or
  a role-tagged history in Gemma's turn markers. Extracts the answer from the
  generated text. Covers the fallback model's one-line post-processing.
- **Command processing** (`assistant.dfy`, module `Assistant`, plus
  `conversation.dfy`, module `Conversation`). Covers
  `LocalVoiceAssistant.process_command`:
  - empty input is rejected;
  - keyword routing sends the command to home control or the language model;
  - the user/assistant exchange is recorded in a history capped at 10
    messages;
  - the answer is spoken.
- **REST endpoints** (`rest_api.dfy`, module `RestApi`). `/chat` keeps one
  bounded history per conversation id. `/home/control` reports the result of
  a control call.

`text.dfy` (module `Text`) gives the Python `str` operations the code relies
on. These are `lower()`, `strip()`, `in`, `split(sep)[0]`, the first `\d+`
match, `int(...)` and `str(n)`. `Text.Find`, the search for a first
occurrence, is the helper behind `in` and `split`; the code itself never
calls `str.find`. `wrappers.dfy` holds `Option`.

Collaborators that cannot be modelled become parameters:

| Collaborator | Parameter |
|---|---|
| Clock | a reading carried by each loop event |
| Outcome of an HTTP POST or MQTT publish | the boolean `delivered` |
| Text-generation pipeline | a function from prompt to generated text, or to an exception |
| Fallback model's tokenize–generate–decode | a function from prompt to decoded text, or to an exception |

Every operation is a pure function over immutable values.

A raising callback is not skipped: the generic handler at
`src/hotword/wakeword_detector.py:90-92` leaves the loop with `break`, so a
raising callback ends the run (`WakeWord.CallbackErrorEndsLoop`).

## Model

| member | source | states |
|---|---|---|
| WakeWord.Energy | src/hotword/wakeword_detector.py:45 | The energy of a non-empty frame, the mean of the squared samples, is never negative. It is zero exactly when every sample is zero. |
| WakeWord.NoEnergyIffSilent | src/hotword/wakeword_detector.py:45 | The sum of squared samples is zero exactly when the frame is silent. |
| WakeWord.Detect | src/hotword/wakeword_detector.py:45-54 | Detection holds exactly when the energy exceeds 0.01 × 3. Energy at or below 0.01 never detects. A silent or empty frame never detects. |
| WakeWord.Start | src/hotword/wakeword_detector.py:56-67 | Listening starts with the flag set, the queue as left over, and the last detection time equal to the clock at start. |
| WakeWord.StopListening | src/hotword/wakeword_detector.py:94-96 | Clears the listening flag and changes nothing else. |
| WakeWord.Step | src/hotword/wakeword_detector.py:26-92 | The effects of one loop event (next section). A pass with a frame queued takes the head frame. A detected frame past the cooldown always fires; the run then continues exactly when no registered callback raises, with the last detection time set to the clock. A `set_callback` while listening changes only the registration. |
| WakeWord.StartEstablishesInv | src/hotword/wakeword_detector.py:58-67 | A fresh run satisfies the loop invariant. |
| WakeWord.StepPreservesInv | src/hotword/wakeword_detector.py:69-92 | Every event preserves the loop invariant (next section). |
| WakeWord.RunPreservesInv | src/hotword/wakeword_detector.py:69-92 | Any sequence of events preserves the invariant and the start time. |
| WakeWord.FiringsSpacedByCooldown | src/hotword/wakeword_detector.py:67-86 | In every run the firing times strictly increase. Any two are more than 2.0 s apart, and each is more than 2.0 s after the run started. |
| WakeWord.AtMostOneFiringPerWindow | src/hotword/wakeword_detector.py:76-86 | Any 2-second window holds at most one firing, however many loud frames arrive. |
| WakeWord.RunCapturesDeliveries | src/hotword/wakeword_detector.py:30-37 | The frames put on the queue are a prefix of the frames the driver delivered, in delivery order. |
| WakeWord.RunAfterExit | src/hotword/wakeword_detector.py:69-92 | Once the loop has exited, no event changes the detector. |
| WakeWord.ConsumedInCaptureOrder | src/hotword/wakeword_detector.py:36-76 | Frames taken so far, followed by those still queued, are the pending frames followed by a prefix of the deliveries. The loop is FIFO. |
| WakeWord.StopIdempotent | src/hotword/wakeword_detector.py:94-96 | Stopping twice is the same as stopping once. |
| WakeWord.StopEndsLoopAtNextPass | src/hotword/wakeword_detector.py:69 | After a stop request, the next pass exits without taking a frame or firing. |
| WakeWord.CallbackErrorEndsLoop | src/hotword/wakeword_detector.py:83-92 | A raising callback ends the loop with the last detection time not updated. No later event changes anything. |
| WakeWord.FiringWithoutCallbackRestartsCooldown | src/hotword/wakeword_detector.py:80-86 | With no callback registered, a passing detection is still logged and restarts the cooldown. |
| WakeWord.CallbackSetWhileListening | src/hotword/wakeword_detector.py:26-28 | A callback registered while the loop runs is called at the next firing: where the unregistered detector keeps running, the registered one ends the loop when the callback raises. |
| WakeWord.BurstThenLaterFrame | src/hotword/wakeword_detector.py:69-86 | Three loud frames taken at t, t + 0.5 and t + 2.5 fire at t and t + 2.5 only: the burst within the cooldown fires once, and a frame past the cooldown fires again. |
| HomeControl.ControlDevice | src/modules/home_control.py:63-77 | An unknown id fails with no send. Exactly one send is made when the protocol is "http" or "mqtt", over that protocol and with the given action and params. Any other or missing protocol fails with no send. The call succeeds exactly when a send is made and delivered. |
| HomeControl.GetDeviceStatus | src/modules/home_control.py:135-144 | The stored status of a known device. None for an unknown device or a missing status. |
| HomeControl.ToggleLight | src/modules/home_control.py:146-154 | A send is made exactly when the light is known and speaks http or mqtt. It sends "off" exactly when the stored status is "on", otherwise "on", with no params. The call succeeds exactly when a send is made and delivered. |
| HomeControl.SetBrightness | src/modules/home_control.py:156-164 | A level outside 0..100 fails without any control call. Otherwise it is a "set" control with that brightness. |
| HomeControl.SetTemperature | src/modules/home_control.py:166-170 | A send is made exactly when the thermostat is known and speaks http or mqtt. It is a "set" with the given temperature. The call succeeds exactly when that send is delivered. |
| HomeControl.ToggleLightSendsOpposite | src/modules/home_control.py:146-154 | Toggling a known http or mqtt light sends exactly one request, over the device's protocol, of the opposite of its stored status, and succeeds exactly when it is delivered. |
| HomeControl.TemperatureIsNotRangeChecked | src/modules/home_control.py:166-170 | Unlike brightness, any temperature reaches a known http or mqtt thermostat, and the result is that of `control_device` with the same arguments. |
| HomeControl.DiscoverDevices | src/modules/home_control.py:37-52 | One record per device, in configuration order. The name defaults to the id, the type to "unknown" and the status to "offline". |
| HomeControl.DiscoveryCoversDevices | src/modules/home_control.py:43-52 | A device is discovered exactly when it is configured. |
| HomeControl.ParseHomeCommand | src/modules/home_control.py:179-231 | The branch chosen in the fixed priority order on the lower-cased text: "turn on"+"light", "turn off"+"light", brightness, temperature, fallback. Includes the room chosen and the temperature read. |
| HomeControl.BrightnessIsAPreset | src/modules/home_control.py:203-217 | The brightness branch picks 30 for "low" or "dim", 60 for "medium", and 100 otherwise. The digit fallback cannot be reached. |
| HomeControl.HandleHomeCommand | src/modules/home_control.py:174-231 | A command naming no light, a temperature command without a number and an unrecognised command send nothing. Otherwise the send is that of the toggle, brightness or thermostat control, and the reply reports success exactly when a send was made and delivered, and the failure message otherwise. |
| HomeControl.HomeCommandTargets | src/modules/home_control.py:174-231 | A home command only ever sends to bedroom_light, living_room_light or thermostat_main. |
| HomeControl.TemperatureWithoutDigitsAsks | src/modules/home_control.py:220-228 | A temperature command with no digit asks a question and sends nothing. |
| HomeControl.TemperatureUsesFirstNumber | src/modules/home_control.py:220-226 | A temperature command sends the first number in the command to the main thermostat. |
| HomeControl.TurnOnToggles | src/modules/home_control.py:182-186 | "Turn on the bedroom light", with the light stored as "on", sends "off". It still replies that the light was turned on. |
| Text.Lower | src/modules/home_control.py:179 | `lower()` keeps the length and lower-cases each ASCII capital, leaving every other character as it is. |
| Text.Strip | src/main_assistant.py:68 | `strip()` only shortens its input. The result is empty exactly for all-whitespace input. Otherwise it starts and ends with non-whitespace. |
| Text.StripCutsOnlySpace | src/main_assistant.py:68 | `strip()` returns a middle slice of its input, with only whitespace cut at either end. |
| Text.Find | src/llm/gemma_wrapper.py:106-107 | Finds the first occurrence of the pattern, and one is found exactly when the pattern occurs. |
| Text.BeforeFirst | src/llm/gemma_wrapper.py:106-107 | `split(sep)[0]` is a prefix of the text without the separator. When the separator occurs, it occurs right after the result, so the result ends at its first occurrence. Otherwise it is the whole text. |
| Text.FirstNumber | src/modules/home_control.py:221-224 | None exactly when the text has no digit. Otherwise it is the value of the first maximal run of digits. |
| Text.NatToStringRoundTrip | src/modules/home_control.py:218 | Reading back the decimal text of a number gives the number. |
| Text.FirstNumberOfNatToString | src/modules/home_control.py:222-226 | The first number in the decimal text of n is n. |
| Gemma.FormatPrompt | src/llm/gemma_wrapper.py:87 | The prompt is one user turn followed by the model cue, 55 characters longer than the text. |
| Gemma.ExtractResponse | src/llm/gemma_wrapper.py:100-109 | Drops the prompt's length (nothing is left if the text is shorter). Keeps the text before the first end-of-turn marker and strips it. The result never contains the marker. |
| Gemma.ExtractAfterFormat | src/llm/gemma_wrapper.py:87-109 | Round trip: for the formatted prompt followed by an answer, a marker and anything, the result is the stripped answer. |
| Gemma.ExtractAfterFormatUnclosed | src/llm/gemma_wrapper.py:100-109 | Round trip without a closing marker: the result is the stripped answer. |
| Gemma.GenerateResponse | src/llm/gemma_wrapper.py:83-113 | Raises exactly when no pipeline is loaded. A pipeline exception yields the apology. Any answer is free of the end-of-turn marker. |
| Gemma.ApologyHasNoMarker | src/llm/gemma_wrapper.py:113 | The apology text contains no end-of-turn marker. |
| Gemma.RenderSnoc | src/llm/gemma_wrapper.py:124-130 | Rendering one more message appends that message's turn to the prompt. |
| Gemma.RenderAppend | src/llm/gemma_wrapper.py:124-130 | Rendering a history message by message is compositional: the rendering of a concatenation is the concatenation of the renderings. |
| Gemma.TranscriptAppend | src/llm/gemma_wrapper.py:123-130 | The history is rendered message by message: the rendering of a concatenation is the concatenation of the renderings. |
| Gemma.TranscriptOfExchanges | src/llm/gemma_wrapper.py:123-130 | A user message followed by an assistant message adds a user turn and then a model turn. |
| Gemma.TranscriptSkipsOtherRoles | src/llm/gemma_wrapper.py:124-130 | A message with any other role adds nothing to the prompt. |
| Gemma.ChatPrompt | src/llm/gemma_wrapper.py:119-133 | The chat prompt is the rendered history followed by the prompt `generate_response` would format for the new input. It ends with the model cue, and with no history it equals that formatted prompt. |
| Gemma.Chat | src/llm/gemma_wrapper.py:115-155 | Answers with the extraction from the generated text. It returns the apology when the pipeline raises or is missing. The result never contains the marker. |
| Gemma.ChatWithoutContext | src/llm/gemma_wrapper.py:87-133 | With no history, `chat` sends exactly the prompt `generate_response` formats, so for a pipeline that depends on the prompt alone it answers the same. |
| Gemma.Respond | src/llm/gemma_wrapper.py:206-228 | The loaded model's answer: Gemma's `generate_response`, or the fallback, which raises exactly when its generation raises and otherwise answers with the post-processed line, which has no newline. |
| Gemma.ThinkingPostProcess | src/llm/gemma_wrapper.py:221-228 | The fallback answer is a prefix of the stripped remainder and contains no newline. It ends just before the first newline, or is the whole stripped remainder when there is none. |
| Conversation.KeepRecent | src/main_assistant.py:86-88 | Keeps the last min(n, 10) messages, in order. |
| Conversation.Record | src/main_assistant.py:82-88 | After recording, the history holds min(n + 2, 10) messages. It ends with the user message and then the reply, preceded by the most recent earlier messages. Nothing is dropped while the total is at most 10. |
| Conversation.AppendExchange | src/main_assistant.py:83-84 | Appending a user/assistant pair keeps a history alternating. |
| Conversation.DropExchanges | src/main_assistant.py:87-88 | Dropping an even number of oldest messages keeps a history alternating. |
| Conversation.RecordPreservesAlternation | src/main_assistant.py:83-88 | Recording keeps the history an alternation of user and assistant messages that starts with the user. |
| Assistant.ProcessCommand | src/main_assistant.py:64-92 | Whitespace-only input speaks the "didn't catch that" apology and leaves the history unchanged. A home command is answered by `handle_home_command`, anything else by `generate_response`. The call raises exactly when the model is needed but not loaded, and then leaves everything unchanged. Otherwise it records the exchange and speaks exactly once. |
| Assistant.ParsedCommandsRouteHome | src/main_assistant.py:73-77 | Every command the home parser recognises passes the keyword routing to home control. |
| Assistant.SunsetGoesToHomeControl | src/main_assistant.py:73-77 | The routing is broader than the parser. "sunset" contains "set", so it is routed home and answered with the not-sure reply. |
| Assistant.ConverseKeepsHistoryWellFormed | src/main_assistant.py:40-88 | Over any series of commands, a well-formed history stays alternating and at most 10 long. |
| Assistant.ConverseSpeaksOncePerCommand | src/main_assistant.py:91-92 | With a model loaded, every command is answered by exactly one spoken response. |
| RestApi.ContextIdOf | src/api/rest_api.py:68 | A missing or empty context id selects "default". Otherwise the given id is used. The id is never empty. |
| RestApi.Apply | src/api/rest_api.py:66-100 | The selected conversation gets an entry, and all other entries are untouched. Success echoes the id and records the exchange on the prior (or empty) history. A model failure gives 500 and leaves that history as it was. |
| RestApi.ChatRouting | src/api/rest_api.py:72-78 | A home command is always answered by home control. Otherwise the request fails exactly when the model raises. |
| RestApi.UpdateKeepsAll | src/api/rest_api.py:69-92 | Changing only the selected entry, to a history with a given property, keeps every stored history with that property. |
| RestApi.ApplyKeepsSelectedWellFormed | src/api/rest_api.py:80-92 | The selected conversation stays alternating and at most 10 messages long. |
| RestApi.ApplyPreservesWellFormed | src/api/rest_api.py:80-92 | Every stored conversation stays alternating and at most 10 messages long. |
| RestApi.ChatPreservesWellFormed | src/api/rest_api.py:61-100 | `/chat` keeps every stored conversation alternating and at most 10 long. |
| RestApi.FallbackErrorIsServerError | src/api/rest_api.py:78-100 | The fallback model has no error handler: when its generation raises, `/chat` answers 500 and the history is left as it was. |
| RestApi.EmptyTextIsRecorded | src/api/rest_api.py:73-88 | Empty text is not rejected on this path: a model that is loaded and does not raise answers it, and the exchange is recorded. |
| RestApi.ControlHomeDevice | src/api/rest_api.py:120-133 | Succeeds with "Device {id} controlled successfully" exactly when the control call succeeds. Otherwise the status is 500. |
| RestApi.UnknownDeviceIsServerError | src/api/rest_api.py:120-133 | An unknown device gives 500, never 400. |

### The detector loop

`WakeWord.Step` handles one event as follows:

- A captured frame is appended to the queue.
- A stop request clears the flag.
- A `set_callback` registers or clears the callback; the loop reads it at
  each firing.
- A loop pass:
  - exits when the flag is clear;
  - does nothing on an empty queue;
  - otherwise takes the oldest frame.
- When that frame is detected and more than 2.0 s have passed since the last
  detection, the firing is logged. A raising callback then ends the loop with
  the last detection time unchanged. Otherwise the last detection time
  becomes the current clock.

The invariant (`WakeWord.Inv`) has three parts:

- the frames consumed, followed by those still queued, are exactly the frames
  ever queued;
- each firing is more than 2.0 s after the previous one, or after the start;
- while running, the last detection time is the latest firing, or the start.

## Left out

- Audio capture and playback. The `sounddevice` stream, `AudioInput.record_audio`, `GemmaSTT` and `PocketTTS` are device I/O. Speech output is the list of texts handed to the synthesiser.
- Threads, `time.sleep` and cross-thread visibility of `is_listening`. Their interleaving is the event sequence, and clock readings are event data.
- Floating point. Samples, energies and times are exact reals. NumPy's mean of an empty frame is NaN, which fails both comparisons. The model gives the same result by defining detection as false on an empty frame.
- WakeWord: the unused `threshold` and `silence_duration` fields, and the `status` print in `audio_callback`.
- Model loading, quantisation, `clear_memory` and `unload_model`. These are torch/transformers work. Their only effect here is whether a pipeline is present, which is the `Pipeline` parameter.
- Sampling and generation parameters (`do_sample`, `temperature`, the token limits). The pipeline is a function of the prompt alone, so it is deterministic and the same for every call.
- Gemma.ChatWithoutContext: the equal answers rest on that function. In the code `generate_response` asks for up to 512 new tokens and `chat` for 256, both sampling, so only the equal prompt is a property of the code.
- The HTTP POST and the MQTT publish, including URL, headers, topic, authentication and client id. The outcome of the one send is the `delivered` parameter.
- `load_config` and JSON parsing. The device table is given directly, and its fields are taken to be strings.
- Which model the REST server loads at startup, and the fallback when Gemma fails to load. This is the `Backend` parameter.
- Requests that arrive before startup, when the globals are still `None`.
- FastAPI and uvicorn plumbing: `list_devices` (the projection is `HomeControl.DiscoverDevices`), `/tts`, `/health`, `/`, and `run_assistant.py`'s argument handling.
- Unicode beyond ASCII in `str.lower()` and the regex `\d`. Both are modelled on ASCII letters and digits. `strip()` uses Python's full whitespace set.
- HomeControl.FloatString: the temperature reply renders `float(n)` as the digits of n followed by ".0". Python's `float` rounds integers above 2^53 to the nearest double ("set temperature to 9007199254740993" replies with 9007199254740992.0), and its `str` switches to exponent notation from 1e16. Neither is modelled.
- HomeControl.HandleHomeCommand: the temperature sent is the exact value of the first number, not its rounding to a double, which differs above 2^53.
- `chat` history entries without a `role` or `content` key, which raise a KeyError. Every `Message` has both.
- `on_wake_word_detected` does not appear in the detector model, which sees the callback only as raising or not. `Assistant.Converse` models the commands it processes. An exception from `process_command` is what makes the callback raise and ends the detector loop (`WakeWord.CallbackErrorEndsLoop`).
- RestApi.Chat has no contract of its own. It is `RestApi.Apply` applied to the routed answer, and its properties are stated by `RestApi.Apply`, `RestApi.ChatRouting` and `RestApi.ChatPreservesWellFormed`.
