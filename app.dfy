/**
  The `/chat` endpoint: input validation, then the `generate()` generator as
  an imperative loop over the chat deltas with the three accumulators of
  `generate()`, proved to yield what `SentenceRelay.Relay` describes.

  The chat-completion call is the parameter `chat` (user text to the stream
  it delivers) and the speech-synthesis call is `tts` (attempt number to
  success or failure).
 */
module App {
  import opened Wrappers
  import opened Text
  import opened SentenceRelay
  import opened RelayProperties

  const ChatModel := "gpt-4o-mini"

  const SystemPrompt := "\nYou are a friendly, concise voice assistant.\nAnswer naturally and briefly like a real human.\n"

  /** A decoded JSON request body. `JNull` is the JSON body `null`, the one
      body for which `get_json()` returns `None`. */
  datatype Json =
    | JNull
    | JBool(b: bool)
    | JNumber(n: int)
    | JString(s: string)
    | JArray(items: seq<Json>)
    | JObject(members: map<string, Json>)

  /** Python truthiness of a decoded value, as used by `get_json() or {}`. */
  predicate Truthy(j: Json)
  {
    match j
    case JNull => false
    case JBool(b) => b
    case JNumber(n) => n != 0
    case JString(s) => s != []
    case JArray(items) => items != []
    case JObject(members) => members != map[]
  }

  /** The outcome of the checks in `chat()` before any stream is opened:
      a 400 "Empty input" reply, an uncaught exception (reading `.get` of a
      body that is not an object, or `.strip` of a `text` that is not a
      string), or the stripped user text. */
  datatype Validation = EmptyInput | Crashed | UserText(text: string)

  /** `data = request.get_json() or {}`, `data.get("text", "").strip()`,
      and the emptiness test. */
  function Validate(body: Json): (v: Validation)
    ensures v.UserText? ==>
      && body.JObject? && "text" in body.members && body.members["text"].JString?
      && v.text == Strip(body.members["text"].s)
    ensures v.UserText? ==>
      && v.text != [] && !IsSpace(v.text[0]) && !IsSpace(v.text[|v.text| - 1])
      && Strip(v.text) == v.text
    ensures v.EmptyInput? <==>
      || !Truthy(body)
      || (body.JObject? && ("text" !in body.members
                             || (body.members["text"].JString? && Blank(body.members["text"].s))))
    ensures v.Crashed? <==>
      && Truthy(body)
      && (!body.JObject? || ("text" in body.members && !body.members["text"].JString?))
  {
    var data := if Truthy(body) then body else JObject(map[]);
    match data
    case JObject(members) =>
      if "text" !in members then EmptyInput
      else
        (match members["text"]
         case JString(s) =>
           StripSpec(s);
           StripIdempotent(s);
           var userText := Strip(s);
           if userText == [] then EmptyInput else UserText(userText)
         case _ => Crashed)
    case _ => Crashed
  }

  /** The messages sent to the chat-completion service. */
  datatype ChatRequest = ChatRequest(model: string, system: string, user: string)

  /** What `/chat` answers: the 400 reply, an internal error from an uncaught
      exception, or the event stream together with the chat request it was
      opened with and the inputs of the synthesis calls it made. */
  datatype Response =
    | BadRequest(status: int, error: string)
    | InternalError
    | EventStream(request: ChatRequest, events: seq<Event>, attempts: seq<string>)

  /** The body of `if chunk.choices[0].delta.content:` for one non-empty
      token: update the accumulators, yield the token, and cut, count and
      attempt a sentence when the token qualifies; this is one `Step`. */
  method Receive(full: string, buffer: string, count: nat, events: seq<Event>, attempts: seq<string>,
                 ghost segments: seq<string>, token: string, tts: nat -> bool)
    returns (full': string, buffer': string, count': nat, events': seq<Event>, attempts': seq<string>,
             ghost segments': seq<string>)
    requires token != []
    ensures State(full', buffer', count', events', attempts', segments')
         == Step(State(full, buffer, count, events, attempts, segments), Some(token), tts)
  {
    ghost var st := State(full, buffer, count, events, attempts, segments);
    if Qualifies(buffer, token) {
      StepCut(st, token, tts);
    } else {
      StepKeep(st, token, tts);
    }
    full', buffer', count', events', attempts', segments' := full, buffer, count, events, attempts, segments;
    full' := full' + token;
    buffer' := buffer' + token;
    events' := events' + [Token(token)];
    if HasTerminator(token) {
      var sentence := Strip(buffer');
      if |sentence| > MinSentenceLength {
        count' := count' + 1;
        attempts' := attempts' + [sentence];
        if tts(count' - 1) {
          events' := events' + [Audio(sentence, Some(count'))];
        }
        segments' := segments' + [buffer'];
        buffer' := "";
      }
    }
  }

  /** The generator body: the `for chunk in stream` loop with its three
      accumulators, the trailing flush and the end marker, or the error event
      when the stream raised. */
  method Generate(stream: ChatStream, tts: nat -> bool) returns (events: seq<Event>, attempts: seq<string>)
    ensures Trace(events, attempts) == Relay(stream, tts)
    ensures TokenTexts(events) == NonEmptyTokens(stream.deltas)
    ensures events != [] && events[|events| - 1] == (if stream.raises then Error else Done)
  {
    var fullResponse, sentenceBuffer, sentenceCount := "", "", 0;
    ghost var segments: seq<string> := [];
    events, attempts := [], [];
    var i := 0;
    while i < |stream.deltas|
      invariant 0 <= i <= |stream.deltas|
      invariant Run(stream.deltas[..i], tts)
             == State(fullResponse, sentenceBuffer, sentenceCount, events, attempts, segments)
    {
      var delta := stream.deltas[i];
      assert stream.deltas[..i + 1] == stream.deltas[..i] + [delta];
      RunSnoc(stream.deltas[..i], delta, tts);
      if delta.Some? && delta.value != [] {
        fullResponse, sentenceBuffer, sentenceCount, events, attempts, segments :=
          Receive(fullResponse, sentenceBuffer, sentenceCount, events, attempts, segments, delta.value, tts);
      }
      i := i + 1;
    }
    assert stream.deltas[..i] == stream.deltas;
    if stream.raises {
      events := events + [Error];
    } else {
      var rest := Strip(sentenceBuffer);
      if rest != [] {
        attempts := attempts + [rest];
        if tts(sentenceCount) {
          events := events + [Audio(rest, None)];
        }
      }
      events := events + [Done];
    }
    assert Trace(events, attempts) == Relay(stream, tts);
    assert TokenTexts(events) == NonEmptyTokens(stream.deltas) by {
      RelayTokens(stream, tts);
    }
    assert events != [] && events[|events| - 1] == (if stream.raises then Error else Done) by {
      RelayTerminal(stream, tts);
    }
  }

  /** The `/chat` handler: validate, open the chat stream with the stripped
      user text under the fixed system prompt, and relay it. */
  method Chat(body: Json, chat: string -> ChatStream, tts: nat -> bool) returns (r: Response)
    ensures r.BadRequest? <==> Validate(body).EmptyInput?
    ensures r.BadRequest? ==> r.status == 400 && r.error == "Empty input"
    ensures r.InternalError? <==> Validate(body).Crashed?
    ensures r.EventStream? ==>
      && Validate(body) == UserText(r.request.user)
      && r.request == ChatRequest(ChatModel, SystemPrompt, r.request.user)
      && Trace(r.events, r.attempts) == Relay(chat(r.request.user), tts)
  {
    var v := Validate(body);
    match v
    case EmptyInput =>
      r := BadRequest(400, "Empty input");
    case Crashed =>
      r := InternalError;
    case UserText(userText) =>
      var request := ChatRequest(ChatModel, SystemPrompt, userText);
      var events, attempts := Generate(chat(request.user), tts);
      r := EventStream(request, events, attempts);
  }
}
