# Sentence-segmenting voice relay

This project models the `/chat` endpoint of a small Flask voice assistant
(`app.py`). The endpoint first validates the request: it takes the JSON body's
`text`, strips it, and answers 400 "Empty input" when nothing is left.
Otherwise it opens a streaming chat completion and relays it as server-sent
events:

- every non-empty token is forwarded at once;
- the tokens are also gathered in a sentence buffer;
- when a token holds `.`, `!`, `?` or a newline and the stripped buffer is
  longer than 3 characters, the sentence counter goes up, the sentence is
  sent to speech synthesis, an `audio_chunk` tagged with the counter is
  emitted when synthesis succeeds, and the buffer is reset in either case;
- after the stream, a non-blank remainder is synthesised once more (with no
  length threshold and no chunk id), and `[DONE]` closes the stream;
- an exception from the chat stream ends the response with one error event
  instead.

The Dafny modules:

- `Wrappers`: `Option`.
- `Text`: Python's `str.strip()` over Python's whitespace set, and the
  terminator test on a token.
- `SentenceRelay`: the event and state datatypes, and the generator as pure
  functions. `Step` is one loop iteration, `Run` the loop, `Finish` the flush
  and the end marker, and `Relay` the whole generator.
- `RelayProperties`: lemmas about those functions. They cover token
  pass-through, the segmentation invariant, chunk numbering, the flush, and
  the terminal event.
- `App`: `Validate` for the checks in `chat()`. `Generate` is the imperative
  `for chunk in stream` loop with the three accumulators of `generate()`, proved
  equal to `Relay`; `Receive` is the loop body for one non-empty token. `Chat` is the handler.
- `RelayExamples`: concrete streams worked through to their exact events.

The external services are parameters:

- The chat-completion call is `chat: string -> ChatStream`. A `ChatStream`
  lists the content of each delta received (`None` when a delta has no
  content) and says whether the stream then raised. The raise flag covers
  every exception from the chat stream, including the `IndexError` of a
  chunk with no `choices`, and a failure while opening the stream, which is
  `ChatStream([], true)`. A failure index into a longer stream is the same
  thing as that stream cut off at the index.
- The speech-synthesis call is `tts: nat -> bool`, giving the outcome of the
  k-th attempt (counted from 0). Any exception from `create` or `read` is a
  failure. The mid-stream attempt for chunk `n` is attempt `n - 1`. The
  trailing flush is attempt `count`.
- Audio bytes are opaque. An `Audio` event records the text that was
  synthesised and its optional chunk id.

## Model

| member | source | states |
|---|---|---|
| Text.Strip | app.py:62 | Python's `str.strip()` with no argument; no contract of its own; its rules are stated by StripSpec, StripIdempotent and StripIgnoresPadding |
| Text.HasTerminator | app.py:61 | the test of whether a token contains `.`, `!`, `?` or newline; no contract of its own; HasTerminatorAt states it |
| Text.StripSpec | app.py:62 | `strip()` returns the slice of its input left after removing whitespace from both ends; only whitespace is cut off; the result is empty exactly when the input is blank, and otherwise starts and ends with non-whitespace |
| Text.StripIdempotent | app.py:28 | stripping an already stripped text changes nothing, so the validated user text is a fixed point of `strip()` |
| Text.StripIgnoresPadding | app.py:62 | whitespace before or after a buffer does not change the sentence extracted from it |
| Text.HasTerminatorAt | app.py:61 | the `any(punct in token ...)` test holds exactly when some character of the token is `.`, `!`, `?` or newline, and it stays true when text is put before the token |
| SentenceRelay.Qualifies | app.py:61-63 | the mid-stream cut test: the token holds a terminator and the buffer plus token, stripped, is longer than `MinSentenceLength` (3); no contract of its own; StepDecision states its use |
| SentenceRelay.Step | app.py:51-88 | one loop iteration; no contract of its own; its rules are stated by StepDecision, StepSegmented and StepNumbered |
| SentenceRelay.Run | app.py:51-88 | the loop over the deltas in arrival order; no contract of its own; its rules are stated by RunTokens, RunSegmented, RunNumbered, RunQuiet, RunAllSucceed and RunIgnoresOutcomes |
| SentenceRelay.Finish | app.py:92-111 | the error event in place of both the flush and `[DONE]`, or the flush and `[DONE]`; no contract of its own; RelayTerminal and RelayFlush state its rules |
| SentenceRelay.Relay | app.py:33-111 | the whole generator; no contract of its own; its rules are stated by RelayTokens, RelayTerminal, RelayFlush, RelayChunkIds, RelaySegments and RelayIgnoresOutcomes |
| RelayProperties.StepDecision | app.py:51-88 | a delta with no content changes nothing; for a token, one synthesis of the stripped buffer is requested exactly when the token has a terminator and the stripped buffer plus token is longer than 3; then the counter goes up by one and the buffer is reset, and one audio event follows exactly when synthesis succeeded, carrying the stripped sentence and chunk id `count + 1`; otherwise the token joins the buffer and only the token event is added |
| RelayProperties.StepSegmented | app.py:54-88 | one loop iteration keeps the segmentation invariant: the response is the reset segments plus the live buffer, each segment has a terminator, and its attempt sent it stripped and longer than 3; one attempt per count |
| RelayProperties.StepNumbered | app.py:63-82 | one loop iteration keeps the numbering invariant: chunk ids strictly increase, id `n` is present exactly when `1 <= n <= count` and attempt `n - 1` succeeded, each audio event carries the text of the attempt its id names, and no flush, error or end marker has appeared |
| RelayProperties.RunTokens | app.py:51-58 | after the loop, the token events are the non-empty deltas in arrival order, and `full_response` is their concatenation |
| RelayProperties.RunSegmented | app.py:47-88 | the segmentation invariant holds after any number of deltas |
| RelayProperties.RunNumbered | app.py:61-88 | the numbering invariant holds after any number of deltas |
| RelayProperties.RunQuiet | app.py:51-88 | the loop itself yields no flush audio, no error event and no end marker |
| RelayProperties.RunAllSucceed | app.py:64-82 | when every synthesis succeeds, the chunk ids after the loop are exactly 1, 2, ..., count |
| RelayProperties.RunIgnoresOutcomes | app.py:67-88 | response, buffer, counter, segments and attempted sentences do not depend on synthesis outcomes; the buffer is reset whether or not synthesis failed |
| RelayProperties.RelayTokens | app.py:52-58 | in the whole response, the token events are the non-empty deltas in order, whatever synthesis does, and they concatenate to `full_response` |
| RelayProperties.RelayTerminal | app.py:106-111 | on normal completion the last event is `[DONE]`, it occurs once, and no error event occurs; when the chat stream raised, the last event is the single error event and `[DONE]` never occurs |
| RelayProperties.RelayFlush | app.py:92-104 | one more synthesis of the stripped buffer is requested exactly when the stream completed and the buffer is not blank, with no length threshold; the only audio event without a chunk id is that flush, present exactly when its synthesis succeeded |
| RelayProperties.RelayChunkIds | app.py:64-82 | across the whole response, chunk ids are strictly increasing and at least 1; id `n` is present exactly when the n-th sentence's synthesis succeeded; they are exactly 1..count when nothing fails |
| RelayProperties.RelaySegments | app.py:60-88 | the response splits into the segments cut mid-stream followed by the final buffer; the first `count` attempts of the response are those segments, each stripped, longer than 3 and holding a terminator |
| RelayProperties.RelayIgnoresOutcomes | app.py:67-104 | a failed synthesis never stops the relay: the token events and the sequence of synthesis requests are the same for any outcomes |
| App.Validate | app.py:27-31 | the request is rejected as empty exactly when the body is falsy or an object whose `text` is absent or blank; it raises exactly when a truthy body is not an object or its `text` is not a string; otherwise the body is an object whose `text` is a string, the accepted text is that string stripped, and it is non-empty, has no surrounding whitespace, and is its own strip |
| App.Receive | app.py:53-88 | one non-empty token updates the accumulators exactly as one `Step` of the relay does |
| App.Generate | app.py:33-111 | the loop with its three accumulators yields exactly `Relay`'s events and synthesis requests; the token events are the non-empty deltas; the last event is `[DONE]`, or the error event when the stream raised |
| App.Chat | app.py:24-45 | answers 400 "Empty input" exactly when validation finds no text, fails exactly when validation raises, and otherwise opens the chat with model `gpt-4o-mini`, the fixed system prompt and the stripped text, and relays that stream |
| RelayExamples.Greeting | app.py:51-107 | "Hello!", " How are", " you?" with every synthesis succeeding give each token event, chunk 1 "Hello!" right after its token, chunk 2 "How are you?" stripped, then `[DONE]` |
| RelayExamples.ShortSentence | app.py:60-102 | "Hi." is too short to be cut mid-stream, yet the trailing flush synthesises it without a chunk id |
| RelayExamples.TerminatorMustBeInToken | app.py:61-102 | with "Hi.", " there", the buffer holds a terminator but the later token does not, so nothing is cut and "Hi. there" goes to the flush |
| RelayExamples.FailureLeavesGap | app.py:64-88 | with "One.", " Two." and the first synthesis failing, the buffer is still reset, nothing is emitted for chunk 1, and " Two." is emitted as chunk 2 "Two." |
| RelayExamples.StreamErrorEndsWithError | app.py:109-111 | a stream that raises after "Hel", a content-less delta and "lo." keeps the events already produced (tokens and chunk 1 "Hello."), ends with the error event, and makes no flush or `[DONE]` |

## Left out

- Flask routing, the `/` index page, `Response`, `stream_with_context`, and the `data: ...\n\n` framing with JSON encoding of each event: events are a datatype.
- The OpenAI client, the API key and the network: the chat and speech services are the parameters `chat` and `tts`.
- The audio payload, its base64 encoding, the `audio_mime` field and the speech model and voice constants (`tts-1`, `alloy`): audio is opaque, so only the synthesised text and the chunk id are kept.
- The text of the error event (`str(e)`): the model records only that an error event was sent.
- Logging with `print`: it has no effect on the response.
- `get_json()` failing on a missing body, a non-JSON content type or a malformed body: Flask answers these with its own error before the `or {}` at app.py:27 is reached, so they never get the 400 "Empty input". The model takes the decoded body. `JNull` is the JSON body `null`, the one body for which `get_json()` returns `None`. JSON numbers are modelled as integers, and only their truthiness matters.
- Client disconnects and the generator being closed early: the model always runs the generator to its end.
- Parallelism: the comments and the docstring speak of parallel audio, but the code calls speech synthesis synchronously inside the loop, and the model follows the code.
