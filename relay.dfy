/**
  The sentence-segmenting relay of `generate()` as pure functions: one `Step`
  per chat delta, `Run` over the deltas in arrival order, and `Finish` for the
  trailing flush and the end marker (or the error event when the chat stream
  raised). The imperative loop in module App is proved equal to `Relay`.
 */
module SentenceRelay {
  import opened Wrappers
  import opened Text

  /** A sentence is sent to speech synthesis only when its stripped text is
      longer than this many characters. */
  const MinSentenceLength: nat := 3

  /** One server-sent event. `Audio` stands for an `audio_chunk` frame: it
      records the text that was synthesised (the audio bytes are opaque) and
      the `chunk_id`, which is absent for the trailing flush. */
  datatype Event =
    | Token(token: string)
    | Audio(sentence: string, chunkId: Option<int>)
    | Error
    | Done

  /** What the chat-completion stream delivers: the content of each delta in
      arrival order (`None` for a delta without content), and whether the
      stream raised after the last of them instead of ending normally. A
      failure while opening the stream is `ChatStream([], true)`. */
  datatype ChatStream = ChatStream(deltas: seq<Option<string>>, raises: bool)

  /** The generator's locals after some deltas: `full_response`,
      `sentence_buffer`, `sentence_count`, plus what it has produced so far:
      the events yielded and the input of every synthesis attempt. `segments`
      is the raw buffer content at each reset, kept to state how the buffer
      partitions the response. */
  datatype State = State(
    full: string,
    buffer: string,
    count: nat,
    events: seq<Event>,
    attempts: seq<string>,
    segments: seq<string>)

  /** What one request produces: the events, and the inputs of the synthesis
      calls in the order they were made. */
  datatype Trace = Trace(events: seq<Event>, attempts: seq<string>)

  const Start: State := State("", "", 0, [], [], [])

  /** The mid-stream test: the incoming token (not the buffer) holds a
      terminator, and the buffer with the token, stripped, is long enough. */
  predicate Qualifies(buffer: string, token: string)
  {
    HasTerminator(token) && |Strip(buffer + token)| > MinSentenceLength
  }

  /** One iteration of the `for chunk in stream` loop. `tts(k)` is the outcome
      of the k-th synthesis attempt (counted from 0); the counter is bumped
      before the attempt, so attempt `count` carries chunk id `count + 1`. */
  function Step(st: State, delta: Option<string>, tts: nat -> bool): State
  {
    match delta
    case None => st
    case Some(token) =>
      if token == [] then st
      else
        var buffer := st.buffer + token;
        var shown := st.events + [Token(token)];
        if Qualifies(st.buffer, token) then
          var sentence := Strip(buffer);
          var n := st.count + 1;
          State(st.full + token, "", n,
                if tts(st.count) then shown + [Audio(sentence, Some(n))] else shown,
                st.attempts + [sentence], st.segments + [buffer])
        else
          State(st.full + token, buffer, st.count, shown, st.attempts, st.segments)
  }

  /** The loop's state after the given deltas, processed in order. */
  function Run(deltas: seq<Option<string>>, tts: nat -> bool): State
    decreases |deltas|
  {
    if deltas == [] then Start
    else Step(Run(deltas[..|deltas| - 1], tts), deltas[|deltas| - 1], tts)
  }

  /** After the loop: an error event if the stream raised; otherwise the
      trailing flush of a non-blank buffer (no threshold, no chunk id) and the
      `[DONE]` marker. */
  function Finish(st: State, raises: bool, tts: nat -> bool): Trace
  {
    if raises then Trace(st.events + [Error], st.attempts)
    else
      var rest := Strip(st.buffer);
      if rest == [] then Trace(st.events + [Done], st.attempts)
      else
        Trace(st.events + (if tts(st.count) then [Audio(rest, None)] else []) + [Done],
              st.attempts + [rest])
  }

  /** Everything `generate()` yields and asks to synthesise for one stream. */
  function Relay(stream: ChatStream, tts: nat -> bool): Trace
  {
    Finish(Run(stream.deltas, tts), stream.raises, tts)
  }

  // Views of an event sequence, each defined from the last element so that
  // appending one event unfolds one step.

  /** The contents with no content skipped: the tokens the relay handles. */
  function NonEmptyTokens(deltas: seq<Option<string>>): seq<string>
    decreases |deltas|
  {
    if deltas == [] then []
    else
      var d := deltas[|deltas| - 1];
      NonEmptyTokens(deltas[..|deltas| - 1]) + (if d.Some? && d.value != [] then [d.value] else [])
  }

  function Concat(parts: seq<string>): string
    decreases |parts|
  {
    if parts == [] then "" else Concat(parts[..|parts| - 1]) + parts[|parts| - 1]
  }

  /** The strings of the token events, in order. */
  function TokenTexts(events: seq<Event>): seq<string>
    decreases |events|
  {
    if events == [] then []
    else
      var e := events[|events| - 1];
      TokenTexts(events[..|events| - 1]) + (if e.Token? then [e.token] else [])
  }

  /** The chunk ids of the audio events that carry one, in order. */
  function ChunkIds(events: seq<Event>): seq<int>
    decreases |events|
  {
    if events == [] then []
    else
      var e := events[|events| - 1];
      ChunkIds(events[..|events| - 1]) + (if e.Audio? && e.chunkId.Some? then [e.chunkId.value] else [])
  }

  /** The texts of the audio events without a chunk id (trailing flushes). */
  function FlushTexts(events: seq<Event>): seq<string>
    decreases |events|
  {
    if events == [] then []
    else
      var e := events[|events| - 1];
      FlushTexts(events[..|events| - 1]) + (if e.Audio? && e.chunkId.None? then [e.sentence] else [])
  }

  predicate StrictlyIncreasing(xs: seq<int>)
  {
    forall i, j :: 0 <= i < j < |xs| ==> xs[i] < xs[j]
  }
}
