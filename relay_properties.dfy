/**
  What the relay promises, proved about the functions of SentenceRelay: token
  pass-through, the segmentation of the response into synthesised sentences,
  the chunk-id numbering, the trailing flush and the end-of-stream marker.
 */
module RelayProperties {
  import opened Wrappers
  import opened Text
  import opened SentenceRelay

  // ----- views of appended event sequences -----

  /** Appending one event extends each view by at most that event. */
  lemma ViewsSnoc(es: seq<Event>, e: Event)
    ensures TokenTexts(es + [e]) == TokenTexts(es) + (if e.Token? then [e.token] else [])
    ensures ChunkIds(es + [e]) == ChunkIds(es) + (if e.Audio? && e.chunkId.Some? then [e.chunkId.value] else [])
    ensures FlushTexts(es + [e]) == FlushTexts(es) + (if e.Audio? && e.chunkId.None? then [e.sentence] else [])
  {
    assert (es + [e])[..|es|] == es;
  }

  lemma ConcatSnoc(parts: seq<string>, last: string)
    ensures Concat(parts + [last]) == Concat(parts) + last
  {
    assert (parts + [last])[..|parts|] == parts;
  }

  /** The state after one more delta. */
  lemma RunSnoc(deltas: seq<Option<string>>, d: Option<string>, tts: nat -> bool)
    ensures Run(deltas + [d], tts) == Step(Run(deltas, tts), d, tts)
  {
    assert (deltas + [d])[..|deltas|] == deltas;
  }

  // ----- the decision taken for one token -----

  /** A delta with no content changes nothing. For a token, the relay asks
      for exactly one synthesis when the TOKEN holds a terminator and the
      stripped buffer is longer than 3 characters, and then resets the buffer
      whatever the outcome; a terminator in a too-short buffer keeps it. */
  lemma StepDecision(st: State, delta: Option<string>, tts: nat -> bool)
    ensures delta.None? || delta == Some("") ==> Step(st, delta, tts) == st
    ensures delta.Some? && delta.value != [] ==>
      var token := delta.value;
      var next := Step(st, delta, tts);
      && next.full == st.full + token
      && next.events[..|st.events| + 1] == st.events + [Token(token)]
      && |next.events| <= |st.events| + 2
      && (next.attempts != st.attempts <==> HasTerminator(token) && |Strip(st.buffer + token)| > MinSentenceLength)
      && (next.attempts != st.attempts ==>
            && next.attempts == st.attempts + [Strip(st.buffer + token)]
            && next.buffer == ""
            && next.count == st.count + 1
            && (|next.events| == |st.events| + 2 <==> tts(st.count))
            && (tts(st.count) ==> next.events[|st.events| + 1] == Audio(Strip(st.buffer + token), Some(st.count + 1))))
      && (next.attempts == st.attempts ==>
            next.buffer == st.buffer + token && next.count == st.count && |next.events| == |st.events| + 1)
  {
    if delta.Some? && delta.value != [] {
      var next := Step(st, delta, tts);
      var token := delta.value;
      assert next.events[..|st.events| + 1] == st.events + [Token(token)];
    }
  }

  // ----- invariants of one step -----

  /** The segmentation invariant: the response is the raw segments flushed so
      far followed by the live buffer; each segment holds a terminator, and the
      attempt made for it synthesised that segment stripped, longer than 3
      characters; one attempt per segment, and the counter counts them. */
  ghost predicate Segmented(st: State)
  {
    && Concat(st.segments) + st.buffer == st.full
    && |st.segments| == |st.attempts| == st.count
    && forall k {:trigger st.attempts[k]} :: 0 <= k < st.count ==>
         && st.attempts[k] == Strip(st.segments[k])
         && |st.attempts[k]| > MinSentenceLength
         && HasTerminator(st.segments[k])
  }

  /** The numbering invariant of the events and the attempts made so far:
      one attempt per count, and the events numbered accordingly. */
  ghost predicate Numbered(st: State, tts: nat -> bool)
  {
    |st.attempts| == st.count && NumberedEvents(st.events, st.attempts, st.count, tts)
  }

  /** Chunk ids are strictly increasing; id `n` is present exactly when
      `1 <= n <= count` and attempt `n - 1` succeeded; each audio event
      carries the text of the attempt its id names; and no flush, error or end
      marker has been produced. */
  ghost predicate NumberedEvents(events: seq<Event>, attempts: seq<string>, count: nat, tts: nat -> bool)
  {
    && StrictlyIncreasing(ChunkIds(events))
    && (forall id :: id in ChunkIds(events) <==> 1 <= id <= count && tts(id - 1))
    && AudioNamesAttempt(events, attempts)
    && FlushTexts(events) == []
    && Done !in events && Error !in events
  }

  /** Every audio event has a chunk id that names an attempt, and carries that
      attempt's text. */
  ghost predicate AudioNamesAttempt(events: seq<Event>, attempts: seq<string>)
  {
    forall i :: 0 <= i < |events| && events[i].Audio? ==>
      && events[i].chunkId.Some?
      && 1 <= events[i].chunkId.value <= |attempts|
      && events[i].sentence == attempts[events[i].chunkId.value - 1]
  }

  /** What one step adds to the token texts and to `full_response`. */
  lemma StepTokens(st: State, d: Option<string>, tts: nat -> bool)
    ensures TokenTexts(Step(st, d, tts).events)
         == TokenTexts(st.events) + (if d.Some? && d.value != [] then [d.value] else [])
    ensures Step(st, d, tts).full == st.full + (if d.Some? && d.value != [] then d.value else "")
  {
    if d.Some? && d.value != [] {
      var token := d.value;
      var shown := st.events + [Token(token)];
      ViewsSnoc(st.events, Token(token));
      if Qualifies(st.buffer, token) {
        StepCut(st, token, tts);
        ViewsSnoc(shown, Audio(Strip(st.buffer + token), Some(st.count + 1)));
      } else {
        StepKeep(st, token, tts);
      }
    }
  }

  /** A token that qualifies cuts the buffer as a sentence. */
  lemma StepCut(st: State, token: string, tts: nat -> bool)
    requires token != [] && Qualifies(st.buffer, token)
    ensures var sentence := Strip(st.buffer + token); var shown := st.events + [Token(token)];
      Step(st, Some(token), tts)
        == State(st.full + token, "", st.count + 1,
                 if tts(st.count) then shown + [Audio(sentence, Some(st.count + 1))] else shown,
                 st.attempts + [sentence], st.segments + [st.buffer + token])
  {
  }

  /** A token that does not qualify is added to the buffer. */
  lemma StepKeep(st: State, token: string, tts: nat -> bool)
    requires token != [] && !Qualifies(st.buffer, token)
    ensures Step(st, Some(token), tts)
         == st.(full := st.full + token, buffer := st.buffer + token, events := st.events + [Token(token)])
  {
  }

  lemma StepSegmented(st: State, d: Option<string>, tts: nat -> bool)
    requires Segmented(st)
    ensures Segmented(Step(st, d, tts))
  {
    if d.Some? && d.value != [] {
      if Qualifies(st.buffer, d.value) {
        StepSegmentedCut(st, d.value, tts);
      } else {
        StepSegmentedKeep(st, d.value, tts);
      }
    }
  }

  lemma StepSegmentedCut(st: State, token: string, tts: nat -> bool)
    requires Segmented(st) && token != [] && Qualifies(st.buffer, token)
    ensures Segmented(Step(st, Some(token), tts))
  {
    StepCut(st, token, tts);
    var next := Step(st, Some(token), tts);
    var seg := st.buffer + token;
    assert st.full + token == Concat(st.segments) + seg;
    assert HasTerminator(seg) by { HasTerminatorAt(st.buffer, token); }
    SegmentedAppend(st, seg, next.events);
  }

  /** Closing a segment that holds a terminator and strips to more than the
      threshold keeps the segmentation invariant, whatever the events are. */
  lemma SegmentedAppend(st: State, seg: string, events: seq<Event>)
    requires Segmented(st) && HasTerminator(seg) && |Strip(seg)| > MinSentenceLength
    ensures Segmented(State(Concat(st.segments) + seg, "", st.count + 1, events,
                            st.attempts + [Strip(seg)], st.segments + [seg]))
  {
    var next := State(Concat(st.segments) + seg, "", st.count + 1, events,
                      st.attempts + [Strip(seg)], st.segments + [seg]);
    ConcatSnoc(st.segments, seg);
    assert Concat(next.segments) + next.buffer == next.full;
    forall k | 0 <= k < next.count
      ensures next.attempts[k] == Strip(next.segments[k])
      ensures |next.attempts[k]| > MinSentenceLength
      ensures HasTerminator(next.segments[k])
    {
      if k < st.count {
        assert next.attempts[k] == st.attempts[k] && next.segments[k] == st.segments[k];
      }
    }
  }

  lemma StepSegmentedKeep(st: State, token: string, tts: nat -> bool)
    requires Segmented(st) && token != [] && !Qualifies(st.buffer, token)
    ensures Segmented(Step(st, Some(token), tts))
  {
    StepKeep(st, token, tts);
    var next := Step(st, Some(token), tts);
    assert next.attempts == st.attempts && next.segments == st.segments && next.count == st.count;
    var c := Concat(st.segments);
    assert c + (st.buffer + token) == (c + st.buffer) + token;
  }

  lemma StepNumbered(st: State, d: Option<string>, tts: nat -> bool)
    requires Numbered(st, tts)
    ensures Numbered(Step(st, d, tts), tts)
  {
    if d.Some? && d.value != [] {
      var token := d.value;
      NumberedToken(st.events, st.attempts, st.count, tts, token);
      if !Qualifies(st.buffer, token) {
        StepNumberedPlain(st, token, tts);
      } else if tts(st.count) {
        StepNumberedChunk(st, token, tts);
      } else {
        StepNumberedFailed(st, token, tts);
      }
    }
  }

  lemma StepNumberedPlain(st: State, token: string, tts: nat -> bool)
    requires token != [] && !Qualifies(st.buffer, token)
    requires |st.attempts| == st.count
    requires NumberedEvents(st.events + [Token(token)], st.attempts, st.count, tts)
    ensures Numbered(Step(st, Some(token), tts), tts)
  {
    assert Step(st, Some(token), tts)
        == st.(full := st.full + token, buffer := st.buffer + token, events := st.events + [Token(token)]);
  }

  lemma StepNumberedChunk(st: State, token: string, tts: nat -> bool)
    requires token != [] && Qualifies(st.buffer, token) && tts(st.count)
    requires |st.attempts| == st.count
    requires NumberedEvents(st.events + [Token(token)], st.attempts, st.count, tts)
    ensures Numbered(Step(st, Some(token), tts), tts)
  {
    var shown := st.events + [Token(token)];
    var more := st.attempts + [Strip(st.buffer + token)];
    NumberedWiden(shown, st.attempts, more, st.count, tts);
    NumberedNewChunk(shown, more, st.count, tts);
  }

  lemma StepNumberedFailed(st: State, token: string, tts: nat -> bool)
    requires token != [] && Qualifies(st.buffer, token) && !tts(st.count)
    requires |st.attempts| == st.count
    requires NumberedEvents(st.events + [Token(token)], st.attempts, st.count, tts)
    ensures Numbered(Step(st, Some(token), tts), tts)
  {
    var shown := st.events + [Token(token)];
    var more := st.attempts + [Strip(st.buffer + token)];
    NumberedStretch(shown, st.attempts, more, st.count, tts);
  }

  /** A token event keeps the numbering. */
  lemma NumberedToken(events: seq<Event>, attempts: seq<string>, count: nat, tts: nat -> bool, token: string)
    requires NumberedEvents(events, attempts, count, tts)
    ensures NumberedEvents(events + [Token(token)], attempts, count, tts)
  {
    ViewsSnoc(events, Token(token));
    AudioNamesAttemptSnoc(events, attempts, attempts, Token(token));
  }

  /** More attempts keep the numbering of the events produced so far. */
  lemma NumberedWiden(events: seq<Event>, attempts: seq<string>, more: seq<string>, count: nat, tts: nat -> bool)
    requires NumberedEvents(events, attempts, count, tts) && attempts <= more
    ensures NumberedEvents(events, more, count, tts)
  {
    forall i | 0 <= i < |events| && events[i].Audio?
      ensures events[i].sentence == more[events[i].chunkId.value - 1]
    {
      assert more[events[i].chunkId.value - 1] == attempts[events[i].chunkId.value - 1];
    }
  }

  /** A failed attempt counts without producing an event. */
  lemma NumberedStretch(events: seq<Event>, attempts: seq<string>, more: seq<string>, count: nat, tts: nat -> bool)
    requires NumberedEvents(events, attempts, count, tts) && attempts <= more && !tts(count)
    ensures NumberedEvents(events, more, count + 1, tts)
  {
    NumberedWiden(events, attempts, more, count, tts);
  }

  /** The chunk for a successful attempt `count + 1` keeps the numbering. */
  lemma NumberedNewChunk(events: seq<Event>, attempts: seq<string>, count: nat, tts: nat -> bool)
    requires NumberedEvents(events, attempts, count, tts)
    requires |attempts| == count + 1 && tts(count)
    ensures NumberedEvents(events + [Audio(attempts[count], Some(count + 1))], attempts, count + 1, tts)
  {
    var n := count + 1;
    var a := Audio(attempts[count], Some(n));
    ViewsSnoc(events, a);
    AudioNamesAttemptSnoc(events, attempts, attempts, a);
    var ids := ChunkIds(events);
    assert ChunkIds(events + [a]) == ids + [n];
    IncreasingSnoc(ids, n);
    PresentSnoc(ids, ids + [n], count, tts);
  }

  /** An id above every id so far keeps the ids strictly increasing. */
  lemma IncreasingSnoc(ids: seq<int>, n: int)
    requires StrictlyIncreasing(ids) && forall id :: id in ids ==> id < n
    ensures StrictlyIncreasing(ids + [n])
  {
    forall i, j | 0 <= i < j < |ids| + 1 ensures (ids + [n])[i] < (ids + [n])[j] {
      if j == |ids| {
        assert ids[i] in ids;
      }
    }
  }

  /** A successful attempt `count` adds id `count + 1` to the ids present. */
  lemma PresentSnoc(ids: seq<int>, more: seq<int>, count: nat, tts: nat -> bool)
    requires forall id :: id in ids <==> 1 <= id <= count && tts(id - 1)
    requires tts(count) && more == ids + [count + 1]
    ensures forall id :: id in more <==> 1 <= id <= count + 1 && tts(id - 1)
  {
    forall id ensures id in more <==> 1 <= id <= count + 1 && tts(id - 1) {
      assert id in more <==> id in ids || id == count + 1;
    }
  }

  /** Appending an event that is no audio event, or that names an attempt
      with its text, keeps `AudioNamesAttempt`, also after more attempts. */
  lemma AudioNamesAttemptSnoc(events: seq<Event>, before: seq<string>, attempts: seq<string>, e: Event)
    requires before <= attempts && AudioNamesAttempt(events, before)
    requires e.Audio? ==>
      && e.chunkId.Some?
      && 1 <= e.chunkId.value <= |attempts|
      && e.sentence == attempts[e.chunkId.value - 1]
    ensures AudioNamesAttempt(events + [e], attempts)
  {
    forall i | 0 <= i < |events + [e]| && (events + [e])[i].Audio?
      ensures (events + [e])[i].chunkId.Some?
      ensures 1 <= (events + [e])[i].chunkId.value <= |attempts|
      ensures (events + [e])[i].sentence == attempts[(events + [e])[i].chunkId.value - 1]
    {
      if i < |events| {
        assert (events + [e])[i] == events[i];
        assert attempts[events[i].chunkId.value - 1] == before[events[i].chunkId.value - 1];
      }
    }
  }

  lemma StepAllSucceed(st: State, d: Option<string>, tts: nat -> bool)
    requires forall k :: tts(k)
    requires ChunkIds(st.events) == seq(st.count, k => k + 1)
    ensures var next := Step(st, d, tts); ChunkIds(next.events) == seq(next.count, k => k + 1)
  {
    if d.Some? && d.value != [] {
      var token := d.value;
      ViewsSnoc(st.events, Token(token));
      if Qualifies(st.buffer, token) {
        StepAllSucceedCut(st, token, tts);
      } else {
        StepKeep(st, token, tts);
      }
    }
  }

  lemma StepAllSucceedCut(st: State, token: string, tts: nat -> bool)
    requires tts(st.count) && token != [] && Qualifies(st.buffer, token)
    requires ChunkIds(st.events + [Token(token)]) == seq(st.count, k => k + 1)
    ensures var next := Step(st, Some(token), tts); ChunkIds(next.events) == seq(next.count, k => k + 1)
  {
    StepCut(st, token, tts);
    var shown := st.events + [Token(token)];
    ViewsSnoc(shown, Audio(Strip(st.buffer + token), Some(st.count + 1)));
    assert seq(st.count, k => k + 1) + [st.count + 1] == seq(st.count + 1, k => k + 1);
  }

  // ----- invariants of the loop -----

  /** Every token with content yields one token event, in arrival order, and
      `full_response` is their concatenation. */
  lemma {:induction false} RunTokens(deltas: seq<Option<string>>, tts: nat -> bool)
    ensures TokenTexts(Run(deltas, tts).events) == NonEmptyTokens(deltas)
    ensures Run(deltas, tts).full == Concat(NonEmptyTokens(deltas))
    decreases |deltas|
  {
    if deltas != [] {
      var init := deltas[..|deltas| - 1];
      var d := deltas[|deltas| - 1];
      RunTokens(init, tts);
      StepTokens(Run(init, tts), d, tts);
      if d.Some? && d.value != [] {
        ConcatSnoc(NonEmptyTokens(init), d.value);
      }
    }
  }

  /** The segmentation invariant holds after every delta. */
  lemma {:induction false} RunSegmented(deltas: seq<Option<string>>, tts: nat -> bool)
    ensures Segmented(Run(deltas, tts))
    decreases |deltas|
  {
    if deltas != [] {
      var init := deltas[..|deltas| - 1];
      RunSegmented(init, tts);
      StepSegmented(Run(init, tts), deltas[|deltas| - 1], tts);
    }
  }

  /** The numbering invariant holds after every delta. */
  lemma {:induction false} RunNumbered(deltas: seq<Option<string>>, tts: nat -> bool)
    ensures Numbered(Run(deltas, tts), tts)
    decreases |deltas|
  {
    if deltas != [] {
      var init := deltas[..|deltas| - 1];
      RunNumbered(init, tts);
      StepNumbered(Run(init, tts), deltas[|deltas| - 1], tts);
    }
  }

  /** Inside the loop no flush, error event or end marker is produced. */
  lemma RunQuiet(deltas: seq<Option<string>>, tts: nat -> bool)
    ensures var events := Run(deltas, tts).events;
      FlushTexts(events) == [] && Done !in events && Error !in events
  {
    RunNumbered(deltas, tts);
  }

  /** When every synthesis succeeds the chunk ids are exactly 1, 2, ..., count. */
  lemma {:induction false} RunAllSucceed(deltas: seq<Option<string>>, tts: nat -> bool)
    requires forall k :: tts(k)
    ensures var st := Run(deltas, tts); ChunkIds(st.events) == seq(st.count, k => k + 1)
    decreases |deltas|
  {
    if deltas != [] {
      var init := deltas[..|deltas| - 1];
      RunAllSucceed(init, tts);
      StepAllSucceed(Run(init, tts), deltas[|deltas| - 1], tts);
    }
  }

  /** What is buffered, counted and sent to synthesis does not depend on the
      synthesis outcomes: the buffer is reset whether or not the call failed. */
  lemma {:induction false} RunIgnoresOutcomes(deltas: seq<Option<string>>, tts1: nat -> bool, tts2: nat -> bool)
    ensures var a := Run(deltas, tts1); var b := Run(deltas, tts2);
      a.full == b.full && a.buffer == b.buffer && a.count == b.count
      && a.attempts == b.attempts && a.segments == b.segments
    decreases |deltas|
  {
    if deltas != [] {
      RunIgnoresOutcomes(deltas[..|deltas| - 1], tts1, tts2);
    }
  }

  // ----- after the loop -----

  /** The events `Finish` appends: the error event, or the flush (when the
      buffer is not blank and its synthesis succeeds) and the end marker. */
  function FinishTail(st: State, raises: bool, tts: nat -> bool): seq<Event>
  {
    if raises then [Error]
    else
      var rest := Strip(st.buffer);
      (if rest != [] && tts(st.count) then [Audio(rest, None)] else []) + [Done]
  }

  /** The attempt `Finish` adds: the stripped buffer, unless the stream raised
      or the buffer is blank. */
  function FlushAttempt(st: State, raises: bool): seq<string>
  {
    var rest := Strip(st.buffer);
    if !raises && rest != [] then [rest] else []
  }

  /** `Finish` only appends, to the events and to the attempts. */
  lemma FinishShape(st: State, raises: bool, tts: nat -> bool)
    ensures Finish(st, raises, tts).events == st.events + FinishTail(st, raises, tts)
    ensures Finish(st, raises, tts).attempts == st.attempts + FlushAttempt(st, raises)
  {
    if !raises && Strip(st.buffer) == [] {
      assert [] + [Done] == [Done];
    }
  }

  /** The appended events hold no token and no chunk id; the flush is the only
      audio event among them. */
  lemma TailViews(es: seq<Event>, st: State, raises: bool, tts: nat -> bool)
    ensures var events := es + FinishTail(st, raises, tts); var rest := Strip(st.buffer);
      && TokenTexts(events) == TokenTexts(es)
      && ChunkIds(events) == ChunkIds(es)
      && FlushTexts(events) == FlushTexts(es) + (if !raises && rest != [] && tts(st.count) then [rest] else [])
  {
    var rest := Strip(st.buffer);
    if raises {
      ViewsSnoc(es, Error);
    } else if rest != [] && tts(st.count) {
      var a := Audio(rest, None);
      assert es + FinishTail(st, raises, tts) == es + [a] + [Done];
      ViewsSnoc(es, a);
      ViewsSnoc(es + [a], Done);
    } else {
      assert es + FinishTail(st, raises, tts) == es + [Done];
      ViewsSnoc(es, Done);
    }
  }

  /** The appended events end with the one error event or the one end marker,
      and hold no other of either. */
  lemma TailTerminal(st: State, raises: bool, tts: nat -> bool)
    ensures var tail := FinishTail(st, raises, tts);
      && tail != []
      && tail[|tail| - 1] == (if raises then Error else Done)
      && multiset(tail)[Error] == (if raises then 1 else 0)
      && multiset(tail)[Done] == (if raises then 0 else 1)
  {
    var rest := Strip(st.buffer);
    if !raises && rest != [] && tts(st.count) {
      assert FinishTail(st, raises, tts) == [Audio(rest, None), Done];
    } else if !raises {
      assert FinishTail(st, raises, tts) == [Done];
    }
  }

  // ----- the whole generator -----

  /** Token pass-through: the token events are the non-empty deltas in order,
      whatever synthesis does, and their concatenation is `full_response`. */
  lemma RelayTokens(stream: ChatStream, tts: nat -> bool)
    ensures TokenTexts(Relay(stream, tts).events) == NonEmptyTokens(stream.deltas)
    ensures Concat(TokenTexts(Relay(stream, tts).events)) == Run(stream.deltas, tts).full
  {
    var st := Run(stream.deltas, tts);
    RunTokens(stream.deltas, tts);
    FinishShape(st, stream.raises, tts);
    TailViews(st.events, st, stream.raises, tts);
  }

  /** On normal completion the last event is `[DONE]`, it occurs once, and no
      error event occurs; when the chat stream raised, the last event is the
      one error event and `[DONE]` never occurs. */
  lemma RelayTerminal(stream: ChatStream, tts: nat -> bool)
    ensures var events := Relay(stream, tts).events;
      && events != []
      && (!stream.raises ==>
            events[|events| - 1] == Done && multiset(events)[Done] == 1 && Error !in events)
      && (stream.raises ==>
            events[|events| - 1] == Error && multiset(events)[Error] == 1 && Done !in events)
  {
    var st := Run(stream.deltas, tts);
    var tail := FinishTail(st, stream.raises, tts);
    RunQuiet(stream.deltas, tts);
    FinishShape(st, stream.raises, tts);
    TailTerminal(st, stream.raises, tts);
    var events := st.events + tail;
    assert events[|events| - 1] == tail[|tail| - 1];
    assert multiset(events) == multiset(st.events) + multiset(tail);
    assert multiset(st.events)[Done] == 0 && multiset(st.events)[Error] == 0;
  }

  /** The trailing flush: there is one more synthesis attempt, of the
      stripped buffer, exactly when the stream completed and the buffer is
      not blank; there is no length threshold, and the audio event it may
      produce is the only one without a chunk id. */
  lemma RelayFlush(stream: ChatStream, tts: nat -> bool)
    ensures var st := Run(stream.deltas, tts); var rest := Strip(st.buffer);
      var out := Relay(stream, tts);
      && out.attempts == st.attempts + (if !stream.raises && rest != [] then [rest] else [])
      && FlushTexts(out.events) == (if !stream.raises && rest != [] && tts(st.count) then [rest] else [])
  {
    var st := Run(stream.deltas, tts);
    RunQuiet(stream.deltas, tts);
    FinishShape(st, stream.raises, tts);
    TailViews(st.events, st, stream.raises, tts);
  }

  /** Chunk ids of the whole response: strictly increasing, each at least 1,
      id `n` present exactly when the n-th sentence's synthesis succeeded, and
      exactly 1..count when no synthesis fails. */
  lemma RelayChunkIds(stream: ChatStream, tts: nat -> bool)
    ensures var st := Run(stream.deltas, tts); var ids := ChunkIds(Relay(stream, tts).events);
      && StrictlyIncreasing(ids)
      && (forall i :: 0 <= i < |ids| ==> ids[i] >= 1)
      && (forall id :: id in ids <==> 1 <= id <= st.count && tts(id - 1))
      && ((forall k :: tts(k)) ==> ids == seq(st.count, k => k + 1))
  {
    var st := Run(stream.deltas, tts);
    RunNumbered(stream.deltas, tts);
    FinishShape(st, stream.raises, tts);
    TailViews(st.events, st, stream.raises, tts);
    var ids := ChunkIds(st.events);
    forall i | 0 <= i < |ids| ensures ids[i] >= 1 {
      assert ids[i] in ids;
    }
    if forall k :: tts(k) {
      RunAllSucceed(stream.deltas, tts);
    }
  }

  /** The sentences synthesised mid-stream partition the response: the
      response is the flushed segments followed by the final buffer, and each
      attempt made in the loop sent one segment, stripped, longer than 3
      characters and holding a terminator. */
  lemma RelaySegments(stream: ChatStream, tts: nat -> bool)
    ensures var st := Run(stream.deltas, tts);
      && Concat(st.segments) + st.buffer == Concat(TokenTexts(Relay(stream, tts).events))
      && |st.segments| == st.count
      && st.count <= |Relay(stream, tts).attempts|
      && Relay(stream, tts).attempts[..st.count] == st.attempts
      && forall k {:trigger st.attempts[k]} :: 0 <= k < st.count ==>
           && st.attempts[k] == Strip(st.segments[k])
           && |st.attempts[k]| > MinSentenceLength
           && HasTerminator(st.segments[k])
  {
    var st := Run(stream.deltas, tts);
    assert Relay(stream, tts) == Finish(st, stream.raises, tts);
    RunSegmented(stream.deltas, tts);
    RelayTokens(stream, tts);
    FinishShape(st, stream.raises, tts);
    assert (st.attempts + FlushAttempt(st, stream.raises))[..st.count] == st.attempts;
  }

  /** A failed synthesis never stops the relay: the token events and the
      sequence of synthesis requests are the same whatever the outcomes. */
  lemma RelayIgnoresOutcomes(stream: ChatStream, tts1: nat -> bool, tts2: nat -> bool)
    ensures Relay(stream, tts1).attempts == Relay(stream, tts2).attempts
    ensures TokenTexts(Relay(stream, tts1).events) == TokenTexts(Relay(stream, tts2).events)
  {
    RunIgnoresOutcomes(stream.deltas, tts1, tts2);
    RelayTokens(stream, tts1);
    RelayTokens(stream, tts2);
    FinishShape(Run(stream.deltas, tts1), stream.raises, tts1);
    FinishShape(Run(stream.deltas, tts2), stream.raises, tts2);
  }
}
