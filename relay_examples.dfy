/**
  Worked token streams. For each: the string facts it relies on, the state
  after every delta, what the end of the generator appends, and then the
  whole relay: what it yields and what it asks to synthesise.

  Each whole-stream lemma takes its deltas as a parameter fixed by its
  `requires`, rather than as a literal inside the `ensures`: with a literal
  argument the verifier unfolds `Run` and `Strip` on the literal eagerly, and
  the proof grows far past what the step-by-step lemmas below need.
 */
module RelayExamples {
  import opened Wrappers
  import opened Text
  import opened SentenceRelay
  import opened RelayProperties

  /** Every synthesis attempt succeeds. */
  function AllSucceed(k: nat): bool { true }

  /** Only the first synthesis attempt fails. */
  function FirstFails(k: nat): bool { k != 0 }

  // ----- "Hello!", " How are", " you?", every synthesis succeeding -----

  const Greeted := State("Hello!", "", 1, [Token("Hello!"), Audio("Hello!", Some(1))], ["Hello!"], ["Hello!"])

  const Asking := State("Hello! How are", " How are", 1,
                        [Token("Hello!"), Audio("Hello!", Some(1)), Token(" How are")], ["Hello!"], ["Hello!"])

  const Asked := State("Hello! How are you?", "", 2,
                       [Token("Hello!"), Audio("Hello!", Some(1)), Token(" How are"), Token(" you?"),
                        Audio("How are you?", Some(2))],
                       ["Hello!", "How are you?"], ["Hello!", " How are you?"])

  lemma StripHello() ensures Strip("Hello!") == "Hello!"
  {
  }

  lemma StripHowAreYou() ensures Strip(" How are you?") == "How are you?"
  {
  }

  lemma QualifiesHello() ensures Qualifies("", "Hello!")
  {
    StripHello();
    assert "" + "Hello!" == "Hello!" && "Hello!"[5] == '!';
  }

  lemma NoTerminatorHowAre() ensures !HasTerminator(" How are")
  {
  }

  lemma QualifiesYou() ensures Qualifies(" How are", " you?")
  {
    StripHowAreYou();
    assert " you?"[4] == '?' && " How are" + " you?" == " How are you?";
  }

  /** "Hello!" is cut at once and synthesised as chunk 1. */
  lemma GreetingFirst()
    ensures Step(Start, Some("Hello!"), AllSucceed) == Greeted
  {
    QualifiesHello();
    StripHello();
    GreetingFirstText();
    var next := Step(Start, Some("Hello!"), AllSucceed);
    assert next.full == Greeted.full;
    assert next.buffer == Greeted.buffer;
    assert next.count == Greeted.count;
    assert next.events == Greeted.events;
    assert next.attempts == Greeted.attempts;
    assert next.segments == Greeted.segments;
  }

  lemma GreetingFirstText()
    ensures "" + "Hello!" == "Hello!"
    ensures Greeted.events == Start.events + [Token("Hello!")] + [Audio("Hello!", Some(1))]
  {
  }

  /** " How are" has no terminator and waits in the buffer. */
  lemma GreetingSecond()
    ensures Step(Greeted, Some(" How are"), AllSucceed) == Asking
  {
    NoTerminatorHowAre();
    GreetingSecondText();
    var next := Step(Greeted, Some(" How are"), AllSucceed);
    assert next.full == Asking.full;
    assert next.buffer == Asking.buffer;
    assert next.count == Asking.count;
    assert next.events == Asking.events;
    assert next.attempts == Asking.attempts;
    assert next.segments == Asking.segments;
  }

  lemma GreetingSecondText()
    ensures "Hello!" + " How are" == "Hello! How are" && "" + " How are" == " How are"
    ensures Asking.events == Greeted.events + [Token(" How are")]
  {
  }

  /** " you?" ends the second sentence, which is stripped before synthesis. */
  lemma GreetingThird()
    ensures Step(Asking, Some(" you?"), AllSucceed) == Asked
  {
    QualifiesYou();
    StripHowAreYou();
    GreetingThirdText();
    var next := Step(Asking, Some(" you?"), AllSucceed);
    assert next.full == Asked.full;
    assert next.buffer == Asked.buffer;
    assert next.count == Asked.count;
    assert next.events == Asked.events;
    assert next.attempts == Asked.attempts;
    assert next.segments == Asked.segments;
  }

  lemma GreetingThirdText()
    ensures "Hello! How are" + " you?" == "Hello! How are you?" && " How are" + " you?" == " How are you?"
    ensures Asked.events == Asking.events + [Token(" you?")] + [Audio("How are you?", Some(2))]
  {
  }

  /** No buffered text is left, so the stream closes with `[DONE]` alone. */
  lemma GreetingDone()
    ensures Finish(Asked, false, AllSucceed)
         == Trace([Token("Hello!"), Audio("Hello!", Some(1)), Token(" How are"), Token(" you?"), Audio("How are you?", Some(2)), Done],
                  ["Hello!", "How are you?"])
  {
    assert Strip("") == "";
    var out := Finish(Asked, false, AllSucceed);
    assert out.events == Asked.events + [Done];
  }

  /** The token events in order, each audio chunk right after the token that
      ended its sentence, chunk ids 1 and 2, and `[DONE]`, since nothing is
      left to flush. */
  lemma Greeting(deltas: seq<Option<string>>)
    requires deltas == [Some("Hello!"), Some(" How are"), Some(" you?")]
    ensures Relay(ChatStream(deltas, false), AllSucceed)
         == Trace([Token("Hello!"), Audio("Hello!", Some(1)), Token(" How are"), Token(" you?"), Audio("How are you?", Some(2)), Done],
                  ["Hello!", "How are you?"])
  {
    RunSnoc([], deltas[0], AllSucceed);
    assert [] + [deltas[0]] == deltas[..1];
    GreetingFirst();
    assert Run(deltas[..1], AllSucceed) == Greeted;
    RunSnoc(deltas[..1], deltas[1], AllSucceed);
    assert deltas[..1] + [deltas[1]] == deltas[..2];
    GreetingSecond();
    assert Run(deltas[..2], AllSucceed) == Asking;
    RunSnoc(deltas[..2], deltas[2], AllSucceed);
    assert deltas[..2] + [deltas[2]] == deltas;
    GreetingThird();
    assert Run(deltas, AllSucceed) == Asked;
    GreetingDone();
  }

  // ----- "Hi.", " there", every synthesis succeeding -----

  const ShortBuffered := State("Hi.", "Hi.", 0, [Token("Hi.")], [], [])

  const ShortJoined := State("Hi. there", "Hi. there", 0, [Token("Hi."), Token(" there")], [], [])

  lemma StripHi() ensures Strip("Hi.") == "Hi."
  {
  }

  lemma StripHiThere() ensures Strip("Hi. there") == "Hi. there"
  {
  }

  lemma NoTerminatorThere() ensures !HasTerminator(" there")
  {
  }

  lemma ShortHi() ensures !Qualifies("", "Hi.")
  {
    StripHi();
    assert "" + "Hi." == "Hi.";
  }

  /** "Hi." holds a terminator but is only three characters: it stays in
      the buffer. */
  lemma ShortFirst()
    ensures Step(Start, Some("Hi."), AllSucceed) == ShortBuffered
  {
    ShortHi();
    ShortFirstText();
    var next := Step(Start, Some("Hi."), AllSucceed);
    assert next.full == ShortBuffered.full;
    assert next.buffer == ShortBuffered.buffer;
    assert next.count == ShortBuffered.count;
    assert next.events == ShortBuffered.events;
    assert next.attempts == ShortBuffered.attempts;
    assert next.segments == ShortBuffered.segments;
  }

  lemma ShortFirstText()
    ensures "" + "Hi." == "Hi."
    ensures ShortBuffered.events == Start.events + [Token("Hi.")]
  {
  }

  /** " there" holds no terminator, so the buffer "Hi. there" is not cut
      although it contains one. */
  lemma ShortSecond()
    ensures Step(ShortBuffered, Some(" there"), AllSucceed) == ShortJoined
  {
    NoTerminatorThere();
    ShortSecondText();
    var next := Step(ShortBuffered, Some(" there"), AllSucceed);
    assert next.full == ShortJoined.full;
    assert next.buffer == ShortJoined.buffer;
    assert next.count == ShortJoined.count;
    assert next.events == ShortJoined.events;
    assert next.attempts == ShortJoined.attempts;
    assert next.segments == ShortJoined.segments;
  }

  lemma ShortSecondText()
    ensures "Hi." + " there" == "Hi. there"
    ensures ShortJoined.events == ShortBuffered.events + [Token(" there")]
  {
  }

  /** The short buffer is flushed without the length threshold. */
  lemma ShortDone()
    ensures Finish(ShortBuffered, false, AllSucceed)
         == Trace([Token("Hi."), Audio("Hi.", None), Done],
                  ["Hi."])
  {
    StripHi();
    var out := Finish(ShortBuffered, false, AllSucceed);
    assert out.events == ShortBuffered.events + [Audio("Hi.", None)] + [Done];
  }

  /** The whole buffer, terminator inside, goes to the flush. */
  lemma ShortThereDone()
    ensures Finish(ShortJoined, false, AllSucceed)
         == Trace([Token("Hi."), Token(" there"), Audio("Hi. there", None), Done],
                  ["Hi. there"])
  {
    StripHiThere();
    var out := Finish(ShortJoined, false, AllSucceed);
    assert out.events == ShortJoined.events + [Audio("Hi. there", None)] + [Done];
  }

  /** "Hi." alone: nothing is synthesised mid-stream, and the trailing flush
      sends "Hi." without a chunk id. */
  lemma ShortSentence(deltas: seq<Option<string>>)
    requires deltas == [Some("Hi.")]
    ensures Relay(ChatStream(deltas, false), AllSucceed)
         == Trace([Token("Hi."), Audio("Hi.", None), Done],
                  ["Hi."])
  {
    RunSnoc([], deltas[0], AllSucceed);
    assert [] + [deltas[0]] == deltas;
    ShortFirst();
    assert Run(deltas, AllSucceed) == ShortBuffered;
    ShortDone();
  }

  /** "Hi.", " there": the terminator test is on the token, so the whole
      buffer is left for the trailing flush. */
  lemma TerminatorMustBeInToken(deltas: seq<Option<string>>)
    requires deltas == [Some("Hi."), Some(" there")]
    ensures Relay(ChatStream(deltas, false), AllSucceed)
         == Trace([Token("Hi."), Token(" there"), Audio("Hi. there", None), Done],
                  ["Hi. there"])
  {
    RunSnoc([], deltas[0], AllSucceed);
    assert [] + [deltas[0]] == deltas[..1];
    ShortFirst();
    assert Run(deltas[..1], AllSucceed) == ShortBuffered;
    RunSnoc(deltas[..1], deltas[1], AllSucceed);
    assert deltas[..1] + [deltas[1]] == deltas;
    ShortSecond();
    assert Run(deltas, AllSucceed) == ShortJoined;
    ShortThereDone();
  }

  // ----- "One.", " Two.", the first synthesis failing -----

  const Counted1 := State("One.", "", 1, [Token("One.")], ["One."], ["One."])

  const Counted2 := State("One. Two.", "", 2, [Token("One."), Token(" Two."), Audio("Two.", Some(2))],
                          ["One.", "Two."], ["One.", " Two."])

  lemma StripOne() ensures Strip("One.") == "One."
  {
  }

  lemma StripTwo() ensures Strip(" Two.") == "Two."
  {
  }

  lemma QualifiesOne() ensures Qualifies("", "One.")
  {
    StripOne();
    assert "" + "One." == "One." && "One."[3] == '.';
  }

  lemma QualifiesTwo() ensures Qualifies("", " Two.")
  {
    StripTwo();
    assert "" + " Two." == " Two." && " Two."[4] == '.';
  }

  /** "One." is attempted as chunk 1; the attempt fails, so no audio event. */
  lemma FailureFirst()
    ensures Step(Start, Some("One."), FirstFails) == Counted1
  {
    QualifiesOne();
    StripOne();
    FailureFirstText();
    var next := Step(Start, Some("One."), FirstFails);
    assert next.full == Counted1.full;
    assert next.buffer == Counted1.buffer;
    assert next.count == Counted1.count;
    assert next.events == Counted1.events;
    assert next.attempts == Counted1.attempts;
    assert next.segments == Counted1.segments;
  }

  lemma FailureFirstText()
    ensures "" + "One." == "One."
    ensures Counted1.events == Start.events + [Token("One.")]
  {
  }

  /** " Two." is attempted as chunk 2 and succeeds. */
  lemma FailureSecond()
    ensures Step(Counted1, Some(" Two."), FirstFails) == Counted2
  {
    QualifiesTwo();
    StripTwo();
    FailureSecondText();
    var next := Step(Counted1, Some(" Two."), FirstFails);
    assert next.full == Counted2.full;
    assert next.buffer == Counted2.buffer;
    assert next.count == Counted2.count;
    assert next.events == Counted2.events;
    assert next.attempts == Counted2.attempts;
    assert next.segments == Counted2.segments;
  }

  lemma FailureSecondText()
    ensures "" + " Two." == " Two." && "One." + " Two." == "One. Two."
    ensures Counted2.events == Counted1.events + [Token(" Two.")] + [Audio("Two.", Some(2))]
  {
    FailureSecondFull();
    FailureSecondEvents();
  }

  lemma FailureSecondFull()
    ensures "One." + " Two." == "One. Two."
  {
  }

  lemma FailureSecondEvents()
    ensures Counted2.events == Counted1.events + [Token(" Two.")] + [Audio("Two.", Some(2))]
  {
  }

  /** Nothing is left to flush. */
  lemma FailureDone()
    ensures Finish(Counted2, false, FirstFails)
         == Trace([Token("One."), Token(" Two."), Audio("Two.", Some(2)), Done],
                  ["One.", "Two."])
  {
    assert Strip("") == "";
    var out := Finish(Counted2, false, FirstFails);
    assert out.events == Counted2.events + [Done];
  }

  /** "One.", " Two." when the first synthesis fails: the buffer was reset
      anyway, the second sentence keeps chunk id 2, and id 1 is missing. */
  lemma FailureLeavesGap(deltas: seq<Option<string>>)
    requires deltas == [Some("One."), Some(" Two.")]
    ensures Relay(ChatStream(deltas, false), FirstFails)
         == Trace([Token("One."), Token(" Two."), Audio("Two.", Some(2)), Done],
                  ["One.", "Two."])
  {
    RunSnoc([], deltas[0], FirstFails);
    assert [] + [deltas[0]] == deltas[..1];
    FailureFirst();
    assert Run(deltas[..1], FirstFails) == Counted1;
    RunSnoc(deltas[..1], deltas[1], FirstFails);
    assert deltas[..1] + [deltas[1]] == deltas;
    FailureSecond();
    assert Run(deltas, FirstFails) == Counted2;
    FailureDone();
  }

  // ----- "Hel", a delta without content, "lo.", then the stream raises -----

  const Partial := State("Hel", "Hel", 0, [Token("Hel")], [], [])

  const Completed := State("Hello.", "", 1, [Token("Hel"), Token("lo."), Audio("Hello.", Some(1))], ["Hello."], ["Hello."])

  lemma StripHelloDot() ensures Strip("Hello.") == "Hello."
  {
  }

  lemma NoTerminatorHel() ensures !HasTerminator("Hel")
  {
  }

  lemma QualifiesLo() ensures Qualifies("Hel", "lo.")
  {
    StripHelloDot();
    assert "Hel" + "lo." == "Hello." && "lo."[2] == '.';
  }

  /** "Hel" waits in the buffer. */
  lemma InterruptedFirst()
    ensures Step(Start, Some("Hel"), AllSucceed) == Partial
  {
    NoTerminatorHel();
    InterruptedFirstText();
    var next := Step(Start, Some("Hel"), AllSucceed);
    assert next.full == Partial.full;
    assert next.buffer == Partial.buffer;
    assert next.count == Partial.count;
    assert next.events == Partial.events;
    assert next.attempts == Partial.attempts;
    assert next.segments == Partial.segments;
  }

  lemma InterruptedFirstText()
    ensures "" + "Hel" == "Hel"
    ensures Partial.events == Start.events + [Token("Hel")]
  {
  }

  /** "lo." completes "Hello.", cut as chunk 1. */
  lemma InterruptedThird()
    ensures Step(Partial, Some("lo."), AllSucceed) == Completed
  {
    QualifiesLo();
    StripHelloDot();
    InterruptedThirdText();
    var next := Step(Partial, Some("lo."), AllSucceed);
    assert next.full == Completed.full;
    assert next.buffer == Completed.buffer;
    assert next.count == Completed.count;
    assert next.events == Completed.events;
    assert next.attempts == Completed.attempts;
    assert next.segments == Completed.segments;
  }

  lemma InterruptedThirdText()
    ensures "Hel" + "lo." == "Hello."
    ensures Completed.events == Partial.events + [Token("lo.")] + [Audio("Hello.", Some(1))]
  {
  }

  /** The raised stream ends with the error event. */
  lemma InterruptedDone()
    ensures Finish(Completed, true, AllSucceed)
         == Trace([Token("Hel"), Token("lo."), Audio("Hello.", Some(1)), Error],
                  ["Hello."])
  {
    var out := Finish(Completed, true, AllSucceed);
    assert out.events == Completed.events + [Error];
  }

  /** The stream raising after those deltas: what was produced stays, one
      error event closes the stream, and there is neither a flush nor
      `[DONE]`; a delta without content changes nothing. */
  lemma StreamErrorEndsWithError(deltas: seq<Option<string>>)
    requires deltas == [Some("Hel"), None, Some("lo.")]
    ensures Relay(ChatStream(deltas, true), AllSucceed)
         == Trace([Token("Hel"), Token("lo."), Audio("Hello.", Some(1)), Error],
                  ["Hello."])
  {
    RunSnoc([], deltas[0], AllSucceed);
    assert [] + [deltas[0]] == deltas[..1];
    InterruptedFirst();
    assert Run(deltas[..1], AllSucceed) == Partial;
    RunSnoc(deltas[..1], deltas[1], AllSucceed);
    assert deltas[..1] + [deltas[1]] == deltas[..2];
    assert Run(deltas[..2], AllSucceed) == Partial;
    RunSnoc(deltas[..2], deltas[2], AllSucceed);
    assert deltas[..2] + [deltas[2]] == deltas;
    InterruptedThird();
    assert Run(deltas, AllSucceed) == Completed;
    InterruptedDone();
  }
}
