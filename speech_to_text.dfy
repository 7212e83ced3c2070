/**
 * The dictation hook (`useSpeechToText`): its `listening`, `transcript` and
 * `error` state and how the start and stop requests and the recognizer's
 * result and error events change it. The platform recognizer is abstract:
 * whether it exists, whether `start()` throws, and the events it delivers
 * are inputs.
 */
module SpeechToText {
  import opened Wrappers

  /** The error shown when the platform has no speech recognition. */
  const UnsupportedMessage := "SpeechRecognition API not supported in this browser."

  /** One alternative of a recognition result. */
  datatype Alternative = Alternative(transcript: string)

  /** How `recognition.start()` returns: normally, or by throwing `e`, whose `String(e)` is kept. */
  datatype StartOutcome = Started | Threw(rendered: string)

  /** The value passed to `onerror`: its `message` ("" when absent) and its `String(e)`. */
  datatype ErrorValue = ErrorValue(message: string, rendered: string)

  /** What can happen to a dictation session. */
  datatype Event =
    | StartRequested(outcome: StartOutcome)
    | StopRequested
    /** A result event, carrying the whole result list (each result's alternatives, best first). */
    | ResultsArrived(results: seq<seq<Alternative>>)
    | ErrorRaised(value: ErrorValue)

  /** The hook's state; `hasRecognizer` is fixed once the mount effect has run. */
  datatype Session = Session(hasRecognizer: bool, listening: bool, transcript: string, error: Option<string>)

  /** The state right after the mount effect: without a recognition API, only the error is set. */
  function Mounted(apiAvailable: bool): (s: Session)
    ensures s.hasRecognizer == apiAvailable && !s.listening && s.transcript == ""
    ensures s.error == if apiAvailable then None else Some(UnsupportedMessage)
  {
    if apiAvailable then Session(true, false, "", None)
    else Session(false, false, "", Some(UnsupportedMessage))
  }

  /** Every result has a first alternative, so reading `results[i][0].transcript` cannot throw. */
  predicate EveryResultHasAlternative(results: seq<seq<Alternative>>) {
    forall i :: 0 <= i < |results| ==> |results[i]| > 0
  }

  /** The transcript of a result's first alternative; `""` when it has none. */
  function FirstTranscript(result: seq<Alternative>): string {
    if |result| > 0 then result[0].transcript else ""
  }

  /** The first alternatives' transcripts, concatenated in order with nothing between them. */
  function Joined(results: seq<seq<Alternative>>): string {
    if results == [] then ""
    else Joined(results[..|results| - 1]) + FirstTranscript(results[|results| - 1])
  }

  /** Joining is plain concatenation: no separator, no trimming, order kept. */
  lemma {:induction false} JoinedAppend(a: seq<seq<Alternative>>, b: seq<seq<Alternative>>)
    ensures Joined(a + b) == Joined(a) + Joined(b)
    decreases |b|
  {
    if b == [] {
      assert a + b == a;
    } else {
      var b' := b[..|b| - 1];
      var ab := a + b;
      assert ab[..|ab| - 1] == a + b' && ab[|ab| - 1] == b[|b| - 1];
      JoinedAppend(a, b');
      var x, y, z := Joined(a), Joined(b'), FirstTranscript(b[|b| - 1]);
      assert Joined(ab) == (x + y) + z;
      assert Joined(b) == y + z;
      assert (x + y) + z == x + (y + z);
    }
  }

  /** The error text `onerror` stores: the message when it is non-empty, else `String(e)`. */
  function ErrorText(v: ErrorValue): (t: string)
    ensures v.message != "" ==> t == v.message
    ensures v.message == "" ==> t == v.rendered
  {
    if v.message != "" then v.message else v.rendered
  }

  /**
   * One step of the session. Without a recognizer every request is ignored
   * and no event arrives. A result list with an empty result throws inside
   * the handler, which then leaves the state as it was.
   */
  function Step(s: Session, e: Event): (t: Session)
    ensures t.hasRecognizer == s.hasRecognizer
    ensures !s.hasRecognizer ==> t == s
    ensures !e.ErrorRaised? && !(e.StartRequested? && e.outcome.Threw?) ==> t.error == s.error
  {
    if !s.hasRecognizer then s
    else match e
      case StartRequested(Started) => s.(listening := true)
      case StartRequested(Threw(rendered)) => s.(error := Some(rendered))
      case StopRequested => s.(listening := false)
      case ResultsArrived(results) =>
        if EveryResultHasAlternative(results) then s.(transcript := Joined(results)) else s
      case ErrorRaised(v) => s.(error := Some(ErrorText(v)))
  }

  /** The session after `events`, in order. */
  function Run(s: Session, events: seq<Event>): (t: Session)
    ensures t.hasRecognizer == s.hasRecognizer
    decreases |events|
  {
    if events == [] then s else Run(Step(s, events[0]), events[1..])
  }

  /** Without a recognition API the session never changes: start and stop do nothing. */
  lemma {:induction false} UnsupportedNeverChanges(events: seq<Event>)
    ensures Run(Mounted(false), events) == Mounted(false)
    decreases |events|
  {
    if events != [] {
      UnsupportedNeverChanges(events[1..]);
    }
  }

  predicate IsStartOrStop(e: Event) {
    e.StartRequested? || e.StopRequested?
  }

  /** `listening` changes only on start and stop requests: there is no end handler. */
  lemma {:induction false} ListeningChangesOnlyOnRequests(s: Session, events: seq<Event>)
    requires forall k :: 0 <= k < |events| ==> !IsStartOrStop(events[k])
    ensures Run(s, events).listening == s.listening
    decreases |events|
  {
    if events != [] {
      ListeningChangesOnlyOnRequests(Step(s, events[0]), events[1..]);
    }
  }

  /** `transcript` changes only on result events. */
  lemma {:induction false} TranscriptChangesOnlyOnResults(s: Session, events: seq<Event>)
    requires forall k :: 0 <= k < |events| ==> !events[k].ResultsArrived?
    ensures Run(s, events).transcript == s.transcript
    decreases |events|
  {
    if events != [] {
      TranscriptChangesOnlyOnResults(Step(s, events[0]), events[1..]);
    }
  }

  /** A result event replaces the transcript: what was there before plays no part. */
  lemma ResultsReplaceTranscript(s: Session, t: Session, results: seq<seq<Alternative>>)
    requires s.hasRecognizer && t.hasRecognizer && EveryResultHasAlternative(results)
    ensures Step(s, ResultsArrived(results)).transcript == Joined(results)
    ensures Step(s, ResultsArrived(results)).transcript == Step(t, ResultsArrived(results)).transcript
  {
  }

  /** An error event sets the error and leaves `transcript` and `listening` alone. */
  lemma ErrorKeepsTranscript(s: Session, v: ErrorValue)
    requires s.hasRecognizer
    ensures Step(s, ErrorRaised(v)) == s.(error := Some(ErrorText(v)))
  {
  }

  /** A `start()` that throws records `String(e)` and leaves `listening` as it was. */
  lemma ThrowingStartKeepsListening(s: Session, rendered: string)
    requires s.hasRecognizer
    ensures Step(s, StartRequested(Threw(rendered))).listening == s.listening
    ensures Step(s, StartRequested(Threw(rendered))).error == Some(rendered)
    ensures Step(s, StartRequested(Started)).listening
  {
  }

  /** Stopping twice is stopping once. */
  lemma StopIdempotent(s: Session)
    ensures Step(Step(s, StopRequested), StopRequested) == Step(s, StopRequested)
    ensures s.hasRecognizer ==> !Step(s, StopRequested).listening
  {
  }

  /**
   * Start, an interim result `hel`, a final result list `hello world`, stop:
   * the transcript reads exactly `hello world` and nothing follows the stop.
   */
  lemma DictationScenario()
    ensures var s := Run(Mounted(true), [
        StartRequested(Started),
        ResultsArrived([[Alternative("hel")]]),
        ResultsArrived([[Alternative("hello world")]]),
        StopRequested]);
      s.transcript == "hello world" && !s.listening && s.error.None?
  {
    var r1: seq<seq<Alternative>> := [[Alternative("hel")]];
    var r2: seq<seq<Alternative>> := [[Alternative("hello world")]];
    assert Joined(r1) == "hel" by { assert r1[..0] == []; }
    assert Joined(r2) == "hello world" by { assert r2[..0] == []; }
  }

  /** The hook, over its state fields. */
  class Dictation {
    /** Whether the mount effect found a recognition API and created a recognizer. */
    const hasRecognizer: bool
    var listening: bool
    var transcript: string
    var error: Option<string>

    function State(): Session
      reads this
    {
      Session(hasRecognizer, listening, transcript, error)
    }

    /** The hook after its mount effect. */
    constructor (apiAvailable: bool)
      ensures State() == Mounted(apiAvailable)
    {
      hasRecognizer := apiAvailable;
      listening := false;
      transcript := "";
      error := if apiAvailable then None else Some(UnsupportedMessage);
    }

    /** `startListening`; `outcome` is how the recognizer's `start()` returns. */
    method StartListening(outcome: StartOutcome)
      modifies this
      ensures State() == Step(old(State()), StartRequested(outcome))
    {
      if !hasRecognizer {
        return;
      }
      match outcome
      case Started =>
        listening := true;
      case Threw(rendered) =>
        error := Some(rendered);
    }

    /** `stopListening`. */
    method StopListening()
      modifies this
      ensures State() == Step(old(State()), StopRequested)
    {
      if !hasRecognizer {
        return;
      }
      listening := false;
    }

    /** The recognizer's `onresult` handler. */
    method OnResult(results: seq<seq<Alternative>>)
      modifies this
      ensures State() == Step(old(State()), ResultsArrived(results))
    {
      if !hasRecognizer {
        return;
      }
      var text := "";
      var i := 0;
      while i < |results|
        invariant 0 <= i <= |results|
        invariant EveryResultHasAlternative(results[..i])
        invariant text == Joined(results[..i])
      {
        if |results[i]| == 0 {
          // `results[i][0]` is undefined: reading its transcript throws and ends the handler.
          assert !EveryResultHasAlternative(results);
          return;
        }
        assert results[..i + 1][..i] == results[..i];
        text := text + results[i][0].transcript;
        i := i + 1;
      }
      assert results[..i] == results;
      transcript := text;
    }

    /** The recognizer's `onerror` handler. */
    method OnError(value: ErrorValue)
      modifies this
      ensures State() == Step(old(State()), ErrorRaised(value))
    {
      if !hasRecognizer {
        return;
      }
      error := Some(ErrorText(value));
    }
  }
}
