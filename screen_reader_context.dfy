/**
 * The application-wide read-aloud provider: the persisted `enabled` flag
 * and the document-wide hover and focus handlers that speak an element's
 * trimmed text through the provider's own speech-output hook.
 */
module ScreenReaderContext {
  import opened Wrappers
  import opened Strings
  import opened TextToSpeech

  /** The local-storage key the flag is kept under. */
  const StorageKey := "screenReaderEnabled"

  /** What local storage holds under the key: nothing, a string, or storage that throws on access. */
  datatype Stored = Missing | Value(text: string) | Unavailable

  /** The initial flag: `getItem(key) !== 'false'`, and `true` when storage throws. */
  function ParseEnabled(stored: Stored): (enabled: bool)
    ensures !enabled <==> stored == Value("false")
  {
    match stored
    case Missing => true
    case Value(text) => text != "false"
    case Unavailable => true
  }

  /** `String(enabled)`. */
  function Serialise(enabled: bool): (text: string)
    ensures text in {"true", "false"}
  {
    if enabled then "true" else "false"
  }

  /** Parsing what was stored gives back the flag. */
  lemma EnabledRoundTrip(enabled: bool)
    ensures ParseEnabled(Value(Serialise(enabled))) == enabled
  {
  }

  /** Storage after the persist effect: the serialised flag, unless storage throws (the failure is swallowed). */
  function Persisted(stored: Stored, enabled: bool): (t: Stored)
    ensures t.Unavailable? <==> stored.Unavailable?
    ensures t.Value? ==> t.text in {"true", "false"}
    ensures !stored.Unavailable? ==> t.Value?
  {
    if stored.Unavailable? then stored else Value(Serialise(enabled))
  }

  /** A reload after the flag was persisted restores it; without storage it comes back enabled. */
  lemma ReloadRestoresFlag(stored: Stored, enabled: bool)
    ensures ParseEnabled(Persisted(stored, enabled)) == (enabled || stored.Unavailable?)
  {
  }

  /**
   * What a hover or focus on an element makes the provider say: nothing while
   * disabled (no listener is installed) or when the element's `innerText` is
   * absent or only whitespace; otherwise that text, trimmed.
   */
  function Announcement(enabled: bool, innerText: Option<string>): (r: Option<string>)
    ensures r.Some? <==> enabled && innerText.Some? && HasVisibleChar(innerText.value)
    ensures r.Some? ==> r.value == Trim(innerText.value) && r.value != ""
    ensures r.Some? ==> !IsJsWhitespace(r.value[0]) && !IsJsWhitespace(r.value[|r.value| - 1])
  {
    if enabled && innerText.Some? then
      var trimmed := Trim(innerText.value);
      TrimEmptyIff(innerText.value);
      if innerText.value != "" && trimmed != "" then Some(trimmed) else None
    else
      None
  }

  /** The synthesizer calls one hover or focus event leads to. */
  function ReactionCalls(hasSynth: bool, enabled: bool, innerText: Option<string>, voices: seq<Voice>): (c: seq<SynthCall>)
    ensures c != [] <==> hasSynth && Announcement(enabled, innerText).Some?
    ensures c != [] ==> c == [CancelAll, Enqueue(Utterance(Trim(innerText.value), None, None, None, None))]
  {
    match Announcement(enabled, innerText)
    case None => []
    case Some(text) =>
      DefaultUtterance(text, voices);
      SpeakCalls(hasSynth, text, NoOptions, voices)
  }

  /** `speak(text)` without options sets no rate, pitch, language or voice. */
  lemma DefaultUtterance(text: string, voices: seq<Voice>)
    ensures BuildUtterance(text, NoOptions, voices) == Utterance(text, None, None, None, None)
  {
  }

  /**
   * After a hover or focus that announces something, exactly one utterance
   * is queued: the trimmed text with every option at its default. Any other
   * event leaves the queue as it was.
   */
  lemma ReactionQueuesTrimmedText(calls: seq<SynthCall>, hasSynth: bool, enabled: bool, innerText: Option<string>, voices: seq<Voice>)
    ensures hasSynth && Announcement(enabled, innerText).Some? ==>
      Pending(calls + ReactionCalls(hasSynth, enabled, innerText, voices)) ==
        [Utterance(Trim(innerText.value), None, None, None, None)]
    ensures Announcement(enabled, innerText).None? ==>
      calls + ReactionCalls(hasSynth, enabled, innerText, voices) == calls
  {
    match Announcement(enabled, innerText)
    case None =>
      assert calls + [] == calls;
    case Some(text) =>
      SpeakSupersedes(calls, hasSynth, text, NoOptions, voices);
      DefaultUtterance(text, voices);
  }

  /** The provider component's state, with the speech-output hook it owns. */
  class Provider {
    var enabled: bool
    /** What local storage holds under `StorageKey`. */
    var storage: Stored
    const speech: SpeechOutput

    ghost predicate Valid()
      reads this, speech
    {
      speech.Valid()
    }

    /** Mounting: read the flag, then the persist effect writes it back. */
    constructor (stored: Stored, hasSynth: bool)
      ensures Valid() && fresh(speech)
      ensures enabled == ParseEnabled(stored)
      ensures storage == Persisted(stored, enabled)
      ensures speech.hasSynth == hasSynth && !speech.speaking && speech.calls == []
    {
      enabled := ParseEnabled(stored);
      storage := Persisted(stored, ParseEnabled(stored));
      speech := new SpeechOutput(hasSynth);
    }

    /** `setEnabled(b)` and the persist effect. Disabling removes the listeners and does not cancel speech. */
    method SetEnabled(b: bool)
      requires Valid()
      modifies this
      ensures Valid()
      ensures enabled == b && storage == Persisted(old(storage), b)
      ensures speech.calls == old(speech.calls) && speech.speaking == old(speech.speaking)
    {
      enabled := b;
      storage := Persisted(storage, b);
    }

    /** The document-wide `mouseover` listener, present only while enabled. */
    method MouseOver(innerText: Option<string>, voices: seq<Voice>)
      requires Valid()
      modifies speech
      ensures Valid()
      ensures speech.calls == old(speech.calls) + ReactionCalls(speech.hasSynth, enabled, innerText, voices)
      ensures speech.speaking == old(speech.speaking)
    {
      Announce(innerText, voices);
    }

    /** The document-wide `focusin` listener: the same rule as `mouseover`. */
    method FocusIn(innerText: Option<string>, voices: seq<Voice>)
      requires Valid()
      modifies speech
      ensures Valid()
      ensures speech.calls == old(speech.calls) + ReactionCalls(speech.hasSynth, enabled, innerText, voices)
      ensures speech.speaking == old(speech.speaking)
    {
      Announce(innerText, voices);
    }

    /** The body both listeners share. */
    method Announce(innerText: Option<string>, voices: seq<Voice>)
      requires Valid()
      modifies speech
      ensures Valid()
      ensures speech.calls == old(speech.calls) + ReactionCalls(speech.hasSynth, enabled, innerText, voices)
      ensures speech.speaking == old(speech.speaking)
    {
      match Announcement(enabled, innerText)
      case None =>
        assert old(speech.calls) + [] == old(speech.calls);
      case Some(text) =>
        speech.Speak(text, NoOptions, voices);
    }
  }
}
