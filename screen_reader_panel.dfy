/**
 * The read-aloud demo panel: an `enabled` checkbox that starts checked and
 * is not persisted, hover and focus handlers on the demo region that speak
 * an element's text as it is, and a Stop button that cancels speech.
 */
module ScreenReaderPanel {
  import opened Wrappers
  import opened Strings
  import opened TextToSpeech
  import ScreenReaderContext

  /**
   * What a hover or focus inside the demo region makes the panel say: nothing
   * while disabled or when `innerText` is absent or empty; otherwise the text
   * untrimmed, whitespace-only text included.
   */
  function PanelAnnouncement(enabled: bool, innerText: Option<string>): (r: Option<string>)
    ensures r.Some? <==> enabled && innerText.Some? && innerText.value != ""
    ensures r.Some? ==> r.value == innerText.value
  {
    if enabled && innerText.Some? && innerText.value != "" then innerText else None
  }

  /** The synthesizer calls one hover or focus event in the region leads to. */
  function PanelReactionCalls(hasSynth: bool, enabled: bool, innerText: Option<string>, voices: seq<Voice>): (c: seq<SynthCall>)
    ensures c != [] <==> hasSynth && enabled && innerText.Some? && innerText.value != ""
    ensures c != [] ==> c == [CancelAll, Enqueue(Utterance(innerText.value, None, None, None, None))]
  {
    match PanelAnnouncement(enabled, innerText)
    case None => []
    case Some(text) =>
      ScreenReaderContext.DefaultUtterance(text, voices);
      SpeakCalls(hasSynth, text, NoOptions, voices)
  }

  /**
   * The panel and the provider differ exactly on whitespace: the provider
   * trims and stays silent on blank text, the panel speaks the text as it is.
   */
  lemma PanelDoesNotTrim(text: string)
    requires text != ""
    ensures PanelAnnouncement(true, Some(text)) == Some(text)
    ensures !HasVisibleChar(text) ==> ScreenReaderContext.Announcement(true, Some(text)).None?
    ensures HasVisibleChar(text) ==> ScreenReaderContext.Announcement(true, Some(text)) == Some(Trim(text))
    ensures PanelAnnouncement(true, Some(" ")) == Some(" ")
    ensures ScreenReaderContext.Announcement(true, Some(" ")).None?
  {
    assert !HasVisibleChar(" ") by {
      assert IsJsWhitespace(" "[0]);
    }
  }

  /** The panel's state, with the speech-output hook it owns. */
  class Panel {
    var enabled: bool
    const speech: SpeechOutput

    ghost predicate Valid()
      reads this, speech
    {
      speech.Valid()
    }

    constructor (hasSynth: bool)
      ensures Valid() && fresh(speech)
      ensures enabled
      ensures speech.hasSynth == hasSynth && !speech.speaking && speech.calls == []
    {
      enabled := true;
      speech := new SpeechOutput(hasSynth);
    }

    /** The checkbox's `onChange`: sets `enabled` and leaves speech in flight alone. */
    method Toggle(checked: bool)
      requires Valid()
      modifies this
      ensures Valid()
      ensures enabled == checked
      ensures speech.calls == old(speech.calls) && speech.speaking == old(speech.speaking)
    {
      enabled := checked;
    }

    /** The Stop button is enabled only while speaking. */
    function StopButtonEnabled(): (b: bool)
      reads this, speech
      ensures b <==> speech.speaking
    {
      speech.speaking
    }

    /** A click on the Stop button; a disabled button receives no click. */
    method ClickStop()
      requires Valid()
      modifies speech
      ensures Valid()
      ensures old(speech.speaking) ==> speech.calls == old(speech.calls) + (if speech.hasSynth then [CancelAll] else [])
      ensures old(speech.speaking) && speech.hasSynth ==> !speech.speaking
      ensures !old(speech.speaking) ==> speech.calls == old(speech.calls) && !speech.speaking
      ensures !speech.hasSynth ==> speech.speaking == old(speech.speaking) && speech.calls == old(speech.calls)
    {
      if StopButtonEnabled() {
        speech.Cancel();
      }
    }

    /** The region's `mouseover` handler. */
    method MouseOver(innerText: Option<string>, voices: seq<Voice>)
      requires Valid()
      modifies speech
      ensures Valid()
      ensures speech.calls == old(speech.calls) + PanelReactionCalls(speech.hasSynth, enabled, innerText, voices)
      ensures speech.speaking == old(speech.speaking)
    {
      Announce(innerText, voices);
    }

    /** The region's `focusin` handler: the same rule as `mouseover`. */
    method FocusIn(innerText: Option<string>, voices: seq<Voice>)
      requires Valid()
      modifies speech
      ensures Valid()
      ensures speech.calls == old(speech.calls) + PanelReactionCalls(speech.hasSynth, enabled, innerText, voices)
      ensures speech.speaking == old(speech.speaking)
    {
      Announce(innerText, voices);
    }

    /** The body both handlers share. */
    method Announce(innerText: Option<string>, voices: seq<Voice>)
      requires Valid()
      modifies speech
      ensures Valid()
      ensures speech.calls == old(speech.calls) + PanelReactionCalls(speech.hasSynth, enabled, innerText, voices)
      ensures speech.speaking == old(speech.speaking)
    {
      match PanelAnnouncement(enabled, innerText)
      case None =>
        assert old(speech.calls) + [] == old(speech.calls);
      case Some(text) =>
        speech.Speak(text, NoOptions, voices);
    }
  }
}
