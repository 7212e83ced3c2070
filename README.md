# Accessibility demo: speech rules in Dafny

This project models the small sequential rules of a browser accessibility demo and proves properties about them. The demo has speech-to-text, text-to-speech and a hover/focus read-aloud overlay, with a Flask backend. The modelled parts are:

- **Speech output** (`text_to_speech.dfy`, hook `useTextToSpeech`):
  - building an utterance from a text and its options;
  - the five-rule voice fallback chain;
  - the one-slot synthesizer queue (cancel, then speak);
  - the `speaking` flag.
- **Language selector** (`language_selector.dfy`):
  - the five-entry allow-list;
  - the loop that merges the server's code-to-label map onto it;
  - the two option blocks it renders.
- **Backend** (`backend.dfy`, `backend/app.py`):
  - `allowed_file`;
  - the upload endpoint's early returns, in order;
  - the language each endpoint passes on;
  - the mapping from recognizer outcome to HTTP status and body;
  - the supported-languages table.
  `language_agreement.dfy` proves that this table and the frontend allow-list agree.
- **Dictation session** (`speech_to_text.dfy`, hook `useSpeechToText`):
  - `listening`, `transcript` and `error`, driven by start, stop, result and error events.
- **Read-aloud provider** (`screen_reader_context.dfy`):
  - the persisted `enabled` flag;
  - the trim-and-non-empty guard of its hover and focus listeners.
- **Read-aloud panel** (`screen_reader_panel.dfy`):
  - the unpersisted `enabled` checkbox;
  - the untrimmed guard;
  - the Stop button.

`strings.dfy` holds the string operations both languages use:
- ASCII lower-casing;
- `startsWith` and `includes`;
- `split('-')[0]` and `rsplit('.', 1)[1]`;
- JavaScript `trim` over the ECMAScript whitespace set.

`wrappers.dfy` holds `Option`.

Platform services are not called; they become inputs.
- The voice list, whether a synthesizer or recognizer exists, how `recognition.start()` returns, and each recognition outcome are parameters. The backend's recognizer is a function `string -> Outcome` from language to outcome.
- The synthesizer is recorded as the sequence of calls made on it: `CancelAll` and `Enqueue(utterance)`. `Pending` gives what is queued since the last cancel.
- Local storage is a `Stored` value that may be `Unavailable`, meaning every access throws.
- Python's iteration order over the extension set appears in an error message. It is a parameter `order`, which must list the four extensions once each.

Each stateful hook or component is a class. Each method's `ensures` gives the whole new state. For the dictation hook, the new state is `State() == Step(old(State()), event)`, and the lemmas about `Step` and `Run` state what the hook promises. For speech output, the method appends exactly `SpeakCalls(...)` to `calls`, and the class keeps the invariant that at most one utterance is pending.

Three behaviours of the code are easy to misread:
- `onresult` joins `results[i][0].transcript` for every result with no separator and no trimming. The transcript is replaced, not appended to (`JoinedAppend`, `ResultsReplaceTranscript`).
- The dictation hook has no `onend` handler and never restarts, so `listening` changes only on start and stop requests (`ListeningChangesOnlyOnRequests`).
- The provider trims an element's text and stays silent on whitespace-only text. The demo panel speaks the text as it is (`PanelDoesNotTrim`).

## Model

| member | source | states |
|---|---|---|
| TextToSpeech.CopyIfTruthy | frontend/src/hooks/useTextToSpeech.js:13-14 | a number option is set on the utterance exactly when it is truthy (present and non-zero), and then unchanged |
| TextToSpeech.IsTruthy | frontend/src/hooks/useTextToSpeech.js:13-15 | definition: a number option is truthy when it is present and not zero |
| TextToSpeech.FindIndex | frontend/src/hooks/useTextToSpeech.js:20 | `find` by position: the result is the first index whose element satisfies the test, and None only when no element does |
| TextToSpeech.MatchesIdentifier | frontend/src/hooks/useTextToSpeech.js:20 | definition: the identifier rule, the voice's URI or its name equals the requested identifier |
| TextToSpeech.HasLang | frontend/src/hooks/useTextToSpeech.js:24 | definition: the exact rule, the voice's language tag equals the requested one |
| TextToSpeech.LangPrefix | frontend/src/hooks/useTextToSpeech.js:33 | definition: the prefix is the text before the first `-` of the requested language, not lower-cased |
| TextToSpeech.HasIndiaRegion | frontend/src/hooks/useTextToSpeech.js:36 | definition: the region rule, the voice has a non-empty tag whose lower-cased form is the prefix followed by `-in` |
| TextToSpeech.MentionsKeyword | frontend/src/hooks/useTextToSpeech.js:42-45 | definition: the keyword rule, some keyword, lower-cased, occurs in the lower-cased name or tag of the voice |
| TextToSpeech.HasLangPrefix | frontend/src/hooks/useTextToSpeech.js:50 | definition: the prefix rule, the voice has a non-empty tag that starts with the prefix, case-sensitively |
| TextToSpeech.IndianKeywords | frontend/src/hooks/useTextToSpeech.js:26-31 | the keyword table has entries exactly for hi, kn, ta and te: Hindi, Kannada, Tamil or Telugu, then India and Indian; the lookup throws exactly for the names of the functions a plain object inherits that declare at least one parameter (`constructor`, `hasOwnProperty`, …); `toString`, `valueOf` and `toLocaleString` have length 0, so the keyword rule is skipped for them |
| TextToSpeech.LanguageFallback | frontend/src/hooks/useTextToSpeech.js:22-54 | the language chain returns a position inside the voice list, and the first exact tag match whenever there is one |
| TextToSpeech.ChooseVoice | frontend/src/hooks/useTextToSpeech.js:18-54 | a chosen voice is a position inside the voice list; with an identifier it is the first URI or name match; otherwise, with a language, it is the first hit of the first rule (exact tag, `<prefix>-in`, keywords, prefix) that has a hit; with neither, no voice is chosen |
| TextToSpeech.BuildUtterance | frontend/src/hooks/useTextToSpeech.js:12-54 | the utterance carries the text; rate, pitch and lang are copied unchanged exactly when truthy; the voice set is exactly the one `ChooseVoice` picks, an element of the voice list, and none is set exactly when no rule matched |
| TextToSpeech.FirstOfRules | frontend/src/hooks/useTextToSpeech.js:33-50 | reference reading of the chain: the result is the first hit of the first rule some voice satisfies, all earlier rules having no hit; None only when no rule has a hit |
| TextToSpeech.FirstOfRulesStep | frontend/src/hooks/useTextToSpeech.js:34-50 | each rule is consulted only when the one before found nothing |
| TextToSpeech.LanguageChainOrder | frontend/src/hooks/useTextToSpeech.js:22-54 | the language chain equals the reference reading over exact tag, `<prefix>-in`, keywords (only hi/kn/ta/te), then `startsWith(prefix)`; an inherited table key ends the chain after the region rule |
| TextToSpeech.IdentifierDecides | frontend/src/hooks/useTextToSpeech.js:19-21 | with an identifier the voice is the first whose URI or name equals it, the language is ignored, and no match means no voice |
| TextToSpeech.ExactLanguageWins | frontend/src/hooks/useTextToSpeech.js:22-24 | without an identifier, the first voice whose tag equals the requested language exactly is chosen ahead of every later rule |
| TextToSpeech.UpperPrefixFindsNothing | frontend/src/hooks/useTextToSpeech.js:33-50 | the prefix is not lower-cased and `startsWith` is case-sensitive: `HI-XX` finds no `hi-IN` voice |
| TextToSpeech.LowerPrefixFindsRegion | frontend/src/hooks/useTextToSpeech.js:33-37 | `hi-XX` finds the `hi-IN` voice by the region rule |
| TextToSpeech.RegionRuleIgnoresVoiceCase | frontend/src/hooks/useTextToSpeech.js:36 | the region rule lower-cases the voice's tag, so `HI-IN` matches prefix `hi` |
| TextToSpeech.InheritedNameSkipsPrefixRule | frontend/src/hooks/useTextToSpeech.js:40-53 | a prefix naming an inherited function of the keyword object that declares at least one parameter (`constructor`, `hasOwnProperty`, …) has a truthy `length` and makes `kws.some` throw; the inner catch swallows it and the prefix rule never runs |
| TextToSpeech.RateAndPitchUnclamped | frontend/src/hooks/useTextToSpeech.js:13-14 | non-zero rate and pitch (0.5, 2.0 included) are copied without clamping; a zero rate is not copied |
| TextToSpeech.SpeakCalls | frontend/src/hooks/useTextToSpeech.js:9-62 | `speak` makes no call without a synthesizer or text; otherwise exactly a cancel, then one enqueue of an utterance of the text |
| TextToSpeech.Pending | frontend/src/hooks/useTextToSpeech.js:11-62 | what is queued since the last cancel: never more utterances than calls, and each was enqueued |
| TextToSpeech.SpeakSupersedes | frontend/src/hooks/useTextToSpeech.js:9-62 | an effective `speak` leaves exactly its own utterance queued, whatever was queued before; without a synthesizer or text it changes nothing |
| TextToSpeech.CancelClears | frontend/src/hooks/useTextToSpeech.js:65-69 | after a cancel nothing is queued |
| TextToSpeech.SpeechOutput.constructor | frontend/src/hooks/useTextToSpeech.js:4-5 | the hook starts not speaking, with no calls made |
| TextToSpeech.SpeechOutput.Speak | frontend/src/hooks/useTextToSpeech.js:8-63 | `speak` appends exactly cancel-then-enqueue (or nothing when there is no synthesizer or no text), leaves `speaking` alone, keeps at most one utterance pending |
| TextToSpeech.SpeechOutput.Cancel | frontend/src/hooks/useTextToSpeech.js:65-69 | `cancel` issues one cancel and clears `speaking` when a synthesizer exists, and otherwise does nothing; while idle `speaking` stays false |
| TextToSpeech.SpeechOutput.Started | frontend/src/hooks/useTextToSpeech.js:60 | the start handler sets `speaking` and makes no call |
| TextToSpeech.SpeechOutput.Ended | frontend/src/hooks/useTextToSpeech.js:61 | the end handler clears `speaking` and makes no call |
| LanguageSelector.Codes | frontend/src/components/LanguageSelector.jsx:23 | `Object.keys` of an entry list: its codes, position by position |
| LanguageSelector.AllowedCodesDistinct | frontend/src/components/LanguageSelector.jsx:8-14 | the allow-list is en-US, kn-IN, hi-IN, ta-IN, te-IN, in that order, with no code twice |
| LanguageSelector.Merged | frontend/src/components/LanguageSelector.jsx:22-26 | the merged list has one entry per allowed code, in allow-list order, each with a non-empty label |
| LanguageSelector.CaptionFor | frontend/src/components/LanguageSelector.jsx:24-25 | definition: the server's label for a code when it is truthy, otherwise the built-in label |
| LanguageSelector.MergeWithAllowList | frontend/src/components/LanguageSelector.jsx:22-26 | the `forEach` loop builds exactly the merged list |
| LanguageSelector.MergedShape | frontend/src/components/LanguageSelector.jsx:21-26 | after a merge the codes are the five allowed codes in order; server-only codes are dropped; each caption is the server's when truthy, else the built-in one; an empty server map gives the allow-list itself |
| LanguageSelector.RenderEntries | frontend/src/components/LanguageSelector.jsx:42-47 | one option per entry, in order, with value the code and text `<label> (<code>)` |
| LanguageSelector.Options | frontend/src/components/LanguageSelector.jsx:40-48 | exactly one block renders: the built-in list while `langs` is empty, otherwise `langs` |
| LanguageSelector.FiveOptions | frontend/src/components/LanguageSelector.jsx:40-48 | before and after a fetch, exactly one block renders, giving exactly five options with the allowed codes in order and no value twice |
| LanguageSelector.UnknownValueAddsNoOption | frontend/src/components/LanguageSelector.jsx:35-48 | a selected value outside the allow-list, such as `fr-FR`, adds no option |
| LanguageSelector.Selector.constructor | frontend/src/components/LanguageSelector.jsx:5 | `langs` starts empty |
| LanguageSelector.Selector.Fetched | frontend/src/components/LanguageSelector.jsx:18-29 | a reply carrying `languages` replaces `langs` by the merge; a reply without that map changes nothing; `langs` stays empty or the five allowed codes. A failed request reaches the callback as a reply with an empty map, so it shows the built-in list |
| LanguageSelector.Selector.Rendered | frontend/src/components/LanguageSelector.jsx:33-50 | the rendered select always has five options, with the allowed codes in order |
| Backend.AllowedFile | backend/app.py:23-24 | an accepted name has an extension of three or four characters after its last `.` |
| Backend.Join | backend/app.py:47 | definition: `", ".join` of the extensions, which goes into the 400 message for a disallowed type |
| Backend.AllowedFileIff | backend/app.py:12-24 | `allowed_file` holds exactly when the name has a `.` with no `.` after it, and the text after that `.`, lower-cased, is wav, mp3, flac or ogg |
| Backend.UpperCaseExtensionPasses | backend/app.py:24 | `a.WAV` passes |
| Backend.MissingExtensionFails | backend/app.py:24 | `wav` and `a.` fail |
| Backend.LastExtensionCounts | backend/app.py:24 | `x.wav.txt` fails: only the last extension counts |
| Backend.OutcomeResponse | backend/app.py:60-108 | a transcript gives 200 with the text, confidence 0.95 and engine `google`; unintelligible audio gives 400; a request error or any other exception gives 500; every non-200 body is an error |
| Backend.PlanUpload | backend/app.py:38-57 | the upload goes on to recognition exactly when the part is present, its name is non-empty and allowed; every early return is a 400 error; the language is the form field, `en-US` when absent |
| Backend.TranscribeUpload | backend/app.py:38-76 | the file is saved exactly when the checks pass; a rejection is a 400; every status is 200, 400 or 500 |
| Backend.UploadChecksInOrder | backend/app.py:39-69 | a missing part, then an empty name, then a disallowed extension: each answers 400 before the file is saved, whatever the recognizer does; otherwise the file is saved and recognized in the form's language, `en-US` when absent |
| Backend.UploadKeepsEmptyLanguage | backend/app.py:57 | the upload language is the form field as given, an empty one included, and `en-US` only when it is absent |
| Backend.StreamLanguage | backend/app.py:91 | the stream language is the non-empty query parameter, else the non-empty header, else `en-US`; it is never empty |
| Backend.PlanStream | backend/app.py:85-91 | the stream is rejected exactly when its body is empty, with 400 "No audio data provided"; otherwise it is recognized in the non-empty fallback language |
| Backend.TranscribeStream | backend/app.py:85-108 | every status is 200, 400 or 500; an empty body gives 400; a 200 carries a transcript |
| Backend.StreamRejectsEmptyBody | backend/app.py:86-96 | an empty body is answered with 400 without consulting the recognizer; any other body is recognized in a non-empty language |
| Backend.EndpointsAgree | backend/app.py:58-105 | once past their checks, both endpoints answer the same outcome in the same language identically |
| Backend.SupportedLanguages | backend/app.py:110-120 | the endpoint answers 200 with five languages, no code twice |
| LanguageAgreement.TableAsMap | backend/app.py:113-120 | the JSON object decoded as a map holds every code with its label, and no other code |
| LanguageAgreement.TableMatchesAllowList | backend/app.py:110-120 | the endpoint's body lists the frontend allow-list's codes and labels, entry by entry |
| LanguageAgreement.BackendTableIsAllowList | backend/app.py:110-120 | the endpoint's codes are distinct, and merging its reply onto the frontend allow-list gives the allow-list back, labels included |
| SpeechToText.Mounted | frontend/src/hooks/useSpeechToText.js:4-16 | after mounting nothing is listening and the transcript is empty; without a recognition API the error is the fixed "not supported" message and no recognizer exists |
| SpeechToText.JoinedAppend | frontend/src/hooks/useSpeechToText.js:20-23 | the transcript of a result list is plain in-order concatenation of the first alternatives: no separator, no trimming |
| SpeechToText.Joined | frontend/src/hooks/useSpeechToText.js:20-23 | definition: the transcript is the first alternatives of the results concatenated in order |
| SpeechToText.ErrorText | frontend/src/hooks/useSpeechToText.js:26 | the stored error is the event's message when non-empty, else `String(e)` |
| SpeechToText.Step | frontend/src/hooks/useSpeechToText.js:19-47 | one event never changes whether a recognizer exists; without one nothing changes; only an error event or a throwing start changes the error |
| SpeechToText.Run | frontend/src/hooks/useSpeechToText.js:19-47 | no sequence of events changes whether a recognizer exists |
| SpeechToText.UnsupportedNeverChanges | frontend/src/hooks/useSpeechToText.js:12-45 | without a recognition API no sequence of events changes the session |
| SpeechToText.ListeningChangesOnlyOnRequests | frontend/src/hooks/useSpeechToText.js:19-47 | `listening` changes only on start and stop requests: there is no end handler |
| SpeechToText.TranscriptChangesOnlyOnResults | frontend/src/hooks/useSpeechToText.js:24-47 | `transcript` changes only on result events |
| SpeechToText.ResultsReplaceTranscript | frontend/src/hooks/useSpeechToText.js:19-25 | a result event replaces the transcript by the joined results, independently of the earlier state |
| SpeechToText.ErrorKeepsTranscript | frontend/src/hooks/useSpeechToText.js:26 | an error event sets only the error |
| SpeechToText.ThrowingStartKeepsListening | frontend/src/hooks/useSpeechToText.js:34-42 | a throwing `start()` records `String(e)` and leaves `listening` unchanged; a normal one sets it |
| SpeechToText.StopIdempotent | frontend/src/hooks/useSpeechToText.js:44-48 | stopping clears `listening`, and stopping twice is stopping once |
| SpeechToText.DictationScenario | frontend/src/hooks/useSpeechToText.js:19-48 | start, an interim `hel`, a final `hello world`, stop: the transcript is exactly `hello world`, not listening, no error |
| SpeechToText.Dictation.constructor | frontend/src/hooks/useSpeechToText.js:4-16 | the hook's state after its mount effect |
| SpeechToText.Dictation.StartListening | frontend/src/hooks/useSpeechToText.js:34-42 | the new state is one `Step` on a start request |
| SpeechToText.Dictation.StopListening | frontend/src/hooks/useSpeechToText.js:44-48 | the new state is one `Step` on a stop request |
| SpeechToText.Dictation.OnResult | frontend/src/hooks/useSpeechToText.js:19-25 | the index loop computes the joined transcript; a result with no alternative throws and leaves the state unchanged |
| SpeechToText.Dictation.OnError | frontend/src/hooks/useSpeechToText.js:26 | the new state is one `Step` on an error event |
| ScreenReaderContext.ParseEnabled | frontend/src/context/ScreenReaderContext.jsx:8-10 | the initial flag is false exactly when storage holds the string `false`; a missing key, any other string or a throwing storage gives true |
| ScreenReaderContext.Serialise | frontend/src/context/ScreenReaderContext.jsx:14 | the flag is stored as `true` or `false` |
| ScreenReaderContext.EnabledRoundTrip | frontend/src/context/ScreenReaderContext.jsx:9-14 | parsing the stored flag gives it back |
| ScreenReaderContext.Persisted | frontend/src/context/ScreenReaderContext.jsx:13-15 | after the persist effect storage holds a value, `true` or `false`, whenever it does not throw; storage that throws still does |
| ScreenReaderContext.ReloadRestoresFlag | frontend/src/context/ScreenReaderContext.jsx:8-15 | a reload after persisting restores the flag, and gives true when storage throws |
| ScreenReaderContext.Announcement | frontend/src/context/ScreenReaderContext.jsx:19-33 | there is something to say exactly when enabled and the text has a non-whitespace character; it is the trimmed text, which is non-empty and has no whitespace at either end |
| ScreenReaderContext.ReactionCalls | frontend/src/context/ScreenReaderContext.jsx:21-33 | a hover or focus makes calls exactly when a synthesizer exists and there is something to announce, and then a cancel and one utterance of the trimmed text with default options |
| ScreenReaderContext.ReactionQueuesTrimmedText | frontend/src/context/ScreenReaderContext.jsx:21-33 | a hover or focus that announces something leaves exactly one utterance queued, of the trimmed text with default options; any other leaves the calls as they were |
| ScreenReaderContext.DefaultUtterance | frontend/src/context/ScreenReaderContext.jsx:24-31 | `speak(text)` without options sets no rate, pitch, language or voice |
| ScreenReaderContext.Provider.constructor | frontend/src/context/ScreenReaderContext.jsx:7-15 | mounting reads the flag, writes it back, and starts a fresh idle speech output |
| ScreenReaderContext.Provider.SetEnabled | frontend/src/context/ScreenReaderContext.jsx:13-41 | setting the flag persists it and makes no synthesizer call: disabling does not cancel speech |
| ScreenReaderContext.Provider.MouseOver | frontend/src/context/ScreenReaderContext.jsx:21-26 | the calls made are exactly those of the announcement rule |
| ScreenReaderContext.Provider.FocusIn | frontend/src/context/ScreenReaderContext.jsx:28-33 | focus obeys the identical rule |
| ScreenReaderContext.Provider.Announce | frontend/src/context/ScreenReaderContext.jsx:23-24 | the body both handlers share: the calls appended are exactly those of the announcement rule, and `speaking` is unchanged |
| ScreenReaderPanel.PanelAnnouncement | frontend/src/components/ScreenReaderPanel.jsx:13-23 | there is something to say exactly when enabled and the text is non-empty; it is the text untrimmed |
| ScreenReaderPanel.PanelReactionCalls | frontend/src/components/ScreenReaderPanel.jsx:13-23 | a hover or focus makes calls exactly when a synthesizer exists, the panel is enabled and the text is non-empty, and then a cancel and one utterance of the untrimmed text |
| ScreenReaderPanel.PanelDoesNotTrim | frontend/src/components/ScreenReaderPanel.jsx:16-22 | the panel speaks whitespace-only text such as a single space, where the provider stays silent; on other text the provider says the trimmed text |
| ScreenReaderPanel.Panel.constructor | frontend/src/components/ScreenReaderPanel.jsx:5-6 | `enabled` starts true, read from nowhere |
| ScreenReaderPanel.Panel.Toggle | frontend/src/components/ScreenReaderPanel.jsx:41 | the checkbox sets `enabled` only and makes no synthesizer call |
| ScreenReaderPanel.Panel.StopButtonEnabled | frontend/src/components/ScreenReaderPanel.jsx:46-56 | the Stop button is enabled exactly while speaking |
| ScreenReaderPanel.Panel.ClickStop | frontend/src/components/ScreenReaderPanel.jsx:52-53 | a click while speaking cancels; while idle, or without a synthesizer, nothing changes |
| ScreenReaderPanel.Panel.MouseOver | frontend/src/components/ScreenReaderPanel.jsx:13-17 | the calls made are exactly those of the panel's rule: none while disabled |
| ScreenReaderPanel.Panel.FocusIn | frontend/src/components/ScreenReaderPanel.jsx:19-23 | focus obeys the identical rule |
| ScreenReaderPanel.Panel.Announce | frontend/src/components/ScreenReaderPanel.jsx:14-16 | the body both handlers share: the calls appended are exactly those of the panel's rule, and `speaking` is unchanged |
| Strings.Lower | backend/app.py:24 | lower-casing keeps the length and lower-cases each ASCII letter |
| Strings.StartsWith | frontend/src/hooks/useTextToSpeech.js:50 | `startsWith` holds exactly when the first characters equal the prefix, case-sensitively |
| Strings.Contains | frontend/src/hooks/useTextToSpeech.js:45 | `includes` holds exactly when the needle occurs at some position |
| Strings.BeforeFirst | frontend/src/hooks/useTextToSpeech.js:33 | `split('-')[0]` is the longest prefix without a `-` |
| Strings.AfterLast | backend/app.py:24 | `rsplit('.', 1)[1]` is the longest suffix without a `.` |
| Strings.TrimStart | frontend/src/context/ScreenReaderContext.jsx:23-24 | what remains is a suffix, the dropped characters are all whitespace, and it does not start with whitespace |
| Strings.TrimEnd | frontend/src/context/ScreenReaderContext.jsx:23-24 | what remains is a prefix, the dropped characters are all whitespace, and it does not end with whitespace |
| Strings.Trim | frontend/src/context/ScreenReaderContext.jsx:23-24 | `trim()` is the slice of its input that starts where the leading whitespace ends; everything before and after it is whitespace, and it has no whitespace at either end |
| Strings.TrimEmptyIff | frontend/src/context/ScreenReaderContext.jsx:23-30 | `trim()` is empty exactly when the text is all whitespace |
| Strings.TrimIdempotent | frontend/src/context/ScreenReaderContext.jsx:24-31 | trimming again changes nothing |

## Left out

- Platform speech recognition, speech synthesis and the Google recognizer are not modelled. Their behaviour is an input: the voice list, the start outcome, the result lists and the recognition outcome.
- The dictation hook's unmount cleanup (`r.stop()` inside a try) is not modelled. The recognizer settings `lang = 'en-US'` and `interimResults = true` are configuration of the platform object and are not modelled either.
- React scheduling is not modelled: effect ordering, re-registration of listeners when `speak` changes, and the selector's `mounted` guard are asynchronous concerns. Each handler runs with the state current at the event.
- The `currentUtterance` variable of the speech hook is written and never read. It is not modelled.
- The `voiceschanged` event and `getVoices()` returning a falsy value are not modelled. The voice list is a sequence given to `speak`.
- Lower: covers ASCII letters only. Python `lower()` and JavaScript `toLowerCase()` also fold non-ASCII letters. For the extension test this makes no difference. The only non-ASCII letters whose lower case holds an ASCII letter are `İ` U+0130, which becomes `i` followed by the combining dot U+0307, and the Kelvin sign U+212A, which becomes `k`; neither result is part of `wav`, `mp3`, `flac` or `ogg`. The keyword rule is affected, since it lower-cases voice names, which need not be ASCII. A name spelled with the Kelvin sign, such as `Kannada` (whose first character is U+212A), matches `kannada` in JavaScript but not in the model.
- IsTruthy: a rate or pitch of `NaN` is falsy in JavaScript. Numbers are modelled as truthy when present and non-zero, with no NaN. Floating-point arithmetic on them is not modelled; they are only copied.
- Strings that are absent in JavaScript are modelled as `""`, which is just as falsy. Non-string server labels are not modelled: the server's map is `map<string, string>`.
- Each `SpeechOutput` keeps its own record of calls. The browser has one `speechSynthesis` queue, shared by every user of the speech hook: the provider, the screen-reader panel, the text-to-speech panel and the OCR panel. Interleaving between them is not modelled.
- Storage that throws on read but not on write is not modelled. `Unavailable` throws on both.
- The selector's `onChange` forwarding (`onChange?.(e.target.value)`) passes the event's value to the caller unchanged and is not modelled.
- A `recognition.stop()` that throws is not modelled. Nothing catches it, so the error would go to React.
- The upload endpoint's `secure_filename`, file save, audio read and file removal are I/O and are not modelled. A `Crashed` outcome is modelled as raised after the file is saved. The 50 MB limit handler, the 404/500 handlers, the health endpoint, and the Flask and CORS setup are framework glue.
- The stream endpoint's conversion of bytes to 16 kHz PCM is not modelled. The body is only tested for being empty.
- `frontend/src/lib/api.js` (the network client), `useOCR.js` (a foreign OCR library call), the language context and the pages and panels of the view layer are not part of this model.
