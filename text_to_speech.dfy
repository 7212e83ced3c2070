/**
 * The speech-output hook (`useTextToSpeech`): building one utterance from a
 * text and its options, choosing a synthesis voice through an ordered
 * fallback chain, and the `speaking` flag kept by the start/end handlers and
 * by `cancel`. The platform synthesizer is modelled by the calls made on it.
 */
module TextToSpeech {
  import opened Wrappers
  import opened Strings

  /** One entry of the platform's voice list; an absent `name` or `lang` is "". */
  datatype Voice = Voice(name: string, lang: string, voiceURI: string)

  /**
   * The options object given to `speak`. A string option that is absent is "",
   * which JavaScript treats as falsy just like `undefined`.
   */
  datatype SpeakOptions = SpeakOptions(rate: Option<real>, pitch: Option<real>, lang: string, voiceURI: string)

  /** `speak(text)` called without options. */
  const NoOptions := SpeakOptions(None, None, "", "")

  /** What is handed to the synthesizer. An unset field keeps the platform default. */
  datatype Utterance = Utterance(text: string, rate: Option<real>, pitch: Option<real>, lang: Option<string>, voice: Option<Voice>)

  /** A JavaScript number option is truthy when present and non-zero. */
  predicate IsTruthy(x: Option<real>) {
    x.Some? && x.value != 0.0
  }

  /** `if (opts.x) u.x = opts.x`: the option unchanged when truthy, otherwise unset. */
  function CopyIfTruthy(x: Option<real>): (r: Option<real>)
    ensures r.Some? <==> IsTruthy(x)
    ensures r.Some? ==> r == x
  {
    if IsTruthy(x) then x else None
  }

  /** `Array.prototype.find`, by position: the index of the first element that satisfies `p`. */
  function FindIndex<T>(s: seq<T>, p: T -> bool): (r: Option<nat>)
    ensures r.Some? ==> r.value < |s| && p(s[r.value]) && forall j :: 0 <= j < r.value ==> !p(s[j])
    ensures r.None? ==> forall j :: 0 <= j < |s| ==> !p(s[j])
  {
    if s == [] then None
    else if p(s[0]) then Some(0)
    else match FindIndex(s[1..], p)
      case None => None
      case Some(k) => Some(k + 1)
  }

  // The five tests of the voice chain, in the order the chain tries them.

  /** Rule 1: the voice's URI or its name equals the requested identifier. */
  function MatchesIdentifier(id: string): Voice -> bool {
    (v: Voice) => v.voiceURI == id || v.name == id
  }

  /** Rule 2: the voice's language tag equals the requested one exactly. */
  function HasLang(lang: string): Voice -> bool {
    (v: Voice) => v.lang == lang
  }

  /** Rule 3: the voice's lower-cased tag is `<prefix>-in`; the prefix itself is not lower-cased. */
  function HasIndiaRegion(prefix: string): Voice -> bool {
    (v: Voice) => v.lang != "" && Lower(v.lang) == prefix + "-in"
  }

  /** Rule 4: some keyword occurs, ignoring ASCII case, in the voice's name or tag. */
  function MentionsKeyword(keywords: seq<string>): Voice -> bool {
    (v: Voice) => exists k :: 0 <= k < |keywords| &&
                    (Contains(Lower(v.name), Lower(keywords[k])) || Contains(Lower(v.lang), Lower(keywords[k])))
  }

  /** Rule 5: the voice's tag starts with the prefix, case-sensitively. */
  function HasLangPrefix(prefix: string): Voice -> bool {
    (v: Voice) => v.lang != "" && StartsWith(v.lang, prefix)
  }

  /** What looking a prefix up in the keyword table produces. */
  datatype KeywordLookup =
    | Keywords(words: seq<string>)
    | NoKeywords
    /** The entry is a function inherited by every object; calling `.some` on it throws. */
    | LookupThrows

  /**
   * The names every JavaScript object inherits from `Object.prototype` whose
   * value is a function with at least one declared parameter: looked up in the
   * keyword table they give a truthy `length` and no `some` method.
   */
  const InheritedMethodNames: set<string> := {
    "constructor", "hasOwnProperty", "isPrototypeOf", "propertyIsEnumerable",
    "__defineGetter__", "__defineSetter__", "__lookupGetter__", "__lookupSetter__"
  }

  /** The keyword table for Hindi, Kannada, Tamil and Telugu, indexed by the language prefix. */
  function IndianKeywords(prefix: string): (r: KeywordLookup)
    ensures r.Keywords? <==> prefix in {"hi", "kn", "ta", "te"}
    ensures r.LookupThrows? <==> prefix in InheritedMethodNames
    ensures r.Keywords? ==> |r.words| == 3 && r.words[1..] == ["India", "Indian"]
    ensures r.Keywords? ==> r.words[0] == (if prefix == "hi" then "Hindi" else if prefix == "kn" then "Kannada"
                                           else if prefix == "ta" then "Tamil" else "Telugu")
  {
    if prefix == "hi" then Keywords(["Hindi", "India", "Indian"])
    else if prefix == "kn" then Keywords(["Kannada", "India", "Indian"])
    else if prefix == "ta" then Keywords(["Tamil", "India", "Indian"])
    else if prefix == "te" then Keywords(["Telugu", "India", "Indian"])
    else if prefix in InheritedMethodNames then LookupThrows
    else NoKeywords
  }

  /** The language part of a tag: the text before its first `-`. */
  function LangPrefix(lang: string): string {
    BeforeFirst(lang, '-')
  }

  /**
   * Rules 2 to 5 for a non-empty requested language, as the hook sequences them:
   * each is tried only when the earlier ones found nothing. When the keyword
   * lookup throws, the exception is caught and the last rule is skipped.
   */
  function LanguageFallback(voices: seq<Voice>, lang: string): (r: Option<nat>)
    ensures r.Some? ==> r.value < |voices|
    ensures FindIndex(voices, HasLang(lang)).Some? ==> r == FindIndex(voices, HasLang(lang))
  {
    var prefix := LangPrefix(lang);
    var exact := FindIndex(voices, HasLang(lang));
    if exact.Some? then exact
    else
      var region := FindIndex(voices, HasIndiaRegion(prefix));
      if region.Some? then region
      else match IndianKeywords(prefix)
        case LookupThrows => None
        case NoKeywords => FindIndex(voices, HasLangPrefix(prefix))
        case Keywords(words) =>
          var named := FindIndex(voices, MentionsKeyword(words));
          if named.Some? then named else FindIndex(voices, HasLangPrefix(prefix))
  }

  /**
   * The voice chosen for `opts`, as a position in the voice list: by identifier
   * when one is given (and then no language rule is tried), otherwise by the
   * language chain, otherwise none (the platform default voice).
   */
  function ChooseVoice(voices: seq<Voice>, opts: SpeakOptions): (r: Option<nat>)
    ensures r.Some? ==> r.value < |voices|
    ensures opts.voiceURI != "" ==> r == FindIndex(voices, MatchesIdentifier(opts.voiceURI))
    ensures opts.voiceURI == "" && opts.lang != "" ==> r == FirstOfRules(voices, LanguageRules(opts.lang))
    ensures opts.voiceURI == "" && opts.lang == "" ==> r.None?
  {
    if opts.voiceURI != "" then FindIndex(voices, MatchesIdentifier(opts.voiceURI))
    else if opts.lang != "" then
      LanguageChainOrder(voices, opts.lang);
      LanguageFallback(voices, opts.lang)
    else None
  }

  /** The utterance `speak(text, opts)` hands to the synthesizer. */
  function BuildUtterance(text: string, opts: SpeakOptions, voices: seq<Voice>): (u: Utterance)
    ensures u.text == text
    ensures u.rate.Some? <==> IsTruthy(opts.rate)
    ensures u.rate.Some? ==> u.rate == opts.rate
    ensures u.pitch.Some? <==> IsTruthy(opts.pitch)
    ensures u.pitch.Some? ==> u.pitch == opts.pitch
    ensures u.lang.Some? <==> opts.lang != ""
    ensures u.lang.Some? ==> u.lang.value == opts.lang
    ensures u.voice.Some? ==> u.voice.value in voices
    ensures u.voice.None? <==> ChooseVoice(voices, opts).None?
    ensures ChooseVoice(voices, opts).Some? ==> u.voice == Some(voices[ChooseVoice(voices, opts).value])
  {
    Utterance(
      text,
      CopyIfTruthy(opts.rate),
      CopyIfTruthy(opts.pitch),
      if opts.lang != "" then Some(opts.lang) else None,
      match ChooseVoice(voices, opts)
      case Some(i) => Some(voices[i])
      case None => None)
  }

  // A reference reading of a fallback chain, and the chain proved equal to it.

  /** `i` is the first position of a voice that satisfies `p`. */
  predicate FirstHit(voices: seq<Voice>, p: Voice -> bool, i: nat) {
    i < |voices| && p(voices[i]) && forall j :: 0 <= j < i ==> !p(voices[j])
  }

  /** No voice satisfies `p`. */
  predicate NoHit(voices: seq<Voice>, p: Voice -> bool) {
    forall j :: 0 <= j < |voices| ==> !p(voices[j])
  }

  /**
   * Rules tried one after the other over the whole list: the first rule that
   * any voice satisfies decides, and within it the first such voice wins.
   */
  function FirstOfRules(voices: seq<Voice>, rules: seq<Voice -> bool>): (r: Option<nat>)
    ensures r.Some? ==>
      exists k :: 0 <= k < |rules| && FirstHit(voices, rules[k], r.value) &&
                  forall m :: 0 <= m < k ==> NoHit(voices, rules[m])
    ensures r.None? ==> forall k :: 0 <= k < |rules| ==> NoHit(voices, rules[k])
  {
    if rules == [] then None
    else
      var hit := FindIndex(voices, rules[0]);
      if hit.Some? then
        assert FirstHit(voices, rules[0], hit.value);
        hit
      else
        var rest := FirstOfRules(voices, rules[1..]);
        assert forall k :: 1 <= k < |rules| ==> rules[k] == rules[1..][k - 1];
        rest
  }

  /** The rules the language chain consults for `lang`, in order. */
  function LanguageRules(lang: string): seq<Voice -> bool> {
    var prefix := LangPrefix(lang);
    [HasLang(lang), HasIndiaRegion(prefix)] +
    match IndianKeywords(prefix)
    case Keywords(words) => [MentionsKeyword(words), HasLangPrefix(prefix)]
    case NoKeywords => [HasLangPrefix(prefix)]
    case LookupThrows => []
  }

  /** Unfolds the reference reading by one rule. */
  lemma FirstOfRulesStep(voices: seq<Voice>, p: Voice -> bool, rest: seq<Voice -> bool>)
    ensures FirstOfRules(voices, [p] + rest) ==
      if FindIndex(voices, p).Some? then FindIndex(voices, p) else FirstOfRules(voices, rest)
  {
    assert ([p] + rest)[1..] == rest;
  }

  /**
   * The language chain is exactly "first rule with a hit" over exact tag,
   * `<prefix>-in`, keywords (only for hi/kn/ta/te) and prefix, in that order.
   */
  lemma {:induction false} LanguageChainOrder(voices: seq<Voice>, lang: string)
    ensures LanguageFallback(voices, lang) == FirstOfRules(voices, LanguageRules(lang))
  {
    var prefix := LangPrefix(lang);
    var exact, region, last := HasLang(lang), HasIndiaRegion(prefix), HasLangPrefix(prefix);
    match IndianKeywords(prefix)
    case Keywords(words) =>
      var named := MentionsKeyword(words);
      assert LanguageRules(lang) == [exact] + ([region] + ([named] + ([last] + [])));
      FirstOfRulesStep(voices, exact, [region] + ([named] + ([last] + [])));
      FirstOfRulesStep(voices, region, [named] + ([last] + []));
      FirstOfRulesStep(voices, named, [last] + []);
      FirstOfRulesStep(voices, last, []);
    case NoKeywords =>
      assert LanguageRules(lang) == [exact] + ([region] + ([last] + []));
      FirstOfRulesStep(voices, exact, [region] + ([last] + []));
      FirstOfRulesStep(voices, region, [last] + []);
      FirstOfRulesStep(voices, last, []);
    case LookupThrows =>
      assert LanguageRules(lang) == [exact] + ([region] + []);
      FirstOfRulesStep(voices, exact, [region] + []);
      FirstOfRulesStep(voices, region, []);
  }

  /**
   * With an identifier, the voice is the first one whose URI or name equals it,
   * or none at all: the language rules are not consulted.
   */
  lemma IdentifierDecides(voices: seq<Voice>, opts: SpeakOptions, otherLang: string)
    requires opts.voiceURI != ""
    ensures ChooseVoice(voices, opts) == FindIndex(voices, MatchesIdentifier(opts.voiceURI))
    ensures ChooseVoice(voices, opts) == ChooseVoice(voices, opts.(lang := otherLang))
    ensures ChooseVoice(voices, opts).None? ==>
      forall j :: 0 <= j < |voices| ==> voices[j].voiceURI != opts.voiceURI && voices[j].name != opts.voiceURI
  {
  }

  /** Without an identifier, the first voice whose tag equals the requested one exactly wins over every later rule. */
  lemma ExactLanguageWins(voices: seq<Voice>, opts: SpeakOptions, i: nat)
    requires opts.voiceURI == "" && opts.lang != ""
    requires i < |voices| && voices[i].lang == opts.lang
    ensures ChooseVoice(voices, opts).Some?
    ensures var c := ChooseVoice(voices, opts).value;
      c <= i && voices[c].lang == opts.lang && forall j :: 0 <= j < c ==> voices[j].lang != opts.lang
  {
    var exact := FindIndex(voices, HasLang(opts.lang));
    assert HasLang(opts.lang)(voices[i]);
  }

  /** The prefix is not lower-cased: `HI-XX` finds no `hi-IN` voice by any rule. */
  lemma UpperPrefixFindsNothing()
    ensures ChooseVoice([Voice("Lekha", "hi-IN", "lekha")], SpeakOptions(None, None, "HI-XX", "")).None?
  {
    var voices := [Voice("Lekha", "hi-IN", "lekha")];
    assert LangPrefix("HI-XX") == "HI";
    assert Lower("hi-IN") == "hi-in";
    assert FindIndex(voices, HasLang("HI-XX")).None?;
    assert !HasIndiaRegion("HI")(voices[0]) by {
      assert ("HI" + "-in")[0] != "hi-in"[0];
    }
    assert IndianKeywords("HI") == NoKeywords;
    assert !StartsWith("hi-IN", "HI");
    assert FindIndex(voices, HasLangPrefix("HI")).None?;
  }

  /** The same voice is found for `hi-XX`, by the region rule. */
  lemma LowerPrefixFindsRegion()
    ensures ChooseVoice([Voice("Lekha", "hi-IN", "lekha")], SpeakOptions(None, None, "hi-XX", "")) == Some(0)
  {
    var voices := [Voice("Lekha", "hi-IN", "lekha")];
    assert LangPrefix("hi-XX") == "hi";
    assert Lower("hi-IN") == "hi-in";
    assert FindIndex(voices, HasLang("hi-XX")).None?;
    assert HasIndiaRegion("hi")(voices[0]);
  }

  /** The region rule lower-cases the voice's tag: `HI-IN` is found for `hi-XX`. */
  lemma RegionRuleIgnoresVoiceCase()
    ensures ChooseVoice([Voice("A", "HI-IN", "a")], SpeakOptions(None, None, "hi-XX", "")) == Some(0)
  {
    var voices := [Voice("A", "HI-IN", "a")];
    assert LangPrefix("hi-XX") == "hi";
    assert Lower("HI-IN") == "hi-in";
    assert FindIndex(voices, HasLang("hi-XX")).None?;
    assert HasIndiaRegion("hi")(voices[0]);
  }

  /**
   * A prefix naming an inherited function of the keyword table (such as
   * `constructor`) makes the lookup throw; the exception is swallowed and the
   * prefix rule never runs, so a voice that only that rule would find is not chosen.
   */
  lemma InheritedNameSkipsPrefixRule(voices: seq<Voice>, lang: string)
    requires LangPrefix(lang) in InheritedMethodNames
    requires NoHit(voices, HasLang(lang)) && NoHit(voices, HasIndiaRegion(LangPrefix(lang)))
    ensures LanguageFallback(voices, lang).None?
  {
  }

  /** Number options are copied unchanged and unclamped whenever non-zero, including 0.5 and 2.0. */
  lemma RateAndPitchUnclamped(text: string, opts: SpeakOptions, voices: seq<Voice>, rate: real, pitch: real)
    requires rate != 0.0 && pitch != 0.0
    ensures BuildUtterance(text, opts.(rate := Some(rate), pitch := Some(pitch)), voices).rate == Some(rate)
    ensures BuildUtterance(text, opts.(rate := Some(rate), pitch := Some(pitch)), voices).pitch == Some(pitch)
    ensures BuildUtterance(text, opts.(rate := Some(0.5)), voices).rate == Some(0.5)
    ensures BuildUtterance(text, opts.(rate := Some(2.0)), voices).rate == Some(2.0)
    ensures BuildUtterance(text, opts.(rate := Some(0.0)), voices).rate == None
  {
  }

  // The synthesizer and the hook's state.

  /** A call the hook makes on the platform synthesizer. */
  datatype SynthCall = CancelAll | Enqueue(utterance: Utterance)

  /** The calls `speak(text, opts)` makes: nothing without a synthesizer or text, else cancel then enqueue. */
  function SpeakCalls(hasSynth: bool, text: string, opts: SpeakOptions, voices: seq<Voice>): (c: seq<SynthCall>)
    ensures c == [] <==> !hasSynth || text == ""
    ensures c != [] ==> |c| == 2 && c[0] == CancelAll && c[1].Enqueue? && c[1].utterance.text == text
  {
    if !hasSynth || text == "" then []
    else [CancelAll, Enqueue(BuildUtterance(text, opts, voices))]
  }

  /** The utterances handed to the synthesizer since its last cancel, oldest first. */
  function Pending(calls: seq<SynthCall>): (q: seq<Utterance>)
    ensures |q| <= |calls|
    ensures forall u :: u in q ==> Enqueue(u) in calls
  {
    if calls == [] then []
    else match calls[|calls| - 1]
      case CancelAll => []
      case Enqueue(u) => Pending(calls[..|calls| - 1]) + [u]
  }

  /**
   * An effective `speak` leaves exactly its own utterance queued, whatever was
   * queued before; an ineffective one changes nothing.
   */
  lemma {:induction false} SpeakSupersedes(calls: seq<SynthCall>, hasSynth: bool, text: string, opts: SpeakOptions, voices: seq<Voice>)
    ensures hasSynth && text != "" ==>
      Pending(calls + SpeakCalls(hasSynth, text, opts, voices)) == [BuildUtterance(text, opts, voices)]
    ensures !hasSynth || text == "" ==>
      Pending(calls + SpeakCalls(hasSynth, text, opts, voices)) == Pending(calls)
  {
    if hasSynth && text != "" {
      var u := BuildUtterance(text, opts, voices);
      var all := calls + [CancelAll, Enqueue(u)];
      assert all[..|all| - 1] == calls + [CancelAll];
      assert Pending(calls + [CancelAll]) == [];
    } else {
      assert calls + [] == calls;
    }
  }

  /** After a cancel nothing is queued. */
  lemma CancelClears(calls: seq<SynthCall>)
    ensures Pending(calls + [CancelAll]) == []
  {
  }

  /** The hook: its `speaking` flag and the calls it has made on the synthesizer. */
  class SpeechOutput {
    /** Whether the platform offers a synthesizer at all. */
    const hasSynth: bool
    var speaking: bool
    var calls: seq<SynthCall>

    /** At most one utterance is queued at any time. */
    ghost predicate Valid()
      reads this
    {
      |Pending(calls)| <= 1
    }

    constructor (hasSynth: bool)
      ensures Valid()
      ensures this.hasSynth == hasSynth && !speaking && calls == []
    {
      this.hasSynth := hasSynth;
      speaking := false;
      calls := [];
    }

    /** `speak(text, opts)` against the platform's current voice list. */
    method Speak(text: string, opts: SpeakOptions, voices: seq<Voice>)
      requires Valid()
      modifies this
      ensures Valid()
      ensures speaking == old(speaking)
      ensures calls == old(calls) + SpeakCalls(hasSynth, text, opts, voices)
      ensures hasSynth && text != "" ==> Pending(calls) == [BuildUtterance(text, opts, voices)]
    {
      SpeakSupersedes(calls, hasSynth, text, opts, voices);
      if !hasSynth || text == "" {
        return;
      }
      calls := calls + [CancelAll];
      var u := BuildUtterance(text, opts, voices);
      calls := calls + [Enqueue(u)];
    }

    /** `cancel()`: stop speaking right away; does nothing without a synthesizer. */
    method Cancel()
      requires Valid()
      modifies this
      ensures Valid()
      ensures calls == old(calls) + (if hasSynth then [CancelAll] else [])
      ensures speaking == (old(speaking) && !hasSynth)
    {
      if !hasSynth {
        return;
      }
      calls := calls + [CancelAll];
      speaking := false;
    }

    /** The utterance's `onstart` handler. */
    method Started()
      requires Valid()
      modifies this
      ensures Valid()
      ensures speaking && calls == old(calls)
    {
      speaking := true;
    }

    /** The utterance's `onend` handler. */
    method Ended()
      requires Valid()
      modifies this
      ensures Valid()
      ensures !speaking && calls == old(calls)
    {
      speaking := false;
    }
  }
}
